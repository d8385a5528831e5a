/** What every interleaving of the shared registry watch keeps. */
module ServiceWatchProofs {
  import opened Wrappers
  import opened ServiceWatch

  /******* Each step keeps the invariant *******/

  lemma AddRegistered(t: Table, ep: Endpoint, reg: Option<Registration>, e: Endpoint)
    ensures AddRegion(t, ep, reg).Registered(e) ==
              if e == ep && reg.Some? then t.Registered(e)[reg.value.id := reg.value.applier] else t.Registered(e)
  {
  }

  lemma AddKeepsRegistrations(s: State, ep: Endpoint, reg: Option<Registration>)
    requires Inv(s) && Enabled(s, Add(ep, reg))
    ensures CleanupIsJustified(AddNext(s, ep, reg))
  {
    forall e ensures AddNext(s, ep, reg).t.Registered(e) ==
        if e == ep && reg.Some? then s.t.Registered(e)[reg.value.id := reg.value.applier] else s.t.Registered(e)
    {
      AddRegistered(s.t, ep, reg, e);
    }
  }

  lemma HasLoopStays(s: State, r: State, sid: StatusId)
    requires HasLoop(s, sid)
    requires |s.loops| <= |r.loops| && forall i :: 0 <= i < |s.loops| ==> r.loops[i].sid == s.loops[i].sid
    ensures HasLoop(r, sid)
  {
    var i :| 0 <= i < |s.loops| && s.loops[i].sid == sid;
    assert r.loops[i].sid == sid;
  }

  lemma AddKeepsOneLoopEach(s: State, ep: Endpoint, reg: Option<Registration>)
    requires Inv(s) && Enabled(s, Add(ep, reg))
    ensures OneLoopEach(AddNext(s, ep, reg))
  {
    var r := AddNext(s, ep, reg);
    assert r.loops == s.loops;
    forall sid | 0 <= sid < |r.t.statuses| ensures sid in r.spawns || HasLoop(r, sid) {
      if sid < |s.t.statuses| && sid !in s.spawns { HasLoopStays(s, r, sid); }
    }
  }

  /** A registration stays informed when its status's cache, the calls and the debts stay. */
  lemma InformedStays(s: State, r: State, ep: Endpoint, id: RegId)
    requires Wf(s) && Wf(r)
    requires ep in s.t.current && id in s.t.Registered(ep) && Informed(s, ep, id)
    requires ep in r.t.current && id in r.t.Registered(ep)
    requires r.t.current[ep] == s.t.current[ep] && r.t.Registered(ep)[id] == s.t.Registered(ep)[id]
    requires SameCache(s, r, s.t.current[ep])
    requires forall d :: d in s.made || d in s.owed ==> d in r.made || d in r.owed
    requires var c := s.t.CachedFor(ep); LoopOwes(s, s.t.current[ep], c) ==> LoopOwes(r, s.t.current[ep], c)
    ensures Informed(r, ep, id)
  {
  }

  ghost predicate SameCache(s: State, r: State, sid: StatusId) {
    && sid < |s.t.statuses| && sid < |r.t.statuses|
    && r.t.statuses[sid].cache == s.t.statuses[sid].cache && r.t.statuses[sid].write == s.t.statuses[sid].write
  }

  lemma AddKeepsInformed(s: State, ep: Endpoint, reg: Option<Registration>, e: Endpoint, id: RegId)
    requires Inv(s) && Enabled(s, Add(ep, reg))
    requires var r := AddNext(s, ep, reg); e in r.t.current && id in r.t.Registered(e)
    ensures Informed(AddNext(s, ep, reg), e, id)
  {
    var r := AddNext(s, ep, reg);
    if e in s.t.current && !(reg.Some? && e == ep && id == reg.value.id) {
      assert Informed(s, e, id);
      KeepOwing(s, r, s.t.current[e], s.t.CachedFor(e));
      InformedStays(s, r, e, id);
    }
  }

  lemma AddKeepsInv(s: State, ep: Endpoint, reg: Option<Registration>)
    requires Inv(s) && Enabled(s, Add(ep, reg))
    ensures Inv(Step(s, Add(ep, reg)))
  {
    AddKeepsRegistrations(s, ep, reg);
    AddKeepsOneLoopEach(s, ep, reg);
    var r := AddNext(s, ep, reg);
    forall e, id | e in r.t.current && id in r.t.Registered(e) ensures Informed(r, e, id) {
      AddKeepsInformed(s, ep, reg, e, id);
    }
  }

  /** A loop that owes a delivery still owes it when the loops have not changed. */
  lemma KeepOwing(s: State, r: State, sid: StatusId, c: Instances)
    requires s.loops <= r.loops
    ensures LoopOwes(s, sid, c) ==> LoopOwes(r, sid, c)
  {
    if LoopOwes(s, sid, c) {
      var i :| 0 <= i < |s.loops| && s.loops[i] == Loop(sid, Delivering(c));
      assert r.loops[i] == Loop(sid, Delivering(c));
    }
  }

  lemma SpawnKeepsOneLoopEach(s: State, sid: StatusId)
    requires Inv(s) && Enabled(s, Spawn(sid))
    ensures OneLoopEach(Step(s, Spawn(sid)))
  {
    var r := Step(s, Spawn(sid));
    assert r.loops[|s.loops|].sid == sid;
    forall x | 0 <= x < |r.t.statuses| ensures x in r.spawns || HasLoop(r, x) {
      if x != sid && x !in s.spawns { HasLoopStays(s, r, x); }
    }
  }

  lemma SpawnKeepsInv(s: State, sid: StatusId)
    requires Inv(s) && Enabled(s, Spawn(sid))
    ensures Inv(Step(s, Spawn(sid)))
  {
    var r := Step(s, Spawn(sid));
    SpawnKeepsOneLoopEach(s, sid);
    forall ep, id | ep in r.t.current && id in r.t.Registered(ep) ensures Informed(r, ep, id) {
      assert Informed(s, ep, id);
      KeepOwing(s, r, s.t.current[ep], s.t.CachedFor(ep));
      InformedStays(s, r, ep, id);
    }
  }

  lemma AddCallbackKeepsInv(s: State, d: Delivery)
    requires Inv(s) && Enabled(s, AddCallback(d))
    ensures Inv(Step(s, AddCallback(d)))
  {
    SameLoopsKeepInv(s, Step(s, AddCallback(d)));
  }

  /** Steps that leave loops, current entries and caches alone and only shrink the registrations. */
  lemma SameLoopsKeepInv(s: State, r: State)
    requires Inv(s) && Wf(r)
    requires r.loops == s.loops && r.spawns == s.spawns && |r.t.statuses| == |s.t.statuses|
    requires forall x :: 0 <= x < |s.t.statuses| ==> SameCache(s, r, x)
    requires forall ep :: ep in r.t.current ==> ep in s.t.current && r.t.current[ep] == s.t.current[ep]
    requires forall ep, id :: id in r.t.Registered(ep) ==>
               id in s.t.Registered(ep) && r.t.Registered(ep)[id] == s.t.Registered(ep)[id]
    requires forall d :: d in s.made || d in s.owed ==> d in r.made || d in r.owed
    requires CleanupIsJustified(r)
    ensures Inv(r)
  {
    forall x | 0 <= x < |r.t.statuses| ensures x in r.spawns || HasLoop(r, x) {
      if HasLoop(s, x) { HasLoopStays(s, r, x); }
    }
    forall ep, id | ep in r.t.current && id in r.t.Registered(ep) ensures Informed(r, ep, id) {
      assert Informed(s, ep, id);
      KeepOwing(s, r, s.t.current[ep], s.t.CachedFor(ep));
      InformedStays(s, r, ep, id);
    }
    assert forall i :: 0 <= i < |r.loops| && r.loops[i].pc.Delivering? ==> SameCache(s, r, r.loops[i].sid);
  }

  /** Cleanup takes registrations and entries away, and changes none. */
  ghost predicate OnlyRemoves(t: Table, u: Table) {
    && |u.statuses| == |t.statuses|
    && (forall x :: 0 <= x < |t.statuses| ==> u.statuses[x] == t.statuses[x].(cancelled := u.statuses[x].cancelled))
    && (forall ep :: ep in u.current ==> ep in t.current && u.current[ep] == t.current[ep])
    && (forall ep, id :: id in u.Registered(ep) ==>
          id in t.Registered(ep) && u.Registered(ep)[id] == t.Registered(ep)[id])
  }

  lemma DeleteOnlyRemoves(t: Table, ep: Endpoint, ids: set<RegId>)
    ensures OnlyRemoves(t, DeleteRegion(t, ep, ids))
  {
  }

  /** Only an empty registration is dropped. */
  lemma StopKeepsRegistered(t: Table, ep: Endpoint, e: Endpoint)
    ensures StopRegion(t, ep).Registered(e) == t.Registered(e)
  {
    if |t.Registered(ep)| == 0 { assert t.Registered(ep) == map[]; }
  }

  lemma StopOnlyRemoves(t: Table, ep: Endpoint)
    ensures OnlyRemoves(t, StopRegion(t, ep))
  {
    assert StopRegion(t, ep).statuses == t.statuses;
    forall e ensures StopRegion(t, ep).Registered(e) == t.Registered(e) { StopKeepsRegistered(t, ep, e); }
  }

  lemma CleanupOnlyRemoves(s: State)
    requires Wf(s) && Enabled(s, CleanupStep)
    ensures OnlyRemoves(s.t, CleanerNext(s).t)
  {
    var r := CleanerNext(s);
    if s.cleaner.Collected? {
      DeleteOnlyRemoves(s.t, s.cleaner.ep, s.cleaner.ids);
    } else if s.cleaner.Rechecking? {
      StopOnlyRemoves(s.t, s.cleaner.ep);
    } else {
      assert forall ep :: r.t.Registered(ep) == s.t.Registered(ep);
    }
  }

  /** Collected ids belong to cancelled appliers. */
  lemma CollectIsJustified(s: State, ep: Endpoint, todo: seq<Endpoint>)
    requires CleanupIsJustified(s)
    ensures CleanupIsJustified(s.(cleaner := Collected(ep, CollectRegion(s.t, ep, s.cancelled), todo)))
  {
  }

  lemma RemovingStaysJustified(s: State, r: State)
    requires CleanupIsJustified(s) && OnlyRemoves(s.t, r.t) && !r.cleaner.Collected? && r.used == s.used
    ensures CleanupIsJustified(r)
  {
  }

  lemma CleanupStaysJustified(s: State)
    requires Inv(s) && Enabled(s, CleanupStep)
    ensures CleanupIsJustified(CleanerNext(s))
  {
    var r := CleanerNext(s);
    CleanupOnlyRemoves(s);
    if s.cleaner.Scanning? && s.cleaner.todo != [] {
      CollectIsJustified(s, s.cleaner.todo[0], s.cleaner.todo[1..]);
    } else {
      RemovingStaysJustified(s, r);
    }
  }

  lemma CleanupKeepsInv(s: State)
    requires Inv(s) && Enabled(s, CleanupStep)
    ensures Inv(Step(s, CleanupStep))
  {
    var r := CleanerNext(s);
    CleanupOnlyRemoves(s);
    CleanupStaysJustified(s);
    assert forall x :: 0 <= x < |s.t.statuses| ==> SameCache(s, r, x);
    SameLoopsKeepInv(s, r);
  }

  /** A loop step changes no other loop, so the other loops and their statuses keep what they had. */
  lemma LoopKeepsOneLoopEach(s: State, i: nat, input: Input)
    requires Inv(s) && Enabled(s, LoopStep(i, input))
    ensures OneLoopEach(Step(s, LoopStep(i, input)))
  {
    var r := Step(s, LoopStep(i, input));
    assert forall j :: 0 <= j < |s.loops| ==> r.loops[j].sid == s.loops[j].sid;
    forall x | 0 <= x < |r.t.statuses| ensures x in r.spawns || HasLoop(r, x) {
      if HasLoop(s, x) { HasLoopStays(s, r, x); }
    }
  }

  /** What one loop step leaves alone in the table. */
  ghost predicate LoopFrame(t: Table, u: Table, sid: StatusId) {
    && |u.statuses| == |t.statuses| && u.appliers == t.appliers
    && (forall x :: 0 <= x < |t.statuses| && x != sid ==> u.statuses[x] == t.statuses[x])
    && (forall x :: 0 <= x < |t.statuses| ==>
          u.statuses[x].endpoint == t.statuses[x].endpoint && u.statuses[x].cancelled == t.statuses[x].cancelled)
    && (forall ep :: ep in u.current ==> ep in t.current && u.current[ep] == t.current[ep])
  }

  lemma LoopTableFrame(t: Table, sid: StatusId, pc: LoopPc)
    requires sid < |t.statuses|
    ensures LoopFrame(t, LoopTable(t, sid, pc), sid)
    ensures !pc.Removing? ==> LoopTable(t, sid, pc).current == t.current
    ensures !pc.Applying? ==>
              LoopTable(t, sid, pc).statuses[sid].cache == t.statuses[sid].cache
              && LoopTable(t, sid, pc).statuses[sid].write == t.statuses[sid].write
  {
  }

  /** The loop has just cached: it owes the new list to everybody. */
  lemma WriteInforms(s: State, i: nat, input: Input, ep: Endpoint, id: RegId)
    requires Inv(s) && Enabled(s, LoopStep(i, input)) && s.loops[i].pc.Applying?
    requires ep in s.t.current && s.t.current[ep] == s.loops[i].sid && s.loops[i].pc.services != []
    requires id in s.t.Registered(ep)
    ensures
      var r := LoopNext(s, i, input);
      ep in r.t.current && id in r.t.Registered(ep) && Informed(r, ep, id)
  {
    var r := LoopNext(s, i, input);
    assert r.loops[i] == Loop(s.loops[i].sid, Delivering(s.loops[i].pc.services));
  }

  /** The loop has just run doCallback: everybody registered on its endpoint was called. */
  lemma DeliveryInforms(s: State, i: nat, input: Input, ep: Endpoint, id: RegId)
    requires Inv(s) && Enabled(s, LoopStep(i, input)) && s.loops[i].pc.Delivering?
    requires ep in s.t.current && s.t.current[ep] == s.loops[i].sid && id in s.t.Registered(ep)
    ensures
      var r := LoopNext(s, i, input);
      ep in r.t.current && id in r.t.Registered(ep) && Informed(r, ep, id)
  {
    var r := LoopNext(s, i, input);
    assert Delivery(s.t.Registered(ep)[id], s.loops[i].pc.services, s.t.OriginOf(s.loops[i].sid)) in r.made;
  }

  /** Every other step leaves the cache and whoever owes it alone. */
  lemma OtherwiseInforms(s: State, i: nat, input: Input, ep: Endpoint, id: RegId)
    requires Inv(s) && Enabled(s, LoopStep(i, input))
    requires var r := LoopNext(s, i, input); ep in r.t.current && id in r.t.Registered(ep)
    requires ep in s.t.current && s.t.current[ep] == s.loops[i].sid ==>
               !s.loops[i].pc.Delivering? && !(s.loops[i].pc.Applying? && s.loops[i].pc.services != [])
    ensures Informed(LoopNext(s, i, input), ep, id)
  {
    var r, loop := LoopNext(s, i, input), s.loops[i];
    LoopTableFrame(s.t, loop.sid, loop.pc);
    assert r.t.Registered(ep) == s.t.Registered(ep);
    assert Informed(s, ep, id);
    var sid, c := s.t.current[ep], s.t.CachedFor(ep);
    assert SameCache(s, r, sid);
    if LoopOwes(s, sid, c) {
      var k :| 0 <= k < |s.loops| && s.loops[k] == Loop(sid, Delivering(c));
      assert r.loops[k] == Loop(sid, Delivering(c));
    }
    InformedStays(s, r, ep, id);
  }

  lemma LoopKeepsInformed(s: State, i: nat, input: Input, ep: Endpoint, id: RegId)
    requires Inv(s) && Enabled(s, LoopStep(i, input))
    requires var r := LoopNext(s, i, input); ep in r.t.current && id in r.t.Registered(ep)
    ensures Informed(LoopNext(s, i, input), ep, id)
  {
    var loop := s.loops[i];
    LoopTableFrame(s.t, loop.sid, loop.pc);
    if s.t.current[ep] == loop.sid && loop.pc.Delivering? {
      DeliveryInforms(s, i, input, ep, id);
    } else if s.t.current[ep] == loop.sid && loop.pc.Applying? && loop.pc.services != [] {
      WriteInforms(s, i, input, ep, id);
    } else {
      OtherwiseInforms(s, i, input, ep, id);
    }
  }

  lemma LoopKeepsDeliveringCached(s: State, i: nat, input: Input)
    requires Inv(s) && Enabled(s, LoopStep(i, input))
    ensures DeliveringIsCached(LoopNext(s, i, input))
  {
    var r, loop := LoopNext(s, i, input), s.loops[i];
    LoopTableFrame(s.t, loop.sid, loop.pc);
    forall k | 0 <= k < |r.loops| && r.loops[k].pc.Delivering?
      ensures r.t.statuses[r.loops[k].sid].cache == r.loops[k].pc.services != []
    {
      if k != i { assert r.loops[k] == s.loops[k] && r.loops[k].sid != loop.sid; }
    }
  }

  lemma LoopKeepsInv(s: State, i: nat, input: Input)
    requires Inv(s) && Enabled(s, LoopStep(i, input))
    ensures Inv(Step(s, LoopStep(i, input)))
  {
    var r := LoopNext(s, i, input);
    LoopKeepsOneLoopEach(s, i, input);
    LoopKeepsDeliveringCached(s, i, input);
    LoopTableFrame(s.t, s.loops[i].sid, s.loops[i].pc);
    assert forall ep :: r.t.Registered(ep) == s.t.Registered(ep);
    forall ep, id | ep in r.t.current && id in r.t.Registered(ep) ensures Informed(r, ep, id) {
      LoopKeepsInformed(s, i, input, ep, id);
    }
  }

  lemma StepKeepsInv(s: State, e: Event)
    requires Inv(s) && Enabled(s, e)
    ensures Inv(Step(s, e))
  {
    match e
    case Add(ep, reg) => AddKeepsInv(s, ep, reg);
    case AddCallback(d) => AddCallbackKeepsInv(s, d);
    case Spawn(sid) => SpawnKeepsInv(s, sid);
    case LoopStep(i, input) => LoopKeepsInv(s, i, input);
    case CleanupStep => CleanupKeepsInv(s);
    case Cancel(_) => SameLoopsKeepInv(s, Step(s, e));
    case CleanupWakes(_) => SameLoopsKeepInv(s, Step(s, e));
  }

  /******* Runs *******/

  ghost predicate Next(s: State, e: Event, r: State) {
    Wf(s) && Enabled(s, e) && r == Step(s, e)
  }

  /** Any interleaving, from the freshly built watcher on. */
  ghost predicate Run(ss: seq<State>, es: seq<Event>) {
    && |ss| == |es| + 1
    && ss[0] == Init
    && forall k: nat :: k < |es| ==> StepAt(ss, es, k)
  }

  ghost predicate StepAt(ss: seq<State>, es: seq<Event>, k: nat)
    requires k < |es| && |ss| == |es| + 1
  {
    Next(ss[k], es[k], ss[k + 1])
  }

  lemma {:induction false} RunKeepsInv(ss: seq<State>, es: seq<Event>, n: nat)
    requires Run(ss, es) && n < |ss|
    ensures Inv(ss[n])
  {
    if n > 0 {
      RunKeepsInv(ss, es, n - 1);
      assert StepAt(ss, es, n - 1);
      StepKeepsInv(ss[n - 1], es[n - 1]);
    }
  }

  /******* No lost update *******/

  /** The call answers a write that has happened. */
  predicate Past(t: Table, d: Delivery) {
    d.origin.sid < |t.statuses| && d.origin.write <= t.statuses[d.origin.sid].write
  }

  ghost predicate PastOnly(s: State) {
    forall d {:trigger Past(s.t, d)} :: d in s.made || d in s.owed ==> Past(s.t, d)
  }

  /** Statuses stay and their writes only grow. */
  ghost predicate WritesGrow(t: Table, u: Table) {
    |t.statuses| <= |u.statuses|
    && forall x :: 0 <= x < |t.statuses| ==> t.statuses[x].write <= u.statuses[x].write
  }

  lemma StepGrows(s: State, e: Event)
    requires Wf(s) && Enabled(s, e)
    ensures WritesGrow(s.t, Step(s, e).t)
  {
    match e
    case LoopStep(i, input) => assert WritesGrow(s.t, LoopTable(s.t, s.loops[i].sid, s.loops[i].pc));
    case CleanupStep => CleanupOnlyRemoves(s);
    case _ =>
  }

  /** The call answers the latest write of its status. */
  predicate Latest(t: Table, d: Delivery) {
    d.origin.sid < |t.statuses| && d.origin == t.OriginOf(d.origin.sid)
  }

  lemma AddOwesLatest(s: State, ep: Endpoint, reg: Option<Registration>, d: Delivery)
    requires Wf(s) && Enabled(s, Add(ep, reg)) && d in AddNext(s, ep, reg).owed
    ensures d in s.owed || Latest(s.t, d)
  {
  }

  lemma LoopCallsAreLatest(t: Table, loop: Loop, d: Delivery)
    requires loop.pc.Delivering? && loop.sid < |t.statuses| && d in LoopCalls(t, loop)
    ensures Latest(t, d)
  {
  }

  /** A step's new calls and debts answer the latest write of some status. */
  lemma NewCallsArePast(s: State, e: Event, d: Delivery)
    requires Wf(s) && Enabled(s, e) && (d in Step(s, e).made || d in Step(s, e).owed)
    ensures d in s.made || d in s.owed || Latest(s.t, d)
  {
    match e
    case Add(ep, reg) => if d in AddNext(s, ep, reg).owed { AddOwesLatest(s, ep, reg, d); }
    case LoopStep(i, input) =>
      if s.loops[i].pc.Delivering? && d in LoopCalls(s.t, s.loops[i]) { LoopCallsAreLatest(s.t, s.loops[i], d); }
    case _ =>
  }

  lemma NextKeepsPastOnly(s: State, e: Event, r: State)
    requires Next(s, e, r) && PastOnly(s)
    ensures PastOnly(r)
  {
    StepGrows(s, e);
    forall d | d in r.made || d in r.owed ensures Past(r.t, d) {
      NewCallsArePast(s, e, d);
      assert Latest(s.t, d) || Past(s.t, d);
    }
  }

  lemma {:induction false} RunKeepsPastOnly(ss: seq<State>, es: seq<Event>, n: nat)
    requires Run(ss, es) && n < |ss|
    ensures PastOnly(ss[n])
  {
    if n > 0 {
      RunKeepsPastOnly(ss, es, n - 1);
      assert StepAt(ss, es, n - 1);
      NextKeepsPastOnly(ss[n - 1], es[n - 1], ss[n]);
    }
  }

  /** The write has not happened yet. */
  predicate BeforeWrite(s: State, o: Origin) {
    o.sid >= |s.t.statuses| || s.t.statuses[o.sid].write < o.write
  }

  /**
   No lost update. In every reachable state, if the current status of an endpoint caches a non-empty
   list, then every applier registered there was called for the very write that put it there, or its
   own Add is about to call it for that write, or exactly the watch loop of that status is about to.
   Such a call cannot be an older one with an equal list: before the write nobody had made or owed it.
   */
  lemma NoLostUpdate(ss: seq<State>, es: seq<Event>, n: nat, ep: Endpoint, id: RegId)
    requires Run(ss, es) && n < |ss|
    requires id in ss[n].t.Registered(ep) && ss[n].t.CachedFor(ep) != []
    ensures
      var s := ss[n];
      var d := Delivery(s.t.Registered(ep)[id], s.t.CachedFor(ep), s.t.OriginFor(ep));
      && (d in s.made || d in s.owed || LoopOwes(s, s.t.current[ep], d.instances))
      && forall m: nat :: m < n && BeforeWrite(ss[m], d.origin) ==> d !in ss[m].made && d !in ss[m].owed
  {
    RunKeepsInv(ss, es, n);
    assert Informed(ss[n], ep, id);
    var o := ss[n].t.OriginFor(ep);
    forall m: nat, d: Delivery | m < n && BeforeWrite(ss[m], o) && d.origin == o
      ensures d !in ss[m].made && d !in ss[m].owed
    {
      RunKeepsPastOnly(ss, es, m);
      assert !Past(ss[m].t, d);
    }
  }

  /******* Watches stay alive *******/

  ghost predicate LivePc(pc: LoopPc) {
    pc != Removing && pc != Ended && pc != Failing(true)
  }

  ghost predicate CurrentUncancelled(s: State)
    requires Wf(s)
  {
    forall ep :: ep in s.t.current ==> !s.t.statuses[s.t.current[ep]].cancelled
  }

  ghost predicate CurrentLoopsLive(s: State) {
    forall i :: 0 <= i < |s.loops| && s.t.IsCurrent(s.loops[i].sid) ==> LivePc(s.loops[i].pc)
  }

  ghost predicate AppliersWatched(s: State) {
    forall ep :: s.t.Registered(ep) != map[] ==> ep in s.t.current
  }

  /** Every current status is uncancelled and its loop is not on the way out; every applier has a current status. */
  ghost predicate Live(s: State)
    requires Wf(s)
  {
    && CurrentUncancelled(s) && CurrentLoopsLive(s) && AppliersWatched(s)
    && (s.cleaner.Cancelling? ==> !s.t.IsCurrent(s.cleaner.sid))
  }

  /** The registry reports context.Canceled to the loop of a status that is still current. */
  ghost predicate SpuriousCancel(s: State, e: Event) {
    e.LoopStep? && e.i < |s.loops| && e.input == Failed(true) && s.t.IsCurrent(s.loops[e.i].sid)
  }

  /** A status that was there before is current after Add only if it was before. */
  lemma AddKeepsCurrent(t: Table, ep: Endpoint, reg: Option<Registration>, sid: StatusId)
    requires sid < |t.statuses|
    ensures AddRegion(t, ep, reg).IsCurrent(sid) ==> t.IsCurrent(sid)
  {
  }

  lemma AddKeepsWatched(s: State, ep: Endpoint, reg: Option<Registration>)
    requires Wf(s) && AppliersWatched(s) && Enabled(s, Add(ep, reg))
    ensures AppliersWatched(AddNext(s, ep, reg))
  {
    var r := AddNext(s, ep, reg);
    forall e | r.t.Registered(e) != map[] ensures e in r.t.current {
      if e != ep { assert r.t.Registered(e) == s.t.Registered(e); }
    }
  }

  lemma AddKeepsLive(s: State, ep: Endpoint, reg: Option<Registration>)
    requires Inv(s) && Live(s) && Enabled(s, Add(ep, reg))
    ensures Live(Step(s, Add(ep, reg)))
  {
    var r := AddNext(s, ep, reg);
    AddKeepsWatched(s, ep, reg);
    forall sid: nat | sid < |s.t.statuses| ensures r.t.IsCurrent(sid) ==> s.t.IsCurrent(sid) {
      AddKeepsCurrent(s.t, ep, reg, sid);
    }
    assert r.loops == s.loops;
  }

  /** What cleanup removed was not registered, so what stays registered stays watched. */
  lemma CleanupKeepsWatched(s: State)
    requires Inv(s) && Live(s) && Enabled(s, CleanupStep)
    ensures AppliersWatched(CleanerNext(s))
  {
    var r := CleanerNext(s);
    CleanupOnlyRemoves(s);
    forall e | r.t.Registered(e) != map[] ensures e in r.t.current {
      var id :| id in r.t.Registered(e);
      assert id in s.t.Registered(e);
      assert s.t.Registered(e) != map[];
    }
  }

  /** Live depends on the current entries, which may shrink, and on what they point to. */
  lemma LiveStays(s: State, r: State)
    requires Wf(s) && Wf(r) && Live(s) && AppliersWatched(r) && r.loops == s.loops
    requires forall sid: nat :: r.t.IsCurrent(sid) ==>
               s.t.IsCurrent(sid) && sid < |s.t.statuses| && r.t.statuses[sid].cancelled == s.t.statuses[sid].cancelled
    requires r.cleaner.Cancelling? ==> !r.t.IsCurrent(r.cleaner.sid)
    ensures Live(r)
  {
    forall ep | ep in r.t.current ensures !r.t.statuses[r.t.current[ep]].cancelled {
      var sid := r.t.current[ep];
      assert r.t.IsCurrent(sid) && s.t.statuses[sid].endpoint in s.t.current;
    }
  }

  /** Cleanup cancels only a status that has lost its entry. */
  lemma CleanupKeepsCurrent(s: State, sid: StatusId)
    requires Wf(s) && Enabled(s, CleanupStep) && CleanerNext(s).t.IsCurrent(sid)
    requires s.cleaner.Cancelling? ==> !s.t.IsCurrent(s.cleaner.sid)
    ensures s.t.IsCurrent(sid) && CleanerNext(s).t.statuses[sid].cancelled == s.t.statuses[sid].cancelled
  {
  }

  lemma CleanupKeepsLive(s: State)
    requires Inv(s) && Live(s) && Enabled(s, CleanupStep)
    ensures Live(Step(s, CleanupStep))
  {
    var r := CleanerNext(s);
    CleanupKeepsWatched(s);
    forall sid: nat | r.t.IsCurrent(sid)
      ensures s.t.IsCurrent(sid) && r.t.statuses[sid].cancelled == s.t.statuses[sid].cancelled
    {
      CleanupKeepsCurrent(s, sid);
    }
    LiveStays(s, r);
  }

  /** The loop of a current status does not begin to end, unless it is told so spuriously. */
  lemma LoopStaysLive(s: State, i: nat, input: Input)
    requires Inv(s) && Live(s) && Enabled(s, LoopStep(i, input)) && !SpuriousCancel(s, LoopStep(i, input))
    requires s.t.IsCurrent(s.loops[i].sid)
    ensures LivePc(LoopPcAfter(s.t, s.loops[i].sid, s.loops[i].pc, input)) && !s.loops[i].pc.Removing?
  {
    assert LivePc(s.loops[i].pc) && !s.t.statuses[s.loops[i].sid].cancelled;
  }

  /** The loop of a replaced status leaves the entries alone. */
  lemma LoopKeepsEntries(s: State, i: nat, input: Input)
    requires Inv(s) && Live(s) && Enabled(s, LoopStep(i, input))
    ensures LoopNext(s, i, input).t.current == s.t.current
  {
    assert s.t.IsCurrent(s.loops[i].sid) ==> LivePc(s.loops[i].pc);
  }

  lemma LoopKeepsLoopsLive(s: State, i: nat, input: Input)
    requires Inv(s) && Live(s) && Enabled(s, LoopStep(i, input)) && !SpuriousCancel(s, LoopStep(i, input))
    ensures CurrentLoopsLive(LoopNext(s, i, input))
  {
    var r := LoopNext(s, i, input);
    LoopKeepsEntries(s, i, input);
    LoopTableFrame(s.t, s.loops[i].sid, s.loops[i].pc);
    forall j | 0 <= j < |r.loops| && r.t.IsCurrent(r.loops[j].sid) ensures LivePc(r.loops[j].pc) {
      assert s.t.IsCurrent(s.loops[j].sid);
      if j == i { LoopStaysLive(s, i, input); } else { assert r.loops[j] == s.loops[j]; }
    }
  }

  lemma LoopKeepsLive(s: State, i: nat, input: Input)
    requires Inv(s) && Live(s) && Enabled(s, LoopStep(i, input)) && !SpuriousCancel(s, LoopStep(i, input))
    ensures Live(Step(s, LoopStep(i, input)))
  {
    var r := LoopNext(s, i, input);
    LoopKeepsEntries(s, i, input);
    LoopTableFrame(s.t, s.loops[i].sid, s.loops[i].pc);
    LoopKeepsLoopsLive(s, i, input);
    assert forall e :: r.t.Registered(e) == s.t.Registered(e);
  }

  lemma SpawnKeepsLive(s: State, sid: StatusId)
    requires Inv(s) && Live(s) && Enabled(s, Spawn(sid))
    ensures Live(Step(s, Spawn(sid)))
  {
    var r := Step(s, Spawn(sid));
    assert r.t == s.t && r.loops == s.loops + [Loop(sid, Top)];
  }

  lemma SpuriousCancelBreaksLive(s: State, i: nat)
    requires Inv(s) && Enabled(s, LoopStep(i, Failed(true))) && SpuriousCancel(s, LoopStep(i, Failed(true)))
    ensures !Live(LoopNext(s, i, Failed(true)))
  {
    var r := LoopNext(s, i, Failed(true));
    assert r.loops[i] == Loop(s.loops[i].sid, Failing(true)) && r.t == s.t;
  }

  /** One step from a good state breaks liveness exactly when it is a spurious context.Canceled. */
  lemma StepKeepsLiveIff(s: State, e: Event)
    requires Inv(s) && Live(s) && Enabled(s, e)
    ensures Live(Step(s, e)) <==> !SpuriousCancel(s, e)
  {
    match e
    case Add(ep, reg) => AddKeepsLive(s, ep, reg);
    case LoopStep(i, input) =>
      if SpuriousCancel(s, e) { SpuriousCancelBreaksLive(s, i); } else { LoopKeepsLive(s, i, input); }
    case CleanupStep => CleanupKeepsLive(s);
    case Spawn(sid) => SpawnKeepsLive(s, sid);
    case _ => LiveStays(s, Step(s, e));
  }

  /** The registry never reports context.Canceled to the loop of a current status. */
  ghost predicate Honest(ss: seq<State>, es: seq<Event>)
    requires |ss| == |es| + 1
  {
    forall k :: 0 <= k < |es| ==> !SpuriousCancel(ss[k], es[k])
  }

  lemma {:induction false} HonestRunKeepsLive(ss: seq<State>, es: seq<Event>, n: nat)
    requires Run(ss, es) && n < |ss| && forall k :: 0 <= k < n ==> !SpuriousCancel(ss[k], es[k])
    ensures Inv(ss[n]) && Live(ss[n])
  {
    RunKeepsInv(ss, es, n);
    if n > 0 {
      HonestRunKeepsLive(ss, es, n - 1);
      assert StepAt(ss, es, n - 1);
      StepKeepsLiveIff(ss[n - 1], es[n - 1]);
    }
  }

  /** context.Canceled goes only to a loop whose context has been cancelled. */
  ghost predicate OnlyWhenCancelled(s: State, e: Event) {
    e.LoopStep? && e.input == Failed(true) ==>
      && e.i < |s.loops| && s.loops[e.i].sid < |s.t.statuses|
      && s.t.statuses[s.loops[e.i].sid].cancelled
  }

  /** A registry that reports context.Canceled only for a cancelled context is honest. */
  lemma {:induction false} OnlyWhenCancelledIsHonest(ss: seq<State>, es: seq<Event>, n: nat)
    requires Run(ss, es) && n <= |es| && forall k :: 0 <= k < n ==> OnlyWhenCancelled(ss[k], es[k])
    ensures forall k :: 0 <= k < n ==> !SpuriousCancel(ss[k], es[k])
  {
    if n > 0 {
      OnlyWhenCancelledIsHonest(ss, es, n - 1);
      HonestRunKeepsLive(ss, es, n - 1);
      assert OnlyWhenCancelled(ss[n - 1], es[n - 1]);
    }
  }

  /**
   In every run without a spurious context.Canceled, every endpoint that has an applier is watched: it
   has a current, uncancelled status, and either its Add is about to start the one loop of that status
   or exactly one loop runs for it and has not begun to end.
   */
  lemma EveryApplierIsWatched(ss: seq<State>, es: seq<Event>, n: nat, ep: Endpoint)
    requires Run(ss, es) && n < |ss| && Honest(ss, es)
    requires ss[n].t.Registered(ep) != map[]
    ensures
      var s := ss[n];
      && ep in s.t.current && s.t.current[ep] < |s.t.statuses|
      && var sid := s.t.current[ep];
         && s.t.statuses[sid].endpoint == ep && !s.t.statuses[sid].cancelled
         && (sid in s.spawns ==> s.spawns[sid] == 1 && !HasLoop(s, sid))
         && (sid !in s.spawns ==>
               exists i :: 0 <= i < |s.loops| && s.loops[i].sid == sid && LivePc(s.loops[i].pc)
                 && forall j :: 0 <= j < |s.loops| && s.loops[j].sid == sid ==> j == i)
  {
    HonestRunKeepsLive(ss, es, n);
    var s := ss[n];
    var sid := s.t.current[ep];
    if sid !in s.spawns {
      assert HasLoop(s, sid);
      var i :| 0 <= i < |s.loops| && s.loops[i].sid == sid;
      assert s.t.IsCurrent(sid) && LivePc(s.loops[i].pc);
    }
  }

  /******* Replaced loops are inert *******/

  /** Entries of `u` are entries of `t` or point to statuses created since; statuses keep their endpoint. */
  ghost predicate Extends(t: Table, u: Table) {
    && |t.statuses| <= |u.statuses|
    && (forall x :: 0 <= x < |t.statuses| ==> u.statuses[x].endpoint == t.statuses[x].endpoint)
    && (forall ep :: ep in u.current ==>
          (ep in t.current && u.current[ep] == t.current[ep]) || u.current[ep] >= |t.statuses|)
  }

  lemma LoopExtends(s: State, i: nat, input: Input)
    requires Wf(s) && Enabled(s, LoopStep(i, input))
    ensures Extends(s.t, LoopNext(s, i, input).t)
  {
    var sid, pc := s.loops[i].sid, s.loops[i].pc;
    assert Extends(s.t, LoopTable(s.t, sid, pc));
  }

  lemma CleanerExtends(s: State)
    requires Wf(s) && Enabled(s, CleanupStep)
    ensures Extends(s.t, CleanerNext(s).t)
  {
    CleanupOnlyRemoves(s);
  }

  lemma AddExtends(t: Table, ep: Endpoint, reg: Option<Registration>)
    ensures Extends(t, AddRegion(t, ep, reg))
  {
  }

  lemma NextExtends(s: State, e: Event, r: State)
    requires Next(s, e, r)
    ensures Extends(s.t, r.t)
  {
    match e
    case Add(ep, reg) => AddExtends(s.t, ep, reg);
    case LoopStep(i, input) => LoopExtends(s, i, input);
    case CleanupStep => CleanerExtends(s);
    case _ =>
  }

  /** A status that lost its place never gets it back. */
  lemma {:induction false} ReplacedStaysReplaced(ss: seq<State>, es: seq<Event>, m: nat, n: nat, sid: StatusId)
    requires Run(ss, es) && m <= n < |ss|
    requires sid < |ss[m].t.statuses| && !ss[m].t.IsCurrent(sid)
    ensures sid < |ss[n].t.statuses| && !ss[n].t.IsCurrent(sid)
    decreases n - m
  {
    if m < n {
      assert StepAt(ss, es, m);
      NextExtends(ss[m], es[m], ss[m + 1]);
      ReplacedStaysReplaced(ss, es, m + 1, n, sid);
    }
  }

  /** From then on its loop writes no cache, installs no watcher and deletes no entry, its own or its successor's. */
  lemma ReplacedLoopIsInert(ss: seq<State>, es: seq<Event>, m: nat, n: nat, sid: StatusId)
    requires Run(ss, es) && m <= n < |es|
    requires sid < |ss[m].t.statuses| && !ss[m].t.IsCurrent(sid)
    requires es[n].LoopStep? && es[n].i < |ss[n].loops| && ss[n].loops[es[n].i].sid == sid
    ensures ss[n + 1].t == ss[n].t
  {
    ReplacedStaysReplaced(ss, es, m, n, sid);
    assert StepAt(ss, es, n);
  }

  /******* After a spurious context.Canceled *******/

  /** The loop can only end. */
  predicate Doomed(pc: LoopPc) {
    pc == Failing(true) || pc == Removing || pc == Ended
  }

  /** A loop that has ended has no entry. */
  ghost predicate EndedHasNoEntry(s: State) {
    forall i :: 0 <= i < |s.loops| && s.loops[i].pc.Ended? ==>
      s.loops[i].sid < |s.t.statuses| && !s.t.IsCurrent(s.loops[i].sid)
  }

  /** A loop that ends in this step has no entry afterwards. */
  lemma EndingRemovesEntry(s: State, i: nat, input: Input)
    requires Wf(s) && Enabled(s, LoopStep(i, input)) && LoopNext(s, i, input).loops[i].pc.Ended?
    ensures !LoopNext(s, i, input).t.IsCurrent(s.loops[i].sid)
  {
  }

  /** Every loop is where it was, or has made the step. */
  lemma StepKeepsLoops(s: State, e: Event, i: nat)
    requires Wf(s) && Enabled(s, e) && i < |s.loops|
    ensures
      var r := Step(s, e);
      && i < |r.loops| && r.loops[i].sid == s.loops[i].sid
      && (r.loops[i] == s.loops[i] || (e.LoopStep? && e.i == i))
  {
  }

  lemma ReplacedByExtension(t: Table, u: Table, sid: StatusId)
    requires Extends(t, u) && sid < |t.statuses| && !t.IsCurrent(sid)
    ensures sid < |u.statuses| && !u.IsCurrent(sid)
  {
  }

  lemma StepKeepsEnded(s: State, e: Event, r: State, i: nat)
    requires Next(s, e, r) && EndedHasNoEntry(s) && i < |r.loops| && r.loops[i].pc.Ended?
    ensures r.loops[i].sid < |r.t.statuses| && !r.t.IsCurrent(r.loops[i].sid)
  {
    assert i < |s.loops|;
    StepKeepsLoops(s, e, i);
    if r.loops[i] == s.loops[i] {
      NextExtends(s, e, r);
      ReplacedByExtension(s.t, r.t, s.loops[i].sid);
    } else {
      EndingRemovesEntry(s, i, e.input);
    }
  }

  lemma {:induction false} RunKeepsEnded(ss: seq<State>, es: seq<Event>, n: nat)
    requires Run(ss, es) && n < |ss|
    ensures EndedHasNoEntry(ss[n])
  {
    if n > 0 {
      RunKeepsEnded(ss, es, n - 1);
      assert StepAt(ss, es, n - 1);
      forall i: nat | i < |ss[n].loops| && ss[n].loops[i].pc.Ended?
        ensures ss[n].loops[i].sid < |ss[n].t.statuses| && !ss[n].t.IsCurrent(ss[n].loops[i].sid)
      {
        StepKeepsEnded(ss[n - 1], es[n - 1], ss[n], i);
      }
    }
  }

  lemma NextKeepsDoomed(s: State, e: Event, r: State, i: nat)
    requires Next(s, e, r) && i < |s.loops|
    requires Doomed(s.loops[i].pc) || (e.LoopStep? && e.i == i && e.input == Failed(true))
    ensures i < |r.loops| && r.loops[i].sid == s.loops[i].sid && Doomed(r.loops[i].pc)
  {
    StepKeepsLoops(s, e, i);
  }

  lemma {:induction false} SpuriousCancelDooms(ss: seq<State>, es: seq<Event>, m: nat, n: nat, i: nat)
    requires Run(ss, es) && m < n < |ss|
    requires es[m].LoopStep? && es[m].i == i && es[m].input == Failed(true) && i < |ss[m].loops|
    ensures i < |ss[n].loops| && ss[n].loops[i].sid == ss[m].loops[i].sid && Doomed(ss[n].loops[i].pc)
  {
    if m < n - 1 { SpuriousCancelDooms(ss, es, m, n - 1, i); }
    assert StepAt(ss, es, n - 1);
    NextKeepsDoomed(ss[n - 1], es[n - 1], ss[n], i);
  }

  /**
   What a spurious context.Canceled leads to: from then on that loop never watches, caches or delivers
   again, and once it has ended the entry of its status is gone, unless it was torn down before.
   */
  lemma SpuriousCancelEndsTheWatch(ss: seq<State>, es: seq<Event>, m: nat, n: nat)
    requires Run(ss, es) && m < n < |ss| && SpuriousCancel(ss[m], es[m])
    ensures
      var i, sid := es[m].i, ss[m].loops[es[m].i].sid;
      && i < |ss[n].loops| && ss[n].loops[i].sid == sid && Doomed(ss[n].loops[i].pc)
      && (ss[n].loops[i].pc.Ended? ==> !ss[n].t.IsCurrent(sid))
  {
    SpuriousCancelDooms(ss, es, m, n, es[m].i);
    RunKeepsEnded(ss, es, n);
  }

  /******* Isolation of the cache *******/

  lemma LoopCacheHasOneWriter(s: State, i: nat, input: Input, sid: StatusId)
    requires Wf(s) && Enabled(s, LoopStep(i, input)) && sid < |s.t.statuses|
    requires var u := LoopTable(s.t, s.loops[i].sid, s.loops[i].pc);
             sid < |u.statuses| ==> u.statuses[sid].cache != s.t.statuses[sid].cache
    ensures
      && s.loops[i].sid == sid && s.t.IsCurrent(sid) && s.loops[i].pc.Applying?
      && var r := LoopNext(s, i, input);
         sid < |r.t.statuses| && r.loops[i] == Loop(sid, Delivering(r.t.statuses[sid].cache))
  {
    LoopTableFrame(s.t, s.loops[i].sid, s.loops[i].pc);
  }

  lemma StepCacheHasOneWriter(s: State, e: Event, sid: StatusId)
    requires Wf(s) && Enabled(s, e) && sid < |s.t.statuses|
    requires sid < |Step(s, e).t.statuses| ==> Step(s, e).t.statuses[sid].cache != s.t.statuses[sid].cache
    ensures
      && e.LoopStep? && s.loops[e.i].sid == sid && s.t.IsCurrent(sid)
      && sid < |Step(s, e).t.statuses|
      && Step(s, e).loops[e.i] == Loop(sid, Delivering(Step(s, e).t.statuses[sid].cache))
  {
    match e
    case LoopStep(i, input) => LoopCacheHasOneWriter(s, i, input, sid);
    case CleanupStep => CleanupOnlyRemoves(s);
    case _ =>
  }

  /** Only the loop of a current status ever writes that status's cache, and it then owes the callbacks. */
  lemma CacheHasOneWriter(ss: seq<State>, es: seq<Event>, n: nat, sid: StatusId)
    requires Run(ss, es) && n < |es| && sid < |ss[n].t.statuses|
    requires sid < |ss[n + 1].t.statuses| ==> ss[n + 1].t.statuses[sid].cache != ss[n].t.statuses[sid].cache
    ensures
      && es[n].LoopStep? && es[n].i < |ss[n].loops|
      && ss[n].loops[es[n].i].sid == sid && ss[n].t.IsCurrent(sid)
      && sid < |ss[n + 1].t.statuses| && LoopOwes(ss[n + 1], sid, ss[n + 1].t.statuses[sid].cache)
  {
    assert StepAt(ss, es, n);
    StepCacheHasOneWriter(ss[n], es[n], sid);
  }

  /******* Cleanup *******/

  /** The registration is still there, for the same applier. */
  ghost predicate StillRegistered(s: State, r: State, ep: Endpoint, id: RegId)
    requires id in s.t.Registered(ep)
  {
    id in r.t.Registered(ep) && r.t.Registered(ep)[id] == s.t.Registered(ep)[id]
  }

  lemma CleanupRemovesOnlyCancelled(s: State, ep: Endpoint, id: RegId)
    requires Inv(s) && Enabled(s, CleanupStep)
    requires id in s.t.Registered(ep)
    ensures StillRegistered(s, CleanerNext(s), ep, id) || s.t.Registered(ep)[id] in s.cancelled
  {
    var r := CleanerNext(s);
    if s.cleaner.Collected? {
      if s.cleaner.ep == ep && id in s.cleaner.ids { assert s.t.Registered(ep)[id] in s.cancelled; }
    } else if s.cleaner.Rechecking? {
      StopKeepsRegistered(s.t, s.cleaner.ep, ep);
    } else {
      assert r.t.appliers == s.t.appliers;
    }
  }

  lemma StepRemovesOnlyCancelled(s: State, e: Event, ep: Endpoint, id: RegId)
    requires Inv(s) && Enabled(s, e)
    requires id in s.t.Registered(ep)
    ensures StillRegistered(s, Step(s, e), ep, id) || (e.CleanupStep? && s.t.Registered(ep)[id] in s.cancelled)
  {
    match e
    case Add(ep', reg) =>
      assert reg.Some? ==> reg.value.id != id;
      assert StillRegistered(s, AddNext(s, ep', reg), ep, id);
    case LoopStep(i, input) => assert LoopNext(s, i, input).t.appliers == s.t.appliers;
    case CleanupStep => CleanupRemovesOnlyCancelled(s, ep, id);
    case _ =>
  }

  /** An applier disappears only from the endpoint being cleaned, and only if it is cancelled. */
  lemma OnlyCancelledAreRemoved(ss: seq<State>, es: seq<Event>, n: nat, ep: Endpoint, id: RegId)
    requires Run(ss, es) && n < |es|
    requires id in ss[n].t.Registered(ep)
    ensures
      || StillRegistered(ss[n], ss[n + 1], ep, id)
      || (es[n].CleanupStep? && ss[n].t.Registered(ep)[id] in ss[n].cancelled)
  {
    RunKeepsInv(ss, es, n);
    assert StepAt(ss, es, n);
    StepRemovesOnlyCancelled(ss[n], es[n], ep, id);
  }

  /** The endpoint keeps its current status. */
  ghost predicate KeepsWatch(s: State, r: State, ep: Endpoint)
    requires ep in s.t.current
  {
    ep in r.t.current && r.t.current[ep] == s.t.current[ep]
  }

  lemma LoopKeepsWatches(s: State, i: nat, input: Input, ep: Endpoint)
    requires Inv(s) && Live(s) && Enabled(s, LoopStep(i, input))
    requires ep in s.t.current
    ensures KeepsWatch(s, LoopNext(s, i, input), ep)
  {
    assert s.loops[i].pc.Removing? ==> !s.t.IsCurrent(s.loops[i].sid);
  }

  lemma CleanupTearsDownOnlyUnused(s: State, ep: Endpoint)
    requires Inv(s) && Enabled(s, CleanupStep)
    requires ep in s.t.current
    ensures
      var r := CleanerNext(s);
      KeepsWatch(s, r, ep) || (s.t.Registered(ep) == map[] && r.t.Registered(ep) == map[] && ep !in r.t.current)
  {
  }

  lemma StepTearsDownOnlyUnused(s: State, e: Event, ep: Endpoint)
    requires Inv(s) && Live(s) && Enabled(s, e)
    requires ep in s.t.current
    ensures
      || KeepsWatch(s, Step(s, e), ep)
      || (s.t.Registered(ep) == map[] && Step(s, e).t.Registered(ep) == map[] && ep !in Step(s, e).t.current)
  {
    match e
    case LoopStep(i, input) => LoopKeepsWatches(s, i, input, ep);
    case Add(ep', reg) => assert KeepsWatch(s, AddNext(s, ep', reg), ep);
    case CleanupStep => CleanupTearsDownOnlyUnused(s, ep);
    case _ =>
  }

  /** With an honest registry a watch loses its entry only at an instant when its endpoint has no applier. */
  lemma TornDownOnlyWhenUnused(ss: seq<State>, es: seq<Event>, n: nat, ep: Endpoint)
    requires Run(ss, es) && n < |es| && Honest(ss, es)
    requires ep in ss[n].t.current && !KeepsWatch(ss[n], ss[n + 1], ep)
    ensures ss[n].t.Registered(ep) == map[] && ss[n + 1].t.Registered(ep) == map[] && ep !in ss[n + 1].t.current
  {
    HonestRunKeepsLive(ss, es, n);
    assert StepAt(ss, es, n);
    StepTearsDownOnlyUnused(ss[n], es[n], ep);
  }

  /** A context is cancelled only after its watch was torn down. */
  lemma CancelledOnlyAfterTeardown(ss: seq<State>, es: seq<Event>, n: nat, sid: StatusId)
    requires Run(ss, es) && n < |ss| && Honest(ss, es)
    requires sid < |ss[n].t.statuses| && ss[n].t.statuses[sid].cancelled
    ensures !ss[n].t.IsCurrent(sid)
  {
    HonestRunKeepsLive(ss, es, n);
  }

  /******* Two runs that show the limits, and what bounds them *******/

  ghost predicate Reachable(s: State) {
    exists ss, es :: Run(ss, es) && ss[|es|] == s
  }

  lemma InitIsReachable()
    ensures Reachable(Init)
  {
    assert Run([Init], []) && [Init][0] == Init;
  }

  lemma RunExtends(ss: seq<State>, es: seq<Event>, e: Event, r: State)
    requires Run(ss, es) && Next(ss[|es|], e, r)
    ensures Run(ss + [r], es + [e])
  {
    var ss', es' := ss + [r], es + [e];
    forall k: nat | k < |es'| ensures StepAt(ss', es', k) {
      if k < |es| { assert StepAt(ss, es, k); }
    }
  }

  lemma ReachableBy(s: State, e: Event, r: State)
    requires Reachable(s) && Wf(s) && Enabled(s, e) && r == Step(s, e)
    ensures Wf(r) && Reachable(r)
  {
    var ss, es :| Run(ss, es) && ss[|es|] == s;
    RunExtends(ss, es, e, r);
    assert (ss + [r])[|es + [e]|] == r;
  }

  ghost function Watched1(watcher: Option<Watcher>, cache: Instances, write: nat): Table {
    Table([Status("user", watcher, false, cache, write)], map["user" := 0], map["user" := map["id-1" := 1]])
  }

  /** One loop for "user", on which applier 1 is registered. */
  ghost function Alone(t: Table, pc: LoopPc): State {
    State(t, multiset{}, [Loop(0, pc)], multiset{}, Sleeping, {}, {"id-1"}, {}, map[])
  }

  const FirstReg := Registration("id-1", 1)
  const SecondReg := Registration("id-2", 2)

  lemma FirstAddIsReachable()
    ensures Wf(Alone(Watched1(None, [], 0), Top)) && Reachable(Alone(Watched1(None, [], 0), Top))
  {
    InitIsReachable();
    var s1 := Alone(Watched1(None, [], 0), Top).(spawns := multiset{0}, loops := []);
    ReachableBy(Init, Add("user", Some(FirstReg)), s1);
    ReachableBy(s1, Spawn(0), Alone(Watched1(None, [], 0), Top));
  }

  /** That loop is inside discovery.Watch. */
  lemma FirstWatchIsReachable()
    ensures Wf(Alone(Watched1(None, [], 0), Watching)) && Reachable(Alone(Watched1(None, [], 0), Watching))
  {
    FirstAddIsReachable();
    ReachableBy(Alone(Watched1(None, [], 0), Top), LoopStep(0, Tick), Alone(Watched1(None, [], 0), Watching));
  }

  /** A step of the one loop, unless it delivers. */
  lemma AloneStep(t: Table, pc: LoopPc, input: Input)
    requires Wf(Alone(t, pc)) && Enabled(Alone(t, pc), LoopStep(0, input)) && !pc.Delivering?
    requires Reachable(Alone(t, pc))
    ensures
      var r := Alone(LoopTable(t, 0, pc), LoopPcAfter(t, 0, pc, input));
      Wf(r) && Reachable(r)
  {
    ReachableBy(Alone(t, pc), LoopStep(0, input), Alone(LoopTable(t, 0, pc), LoopPcAfter(t, 0, pc, input)));
  }

  lemma SpuriousCancelIsReachable()
    ensures Wf(Alone(Watched1(None, [], 0), Failing(true))) && Reachable(Alone(Watched1(None, [], 0), Failing(true)))
  {
    FirstWatchIsReachable();
    assert SpuriousCancel(Alone(Watched1(None, [], 0), Watching), LoopStep(0, Failed(true)));
    AloneStep(Watched1(None, [], 0), Watching, Failed(true));
  }

  /** A spurious context.Canceled leaves an endpoint with an applier and without any watch. */
  lemma SpuriousCancelLosesTheWatch()
    ensures exists s :: Reachable(s) && s.t.Registered("user") != map[] && "user" !in s.t.current
  {
    SpuriousCancelIsReachable();
    var t := Watched1(None, [], 0);
    AloneStep(t, Failing(true), Tick);
    AloneStep(t, Removing, Tick);
    var u := RemoveWatcherRegion(t, 0);
    assert u.current == map[] && "id-1" in u.Registered("user");
    assert Reachable(Alone(u, Ended));
  }

  lemma FirstWatcherIsReachable()
    ensures Wf(Alone(Watched1(None, [], 0), Installing(7))) && Reachable(Alone(Watched1(None, [], 0), Installing(7)))
  {
    FirstWatchIsReachable();
    AloneStep(Watched1(None, [], 0), Watching, Watched(7));
  }

  /** The loop has installed its watcher. */
  lemma FirstInstallIsReachable()
    ensures Wf(Alone(Watched1(Some(7), [], 0), Receiving)) && Reachable(Alone(Watched1(Some(7), [], 0), Receiving))
  {
    FirstWatcherIsReachable();
    AloneStep(Watched1(None, [], 0), Installing(7), Tick);
    assert SetWatcherRegion(Watched1(None, [], 0), 0, 7) == Watched1(Some(7), [], 0);
  }

  /** The loop has received a first list and cached it. */
  lemma FirstPushIsReachable()
    ensures
      var s := Alone(Watched1(Some(7), ["a"], 1), Delivering(["a"]));
      Wf(s) && Reachable(s)
  {
    FirstInstallIsReachable();
    var t := Watched1(Some(7), [], 0);
    AloneStep(t, Receiving, Received(["a"]));
    AloneStep(t, Applying(["a"]), Tick);
    assert SetSelectedCacheRegion(t, 0, ["a"]) == Watched1(Some(7), ["a"], 1);
  }

  const A1 := Delivery(1, ["a"], Origin(0, 1))
  const A2 := Delivery(2, ["a"], Origin(0, 1))

  /** The loop has delivered that list. */
  ghost const FirstList := Alone(Watched1(Some(7), ["a"], 1), Receiving).(made := {A1}, view := map[1 := ["a"]])

  lemma FirstListIsReachable()
    ensures Wf(FirstList) && Reachable(FirstList)
  {
    FirstPushIsReachable();
    FirstDelivery();
    ReachableBy(Alone(Watched1(Some(7), ["a"], 1), Delivering(["a"])), LoopStep(0, Tick), FirstList);
  }

  lemma FirstCalls(t: Table)
    requires t == Watched1(Some(7), ["a"], 1)
    ensures LoopCalls(t, Loop(0, Delivering(["a"]))) == {A1}
  {
    var registered, calls := t.Registered("user"), LoopCalls(t, Loop(0, Delivering(["a"])));
    assert registered == map["id-1" := 1];
    assert Delivery(registered["id-1"], ["a"], Origin(0, 1)) in calls;
  }

  lemma FirstDelivery()
    ensures
      var s := Alone(Watched1(Some(7), ["a"], 1), Delivering(["a"]));
      Wf(s) && Enabled(s, LoopStep(0, Tick)) && Step(s, LoopStep(0, Tick)) == FirstList
  {
    FirstCalls(Watched1(Some(7), ["a"], 1));
    assert ViewAfter(map[], {A1}, ["a"]) == map[1 := ["a"]];
  }

  ghost function Watched2(cache: Instances, write: nat): Table {
    Table([Status("user", Some(7), false, cache, write)], map["user" := 0],
          map["user" := map["id-1" := 1, "id-2" := 2]])
  }

  /** Applier 2 has joined and still owes itself the first list. */
  ghost function Joined(t: Table, pc: LoopPc): State {
    State(t, multiset{}, [Loop(0, pc)], multiset{A2}, Sleeping, {}, {"id-1", "id-2"}, {A1}, map[1 := ["a"]])
  }

  lemma JoinedIsReachable()
    ensures Wf(Joined(Watched2(["a"], 1), Receiving)) && Reachable(Joined(Watched2(["a"], 1), Receiving))
  {
    FirstListIsReachable();
    var e, r := Add("user", Some(SecondReg)), Joined(Watched2(["a"], 1), Receiving);
    var registered := FirstList.t.Registered("user");
    assert registered["id-2" := 2] == map["id-1" := 1, "id-2" := 2];
    assert AddRegion(FirstList.t, "user", Some(SecondReg)) == r.t;
    ReachableBy(FirstList, e, r);
  }

  /** The loop is about to deliver a second list. */
  ghost const SecondList := Joined(Watched2(["b"], 2), Delivering(["b"]))

  lemma SecondListIsReachable()
    ensures Wf(SecondList) && Reachable(SecondList)
  {
    JoinedIsReachable();
    var t := Watched2(["a"], 1);
    ReachableBy(Joined(t, Receiving), LoopStep(0, Received(["b"])), Joined(t, Applying(["b"])));
    ReachableBy(Joined(t, Applying(["b"])), LoopStep(0, Tick), SecondList);
  }

  ghost function SecondDelivery(): (r: State)
    ensures Wf(r) && r.t == SecondList.t && r.loops == [Loop(0, Receiving)] && r.owed == multiset{A2}
  {
    LoopNext(SecondList, 0, Tick)
  }

  lemma SecondDeliveryIsReachable()
    ensures Reachable(SecondDelivery())
  {
    SecondListIsReachable();
    ReachableBy(SecondList, LoopStep(0, Tick), SecondDelivery());
  }

  /**
   The callback an Add makes after unlocking can be overtaken: the last list an applier was called
   with is then older than the cache although nobody owes it anything.
   */
  lemma LastCallbackCanBeStale()
    ensures exists s :: Reachable(s) && s.owed == multiset{} && !LoopOwes(s, 0, ["b"])
              && s.t.Registered("user") == map["id-1" := 1, "id-2" := 2] && s.t.CachedFor("user") == ["b"]
              && 2 in s.view && s.view[2] == ["a"]
  {
    SecondDeliveryIsReachable();
    var s := Step(SecondDelivery(), AddCallback(A2));
    ReachableBy(SecondDelivery(), AddCallback(A2), s);
    assert s.t == Watched2(["b"], 2) && s.loops == [Loop(0, Receiving)] && s.view[2] == ["a"];
  }

  /** The next delivery of the current loop repairs that: every registered applier was last called with the cache. */
  lemma DeliveryRefreshesEveryApplier(ss: seq<State>, es: seq<Event>, n: nat, ep: Endpoint, id: RegId)
    requires Run(ss, es) && n < |es|
    requires es[n].LoopStep? && es[n].i < |ss[n].loops| && ss[n].loops[es[n].i].pc.Delivering?
    requires ep in ss[n].t.current && ss[n].t.current[ep] == ss[n].loops[es[n].i].sid
    requires id in ss[n].t.Registered(ep)
    ensures
      var r := ss[n + 1];
      && StillRegistered(ss[n], r, ep, id)
      && r.t.Registered(ep)[id] in r.view && r.view[r.t.Registered(ep)[id]] == r.t.CachedFor(ep) != []
  {
    RunKeepsInv(ss, es, n);
    assert StepAt(ss, es, n);
    var s := ss[n];
    assert Delivery(s.t.Registered(ep)[id], s.t.CachedFor(ep), s.t.OriginFor(ep)) in LoopCalls(s.t, s.loops[es[n].i]);
  }
}
