/** How far appliers can lag behind the cache, and exactly which steps make them. */
module ServiceWatchFreshness {
  import opened Wrappers
  import opened ServiceWatch
  import opened ServiceWatchProofs

  ghost predicate OwedTo(owed: multiset<Delivery>, a: Applier) {
    exists d :: d in owed && d.applier == a
  }

  /** Somebody is about to call the applier: an Add, or the current loop with the cached list. */
  ghost predicate Due(s: State, ep: Endpoint, a: Applier) {
    OwedTo(s.owed, a) || (ep in s.t.current && LoopOwes(s, s.t.current[ep], s.t.CachedFor(ep)))
  }

  /** The list the applier was called with last is the cached one. */
  ghost predicate UpToDate(s: State, ep: Endpoint, a: Applier) {
    s.t.CachedFor(ep) != [] ==> a in s.view && s.view[a] == s.t.CachedFor(ep)
  }

  ghost predicate Fine(s: State, ep: Endpoint, a: Applier) {
    Due(s, ep, a) || UpToDate(s, ep, a)
  }

  /** Every registered applier that nobody is about to call is up to date. */
  ghost predicate Fresh(s: State) {
    forall ep, id :: id in s.t.Registered(ep) ==> Fine(s, ep, s.t.Registered(ep)[id])
  }

  /******* The condition, on the state before the step *******/

  /** The callbacks that a step will make. */
  ghost function Calls(s: State, e: Event): set<Delivery>
    requires Wf(s)
  {
    match e
    case AddCallback(d) => {d}
    case LoopStep(i, _) => if i < |s.loops| && s.loops[i].pc.Delivering? then LoopCalls(s.t, s.loops[i]) else {}
    case _ => {}
  }

  /** A loop other than the one that steps stands before its doCallback with this list. */
  ghost predicate OtherLoopOwes(s: State, e: Event, sid: StatusId, services: Instances) {
    exists k :: 0 <= k < |s.loops| && s.loops[k] == Loop(sid, Delivering(services)) && !(e.LoopStep? && e.i == k)
  }

  /** Apart from the step itself, somebody is about to call the applier. */
  ghost predicate DueElsewhere(s: State, e: Event, ep: Endpoint, a: Applier) {
    || OwedTo(if e.AddCallback? then s.owed - multiset{e.d} else s.owed, a)
    || (ep in s.t.current && OtherLoopOwes(s, e, s.t.current[ep], s.t.CachedFor(ep)))
  }

  /**
   The step is about to call the applier with another list than the one cached for the endpoint, and
   nobody else is about to call that applier.
   */
  ghost predicate Overtakes(s: State, e: Event, ep: Endpoint, id: RegId, d: Delivery)
    requires Wf(s)
  {
    && d in Calls(s, e) && id in s.t.Registered(ep) && s.t.Registered(ep)[id] == d.applier
    && s.t.CachedFor(ep) != [] && s.t.CachedFor(ep) != d.instances
    && !DueElsewhere(s, e, ep, d.applier)
  }

  ghost predicate Overtaken(s: State, e: Event)
    requires Wf(s)
  {
    exists ep, id, d :: Overtakes(s, e, ep, id, d)
  }

  /******* Steps without callbacks *******/

  lemma OwingStays(s: State, r: State, sid: StatusId, c: Instances)
    requires LoopOwes(s, sid, c) && DeliveriesStay(s, r)
    ensures LoopOwes(r, sid, c)
  {
    var i :| 0 <= i < |s.loops| && s.loops[i] == Loop(sid, Delivering(c));
    assert r.loops[i] == Loop(sid, Delivering(c));
  }

  ghost predicate DeliveriesStay(s: State, r: State) {
    forall i :: 0 <= i < |s.loops| && s.loops[i].pc.Delivering? ==> i < |r.loops| && r.loops[i] == s.loops[i]
  }

  /** An applier that was fine stays fine if view and cache stay and debts are kept. */
  lemma FineStays(s: State, r: State, ep: Endpoint, a: Applier)
    requires Fine(s, ep, a) && DeliveriesStay(s, r)
    requires r.view == s.view && forall d :: d in s.owed ==> d in r.owed
    requires ep in r.t.current ==> ep in s.t.current && r.t.current[ep] == s.t.current[ep]
    requires r.t.CachedFor(ep) == s.t.CachedFor(ep) || r.t.CachedFor(ep) == []
    ensures Fine(r, ep, a)
  {
    if r.t.CachedFor(ep) != [] && Due(s, ep, a) {
      if OwedTo(s.owed, a) {
        var d :| d in s.owed && d.applier == a;
        assert d in r.owed;
      } else {
        OwingStays(s, r, s.t.current[ep], s.t.CachedFor(ep));
      }
    }
  }

  lemma AddKeepsFine(s: State, ep: Endpoint, reg: Option<Registration>, e: Endpoint, id: RegId)
    requires Inv(s) && Fresh(s) && Enabled(s, Add(ep, reg)) && id in AddNext(s, ep, reg).t.Registered(e)
    ensures Fine(AddNext(s, ep, reg), e, AddNext(s, ep, reg).t.Registered(e)[id])
  {
    var r := AddNext(s, ep, reg);
    AddRegistered(s.t, ep, reg, e);
    var a := r.t.Registered(e)[id];
    if r.t.CachedFor(e) != [] {
      assert s.t.CachedFor(e) == r.t.CachedFor(e);
      if e == ep && reg.Some? && id == reg.value.id {
        var d := Delivery(a, s.t.CachedFor(ep), s.t.OriginFor(ep));
        assert d in r.owed && d.applier == a;
      } else {
        FineStays(s, r, e, a);
      }
    }
  }

  lemma RemovingKeepsCache(t: Table, u: Table, ep: Endpoint)
    requires OnlyRemoves(t, u)
    ensures u.CachedFor(ep) == t.CachedFor(ep) || u.CachedFor(ep) == []
  {
  }

  lemma CleanupKeepsFine(s: State, ep: Endpoint, id: RegId)
    requires Inv(s) && Fresh(s) && Enabled(s, CleanupStep) && id in CleanerNext(s).t.Registered(ep)
    ensures Fine(CleanerNext(s), ep, CleanerNext(s).t.Registered(ep)[id])
  {
    var r := CleanerNext(s);
    CleanupOnlyRemoves(s);
    RemovingKeepsCache(s.t, r.t, ep);
    FineStays(s, r, ep, s.t.Registered(ep)[id]);
  }

  /** A loop that does not deliver, seen from one endpoint. */
  lemma QuietLoopKeepsFine(s: State, i: nat, input: Input, ep: Endpoint, a: Applier)
    requires Inv(s) && Fine(s, ep, a) && Enabled(s, LoopStep(i, input)) && !s.loops[i].pc.Delivering?
    ensures Fine(LoopNext(s, i, input), ep, a)
  {
    var r, loop := LoopNext(s, i, input), s.loops[i];
    LoopTableFrame(s.t, loop.sid, loop.pc);
    if loop.pc.Applying? && ep in s.t.current && s.t.current[ep] == loop.sid && loop.pc.services != [] {
      assert r.loops[i] == Loop(loop.sid, Delivering(loop.pc.services));
      assert LoopOwes(r, loop.sid, loop.pc.services);
    } else {
      assert r.t.CachedFor(ep) == s.t.CachedFor(ep) || r.t.CachedFor(ep) == [];
      FineStays(s, r, ep, a);
    }
  }

  /******* Steps with callbacks *******/

  ghost predicate MakesCalls(s: State, e: Event)
    requires Wf(s)
  {
    Enabled(s, e) && (e.AddCallback? || (e.LoopStep? && s.loops[e.i].pc.Delivering?))
  }

  /** What such a step changes: the debt it pays, and the views of those it calls. */
  lemma CallsStep(s: State, e: Event)
    requires Wf(s) && MakesCalls(s, e)
    ensures
      var r := Step(s, e);
      && r.t == s.t && |r.loops| == |s.loops|
      && r.owed == (if e.AddCallback? then s.owed - multiset{e.d} else s.owed)
      && (forall k :: 0 <= k < |s.loops| && !(e.LoopStep? && e.i == k) ==> r.loops[k] == s.loops[k])
      && (e.LoopStep? ==> r.loops[e.i].pc == Receiving)
  {
  }

  /** Whoever was due besides the step is due after it, and nobody else. */
  lemma DueAfter(s: State, e: Event, ep: Endpoint, a: Applier)
    requires Wf(s) && MakesCalls(s, e)
    ensures Due(Step(s, e), ep, a) <==> DueElsewhere(s, e, ep, a)
  {
    var r := Step(s, e);
    CallsStep(s, e);
    if ep in s.t.current {
      var due := Loop(s.t.current[ep], Delivering(s.t.CachedFor(ep)));
      assert forall k :: 0 <= k < |r.loops| && r.loops[k] == due ==> s.loops[k] == due && !(e.LoopStep? && e.i == k);
      assert forall k :: 0 <= k < |s.loops| && s.loops[k] == due && !(e.LoopStep? && e.i == k) ==> r.loops[k] == due;
    }
  }

  /** The view of an applier after the step is the list of its call, if it gets one. */
  lemma ViewOfCalled(s: State, e: Event, d: Delivery)
    requires Wf(s) && MakesCalls(s, e) && d in Calls(s, e)
    ensures d.applier in Step(s, e).view && Step(s, e).view[d.applier] == d.instances
  {
  }

  lemma ViewOfOthers(s: State, e: Event, a: Applier)
    requires Wf(s) && MakesCalls(s, e) && forall d :: d in Calls(s, e) ==> d.applier != a
    ensures a in Step(s, e).view <==> a in s.view
    ensures a in s.view ==> Step(s, e).view[a] == s.view[a]
  {
  }

  /** An applier that is called and not overtaken is fine afterwards. */
  lemma CalledIsFine(s: State, e: Event, ep: Endpoint, id: RegId, d: Delivery)
    requires Wf(s) && MakesCalls(s, e) && d in Calls(s, e) && id in s.t.Registered(ep)
    requires s.t.Registered(ep)[id] == d.applier && !Overtakes(s, e, ep, id, d)
    ensures Fine(Step(s, e), ep, d.applier)
  {
    CallsStep(s, e);
    DueAfter(s, e, ep, d.applier);
    ViewOfCalled(s, e, d);
  }

  /** The current loop of an endpoint calls everybody registered there. */
  lemma StepperCalls(s: State, e: Event, ep: Endpoint, id: RegId, k: nat)
    requires Wf(s) && id in s.t.Registered(ep) && ep in s.t.current && k < |s.loops|
    requires s.loops[k].sid == s.t.current[ep] && s.loops[k].pc.Delivering?
    ensures e.LoopStep? && e.i == k ==> exists d :: d in Calls(s, e) && d.applier == s.t.Registered(ep)[id]
  {
    if e.LoopStep? && e.i == k {
      var d := Delivery(s.t.Registered(ep)[id], s.loops[k].pc.services, s.t.OriginOf(s.loops[k].sid));
      assert d in Calls(s, e);
    }
  }

  /** The step pays nobody's debt but that of those it calls. */
  lemma DebtsToOthersStay(s: State, e: Event, ep: Endpoint, id: RegId)
    requires Inv(s) && MakesCalls(s, e) && id in s.t.Registered(ep)
    requires Due(s, ep, s.t.Registered(ep)[id])
    requires forall d :: d in Calls(s, e) ==> d.applier != s.t.Registered(ep)[id]
    ensures DueElsewhere(s, e, ep, s.t.Registered(ep)[id])
  {
    var a := s.t.Registered(ep)[id];
    if OwedTo(s.owed, a) {
      var d :| d in s.owed && d.applier == a;
      assert d in (if e.AddCallback? then s.owed - multiset{e.d} else s.owed);
    } else {
      var sid, c := s.t.current[ep], s.t.CachedFor(ep);
      var k :| 0 <= k < |s.loops| && s.loops[k] == Loop(sid, Delivering(c));
      StepperCalls(s, e, ep, id, k);
    }
  }

  /** An applier that is not called stays fine. */
  lemma UncalledIsFine(s: State, e: Event, ep: Endpoint, id: RegId)
    requires Inv(s) && MakesCalls(s, e) && id in s.t.Registered(ep) && Fine(s, ep, s.t.Registered(ep)[id])
    requires forall d :: d in Calls(s, e) ==> d.applier != s.t.Registered(ep)[id]
    ensures Fine(Step(s, e), ep, s.t.Registered(ep)[id])
  {
    var a := s.t.Registered(ep)[id];
    CallsStep(s, e);
    if Due(s, ep, a) {
      DebtsToOthersStay(s, e, ep, id);
      DueAfter(s, e, ep, a);
    } else {
      ViewOfOthers(s, e, a);
    }
  }

  /******* Exactly the overtaking steps break freshness *******/

  lemma OvertakingBreaks(s: State, e: Event, ep: Endpoint, id: RegId, d: Delivery)
    requires Wf(s) && Enabled(s, e) && Overtakes(s, e, ep, id, d)
    ensures !Fresh(Step(s, e))
  {
    CallsStep(s, e);
    DueAfter(s, e, ep, d.applier);
    ViewOfCalled(s, e, d);
    assert !Fine(Step(s, e), ep, Step(s, e).t.Registered(ep)[id]);
  }

  lemma CallsKeepFine(s: State, e: Event, ep: Endpoint, id: RegId)
    requires Inv(s) && Fresh(s) && MakesCalls(s, e) && !Overtaken(s, e) && id in s.t.Registered(ep)
    ensures Fine(Step(s, e), ep, s.t.Registered(ep)[id])
  {
    if d :| d in Calls(s, e) && d.applier == s.t.Registered(ep)[id] {
      assert !Overtakes(s, e, ep, id, d);
      CalledIsFine(s, e, ep, id, d);
    } else {
      UncalledIsFine(s, e, ep, id);
    }
  }

  lemma FineKept(s: State, e: Event, ep: Endpoint, id: RegId)
    requires Inv(s) && Fresh(s) && Enabled(s, e) && !Overtaken(s, e) && id in Step(s, e).t.Registered(ep)
    ensures Fine(Step(s, e), ep, Step(s, e).t.Registered(ep)[id])
  {
    match e
    case Add(ep', reg) => AddKeepsFine(s, ep', reg, ep, id);
    case AddCallback(_) => CallsKeepFine(s, e, ep, id);
    case LoopStep(i, input) =>
      LoopTableFrame(s.t, s.loops[i].sid, s.loops[i].pc);
      assert Step(s, e).t.Registered(ep) == s.t.Registered(ep);
      if s.loops[i].pc.Delivering? {
        CallsKeepFine(s, e, ep, id);
      } else {
        QuietLoopKeepsFine(s, i, input, ep, s.t.Registered(ep)[id]);
      }
    case CleanupStep => CleanupKeepsFine(s, ep, id);
    case _ => FineStays(s, Step(s, e), ep, s.t.Registered(ep)[id]);
  }

  /**
   From a fresh state a step leads to a fresh state exactly when it is not about to call an applier
   with a list that the cache has moved on from while nobody else is about to call that applier.
   */
  lemma StepKeepsFreshIff(s: State, e: Event)
    requires Inv(s) && Fresh(s) && Enabled(s, e)
    ensures Fresh(Step(s, e)) <==> !Overtaken(s, e)
  {
    if Overtaken(s, e) {
      var ep, id, d :| Overtakes(s, e, ep, id, d);
      OvertakingBreaks(s, e, ep, id, d);
    } else {
      var r := Step(s, e);
      forall ep, id | id in r.t.Registered(ep) ensures Fine(r, ep, r.t.Registered(ep)[id]) {
        FineKept(s, e, ep, id);
      }
    }
  }

  /** In a run without overtaking, every applier that nobody is about to call has seen the cached list last. */
  lemma {:induction false} WithoutOvertakingFresh(ss: seq<State>, es: seq<Event>, n: nat)
    requires Run(ss, es) && n < |ss|
    requires forall k :: 0 <= k < n ==> Wf(ss[k]) && !Overtaken(ss[k], es[k])
    ensures Fresh(ss[n])
  {
    if n > 0 {
      WithoutOvertakingFresh(ss, es, n - 1);
      RunKeepsInv(ss, es, n - 1);
      assert StepAt(ss, es, n - 1);
      StepKeepsFreshIff(ss[n - 1], es[n - 1]);
    }
  }

  /******* Why a step overtakes *******/

  /** What an Add still owes for the latest write of a status is what that status caches. */
  ghost predicate LatestIsCached(s: State) {
    forall d {:trigger Latest(s.t, d)} ::
      d in s.owed && Latest(s.t, d) ==> d.instances == s.t.statuses[d.origin.sid].cache
  }

  /** Statuses whose write count stays keep their cache. */
  ghost predicate CacheNeedsWrite(t: Table, u: Table) {
    && |t.statuses| <= |u.statuses|
    && forall x :: 0 <= x < |t.statuses| && u.statuses[x].write == t.statuses[x].write ==>
         u.statuses[x].cache == t.statuses[x].cache
  }

  lemma StepCacheNeedsWrite(s: State, e: Event)
    requires Wf(s) && Enabled(s, e)
    ensures CacheNeedsWrite(s.t, Step(s, e).t)
  {
    match e
    case LoopStep(i, input) => assert CacheNeedsWrite(s.t, LoopTable(s.t, s.loops[i].sid, s.loops[i].pc));
    case CleanupStep => CleanupOnlyRemoves(s);
    case _ =>
  }

  /** A debt that was there and answers the latest write after the step did so before. */
  lemma LatestWasLatest(s: State, e: Event, d: Delivery)
    requires Wf(s) && Enabled(s, e) && PastOnly(s) && d in s.owed && Latest(Step(s, e).t, d)
    ensures Latest(s.t, d) && Step(s, e).t.statuses[d.origin.sid].cache == s.t.statuses[d.origin.sid].cache
  {
    StepGrows(s, e);
    StepCacheNeedsWrite(s, e);
    assert Past(s.t, d);
  }

  lemma NewDebtIsCached(s: State, ep: Endpoint, reg: Option<Registration>, d: Delivery)
    requires Wf(s) && Enabled(s, Add(ep, reg)) && d in AddNext(s, ep, reg).owed && d !in s.owed
    ensures ep in s.t.current && d.origin.sid == s.t.current[ep]
    ensures d.instances == AddNext(s, ep, reg).t.statuses[d.origin.sid].cache
  {
  }

  /** Debts answer past writes, and those for a latest write carry what is cached. */
  ghost predicate DebtsMatch(s: State) {
    PastOnly(s) && LatestIsCached(s)
  }

  lemma NextKeepsDebts(s: State, e: Event, r: State)
    requires Next(s, e, r) && DebtsMatch(s)
    ensures DebtsMatch(r)
  {
    NextKeepsPastOnly(s, e, r);
    forall d | d in r.owed && Latest(r.t, d) ensures d.instances == r.t.statuses[d.origin.sid].cache {
      if d in s.owed {
        LatestWasLatest(s, e, d);
      } else {
        assert e.Add?;
        NewDebtIsCached(s, e.ep, e.reg, d);
      }
    }
  }

  lemma {:induction false} RunKeepsDebts(ss: seq<State>, es: seq<Event>, n: nat)
    requires Run(ss, es) && n < |ss|
    ensures DebtsMatch(ss[n])
  {
    if n > 0 {
      RunKeepsDebts(ss, es, n - 1);
      assert StepAt(ss, es, n - 1);
      NextKeepsDebts(ss[n - 1], es[n - 1], ss[n]);
    }
  }

  /** An Add calls after the cache it read was written again or its status replaced, or for another endpoint. */
  ghost predicate LateAdd(s: State, e: Event, ep: Endpoint, d: Delivery) {
    e == AddCallback(d) && d.origin != s.t.OriginFor(ep)
  }

  /** A loop delivers although its status has been replaced. */
  ghost predicate ReplacedLoop(s: State, e: Event) {
    e.LoopStep? && e.i < |s.loops| && s.loops[e.i].pc.Delivering? && !s.t.IsCurrent(s.loops[e.i].sid)
  }

  /** A loop delivers to an applier that is registered on a second endpoint. */
  ghost predicate SecondEndpoint(s: State, e: Event, ep: Endpoint, a: Applier) {
    && e.LoopStep? && e.i < |s.loops| && s.loops[e.i].pc.Delivering? && s.loops[e.i].sid < |s.t.statuses|
    && var own := s.t.statuses[s.loops[e.i].sid].endpoint;
       own != ep && exists id :: id in s.t.Registered(own) && s.t.Registered(own)[id] == a
  }

  lemma LoopOvertakesBecause(s: State, e: Event, ep: Endpoint, id: RegId, d: Delivery)
    requires Inv(s) && e.LoopStep? && Overtakes(s, e, ep, id, d)
    ensures ReplacedLoop(s, e) || SecondEndpoint(s, e, ep, d.applier)
  {
    var loop := s.loops[e.i];
    assert s.t.statuses[loop.sid].cache == loop.pc.services == d.instances;
  }

  /**
   In every run, a step that overtakes is a late callback of an Add, a delivery of a replaced loop, or
   one across endpoints.
   */
  lemma OvertakingHasACause(ss: seq<State>, es: seq<Event>, n: nat, ep: Endpoint, id: RegId, d: Delivery)
    requires Run(ss, es) && n < |es| && Wf(ss[n]) && Overtakes(ss[n], es[n], ep, id, d)
    ensures LateAdd(ss[n], es[n], ep, d) || ReplacedLoop(ss[n], es[n]) || SecondEndpoint(ss[n], es[n], ep, d.applier)
  {
    RunKeepsInv(ss, es, n);
    if es[n].LoopStep? {
      LoopOvertakesBecause(ss[n], es[n], ep, id, d);
    } else {
      RunKeepsDebts(ss, es, n);
      assert StepAt(ss, es, n);
      assert d in ss[n].owed;
      assert d.origin == ss[n].t.OriginFor(ep) ==> Latest(ss[n].t, d);
    }
  }
}
