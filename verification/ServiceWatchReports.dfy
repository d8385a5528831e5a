/** What the registry reports is what gets cached and delivered, and nothing else is. */
module ServiceWatchReports {
  import opened Wrappers
  import opened ServiceWatch
  import opened ServiceWatchProofs

  /******* What was reported, on the events of a run *******/

  /** Event `k` reports `x` to the loop of status `sid`. */
  ghost predicate HeardAt(ss: seq<State>, es: seq<Event>, k: nat, sid: StatusId, x: Input)
    requires k < |es| && |ss| == |es| + 1
  {
    es[k].LoopStep? && es[k].input == x && es[k].i < |ss[k].loops| && ss[k].loops[es[k].i].sid == sid
  }

  ghost predicate Heard(ss: seq<State>, es: seq<Event>, n: nat, sid: StatusId, x: Input)
    requires n <= |es| && |ss| == |es| + 1
  {
    exists k: nat :: k < n && HeardAt(ss, es, k, sid, x)
  }

  /** The loop holds something it was given. */
  predicate Holds(pc: LoopPc, x: Input) {
    || (pc.Installing? && x == Watched(pc.watcher))
    || (pc.Applying? && x == Received(pc.services))
    || (pc.Delivering? && x == Received(pc.services))
  }

  /** The status records it: a watcher, or a cache that was written. */
  predicate Records(status: Status, x: Input) {
    || (status.watcher.Some? && x == Watched(status.watcher.value))
    || ((status.write > 0 || status.cache != []) && x == Received(status.cache))
  }

  /******* Where things come from, one step back *******/

  lemma HeldBefore(s: State, e: Event, r: State, i: nat, x: Input)
    requires Next(s, e, r) && i < |r.loops| && Holds(r.loops[i].pc, x)
    ensures i < |s.loops| && s.loops[i].sid == r.loops[i].sid
    ensures Holds(s.loops[i].pc, x) || e == LoopStep(i, x)
  {
    assert i < |s.loops|;
    StepKeepsLoops(s, e, i);
  }

  lemma LoopRecords(t: Table, loop: Loop, sid: StatusId, x: Input)
    requires loop.sid < |t.statuses| && sid < |t.statuses|
    requires Records(LoopTable(t, loop.sid, loop.pc).statuses[sid], x)
    ensures Records(t.statuses[sid], x) || (loop.sid == sid && Holds(loop.pc, x))
  {
  }

  lemma RecordedBefore(s: State, e: Event, r: State, sid: StatusId, x: Input)
    requires Next(s, e, r) && sid < |r.t.statuses| && Records(r.t.statuses[sid], x)
    ensures sid < |s.t.statuses|
    ensures
      || Records(s.t.statuses[sid], x)
      || (e.LoopStep? && e.i < |s.loops| && s.loops[e.i].sid == sid && Holds(s.loops[e.i].pc, x))
  {
    match e
    case Add(_, _) =>
    case LoopStep(i, _) =>
      LoopTableFrame(s.t, s.loops[i].sid, s.loops[i].pc);
      LoopRecords(s.t, s.loops[i], sid, x);
    case CleanupStep => CleanupOnlyRemoves(s);
    case _ =>
  }

  lemma CalledBefore(s: State, e: Event, r: State, d: Delivery)
    requires Next(s, e, r) && (d in r.made || d in r.owed)
    ensures
      || d in s.made || d in s.owed
      || (d.origin.sid < |s.t.statuses| && Records(s.t.statuses[d.origin.sid], Received(d.instances)))
      || (e.LoopStep? && e.i < |s.loops| && s.loops[e.i].sid == d.origin.sid
          && Holds(s.loops[e.i].pc, Received(d.instances)))
  {
    match e
    case Add(ep, reg) => if d in AddNext(s, ep, reg).owed && d !in s.owed { OwedIsRecorded(s, ep, reg, d); }
    case LoopStep(i, _) =>
      assert d in r.made ==> d in s.made || (s.loops[i].pc.Delivering? && d in LoopCalls(s.t, s.loops[i]));
    case _ =>
  }

  lemma OwedIsRecorded(s: State, ep: Endpoint, reg: Option<Registration>, d: Delivery)
    requires Wf(s) && Enabled(s, Add(ep, reg)) && d in AddNext(s, ep, reg).owed && d !in s.owed
    ensures d.origin.sid < |s.t.statuses| && Records(s.t.statuses[d.origin.sid], Received(d.instances))
  {
  }

  /******* Over runs *******/

  lemma HeardLater(ss: seq<State>, es: seq<Event>, m: nat, n: nat, sid: StatusId, x: Input)
    requires |ss| == |es| + 1 && m <= n <= |es| && Heard(ss, es, m, sid, x)
    ensures Heard(ss, es, n, sid, x)
  {
    var k: nat :| k < m && HeardAt(ss, es, k, sid, x);
    assert HeardAt(ss, es, k, sid, x);
  }

  lemma {:induction false} HeldWasHeard(ss: seq<State>, es: seq<Event>, n: nat, i: nat, x: Input)
    requires Run(ss, es) && n < |ss| && i < |ss[n].loops| && Holds(ss[n].loops[i].pc, x)
    ensures Heard(ss, es, n, ss[n].loops[i].sid, x)
  {
    assert n > 0;
    var sid := ss[n].loops[i].sid;
    assert StepAt(ss, es, n - 1);
    HeldBefore(ss[n - 1], es[n - 1], ss[n], i, x);
    if es[n - 1] == LoopStep(i, x) {
      assert HeardAt(ss, es, n - 1, sid, x);
    } else {
      HeldWasHeard(ss, es, n - 1, i, x);
      HeardLater(ss, es, n - 1, n, sid, x);
    }
  }

  lemma {:induction false} RecordedWasHeard(ss: seq<State>, es: seq<Event>, n: nat, sid: StatusId, x: Input)
    requires Run(ss, es) && n < |ss| && sid < |ss[n].t.statuses| && Records(ss[n].t.statuses[sid], x)
    ensures Heard(ss, es, n, sid, x)
  {
    assert n > 0;
    assert StepAt(ss, es, n - 1);
    RecordedBefore(ss[n - 1], es[n - 1], ss[n], sid, x);
    if Records(ss[n - 1].t.statuses[sid], x) {
      RecordedWasHeard(ss, es, n - 1, sid, x);
    } else {
      HeldWasHeard(ss, es, n - 1, es[n - 1].i, x);
    }
    HeardLater(ss, es, n - 1, n, sid, x);
  }

  /**
   What a status caches, once it was written, is exactly a list that the registry reported to the loop
   of that status, and the watcher it holds is one that the registry gave to that loop.
   */
  lemma CacheWasReported(ss: seq<State>, es: seq<Event>, n: nat, sid: StatusId)
    requires Run(ss, es) && n < |ss| && sid < |ss[n].t.statuses|
    ensures
      var status := ss[n].t.statuses[sid];
      && (status.write > 0 || status.cache != [] ==> Heard(ss, es, n, sid, Received(status.cache)))
      && (status.watcher.Some? ==> Heard(ss, es, n, sid, Watched(status.watcher.value)))
  {
    var status := ss[n].t.statuses[sid];
    if status.write > 0 || status.cache != [] { RecordedWasHeard(ss, es, n, sid, Received(status.cache)); }
    if status.watcher.Some? { RecordedWasHeard(ss, es, n, sid, Watched(status.watcher.value)); }
  }

  /** Every callback that was made or is owed carries a list that the registry reported, whole and unchanged. */
  lemma {:induction false} CallbackWasReported(ss: seq<State>, es: seq<Event>, n: nat, d: Delivery)
    requires Run(ss, es) && n < |ss| && (d in ss[n].made || d in ss[n].owed)
    ensures Heard(ss, es, n, d.origin.sid, Received(d.instances))
  {
    assert n > 0;
    var s, sid, x := ss[n - 1], d.origin.sid, Received(d.instances);
    assert StepAt(ss, es, n - 1);
    CalledBefore(s, es[n - 1], ss[n], d);
    if d in s.made || d in s.owed {
      CallbackWasReported(ss, es, n - 1, d);
    } else if sid < |s.t.statuses| && Records(s.t.statuses[sid], x) {
      RecordedWasHeard(ss, es, n - 1, sid, x);
    } else {
      HeldWasHeard(ss, es, n - 1, es[n - 1].i, x);
    }
    HeardLater(ss, es, n - 1, n, sid, x);
  }

  /******* From one step of a loop to its next *******/

  predicate Steps(e: Event, i: nat) {
    e.LoopStep? && e.i == i
  }

  /** Events `k` and `n` are steps of loop `i`, with none of its steps in between. */
  predicate NextStepOf(es: seq<Event>, i: nat, k: nat, n: nat) {
    k < n < |es| && Steps(es[k], i) && Steps(es[n], i) && forall m :: k < m < n ==> !Steps(es[m], i)
  }

  lemma {:induction false} LoopWaits(ss: seq<State>, es: seq<Event>, i: nat, k: nat, n: nat)
    requires Run(ss, es) && k <= n < |ss| && i < |ss[k].loops| && forall m :: k <= m < n ==> !Steps(es[m], i)
    ensures i < |ss[n].loops| && ss[n].loops[i] == ss[k].loops[i]
  {
    if k < n {
      LoopWaits(ss, es, i, k, n - 1);
      assert StepAt(ss, es, n - 1);
      StepKeepsLoops(ss[n - 1], es[n - 1], i);
    }
  }

  /** What a loop makes of what it was given, seen right after the step. */
  lemma LoopTakes(s: State, i: nat, input: Input)
    requires Wf(s) && Enabled(s, LoopStep(i, input)) && (input.Watched? || input.Received? || input.Failed?)
    ensures
      var pc := LoopNext(s, i, input).loops[i].pc;
      match input
      case Watched(w) => pc == Installing(w)
      case Received(c) => pc == Applying(c)
      case Failed(canceled) => pc == Failing(canceled)
  {
  }

  /** Between two steps of a loop it stands where the first one put it. */
  lemma StandsThere(ss: seq<State>, es: seq<Event>, i: nat, k: nat, n: nat)
    requires Run(ss, es) && NextStepOf(es, i, k, n)
    ensures i < |ss[k].loops| && i < |ss[k + 1].loops| && i < |ss[n].loops|
    ensures ss[n].loops[i] == ss[k + 1].loops[i] && ss[n].loops[i].sid == ss[k].loops[i].sid
  {
    assert StepAt(ss, es, k);
    StepKeepsLoops(ss[k], es[k], i);
    LoopWaits(ss, es, i, k + 1, n);
  }

  lemma ApplyingStep(s: State, i: nat, c: Instances)
    requires Wf(s) && Enabled(s, LoopStep(i, Tick)) && s.loops[i].pc == Applying(c)
    ensures
      var r, sid := LoopNext(s, i, Tick), s.loops[i].sid;
      if c != [] && s.t.IsCurrent(sid)
      then
        && r.loops[i] == Loop(sid, Delivering(c)) && sid < |r.t.statuses|
        && r.t.statuses[sid].cache == c && r.t.statuses[sid].write == s.t.statuses[sid].write + 1
      else r.t == s.t && r.loops[i] == Loop(sid, Receiving)
  {
  }

  /**
   If the registry reports a list to a loop and the loop's status is still current at the loop's next
   step, then after that step the status caches exactly that list and the loop owes it to everybody.
   An empty list, or a status that was replaced meanwhile, changes nothing.
   */
  lemma ReportIsCached(ss: seq<State>, es: seq<Event>, i: nat, k: nat, n: nat, c: Instances)
    requires Run(ss, es) && NextStepOf(es, i, k, n) && es[k].input == Received(c)
    ensures i < |ss[k].loops|
    ensures
      var r, sid := ss[n + 1], ss[k].loops[i].sid;
      if c != [] && ss[n].t.IsCurrent(sid)
      then sid < |r.t.statuses| && r.t.statuses[sid].cache == c && LoopOwes(r, sid, c)
      else r.t == ss[n].t && i < |r.loops| && r.loops[i] == Loop(sid, Receiving)
  {
    StandsThere(ss, es, i, k, n);
    assert StepAt(ss, es, k);
    LoopTakes(ss[k], i, Received(c));
    assert StepAt(ss, es, n);
    ApplyingStep(ss[n], i, c);
  }

  lemma DeliveringStep(s: State, i: nat, id: RegId)
    requires Wf(s) && Enabled(s, LoopStep(i, Tick)) && s.loops[i].pc.Delivering?
    requires id in s.t.Registered(s.t.statuses[s.loops[i].sid].endpoint)
    ensures
      var r, a := LoopNext(s, i, Tick), s.t.Registered(s.t.statuses[s.loops[i].sid].endpoint)[id];
      && Delivery(a, s.loops[i].pc.services, s.t.OriginOf(s.loops[i].sid)) in r.made
      && a in r.view && r.view[a] == s.loops[i].pc.services
  {
    var ep := s.t.statuses[s.loops[i].sid].endpoint;
    var d := Delivery(s.t.Registered(ep)[id], s.loops[i].pc.services, s.t.OriginOf(s.loops[i].sid));
    assert d in LoopCalls(s.t, s.loops[i]);
  }

  /** The step after that calls everybody who is then registered on the endpoint, with exactly that list. */
  lemma ReportIsDelivered(
      ss: seq<State>, es: seq<Event>, i: nat, k: nat, n: nat, p: nat, c: Instances, id: RegId)
    requires Run(ss, es) && NextStepOf(es, i, k, n) && NextStepOf(es, i, n, p)
    requires es[k].input == Received(c) && c != [] && i < |ss[k].loops| && ss[n].t.IsCurrent(ss[k].loops[i].sid)
    requires ss[k].loops[i].sid < |ss[p].t.statuses|
    requires id in ss[p].t.Registered(ss[p].t.statuses[ss[k].loops[i].sid].endpoint)
    ensures
      var a := ss[p].t.Registered(ss[p].t.statuses[ss[k].loops[i].sid].endpoint)[id];
      && (exists o :: Delivery(a, c, o) in ss[p + 1].made)
      && a in ss[p + 1].view && ss[p + 1].view[a] == c
  {
    StandsThere(ss, es, i, k, n);
    assert StepAt(ss, es, k);
    LoopTakes(ss[k], i, Received(c));
    assert StepAt(ss, es, n);
    ApplyingStep(ss[n], i, c);
    StandsThere(ss, es, i, n, p);
    assert StepAt(ss, es, p);
    DeliveringStep(ss[p], i, id);
  }

  lemma InstallingStep(s: State, i: nat, w: Watcher)
    requires Wf(s) && Enabled(s, LoopStep(i, Tick)) && s.loops[i].pc == Installing(w)
    ensures
      var r, sid := LoopNext(s, i, Tick), s.loops[i].sid;
      if s.t.IsCurrent(sid)
      then sid < |r.t.statuses| && r.t.statuses[sid].watcher == Some(w) && r.loops[i] == Loop(sid, Receiving)
      else r.t == s.t && r.loops[i] == Loop(sid, Ended)
  {
  }

  /** A watcher that the registry gives is installed if the status is still current; a replaced loop ends. */
  lemma WatcherIsInstalled(ss: seq<State>, es: seq<Event>, i: nat, k: nat, n: nat, w: Watcher)
    requires Run(ss, es) && NextStepOf(es, i, k, n) && es[k].input == Watched(w)
    ensures i < |ss[k].loops| && i < |ss[n + 1].loops|
    ensures
      var r, sid := ss[n + 1], ss[k].loops[i].sid;
      if ss[n].t.IsCurrent(sid)
      then sid < |r.t.statuses| && r.t.statuses[sid].watcher == Some(w) && r.loops[i] == Loop(sid, Receiving)
      else r.loops[i] == Loop(sid, Ended)
  {
    StandsThere(ss, es, i, k, n);
    assert StepAt(ss, es, k);
    LoopTakes(ss[k], i, Watched(w));
    assert StepAt(ss, es, n);
    InstallingStep(ss[n], i, w);
    StepKeepsLoops(ss[n], es[n], i);
  }

  /******* Failures *******/

  ghost predicate CancelledAt(s: State, i: nat) {
    i < |s.loops| && s.loops[i].sid < |s.t.statuses| && s.t.statuses[s.loops[i].sid].cancelled
  }

  /**
   A failure other than context.Canceled is retried: unless the context is cancelled meanwhile, the
   loop's next steps are a wait and a new watch.
   */
  lemma FailureIsRetried(ss: seq<State>, es: seq<Event>, i: nat, k: nat, wait: nat, top: nat, again: nat)
    requires Run(ss, es)
    requires NextStepOf(es, i, k, wait) && NextStepOf(es, i, wait, top) && NextStepOf(es, i, top, again)
    requires es[k].input == Failed(false) && es[top].input == RetryElapsed
    requires !CancelledAt(ss[wait], i) && !CancelledAt(ss[again], i)
    ensures i < |ss[k].loops| && i < |ss[again + 1].loops|
    ensures ss[again + 1].loops[i] == Loop(ss[k].loops[i].sid, Watching)
  {
    StandsThere(ss, es, i, k, wait);
    StandsThere(ss, es, i, wait, top);
    StandsThere(ss, es, i, top, again);
    assert StepAt(ss, es, k);
    LoopTakes(ss[k], i, Failed(false));
    assert StepAt(ss, es, wait);
    assert ss[wait + 1].loops[i].pc == Waiting;
    assert StepAt(ss, es, top);
    assert ss[top + 1].loops[i].pc == Top;
    assert StepAt(ss, es, again);
  }

  /** Once its context is cancelled a loop starts no watch and no wait any more. */
  lemma CancelledLoopWatchesNoMore(ss: seq<State>, es: seq<Event>, n: nat, i: nat)
    requires Run(ss, es) && n < |es| && Steps(es[n], i) && CancelledAt(ss[n], i)
    ensures i < |ss[n + 1].loops| && ss[n + 1].loops[i].pc != Watching && ss[n + 1].loops[i].pc != Waiting
  {
    assert StepAt(ss, es, n);
  }

  /** A loop begins to remove its entry only when its context is cancelled or the registry said context.Canceled. */
  lemma RemovesOnlyWhenTold(ss: seq<State>, es: seq<Event>, n: nat, i: nat)
    requires Run(ss, es) && n < |es| && Steps(es[n], i) && i < |ss[n].loops|
    requires i < |ss[n + 1].loops| && ss[n + 1].loops[i].pc == Removing
    ensures CancelledAt(ss[n], i) || ss[n].loops[i].pc == Failing(true)
  {
    assert StepAt(ss, es, n);
  }
}
