/** What a cleanup round achieves: cancelled appliers go, and a watch that nobody uses is stopped. */
module ServiceWatchCleanup {
  import opened Wrappers
  import opened ServiceWatch
  import opened ServiceWatchProofs

  /******* Cancelled appliers go *******/

  /** The round in progress will still delete the registration. */
  predicate Pending(c: CleanerPc, ep: Endpoint, id: RegId) {
    match c
    case Sleeping => false
    case Scanning(todo) => ep in todo
    case Collected(e, ids, todo) => (e == ep && id in ids) || ep in todo
    case Rechecking(_, todo) => ep in todo
    case Cancelling(_, todo) => ep in todo
  }

  /** If the registration is still there, its applier is cancelled and the round in progress will delete it. */
  ghost predicate Doomed(s: State, ep: Endpoint, id: RegId) {
    id in s.used && (id in s.t.Registered(ep) ==> s.t.Registered(ep)[id] in s.cancelled && Pending(s.cleaner, ep, id))
  }

  lemma ScanKeepsDoomed(s: State, ep: Endpoint, id: RegId)
    requires Wf(s) && s.cleaner.Scanning? && Doomed(s, ep, id)
    ensures Doomed(CleanerNext(s), ep, id)
  {
    var todo := s.cleaner.todo;
    if todo != [] && id in s.t.Registered(ep) {
      assert todo == [todo[0]] + todo[1..];
      if todo[0] == ep { assert id in CollectRegion(s.t, ep, s.cancelled); }
    }
  }

  lemma DeleteKeepsDoomed(s: State, ep: Endpoint, id: RegId)
    requires Wf(s) && s.cleaner.Collected? && Doomed(s, ep, id)
    ensures Doomed(CleanerNext(s), ep, id)
  {
    var r := CleanerNext(s);
    if id in r.t.Registered(ep) { CleanupOnlyRemoves(s); }
  }

  lemma CleanupKeepsDoomed(s: State, ep: Endpoint, id: RegId)
    requires Wf(s) && Enabled(s, CleanupStep) && Doomed(s, ep, id)
    ensures Doomed(CleanerNext(s), ep, id)
  {
    if s.cleaner.Scanning? {
      ScanKeepsDoomed(s, ep, id);
    } else if s.cleaner.Collected? {
      DeleteKeepsDoomed(s, ep, id);
    } else {
      CleanupOnlyRemoves(s);
    }
  }

  lemma NextKeepsDoomed(s: State, e: Event, r: State, ep: Endpoint, id: RegId)
    requires Next(s, e, r) && Doomed(s, ep, id)
    ensures Doomed(r, ep, id)
  {
    match e
    case Add(ep', reg) => AddRegistered(s.t, ep', reg, ep);
    case LoopStep(i, _) =>
      LoopTableFrame(s.t, s.loops[i].sid, s.loops[i].pc);
      assert r.t.Registered(ep) == s.t.Registered(ep);
    case CleanupStep => CleanupKeepsDoomed(s, ep, id);
    case _ => assert r.t == s.t;
  }

  lemma {:induction false} StaysDoomed(ss: seq<State>, es: seq<Event>, m: nat, n: nat, ep: Endpoint, id: RegId)
    requires Run(ss, es) && m <= n < |ss| && Doomed(ss[m], ep, id)
    ensures Doomed(ss[n], ep, id)
  {
    if m < n {
      StaysDoomed(ss, es, m, n - 1, ep, id);
      assert StepAt(ss, es, n - 1);
      NextKeepsDoomed(ss[n - 1], es[n - 1], ss[n], ep, id);
    }
  }

  /** An applier is cancelled exactly when its owner has cancelled it. */
  lemma {:induction false} CancelledIff(ss: seq<State>, es: seq<Event>, n: nat, a: Applier)
    requires Run(ss, es) && n < |ss|
    ensures a in ss[n].cancelled <==> exists c :: 0 <= c < n && es[c] == Cancel(a)
  {
    if n > 0 {
      CancelledIff(ss, es, n - 1, a);
      assert StepAt(ss, es, n - 1);
      CancelledNext(ss[n - 1], es[n - 1], ss[n], a);
      if es[n - 1] == Cancel(a) { assert es[n - 1] == Cancel(a); }
    }
  }

  lemma CancelledNext(s: State, e: Event, r: State, a: Applier)
    requires Next(s, e, r)
    ensures a in r.cancelled <==> a in s.cancelled || e == Cancel(a)
  {
  }

  /**
   Whoever was cancelled before a cleanup round began is gone when the round is over, whatever
   registers, delivers or is cancelled meanwhile.
   */
  lemma RoundRemovesCancelled(ss: seq<State>, es: seq<Event>, c: nat, m: nat, n: nat, ep: Endpoint, id: RegId)
    requires Run(ss, es) && c < m < n < |ss| && es[m].CleanupWakes? && ss[n].cleaner.Sleeping?
    requires id in ss[m].t.Registered(ep) && es[c] == Cancel(ss[m].t.Registered(ep)[id])
    ensures id !in ss[n].t.Registered(ep)
  {
    RunKeepsInv(ss, es, m);
    CancelledIff(ss, es, m, ss[m].t.Registered(ep)[id]);
    assert StepAt(ss, es, m);
    assert ep in ss[m].t.appliers;
    assert Doomed(ss[m + 1], ep, id);
    StaysDoomed(ss, es, m + 1, n, ep, id);
  }

  /******* Unused watches are stopped *******/

  /** Two steps of the cleanup goroutine with none of its steps in between. */
  predicate NextCleanup(es: seq<Event>, k: nat, n: nat) {
    k < n < |es| && es[k].CleanupStep? && es[n].CleanupStep? && forall m :: k < m < n ==> !es[m].CleanupStep?
  }

  lemma NextKeepsCleaner(s: State, e: Event, r: State)
    requires Next(s, e, r) && !e.CleanupStep? && !s.cleaner.Sleeping?
    ensures r.cleaner == s.cleaner
  {
  }

  lemma {:induction false} CleanerWaits(ss: seq<State>, es: seq<Event>, k: nat, n: nat)
    requires Run(ss, es) && k <= n < |ss| && !ss[k].cleaner.Sleeping?
    requires forall m :: k <= m < n ==> !es[m].CleanupStep?
    ensures ss[n].cleaner == ss[k].cleaner
  {
    if k < n {
      CleanerWaits(ss, es, k, n - 1);
      assert StepAt(ss, es, n - 1);
      NextKeepsCleaner(ss[n - 1], es[n - 1], ss[n]);
    }
  }

  lemma DeletingStep(s: State)
    requires Wf(s) && s.cleaner.Collected?
    ensures
      var r := CleanerNext(s);
      && r.cleaner == Rechecking(s.cleaner.ep, s.cleaner.todo)
      && forall id :: id in s.cleaner.ids ==> id !in r.t.Registered(s.cleaner.ep)
  {
  }

  lemma RecheckingStep(s: State, ep: Endpoint)
    requires Wf(s) && s.cleaner.Rechecking? && s.cleaner.ep == ep && s.t.Registered(ep) == map[]
    ensures
      var r := CleanerNext(s);
      && ep !in r.t.current && ep !in r.t.appliers
      && (ep in s.t.current ==> r.cleaner == Cancelling(s.t.current[ep], s.cleaner.todo))
  {
  }

  /** The goroutine's step after it has deleted ids: if nobody is registered then, the watch is dropped. */
  lemma UnusedWatchIsDropped(ss: seq<State>, es: seq<Event>, q: nat, n: nat, ep: Endpoint)
    requires Run(ss, es) && NextCleanup(es, q, n) && ss[q].cleaner.Collected? && ss[q].cleaner.ep == ep
    requires ss[n].t.Registered(ep) == map[]
    ensures ep !in ss[n + 1].t.current && ep !in ss[n + 1].t.appliers
    ensures ep in ss[n].t.current ==> ss[n + 1].cleaner == Cancelling(ss[n].t.current[ep], ss[q].cleaner.todo)
  {
    assert StepAt(ss, es, q);
    DeletingStep(ss[q]);
    CleanerWaits(ss, es, q + 1, n);
    assert StepAt(ss, es, n);
    RecheckingStep(ss[n], ep);
  }

  lemma CancellingStep(s: State)
    requires Wf(s) && s.cleaner.Cancelling?
    ensures
      var r := CleanerNext(s);
      s.cleaner.sid < |r.t.statuses| && r.t.statuses[s.cleaner.sid].cancelled && r.cleaner == Scanning(s.cleaner.todo)
  {
  }

  /** And the goroutine's step after that cancels the context of the status that was dropped. */
  lemma UnusedWatchIsCancelled(ss: seq<State>, es: seq<Event>, q: nat, n: nat, p: nat, ep: Endpoint)
    requires Run(ss, es) && NextCleanup(es, q, n) && NextCleanup(es, n, p)
    requires ss[q].cleaner.Collected? && ss[q].cleaner.ep == ep
    requires ss[n].t.Registered(ep) == map[] && ep in ss[n].t.current
    ensures
      var sid := ss[n].t.current[ep];
      sid < |ss[p + 1].t.statuses| && ss[p + 1].t.statuses[sid].cancelled && !ss[p + 1].t.IsCurrent(sid)
  {
    UnusedWatchIsDropped(ss, es, q, n, ep);
    CleanerWaits(ss, es, n + 1, p);
    assert StepAt(ss, es, p);
    CancellingStep(ss[p]);
    DroppedIsReplaced(ss, es, n, ep);
    ReplacedStaysReplaced(ss, es, n + 1, p + 1, ss[n].t.current[ep]);
  }

  lemma DroppedIsReplaced(ss: seq<State>, es: seq<Event>, n: nat, ep: Endpoint)
    requires Run(ss, es) && n < |es| && ep in ss[n].t.current && ep !in ss[n + 1].t.current
    ensures
      var sid := ss[n].t.current[ep];
      sid < |ss[n + 1].t.statuses| && !ss[n + 1].t.IsCurrent(sid)
  {
    assert StepAt(ss, es, n);
    NextExtends(ss[n], es[n], ss[n + 1]);
  }

  /** An applier disappears only in cleanup, and only after its owner has cancelled it. */
  lemma RemovedOnlyAfterCancel(ss: seq<State>, es: seq<Event>, n: nat, ep: Endpoint, id: RegId)
    requires Run(ss, es) && n < |es| && id in ss[n].t.Registered(ep)
    requires !StillRegistered(ss[n], ss[n + 1], ep, id)
    ensures es[n].CleanupStep? && exists c :: 0 <= c < n && es[c] == Cancel(ss[n].t.Registered(ep)[id])
  {
    OnlyCancelledAreRemoved(ss, es, n, ep, id);
    CancelledIff(ss, es, n, ss[n].t.Registered(ep)[id]);
  }
}
