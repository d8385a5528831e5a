/** Drain before close, over every interleaving of reloads, requests and closing routers. */
module DrainProofs {
  import opened Wrappers
  import opened RouterLifecycle

  /******* The wait group counts the requests inside *******/

  ghost function InsideOf(requests: map<RequestId, Request>, r: nat): set<RequestId> {
    set q | q in requests && Inside(requests[q], r)
  }

  ghost predicate Counted(g: Gateway) {
    forall r :: 0 <= r < |g.routers| ==> g.routers[r].counter == |InsideOf(g.requests, r)|
  }

  ghost predicate KnownRouters(g: Gateway) {
    forall q :: q in g.requests ==> g.requests[q].router < |g.routers|
  }

  /******* Times *******/

  ghost predicate OrderedRequest(q: Request, now: nat) {
    && q.loadedAt < now
    && (q.enteredAt.Some? ==> q.loadedAt < q.enteredAt.value < now)
    && (q.leftAt.Some? ==> q.enteredAt.Some? && q.enteredAt.value < q.leftAt.value < now)
  }

  ghost predicate OrderedPhase(p: Phase, now: nat) {
    match p
    case Serving => true
    case Retired(swappedAt) => swappedAt < now
    case Waiting(swappedAt, waitAt) => swappedAt < waitAt < now
    case Closing(swappedAt, waitAt, endAt, _, at) =>
      && swappedAt < waitAt < endAt < now
      && forall k :: 0 <= k < |at| ==> endAt < at[k] < now
  }

  /** A request on a replaced router loaded it before the swap. */
  ghost predicate LoadedBeforeSwap(q: Request, p: Phase) {
    p.Serving? || q.loadedAt < p.swappedAt
  }

  /** A request that entered a drained router before the drain has left it before the drain. */
  ghost predicate GoneAtDrain(q: Request, p: Phase) {
    p.Closing? && !p.forced && q.enteredAt.Some? && q.enteredAt.value <= p.endAt ==>
      q.leftAt.Some? && q.leftAt.value < p.endAt
  }

  ghost predicate Fits(q: Request, p: Phase, now: nat) {
    OrderedRequest(q, now) && LoadedBeforeSwap(q, p) && GoneAtDrain(q, p)
  }

  ghost predicate OnlyLastServes(g: Gateway) {
    g.routers != [] && forall r :: 0 <= r < |g.routers| ==> (g.routers[r].phase.Serving? <==> r == |g.routers| - 1)
  }

  ghost predicate Timed(g: Gateway) {
    && (forall r :: 0 <= r < |g.routers| ==> OrderedPhase(g.routers[r].phase, g.clock))
    && (forall q :: q in g.requests ==>
          g.requests[q].router < |g.routers| && Fits(g.requests[q], g.routers[g.requests[q].router].phase, g.clock))
  }

  ghost predicate DrainInv(g: Gateway) {
    OnlyLastServes(g) && KnownRouters(g) && Counted(g) && Timed(g)
  }

  /******* Steps *******/

  /** One request changes: the others stay inside or outside. */
  lemma InsideOneChanged(requests: map<RequestId, Request>, q: RequestId, changed: Request, r: nat)
    ensures InsideOf(requests[q := changed], r) ==
              if Inside(changed, r) then InsideOf(requests, r) + {q} else InsideOf(requests, r) - {q}
  {
  }

  lemma EnterCounts(g: Gateway, q: RequestId)
    requires DrainInv(g) && Enabled(g, Enter(q))
    ensures Counted(Step(g, Enter(q)))
  {
    var h, own := Step(g, Enter(q)), g.requests[q].router;
    forall r: nat | r < |g.routers| ensures h.routers[r].counter == |InsideOf(h.requests, r)| {
      InsideOneChanged(g.requests, q, g.requests[q].(enteredAt := Some(g.clock)), r);
      assert q !in InsideOf(g.requests, r);
    }
  }

  /** One request changes and no phase does. */
  lemma RequestKeepsTimed(g: Gateway, h: Gateway, q: RequestId, changed: Request)
    requires Timed(g) && h.clock == g.clock + 1 && h.requests == g.requests[q := changed]
    requires |h.routers| == |g.routers| && forall r :: 0 <= r < |g.routers| ==> h.routers[r].phase == g.routers[r].phase
    requires changed.router < |g.routers| && Fits(changed, g.routers[changed.router].phase, h.clock)
    ensures Timed(h)
  {
    forall x | x in h.requests
      ensures h.requests[x].router < |h.routers| && Fits(h.requests[x], h.routers[h.requests[x].router].phase, h.clock)
    {
      if x != q { assert Fits(g.requests[x], g.routers[g.requests[x].router].phase, g.clock); }
    }
    forall r | 0 <= r < |h.routers| ensures OrderedPhase(h.routers[r].phase, h.clock) {
      assert OrderedPhase(g.routers[r].phase, g.clock);
    }
  }

  lemma LoadKeepsDrainInv(g: Gateway, q: RequestId)
    requires DrainInv(g) && Enabled(g, Load(q))
    ensures DrainInv(Step(g, Load(q)))
  {
    var h, loaded := Step(g, Load(q)), Request(|g.routers| - 1, g.clock, None, None);
    forall r: nat | r < |g.routers| ensures InsideOf(h.requests, r) == InsideOf(g.requests, r) {
      InsideOneChanged(g.requests, q, loaded, r);
      assert q !in InsideOf(g.requests, r);
    }
    RequestKeepsTimed(g, h, q, loaded);
  }

  lemma EnterKeepsDrainInv(g: Gateway, q: RequestId)
    requires DrainInv(g) && Enabled(g, Enter(q))
    ensures DrainInv(Step(g, Enter(q)))
  {
    EnterCounts(g, q);
    assert OrderedPhase(g.routers[g.requests[q].router].phase, g.clock);
    RequestKeepsTimed(g, Step(g, Enter(q)), q, g.requests[q].(enteredAt := Some(g.clock)));
  }

  lemma LeaveCounts(g: Gateway, q: RequestId)
    requires DrainInv(g) && Enabled(g, Leave(q))
    ensures Counted(Step(g, Leave(q)))
  {
    var h, own := Step(g, Leave(q)), g.requests[q].router;
    forall r: nat | r < |g.routers| ensures h.routers[r].counter == |InsideOf(h.requests, r)| {
      InsideOneChanged(g.requests, q, g.requests[q].(leftAt := Some(g.clock)), r);
      assert q in InsideOf(g.requests, r) <==> r == own;
    }
  }

  lemma LeaveKeepsDrainInv(g: Gateway, q: RequestId)
    requires DrainInv(g) && Enabled(g, Leave(q))
    ensures DrainInv(Step(g, Leave(q)))
  {
    LeaveCounts(g, q);
    assert OrderedPhase(g.routers[g.requests[q].router].phase, g.clock);
    RequestKeepsTimed(g, Step(g, Leave(q)), q, g.requests[q].(leftAt := Some(g.clock)));
  }

  lemma NobodyInside(requests: map<RequestId, Request>, r: nat)
    requires |InsideOf(requests, r)| == 0
    ensures forall q :: q in requests ==> !Inside(requests[q], r)
  {
    forall q | q in requests ensures !Inside(requests[q], r) {
      assert q !in InsideOf(requests, r);
    }
  }

  /** Only the phase of one router changes, to one that fits the times so far. */
  lemma PhaseKeepsDrainInv(g: Gateway, h: Gateway, r: nat, phase: Phase)
    requires DrainInv(g) && r < |g.routers|
    requires h.clock == g.clock + 1 && h.requests == g.requests && h.routers == SetPhase(g, r, phase).routers
    requires !phase.Serving? && !g.routers[r].phase.Serving?
    requires phase.swappedAt == g.routers[r].phase.swappedAt && OrderedPhase(phase, h.clock)
    requires forall q :: q in g.requests && g.requests[q].router == r ==> GoneAtDrain(g.requests[q], phase)
    ensures DrainInv(h)
  {
    forall q | q in h.requests
      ensures h.requests[q].router < |h.routers| && Fits(h.requests[q], h.routers[h.requests[q].router].phase, h.clock)
    {
      assert Fits(g.requests[q], g.routers[g.requests[q].router].phase, g.clock);
    }
  }

  lemma CloserKeepsDrainInv(g: Gateway, e: Event)
    requires DrainInv(g) && Enabled(g, e) && (e.BeginWait? || e.Drained? || e.TimeOut? || e.CloseNext?)
    ensures DrainInv(Step(g, e))
  {
    var h := Step(g, e);
    if e.Drained? { NobodyInside(g.requests, e.r); }
    assert OrderedPhase(g.routers[e.r].phase, g.clock);
    forall q | q in g.requests && g.requests[q].router == e.r
      ensures GoneAtDrain(g.requests[q], h.routers[e.r].phase)
    {
      assert Fits(g.requests[q], g.routers[e.r].phase, g.clock);
    }
    PhaseKeepsDrainInv(g, h, e.r, h.routers[e.r].phase);
  }

  lemma SwapKeepsTimed(g: Gateway, h: Gateway, added: Router)
    requires OnlyLastServes(g) && Timed(g) && h.clock == g.clock + 1 && h.requests == g.requests
    requires h.routers == SetPhase(g, |g.routers| - 1, Retired(g.clock)).routers + [added] && added.phase.Serving?
    ensures Timed(h)
  {
    forall r | 0 <= r < |h.routers| ensures OrderedPhase(h.routers[r].phase, h.clock) {
      if r < |g.routers| { assert OrderedPhase(g.routers[r].phase, g.clock); }
    }
    forall q | q in h.requests
      ensures h.requests[q].router < |h.routers| && Fits(h.requests[q], h.routers[h.requests[q].router].phase, h.clock)
    {
      assert Fits(g.requests[q], g.routers[g.requests[q].router].phase, g.clock);
    }
  }

  lemma SwapKeepsDrainInv(g: Gateway, h: Gateway, added: Router)
    requires DrainInv(g) && h.clock == g.clock + 1 && h.requests == g.requests
    requires h.routers == SetPhase(g, |g.routers| - 1, Retired(g.clock)).routers + [added]
    requires added.phase.Serving? && added.counter == 0
    ensures DrainInv(h)
  {
    SwapKeepsTimed(g, h, added);
    assert InsideOf(g.requests, |g.routers|) == {};
  }

  lemma UpdateKeepsDrainInv(g: Gateway, builds: seq<Build>)
    requires DrainInv(g)
    ensures DrainInv(Step(g, Update(builds)))
  {
    var h := Step(g, Update(builds));
    if UpdateFails(builds) {
      forall q | q in h.requests
        ensures h.requests[q].router < |h.routers|
        ensures Fits(h.requests[q], h.routers[h.requests[q].router].phase, h.clock)
      {
        assert Fits(g.requests[q], g.routers[g.requests[q].router].phase, g.clock);
      }
    } else {
      SwapKeepsDrainInv(g, h, Router(BuildAll(builds, g.next).registered, 0, Serving));
    }
  }

  lemma StepKeepsDrainInv(g: Gateway, e: Event)
    requires DrainInv(g) && Enabled(g, e)
    ensures DrainInv(Step(g, e))
  {
    match e
    case Update(builds) => UpdateKeepsDrainInv(g, builds);
    case Load(q) => LoadKeepsDrainInv(g, q);
    case Enter(q) => EnterKeepsDrainInv(g, q);
    case Leave(q) => LeaveKeepsDrainInv(g, q);
    case _ => CloserKeepsDrainInv(g, e);
  }

  lemma InitDrainInv()
    ensures DrainInv(Init)
  {
    assert InsideOf(Init.requests, 0) == {};
  }

  lemma {:induction false} RunKeepsDrainInv(gs: seq<Gateway>, es: seq<Event>, n: nat)
    requires Run(gs, es) && n < |gs|
    ensures DrainInv(gs[n])
  {
    if n == 0 {
      InitDrainInv();
    } else {
      RunKeepsDrainInv(gs, es, n - 1);
      StepKeepsDrainInv(gs[n - 1], es[n - 1]);
    }
  }

  /******* Theorems *******/

  /**
   When the wait did not time out, every request that had entered the old router before the wait
   began left it before any of the router's closers ran.
   */
  lemma DrainBeforeClose(gs: seq<Gateway>, es: seq<Event>, n: nat, r: nat, q: RequestId, k: nat)
    requires Run(gs, es) && n < |gs|
    requires r < |gs[n].routers| && gs[n].routers[r].phase.Closing? && !gs[n].routers[r].phase.forced
    requires q in gs[n].requests && gs[n].requests[q].router == r
    requires gs[n].requests[q].enteredAt.Some? && gs[n].requests[q].enteredAt.value < gs[n].routers[r].phase.waitAt
    requires k < |gs[n].routers[r].phase.at|
    ensures gs[n].requests[q].leftAt.Some? && gs[n].requests[q].leftAt.value < gs[n].routers[r].phase.at[k]
  {
    RunKeepsDrainInv(gs, es, n);
  }

  /**
   A request that is inside a router that is closing had loaded the router before the swap; and
   unless the wait timed out it entered only after the drain.
   */
  lemma LateRequestsOnly(gs: seq<Gateway>, es: seq<Event>, n: nat, q: RequestId)
    requires Run(gs, es) && n < |gs| && q in gs[n].requests
    requires Inside(gs[n].requests[q], gs[n].requests[q].router)
    ensures
      var g := gs[n];
      g.requests[q].router < |g.routers| &&
      var request, p := g.requests[q], g.routers[g.requests[q].router].phase;
      p.Closing? ==>
        request.loadedAt < p.swappedAt && (p.forced || p.endAt < request.enteredAt.value)
  {
    RunKeepsDrainInv(gs, es, n);
  }

  /** The wait group never goes below zero, and stands at zero exactly when nobody is inside. */
  lemma CounterIsExact(gs: seq<Gateway>, es: seq<Event>, n: nat, r: nat)
    requires Run(gs, es) && n < |gs| && r < |gs[n].routers|
    ensures gs[n].routers[r].counter >= 0
    ensures gs[n].routers[r].counter == 0 <==>
            forall q :: q in gs[n].requests ==> !Inside(gs[n].requests[q], r)
  {
    RunKeepsDrainInv(gs, es, n);
    if gs[n].routers[r].counter == 0 {
      NobodyInside(gs[n].requests, r);
    } else {
      var q :| q in InsideOf(gs[n].requests, r);
    }
  }
}
