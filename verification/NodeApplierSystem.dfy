/**
 The shared watch and one node applier together: which callbacks of client/servicewatch.go can be in
 progress at the same time, and what that does to the picker and the health checker of client/factory.go.
 */
module NodeApplierSystem {
  import opened Wrappers
  import HM = HealthModel
  import SW = ServiceWatch
  import SWP = ServiceWatchProofs
  import SWF = ServiceWatchFreshness
  import NA = NodeApplier

  type Resolver = NA.Instance -> Option<HM.Node>

  /** `running` are the callbacks in progress: their watch event is completed when they return. */
  datatype System = System(watch: SW.State, node: NA.State, running: map<NA.CallId, SW.Event>)

  datatype Action =
    | Begin(id: NA.CallId, event: SW.Event, d: SW.Delivery)
    | Return(id: NA.CallId)
    | Elsewhere(event: SW.Event)
    | Node(act: NA.Action)

  /** doCallback holds the read lock while it calls; an Add calls without any lock. */
  ghost predicate ReadLocked(s: System) {
    exists id :: id in s.running && s.running[id].LoopStep?
  }

  ghost predicate Running(s: System, event: SW.Event) {
    exists id :: id in s.running && s.running[id] == event
  }

  ghost predicate Next(s: System, a: SW.Applier, resolve: Resolver, act: Action, r: System) {
    SW.Wf(s.watch) &&
    match act
    case Begin(id, event, d) =>
      && SWF.MakesCalls(s.watch, event) && !Running(s, event)
      && d in SWF.Calls(s.watch, event) && d.applier == a && a !in s.watch.cancelled
      && NA.Next(s.node, NA.Apply(id, NA.Resolved(d.instances, resolve)), r.node)
      && r.watch == s.watch && r.running == s.running[id := event]
    case Return(id) =>
      && id in s.running && SWP.Next(s.watch, s.running[id], r.watch)
      && NA.Next(s.node, NA.Update(id), r.node)
      && r.running == s.running - {id}
    case Elsewhere(event) =>
      && SWP.Next(s.watch, event, r.watch) && !Running(s, event)
      && (forall d :: d in SWF.Calls(s.watch, event) ==> d.applier != a)
      && (ReadLocked(s) ==> r.watch.t == s.watch.t)
      && r.node == s.node && r.running == s.running
    case Node(nact) =>
      && (nact.Fails? || nact.Passes?) && NA.Next(s.node, nact, r.node)
      && r.watch == s.watch && r.running == s.running
  }

  /** The watch has run for a while, and the applier has not been called yet. */
  ghost predicate Start(s: System, a: SW.Applier) {
    && SWP.Reachable(s.watch) && (forall d :: d in s.watch.made ==> d.applier != a)
    && s.node == NA.Start && s.running == map[]
  }

  ghost predicate StepAt(ss: seq<System>, a: SW.Applier, resolve: Resolver, acts: seq<Action>, k: nat)
    requires k < |acts| && |ss| == |acts| + 1
  {
    Next(ss[k], a, resolve, acts[k], ss[k + 1])
  }

  ghost predicate Run(ss: seq<System>, a: SW.Applier, resolve: Resolver, acts: seq<Action>) {
    && |ss| == |acts| + 1 && Start(ss[0], a)
    && forall k: nat :: k < |acts| ==> StepAt(ss, a, resolve, acts, k)
  }

  ghost predicate Reachable(s: System, a: SW.Applier, resolve: Resolver) {
    exists ss, acts :: Run(ss, a, resolve, acts) && ss[|acts|] == s
  }

  /******* Runs of the system are runs of its parts *******/

  lemma NextKeepsParts(s: System, a: SW.Applier, resolve: Resolver, act: Action, r: System)
    requires Next(s, a, resolve, act, r) && SWP.Reachable(s.watch) && NA.Reachable(s.node)
    ensures SWP.Reachable(r.watch) && NA.Reachable(r.node)
  {
    match act
    case Begin(id, _, d) => NA.NextIsReachable(s.node, NA.Apply(id, NA.Resolved(d.instances, resolve)), r.node);
    case Return(id) =>
      SWP.ReachableBy(s.watch, s.running[id], r.watch);
      NA.NextIsReachable(s.node, NA.Update(id), r.node);
    case Elsewhere(event) => SWP.ReachableBy(s.watch, event, r.watch);
    case Node(nact) => NA.NextIsReachable(s.node, nact, r.node);
  }

  /** Whatever holds of every run of the watch or of the applier holds in every run of the system. */
  lemma {:induction false} PartsAreReachable(
      ss: seq<System>, a: SW.Applier, resolve: Resolver, acts: seq<Action>, n: nat)
    requires Run(ss, a, resolve, acts) && n < |ss|
    ensures SWP.Reachable(ss[n].watch) && NA.Reachable(ss[n].node)
  {
    if n == 0 {
      assert NA.Run([NA.Start], []) && [NA.Start][0] == NA.Start;
    } else {
      PartsAreReachable(ss, a, resolve, acts, n - 1);
      assert StepAt(ss, a, resolve, acts, n - 1);
      NextKeepsParts(ss[n - 1], a, resolve, acts[n - 1], ss[n]);
    }
  }

  /** In every run of the system: no offered node is refused without cause exactly when the applied list is covered. */
  lemma NoneRefusedWithoutCauseIff(
      ss: seq<System>, a: SW.Applier, resolve: Resolver, acts: seq<Action>, n: nat, maxFailures: int)
    requires Run(ss, a, resolve, acts) && n < |ss| && maxFailures >= 1
    ensures (forall x :: NA.RefusedForCause(ss[n].node, x, maxFailures)) <==> (forall x :: NA.Covered(ss[n].node, x))
  {
    PartsAreReachable(ss, a, resolve, acts, n);
    var ns, nacts :| NA.Run(ns, nacts) && ns[|nacts|] == ss[n].node;
    NA.NoneRefusedWithoutCauseIff(ns, nacts, |nacts|, maxFailures);
  }

  /******* An Add beside a delivery *******/

  lemma RunExtends(
      ss: seq<System>, a: SW.Applier, resolve: Resolver, acts: seq<Action>, act: Action, r: System)
    requires Run(ss, a, resolve, acts) && Next(ss[|acts|], a, resolve, act, r)
    ensures Run(ss + [r], a, resolve, acts + [act])
  {
    var ss', acts' := ss + [r], acts + [act];
    forall k: nat | k < |acts'| ensures StepAt(ss', a, resolve, acts', k) {
      if k < |acts| { assert StepAt(ss, a, resolve, acts, k); }
    }
  }

  lemma ReachableBy(s: System, a: SW.Applier, resolve: Resolver, act: Action, r: System)
    requires Reachable(s, a, resolve) && Next(s, a, resolve, act, r)
    ensures Reachable(r, a, resolve)
  {
    var ss, acts :| Run(ss, a, resolve, acts) && ss[|acts|] == s;
    RunExtends(ss, a, resolve, acts, act, r);
    assert (ss + [r])[|acts + [act]|] == r;
  }

  const B2 := SW.Delivery(2, ["b"], SW.Origin(0, 2))
  const AddCalls := SW.AddCallback(SWP.A2)
  const LoopCalls := SW.LoopStep(0, SW.Tick)

  /** The nodes of the two lists "a" and "b". */
  ghost predicate Resolves(resolve: Resolver, stale: HM.Node, newer: HM.Node) {
    resolve("a") == Some(stale) && resolve("b") == Some(newer)
  }

  lemma ResolvesOne(resolve: Resolver, x: NA.Instance, node: HM.Node)
    requires resolve(x) == Some(node)
    ensures NA.Resolved([x], resolve) == [node]
  {
    assert [x][..0] == [];
    assert NA.Resolved([], resolve) == [];
  }

  /** Applier 2 has registered with list "a" cached; list "b" was cached before its Add made the callback. */
  lemma FirstIsReachable(resolve: Resolver)
    ensures Reachable(System(SWP.SecondList, NA.Start, map[]), 2, resolve)
  {
    SWP.SecondListIsReachable();
    var s := System(SWP.SecondList, NA.Start, map[]);
    assert Run([s], 2, resolve, []) && [s][0] == s;
  }

  ghost const AddRunning := System(SWP.SecondList, NA.Start, map[1 := AddCalls])

  /** The Add begins its callback with the old list. */
  lemma AddBegins(resolve: Resolver, stale: HM.Node, newer: HM.Node)
    requires Resolves(resolve, stale, newer)
    ensures Reachable(AddRunning.(node := NA.OneApplied(stale)), 2, resolve)
  {
    FirstIsReachable(resolve);
    SWP.SecondListIsReachable();
    var s, r := System(SWP.SecondList, NA.Start, map[]), AddRunning.(node := NA.OneApplied(stale));
    assert SWP.A2 in SWF.Calls(s.watch, AddCalls);
    ResolvesOne(resolve, "a", stale);
    ReachableBy(s, 2, resolve, Begin(1, AddCalls, SWP.A2), r);
  }

  ghost const BothRunning := System(SWP.SecondList, NA.Start, map[1 := AddCalls, 2 := LoopCalls])

  lemma LoopCallsApplier()
    ensures SW.Wf(SWP.SecondList) && SWF.MakesCalls(SWP.SecondList, LoopCalls)
    ensures B2 in SWF.Calls(SWP.SecondList, LoopCalls)
  {
    SWP.SecondListIsReachable();
    var t := SWP.SecondList.t;
    assert t.Registered("user") == map["id-1" := 1, "id-2" := 2];
    assert SW.Delivery(t.Registered("user")["id-2"], ["b"], t.OriginOf(0)) in SW.LoopCalls(t, SWP.SecondList.loops[0]);
  }

  /** The loop begins its callback with the new list while the Add's is in progress. */
  lemma LoopBegins(resolve: Resolver, stale: HM.Node, newer: HM.Node)
    requires Resolves(resolve, stale, newer)
    ensures Reachable(BothRunning.(node := NA.TwoApplied(stale, newer)), 2, resolve)
  {
    AddBegins(resolve, stale, newer);
    LoopCallsApplier();
    var s, r := AddRunning.(node := NA.OneApplied(stale)), BothRunning.(node := NA.TwoApplied(stale, newer));
    NA.SecondApply(stale, newer);
    ResolvesOne(resolve, "b", newer);
    ReachableBy(s, 2, resolve, Begin(2, LoopCalls, B2), r);
  }

  /** The loop's callback returns first. */
  lemma LoopReturns(resolve: Resolver, stale: HM.Node, newer: HM.Node)
    requires Resolves(resolve, stale, newer)
    ensures Reachable(System(SWP.SecondDelivery(), NA.NewerUpdated(stale, newer), map[1 := AddCalls]), 2, resolve)
  {
    LoopBegins(resolve, stale, newer);
    LoopCallsApplier();
    NA.NewerUpdates(stale, newer);
    var s := BothRunning.(node := NA.TwoApplied(stale, newer));
    var r := System(SWP.SecondDelivery(), NA.NewerUpdated(stale, newer), map[1 := AddCalls]);
    assert s.running - {2} == r.running;
    ReachableBy(s, 2, resolve, Return(2), r);
  }

  /**
   A run of the whole system, with a registry and a resolver that do nothing wrong: an Add's cached
   callback and a delivery overlap, and afterwards, with no callback in progress, the picker offers a
   node that never failed and that the health filter refuses.
   */
  lemma OverlapHidesANode(resolve: Resolver, stale: HM.Node, newer: HM.Node, maxFailures: int) returns (s: System)
    requires Resolves(resolve, stale, newer) && stale.addr != newer.addr && maxFailures >= 1
    ensures Reachable(s, 2, resolve) && s.running == map[]
    ensures HM.HasAddr(s.node.picker, newer.addr) && HM.Failures(s.node.history, newer.addr) == 0
    ensures !HM.IsHealthy(HM.After(s.node.history, maxFailures), newer.addr)
  {
    LoopReturns(resolve, stale, newer);
    var p := System(SWP.SecondDelivery(), NA.NewerUpdated(stale, newer), map[1 := AddCalls]);
    s := System(SW.Step(SWP.SecondDelivery(), AddCalls), NA.Overlapped(stale, newer), map[]);
    NA.StaleUpdates(stale, newer);
    assert p.running - {1} == s.running;
    ReachableBy(p, 2, resolve, Return(1), s);
    NA.OverlapHidesANode(stale, newer, maxFailures);
  }
}
