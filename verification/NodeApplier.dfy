/**
 nodeApplier.Callback (client/factory.go): every pushed service list is turned into nodes and given
 to the picker and then to the health checker. The two are separate steps, so callbacks that overlap
 can leave the picker and the checker with different lists.
 */
module NodeApplier {
  import opened Wrappers
  import opened HealthModel
  import opened HealthProofs
  import HealthCheckerObject

  type Instance = string

  /** The nodes of the instances whose endpoint could be resolved. */
  function Resolved(services: seq<Instance>, resolve: Instance -> Option<Node>): seq<Node> {
    if services == [] then []
    else
      var last := resolve(services[|services| - 1]);
      Resolved(services[..|services| - 1], resolve) + if last.Some? then [last.value] else []
  }

  /** How many instances have an endpoint that could be resolved. */
  function Resolvable(services: seq<Instance>, resolve: Instance -> Option<Node>): nat {
    if services == [] then 0
    else Resolvable(services[..|services| - 1], resolve) + if resolve(services[|services| - 1]).Some? then 1 else 0
  }

  /** The nodes are those of the resolvable instances, each behind exactly those of the instances before it. */
  ghost predicate NodesOf(nodes: seq<Node>, services: seq<Instance>, resolve: Instance -> Option<Node>) {
    && |nodes| == Resolvable(services, resolve)
    && forall i :: 0 <= i < |services| && resolve(services[i]).Some? ==>
         && Resolvable(services[..i], resolve) < |nodes|
         && nodes[Resolvable(services[..i], resolve)] == resolve(services[i]).value
  }

  lemma NodesOfOneMore(nodes: seq<Node>, services: seq<Instance>, resolve: Instance -> Option<Node>)
    requires services != [] && NodesOf(nodes, services[..|services| - 1], resolve)
    ensures
      var last := resolve(services[|services| - 1]);
      NodesOf(if last.Some? then nodes + [last.value] else nodes, services, resolve)
  {
    var n, init := |services| - 1, services[..|services| - 1];
    assert forall i :: 0 <= i < n ==> init[..i] == services[..i] && init[i] == services[i];
    assert services[..n] == init;
  }

  lemma {:induction false} ResolvedNodes(services: seq<Instance>, resolve: Instance -> Option<Node>)
    ensures NodesOf(Resolved(services, resolve), services, resolve)
  {
    if services != [] {
      var init := services[..|services| - 1];
      ResolvedNodes(init, resolve);
      NodesOfOneMore(Resolved(init, resolve), services, resolve);
      assert Resolved(init, resolve) + [] == Resolved(init, resolve);
    }
  }

  class Applier {
    var canceled: bool
    var picker: seq<Node>
    const checker: Option<HealthCheckerObject.HealthChecker>

    /** The checker's maps; an applier without health checker has none. */
    function Health(): Option<Health>
      reads this, if checker.Some? then {checker.value} else {}
    {
      if checker.Some? then Some(checker.value.Contents()) else None
    }

    constructor (checked: bool, maxFailures: int)
      ensures !canceled && picker == [] && checker.Some? == checked
      ensures checked ==> fresh(checker.value) && checker.value.maxFailures == maxFailures && Health() == Some(Empty)
    {
      canceled, picker := false, [];
      if checked {
        var hc := new HealthCheckerObject.HealthChecker([], maxFailures);
        checker := Some(hc);
      } else {
        checker := None;
      }
    }

    method Cancel()
      modifies this`canceled
      ensures canceled
    {
      canceled := true;
    }

    /** A cancelled applier refuses, an empty list changes nothing, any other list replaces both. */
    method Callback(services: seq<Instance>, resolve: Instance -> Option<Node>) returns (ok: bool)
      modifies this`picker, if checker.Some? then {checker.value} else {}
      ensures ok == !canceled
      ensures
        if canceled || services == [] then picker == old(picker) && Health() == old(Health())
        else
          var nodes := Resolved(services, resolve);
          && picker == nodes && NodesOf(picker, services, resolve)
          && checker.Some? == old(Health()).Some?
          && (checker.Some? ==> Health() == Some(UpdateNodes(old(Health()).value, nodes)))
    {
      if canceled { return false; }
      if |services| == 0 { return true; }
      var nodes := CollectNodes(services, resolve);
      picker := nodes;
      if checker.Some? { checker.value.UpdateNodes(nodes); }
      return true;
    }
  }

  method CollectNodes(services: seq<Instance>, resolve: Instance -> Option<Node>) returns (nodes: seq<Node>)
    ensures nodes == Resolved(services, resolve) && NodesOf(nodes, services, resolve)
  {
    nodes := [];
    for i := 0 to |services|
      invariant nodes == Resolved(services[..i], resolve)
    {
      assert services[..i + 1][..i] == services[..i];
      var node := resolve(services[i]);
      if node.None? { continue; }
      nodes := nodes + [node.value];
    }
    assert services[..|services|] == services;
    ResolvedNodes(services, resolve);
  }

  /******* Callbacks in two steps *******/

  type CallId = nat

  /** `calls` are the lists of all callbacks so far, `open` those that have not reached the checker. */
  datatype State = State(
    picker: seq<Node>,
    history: seq<Event>,
    calls: map<CallId, seq<Node>>,
    open: set<CallId>,
    applied: Option<CallId>,
    updated: Option<CallId>)

  const Start := State([], [], map[], {}, None, None)

  /** A callback applies to the picker, then updates the checker; requests and probes go on in between. */
  datatype Action = Apply(id: CallId, nodes: seq<Node>) | Update(id: CallId) | Fails(addr: Addr) | Passes(addr: Addr)

  ghost predicate Next(s: State, act: Action, r: State) {
    match act
    case Apply(id, nodes) =>
      && id !in s.calls
      && r == s.(picker := nodes, calls := s.calls[id := nodes], open := s.open + {id}, applied := Some(id))
    case Update(id) =>
      id in s.open && id in s.calls
      && r == s.(history := s.history + [Pushed(s.calls[id])], open := s.open - {id}, updated := Some(id))
    case Fails(a) => r == s.(history := s.history + [Failed(a)])
    case Passes(a) => r == s.(history := s.history + [Passed(a)])
  }

  ghost predicate Run(ss: seq<State>, acts: seq<Action>) {
    && |ss| == |acts| + 1 && ss[0] == Start
    && forall k :: 0 <= k < |acts| ==> Next(ss[k], acts[k], ss[k + 1])
  }

  /** The picker has the list of the last Apply, the checker that of the last Update. */
  ghost predicate Tracks(s: State) {
    && s.open <= s.calls.Keys
    && (s.applied.None? ==> s.picker == [])
    && (s.applied.Some? ==> s.applied.value in s.calls && s.picker == s.calls[s.applied.value])
    && (s.updated.Some? ==> s.updated.value in s.calls)
    && forall a :: Listed(s.history, a) <==> s.updated.Some? && HasAddr(s.calls[s.updated.value], a)
  }

  lemma ListedAfter(es: seq<Event>, e: Event, a: Addr)
    requires e.Pushed? || e.Failed? || e.Passed?
    ensures Listed(es + [e], a) <==> if e.Pushed? then HasAddr(e.nodes, a) else Listed(es, a)
  {
    assert (es + [e])[..|es|] == es;
  }

  lemma NextTracks(s: State, act: Action, r: State)
    requires Tracks(s) && Next(s, act, r)
    ensures Tracks(r)
  {
    forall a ensures Listed(r.history, a) <==> r.updated.Some? && HasAddr(r.calls[r.updated.value], a) {
      match act
      case Apply(_, _) =>
      case Update(id) => ListedAfter(s.history, Pushed(s.calls[id]), a);
      case Fails(b) => ListedAfter(s.history, Failed(b), a);
      case Passes(b) => ListedAfter(s.history, Passed(b), a);
    }
  }

  lemma {:induction false} RunTracks(ss: seq<State>, acts: seq<Action>, n: nat)
    requires Run(ss, acts) && n < |ss|
    ensures Tracks(ss[n])
  {
    if n > 0 {
      RunTracks(ss, acts, n - 1);
      NextTracks(ss[n - 1], acts[n - 1], ss[n]);
    }
  }

  /** The last list that reached the checker names the address. */
  predicate Named(s: State, a: Addr) {
    s.updated.Some? && s.updated.value in s.calls && HasAddr(s.calls[s.updated.value], a)
  }

  /** A refused node of the picker has failed `maxFailures` times since its latest fresh start. */
  ghost predicate RefusedForCause(s: State, a: Addr, maxFailures: int) {
    HasAddr(s.picker, a) && !IsHealthy(After(s.history, maxFailures), a) ==>
      exists i: nat :: LatestReset(s.history, i, a) && Failures(s.history[i + 1..], a) >= maxFailures
  }

  /**
   The last list that reached the picker is covered: each of its addresses is named by the last list
   that reached the checker, or a probe of it passed after it was last dropped.
   */
  ghost predicate Covered(s: State, a: Addr) {
    s.applied.Some? && s.applied.value in s.calls && HasAddr(s.calls[s.applied.value], a) ==>
      Named(s, a) || exists i: nat :: ProbedSinceDrop(s.history, i, a)
  }

  lemma RefusedForCauseIff(s: State, a: Addr, maxFailures: int)
    requires Tracks(s) && maxFailures >= 1
    ensures RefusedForCause(s, a, maxFailures) <==> Covered(s, a)
  {
    var es := s.history;
    HistoryRefined(es, a, maxFailures);
    TrackedIff(es, a);
    assert Listed(es, a) <==> Named(s, a);
    if i: nat :| LatestReset(es, i, a) {
      assert IsHealthy(After(es, maxFailures), a) <==> Failures(es[i + 1..], a) < maxFailures;
    }
  }

  /**
   In every run, however callbacks overlap: no node of the picker is refused without having failed
   `maxFailures` times exactly when every address of the list applied last is in the list the checker
   got last, or had a probe pass after it was last dropped.
   */
  lemma NoneRefusedWithoutCauseIff(ss: seq<State>, acts: seq<Action>, n: nat, maxFailures: int)
    requires Run(ss, acts) && n < |ss| && maxFailures >= 1
    ensures (forall a :: RefusedForCause(ss[n], a, maxFailures)) <==> (forall a :: Covered(ss[n], a))
  {
    RunTracks(ss, acts, n);
    forall a ensures RefusedForCause(ss[n], a, maxFailures) <==> Covered(ss[n], a) {
      RefusedForCauseIff(ss[n], a, maxFailures);
    }
  }

  /** Callbacks do not overlap. */
  ghost predicate Serial(ss: seq<State>, acts: seq<Action>)
    requires Run(ss, acts)
  {
    forall k :: 0 <= k < |acts| && acts[k].Apply? ==> ss[k].open == {}
  }

  ghost predicate OneOpen(s: State) {
    if s.open == {} then s.applied == s.updated else s.applied.Some? && s.open == {s.applied.value}
  }

  lemma {:induction false} SerialOneOpen(ss: seq<State>, acts: seq<Action>, n: nat)
    requires Run(ss, acts) && Serial(ss, acts) && n < |ss|
    ensures OneOpen(ss[n])
  {
    if n > 0 {
      SerialOneOpen(ss, acts, n - 1);
      assert Next(ss[n - 1], acts[n - 1], ss[n]);
      if acts[n - 1].Apply? { assert ss[n - 1].open == {}; }
    }
  }

  /**
   With callbacks that do not overlap, between callbacks: a node that the picker offers passes the
   health filter exactly when it failed fewer than `maxFailures` times since its latest fresh start.
   */
  lemma OfferedNodesAreTracked(ss: seq<State>, acts: seq<Action>, n: nat, a: Addr, maxFailures: int)
    requires Run(ss, acts) && Serial(ss, acts) && n < |ss| && maxFailures >= 1
    requires ss[n].open == {} && HasAddr(ss[n].picker, a)
    ensures
      var es := ss[n].history;
      && a in After(es, maxFailures).nodes
      && exists i: nat :: LatestReset(es, i, a)
           && (IsHealthy(After(es, maxFailures), a) <==> Failures(es[i + 1..], a) < maxFailures)
  {
    var es := ss[n].history;
    SerialOneOpen(ss, acts, n);
    RunTracks(ss, acts, n);
    HistoryRefined(es, a, maxFailures);
    assert Listed(es, a);
    var i: nat :| LatestReset(es, i, a);
  }

  ghost predicate Reachable(s: State) {
    exists ss, acts :: Run(ss, acts) && ss[|acts|] == s
  }

  lemma NextIsReachable(s: State, act: Action, r: State)
    requires Reachable(s) && Next(s, act, r)
    ensures Reachable(r)
  {
    var ss, acts :| Run(ss, acts) && ss[|acts|] == s;
    var ss', acts' := ss + [r], acts + [act];
    forall k | 0 <= k < |acts'| ensures Next(ss'[k], acts'[k], ss'[k + 1]) {
      if k < |acts| { assert Next(ss[k], acts[k], ss[k + 1]); }
    }
    assert Run(ss', acts') && ss'[|acts'|] == r;
  }

  /** Callbacks 1 and 2 have reached the picker in this order, and the checker in the other. */
  function Overlapped(stale: Node, newer: Node): State {
    State(
      [newer], [Pushed([newer])] + [Pushed([stale])], map[1 := [stale], 2 := [newer]], {}, Some(2), Some(1))
  }

  function OneApplied(stale: Node): State {
    State([stale], [], map[1 := [stale]], {1}, Some(1), None)
  }

  function TwoApplied(stale: Node, newer: Node): State {
    State([newer], [], map[1 := [stale], 2 := [newer]], {1, 2}, Some(2), None)
  }

  function NewerUpdated(stale: Node, newer: Node): State {
    TwoApplied(stale, newer).(history := [Pushed([newer])], open := {1}, updated := Some(2))
  }

  lemma SecondApply(stale: Node, newer: Node)
    ensures Next(OneApplied(stale), Apply(2, [newer]), TwoApplied(stale, newer))
  {
    var m: map<CallId, seq<Node>> := map[1 := [stale]];
    assert m[2 := [newer]] == TwoApplied(stale, newer).calls;
  }

  lemma NewerUpdates(stale: Node, newer: Node)
    ensures Next(TwoApplied(stale, newer), Update(2), NewerUpdated(stale, newer))
  {
    assert {1, 2} - {2} == {1};
  }

  lemma StaleUpdates(stale: Node, newer: Node)
    ensures Next(NewerUpdated(stale, newer), Update(1), Overlapped(stale, newer))
  {
  }

  lemma OverlappedIsReachable(stale: Node, newer: Node)
    ensures Reachable(Overlapped(stale, newer))
  {
    assert Run([Start], []) && [Start][0] == Start;
    NextIsReachable(Start, Apply(1, [stale]), OneApplied(stale));
    SecondApply(stale, newer);
    NextIsReachable(OneApplied(stale), Apply(2, [newer]), TwoApplied(stale, newer));
    NewerUpdates(stale, newer);
    NextIsReachable(TwoApplied(stale, newer), Update(2), NewerUpdated(stale, newer));
    StaleUpdates(stale, newer);
    NextIsReachable(NewerUpdated(stale, newer), Update(1), Overlapped(stale, newer));
  }

  /** Two overlapping callbacks: the picker offers a node that never failed and that the filter refuses. */
  lemma OverlapHidesANode(stale: Node, newer: Node, maxFailures: int)
    requires stale.addr != newer.addr && maxFailures >= 1
    ensures
      var s := Overlapped(stale, newer);
      && Reachable(s) && s.open == {}
      && HasAddr(s.picker, newer.addr) && !RefusedForCause(s, newer.addr, maxFailures)
      && Failures(s.history, newer.addr) == 0
      && !IsHealthy(After(s.history, maxFailures), newer.addr)
  {
    OverlappedIsReachable(stale, newer);
    assert [newer][0].addr == newer.addr;
    DroppedIsUnhealthy([Pushed([newer])], [stale], newer.addr, maxFailures);
    NoFailuresNoCause(Overlapped(stale, newer), newer.addr, maxFailures);
  }

  /** Where no failure was counted none can be the cause. */
  lemma NoFailuresNoCause(s: State, a: Addr, maxFailures: int)
    requires maxFailures >= 1 && forall i :: 0 <= i < |s.history| ==> s.history[i].Pushed?
    requires HasAddr(s.picker, a) && !IsHealthy(After(s.history, maxFailures), a)
    ensures Failures(s.history, a) == 0 && !RefusedForCause(s, a, maxFailures)
  {
    PushesDoNotFail(s.history, a);
    forall i: nat | LatestReset(s.history, i, a) ensures Failures(s.history[i + 1..], a) == 0 {
      PushesDoNotFail(s.history[i + 1..], a);
    }
  }

  lemma DroppedIsUnhealthy(es: seq<Event>, nodes: seq<Node>, a: Addr, maxFailures: int)
    requires Listed(es, a) && !HasAddr(nodes, a) && maxFailures >= 1
    ensures !IsHealthy(After(es + [Pushed(nodes)], maxFailures), a)
  {
    HistoryRefined(es, a, maxFailures);
    AfterExtend(es, Pushed(nodes), maxFailures);
    PushAt(After(es, maxFailures), nodes, a);
  }

  lemma {:induction false} PushesDoNotFail(es: seq<Event>, a: Addr)
    requires forall i :: 0 <= i < |es| ==> es[i].Pushed?
    ensures Failures(es, a) == 0
  {
    if es != [] { PushesDoNotFail(es[..|es| - 1], a); }
  }
}
