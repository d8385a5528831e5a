/** The healthChecker object: its maps are changed in place, its probes run in rounds. */
module HealthCheckerObject {
  import opened HealthModel
  import opened HealthProofs

  class HealthChecker {
    var healthyNodes: map<Addr, bool>
    var failureCount: map<Addr, int>
    var nodes: map<Addr, Node>
    const maxFailures: int

    function Contents(): Health
      reads this
    {
      Health(healthyNodes, failureCount, nodes)
    }

    constructor (initial: seq<Node>, maxFailures: int)
      ensures this.maxFailures == maxFailures
      ensures Contents() == After(Registrations(initial), maxFailures)
    {
      this.maxFailures := maxFailures;
      healthyNodes, failureCount, nodes := map[], map[], map[];
      new;
      assert initial[..0] == [];
      for i := 0 to |initial|
        invariant Contents() == After(Registrations(initial[..i]), maxFailures)
      {
        RegisterNode(initial[i]);
        RegistrationsExtend(initial, i);
      }
      assert initial[..|initial|] == initial;
    }

    method RegisterNode(node: Node)
      modifies this
      ensures Contents() == HealthModel.RegisterNode(old(Contents()), node)
    {
      nodes := nodes[node.addr := node];
      healthyNodes := healthyNodes[node.addr := true];
      failureCount := failureCount[node.addr := 0];
    }

    method UnregisterNode(node: Node)
      modifies this
      ensures Contents() == HealthModel.UnregisterNode(old(Contents()), node.addr)
    {
      Forget(node.addr);
    }

    /** Aligns the maps with a pushed node list. */
    method UpdateNodes(pushed: seq<Node>)
      modifies this
      ensures Contents() == HealthModel.UpdateNodes(old(Contents()), pushed)
    {
      var latest := CollectLatest(pushed);
      RemoveGone(latest);
      AddLatest(latest);
    }

    method Forget(a: Addr)
      modifies this
      ensures Contents() == Without(old(Contents()), {a})
    {
      nodes, healthyNodes, failureCount := nodes - {a}, healthyNodes - {a}, failureCount - {a};
    }

    method ForgetIfGone(a: Addr, latest: map<Addr, Node>)
      modifies this
      ensures Contents() == DropOne(old(Contents()), a, latest.Keys)
    {
      if a !in latest { Forget(a); }
    }

    /** Puts in one of the latest nodes; it starts healthy if it was not listed. */
    method Put(a: Addr, node: Node)
      modifies this
      ensures Contents() == PutOne(old(Contents()), a, node)
    {
      if a !in nodes {
        healthyNodes := healthyNodes[a := true];
        failureCount := failureCount[a := 0];
      }
      nodes := nodes[a := node];
    }

    /** The first loop of updateNodes over the maps. */
    method RemoveGone(latest: map<Addr, Node>)
      modifies this
      ensures Contents() == DropSeen(old(Contents()), old(nodes).Keys, latest.Keys)
    {
      var todo := nodes.Keys;
      ghost var all, seen: set<Addr> := nodes.Keys, {};
      DropSeenNone(Contents(), latest.Keys);
      while todo != {}
        invariant todo == all - seen && seen <= all
        invariant Contents() == DropSeen(old(Contents()), seen, latest.Keys)
        decreases |todo|
      {
        var a :| a in todo;
        DropSeenOneMore(old(Contents()), seen, latest.Keys, a);
        SeenOneMore(all, seen, a);
        ForgetIfGone(a, latest);
        todo, seen := todo - {a}, seen + {a};
      }
      assert seen == all;
    }

    /** The second loop of updateNodes over the maps. */
    method AddLatest(latest: map<Addr, Node>)
      requires nodes.Keys <= latest.Keys
      modifies this
      ensures Contents() == With(old(Contents()), latest, latest.Keys)
    {
      var todo := latest.Keys;
      ghost var all, done: set<Addr> := latest.Keys, {};
      WithNone(Contents(), latest);
      while todo != {}
        invariant done <= all && todo == all - done
        invariant Contents() == With(old(Contents()), latest, done)
        decreases |todo|
      {
        var a :| a in todo;
        WithOneMore(old(Contents()), latest, done, a);
        SeenOneMore(all, done, a);
        Put(a, latest[a]);
        todo, done := todo - {a}, done + {a};
      }
      assert done == all;
    }

    /** MarkUnhealthy after a failed request; markNodeFailure after a failed probe does the same. */
    method MarkUnhealthy(addr: Addr)
      modifies this`failureCount, this`healthyNodes
      ensures Contents() == MarkFailure(old(Contents()), addr, maxFailures)
    {
      if addr in failureCount {
        failureCount := failureCount[addr := failureCount[addr] + 1];
        if failureCount[addr] >= maxFailures {
          healthyNodes := healthyNodes[addr := false];
        }
      }
    }

    /** The end of checkNode: a transport error or a status of at least 500 is a failure, anything else passes. */
    method FinishProbe(addr: Addr, transportError: bool, status: int)
      modifies this`failureCount, this`healthyNodes
      ensures Contents() ==
                if transportError || status >= 500 then MarkFailure(old(Contents()), addr, maxFailures)
                else ProbePassed(old(Contents()), addr)
    {
      if transportError {
        MarkUnhealthy(addr);
        return;
      }
      if status >= 500 {
        MarkUnhealthy(addr);
        return;
      }
      failureCount := failureCount[addr := 0];
      healthyNodes := healthyNodes[addr := true];
    }

    method IsHealthy(node: Node) returns (ok: bool)
      ensures ok == HealthModel.IsHealthy(Contents(), node.addr)
    {
      ok := node.addr in healthyNodes && healthyNodes[node.addr];
    }
  }

  /** The map that the first loop of updateNodes fills. */
  method CollectLatest(pushed: seq<Node>) returns (latest: map<Addr, Node>)
    ensures latest == Latest(pushed)
  {
    latest := map[];
    for i := 0 to |pushed|
      invariant latest == Latest(pushed[..i])
    {
      assert pushed[..i + 1][..i] == pushed[..i];
      latest := latest[pushed[i].addr := pushed[i]];
    }
    assert pushed[..|pushed|] == pushed;
  }

  function Registrations(nodes: seq<Node>): seq<Event> {
    seq(|nodes|, i requires 0 <= i < |nodes| => Registered(nodes[i]))
  }

  lemma RegistrationsExtend(nodes: seq<Node>, i: nat)
    requires i < |nodes|
    ensures var es := Registrations(nodes[..i + 1]);
            es[..|es| - 1] == Registrations(nodes[..i]) && es[|es| - 1] == Registered(nodes[i])
  {
  }

  /******* Probe rounds *******/

  /** What the goroutines do: a push, a failed request, the start of a round of probes, the end of one probe. */
  datatype Action =
    | Push(nodes: seq<Node>)
    | RequestFailed(addr: Addr)
    | StartRound
    | FinishProbe(addr: Addr, ok: bool)

  /** `inFlight` are the probes of the running round; checkAllNodes waits for all of them. */
  datatype State = State(h: Health, inFlight: set<Addr>, history: seq<Event>)

  ghost predicate Next(s: State, act: Action, r: State, maxFailures: int) {
    match act
    case Push(nodes) => Changed(s, Pushed(nodes), s.inFlight, r, maxFailures)
    case RequestFailed(a) => Changed(s, Failed(a), s.inFlight, r, maxFailures)
    case StartRound => s.inFlight == {} && r == s.(inFlight := s.h.nodes.Keys)
    case FinishProbe(a, ok) =>
      a in s.inFlight && Changed(s, if ok then Passed(a) else Failed(a), s.inFlight - {a}, r, maxFailures)
  }

  ghost predicate Changed(s: State, e: Event, inFlight: set<Addr>, r: State, maxFailures: int) {
    r == State(Apply(s.h, e, maxFailures), inFlight, s.history + [e])
  }

  /** A run from the construction of the checker with its initial nodes. */
  ghost predicate Run(ss: seq<State>, acts: seq<Action>, initial: seq<Node>, maxFailures: int) {
    && |ss| == |acts| + 1
    && ss[0] == State(After(Registrations(initial), maxFailures), {}, Registrations(initial))
    && forall k :: 0 <= k < |acts| ==> Next(ss[k], acts[k], ss[k + 1], maxFailures)
  }

  lemma ChangeFollowsHistory(s: State, e: Event, inFlight: set<Addr>, r: State, maxFailures: int)
    requires s.h == After(s.history, maxFailures) && Changed(s, e, inFlight, r, maxFailures)
    ensures r.h == After(r.history, maxFailures)
  {
    AfterExtend(s.history, e, maxFailures);
  }

  lemma StepFollowsHistory(s: State, act: Action, r: State, maxFailures: int)
    requires s.h == After(s.history, maxFailures) && Next(s, act, r, maxFailures)
    ensures r.h == After(r.history, maxFailures)
  {
    match act
    case Push(nodes) => ChangeFollowsHistory(s, Pushed(nodes), s.inFlight, r, maxFailures);
    case RequestFailed(a) => ChangeFollowsHistory(s, Failed(a), s.inFlight, r, maxFailures);
    case StartRound =>
    case FinishProbe(a, ok) =>
      ChangeFollowsHistory(s, if ok then Passed(a) else Failed(a), s.inFlight - {a}, r, maxFailures);
  }

  lemma {:induction false} RunFollowsHistory(
      ss: seq<State>, acts: seq<Action>, initial: seq<Node>, n: nat, maxFailures: int)
    requires Run(ss, acts, initial, maxFailures) && n < |ss|
    ensures ss[n].h == After(ss[n].history, maxFailures)
  {
    if n > 0 {
      RunFollowsHistory(ss, acts, initial, n - 1, maxFailures);
      StepFollowsHistory(ss[n - 1], acts[n - 1], ss[n], maxFailures);
    }
  }

  /**
   In every interleaving of pushes, failed requests and probes that start and finish at different
   times, a node passes the health filter exactly when it was freshly started and then failed fewer
   than `maxFailures` times.
   */
  lemma FilterRefinesHistory(ss: seq<State>, acts: seq<Action>, initial: seq<Node>, n: nat, a: Addr, maxFailures: int)
    requires Run(ss, acts, initial, maxFailures) && n < |ss| && maxFailures >= 1
    ensures
      var es := ss[n].history;
      && ss[n].h.nodes.Keys <= ss[n].h.failures.Keys == ss[n].h.healthy.Keys
      && (IsHealthy(ss[n].h, a) <==>
            exists i: nat :: LatestReset(es, i, a) && Failures(es[i + 1..], a) < maxFailures)
  {
    RunFollowsHistory(ss, acts, initial, n, maxFailures);
    HealthRefinesHistory(ss[n].history, a, maxFailures);
  }

  /** What each action does to the state of one address, and to which. */
  ghost predicate Effect(s: State, act: Action, r: State, a: Addr, maxFailures: int) {
    match act
    case RequestFailed(b) => if a == b then CountsFailure(s.h, r.h, a, maxFailures) else SameAt(s.h, r.h, a)
    case FinishProbe(b, ok) =>
      if a != b then SameAt(s.h, r.h, a)
      else if ok then a in r.h.failures && r.h.failures[a] == 0 && IsHealthy(r.h, a)
      else CountsFailure(s.h, r.h, a, maxFailures)
    case StartRound => r.h == s.h
    case Push(nodes) => a in r.h.nodes <==> HasAddr(nodes, a)
  }

  /** One more failure if the address is known; the last one the limit allows makes it unhealthy. */
  ghost predicate CountsFailure(h: Health, g: Health, a: Addr, maxFailures: int) {
    if a !in h.failures then g == h
    else
      && a in g.failures && g.failures[a] == h.failures[a] + 1
      && (g.failures[a] >= maxFailures ==> !IsHealthy(g, a))
      && (g.failures[a] < maxFailures ==> IsHealthy(g, a) == IsHealthy(h, a))
  }

  lemma ActionEffects(s: State, act: Action, r: State, a: Addr, maxFailures: int)
    requires Next(s, act, r, maxFailures)
    ensures Effect(s, act, r, a, maxFailures)
  {
    if act.Push? { PushAt(s.h, act.nodes, a); }
  }

  /** A round probes exactly the listed nodes, each once, and the next round waits for all of them. */
  lemma RoundProbesTheListed(s: State, act: Action, r: State, a: Addr, maxFailures: int)
    requires Next(s, act, r, maxFailures)
    ensures act.StartRound? ==> s.inFlight == {} && (a in r.inFlight <==> a in s.h.nodes)
    ensures !act.StartRound? ==> (a in r.inFlight <==> a in s.inFlight && !(act.FinishProbe? && act.addr == a))
    ensures act.FinishProbe? ==> act.addr in s.inFlight
  {
  }
}
