/**
 The health checker of client/health_checker.go on values: what each locked region does to the three
 maps, and what the maps mean in terms of everything that has happened so far.
 */
module HealthModel {
  type Addr = string

  datatype Node = Node(addr: Addr, weight: int)

  datatype Health = Health(healthy: map<Addr, bool>, failures: map<Addr, int>, nodes: map<Addr, Node>)

  const Empty := Health(map[], map[], map[])

  /******* Locked regions *******/

  /** The pushed nodes by address; of two nodes with one address the later one counts. */
  function Latest(nodes: seq<Node>): map<Addr, Node> {
    if nodes == [] then map[]
    else
      var last := nodes[|nodes| - 1];
      Latest(nodes[..|nodes| - 1])[last.addr := last]
  }

  /** The maps with some addresses forgotten. */
  function Without(h: Health, gone: set<Addr>): Health {
    Health(h.healthy - gone, h.failures - gone, h.nodes - gone)
  }

  /** The maps with some of the latest nodes put in; those not listed before start healthy. */
  function With(h: Health, latest: map<Addr, Node>, some: set<Addr>): Health
    requires some <= latest.Keys
  {
    var added := some - h.nodes.Keys;
    Health(
      h.healthy + map a | a in added :: true,
      h.failures + map a | a in added :: 0,
      h.nodes + map a | a in some :: latest[a])
  }

  /** The maps with one address forgotten, unless it is among the latest ones. */
  function DropOne(h: Health, a: Addr, latest: set<Addr>): Health {
    if a in latest then h else Without(h, {a})
  }

  /** The maps with those of the seen addresses forgotten that are not among the latest ones. */
  function DropSeen(h: Health, seen: set<Addr>, latest: set<Addr>): Health {
    Without(h, seen - latest)
  }

  /** The maps with one of the latest nodes put in. */
  function PutOne(h: Health, a: Addr, node: Node): Health {
    if a in h.nodes then h.(nodes := h.nodes[a := node])
    else Health(h.healthy[a := true], h.failures[a := 0], h.nodes[a := node])
  }

  /** updateNodes: addresses that are gone are forgotten, new ones start healthy, kept ones keep their state. */
  function UpdateNodes(h: Health, nodes: seq<Node>): Health {
    var latest := Latest(nodes);
    With(DropSeen(h, h.nodes.Keys, latest.Keys), latest, latest.Keys)
  }

  /** markNodeFailure, and MarkUnhealthy: a failure counts only for an address that has a counter. */
  function MarkFailure(h: Health, a: Addr, maxFailures: int): Health {
    if a !in h.failures then h
    else
      var n := h.failures[a] + 1;
      h.(failures := h.failures[a := n], healthy := if n >= maxFailures then h.healthy[a := false] else h.healthy)
  }

  /** The end of a probe that passed: written without asking whether the address is still listed. */
  function ProbePassed(h: Health, a: Addr): Health {
    h.(failures := h.failures[a := 0], healthy := h.healthy[a := true])
  }

  function RegisterNode(h: Health, node: Node): Health {
    Health(h.healthy[node.addr := true], h.failures[node.addr := 0], h.nodes[node.addr := node])
  }

  function UnregisterNode(h: Health, a: Addr): Health {
    Without(h, {a})
  }

  predicate IsHealthy(h: Health, a: Addr) {
    a in h.healthy && h.healthy[a]
  }

  /******* Histories *******/

  /** Everything that changes the maps. Failed is a failed request or a failed probe. */
  datatype Event =
    | Pushed(nodes: seq<Node>)
    | Failed(addr: Addr)
    | Passed(addr: Addr)
    | Registered(node: Node)
    | Unregistered(addr: Addr)

  function Apply(h: Health, e: Event, maxFailures: int): Health {
    match e
    case Pushed(nodes) => UpdateNodes(h, nodes)
    case Failed(a) => MarkFailure(h, a, maxFailures)
    case Passed(a) => ProbePassed(h, a)
    case Registered(node) => RegisterNode(h, node)
    case Unregistered(a) => UnregisterNode(h, a)
  }

  /** The maps after a history. */
  function After(es: seq<Event>, maxFailures: int): Health {
    if es == [] then Empty else Apply(After(es[..|es| - 1], maxFailures), es[|es| - 1], maxFailures)
  }

  predicate HasAddr(nodes: seq<Node>, a: Addr) {
    exists i :: 0 <= i < |nodes| && nodes[i].addr == a
  }

  /** The address is in the node list that the history leaves behind. */
  predicate Listed(es: seq<Event>, a: Addr) {
    if es == [] then false
    else
      match es[|es| - 1]
      case Pushed(nodes) => HasAddr(nodes, a)
      case Registered(node) => node.addr == a || Listed(es[..|es| - 1], a)
      case Unregistered(b) => b != a && Listed(es[..|es| - 1], a)
      case _ => Listed(es[..|es| - 1], a)
  }

  /** Event i starts the address afresh: a passed probe, or its (re)appearance. */
  predicate Resets(es: seq<Event>, i: nat, a: Addr)
    requires i < |es|
  {
    match es[i]
    case Passed(b) => b == a
    case Registered(node) => node.addr == a
    case Pushed(nodes) => HasAddr(nodes, a) && !Listed(es[..i], a)
    case _ => false
  }

  /** Event i makes the checker forget the address. */
  predicate Drops(es: seq<Event>, i: nat, a: Addr)
    requires i < |es|
  {
    match es[i]
    case Unregistered(b) => b == a
    case Pushed(nodes) => !HasAddr(nodes, a) && Listed(es[..i], a)
    case _ => false
  }

  /** Event i is the latest fresh start of the address, and it was not forgotten since. */
  ghost predicate LatestReset(es: seq<Event>, i: nat, a: Addr) {
    && i < |es| && Resets(es, i, a)
    && forall j :: i < j < |es| ==> !Resets(es, j, a) && !Drops(es, j, a)
  }

  /** How many failures of the address lie in the events. */
  function Failures(es: seq<Event>, a: Addr): nat {
    if es == [] then 0
    else Failures(es[..|es| - 1], a) + if es[|es| - 1] == Failed(a) then 1 else 0
  }
}
