/**
 The life of routers and clients under hot reload: Proxy.Update builds a router and swaps it in
 (proxy/proxy.go), requests load the current router and run inside it, and a replaced router is
 drained and its clients closed (router/mux/mux.go). Every step carries the time at which it happens,
 so that statements about order can be read off a state.
 */
module RouterLifecycle {
  import opened Wrappers

  type ClientId = nat
  type RequestId = nat

  /******* Building a router *******/

  /** How one endpoint fares: no client, a client without chain, a chain without route, or a route. */
  datatype Build = FactoryFails | ChainFails | RouteFails | Registers

  /**
   Clients handed out while building: those in the new router's closer list, those built but without
   route, and those closed on the spot by buildEndpoint.
   */
  datatype Built = Built(next: ClientId, registered: seq<ClientId>, unrouted: seq<ClientId>, closed: seq<ClientId>)

  function BuildOne(b: Built, build: Build): Built {
    match build
    case FactoryFails => b
    case ChainFails => b.(next := b.next + 1, closed := b.closed + [b.next])
    case RouteFails => b.(next := b.next + 1, unrouted := b.unrouted + [b.next])
    case Registers => b.(next := b.next + 1, registered := b.registered + [b.next])
  }

  function BuildAll(builds: seq<Build>, next: ClientId): Built {
    if builds == [] then Built(next, [], [], [])
    else BuildOne(BuildAll(builds[..|builds| - 1], next), builds[|builds| - 1])
  }

  /** Update fails when there are endpoints and none of them got a route. */
  predicate UpdateFails(builds: seq<Build>) {
    builds != [] && Registers !in builds
  }

  function Reversed(xs: seq<ClientId>): seq<ClientId> {
    if xs == [] then [] else Reversed(xs[1..]) + [xs[0]]
  }

  /** The clients that Update closes itself, in order: deferred closes run last in, first out. */
  function ClosedByUpdate(builds: seq<Build>, next: ClientId): seq<ClientId> {
    var b := BuildAll(builds, next);
    if UpdateFails(builds) then b.closed + Reversed(b.unrouted) else b.closed
  }

  /******* Routers, requests, steps *******/

  /** Closing is split by closer; `forced` says that the wait timed out; `at` are the times of the closes so far. */
  datatype Phase =
    | Serving
    | Retired(swappedAt: nat)
    | Waiting(swappedAt: nat, waitAt: nat)
    | Closing(swappedAt: nat, waitAt: nat, endAt: nat, forced: bool, at: seq<nat>)

  /** `counter` is the router's wait group. */
  datatype Router = Router(closers: seq<ClientId>, counter: int, phase: Phase)

  datatype Request = Request(router: nat, loadedAt: nat, enteredAt: Option<nat>, leftAt: Option<nat>)

  datatype Close = Close(client: ClientId, at: nat)

  /** The routers ever swapped in, the last one serving; `leaked` are clients left without owner. */
  datatype Gateway = Gateway(
    clock: nat,
    routers: seq<Router>,
    requests: map<RequestId, Request>,
    next: ClientId,
    closes: seq<Close>,
    leaked: set<ClientId>)

  const Init := Gateway(0, [Router([], 0, Serving)], map[], 0, [], {})

  datatype Event =
    | Update(builds: seq<Build>)
    | Load(q: RequestId)
    | Enter(q: RequestId)
    | Leave(q: RequestId)
    | BeginWait(r: nat)
    | Drained(r: nat)
    | TimeOut(r: nat)
    | CloseNext(r: nat)

  predicate Inside(q: Request, r: nat) {
    q.router == r && q.enteredAt.Some? && q.leftAt.None?
  }

  predicate Enabled(g: Gateway, e: Event) {
    match e
    case Update(_) => g.routers != []
    case Load(q) => g.routers != [] && q !in g.requests
    case Enter(q) => q in g.requests && g.requests[q].enteredAt.None? && g.requests[q].router < |g.routers|
    case Leave(q) =>
      && q in g.requests && g.requests[q].enteredAt.Some? && g.requests[q].leftAt.None?
      && g.requests[q].router < |g.routers|
    case BeginWait(r) => r < |g.routers| && g.routers[r].phase.Retired?
    case Drained(r) => r < |g.routers| && g.routers[r].phase.Waiting? && g.routers[r].counter == 0
    case TimeOut(r) => r < |g.routers| && g.routers[r].phase.Waiting?
    case CloseNext(r) =>
      && r < |g.routers| && g.routers[r].phase.Closing?
      && |g.routers[r].phase.at| < |g.routers[r].closers|
  }

  function SetPhase(g: Gateway, r: nat, phase: Phase): Gateway
    requires r < |g.routers|
  {
    g.(routers := g.routers[r := g.routers[r].(phase := phase)])
  }

  function Count(g: Gateway, r: nat, delta: int): Gateway
    requires r < |g.routers|
  {
    g.(routers := g.routers[r := g.routers[r].(counter := g.routers[r].counter + delta)])
  }

  function Stamped(clients: seq<ClientId>, at: nat): seq<Close> {
    seq(|clients|, i requires 0 <= i < |clients| => Close(clients[i], at))
  }

  function Swapped(g: Gateway, builds: seq<Build>): Gateway
    requires g.routers != []
  {
    var b, last := BuildAll(builds, g.next), |g.routers| - 1;
    var routers := SetPhase(g, last, Retired(g.clock)).routers + [Router(b.registered, 0, Serving)];
    g.(routers := routers, next := b.next, leaked := g.leaked + set c | c in b.unrouted)
  }

  function Updated(g: Gateway, builds: seq<Build>): Gateway
    requires g.routers != []
  {
    var h := if UpdateFails(builds) then g.(next := BuildAll(builds, g.next).next) else Swapped(g, builds);
    h.(closes := g.closes + Stamped(ClosedByUpdate(builds, g.next), g.clock))
  }

  function Effect(g: Gateway, e: Event): Gateway
    requires Enabled(g, e)
  {
    match e
    case Update(builds) => Updated(g, builds)
    case Load(q) => g.(requests := g.requests[q := Request(|g.routers| - 1, g.clock, None, None)])
    case Enter(q) =>
      Count(g, g.requests[q].router, 1).(requests := g.requests[q := g.requests[q].(enteredAt := Some(g.clock))])
    case Leave(q) =>
      Count(g, g.requests[q].router, -1).(requests := g.requests[q := g.requests[q].(leftAt := Some(g.clock))])
    case BeginWait(r) => SetPhase(g, r, Waiting(g.routers[r].phase.swappedAt, g.clock))
    case Drained(r) =>
      var p := g.routers[r].phase;
      SetPhase(g, r, Closing(p.swappedAt, p.waitAt, g.clock, false, []))
    case TimeOut(r) =>
      var p := g.routers[r].phase;
      SetPhase(g, r, Closing(p.swappedAt, p.waitAt, g.clock, true, []))
    case CloseNext(r) =>
      var p := g.routers[r].phase;
      var c := g.routers[r].closers[|p.at|];
      SetPhase(g, r, p.(at := p.at + [g.clock])).(closes := g.closes + [Close(c, g.clock)])
  }

  function Step(g: Gateway, e: Event): Gateway
    requires Enabled(g, e)
  {
    Effect(g, e).(clock := g.clock + 1)
  }

  ghost predicate Run(gs: seq<Gateway>, es: seq<Event>) {
    && |gs| == |es| + 1
    && gs[0] == Init
    && forall i :: 0 <= i < |es| ==> Enabled(gs[i], es[i]) && gs[i + 1] == Step(gs[i], es[i])
  }
}
