/** Who owns and who closes the clients, over every run of reloads. */
module OwnershipProofs {
  import opened Wrappers
  import opened RouterLifecycle
  import DrainProofs

  /******* Counting *******/

  function Occurs(xs: seq<ClientId>, c: ClientId): nat {
    if xs == [] then 0 else Occurs(xs[..|xs| - 1], c) + if xs[|xs| - 1] == c then 1 else 0
  }

  /** How often a client was closed. */
  function CloseCount(closes: seq<Close>, c: ClientId): nat {
    if closes == [] then 0
    else CloseCount(closes[..|closes| - 1], c) + if closes[|closes| - 1].client == c then 1 else 0
  }

  lemma OccursLast(xs: seq<ClientId>, x: ClientId, c: ClientId)
    ensures Occurs(xs + [x], c) == Occurs(xs, c) + if x == c then 1 else 0
  {
    assert (xs + [x])[..|xs|] == xs;
  }

  lemma {:induction false} OccursAppend(xs: seq<ClientId>, ys: seq<ClientId>, c: ClientId)
    ensures Occurs(xs + ys, c) == Occurs(xs, c) + Occurs(ys, c)
  {
    if ys == [] {
      assert xs + ys == xs;
    } else {
      var init, y := ys[..|ys| - 1], ys[|ys| - 1];
      assert xs + ys == (xs + init) + [y];
      OccursLast(xs + init, y, c);
      OccursAppend(xs, init, c);
    }
  }

  lemma OccursFirst(x: ClientId, xs: seq<ClientId>, c: ClientId)
    ensures Occurs([x] + xs, c) == Occurs(xs, c) + if x == c then 1 else 0
  {
    assert Occurs([x], c) == if x == c then 1 else 0 by { assert [x][..0] == []; }
    OccursAppend([x], xs, c);
  }

  lemma {:induction false} OccursReversed(xs: seq<ClientId>, c: ClientId)
    ensures Occurs(Reversed(xs), c) == Occurs(xs, c)
  {
    if xs != [] {
      var x, rest := xs[0], xs[1..];
      OccursReversed(rest, c);
      OccursLast(Reversed(rest), x, c);
      OccursFirst(x, rest, c);
      assert xs == [x] + rest;
    }
  }

  lemma {:induction false} OccursAt(xs: seq<ClientId>, k: nat)
    requires k < |xs|
    ensures Occurs(xs, xs[k]) >= 1
  {
    if k < |xs| - 1 { OccursAt(xs[..|xs| - 1], k); }
  }

  lemma {:induction false} OccursIn(xs: seq<ClientId>, c: ClientId)
    ensures Occurs(xs, c) > 0 <==> c in xs
  {
    if xs != [] {
      OccursIn(xs[..|xs| - 1], c);
      assert xs == xs[..|xs| - 1] + [xs[|xs| - 1]];
    }
  }

  lemma {:induction false} OccursOnce(xs: seq<ClientId>, j: nat, k: nat)
    requires j < |xs| && k < |xs| && xs[j] == xs[k] && Occurs(xs, xs[j]) <= 1
    ensures j == k
  {
    var init := xs[..|xs| - 1];
    if j < |init| && k < |init| {
      OccursOnce(init, j, k);
    } else if j < |init| {
      OccursAt(init, j);
    } else if k < |init| {
      OccursAt(init, k);
    }
  }

  lemma {:induction false} CloseCountStamped(closes: seq<Close>, clients: seq<ClientId>, at: nat, c: ClientId)
    ensures CloseCount(closes + Stamped(clients, at), c) == CloseCount(closes, c) + Occurs(clients, c)
  {
    if clients == [] {
      assert closes + Stamped(clients, at) == closes;
    } else {
      var init, x := clients[..|clients| - 1], clients[|clients| - 1];
      CloseCountStamped(closes, init, at, c);
      var all := closes + Stamped(clients, at);
      assert all[..|all| - 1] == closes + Stamped(init, at) && all[|all| - 1] == Close(x, at);
    }
  }

  /******* Building *******/

  /** Every client handed out while building ends up in exactly one of the three places, once. */
  ghost predicate Parts(b: Built, next: ClientId, c: ClientId) {
    && next <= b.next
    && Occurs(b.registered, c) + Occurs(b.unrouted, c) + Occurs(b.closed, c) == if next <= c < b.next then 1 else 0
  }

  lemma BuildOneParts(b: Built, build: Build, next: ClientId, c: ClientId)
    requires Parts(b, next, c)
    ensures Parts(BuildOne(b, build), next, c)
  {
    match build
    case FactoryFails =>
    case ChainFails => OccursLast(b.closed, b.next, c);
    case RouteFails => OccursLast(b.unrouted, b.next, c);
    case Registers => OccursLast(b.registered, b.next, c);
  }

  lemma {:induction false} BuildParts(builds: seq<Build>, next: ClientId, c: ClientId)
    ensures Parts(BuildAll(builds, next), next, c)
  {
    if builds != [] {
      BuildParts(builds[..|builds| - 1], next, c);
      BuildOneParts(BuildAll(builds[..|builds| - 1], next), builds[|builds| - 1], next, c);
    }
  }

  /** The client handed out for endpoint `i`, if it gets one: the next one after those of the endpoints before. */
  function ClientOf(builds: seq<Build>, next: ClientId, i: nat): ClientId
    requires i <= |builds|
  {
    if i == 0 then next else ClientOf(builds, next, i - 1) + if builds[i - 1].FactoryFails? then 0 else 1
  }

  lemma {:induction false} ClientOfPrefix(builds: seq<Build>, next: ClientId, n: nat, i: nat)
    requires i <= n <= |builds|
    ensures ClientOf(builds[..n], next, i) == ClientOf(builds, next, i)
  {
    if i > 0 { ClientOfPrefix(builds, next, n, i - 1); }
  }

  lemma {:induction false} NextClient(builds: seq<Build>, next: ClientId)
    ensures BuildAll(builds, next).next == ClientOf(builds, next, |builds|)
  {
    if builds != [] {
      var n := |builds| - 1;
      NextClient(builds[..n], next);
      ClientOfPrefix(builds, next, n, n);
    }
  }

  /** Each endpoint's client goes where the endpoint's fate says. */
  lemma {:induction false} BuildPlaces(builds: seq<Build>, next: ClientId, i: nat)
    requires i < |builds|
    ensures
      var b, c := BuildAll(builds, next), ClientOf(builds, next, i);
      match builds[i]
      case FactoryFails => true
      case ChainFails => c in b.closed
      case RouteFails => c in b.unrouted
      case Registers => c in b.registered
  {
    var n := |builds| - 1;
    if i < n {
      BuildPlaces(builds[..n], next, i);
      ClientOfPrefix(builds, next, n, i);
    } else {
      NextClient(builds[..n], next);
      ClientOfPrefix(builds, next, n, n);
    }
  }

  /** Deferred closes run last in, first out. */
  lemma {:induction false} ReversedAt(xs: seq<ClientId>, k: nat)
    requires k < |xs|
    ensures |Reversed(xs)| == |xs| && Reversed(xs)[k] == xs[|xs| - 1 - k]
  {
    if |xs| > 1 { ReversedAt(xs[1..], if k < |xs| - 1 then k else 0); }
  }

  lemma {:induction false} BuildCounts(builds: seq<Build>, next: ClientId)
    ensures
      var b := BuildAll(builds, next);
      && (b.registered == [] <==> Registers !in builds)
      && (b.unrouted == [] <==> RouteFails !in builds)
  {
    if builds != [] {
      BuildCounts(builds[..|builds| - 1], next);
      assert builds == builds[..|builds| - 1] + [builds[|builds| - 1]];
    }
  }

  /** A configuration without endpoints, or with at least one route, is swapped in; any other one is not. */
  lemma SwappedIff(g: Gateway, builds: seq<Build>)
    requires g.routers != []
    ensures
      var h := Step(g, Update(builds));
      if builds == [] || (exists i :: 0 <= i < |builds| && builds[i] == Registers)
      then |h.routers| == |g.routers| + 1 && h.routers[|g.routers|].phase.Serving?
      else h.routers == g.routers
  {
    assert Registers in builds <==> exists i :: 0 <= i < |builds| && builds[i] == Registers;
  }

  /******* The invariant *******/

  predicate OwnedBy(g: Gateway, c: ClientId, r: nat, k: nat) {
    r < |g.routers| && k < |g.routers[r].closers| && g.routers[r].closers[k] == c
  }

  ghost predicate Owned(g: Gateway, c: ClientId) {
    exists r: nat, k: nat :: OwnedBy(g, c, r, k)
  }

  /** How many closers of a router have run. */
  function Done(p: Phase): nat {
    if p.Closing? then |p.at| else 0
  }

  ghost predicate OneOwner(g: Gateway, c: ClientId) {
    forall r: nat, k: nat, s: nat, j: nat :: OwnedBy(g, c, r, k) && OwnedBy(g, c, s, j) ==> r == s && k == j
  }

  /** A client is owned by one place in one closer list, or leaked and never closed, or closed once by Update. */
  ghost predicate Accounted(g: Gateway, c: ClientId) {
    && OneOwner(g, c)
    && (Owned(g, c) || c in g.leaked ==> c < g.next)
    && !(Owned(g, c) && c in g.leaked)
    && (forall r: nat, k: nat :: OwnedBy(g, c, r, k) ==>
          CloseCount(g.closes, c) == if k < Done(g.routers[r].phase) then 1 else 0)
    && (!Owned(g, c) ==> CloseCount(g.closes, c) == if c < g.next && c !in g.leaked then 1 else 0)
  }

  ghost predicate Ownership(g: Gateway) {
    && g.routers != []
    && (forall r :: 0 <= r < |g.routers| ==> (g.routers[r].phase.Serving? <==> r == |g.routers| - 1))
    && forall c :: Accounted(g, c)
  }

  /******* Steps *******/

  /** Steps that touch neither the closer lists nor what was closed. */
  lemma SameOwnersKeep(g: Gateway, h: Gateway, c: ClientId)
    requires Accounted(g, c)
    requires h.next == g.next && h.leaked == g.leaked && h.closes == g.closes && |h.routers| == |g.routers|
    requires forall r :: 0 <= r < |g.routers| ==>
               h.routers[r].closers == g.routers[r].closers && Done(h.routers[r].phase) == Done(g.routers[r].phase)
    ensures Accounted(h, c)
  {
    assert forall r: nat, k: nat :: OwnedBy(h, c, r, k) <==> OwnedBy(g, c, r, k);
  }

  lemma CloseNextKeeps(g: Gateway, r: nat, c: ClientId)
    requires Ownership(g) && Enabled(g, CloseNext(r))
    ensures Accounted(Step(g, CloseNext(r)), c)
  {
    var h := Step(g, CloseNext(r));
    var n := Done(g.routers[r].phase);
    var x := g.routers[r].closers[n];
    assert Accounted(g, c) && Accounted(g, x);
    assert h.closes[..|h.closes| - 1] == g.closes;
    assert forall s: nat, k: nat :: OwnedBy(h, c, s, k) <==> OwnedBy(g, c, s, k);
    assert OwnedBy(g, x, r, n);
  }

  lemma FailedUpdateKeeps(g: Gateway, builds: seq<Build>, c: ClientId)
    requires Ownership(g) && UpdateFails(builds)
    ensures Accounted(Step(g, Update(builds)), c)
    ensures
      var h := Step(g, Update(builds));
      CloseCount(h.closes, c) == CloseCount(g.closes, c) + if g.next <= c < h.next then 1 else 0
  {
    var h, b := Step(g, Update(builds)), BuildAll(builds, g.next);
    assert Accounted(g, c);
    BuildParts(builds, g.next, c);
    BuildCounts(builds, g.next);
    OccursReversed(b.unrouted, c);
    OccursAppend(b.closed, Reversed(b.unrouted), c);
    CloseCountStamped(g.closes, ClosedByUpdate(builds, g.next), g.clock, c);
    assert forall s: nat, k: nat :: OwnedBy(h, c, s, k) <==> OwnedBy(g, c, s, k);
  }

  /** Where the closer lists of a swapped gateway come from. */
  lemma SwapOwners(g: Gateway, builds: seq<Build>, c: ClientId, s: nat, k: nat)
    requires g.routers != [] && !UpdateFails(builds)
    ensures
      var h, b := Step(g, Update(builds)), BuildAll(builds, g.next);
      && |h.routers| == |g.routers| + 1
      && (s < |g.routers| ==> (OwnedBy(h, c, s, k) <==> OwnedBy(g, c, s, k)))
      && (s == |g.routers| ==> (OwnedBy(h, c, s, k) <==> k < |b.registered| && b.registered[k] == c))
  {
  }

  lemma SwapKeepsOld(g: Gateway, builds: seq<Build>, c: ClientId)
    requires Ownership(g) && !UpdateFails(builds) && c < g.next
    ensures Accounted(Step(g, Update(builds)), c)
    ensures CloseCount(Step(g, Update(builds)).closes, c) == CloseCount(g.closes, c)
  {
    var h, b := Step(g, Update(builds)), BuildAll(builds, g.next);
    assert Accounted(g, c);
    BuildParts(builds, g.next, c);
    OccursIn(b.registered, c);
    OccursIn(b.unrouted, c);
    CloseCountStamped(g.closes, b.closed, g.clock, c);
    forall s: nat, k: nat ensures OwnedBy(h, c, s, k) <==> OwnedBy(g, c, s, k) {
      SwapOwners(g, builds, c, s, k);
    }
    assert forall s :: 0 <= s < |g.routers| ==> Done(h.routers[s].phase) == Done(g.routers[s].phase);
  }

  lemma SwapKeepsNew(g: Gateway, builds: seq<Build>, c: ClientId)
    requires Ownership(g) && !UpdateFails(builds) && c >= g.next
    ensures
      var h, b := Step(g, Update(builds)), BuildAll(builds, g.next);
      && (Owned(h, c) <==> c in b.registered)
      && (c in h.leaked <==> c in b.unrouted)
      && CloseCount(h.closes, c) == Occurs(b.closed, c)
      && Accounted(h, c)
  {
    var h, b := Step(g, Update(builds)), BuildAll(builds, g.next);
    var n := |g.routers|;
    assert Accounted(g, c) && !Owned(g, c);
    BuildParts(builds, g.next, c);
    OccursIn(b.registered, c);
    OccursIn(b.unrouted, c);
    CloseCountStamped(g.closes, b.closed, g.clock, c);
    forall s: nat, k: nat ensures OwnedBy(h, c, s, k) <==> s == n && k < |b.registered| && b.registered[k] == c {
      SwapOwners(g, builds, c, s, k);
    }
    if k :| 0 <= k < |b.registered| && b.registered[k] == c { assert OwnedBy(h, c, n, k); }
    forall s: nat, k: nat, s': nat, k': nat | OwnedBy(h, c, s, k) && OwnedBy(h, c, s', k') ensures s == s' && k == k' {
      OccursOnce(b.registered, k, k');
    }
  }

  lemma UpdateKeeps(g: Gateway, builds: seq<Build>, c: ClientId)
    requires Ownership(g)
    ensures Accounted(Step(g, Update(builds)), c)
  {
    if UpdateFails(builds) {
      FailedUpdateKeeps(g, builds, c);
    } else if c < g.next {
      SwapKeepsOld(g, builds, c);
    } else {
      SwapKeepsNew(g, builds, c);
    }
  }

  lemma StepKeepsOwnership(g: Gateway, e: Event)
    requires Ownership(g) && Enabled(g, e)
    ensures Ownership(Step(g, e))
  {
    var h := Step(g, e);
    forall c ensures Accounted(h, c) {
      match e
      case Update(builds) => UpdateKeeps(g, builds, c);
      case CloseNext(r) => CloseNextKeeps(g, r, c);
      case _ =>
        assert Accounted(g, c);
        SameOwnersKeep(g, h, c);
    }
  }

  lemma {:induction false} RunKeepsOwnership(gs: seq<Gateway>, es: seq<Event>, n: nat)
    requires Run(gs, es) && n < |gs|
    ensures Ownership(gs[n])
  {
    if n > 0 {
      RunKeepsOwnership(gs, es, n - 1);
      StepKeepsOwnership(gs[n - 1], es[n - 1]);
    }
  }

  /******* Theorems *******/

  /**
   In every reachable state: a client stands in at most one closer list, at one place; it is closed at
   most once; the serving router's clients were never closed; and a replaced router that has finished
   closing has closed each of its clients exactly once.
   */
  lemma ClientsHaveOneOwner(gs: seq<Gateway>, es: seq<Event>, n: nat, c: ClientId)
    requires Run(gs, es) && n < |gs|
    ensures
      var g := gs[n];
      && (forall r: nat, k: nat, s: nat, j: nat :: OwnedBy(g, c, r, k) && OwnedBy(g, c, s, j) ==> r == s && k == j)
      && CloseCount(g.closes, c) <= 1
      && (forall r: nat, k: nat :: OwnedBy(g, c, r, k) ==>
            && (r == |g.routers| - 1 ==> CloseCount(g.closes, c) == 0)
            && (g.routers[r].phase.Closing? && |g.routers[r].phase.at| == |g.routers[r].closers| ==>
                  CloseCount(g.closes, c) == 1))
  {
    RunKeepsOwnership(gs, es, n);
    assert Accounted(gs[n], c);
  }

  /**
   A request that runs in a router one of whose clients is already closed came late: it loaded the
   router before the swap, and it entered after the drain or the wait timed out.
   */
  lemma ClosedUnderRequest(gs: seq<Gateway>, es: seq<Event>, n: nat, q: RequestId, c: ClientId, k: nat)
    requires Run(gs, es) && n < |gs| && q in gs[n].requests
    requires Inside(gs[n].requests[q], gs[n].requests[q].router)
    requires OwnedBy(gs[n], c, gs[n].requests[q].router, k) && CloseCount(gs[n].closes, c) > 0
    ensures
      var request, p := gs[n].requests[q], gs[n].routers[gs[n].requests[q].router].phase;
      p.Closing? && request.loadedAt < p.swappedAt && (p.forced || p.endAt < request.enteredAt.value)
  {
    RunKeepsOwnership(gs, es, n);
    assert Accounted(gs[n], c);
    DrainProofs.LateRequestsOnly(gs, es, n, q);
  }

  /** A failed Update keeps every router and closes exactly the clients it built, each once. */
  lemma FailedUpdateCleansUp(gs: seq<Gateway>, es: seq<Event>, n: nat, builds: seq<Build>, c: ClientId)
    requires Run(gs, es) && n < |gs| && UpdateFails(builds)
    ensures
      var g := gs[n];
      Enabled(g, Update(builds)) &&
      var h := Step(g, Update(builds));
      && h.routers == g.routers
      && (if g.next <= c < h.next then CloseCount(h.closes, c) == 1
          else CloseCount(h.closes, c) == CloseCount(g.closes, c))
  {
    RunKeepsOwnership(gs, es, n);
    assert Accounted(gs[n], c);
    FailedUpdateKeeps(gs[n], builds, c);
  }

  /** Every client that this Update built is in a closer list or closed when it returns. */
  ghost predicate NothingLeaks(g: Gateway, builds: seq<Build>)
    requires g.routers != []
  {
    var h := Step(g, Update(builds));
    forall c :: g.next <= c < h.next ==> Owned(h, c) || CloseCount(h.closes, c) == 1
  }

  /** An Update leaks a client exactly when it succeeds although some endpoint got a client but no route. */
  lemma NothingLeaksIff(gs: seq<Gateway>, es: seq<Event>, n: nat, builds: seq<Build>)
    requires Run(gs, es) && n < |gs|
    ensures gs[n].routers != []
    ensures NothingLeaks(gs[n], builds) <==> UpdateFails(builds) || RouteFails !in builds
  {
    RunKeepsOwnership(gs, es, n);
    var g, b := gs[n], BuildAll(builds, gs[n].next);
    var h := Step(g, Update(builds));
    BuildCounts(builds, g.next);
    if UpdateFails(builds) {
      forall c | g.next <= c < h.next ensures CloseCount(h.closes, c) == 1 {
        assert Accounted(g, c);
        FailedUpdateKeeps(g, builds, c);
      }
    } else if RouteFails in builds {
      var c := b.unrouted[0];
      UnroutedLeaks(g, builds, c);
      assert !NothingLeaks(g, builds);
    } else {
      forall c | g.next <= c < h.next ensures Owned(h, c) || CloseCount(h.closes, c) == 1 {
        SwapKeepsNew(g, builds, c);
      }
    }
  }

  lemma UnroutedLeaks(g: Gateway, builds: seq<Build>, c: ClientId)
    requires Ownership(g) && !UpdateFails(builds) && c in BuildAll(builds, g.next).unrouted
    ensures
      var h := Step(g, Update(builds));
      g.next <= c < h.next && c in h.leaked && !Owned(h, c) && CloseCount(h.closes, c) == 0
  {
    OccursIn(BuildAll(builds, g.next).unrouted, c);
    BuildParts(builds, g.next, c);
    SwapKeepsNew(g, builds, c);
  }

  /** A leaked client is never closed and never owned, however the run goes on. */
  lemma LeakedForever(gs: seq<Gateway>, es: seq<Event>, m: nat, n: nat, c: ClientId)
    requires Run(gs, es) && m <= n < |gs| && c in gs[m].leaked
    ensures c in gs[n].leaked && !Owned(gs[n], c) && CloseCount(gs[n].closes, c) == 0
  {
    LeakedStays(gs, es, m, n, c);
    RunKeepsOwnership(gs, es, n);
    assert Accounted(gs[n], c);
  }

  lemma {:induction false} LeakedStays(gs: seq<Gateway>, es: seq<Event>, m: nat, n: nat, c: ClientId)
    requires Run(gs, es) && m <= n < |gs| && c in gs[m].leaked
    ensures c in gs[n].leaked
  {
    if m < n {
      LeakedStays(gs, es, m, n - 1, c);
      assert gs[n] == Step(gs[n - 1], es[n - 1]);
    }
  }

  /******* The log of closes *******/

  /** Every closer that has run is in the log, with its time. */
  ghost predicate Logged(g: Gateway, r: nat)
    requires r < |g.routers|
  {
    var p, closers := g.routers[r].phase, g.routers[r].closers;
    p.Closing? ==>
      && |p.at| <= |closers|
      && forall k :: 0 <= k < |p.at| ==> Close(closers[k], p.at[k]) in g.closes
  }

  lemma StepLogs(g: Gateway, e: Event, r: nat)
    requires Ownership(g) && Enabled(g, e) && r < |Step(g, e).routers| && (r < |g.routers| ==> Logged(g, r))
    ensures Logged(Step(g, e), r)
  {
    var h := Step(g, e);
    assert g.closes <= h.closes;
    if e.CloseNext? && e.r == r {
      var p := g.routers[r].phase;
      assert h.closes[|g.closes|] == Close(g.routers[r].closers[|p.at|], g.clock);
    }
  }

  lemma {:induction false} RunLogs(gs: seq<Gateway>, es: seq<Event>, n: nat, r: nat)
    requires Run(gs, es) && n < |gs| && r < |gs[n].routers|
    ensures Logged(gs[n], r)
  {
    if n > 0 {
      RunKeepsOwnership(gs, es, n - 1);
      if r < |gs[n - 1].routers| { RunLogs(gs, es, n - 1, r); }
      StepLogs(gs[n - 1], es[n - 1], r);
    }
  }

  /** A client that was closed at most once has one time of closing. */
  lemma {:induction false} OneClosingTime(closes: seq<Close>, i: nat, j: nat)
    requires i < |closes| && j < |closes| && closes[i].client == closes[j].client
    requires CloseCount(closes, closes[i].client) <= 1
    ensures i == j
  {
    var n, init := |closes| - 1, closes[..|closes| - 1];
    if i < n && j < n {
      OneClosingTime(init, i, j);
    } else if i < n {
      CloseCountAt(init, i);
    } else if j < n {
      CloseCountAt(init, j);
    }
  }

  lemma {:induction false} CloseCountAt(closes: seq<Close>, i: nat)
    requires i < |closes|
    ensures CloseCount(closes, closes[i].client) >= 1
  {
    if i < |closes| - 1 { CloseCountAt(closes[..|closes| - 1], i); }
  }

  /**
   Drain before close, on the log itself: when the wait did not time out, every request that had entered
   the router before the wait began left it before the time at which any of the router's clients was closed.
   */
  lemma DrainedBeforeAnyClose(gs: seq<Gateway>, es: seq<Event>, n: nat, r: nat, q: RequestId, k: nat, i: nat)
    requires Run(gs, es) && n < |gs| && r < |gs[n].routers|
    requires gs[n].routers[r].phase.Closing? && !gs[n].routers[r].phase.forced
    requires q in gs[n].requests && gs[n].requests[q].router == r && gs[n].requests[q].enteredAt.Some?
    requires gs[n].requests[q].enteredAt.value < gs[n].routers[r].phase.waitAt
    requires i < |gs[n].closes| && OwnedBy(gs[n], gs[n].closes[i].client, r, k)
    ensures gs[n].requests[q].leftAt.Some? && gs[n].requests[q].leftAt.value < gs[n].closes[i].at
  {
    var g := gs[n];
    var c, p := g.closes[i].client, g.routers[r].phase;
    RunKeepsOwnership(gs, es, n);
    assert Accounted(g, c);
    CloseCountAt(g.closes, i);
    assert k < |p.at|;
    RunLogs(gs, es, n, r);
    var j :| 0 <= j < |g.closes| && g.closes[j] == Close(c, p.at[k]);
    OneClosingTime(g.closes, i, j);
    DrainProofs.DrainBeforeClose(gs, es, n, r, q, k);
  }
}
