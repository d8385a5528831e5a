/** The three maps refine the history. */
module HealthProofs {
  import opened HealthModel

  lemma {:induction false} LatestKeys(nodes: seq<Node>, a: Addr)
    ensures a in Latest(nodes) <==> HasAddr(nodes, a)
    ensures a in Latest(nodes) ==> Latest(nodes)[a].addr == a
  {
    if nodes != [] {
      var init := nodes[..|nodes| - 1];
      LatestKeys(init, a);
      if HasAddr(init, a) {
        var i :| 0 <= i < |init| && init[i].addr == a;
        assert nodes[i].addr == a;
      }
      if HasAddr(nodes, a) && nodes[|nodes| - 1].addr != a {
        var i :| 0 <= i < |nodes| && nodes[i].addr == a;
        assert init[i].addr == a;
      }
    }
  }

  /******* The loops of updateNodes, one address at a time *******/

  lemma WithoutNone(h: Health)
    ensures Without(h, {}) == h
  {
  }

  lemma RemovedOneMore<V>(m: map<Addr, V>, gone: set<Addr>, a: Addr)
    ensures (m - gone) - {a} == m - (gone + {a})
  {
  }

  lemma WithoutOneMore(h: Health, gone: set<Addr>, a: Addr)
    ensures Without(Without(h, gone), {a}) == Without(h, gone + {a})
  {
    RemovedOneMore(h.healthy, gone, a);
    RemovedOneMore(h.failures, gone, a);
    RemovedOneMore(h.nodes, gone, a);
  }

  lemma DropSeenNone(h: Health, latest: set<Addr>)
    ensures DropSeen(h, {}, latest) == h
  {
    assert {} - latest == {};
    WithoutNone(h);
  }

  lemma DropSeenOneMore(h: Health, seen: set<Addr>, latest: set<Addr>, a: Addr)
    ensures DropSeen(h, seen + {a}, latest) == DropOne(DropSeen(h, seen, latest), a, latest)
  {
    if a in latest {
      assert seen + {a} - latest == seen - latest;
    } else {
      assert seen + {a} - latest == (seen - latest) + {a};
      WithoutOneMore(h, seen - latest, a);
    }
  }

  lemma SeenOneMore(all: set<Addr>, seen: set<Addr>, a: Addr)
    ensures (all - seen) - {a} == all - (seen + {a})
  {
  }

  lemma WithNone(h: Health, latest: map<Addr, Node>)
    ensures With(h, latest, {}) == h
  {
    assert With(h, latest, {}).healthy == h.healthy;
    assert With(h, latest, {}).failures == h.failures;
    assert With(h, latest, {}).nodes == h.nodes;
  }

  lemma AddedOneMore<V>(m: map<Addr, V>, added: set<Addr>, v: V, a: Addr)
    ensures (m + map b | b in added :: v)[a := v] == m + map b | b in added + {a} :: v
  {
  }

  lemma CopiedOneMore(m: map<Addr, Node>, latest: map<Addr, Node>, some: set<Addr>, a: Addr)
    requires some <= latest.Keys && a in latest
    ensures (m + map b | b in some :: latest[b])[a := latest[a]] == m + map b | b in some + {a} :: latest[b]
  {
  }

  /** An address that was listed before is only copied. */
  lemma WithOneKept(h: Health, latest: map<Addr, Node>, some: set<Addr>, a: Addr)
    requires some <= latest.Keys && a in latest && a in h.nodes
    ensures
      var g := With(h, latest, some);
      With(h, latest, some + {a}) == g.(nodes := g.nodes[a := latest[a]])
  {
    assert some + {a} - h.nodes.Keys == some - h.nodes.Keys;
    CopiedOneMore(h.nodes, latest, some, a);
  }

  lemma WithOneNew(h: Health, latest: map<Addr, Node>, some: set<Addr>, a: Addr)
    requires some <= latest.Keys && a in latest && a !in h.nodes
    ensures
      var g := With(h, latest, some);
      With(h, latest, some + {a}) == Health(g.healthy[a := true], g.failures[a := 0], g.nodes[a := latest[a]])
  {
    var added := some - h.nodes.Keys;
    assert some + {a} - h.nodes.Keys == added + {a};
    AddedOneMore(h.healthy, added, true, a);
    AddedOneMore(h.failures, added, 0, a);
    CopiedOneMore(h.nodes, latest, some, a);
  }

  lemma WithKeys(h: Health, latest: map<Addr, Node>, some: set<Addr>)
    requires some <= latest.Keys
    ensures With(h, latest, some).nodes.Keys == h.nodes.Keys + some
  {
  }

  lemma WithOneMore(h: Health, latest: map<Addr, Node>, some: set<Addr>, a: Addr)
    requires some <= latest.Keys && a in latest && a !in some
    ensures With(h, latest, some + {a}) == PutOne(With(h, latest, some), a, latest[a])
  {
    WithKeys(h, latest, some);
    if a in h.nodes { WithOneKept(h, latest, some, a); } else { WithOneNew(h, latest, some, a); }
  }

  lemma AfterExtend(es: seq<Event>, e: Event, maxFailures: int)
    ensures After(es + [e], maxFailures) == Apply(After(es, maxFailures), e, maxFailures)
  {
    assert (es + [e])[..|es|] == es;
  }

  /******* Refinement *******/

  /** The maps say of one address the same, before and after a step that leaves it alone. */
  ghost predicate SameAt(h: Health, g: Health, a: Addr) {
    && (a in h.nodes <==> a in g.nodes)
    && (a in h.healthy <==> a in g.healthy) && (a in h.healthy ==> h.healthy[a] == g.healthy[a])
    && (a in h.failures <==> a in g.failures) && (a in h.failures ==> h.failures[a] == g.failures[a])
  }

  /** What a push does to one address. */
  lemma PushAt(h: Health, nodes: seq<Node>, a: Addr)
    ensures
      var g := UpdateNodes(h, nodes);
      if HasAddr(nodes, a) then
        if a in h.nodes then SameAt(h, g, a)
        else
          && a in g.nodes && a in g.healthy && g.healthy[a]
          && a in g.failures && g.failures[a] == 0
      else if a in h.nodes then
        a !in g.nodes && a !in g.healthy && a !in g.failures
      else SameAt(h, g, a)
  {
    LatestKeys(nodes, a);
  }

  /** The maps say of `a` exactly what the history says. */
  ghost predicate Refines(es: seq<Event>, a: Addr, maxFailures: int) {
    var h := After(es, maxFailures);
    && (a in h.nodes <==> Listed(es, a))
    && (a in h.failures <==> a in h.healthy)
    && (a in h.nodes ==> a in h.failures)
    && (a in h.failures <==> exists i :: LatestReset(es, i, a))
    && (forall i :: LatestReset(es, i, a) ==>
          h.failures[a] == Failures(es[i + 1..], a) && h.healthy[a] == (h.failures[a] < maxFailures))
  }

  /** An earlier reset is still the latest one if the last event leaves the address alone. */
  lemma KeepsReset(es: seq<Event>, i: nat, a: Addr)
    requires es != [] && i < |es| - 1
    ensures LatestReset(es, i, a) <==>
              LatestReset(es[..|es| - 1], i, a) && !Resets(es, |es| - 1, a) && !Drops(es, |es| - 1, a)
  {
    var init := es[..|es| - 1];
    assert forall j :: 0 <= j < |init| ==> init[..j] == es[..j] && init[j] == es[j];
    assert forall j :: 0 <= j < |init| ==>
      Resets(init, j, a) == Resets(es, j, a) && Drops(init, j, a) == Drops(es, j, a);
  }

  lemma FailuresExtend(es: seq<Event>, i: nat, a: Addr)
    requires es != [] && i < |es| - 1
    ensures Failures(es[i + 1..], a) ==
              Failures(es[..|es| - 1][i + 1..], a) + if es[|es| - 1] == Failed(a) then 1 else 0
  {
    var tail := es[i + 1..];
    assert tail[..|tail| - 1] == es[..|es| - 1][i + 1..] && tail[|tail| - 1] == es[|es| - 1];
  }

  /** The last event starts the address afresh. */
  lemma RefinesAtReset(es: seq<Event>, a: Addr, maxFailures: int)
    requires maxFailures >= 1 && es != [] && Refines(es[..|es| - 1], a, maxFailures) && Resets(es, |es| - 1, a)
    ensures Refines(es, a, maxFailures)
  {
    var n := |es| - 1;
    assert LatestReset(es, n, a);
    assert es[n + 1..] == [];
    assert forall i: nat :: LatestReset(es, i, a) ==> i == n;
    if es[n].Pushed? { PushAt(After(es[..n], maxFailures), es[n].nodes, a); }
  }

  /** The last event makes the checker forget the address. */
  lemma RefinesAtDrop(es: seq<Event>, a: Addr, maxFailures: int)
    requires es != [] && Refines(es[..|es| - 1], a, maxFailures) && Drops(es, |es| - 1, a)
    ensures Refines(es, a, maxFailures)
  {
    var n := |es| - 1;
    assert !Resets(es, n, a);
    if es[n].Pushed? { PushAt(After(es[..n], maxFailures), es[n].nodes, a); }
  }

  /** What the last event does to an address that it neither starts afresh nor drops. */
  lemma OtherwiseAt(es: seq<Event>, a: Addr, maxFailures: int)
    requires es != [] && Refines(es[..|es| - 1], a, maxFailures)
    requires !Resets(es, |es| - 1, a) && !Drops(es, |es| - 1, a)
    ensures
      var h, g := After(es[..|es| - 1], maxFailures), After(es, maxFailures);
      && (es[|es| - 1] == Failed(a) ==> g == MarkFailure(h, a, maxFailures))
      && (es[|es| - 1] != Failed(a) ==> SameAt(h, g, a))
      && (Listed(es, a) <==> Listed(es[..|es| - 1], a))
  {
    var n := |es| - 1;
    if es[n].Pushed? { PushAt(After(es[..n], maxFailures), es[n].nodes, a); }
  }

  /** The last event counts for the address or passes it by. */
  lemma RefinesOtherwise(es: seq<Event>, a: Addr, maxFailures: int)
    requires maxFailures >= 1 && es != [] && Refines(es[..|es| - 1], a, maxFailures)
    requires !Resets(es, |es| - 1, a) && !Drops(es, |es| - 1, a)
    ensures Refines(es, a, maxFailures)
  {
    var n, init := |es| - 1, es[..|es| - 1];
    OtherwiseAt(es, a, maxFailures);
    forall i: nat | i < n ensures LatestReset(es, i, a) <==> LatestReset(init, i, a) { KeepsReset(es, i, a); }
    forall i: nat | LatestReset(es, i, a)
      ensures i < n && Failures(es[i + 1..], a) == Failures(init[i + 1..], a) + if es[n] == Failed(a) then 1 else 0
    {
      FailuresExtend(es, i, a);
    }
    if i :| LatestReset(init, i, a) { assert LatestReset(es, i, a); }
  }

  lemma {:induction false} HistoryRefined(es: seq<Event>, a: Addr, maxFailures: int)
    requires maxFailures >= 1
    ensures Refines(es, a, maxFailures)
  {
    if es != [] {
      var init := es[..|es| - 1];
      HistoryRefined(init, a, maxFailures);
      if Resets(es, |es| - 1, a) {
        RefinesAtReset(es, a, maxFailures);
      } else if Drops(es, |es| - 1, a) {
        RefinesAtDrop(es, a, maxFailures);
      } else {
        RefinesOtherwise(es, a, maxFailures);
      }
    }
  }

  /******* What callers can rely on *******/

  /**
   IsHealthy after any interleaving of pushes, request failures and finished probes: there was a
   latest fresh start of the address, it was not forgotten since, and fewer than `maxFailures`
   failures of it were counted since then. Its counter is exactly that number.
   */
  lemma HealthRefinesHistory(es: seq<Event>, a: Addr, maxFailures: int)
    requires maxFailures >= 1
    ensures
      var h := After(es, maxFailures);
      && h.nodes.Keys <= h.failures.Keys == h.healthy.Keys
      && (IsHealthy(h, a) <==> exists i: nat :: LatestReset(es, i, a) && Failures(es[i + 1..], a) < maxFailures)
      && forall i: nat :: LatestReset(es, i, a) ==> a in h.failures && h.failures[a] == Failures(es[i + 1..], a)
  {
    var h := After(es, maxFailures);
    forall b ensures (b in h.nodes ==> b in h.failures) && (b in h.failures <==> b in h.healthy) {
      HistoryRefined(es, b, maxFailures);
    }
    HistoryRefined(es, a, maxFailures);
  }

  /** Being healthy means being below the limit. */
  ghost predicate BelowLimit(es: seq<Event>, a: Addr, maxFailures: int) {
    forall i: nat :: LatestReset(es, i, a) ==>
      (IsHealthy(After(es, maxFailures), a) <==> Failures(es[i + 1..], a) < maxFailures)
  }

  /** That meaning holds for every history exactly when at least one failure is tolerated as the limit. */
  lemma BelowLimitIff(maxFailures: int)
    ensures (forall es, a :: BelowLimit(es, a, maxFailures)) <==> maxFailures >= 1
  {
    if maxFailures >= 1 {
      forall es, a ensures BelowLimit(es, a, maxFailures) {
        HistoryRefined(es, a, maxFailures);
      }
    } else {
      var es := [Passed("10.0.0.1:9000")];
      assert es[..0] == [] && es[1..] == [];
      assert LatestReset(es, 0, "10.0.0.1:9000");
      assert !BelowLimit(es, "10.0.0.1:9000", maxFailures);
    }
  }

  /** Whatever the limit: every listed address has a counter, and the two state maps have the same keys. */
  lemma {:induction false} KeysAligned(es: seq<Event>, a: Addr, maxFailures: int)
    ensures
      var h := After(es, maxFailures);
      && (a in h.nodes ==> a in h.failures)
      && (a in h.failures <==> a in h.healthy)
  {
    if es != [] {
      var n := |es| - 1;
      KeysAligned(es[..n], a, maxFailures);
      if es[n].Pushed? { PushAt(After(es[..n], maxFailures), es[n].nodes, a); }
    }
  }

  /** A push does not touch the state of an address it keeps, whatever the history before it. */
  lemma PushKeepsState(es: seq<Event>, nodes: seq<Node>, a: Addr, maxFailures: int)
    requires a in After(es, maxFailures).nodes && HasAddr(nodes, a)
    ensures
      var h, g := After(es, maxFailures), After(es + [Pushed(nodes)], maxFailures);
      && a in h.failures && a in h.healthy && a in g.failures && a in g.healthy && a in g.nodes
      && g.failures[a] == h.failures[a] && g.healthy[a] == h.healthy[a]
  {
    KeysAligned(es, a, maxFailures);
    PushAt(After(es, maxFailures), nodes, a);
    AfterExtend(es, Pushed(nodes), maxFailures);
  }

  /** Of the pushed nodes with one address the last one is kept, weight and all. */
  ghost predicate LastWith(nodes: seq<Node>, a: Addr, node: Node) {
    node.addr == a
    && exists i :: 0 <= i < |nodes| && nodes[i] == node && forall j :: i < j < |nodes| ==> nodes[j].addr != a
  }

  lemma {:induction false} LatestIsLast(nodes: seq<Node>, a: Addr)
    requires a in Latest(nodes)
    ensures LastWith(nodes, a, Latest(nodes)[a])
  {
    var n, init := |nodes| - 1, nodes[..|nodes| - 1];
    if nodes[n].addr == a {
      assert nodes[n] == Latest(nodes)[a];
    } else {
      LatestIsLast(init, a);
      var i :| 0 <= i < |init| && init[i] == Latest(init)[a] && forall j :: i < j < |init| ==> init[j].addr != a;
      assert nodes[i] == Latest(nodes)[a];
      assert forall j :: i < j < |nodes| ==> nodes[j].addr != a by {
        assert forall j :: i < j < |init| ==> nodes[j] == init[j];
      }
    }
  }

  /** The event lists the node under its address. */
  ghost predicate Gives(e: Event, a: Addr, node: Node) {
    || (e.Registered? && e.node == node && node.addr == a)
    || (e.Pushed? && LastWith(e.nodes, a, node))
  }

  /** The event decides anew what is listed under the address. */
  predicate Decides(e: Event, a: Addr) {
    e.Pushed? || (e.Registered? && e.node.addr == a) || (e.Unregistered? && e.addr == a)
  }

  /** The node listed under an address is the one given by the last event that decided about it. */
  lemma {:induction false} NodeIsLatest(es: seq<Event>, a: Addr, maxFailures: int)
    requires a in After(es, maxFailures).nodes
    ensures exists i :: 0 <= i < |es| && Gives(es[i], a, After(es, maxFailures).nodes[a])
                          && forall j :: i < j < |es| ==> !Decides(es[j], a)
  {
    var n, init := |es| - 1, es[..|es| - 1];
    var h, g := After(init, maxFailures), After(es, maxFailures);
    if es[n].Pushed? {
      LatestIsLastPushed(h, es[n].nodes, a);
      assert Gives(es[n], a, g.nodes[a]);
    } else if es[n].Registered? && es[n].node.addr == a {
      assert Gives(es[n], a, g.nodes[a]);
    } else {
      assert a in h.nodes && h.nodes[a] == g.nodes[a];
      NodeIsLatest(init, a, maxFailures);
      var i :| 0 <= i < |init| && Gives(init[i], a, h.nodes[a]) && forall j :: i < j < |init| ==> !Decides(init[j], a);
      assert Gives(es[i], a, g.nodes[a]);
      assert forall j :: i < j < |init| ==> es[j] == init[j];
    }
  }

  lemma LatestIsLastPushed(h: Health, nodes: seq<Node>, a: Addr)
    requires a in UpdateNodes(h, nodes).nodes
    ensures LastWith(nodes, a, UpdateNodes(h, nodes).nodes[a])
  {
    LatestKeys(nodes, a);
    PushAt(h, nodes, a);
    if a in Latest(nodes) { LatestIsLast(nodes, a); }
  }

  /** A push refreshes every listed node to the last one pushed with its address. */
  lemma PushRefreshesNode(es: seq<Event>, nodes: seq<Node>, a: Addr, maxFailures: int)
    requires HasAddr(nodes, a)
    ensures
      var g := After(es + [Pushed(nodes)], maxFailures);
      a in g.nodes && LastWith(nodes, a, g.nodes[a])
  {
    AfterExtend(es, Pushed(nodes), maxFailures);
    LatestKeys(nodes, a);
    LatestIsLast(nodes, a);
    PushAt(After(es, maxFailures), nodes, a);
  }

  /** A push replaces the node list by the pushed one. */
  lemma PushReplacesNodes(es: seq<Event>, nodes: seq<Node>, a: Addr, maxFailures: int)
    ensures a in After(es + [Pushed(nodes)], maxFailures).nodes <==> HasAddr(nodes, a)
  {
    AfterExtend(es, Pushed(nodes), maxFailures);
    PushAt(After(es, maxFailures), nodes, a);
  }

  /** An address that has a counter without being listed owes it to a probe that passed after it was dropped. */
  lemma {:induction false} UnlistedCounterIsLateProbe(es: seq<Event>, a: Addr, i: nat)
    requires LatestReset(es, i, a) && !Listed(es, a)
    ensures es[i] == Passed(a) && !Listed(es[..i], a)
  {
    var n, init := |es| - 1, es[..|es| - 1];
    if i == n {
    } else {
      KeepsReset(es, i, a);
      assert !Listed(init, a);
      UnlistedCounterIsLateProbe(init, a, i);
      assert init[..i] == es[..i];
    }
  }

  /** A probe of the address passed, and it was not dropped since. */
  ghost predicate ProbedSinceDrop(es: seq<Event>, i: nat, a: Addr) {
    i < |es| && es[i] == Passed(a) && forall j :: i < j < |es| ==> !Drops(es, j, a)
  }

  /** After a fresh start that was not followed by a drop there is a latest fresh start. */
  lemma {:induction false} ResetSurvives(es: seq<Event>, i: nat, a: Addr)
    requires i < |es| && Resets(es, i, a) && forall j :: i < j < |es| ==> !Drops(es, j, a)
    ensures exists k: nat :: LatestReset(es, k, a)
  {
    var n, init := |es| - 1, es[..|es| - 1];
    if Resets(es, n, a) {
      assert LatestReset(es, n, a);
    } else {
      assert init[..i] == es[..i];
      forall j | i < j < |init| ensures !Drops(init, j, a) { assert init[..j] == es[..j] && !Drops(es, j, a); }
      ResetSurvives(init, i, a);
      var k: nat :| LatestReset(init, k, a);
      KeepsReset(es, k, a);
    }
  }

  /** The checker knows an address exactly when it is listed or a probe of it passed after it was last dropped. */
  lemma TrackedIff(es: seq<Event>, a: Addr)
    ensures (exists i: nat :: LatestReset(es, i, a)) <==>
            Listed(es, a) || exists i: nat :: ProbedSinceDrop(es, i, a)
  {
    HistoryRefined(es, a, 1);
    if i: nat :| LatestReset(es, i, a) {
      if !Listed(es, a) {
        UnlistedCounterIsLateProbe(es, a, i);
        assert ProbedSinceDrop(es, i, a);
      }
    }
    if i: nat :| ProbedSinceDrop(es, i, a) { ResetSurvives(es, i, a); }
  }
}
