/** What the attempts of one request guarantee. */
module AttemptProofs {
  import opened Wrappers
  import HealthModel
  import opened AttemptModel

  /******* Selection *******/

  lemma HasAddrLast(nodes: seq<Node>, a: Addr)
    requires nodes != []
    ensures HealthModel.HasAddr(nodes, a) <==>
              HealthModel.HasAddr(nodes[..|nodes| - 1], a) || nodes[|nodes| - 1].addr == a
  {
    var init := nodes[..|nodes| - 1];
    if i :| 0 <= i < |init| && init[i].addr == a { assert nodes[i].addr == a; }
    if i :| 0 <= i < |nodes| && nodes[i].addr == a && nodes[|nodes| - 1].addr != a { assert init[i].addr == a; }
  }

  lemma HasAddrAppend(nodes: seq<Node>, last: Node, a: Addr)
    ensures HealthModel.HasAddr(nodes + [last], a) <==> HealthModel.HasAddr(nodes, a) || last.addr == a
  {
    assert (nodes + [last])[..|nodes|] == nodes;
    HasAddrLast(nodes + [last], a);
  }

  lemma {:induction false} UntriedAddrs(nodes: seq<Node>, backends: seq<Addr>, a: Addr)
    ensures HealthModel.HasAddr(Untried(nodes, backends), a) <==> HealthModel.HasAddr(nodes, a) && a !in backends
  {
    if nodes != [] {
      var init, last := nodes[..|nodes| - 1], nodes[|nodes| - 1];
      UntriedAddrs(init, backends, a);
      HasAddrLast(nodes, a);
      if last.addr in backends {
        assert Untried(nodes, backends) == Untried(init, backends);
      } else {
        HasAddrAppend(Untried(init, backends), last, a);
      }
    }
  }

  lemma {:induction false} HealthyAddrs(nodes: seq<Node>, h: HealthModel.Health, a: Addr)
    ensures HealthModel.HasAddr(Healthy(nodes, h), a) <==> HealthModel.HasAddr(nodes, a) && HealthModel.IsHealthy(h, a)
  {
    if nodes != [] {
      var init, last := nodes[..|nodes| - 1], nodes[|nodes| - 1];
      HealthyAddrs(init, h, a);
      HasAddrLast(nodes, a);
      if HealthModel.IsHealthy(h, last.addr) {
        HasAddrAppend(Healthy(init, h), last, a);
      } else {
        assert Healthy(nodes, h) == Healthy(init, h);
      }
    }
  }

  /** The node is offered to this selection: listed, and healthy when health is checked. */
  predicate Available(t: Try, a: Addr) {
    HealthModel.HasAddr(t.nodes, a) && (t.health.Some? ==> HealthModel.IsHealthy(t.health.value, a))
  }

  lemma {:induction false} HealthyIsPart(nodes: seq<Node>, h: HealthModel.Health, i: nat)
    requires i < |Healthy(nodes, h)|
    ensures Healthy(nodes, h)[i] in nodes
  {
    var init := nodes[..|nodes| - 1];
    if i < |Healthy(init, h)| {
      HealthyIsPart(init, h, i);
      assert forall x :: x in init ==> x in nodes;
    }
  }

  lemma {:induction false} UntriedIsPart(nodes: seq<Node>, backends: seq<Addr>, i: nat)
    requires i < |Untried(nodes, backends)|
    ensures Untried(nodes, backends)[i] in nodes
  {
    var init := nodes[..|nodes| - 1];
    if i < |Untried(init, backends)| {
      UntriedIsPart(init, backends, i);
      assert forall x :: x in init ==> x in nodes;
    }
  }

  /** The pick is one of the listed nodes, as it was listed. */
  lemma SelectTakesAListedNode(t: Try, backends: seq<Addr>)
    ensures Select(t, backends).Chosen? ==> Select(t, backends).node in t.nodes
  {
    if Select(t, backends).Chosen? {
      var offered := if t.health.Some? then Healthy(t.nodes, t.health.value) else t.nodes;
      var nodes := Candidates(t, backends);
      var i := t.pick.index % |nodes|;
      if nodes != offered { UntriedIsPart(offered, backends, i); }
      var j :| 0 <= j < |offered| && offered[j] == nodes[i];
      if t.health.Some? { HealthyIsPart(t.nodes, t.health.value, j); }
    }
  }

  /**
   Whatever the selector picks, the node was available, and it is one that was not dispatched to
   before if there is any such node.
   */
  lemma SelectPrefersUntried(t: Try, backends: seq<Addr>)
    ensures
      match Select(t, backends)
      case Refused(e) => t.pick == PickerError(e) || (e == NoAvailable && forall a :: !Available(t, a))
      case Chosen(node) =>
        && Available(t, node.addr)
        && (node.addr in backends ==> forall a :: Available(t, a) ==> a in backends)
  {
    var offered := if t.health.Some? then Healthy(t.nodes, t.health.value) else t.nodes;
    forall a ensures HealthModel.HasAddr(offered, a) <==> Available(t, a) {
      if t.health.Some? { HealthyAddrs(t.nodes, t.health.value, a); }
    }
    forall a ensures HealthModel.HasAddr(Untried(offered, backends), a) <==> Available(t, a) && a !in backends {
      UntriedAddrs(offered, backends, a);
    }
    var nodes := Candidates(t, backends);
    assert nodes != [] ==> HealthModel.HasAddr(nodes, nodes[0].addr);
    if Select(t, backends).Chosen? {
      var i := t.pick.index % |nodes|;
      assert HealthModel.HasAddr(nodes, nodes[i].addr);
    }
    if nodes == [] { assert offered == []; }
    if Untried(offered, backends) == [] {
      assert forall a :: !HealthModel.HasAddr(Untried(offered, backends), a);
    }
  }

  /******* One round trip *******/

  /**
   What a round trip adds to the request options, whatever it meets: the addresses it dispatched to;
   one status per dispatch and one more when it is given up; and the status and the done function of
   the answer, if there is one.
   */
  ghost predicate Accounts(o: Opts, t: TripResult) {
    var n, m := |o.backends|, |t.opts.backends|;
    && n <= m && o.backends == t.opts.backends[..n]
    && t.opts.lastAttempt == o.lastAttempt
    && |t.opts.statuses| == |o.statuses| + (m - n) + (if t.resp.None? then 1 else 0)
    && (t.resp.Some? ==>
          && t.err.None? && n < m
          && t.opts.pending == Some(m - 1)
          && t.opts.statuses[|t.opts.statuses| - 1] == t.resp.value.status)
    && (t.resp.None? ==> t.opts.pending == o.pending)
  }

  lemma {:induction false} TripAccounts(
      o: Opts, tries: nat -> Try, k: nat, maxRetries: int, lastErr: Option<Error>, lastDone: Option<nat>)
    ensures Accounts(o, Trip(o, tries, k, maxRetries, lastErr, lastDone))
    decreases maxRetries - k
  {
    if k < maxRetries {
      match Select(tries(k), o.backends)
      case Refused(e) => TripAccounts(o, tries, k + 1, maxRetries, Some(e), lastDone);
      case Chosen(node) =>
        match tries(k).outcome {
          case Answer(r) =>
          case NoAnswer(e) =>
            var f := Failing(o, node.addr, tries(k).health.Some?);
            TripAccounts(f, tries, k + 1, maxRetries, Some(e), Some(|o.backends|));
            assert o.backends == f.backends[..|o.backends|];
        }
    }
  }

  /** The dispatches of a round trip that got no answer. */
  function Unanswered(o: Opts, t: TripResult): (r: seq<Addr>)
    requires |o.backends| <= |t.opts.backends| - if t.resp.Some? then 1 else 0
  {
    t.opts.backends[|o.backends|..|t.opts.backends| - if t.resp.Some? then 1 else 0]
  }

  lemma SliceHead(xs: seq<Addr>, ys: seq<Addr>, x: Addr, m: nat)
    requires |xs| + 1 <= m <= |ys| && xs + [x] == ys[..|xs| + 1]
    ensures ys[|xs|..m] == [x] + ys[|xs| + 1..m]
  {
    assert ys[|xs|] == (xs + [x])[|xs|];
  }

  /** With a health checker exactly the dispatches without answer are marked, in order; without one, none. */
  ghost predicate MarksFailures(o: Opts, t: TripResult, checked: bool) {
    && |o.backends| <= |t.opts.backends| - (if t.resp.Some? then 1 else 0)
    && t.opts.marked == if checked then o.marked + Unanswered(o, t) else o.marked
  }

  lemma MarkShift(marked: seq<Addr>, xs: seq<Addr>, ys: seq<Addr>, x: Addr, m: nat)
    requires |xs| + 1 <= m <= |ys| && xs + [x] == ys[..|xs| + 1]
    ensures marked + ys[|xs|..m] == (marked + [x]) + ys[|xs| + 1..m]
  {
    SliceHead(xs, ys, x, m);
    assert marked + ([x] + ys[|xs| + 1..m]) == (marked + [x]) + ys[|xs| + 1..m];
  }

  lemma FailingMarks(o: Opts, addr: Addr, t: TripResult, checked: bool)
    requires Accounts(Failing(o, addr, checked), t) && MarksFailures(Failing(o, addr, checked), t, checked)
    ensures MarksFailures(o, t, checked)
  {
    var f, m := Failing(o, addr, checked), |t.opts.backends| - if t.resp.Some? then 1 else 0;
    assert |f.backends| == |o.backends| + 1;
    MarkShift(o.marked, o.backends, t.opts.backends, addr, m);
  }

  /** An answered dispatch marks nobody. */
  lemma AnsweredMarks(o: Opts, addr: Addr, r: Response, checked: bool)
    ensures MarksFailures(o, TripResult(Answered(o, addr, r.status), Some(r), None), checked)
  {
    assert (o.backends + [addr])[|o.backends|..|o.backends|] == [];
    assert o.marked + [] == o.marked;
  }

  lemma GivenUpMarks(o: Opts, lastErr: Option<Error>, lastDone: Option<nat>, checked: bool)
    ensures MarksFailures(o, TripResult(GivenUp(o, lastDone), None, lastErr), checked)
  {
    assert o.backends[|o.backends|..|o.backends|] == [];
    assert o.marked + [] == o.marked;
  }

  lemma {:induction false} TripMarksFailures(
      o: Opts, tries: nat -> Try, k: nat, maxRetries: int, lastErr: Option<Error>, lastDone: Option<nat>, checked: bool)
    requires forall j: nat :: k <= j < maxRetries ==> tries(j).health.Some? == checked
    ensures MarksFailures(o, Trip(o, tries, k, maxRetries, lastErr, lastDone), checked)
    decreases maxRetries - k
  {
    if k >= maxRetries {
      GivenUpMarks(o, lastErr, lastDone, checked);
    } else {
      match Select(tries(k), o.backends)
      case Refused(e) => TripMarksFailures(o, tries, k + 1, maxRetries, Some(e), lastDone, checked);
      case Chosen(node) =>
        match tries(k).outcome {
          case Answer(r) => AnsweredMarks(o, node.addr, r, checked);
          case NoAnswer(e) =>
            var f, n := Failing(o, node.addr, checked), |o.backends|;
            TripMarksFailures(f, tries, k + 1, maxRetries, Some(e), Some(n), checked);
            TripAccounts(f, tries, k + 1, maxRetries, Some(e), Some(n));
            FailingMarks(o, node.addr, Trip(f, tries, k + 1, maxRetries, Some(e), Some(n)), checked);
        }
    }
  }

  function Range(n: nat, m: nat): seq<nat>
    requires n <= m
  {
    seq(m - n, i requires 0 <= i => n + i)
  }

  /** The done calls of a round trip: every dispatch without answer once, and the last one again when it is given up. */
  ghost predicate Reports(o: Opts, t: TripResult, lastDone: Option<nat>) {
    var n, m := |o.backends|, |t.opts.backends|;
    && n <= m - (if t.resp.Some? then 1 else 0)
    && t.opts.reported ==
         o.reported +
         if t.resp.Some? then Range(n, m - 1)
         else Range(n, m) + if m > n then [m - 1] else if lastDone.Some? then [lastDone.value] else []
  }

  lemma RangeHead(xs: seq<nat>, n: nat, m: nat, ys: seq<nat>)
    requires n < m
    ensures xs + [n] + (Range(n + 1, m) + ys) == xs + (Range(n, m) + ys)
  {
    assert Range(n, m) == [n] + Range(n + 1, m);
  }

  lemma FailingReports(o: Opts, addr: Addr, t: TripResult, checked: bool, lastDone: Option<nat>)
    requires Reports(Failing(o, addr, checked), t, Some(|o.backends|))
    ensures Reports(o, t, lastDone)
  {
    var n, m := |o.backends|, |t.opts.backends|;
    if t.resp.Some? {
      RangeHead(o.reported, n, m - 1, []);
    } else {
      RangeHead(o.reported, n, m, [m - 1]);
    }
  }

  lemma {:induction false} TripReports(
      o: Opts, tries: nat -> Try, k: nat, maxRetries: int, lastErr: Option<Error>, lastDone: Option<nat>)
    ensures Reports(o, Trip(o, tries, k, maxRetries, lastErr, lastDone), lastDone)
    decreases maxRetries - k
  {
    if k < maxRetries {
      match Select(tries(k), o.backends)
      case Refused(e) => TripReports(o, tries, k + 1, maxRetries, Some(e), lastDone);
      case Chosen(node) =>
        match tries(k).outcome {
          case Answer(r) =>
          case NoAnswer(e) =>
            var f, n := Failing(o, node.addr, tries(k).health.Some?), |o.backends|;
            TripReports(f, tries, k + 1, maxRetries, Some(e), Some(n));
            var t := Trip(f, tries, k + 1, maxRetries, Some(e), Some(n));
            FailingReports(o, node.addr, t, tries(k).health.Some?, lastDone);
        }
    }
  }

  /** A round trip dispatches at most `maxRetries` times. */
  lemma {:induction false} TripBound(
      o: Opts, tries: nat -> Try, k: nat, maxRetries: int, lastErr: Option<Error>, lastDone: Option<nat>)
    ensures |Trip(o, tries, k, maxRetries, lastErr, lastDone).opts.backends|
            <= |o.backends| + if k < maxRetries then maxRetries - k else 0
    decreases maxRetries - k
  {
    if k < maxRetries {
      match Select(tries(k), o.backends)
      case Refused(e) => TripBound(o, tries, k + 1, maxRetries, Some(e), lastDone);
      case Chosen(node) =>
        match tries(k).outcome {
          case Answer(r) =>
          case NoAnswer(e) =>
            var f := Failing(o, node.addr, tries(k).health.Some?);
            TripBound(f, tries, k + 1, maxRetries, Some(e), Some(|o.backends|));
        }
    }
  }

  /** A round trip ends with neither response nor error exactly when it makes no pass at all. */
  lemma {:induction false} TripEmptyIff(
      o: Opts, tries: nat -> Try, k: nat, maxRetries: int, lastErr: Option<Error>, lastDone: Option<nat>)
    ensures
      var t := Trip(o, tries, k, maxRetries, lastErr, lastDone);
      && (t.resp.None? && t.err.None? <==> k >= maxRetries && lastErr.None?)
      && !(t.resp.Some? && t.err.Some?)
    decreases maxRetries - k
  {
    if k < maxRetries {
      match Select(tries(k), o.backends)
      case Refused(e) => TripEmptyIff(o, tries, k + 1, maxRetries, Some(e), lastDone);
      case Chosen(node) =>
        match tries(k).outcome {
          case Answer(r) =>
          case NoAnswer(e) =>
            var f := Failing(o, node.addr, tries(k).health.Some?);
            TripEmptyIff(f, tries, k + 1, maxRetries, Some(e), Some(|o.backends|));
        }
    }
  }

  /******* Attempts spread out *******/

  /** The first `m` dispatches went to pairwise different addresses. */
  predicate Spread(backends: seq<Addr>, m: nat) {
    forall i, j :: 0 <= i < j < |backends| && j < m ==> backends[i] != backends[j]
  }

  function Elements(xs: seq<Addr>): (r: set<Addr>)
    ensures forall x :: x in r <==> x in xs
    ensures |r| <= |xs|
  {
    if xs == [] then {} else Elements(xs[..|xs| - 1]) + {xs[|xs| - 1]}
  }

  /** More addresses than were used: one is left. */
  lemma SomeoneLeft(who: set<Addr>, used: seq<Addr>) returns (a: Addr)
    requires |used| < |who|
    ensures a in who && a !in used
  {
    var left := who - Elements(used);
    if left == {} {
      assert who <= Elements(used);
      Larger(who, Elements(used));
    }
    a :| a in left;
  }

  lemma {:induction false} Larger(s: set<Addr>, t: set<Addr>)
    requires s <= t
    ensures |s| <= |t|
  {
    if s != {} {
      var x :| x in s;
      Larger(s - {x}, t - {x});
    }
  }

  lemma SelectSpreads(t: Try, backends: seq<Addr>, who: set<Addr>)
    requires Spread(backends, |who|)
    requires forall a :: a in who ==> Available(t, a)
    requires Select(t, backends).Chosen?
    ensures Spread(backends + [Select(t, backends).node.addr], |who|)
  {
    if |backends| < |who| {
      var a := SomeoneLeft(who, backends);
      SelectPrefersUntried(t, backends);
      assert Select(t, backends).node.addr !in backends;
    }
  }

  lemma {:induction false} TripSpreads(
      o: Opts, tries: nat -> Try, k: nat, maxRetries: int, lastErr: Option<Error>, lastDone: Option<nat>,
      who: set<Addr>)
    requires Spread(o.backends, |who|)
    requires forall j: nat, a :: k <= j < maxRetries && a in who ==> Available(tries(j), a)
    ensures Spread(Trip(o, tries, k, maxRetries, lastErr, lastDone).opts.backends, |who|)
    decreases maxRetries - k
  {
    if k < maxRetries {
      match Select(tries(k), o.backends)
      case Refused(e) => TripSpreads(o, tries, k + 1, maxRetries, Some(e), lastDone, who);
      case Chosen(node) =>
        SelectSpreads(tries(k), o.backends, who);
        match tries(k).outcome {
          case Answer(r) =>
          case NoAnswer(e) =>
            var f := Failing(o, node.addr, tries(k).health.Some?);
            TripSpreads(f, tries, k + 1, maxRetries, Some(e), Some(|o.backends|), who);
        }
    }
  }

  /** At every selection that the iteration may make, all of `who` are listed and healthy. */
  ghost predicate StayAvailable(round: Round, maxRetries: int, who: set<Addr>) {
    round.way.Reached? ==>
      forall k: nat, a :: k < maxRetries && a in who ==> Available(round.way.tries(k), a)
  }

  lemma IterateSpreads(p: Progress, i: nat, round: Round, c: Config, who: set<Addr>)
    requires Spread(p.opts.backends, |who|) && StayAvailable(round, c.maxRetries, who)
    ensures Spread(Iterate(p, i, round, c).0.opts.backends, |who|)
  {
    if round.way.Reached? {
      TripSpreads(p.opts, round.way.tries, 0, c.maxRetries, None, None, who);
      TripSpreads(p.opts.(lastAttempt := true), round.way.tries, 0, c.maxRetries, None, None, who);
    }
  }

  lemma {:induction false} LoopSpreads(p: Progress, i: nat, rounds: nat -> Round, c: Config, who: set<Addr>)
    requires Spread(p.opts.backends, |who|)
    requires forall j: nat :: i <= j < AttemptsOf(c) ==> StayAvailable(rounds(j), c.maxRetries, who)
    ensures Spread(Loop(p, i, rounds, c).0.opts.backends, |who|)
    decreases AttemptsOf(c) - i
  {
    if i < AttemptsOf(c) {
      IterateSpreads(p, i, rounds(i), c, who);
      var (q, control) := Iterate(p, i, rounds(i), c);
      if control == Again { LoopSpreads(q, i + 1, rounds, c, who); }
    }
  }

  /**
   Over a whole request: while the addresses in `who` stay listed and healthy, the first |who|
   dispatches go to pairwise different addresses, whatever the selector picks and however the
   attempts end.
   */
  lemma AttemptsSpreadOut(rounds: nat -> Round, c: Config, who: set<Addr>)
    requires forall i: nat :: i < AttemptsOf(c) ==> StayAvailable(rounds(i), c.maxRetries, who)
    ensures
      var sent := Loop(Start, 0, rounds, c).0.opts.backends;
      forall i, j :: 0 <= i < j < |sent| && j < |who| ==> sent[i] != sent[j]
  {
    LoopSpreads(Start, 0, rounds, c, who);
  }

  /******* Retry outcome *******/

  /** What every iteration keeps: the last round trip is what `resp` and a missing error stand for. */
  ghost predicate Sound(p: Progress) {
    && (p.trips != [] && p.err.None? ==> p.trips[|p.trips| - 1] == (p.resp, None))
    && (p.trips == [] ==> p.resp.None? && p.opts.backends == [])
    && (p.resp.Some? ==> p.trips != [])
  }

  lemma IterateSound(p: Progress, i: nat, round: Round, c: Config)
    requires Sound(p) && (i > 0 ==> p.trips != [])
    ensures
      var (q, control) := Iterate(p, i, round, c);
      && Sound(q)
      && (control == Again ==> q.trips != [])
      && (i == 0 ==> (round.ctxErr.None? <==> |q.trips| == |p.trips| + 1))
      && |p.trips| <= |q.trips| <= |p.trips| + 1
      && (q.trips == [] ==> q.err.Some?)
  {
  }

  lemma {:induction false} LoopSound(p: Progress, i: nat, rounds: nat -> Round, c: Config)
    requires Sound(p) && (i > 0 ==> p.trips != [])
    ensures
      var q := Loop(p, i, rounds, c).0;
      && Sound(q)
      && |p.trips| <= |q.trips|
      && (i < AttemptsOf(c) ==> |q.trips| <= |p.trips| + AttemptsOf(c) - i)
      && (i == 0 < AttemptsOf(c) && rounds(0).ctxErr.None? ==> |q.trips| > |p.trips|)
      && (0 < AttemptsOf(c) && q.trips == [] ==> q.err.Some?)
    decreases AttemptsOf(c) - i
  {
    if i < AttemptsOf(c) {
      IterateSound(p, i, rounds(i), c);
      var (q, control) := Iterate(p, i, rounds(i), c);
      if control == Again { LoopSound(q, i + 1, rounds, c); }
    }
  }

  lemma IterateBound(p: Progress, i: nat, round: Round, c: Config)
    requires c.maxRetries >= 1
    ensures |Iterate(p, i, round, c).0.opts.backends| <= |p.opts.backends| + c.maxRetries
  {
    if round.way.Reached? {
      TripBound(p.opts, round.way.tries, 0, c.maxRetries, None, None);
      TripBound(p.opts.(lastAttempt := true), round.way.tries, 0, c.maxRetries, None, None);
    }
  }

  lemma OneLess(n: nat, m: nat)
    requires n > 0
    ensures n * m == (n - 1) * m + m && (n - 1) * m >= 0
  {
  }

  lemma {:induction false} LoopBound(p: Progress, i: nat, rounds: nat -> Round, c: Config)
    requires c.maxRetries >= 1 && i <= AttemptsOf(c)
    ensures |Loop(p, i, rounds, c).0.opts.backends| <= |p.opts.backends| + (AttemptsOf(c) - i) * c.maxRetries
    decreases AttemptsOf(c) - i
  {
    if i < AttemptsOf(c) {
      IterateBound(p, i, rounds(i), c);
      var (q, control) := Iterate(p, i, rounds(i), c);
      OneLess(AttemptsOf(c) - i, c.maxRetries);
      if control == Again { LoopBound(q, i + 1, rounds, c); }
    }
  }

  /**
   The retry loop as a whole, for every script: a round trip is made unless the context was done
   from the start, there are at most `attempts` round trips and `attempts * maxRetries` dispatches,
   and a response that is written is the one of the last round trip.
   */
  lemma RetryOutcome(rounds: nat -> Round, c: Config)
    requires c.maxRetries >= 1
    ensures
      var (q, crashed) := Loop(Start, 0, rounds, c);
      && (q.trips == [] <==> rounds(0).ctxErr.Some?)
      && |q.trips| <= AttemptsOf(c)
      && |q.opts.backends| <= AttemptsOf(c) * c.maxRetries
      && match Finish(q, crashed)
         case WriteError(e) => q.err == Some(e)
         case WriteResponse(r) => q.trips != [] && q.trips[|q.trips| - 1] == (Some(r), None)
         case Panic => false
  {
    LoopSound(Start, 0, rounds, c);
    LoopBound(Start, 0, rounds, c);
    LoopAnswers(Start, 0, rounds, c);
  }

  lemma IterateAnswers(p: Progress, i: nat, round: Round, c: Config)
    requires c.maxRetries >= 1 && (i > 0 ==> p.err.Some? || p.resp.Some?)
    ensures
      var (q, control) := Iterate(p, i, round, c);
      control != Crash && (q.err.Some? || q.resp.Some?)
  {
    if round.way.Reached? {
      TripEmptyIff(p.opts, round.way.tries, 0, c.maxRetries, None, None);
      TripEmptyIff(p.opts.(lastAttempt := true), round.way.tries, 0, c.maxRetries, None, None);
    }
  }

  lemma {:induction false} LoopAnswers(p: Progress, i: nat, rounds: nat -> Round, c: Config)
    requires c.maxRetries >= 1 && (i > 0 ==> p.err.Some? || p.resp.Some?)
    ensures
      var (q, crashed) := Loop(p, i, rounds, c);
      !crashed && (q.err.Some? || q.resp.Some?)
    decreases AttemptsOf(c) - i
  {
    if i < AttemptsOf(c) {
      IterateAnswers(p, i, rounds(i), c);
      var (q, control) := Iterate(p, i, rounds(i), c);
      if control == Again { LoopAnswers(q, i + 1, rounds, c); }
    }
  }

  /** The handler ends with an error or a response to write. */
  ghost predicate Replies(rounds: nat -> Round, c: Config) {
    var (q, crashed) := Loop(Start, 0, rounds, c);
    !Finish(q, crashed).Panic?
  }

  /** The handler never ends without something to write exactly when the client makes at least one pass. */
  lemma NeverPanicsIff(c: Config)
    ensures (forall rounds: nat -> Round :: Replies(rounds, c)) <==> c.maxRetries >= 1
  {
    if c.maxRetries >= 1 {
      forall rounds: nat -> Round
        ensures Replies(rounds, c)
      {
        LoopAnswers(Start, 0, rounds, c);
      }
    } else {
      var round := Round(true, true, None, Reached(k => Try([], None, Choice(0), NoAnswer(NoAvailable))));
      var rounds: nat -> Round := i => round;
      assert rounds(0) == round;
      assert !Replies(rounds, c);
    }
  }

  /** Iteration `i` of the retry loop got past the feature switch. */
  predicate PassesSwitch(i: nat, round: Round) {
    i > 0 && round.switchedOn
  }

  /** The iteration made a round trip that ended in an authentication or permission error. */
  ghost predicate EndsInAuthError(p: Progress, q: Progress) {
    |q.trips| == |p.trips| + 1 && q.err == Some(AuthError)
  }

  /** The iteration made a round trip whose answer needs no retry. */
  ghost predicate EndsInGoodAnswer(p: Progress, q: Progress, c: Config) {
    |q.trips| == |p.trips| + 1 && q.err.None? && q.resp.Some? && !Judge(c.conditions, q.resp.value)
  }

  /**
   A retry iteration that passes the switch marks the breaker exactly once, unless authentication ends
   it, and the mark is a success exactly when the iteration ends in an answer that needs no retry.
   */
  lemma IterationMarksOnce(p: Progress, i: nat, round: Round, c: Config)
    requires c.maxRetries >= 1
    ensures
      var q := Iterate(p, i, round, c).0;
      q.marks ==
        if PassesSwitch(i, round) && !EndsInAuthError(p, q)
        then p.marks + [Mark(i, EndsInGoodAnswer(p, q, c))]
        else p.marks
  {
    if round.way.Reached? {
      TripEmptyIff(p.opts, round.way.tries, 0, c.maxRetries, None, None);
      TripEmptyIff(p.opts.(lastAttempt := true), round.way.tries, 0, c.maxRetries, None, None);
    }
  }

  /** The marks belong to retries, in increasing order. */
  ghost predicate OncePerRetry(marks: seq<Mark>, limit: int) {
    && (forall k :: 0 <= k < |marks| ==> 0 < marks[k].i < limit)
    && forall j, k :: 0 <= j < k < |marks| ==> marks[j].i < marks[k].i
  }

  lemma OneMoreMark(marks: seq<Mark>, i: nat, success: bool, limit: int)
    requires OncePerRetry(marks, i) && 0 < i < limit
    ensures OncePerRetry(marks + [Mark(i, success)], i + 1) && OncePerRetry(marks + [Mark(i, success)], limit)
  {
  }

  lemma IterateMarksSorted(p: Progress, i: nat, round: Round, c: Config)
    requires c.maxRetries >= 1 && OncePerRetry(p.marks, i) && i < AttemptsOf(c)
    ensures OncePerRetry(Iterate(p, i, round, c).0.marks, i + 1)
  {
    IterationMarksOnce(p, i, round, c);
    if i > 0 {
      OneMoreMark(p.marks, i, true, i + 1);
      OneMoreMark(p.marks, i, false, i + 1);
    }
  }

  lemma {:induction false} LoopMarksSorted(p: Progress, i: nat, rounds: nat -> Round, c: Config)
    requires c.maxRetries >= 1 && OncePerRetry(p.marks, i) && i <= AttemptsOf(c)
    ensures OncePerRetry(Loop(p, i, rounds, c).0.marks, AttemptsOf(c))
    decreases AttemptsOf(c) - i
  {
    if i < AttemptsOf(c) {
      IterateMarksSorted(p, i, rounds(i), c);
      var (q, control) := Iterate(p, i, rounds(i), c);
      if control == Again { LoopMarksSorted(q, i + 1, rounds, c); }
    }
  }

  /** Over a whole request each retry marks the breaker at most once and the first attempt never does. */
  lemma EachRetryMarksOnce(rounds: nat -> Round, c: Config)
    requires c.maxRetries >= 1
    ensures OncePerRetry(Loop(Start, 0, rounds, c).0.marks, AttemptsOf(c))
  {
    LoopMarksSorted(Start, 0, rounds, c);
  }

  /******* The written response and the last-attempt flag *******/

  /** A response in hand is the one of the last dispatch: its status comes last, its done function is DoneFunc. */
  ghost predicate HoldsLastDispatch(p: Progress) {
    p.err.None? && p.resp.Some? ==>
      && p.opts.backends != [] && p.opts.pending == Some(|p.opts.backends| - 1)
      && p.opts.statuses != [] && p.opts.statuses[|p.opts.statuses| - 1] == p.resp.value.status
  }

  lemma AttemptHoldsLastDispatch(p: Progress, i: nat, way: Way, c: Config)
    requires way.Reached?
    ensures HoldsLastDispatch(Attempt(p, i, way, c).0)
  {
    TripAccounts(p.opts, way.tries, 0, c.maxRetries, None, None);
  }

  lemma IterateHoldsLastDispatch(p: Progress, i: nat, round: Round, c: Config)
    requires HoldsLastDispatch(p) && round.way.Reached?
    ensures HoldsLastDispatch(Iterate(p, i, round, c).0)
  {
    AttemptHoldsLastDispatch(p, i, round.way, c);
    AttemptHoldsLastDispatch(LastAttempt(p), i, round.way, c);
  }

  lemma {:induction false} LoopHoldsLastDispatch(p: Progress, i: nat, rounds: nat -> Round, c: Config)
    requires HoldsLastDispatch(p) && forall j: nat :: i <= j < AttemptsOf(c) ==> rounds(j).way.Reached?
    ensures HoldsLastDispatch(Loop(p, i, rounds, c).0)
    decreases AttemptsOf(c) - i
  {
    if i < AttemptsOf(c) {
      IterateHoldsLastDispatch(p, i, rounds(i), c);
      var (q, control) := Iterate(p, i, rounds(i), c);
      if control == Again { LoopHoldsLastDispatch(q, i + 1, rounds, c); }
    }
  }

  /** When every round trip reaches the client, a written response is that of the last dispatch of the request. */
  lemma ResponseIsOfLastDispatch(rounds: nat -> Round, c: Config)
    requires forall j: nat :: j < AttemptsOf(c) ==> rounds(j).way.Reached?
    ensures
      var (q, crashed) := Loop(Start, 0, rounds, c);
      Finish(q, crashed).WriteResponse? ==>
        && q.opts.backends != [] && q.opts.pending == Some(|q.opts.backends| - 1)
        && q.opts.statuses != []
        && q.opts.statuses[|q.opts.statuses| - 1] == Finish(q, crashed).resp.status
  {
    LoopHoldsLastDispatch(Start, 0, rounds, c);
  }

  /** At the start of iteration `i` there were `i` round trips, all to be retried, and the flag is not set. */
  ghost predicate Unflagged(p: Progress, i: nat, c: Config) {
    && |p.trips| == i && !p.opts.lastAttempt && !GoodAnswer(p, c)
    && (i > 0 ==> p.trips[i - 1].1 != Some(AuthError))
  }

  /** The answer in hand needs no retry. */
  ghost predicate GoodAnswer(p: Progress, c: Config) {
    p.trips != [] && p.err.None? && p.resp.Some? && !Judge(c.conditions, p.resp.value)
  }

  /** The iteration is entered past the feature switch and the breaker. */
  predicate Entered(i: nat, round: Round) {
    i == 0 || (round.switchedOn && round.breakerAllows)
  }

  lemma RoundTripKeepsFlag(o: Opts, way: Way, maxRetries: int)
    ensures RoundTrip(o, way, maxRetries).opts.lastAttempt == o.lastAttempt
  {
    if way.Reached? { TripAccounts(o, way.tries, 0, maxRetries, None, None); }
  }

  /** What the round trip of an iteration does to the flag, and how it can end. */
  lemma AttemptFlags(p: Progress, i: nat, way: Way, c: Config)
    requires |p.trips| == i && c.maxRetries >= 1
    ensures
      var (q, control) := Attempt(p, i, way, c);
      && (q.opts.lastAttempt <==> GoodAnswer(q, c) || p.opts.lastAttempt)
      && |q.trips| == i + 1 && q.trips[..i] == p.trips
      && (control == Again ==> q.trips[i].1 != Some(AuthError) && !GoodAnswer(q, c))
      && (control != Again ==> GoodAnswer(q, c) || q.trips[i].1 == Some(AuthError))
  {
    RoundTripKeepsFlag(p.opts, way, c.maxRetries);
    if way.Reached? { TripEmptyIff(p.opts, way.tries, 0, c.maxRetries, None, None); }
  }

  /** What one iteration does to the flag, and how it can end. */
  lemma IterateFlags(p: Progress, i: nat, round: Round, c: Config)
    requires Unflagged(p, i, c) && c.maxRetries >= 1
    ensures
      var (q, control) := Iterate(p, i, round, c);
      && (q.opts.lastAttempt <==> GoodAnswer(q, c) || (i + 1 >= AttemptsOf(c) && Entered(i, round)))
      && i <= |q.trips| <= i + 1 && q.trips[..i] == p.trips
      && (|q.trips| == i + 1 ==> Entered(i, round))
      && (control == Again ==> |q.trips| == i + 1 && q.trips[i].1 != Some(AuthError) && !GoodAnswer(q, c))
      && (control != Again && |q.trips| == i + 1 ==> GoodAnswer(q, c) || q.trips[i].1 == Some(AuthError))
  {
    if Entered(i, round) && round.ctxErr.None? {
      AttemptFlags(if i + 1 >= AttemptsOf(c) then LastAttempt(p) else p, i, round.way, c);
    }
  }

  /**
   The last iteration was entered: all attempts were made, or all but the last, none of them ended
   the loop by an authentication error, and switch and breaker let the last one in.
   */
  ghost predicate LastEntered(q: Progress, rounds: nat -> Round, c: Config) {
    var n := AttemptsOf(c) - 1;
    || |q.trips| == n + 1
    || (|q.trips| == n && Entered(n, rounds(n)) && (n > 0 ==> q.trips[n - 1].1 != Some(AuthError)))
  }

  lemma {:induction false} LoopFlags(p: Progress, i: nat, rounds: nat -> Round, c: Config)
    requires Unflagged(p, i, c) && i < AttemptsOf(c) && c.maxRetries >= 1
    ensures
      var q := Loop(p, i, rounds, c).0;
      q.opts.lastAttempt <==> GoodAnswer(q, c) || LastEntered(q, rounds, c)
    decreases AttemptsOf(c) - i
  {
    IterateFlags(p, i, rounds(i), c);
    var (q, control) := Iterate(p, i, rounds(i), c);
    if control == Again && i + 1 < AttemptsOf(c) {
      LoopFlags(q, i + 1, rounds, c);
    } else if i > 0 && |q.trips| == i {
      assert q.trips == p.trips;
    }
  }

  /**
   The flag that middlewares read is set exactly when the answer needs no retry or the last iteration
   was entered, also if its context turned out to be done.
   */
  lemma LastAttemptFlag(rounds: nat -> Round, c: Config)
    requires c.maxRetries >= 1
    ensures
      var q := Loop(Start, 0, rounds, c).0;
      q.opts.lastAttempt <==> GoodAnswer(q, c) || LastEntered(q, rounds, c)
  {
    LoopFlags(Start, 0, rounds, c);
  }
}
