/** What a request's attempts are made of: every pass of the dispatch loop and every turn of the retry loop. */
module AttemptTrace {
  import opened Wrappers
  import HealthModel
  import opened AttemptModel
  import opened AttemptProofs

  /******* The filters keep order and places *******/

  function CountUntried(nodes: seq<Node>, backends: seq<Addr>): nat {
    if nodes == [] then 0
    else CountUntried(nodes[..|nodes| - 1], backends) + if nodes[|nodes| - 1].addr in backends then 0 else 1
  }

  /** The retry filter is stable: an untried node stands behind exactly the untried nodes before it. */
  lemma {:induction false} UntriedAt(nodes: seq<Node>, backends: seq<Addr>, i: nat)
    requires i < |nodes|
    ensures |Untried(nodes, backends)| == CountUntried(nodes, backends)
    ensures nodes[i].addr !in backends ==>
              && CountUntried(nodes[..i], backends) < |Untried(nodes, backends)|
              && Untried(nodes, backends)[CountUntried(nodes[..i], backends)] == nodes[i]
  {
    var n, init := |nodes| - 1, nodes[..|nodes| - 1];
    if n > 0 { UntriedAt(init, backends, if i < n then i else 0); }
    assert i < n ==> init[..i] == nodes[..i] && init[i] == nodes[i];
    assert nodes[..n] == init;
  }

  function CountHealthy(nodes: seq<Node>, h: HealthModel.Health): nat {
    if nodes == [] then 0
    else CountHealthy(nodes[..|nodes| - 1], h) + if HealthModel.IsHealthy(h, nodes[|nodes| - 1].addr) then 1 else 0
  }

  /** The health filter is stable too. */
  lemma {:induction false} HealthyAt(nodes: seq<Node>, h: HealthModel.Health, i: nat)
    requires i < |nodes|
    ensures |Healthy(nodes, h)| == CountHealthy(nodes, h)
    ensures HealthModel.IsHealthy(h, nodes[i].addr) ==>
              && CountHealthy(nodes[..i], h) < |Healthy(nodes, h)|
              && Healthy(nodes, h)[CountHealthy(nodes[..i], h)] == nodes[i]
  {
    var n, init := |nodes| - 1, nodes[..|nodes| - 1];
    if n > 0 { HealthyAt(init, h, if i < n then i else 0); }
    assert i < n ==> init[..i] == nodes[..i] && init[i] == nodes[i];
    assert nodes[..n] == init;
  }

  /** Some condition of the endpoint holds of the response. */
  lemma {:induction false} JudgeIff(conditions: seq<Response -> bool>, r: Response)
    ensures Judge(conditions, r) <==> exists i :: 0 <= i < |conditions| && conditions[i](r)
  {
    if conditions != [] {
      var rest := conditions[1..];
      JudgeIff(rest, r);
      assert forall i :: 0 <= i < |rest| ==> rest[i] == conditions[i + 1];
      if i :| 0 <= i < |conditions| && conditions[i](r) {
        if i > 0 { assert rest[i - 1](r); }
      }
      if i :| 0 <= i < |rest| && rest[i](r) { assert conditions[i + 1](r); }
    }
  }

  /******* The passes of one round trip *******/

  /** With `a` dispatches made before it, the pass adds the dispatch at place `a`, or is refused and adds none. */
  ghost predicate PassAt(t: Try, bs: seq<Addr>, a: nat, b: nat) {
    a <= |bs| &&
    match Select(t, bs[..a])
    case Refused(_) => b == a
    case Chosen(node) => a < |bs| && bs[a] == node.addr && b == a + 1
  }

  /** The pass got no answer, and this is its error. */
  ghost predicate FailsWith(t: Try, bs: seq<Addr>, a: nat, e: Error) {
    a <= |bs| &&
    match Select(t, bs[..a])
    case Refused(r) => e == r
    case Chosen(_) => t.outcome == NoAnswer(e)
  }

  ghost predicate Fails(t: Try, bs: seq<Addr>, a: nat) {
    exists e :: FailsWith(t, bs, a, e)
  }

  /** The pass was dispatched and answered. */
  ghost predicate AnswersWith(t: Try, bs: seq<Addr>, a: nat, r: Response) {
    a <= |bs| && Select(t, bs[..a]).Chosen? && t.outcome == Answer(r)
  }

  /**
   The passes from `k` on: `at[j]` dispatches were made before pass `k + j`. All passes but the last
   fail; with a response the last one gives it; without, all passes are made and the last one gives
   the error.
   */
  ghost predicate Trace(
      tries: nat -> Try, k: nat, maxRetries: int, before: nat, bs: seq<Addr>, at: seq<nat>,
      resp: Option<Response>, err: Option<Error>, lastErr: Option<Error>)
  {
    && |at| >= 1 && at[0] == before && at[|at| - 1] == |bs|
    && Passes(tries, k, bs, at)
    && (match resp
        case Some(r) =>
          && |at| >= 2 && k + |at| - 1 <= maxRetries && err.None?
          && AnswersWith(tries(k + |at| - 2), bs, at[|at| - 2], r)
        case None =>
          if |at| == 1 then k >= maxRetries && err == lastErr
          else
            && k + |at| - 1 == maxRetries && err.Some?
            && FailsWith(tries(maxRetries - 1), bs, at[|at| - 2], err.value))
  }

  lemma TraceDone(o: Opts, tries: nat -> Try, k: nat, maxRetries: int, lastErr: Option<Error>)
    requires k >= maxRetries
    ensures Trace(tries, k, maxRetries, |o.backends|, o.backends, [|o.backends|], None, lastErr, lastErr)
  {
  }

  lemma TraceAnswered(
      o: Opts, tries: nat -> Try, k: nat, maxRetries: int, node: Node, r: Response, lastErr: Option<Error>)
    requires k < maxRetries && Select(tries(k), o.backends) == Chosen(node) && tries(k).outcome == Answer(r)
    ensures
      var n := |o.backends|;
      Trace(tries, k, maxRetries, n, o.backends + [node.addr], [n, n + 1], Some(r), None, lastErr)
  {
    assert (o.backends + [node.addr])[..|o.backends|] == o.backends;
  }

  /** The passes come one after the other, and all but the last fail. */
  ghost predicate Passes(tries: nat -> Try, k: nat, bs: seq<Addr>, at: seq<nat>) {
    && (forall j :: 0 <= j < |at| - 1 ==> PassAt(tries(k + j), bs, at[j], at[j + 1]))
    && (forall j :: 0 <= j < |at| - 2 ==> Fails(tries(k + j), bs, at[j]))
  }

  lemma PassesOneMore(tries: nat -> Try, k: nat, before: nat, bs: seq<Addr>, at: seq<nat>)
    requires |at| >= 1 && PassAt(tries(k), bs, before, at[0]) && Fails(tries(k), bs, before)
    requires Passes(tries, k + 1, bs, at)
    ensures Passes(tries, k, bs, [before] + at)
  {
    var all := [before] + at;
    forall j | 0 <= j < |all| - 1 ensures PassAt(tries(k + j), bs, all[j], all[j + 1]) {
      if j > 0 { assert PassAt(tries(k + 1 + (j - 1)), bs, at[j - 1], at[j]); }
    }
    forall j | 0 <= j < |all| - 2 ensures Fails(tries(k + j), bs, all[j]) {
      if j > 0 { assert Fails(tries(k + 1 + (j - 1)), bs, at[j - 1]); }
    }
  }

  /** One more failing pass in front. */
  lemma TraceFailed(
      tries: nat -> Try, k: nat, maxRetries: int, before: nat, next: nat, bs: seq<Addr>, at: seq<nat>,
      resp: Option<Response>, err: Option<Error>, lastErr: Option<Error>, e: Error)
    requires k < maxRetries && PassAt(tries(k), bs, before, next) && FailsWith(tries(k), bs, before, e)
    requires Trace(tries, k + 1, maxRetries, next, bs, at, resp, err, Some(e))
    ensures Trace(tries, k, maxRetries, before, bs, [before] + at, resp, err, lastErr)
  {
    assert Fails(tries(k), bs, before);
    PassesOneMore(tries, k, before, bs, at);
  }

  lemma RefusedPass(t: Try, backends: seq<Addr>, bs: seq<Addr>, e: Error)
    requires |backends| <= |bs| && backends == bs[..|backends|] && Select(t, backends) == Refused(e)
    ensures PassAt(t, bs, |backends|, |backends|) && FailsWith(t, bs, |backends|, e)
  {
  }

  lemma UnansweredPass(t: Try, backends: seq<Addr>, bs: seq<Addr>, node: Node, e: Error)
    requires |backends| < |bs| && backends + [node.addr] == bs[..|backends| + 1]
    requires Select(t, backends) == Chosen(node) && t.outcome == NoAnswer(e)
    ensures PassAt(t, bs, |backends|, |backends| + 1) && FailsWith(t, bs, |backends|, e)
  {
    assert bs[..|backends|] == bs[..|backends| + 1][..|backends|] == backends;
    assert bs[|backends|] == bs[..|backends| + 1][|backends|];
  }

  /** A round trip that starts with these options has this trace. */
  ghost predicate Traced(
      o: Opts, t: TripResult, tries: nat -> Try, k: nat, maxRetries: int, lastErr: Option<Error>, at: seq<nat>)
  {
    Accounts(o, t) && Trace(tries, k, maxRetries, |o.backends|, t.opts.backends, at, t.resp, t.err, lastErr)
  }

  lemma RefusedFirst(
      o: Opts, t: TripResult, tries: nat -> Try, k: nat, maxRetries: int, lastErr: Option<Error>, at: seq<nat>,
      e: Error)
    requires k < maxRetries && Select(tries(k), o.backends) == Refused(e)
    requires Traced(o, t, tries, k + 1, maxRetries, Some(e), at)
    ensures Traced(o, t, tries, k, maxRetries, lastErr, [|o.backends|] + at)
  {
    var n := |o.backends|;
    RefusedPass(tries(k), o.backends, t.opts.backends, e);
    TraceFailed(tries, k, maxRetries, n, n, t.opts.backends, at, t.resp, t.err, lastErr, e);
  }

  lemma UnansweredFirst(
      o: Opts, f: Opts, t: TripResult, tries: nat -> Try, k: nat, maxRetries: int, lastErr: Option<Error>, at: seq<nat>,
      node: Node, e: Error)
    requires k < maxRetries && Select(tries(k), o.backends) == Chosen(node) && tries(k).outcome == NoAnswer(e)
    requires f.backends == o.backends + [node.addr] && Traced(f, t, tries, k + 1, maxRetries, Some(e), at)
    requires Accounts(o, t)
    ensures Traced(o, t, tries, k, maxRetries, lastErr, [|o.backends|] + at)
  {
    var n := |o.backends|;
    UnansweredPass(tries(k), o.backends, t.opts.backends, node, e);
    TraceFailed(tries, k, maxRetries, n, n + 1, t.opts.backends, at, t.resp, t.err, lastErr, e);
  }

  lemma {:induction false} TripTraceFrom(
      o: Opts, tries: nat -> Try, k: nat, maxRetries: int, lastErr: Option<Error>, lastDone: Option<nat>)
      returns (at: seq<nat>)
    ensures Traced(o, Trip(o, tries, k, maxRetries, lastErr, lastDone), tries, k, maxRetries, lastErr, at)
    decreases maxRetries - k
  {
    var n, t := |o.backends|, Trip(o, tries, k, maxRetries, lastErr, lastDone);
    TripAccounts(o, tries, k, maxRetries, lastErr, lastDone);
    if k >= maxRetries {
      TraceDone(o, tries, k, maxRetries, lastErr);
      return [n];
    }
    match Select(tries(k), o.backends)
    case Refused(e) =>
      at := TripTraceFrom(o, tries, k + 1, maxRetries, Some(e), lastDone);
      RefusedFirst(o, t, tries, k, maxRetries, lastErr, at, e);
      at := [n] + at;
    case Chosen(node) =>
      match tries(k).outcome {
        case Answer(r) =>
          TraceAnswered(o, tries, k, maxRetries, node, r, lastErr);
          at := [n, n + 1];
        case NoAnswer(e) =>
          var f := Failing(o, node.addr, tries(k).health.Some?);
          at := TripTraceFrom(f, tries, k + 1, maxRetries, Some(e), Some(n));
          UnansweredFirst(o, f, t, tries, k, maxRetries, lastErr, at, node, e);
          at := [n] + at;
      }
  }

  /**
   A round trip, pass by pass. Its response is the answer of its last pass, all earlier passes having
   been refused or unanswered; without response all passes were made, and its error is that of the
   last one: the refusal, or what the dispatch ended with. The dispatches are exactly the nodes picked.
   */
  lemma TripTrace(o: Opts, tries: nat -> Try, maxRetries: int) returns (at: seq<nat>)
    requires maxRetries >= 1
    ensures
      var t := Trip(o, tries, 0, maxRetries, None, None);
      && Trace(tries, 0, maxRetries, |o.backends|, t.opts.backends, at, t.resp, t.err, None)
      && |at| >= 2
  {
    at := TripTraceFrom(o, tries, 0, maxRetries, None, None);
  }

  /******* The statuses of one round trip *******/

  function Zeros(n: nat): seq<int> {
    seq(n, i => 0)
  }

  /** Zero for every dispatch without answer, one more when given up, and the status of the answer last. */
  ghost predicate StatusesAre(o: Opts, t: TripResult) {
    var n, m := |o.backends|, |t.opts.backends|;
    && n <= m - (if t.resp.Some? then 1 else 0)
    && t.opts.statuses ==
         o.statuses + if t.resp.Some? then Zeros(m - 1 - n) + [t.resp.value.status] else Zeros(m + 1 - n)
  }

  lemma ZeroFirst(xs: seq<int>, n: nat, ys: seq<int>)
    ensures (xs + [0]) + (Zeros(n) + ys) == xs + (Zeros(n + 1) + ys)
  {
    assert Zeros(n + 1) == [0] + Zeros(n);
  }

  lemma FailingStatuses(o: Opts, addr: Addr, t: TripResult, checked: bool)
    requires StatusesAre(Failing(o, addr, checked), t)
    ensures StatusesAre(o, t)
  {
    var n, m := |o.backends|, |t.opts.backends|;
    if t.resp.Some? {
      ZeroFirst(o.statuses, m - 2 - n, [t.resp.value.status]);
    } else {
      ZeroFirst(o.statuses, m - n, []);
      assert Zeros(m - n) + [] == Zeros(m - n) && Zeros(m + 1 - n) + [] == Zeros(m + 1 - n);
    }
  }

  lemma {:induction false} TripStatuses(
      o: Opts, tries: nat -> Try, k: nat, maxRetries: int, lastErr: Option<Error>, lastDone: Option<nat>)
    ensures StatusesAre(o, Trip(o, tries, k, maxRetries, lastErr, lastDone))
    decreases maxRetries - k
  {
    if k >= maxRetries {
      assert Zeros(1) == [0];
    } else {
      match Select(tries(k), o.backends)
      case Refused(e) => TripStatuses(o, tries, k + 1, maxRetries, Some(e), lastDone);
      case Chosen(node) =>
        match tries(k).outcome {
          case Answer(r) => assert Zeros(0) + [r.status] == [r.status];
          case NoAnswer(e) =>
            var f, n := Failing(o, node.addr, tries(k).health.Some?), |o.backends|;
            TripStatuses(f, tries, k + 1, maxRetries, Some(e), Some(n));
            FailingStatuses(o, node.addr, Trip(f, tries, k + 1, maxRetries, Some(e), Some(n)), tries(k).health.Some?);
        }
    }
  }

  /******* The turns of the retry loop *******/

  type TripEnd = (Option<Response>, Option<Error>)

  /** The round trip asks for another one: an error other than an authentication error, or an answer to be retried. */
  ghost predicate NeedsRetry(trip: TripEnd, c: Config) {
    if trip.1.Some? then trip.1 != Some(AuthError) else trip.0.Some? && Judge(c.conditions, trip.0.value)
  }

  /** Switch, breaker and context let the iteration make its round trip. */
  predicate LetIn(i: nat, round: Round) {
    Entered(i, round) && round.ctxErr.None?
  }

  /** What the script allows a round trip to end with. */
  ghost predicate EndsLike(way: Way, maxRetries: int, trip: TripEnd) {
    match way
    case Rejected(e) => trip == (None, Some(e))
    case Served(r) => trip == (Some(r), None)
    case Reached(tries) =>
      || (exists r, k: nat :: trip == (Some(r), None) && k < maxRetries && tries(k).outcome == Answer(r))
      || (maxRetries >= 1 && exists e :: trip == (None, Some(e)) && LastPassSays(tries(maxRetries - 1), e))
  }

  predicate LastPassSays(t: Try, e: Error) {
    t.outcome == NoAnswer(e) || t.pick == PickerError(e) || e == NoAvailable
  }

  lemma FailureSays(t: Try, bs: seq<Addr>, a: nat, e: Error)
    requires FailsWith(t, bs, a, e)
    ensures LastPassSays(t, e)
  {
    SelectPrefersUntried(t, bs[..a]);
  }

  lemma RoundTripEndsLike(o: Opts, way: Way, maxRetries: int)
    requires maxRetries >= 1
    ensures
      var t := RoundTrip(o, way, maxRetries);
      EndsLike(way, maxRetries, (t.resp, t.err))
  {
    if way.Reached? {
      var at := TripTrace(o, way.tries, maxRetries);
      var t := RoundTrip(o, way, maxRetries);
      if t.resp.Some? {
        assert way.tries(|at| - 2).outcome == Answer(t.resp.value);
      } else {
        FailureSays(way.tries(maxRetries - 1), t.opts.backends, at[|at| - 2], t.err.value);
      }
    }
  }

  /** How the round trip of an iteration ends. */
  lemma AttemptEnds(p: Progress, i: nat, way: Way, c: Config)
    requires c.maxRetries >= 1
    ensures
      var (q, control) := Attempt(p, i, way, c);
      && |q.trips| == |p.trips| + 1 && q.trips[..|p.trips|] == p.trips
      && q.trips[|p.trips|] == (q.resp, q.err)
      && EndsLike(way, c.maxRetries, (q.resp, q.err))
      && control == if NeedsRetry((q.resp, q.err), c) then Again else Stop
  {
    RoundTripEndsLike(p.opts, way, c.maxRetries);
  }

  /** How one iteration ends. */
  lemma IterateEnds(p: Progress, i: nat, round: Round, c: Config)
    requires c.maxRetries >= 1
    ensures
      var (q, control) := Iterate(p, i, round, c);
      if LetIn(i, round)
      then
        && |q.trips| == |p.trips| + 1 && q.trips[..|p.trips|] == p.trips
        && q.trips[|p.trips|] == (q.resp, q.err)
        && EndsLike(round.way, c.maxRetries, (q.resp, q.err))
        && control == if NeedsRetry((q.resp, q.err), c) then Again else Stop
      else
        && control == Stop && q.trips == p.trips && q.resp == p.resp
        && q.err == if Entered(i, round) then round.ctxErr else p.err
  {
    if LetIn(i, round) {
      AttemptEnds(if i + 1 >= AttemptsOf(c) then LastAttempt(p) else p, i, round.way, c);
    }
  }

  /** At the start of iteration `i`: `i` round trips, all to be retried, the last one in hand. */
  ghost predicate AtTurn(p: Progress, i: nat, c: Config) {
    && |p.trips| == i
    && (i > 0 ==> p.trips[i - 1] == (p.resp, p.err) && NeedsRetry(p.trips[i - 1], c))
  }

  /** What the loop does from turn `i` on. */
  ghost predicate Turns(p: Progress, q: Progress, i: nat, rounds: nat -> Round, c: Config) {
    var n := |q.trips|;
    && i <= n <= AttemptsOf(c) && q.trips[..i] == p.trips
    && (forall j: nat :: i <= j < n ==> LetIn(j, rounds(j)) && EndsLike(rounds(j).way, c.maxRetries, q.trips[j]))
    && (forall j: nat :: i <= j < n - 1 ==> NeedsRetry(q.trips[j], c))
    && (n < AttemptsOf(c) ==> !LetIn(n, rounds(n)) || (n > 0 && !NeedsRetry(q.trips[n - 1], c)))
  }

  /** What the loop holds in the end: the last round trip, or the context's error. */
  ghost predicate Holds(q: Progress, rounds: nat -> Round, c: Config) {
    var n := |q.trips|;
    if n < AttemptsOf(c) && (n > 0 ==> NeedsRetry(q.trips[n - 1], c)) && Entered(n, rounds(n))
    then q.err == rounds(n).ctxErr && q.err.Some?
    else n > 0 && (q.resp, q.err) == q.trips[n - 1]
  }

  lemma TurnStops(p: Progress, i: nat, rounds: nat -> Round, c: Config)
    requires AtTurn(p, i, c) && i < AttemptsOf(c) && c.maxRetries >= 1
    requires Iterate(p, i, rounds(i), c).1 == Stop
    ensures
      var q := Iterate(p, i, rounds(i), c).0;
      Turns(p, q, i, rounds, c) && Holds(q, rounds, c)
  {
    IterateEnds(p, i, rounds(i), c);
  }

  lemma TurnIsLast(p: Progress, i: nat, rounds: nat -> Round, c: Config)
    requires AtTurn(p, i, c) && i + 1 == AttemptsOf(c) && c.maxRetries >= 1
    requires Iterate(p, i, rounds(i), c).1 == Again
    ensures
      var q := Iterate(p, i, rounds(i), c).0;
      Turns(p, q, i, rounds, c) && Holds(q, rounds, c)
  {
    IterateEnds(p, i, rounds(i), c);
  }

  lemma TurnGoesOn(p: Progress, q: Progress, i: nat, rounds: nat -> Round, c: Config)
    requires AtTurn(p, i, c) && i + 1 < AttemptsOf(c) && c.maxRetries >= 1
    requires Iterate(p, i, rounds(i), c).1 == Again && Turns(Iterate(p, i, rounds(i), c).0, q, i + 1, rounds, c)
    ensures Turns(p, q, i, rounds, c)
  {
    IterateEnds(p, i, rounds(i), c);
    var r := Iterate(p, i, rounds(i), c).0;
    assert q.trips[i] == q.trips[..i + 1][i] == r.trips[i];
    assert q.trips[..i] == q.trips[..i + 1][..i];
  }

  lemma {:induction false} LoopTurns(p: Progress, i: nat, rounds: nat -> Round, c: Config)
    requires AtTurn(p, i, c) && i < AttemptsOf(c) && c.maxRetries >= 1
    ensures
      var (q, crashed) := Loop(p, i, rounds, c);
      !crashed && Turns(p, q, i, rounds, c) && Holds(q, rounds, c)
    decreases AttemptsOf(c) - i
  {
    IterateEnds(p, i, rounds(i), c);
    var (q, control) := Iterate(p, i, rounds(i), c);
    if control == Stop {
      TurnStops(p, i, rounds, c);
    } else if i + 1 == AttemptsOf(c) {
      TurnIsLast(p, i, rounds, c);
    } else {
      LoopTurns(q, i + 1, rounds, c);
      TurnGoesOn(p, Loop(q, i + 1, rounds, c).0, i, rounds, c);
    }
  }

  /**
   The retry loop, turn by turn, for every script. Each round trip ends as its surroundings say; every
   one but the last asked for a retry; and if there were fewer than the configured attempts, the last
   one asked for none, or switch, breaker or context stopped the next.
   */
  lemma RetriesExactlyWhileNeeded(rounds: nat -> Round, c: Config)
    requires c.maxRetries >= 1
    ensures
      var q := Loop(Start, 0, rounds, c).0;
      var n := |q.trips|;
      && n <= AttemptsOf(c)
      && (forall j: nat :: j < n ==> LetIn(j, rounds(j)) && EndsLike(rounds(j).way, c.maxRetries, q.trips[j]))
      && (forall j: nat :: j < n - 1 ==> NeedsRetry(q.trips[j], c))
      && (n < AttemptsOf(c) ==> !LetIn(n, rounds(n)) || (n > 0 && !NeedsRetry(q.trips[n - 1], c)))
  {
    LoopTurns(Start, 0, rounds, c);
  }

  /** When nothing stands in the way and every round trip asks for a retry, all attempts are made. */
  lemma AllAttemptsAreMade(rounds: nat -> Round, c: Config)
    requires c.maxRetries >= 1 && forall j: nat :: j < AttemptsOf(c) ==> LetIn(j, rounds(j))
    requires
      var trips := Loop(Start, 0, rounds, c).0.trips;
      forall j :: 0 <= j < |trips| ==> NeedsRetry(trips[j], c)
    ensures |Loop(Start, 0, rounds, c).0.trips| == AttemptsOf(c)
  {
    LoopTurns(Start, 0, rounds, c);
  }

  /**
   The reply, exactly: the context's error if the context was done when another round trip was due and
   switch and breaker let it in; otherwise what the last round trip ended with.
   */
  lemma ReplyIsExact(rounds: nat -> Round, c: Config)
    requires c.maxRetries >= 1
    ensures
      var (q, crashed) := Loop(Start, 0, rounds, c);
      var n, reply := |q.trips|, Finish(q, crashed);
      if n < AttemptsOf(c) && (n > 0 ==> NeedsRetry(q.trips[n - 1], c)) && Entered(n, rounds(n))
      then rounds(n).ctxErr.Some? && reply == WriteError(rounds(n).ctxErr.value)
      else
        n > 0 &&
        match q.trips[n - 1]
        case (_, Some(e)) => reply == WriteError(e)
        case (Some(r), None) => reply == WriteResponse(r)
        case (None, None) => false
  {
    LoopTurns(Start, 0, rounds, c);
    var q := Loop(Start, 0, rounds, c).0;
    var n := |q.trips|;
    if n > 0 { assert EndsLike(rounds(n - 1).way, c.maxRetries, q.trips[n - 1]); }
  }
}
