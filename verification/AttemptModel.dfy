/**
 One request on its way upstream: node selection (client/client.go and middleware/request.go), the
 dispatch loop inside a round trip (client/client.go) and the retry loop around it (proxy/proxy.go).
 What the surroundings decide at each point (the node list, the health maps, the selector's pick, the
 upstream's answer, the breaker, the context) is given by a script, so a statement over all scripts
 is a statement over all surroundings.
 */
module AttemptModel {
  import opened Wrappers
  import HealthModel

  type Addr = HealthModel.Addr
  type Node = HealthModel.Node

  /** AuthError is jwt.NotAuthN or ErrPermissionDenied; all other errors are alike to the loops. */
  datatype Error = AuthError | NoAvailable | OtherError(code: int)

  datatype Response = Response(status: int, tag: nat)

  /******* Selection *******/

  /** `Choice(i)` picks candidate `i` modulo the number of candidates, so it ranges over every pick. */
  datatype Pick = Choice(index: nat) | PickerError(err: Error)

  datatype Outcome = Answer(resp: Response) | NoAnswer(err: Error)

  /** What one pass of the dispatch loop meets; `health` is None for a client without health checker. */
  datatype Try = Try(nodes: seq<Node>, health: Option<HealthModel.Health>, pick: Pick, outcome: Outcome)

  function Healthy(nodes: seq<Node>, h: HealthModel.Health): seq<Node> {
    if nodes == [] then []
    else
      var last := nodes[|nodes| - 1];
      Healthy(nodes[..|nodes| - 1], h) + if HealthModel.IsHealthy(h, last.addr) then [last] else []
  }

  /** The nodes whose address was not dispatched to before, in their order. */
  function Untried(nodes: seq<Node>, backends: seq<Addr>): seq<Node> {
    if nodes == [] then []
    else
      var last := nodes[|nodes| - 1];
      Untried(nodes[..|nodes| - 1], backends) + if last.addr in backends then [] else [last]
  }

  /** The retry filter: prefers untried nodes, and gives up on that when all were tried. */
  function PreferUntried(nodes: seq<Node>, backends: seq<Addr>): seq<Node> {
    if backends == [] || Untried(nodes, backends) == [] then nodes else Untried(nodes, backends)
  }

  function Candidates(t: Try, backends: seq<Addr>): seq<Node> {
    PreferUntried(if t.health.Some? then Healthy(t.nodes, t.health.value) else t.nodes, backends)
  }

  datatype Selected = Chosen(node: Node) | Refused(err: Error)

  function Select(t: Try, backends: seq<Addr>): Selected {
    var nodes := Candidates(t, backends);
    if nodes == [] then Refused(NoAvailable)
    else if t.pick.PickerError? then Refused(t.pick.err)
    else Chosen(nodes[t.pick.index % |nodes|])
  }

  /******* The round trip of the client *******/

  /**
   The request options that all attempts share. A dispatch is known by its place in `backends`:
   `reported` are the dispatches whose done function was called, in call order, `pending` the one
   whose done function is DoneFunc; `marked` are the addresses passed to MarkUnhealthy.
   */
  datatype Opts = Opts(
    backends: seq<Addr>,
    statuses: seq<int>,
    reported: seq<nat>,
    pending: Option<nat>,
    marked: seq<Addr>,
    lastAttempt: bool)

  const Fresh := Opts([], [], [], None, [], false)

  datatype TripResult = TripResult(opts: Opts, resp: Option<Response>, err: Option<Error>)

  function Failing(o: Opts, addr: Addr, checked: bool): Opts {
    o.(
      backends := o.backends + [addr],
      statuses := o.statuses + [0],
      reported := o.reported + [|o.backends|],
      marked := if checked then o.marked + [addr] else o.marked)
  }

  function Answered(o: Opts, addr: Addr, status: int): Opts {
    o.(
      backends := o.backends + [addr],
      statuses := o.statuses + [status],
      pending := Some(|o.backends|))
  }

  function GivenUp(o: Opts, lastDone: Option<nat>): Opts {
    o.(
      statuses := o.statuses + [0],
      reported := if lastDone.Some? then o.reported + [lastDone.value] else o.reported)
  }

  /** The dispatch loop from pass `k` on. */
  function Trip(
      o: Opts, tries: nat -> Try, k: nat, maxRetries: int, lastErr: Option<Error>, lastDone: Option<nat>): TripResult
    decreases maxRetries - k
  {
    if k >= maxRetries then TripResult(GivenUp(o, lastDone), None, lastErr)
    else
      match Select(tries(k), o.backends)
      case Refused(e) => Trip(o, tries, k + 1, maxRetries, Some(e), lastDone)
      case Chosen(node) =>
        match tries(k).outcome
        case Answer(r) => TripResult(Answered(o, node.addr, r.status), Some(r), None)
        case NoAnswer(e) =>
          Trip(Failing(o, node.addr, tries(k).health.Some?), tries, k + 1, maxRetries, Some(e), Some(|o.backends|))
  }

  /******* The retry loop *******/

  /** A round trip reaches the client or ends in a middleware in front of it. */
  datatype Way = Reached(tries: nat -> Try) | Rejected(err: Error) | Served(resp: Response)

  /** What one iteration of the retry loop meets. */
  datatype Round = Round(switchedOn: bool, breakerAllows: bool, ctxErr: Option<Error>, way: Way)

  /** calcAttempts: a missing or zero setting means one attempt. */
  function CalcAttempts(retry: Option<nat>): (n: int)
    ensures n >= 1
    ensures retry.Some? && retry.value > 0 ==> n == retry.value
    ensures retry.None? || retry.value == 0 ==> n == 1
  {
    if retry.None? || retry.value == 0 then 1 else retry.value
  }

  /** `retry` is the endpoint's retry setting, from which the strategy computes its attempts. */
  datatype Config = Config(retry: Option<nat>, maxRetries: int, conditions: seq<Response -> bool>)

  function AttemptsOf(c: Config): int {
    CalcAttempts(c.retry)
  }

  function Judge(conditions: seq<Response -> bool>, r: Response): bool {
    conditions != [] && (conditions[0](r) || Judge(conditions[1..], r))
  }

  datatype Mark = Mark(i: nat, success: bool)

  /** `marks` are the calls on the retry breaker, `trips` the results of all round trips. */
  datatype Progress = Progress(
    opts: Opts,
    resp: Option<Response>,
    err: Option<Error>,
    marks: seq<Mark>,
    trips: seq<(Option<Response>, Option<Error>)>)

  const Start := Progress(Fresh, None, None, [], [])

  datatype Control = Again | Stop | Crash

  function RoundTrip(o: Opts, way: Way, maxRetries: int): TripResult {
    match way
    case Reached(tries) => Trip(o, tries, 0, maxRetries, None, None)
    case Rejected(e) => TripResult(o, None, Some(e))
    case Served(r) => TripResult(o, Some(r), None)
  }

  function Marked(p: Progress, i: nat, success: bool): Progress {
    if i > 0 then p.(marks := p.marks + [Mark(i, success)]) else p
  }

  function LastAttempt(p: Progress): Progress {
    p.(opts := p.opts.(lastAttempt := true))
  }

  /** The round trip of iteration `i` and what follows from its result. */
  function Attempt(p: Progress, i: nat, way: Way, c: Config): (Progress, Control) {
    var t := RoundTrip(p.opts, way, c.maxRetries);
    var q := p.(opts := t.opts, resp := t.resp, err := t.err, trips := p.trips + [(t.resp, t.err)]);
    if t.err == Some(AuthError) then (q, Stop)
    else if t.err.Some? then (Marked(q, i, false), Again)
    else if t.resp.None? && c.conditions != [] then (q, Crash)
    else if t.resp.None? || !Judge(c.conditions, t.resp.value) then (Marked(LastAttempt(q), i, true), Stop)
    else (Marked(q, i, false), Again)
  }

  function Iterate(p: Progress, i: nat, round: Round, c: Config): (Progress, Control) {
    if i > 0 && !round.switchedOn then (p, Stop)
    else if i > 0 && !round.breakerAllows then (Marked(p, i, false), Stop)
    else
      var q := if i + 1 >= AttemptsOf(c) then LastAttempt(p) else p;
      if round.ctxErr.Some? then (Marked(q.(err := round.ctxErr), i, false), Stop)
      else Attempt(q, i, round.way, c)
  }

  /** The retry loop from iteration `i` on; the flag says that it crashed on a missing response. */
  function Loop(p: Progress, i: nat, rounds: nat -> Round, c: Config): (Progress, bool)
    decreases AttemptsOf(c) - i
  {
    if i >= AttemptsOf(c) then (p, false)
    else
      var (q, control) := Iterate(p, i, rounds(i), c);
      match control
      case Again => Loop(q, i + 1, rounds, c)
      case Stop => (q, false)
      case Crash => (q, true)
  }

  datatype Reply = WriteError(err: Error) | WriteResponse(resp: Response) | Panic

  function Finish(p: Progress, crashed: bool): Reply {
    if crashed then Panic
    else if p.err.Some? then WriteError(p.err.value)
    else if p.resp.Some? then WriteResponse(p.resp.value)
    else Panic
  }
}
