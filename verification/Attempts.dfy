/** The attempt machine in its own form: an in-place filter and two loops over shared request options. */
module Attempts {
  import opened Wrappers
  import HealthModel
  import opened AttemptModel

  /** The nodes filtered by the health checker, collected in a new list. */
  method CollectHealthy(nodes: seq<Node>, h: HealthModel.Health) returns (healthy: seq<Node>)
    ensures healthy == Healthy(nodes, h)
  {
    healthy := [];
    for i := 0 to |nodes|
      invariant healthy == Healthy(nodes[..i], h)
    {
      assert nodes[..i + 1][..i] == nodes[..i];
      if HealthModel.IsHealthy(h, nodes[i].addr) { healthy := healthy + [nodes[i]]; }
    }
    assert nodes[..|nodes|] == nodes;
  }

  method SelectedSet(backends: seq<Addr>) returns (selected: set<Addr>)
    ensures forall b :: b in selected <==> b in backends
  {
    selected := {};
    for i := 0 to |backends|
      invariant forall b :: b in selected <==> b in backends[..i]
    {
      assert backends[..i + 1] == backends[..i] + [backends[i]];
      selected := selected + {backends[i]};
    }
    assert backends[..|backends|] == backends;
  }

  /** Moves the untried nodes to the front of the array; what lies behind them is left as it was. */
  method Compact(nodes: array<Node>, selected: set<Addr>, ghost backends: seq<Addr>) returns (n: nat)
    requires forall b :: b in selected <==> b in backends
    modifies nodes
    ensures n <= nodes.Length
    ensures nodes[..n] == Untried(old(nodes[..]), backends)
    ensures nodes[n..] == old(nodes[n..])
  {
    ghost var was := nodes[..];
    n := 0;
    for i := 0 to nodes.Length
      invariant n <= i
      invariant nodes[..n] == Untried(was[..i], backends)
      invariant forall k :: n <= k < nodes.Length ==> nodes[k] == was[k]
    {
      assert was[..i + 1][..i] == was[..i];
      if nodes[i].addr !in selected {
        nodes[n] := nodes[i];
        n := n + 1;
      }
    }
    assert was[..nodes.Length] == was;
  }

  /**
   The retry filter on the selector's own slice: the result is the first `n` elements. When no node
   is left the slice comes back whole and untouched.
   */
  method FilterUntried(nodes: array<Node>, backends: seq<Addr>) returns (n: nat)
    modifies nodes
    ensures n <= nodes.Length
    ensures nodes[..n] == PreferUntried(old(nodes[..]), backends)
    ensures nodes[n..] == old(nodes[n..])
    ensures backends == [] || Untried(old(nodes[..]), backends) == [] ==>
              n == nodes.Length && nodes[..] == old(nodes[..])
  {
    assert nodes[..nodes.Length] == nodes[..];
    if |backends| == 0 { return nodes.Length; }
    var selected := SelectedSet(backends);
    n := Compact(nodes, selected, backends);
    if n == 0 {
      assert nodes[0..] == nodes[..] && old(nodes[0..]) == old(nodes[..]);
      n := nodes.Length;
    }
  }

  class RequestOptions {
    var backends: seq<Addr>
    var upstreamStatusCode: seq<int>
    var doneCalls: seq<nat>
    var doneFunc: Option<nat>
    var markedUnhealthy: seq<Addr>
    var lastAttempt: bool

    function Contents(): Opts
      reads this
    {
      Opts(backends, upstreamStatusCode, doneCalls, doneFunc, markedUnhealthy, lastAttempt)
    }

    constructor ()
      ensures Contents() == Fresh
    {
      backends, upstreamStatusCode, doneCalls := [], [], [];
      doneFunc, markedUnhealthy, lastAttempt := None, [], false;
    }
  }

  class Client {
    const maxRetries: int

    constructor (maxRetries: int)
      ensures this.maxRetries == maxRetries
    {
      this.maxRetries := maxRetries;
    }

    /** Builds the filters and lets the selector pick from what they leave. */
    method SelectNode(t: Try, backends: seq<Addr>) returns (r: Selected)
      ensures r == Select(t, backends)
    {
      var offered := t.nodes;
      if t.health.Some? { offered := CollectHealthy(t.nodes, t.health.value); }
      var nodes := new Node[|offered|](i requires 0 <= i < |offered| => offered[i]);
      assert nodes[..] == offered;
      var n := FilterUntried(nodes, backends);
      ghost var candidates := nodes[..n];
      if n == 0 { return Refused(NoAvailable); }
      if t.pick.PickerError? { return Refused(t.pick.err); }
      assert nodes[t.pick.index % n] == candidates[t.pick.index % n];
      return Chosen(nodes[t.pick.index % n]);
    }

    method RoundTrip(opts: RequestOptions, tries: nat -> Try) returns (resp: Option<Response>, err: Option<Error>)
      modifies opts
      ensures TripResult(opts.Contents(), resp, err) == Trip(old(opts.Contents()), tries, 0, maxRetries, None, None)
    {
      var lastErr: Option<Error>, lastDone: Option<nat> := None, None;
      ghost var whole := Trip(opts.Contents(), tries, 0, maxRetries, None, None);
      var k := 0;
      while k < maxRetries
        invariant 0 <= k
        invariant Trip(opts.Contents(), tries, k, maxRetries, lastErr, lastDone) == whole
        decreases maxRetries - k
      {
        var t := tries(k);
        var selected := SelectNode(t, opts.backends);
        k := k + 1;
        if selected.Refused? {
          lastErr := Some(selected.err);
          continue;
        }
        var dispatch := |opts.backends|;
        lastDone := Some(dispatch);
        opts.backends := opts.backends + [selected.node.addr];
        if t.outcome.NoAnswer? {
          lastErr := Some(t.outcome.err);
          opts.doneCalls := opts.doneCalls + [dispatch];
          opts.upstreamStatusCode := opts.upstreamStatusCode + [0];
          if t.health.Some? { opts.markedUnhealthy := opts.markedUnhealthy + [selected.node.addr]; }
          continue;
        }
        opts.upstreamStatusCode := opts.upstreamStatusCode + [t.outcome.resp.status];
        opts.doneFunc := Some(dispatch);
        return Some(t.outcome.resp), None;
      }
      if lastDone.Some? { opts.doneCalls := opts.doneCalls + [lastDone.value]; }
      opts.upstreamStatusCode := opts.upstreamStatusCode + [0];
      return None, lastErr;
    }
  }

  class RetryBreaker {
    var marks: seq<Mark>

    constructor ()
      ensures marks == []
    {
      marks := [];
    }

    /** markSuccess and markFailed; `before` are the marks of earlier requests. */
    method MarkIfRetry(i: nat, success: bool, ghost p: Progress, ghost before: seq<Mark>)
      requires marks == before + p.marks
      modifies this
      ensures marks == before + Marked(p, i, success).marks
    {
      if i > 0 { marks := marks + [Mark(i, success)]; }
    }
  }

  method JudgeConditions(conditions: seq<Response -> bool>, resp: Response) returns (required: bool)
    ensures required == Judge(conditions, resp)
  {
    var i := 0;
    assert conditions[0..] == conditions;
    while i < |conditions|
      invariant 0 <= i <= |conditions|
      invariant Judge(conditions, resp) == Judge(conditions[i..], resp)
    {
      if conditions[i](resp) { return true; }
      i := i + 1;
    }
    return false;
  }

  /** The handler of one endpoint. */
  class Endpoint {
    const retry: Option<nat>
    const client: Client
    const conditions: seq<Response -> bool>
    const breaker: RetryBreaker

    constructor (retry: Option<nat>, client: Client, conditions: seq<Response -> bool>)
      ensures this.retry == retry && this.client == client && this.conditions == conditions
      ensures fresh(breaker) && breaker.marks == []
    {
      this.retry, this.client, this.conditions := retry, client, conditions;
      breaker := new RetryBreaker();
    }

    /** prepareRetryStrategy, as far as the loop uses it. */
    function Settings(): Config {
      Config(retry, client.maxRetries, conditions)
    }

    /** The middleware chain around the client. */
    method Send(opts: RequestOptions, way: Way) returns (resp: Option<Response>, err: Option<Error>)
      modifies opts
      ensures TripResult(opts.Contents(), resp, err) == RoundTrip(old(opts.Contents()), way, client.maxRetries)
    {
      match way
      case Rejected(e) => return None, Some(e);
      case Served(r) => return Some(r), None;
      case Reached(tries) => resp, err := client.RoundTrip(opts, tries);
    }

    /** The retry loop of one request, up to the reply. */
    method Serve(rounds: nat -> Round) returns (opts: RequestOptions, reply: Reply)
      modifies breaker
      ensures fresh(opts)
      ensures
        var (q, crashed) := Loop(Start, 0, rounds, Settings());
        && opts.Contents() == q.opts
        && reply == Finish(q, crashed)
        && breaker.marks == old(breaker.marks) + q.marks
    {
      opts := new RequestOptions();
      var resp: Option<Response>, err: Option<Error> := None, None;
      ghost var p := Start;
      ghost var whole := Loop(Start, 0, rounds, Settings());
      var i, attempts := 0, AttemptsOf(Settings());
      while i < attempts
        invariant 0 <= i && fresh(opts)
        invariant p.opts == opts.Contents() && p.resp == resp && p.err == err
        invariant breaker.marks == old(breaker.marks) + p.marks
        invariant Loop(p, i, rounds, Settings()) == whole
        decreases attempts - i
      {
        var round := rounds(i);
        var control;
        ghost var next := Iterate(p, i, round, Settings());
        resp, err, control := Pass(opts, i, round, resp, err, p, old(breaker.marks));
        p := next.0;
        if control == Crash { return opts, Panic; }
        if control == Stop { break; }
        i := i + 1;
      }
      assert whole == (p, false);
      if err.Some? { return opts, WriteError(err.value); }
      if resp.None? { return opts, Panic; }
      return opts, WriteResponse(resp.value);
    }

    /** The body of the retry loop. */
    method Pass(
        opts: RequestOptions, i: nat, round: Round, resp0: Option<Response>, err0: Option<Error>,
        ghost p: Progress, ghost before: seq<Mark>)
      returns (resp: Option<Response>, err: Option<Error>, control: Control)
      requires p.opts == opts.Contents() && p.resp == resp0 && p.err == err0
      requires breaker.marks == before + p.marks
      modifies opts, breaker
      ensures
        var (q, k) := Iterate(p, i, round, Settings());
        && opts.Contents() == q.opts && resp == q.resp && err == q.err && control == k
        && breaker.marks == before + q.marks
    {
      resp, err := resp0, err0;
      if i > 0 {
        if !round.switchedOn { return resp, err, Stop; }
        if !round.breakerAllows {
          breaker.MarkIfRetry(i, false, p, before);
          return resp, err, Stop;
        }
      }
      ghost var q := if i + 1 >= AttemptsOf(Settings()) then LastAttempt(p) else p;
      if i + 1 >= AttemptsOf(Settings()) { opts.lastAttempt := true; }
      err := round.ctxErr;
      if err.Some? {
        breaker.MarkIfRetry(i, false, q, before);
        return resp, err, Stop;
      }
      resp, err, control := TryOnce(opts, i, round.way, q, before);
    }

    /** One round trip and the decision that follows it. */
    method TryOnce(opts: RequestOptions, i: nat, way: Way, ghost p: Progress, ghost before: seq<Mark>)
      returns (resp: Option<Response>, err: Option<Error>, control: Control)
      requires p.opts == opts.Contents()
      requires breaker.marks == before + p.marks
      modifies opts, breaker
      ensures
        var (q, k) := Attempt(p, i, way, Settings());
        && opts.Contents() == q.opts && resp == q.resp && err == q.err && control == k
        && breaker.marks == before + q.marks
    {
      resp, err := Send(opts, way);
      if err.Some? {
        if err == Some(AuthError) { return resp, err, Stop; }
        breaker.MarkIfRetry(i, false, p, before);
        return resp, err, Again;
      }
      if resp.None? && |conditions| > 0 { return resp, err, Crash; }
      var required := false;
      if resp.Some? { required := JudgeConditions(conditions, resp.value); }
      breaker.MarkIfRetry(i, !required, p, before);
      if !required {
        opts.lastAttempt := true;
        return resp, err, Stop;
      }
      return resp, err, Again;
    }
  }
}
