/** Reload is all or nothing, and the snapshot is always a known-good one. */
module ReloadProofs {
  import opened Wrappers
  import opened Environment
  import opened ReloadModel
  import RouterLifecycle
  import PriorityMerge

  /******* One call *******/

  /** The bytes decode, and every environment entry in them can be set. */
  predicate Acceptable(codec: Codec, call: Call) {
    codec.parse(call.data).Some? && AllSettable(codec.parse(call.data).value.envs)
  }

  /** The configuration in the call's bytes, with the endpoints of the priority directory merged in. */
  function Served(codec: Codec, call: Call): Config
    requires codec.parse(call.data).Some?
  {
    var main := codec.parse(call.data).value;
    Config(main.envs, PriorityMerge.Merge(main.endpoints, PriorityMerge.Items(call.dir)))
  }

  /** The handlers are reached exactly by acceptable calls, and are given the merged configuration. */
  lemma ReachesIff(codec: Codec, call: Call)
    ensures Reaches(codec, call) <==> Acceptable(codec, call)
    ensures codec.parse(call.data).Some? ==> Decode(codec, call.data, call.dir) == Some(Served(codec, call))
  {
  }

  /** With replacements before new endpoints, what is served is the intended merge. */
  lemma ServedIsIntended(codec: Codec, call: Call)
    requires codec.parse(call.data).Some?
    requires PriorityMerge.ReplacementsFirst(codec.parse(call.data).value.endpoints, PriorityMerge.Items(call.dir))
    ensures Served(codec, call).endpoints ==
              PriorityMerge.Intended(codec.parse(call.data).value.endpoints, PriorityMerge.Items(call.dir))
  {
    PriorityMerge.MergeIsIntended(codec.parse(call.data).value.endpoints, PriorityMerge.Items(call.dir));
  }

  /** Every part of the state follows the call. */
  ghost predicate Moved(w: World, v: World, codec: Codec, call: Call) {
    && codec.parse(call.data).Some?
    && v.env == w.env + codec.parse(call.data).value.envs
    && v.data == call.data && v.hash == codec.sha256(call.data) && v.priorityHash == call.priorityHash
    && |v.handlers| == |w.handlers|
    && forall i :: 0 <= i < |v.handlers| ==>
         v.handlers[i] == Applied(Some(Served(codec, call)), w.handlers[i].times + 1)
  }

  ghost predicate AllOrNothing(w: World, v: World, codec: Codec, call: Call) {
    v == w || Moved(w, v, codec, call)
  }

  /**
   A call is all or nothing exactly when it is not acceptable, or the handlers agree: all accept or
   none does. With the one reloader that the gateway registers they always agree.
   */
  lemma AllOrNothingIff(w: World, codec: Codec, call: Call)
    requires |call.accepts| == |w.handlers|
    ensures AllOrNothing(w, Execute(w, codec, call), codec, call) <==>
            !Acceptable(codec, call) || AllAccept(call.accepts) || NoneAccepts(call.accepts)
  {
    ReachesIff(codec, call);
    var v := Execute(w, codec, call);
    if Acceptable(codec, call) && !AllAccept(call.accepts) {
      if NoneAccepts(call.accepts) {
        assert v.handlers == w.handlers;
      } else {
        var i :| 0 <= i < |call.accepts| && call.accepts[i];
        assert v.handlers[i].times == w.handlers[i].times + 1;
        var j :| 0 <= j < |call.accepts| && !call.accepts[j];
        assert v.handlers[j].times == w.handlers[j].times;
      }
    }
  }

  /******* Runs *******/

  /** Every state of a run has a snapshot that decodes, so Load cannot fail, and a hash that matches it. */
  lemma {:induction false} RunStaysConsistent(ws: seq<World>, codec: Codec, calls: seq<Call>, n: nat, dir: Directory)
    requires Run(ws, codec, calls) && n < |ws| && Consistent(ws[0], codec)
    ensures Consistent(ws[n], codec) && Decode(codec, ws[n].data, dir).Some?
    ensures |ws[n].handlers| == |ws[0].handlers|
  {
    if n > 0 {
      RunStaysConsistent(ws, codec, calls, n - 1, dir);
      assert ws[n] == Execute(ws[n - 1], codec, calls[n - 1]);
    }
  }

  /** The call went through. */
  predicate Succeeds(codec: Codec, call: Call) {
    Acceptable(codec, call) && AllAccept(call.accepts)
  }

  /** The environment after the successful ones of the first `n` calls. */
  function EnvAfter(env: Env, codec: Codec, calls: seq<Call>): Env {
    if calls == [] then env
    else
      var call := calls[|calls| - 1];
      var before := EnvAfter(env, codec, calls[..|calls| - 1]);
      if Succeeds(codec, call) then before + codec.parse(call.data).value.envs else before
  }

  /** The last call that went through, if any. */
  function LastSuccess(codec: Codec, calls: seq<Call>): (k: Option<nat>)
    ensures k.Some? ==> k.value < |calls|
  {
    if calls == [] then None
    else if Succeeds(codec, calls[|calls| - 1]) then Some(|calls| - 1)
    else LastSuccess(codec, calls[..|calls| - 1])
  }

  /** Handler `i` was given the call's configuration and took it. */
  predicate Accepts(codec: Codec, call: Call, i: nat) {
    Acceptable(codec, call) && i < |call.accepts| && call.accepts[i]
  }

  function LastAccepted(codec: Codec, calls: seq<Call>, i: nat): (k: Option<nat>)
    ensures k.Some? ==> k.value < |calls|
  {
    if calls == [] then None
    else if Accepts(codec, calls[|calls| - 1], i) then Some(|calls| - 1)
    else LastAccepted(codec, calls[..|calls| - 1], i)
  }

  /** One call, part by part. */
  lemma ExecuteParts(w: World, codec: Codec, call: Call)
    requires |call.accepts| == |w.handlers|
    ensures
      var v := Execute(w, codec, call);
      && (if Succeeds(codec, call)
          then
            && v.env == w.env + codec.parse(call.data).value.envs
            && v.data == call.data && v.hash == codec.sha256(call.data) && v.priorityHash == call.priorityHash
          else v.env == w.env && v.data == w.data && v.hash == w.hash && v.priorityHash == w.priorityHash)
      && |v.handlers| == |w.handlers|
      && forall i: nat :: i < |v.handlers| ==>
           v.handlers[i] ==
             if Accepts(codec, call, i) then Applied(Some(Served(codec, call)), w.handlers[i].times + 1)
             else w.handlers[i]
  {
    ReachesIff(codec, call);
  }

  ghost predicate SnapshotIs(w0: World, w: World, codec: Codec, calls: seq<Call>) {
    && w.env == EnvAfter(w0.env, codec, calls)
    && match LastSuccess(codec, calls)
       case None => w.data == w0.data && w.hash == w0.hash && w.priorityHash == w0.priorityHash
       case Some(k) =>
         && w.data == calls[k].data && w.hash == codec.sha256(calls[k].data)
         && w.priorityHash == calls[k].priorityHash
  }

  ghost predicate HandlerIs(w0: World, w: World, codec: Codec, calls: seq<Call>, i: nat)
    requires i < |w.handlers| == |w0.handlers|
  {
    match LastAccepted(codec, calls, i)
    case None => w.handlers[i].config == w0.handlers[i].config
    case Some(k) => codec.parse(calls[k].data).Some? && w.handlers[i].config == Some(Served(codec, calls[k]))
  }

  /** What the run left in every part of the state. */
  ghost predicate PartsAre(w0: World, w: World, codec: Codec, calls: seq<Call>) {
    && |w.handlers| == |w0.handlers|
    && SnapshotIs(w0, w, codec, calls)
    && forall i: nat :: i < |w.handlers| ==> HandlerIs(w0, w, codec, calls, i)
  }

  lemma ExecuteKeepsHandler(w0: World, w: World, codec: Codec, calls: seq<Call>, i: nat)
    requires calls != [] && i < |w.handlers| == |w0.handlers| == |calls[|calls| - 1].accepts|
    requires HandlerIs(w0, w, codec, calls[..|calls| - 1], i)
    ensures |Execute(w, codec, calls[|calls| - 1]).handlers| == |w0.handlers|
    ensures HandlerIs(w0, Execute(w, codec, calls[|calls| - 1]), codec, calls, i)
  {
    ExecuteParts(w, codec, calls[|calls| - 1]);
  }

  lemma ExecuteKeepsParts(w0: World, w: World, codec: Codec, calls: seq<Call>)
    requires calls != [] && PartsAre(w0, w, codec, calls[..|calls| - 1])
    requires |calls[|calls| - 1].accepts| == |w.handlers|
    ensures PartsAre(w0, Execute(w, codec, calls[|calls| - 1]), codec, calls)
  {
    var v := Execute(w, codec, calls[|calls| - 1]);
    ExecuteParts(w, codec, calls[|calls| - 1]);
    forall i: nat | i < |v.handlers| ensures HandlerIs(w0, v, codec, calls, i) {
      ExecuteKeepsHandler(w0, w, codec, calls, i);
    }
  }

  /**
   With any number of handlers, and whether they agree or not: snapshot, hash and priority hashes are
   those of the last call that all accepted, the environment is the overlay of all such calls, and each
   handler runs the configuration of the last call that it accepted itself.
   */
  lemma {:induction false} EachPartIsLastGood(ws: seq<World>, codec: Codec, calls: seq<Call>, n: nat)
    requires Run(ws, codec, calls) && n < |ws|
    ensures PartsAre(ws[0], ws[n], codec, calls[..n])
  {
    if n > 0 {
      EachPartIsLastGood(ws, codec, calls, n - 1);
      assert calls[..n][..n - 1] == calls[..n - 1];
      ExecuteKeepsParts(ws[0], ws[n - 1], codec, calls[..n]);
    }
  }

  /** What the last successful call, or the start, left. */
  ghost predicate LastGood(w0: World, w: World, codec: Codec, calls: seq<Call>) {
    if calls == [] then w.data == w0.data && w.priorityHash == w0.priorityHash && w.handlers == w0.handlers
    else
      var call := calls[|calls| - 1];
      if Succeeds(codec, call)
      then
        && w.data == call.data && w.priorityHash == call.priorityHash
        && |w.handlers| == |w0.handlers|
        && forall i :: 0 <= i < |w.handlers| ==> w.handlers[i].config == Some(Served(codec, call))
      else LastGood(w0, w, codec, calls[..|calls| - 1])
  }

  lemma {:induction false} LastGoodDepends(w0: World, w: World, v: World, codec: Codec, calls: seq<Call>)
    requires LastGood(w0, w, codec, calls)
    requires v.data == w.data && v.priorityHash == w.priorityHash && v.handlers == w.handlers
    ensures LastGood(w0, v, codec, calls)
  {
    if calls != [] && !Succeeds(codec, calls[|calls| - 1]) {
      LastGoodDepends(w0, w, v, codec, calls[..|calls| - 1]);
    }
  }

  /**
   With the gateway's single reloader: after any sequence of calls the snapshot, the priority hashes
   and the configuration that the reloader serves are those of the last successful call, and the
   environment is the starting one overlaid with the entries of all successful calls in order.
   */
  lemma {:induction false} LastKnownGood(ws: seq<World>, codec: Codec, calls: seq<Call>, n: nat)
    requires Run(ws, codec, calls) && n < |ws| && |ws[0].handlers| == 1
    ensures |ws[n].handlers| == 1
    ensures LastGood(ws[0], ws[n], codec, calls[..n])
    ensures ws[n].env == EnvAfter(ws[0].env, codec, calls[..n])
  {
    if n > 0 {
      var w, call := ws[n - 1], calls[n - 1];
      LastKnownGood(ws, codec, calls, n - 1);
      assert calls[..n][..n - 1] == calls[..n - 1];
      assert ws[n] == Execute(w, codec, call);
      AllOrNothingIff(w, codec, call);
      ReachesIff(codec, call);
      if !Succeeds(codec, call) {
        assert call.accepts == [call.accepts[0]];
        if !NoneAccepts(call.accepts) { assert AllAccept(call.accepts); }
        assert ws[n].handlers == w.handlers;
        LastGoodDepends(ws[0], w, ws[n], codec, calls[..n - 1]);
      }
    }
  }

  /******* The reloader is Proxy.Update *******/

  /** A call whose handler is the proxy: it accepts exactly when Update does not fail. */
  predicate AcceptsLikeProxy(call: Call, builds: seq<RouterLifecycle.Build>) {
    call.accepts == [!RouterLifecycle.UpdateFails(builds)]
  }

  /** The routers and clients after the call: Update runs only when the handlers are reached. */
  function Gateway(
      g: RouterLifecycle.Gateway, codec: Codec, call: Call, builds: seq<RouterLifecycle.Build>): RouterLifecycle.Gateway
    requires g.routers != []
  {
    if Acceptable(codec, call) then RouterLifecycle.Step(g, RouterLifecycle.Update(builds)) else g
  }

  /** Environment, snapshot, hashes and serving router move together, or all stay as they are. */
  lemma ReloadMovesTheRouterToo(
      w: World, g: RouterLifecycle.Gateway, codec: Codec, call: Call, builds: seq<RouterLifecycle.Build>)
    requires |w.handlers| == 1 && g.routers != [] && AcceptsLikeProxy(call, builds)
    ensures
      var v, h := Execute(w, codec, call), Gateway(g, codec, call, builds);
      if Succeeds(codec, call)
      then
        && Moved(w, v, codec, call)
        && |h.routers| == |g.routers| + 1
        && h.routers[|g.routers|].phase.Serving? && h.routers[|g.routers| - 1].phase.Retired?
        && h.routers[|g.routers|].closers == RouterLifecycle.BuildAll(builds, g.next).registered
      else v == w && h.routers == g.routers
  {
    AllOrNothingIff(w, codec, call);
    ReachesIff(codec, call);
    if Acceptable(codec, call) && !AllAccept(call.accepts) {
      assert call.accepts[0] == false;
      assert Execute(w, codec, call).handlers == w.handlers;
    }
  }

  /******* Watch and Close *******/

  /** The Watch calls before the first Close. */
  function WatchesBeforeClose(calls: seq<Subscribe>): nat {
    if calls == [] then 0
    else if calls[0].CloseCall? then 0
    else 1 + WatchesBeforeClose(calls[1..])
  }

  lemma {:induction false} OneMoreCall(calls: seq<Subscribe>, call: Subscribe)
    ensures WatchesBeforeClose(calls + [call]) ==
              WatchesBeforeClose(calls) + if call.WatchCall? && CloseCall !in calls then 1 else 0
  {
    if calls == [] {
      assert [] + [call] == [call];
      assert [call][1..] == [];
    } else {
      assert (calls + [call])[1..] == calls[1..] + [call];
      OneMoreCall(calls[1..], call);
      assert calls == [calls[0]] + calls[1..];
    }
  }

  /**
   Over any sequence of Watch and Close calls: exactly the handlers registered before the first Close
   count; the loops of the source are started once, by the first of them and after it is visible: one
   for a local file, one for a remote source, and one more for its priority directory; and they are told
   to end exactly when Close is called on a loader that has started them.
   */
  lemma {:induction false} LoopsRunWhileSubscribed(calls: seq<Subscribe>, source: Source)
    ensures
      var w := Subscribed(calls, source);
      && w.handlers == WatchesBeforeClose(calls)
      && w.started == (if w.handlers == 0 then [] else if source.isFile then [LocalLoop]
                       else if source.hasPriority then [SourceLoop, PriorityLoop] else [SourceLoop])
      && w.closed == (CloseCall in calls)
      && w.contextDone == (CloseCall in calls && w.handlers > 0)
      && w.canCancel == (CloseCall !in calls && w.handlers > 0)
  {
    if calls != [] {
      var init, call := calls[..|calls| - 1], calls[|calls| - 1];
      LoopsRunWhileSubscribed(init, source);
      OneMoreCall(init, call);
      assert init + [call] == calls;
    }
  }
}
