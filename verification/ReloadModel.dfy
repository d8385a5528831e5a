/**
 Hot reload as a transaction: what one executeLoader call (config/config.go) does to the environment,
 the last known-good snapshot and the registered handlers. YAML decoding and SHA-256 are parameters.
 */
module ReloadModel {
  import opened Wrappers
  import opened Environment
  import PriorityMerge

  type Bytes = seq<bv8>

  /** The parts of a configuration that a reload looks at. */
  datatype Config = Config(envs: Env, endpoints: seq<PriorityMerge.Endpoint>)

  /** The priority directory, entry by entry. Files that cannot be merged are only logged. */
  type Directory = seq<PriorityMerge.Entry>

  datatype Codec = Codec(parse: Bytes -> Option<Config>, sha256: Bytes -> string)

  function Decode(codec: Codec, data: Bytes, dir: Directory): Option<Config> {
    match codec.parse(data)
    case None => None
    case Some(c) => Some(c.(endpoints := PriorityMerge.Merge(c.endpoints, PriorityMerge.Items(dir))))
  }

  /** What a handler made of the configurations given to it: the last one it took, and how many it took. */
  datatype Applied = Applied(config: Option<Config>, times: nat)

  datatype World = World(
    env: Env,
    data: Bytes,
    hash: string,
    priorityHash: map<string, string>,
    handlers: seq<Applied>)

  /** One call: the arguments, the priority directory it meets, and which handlers will accept. */
  datatype Call = Call(data: Bytes, priorityHash: map<string, string>, dir: Directory, accepts: seq<bool>)

  function Accepting(a: Applied, c: Config, ok: bool): Applied {
    if ok then Applied(Some(c), a.times + 1) else a
  }

  function Notify(handlers: seq<Applied>, c: Config, accepts: seq<bool>): seq<Applied>
    requires |accepts| == |handlers|
  {
    seq(|handlers|, i requires 0 <= i < |handlers| => Accepting(handlers[i], c, accepts[i]))
  }

  predicate AllAccept(accepts: seq<bool>) {
    forall i :: 0 <= i < |accepts| ==> accepts[i]
  }

  predicate NoneAccepts(accepts: seq<bool>) {
    forall i :: 0 <= i < |accepts| ==> !accepts[i]
  }

  /** The handlers are asked: the bytes decode and the environment can be set. */
  predicate Reaches(codec: Codec, call: Call) {
    Decode(codec, call.data, call.dir).Some? && AllSettable(Decode(codec, call.data, call.dir).value.envs)
  }

  function Execute(w: World, codec: Codec, call: Call): World
    requires |call.accepts| == |w.handlers|
  {
    if !Reaches(codec, call) then w
    else
      var c := Decode(codec, call.data, call.dir).value;
      var handlers := Notify(w.handlers, c, call.accepts);
      if AllAccept(call.accepts)
      then World(w.env + c.envs, call.data, codec.sha256(call.data), call.priorityHash, handlers)
      else w.(handlers := handlers)
  }

  /** A serialised sequence of calls. */
  ghost predicate Run(ws: seq<World>, codec: Codec, calls: seq<Call>) {
    && |ws| == |calls| + 1
    && (forall i :: 0 <= i < |calls| ==>
          |calls[i].accepts| == |ws[i].handlers| && ws[i + 1] == Execute(ws[i], codec, calls[i]))
  }

  /** The loader was initialised: the hash is that of the snapshot, and the snapshot decodes. */
  predicate Consistent(w: World, codec: Codec) {
    w.hash == codec.sha256(w.data) && codec.parse(w.data).Some?
  }

  /******* Handlers and watch loops *******/

  datatype Goroutine = LocalLoop | SourceLoop | PriorityLoop

  /** What a loader watches: the local file, or a remote source and perhaps a priority directory. */
  datatype Source = Source(isFile: bool, hasPriority: bool)

  function Loops(source: Source): seq<Goroutine> {
    if source.isFile then [LocalLoop] else [SourceLoop] + if source.hasPriority then [PriorityLoop] else []
  }

  /** `canCancel` is watchCancel being set, `contextDone` that the loops were told to end. */
  datatype Subscriptions = Subscriptions(
    handlers: nat, canCancel: bool, closed: bool, started: seq<Goroutine>, contextDone: bool)

  const Unwatched := Subscriptions(0, false, false, [], false)

  datatype Subscribe = WatchCall | CloseCall

  /** Watch: a closed loader ignores the handler; the first handler starts the loops. */
  function Watched(w: Subscriptions, source: Source): Subscriptions {
    if w.closed then w
    else if w.canCancel then w.(handlers := w.handlers + 1)
    else w.(handlers := w.handlers + 1, canCancel := true, started := w.started + Loops(source))
  }

  function Closed(w: Subscriptions): Subscriptions {
    w.(closed := true, canCancel := false, contextDone := w.contextDone || w.canCancel)
  }

  function Subscribed(calls: seq<Subscribe>, source: Source): Subscriptions {
    if calls == [] then Unwatched
    else
      var w := Subscribed(calls[..|calls| - 1], source);
      if calls[|calls| - 1].WatchCall? then Watched(w, source) else Closed(w)
  }
}
