/** The FileLoader object: its fields are committed only after environment and handlers went along. */
module FileLoaderObject {
  import opened Wrappers
  import opened Environment
  import opened ReloadModel
  import opened ReloadProofs
  import PriorityMerge

  /** A registered OnChange function and what it has applied; whether it accepts is decided outside. */
  class Handler {
    var applied: Applied

    constructor ()
      ensures applied == Applied(None, 0)
    {
      applied := Applied(None, 0);
    }

    method OnChange(c: Config, accepts: bool) returns (ok: bool)
      modifies this
      ensures ok == accepts && applied == Accepting(old(applied), c, accepts)
    {
      ok := accepts;
      if ok { applied := Applied(Some(c), applied.times + 1); }
    }
  }

  ghost predicate Distinct(handlers: seq<Handler>) {
    forall i, j :: 0 <= i < j < |handlers| ==> handlers[i] != handlers[j]
  }

  function States(handlers: seq<Handler>): seq<Applied>
    reads handlers
  {
    seq(|handlers|, i requires 0 <= i < |handlers| reads handlers => handlers[i].applied)
  }

  /** Runs all handlers, also after one has failed. */
  method NotifyAll(handlers: seq<Handler>, c: Config, accepts: seq<bool>) returns (ok: bool)
    requires Distinct(handlers) && |accepts| == |handlers|
    modifies handlers
    ensures States(handlers) == Notify(old(States(handlers)), c, accepts)
    ensures ok == AllAccept(accepts)
  {
    ok := true;
    for i := 0 to |handlers|
      invariant ok == AllAccept(accepts[..i])
      invariant forall j :: 0 <= j < i ==> handlers[j].applied == Accepting(old(handlers[j].applied), c, accepts[j])
      invariant forall j :: i <= j < |handlers| ==> handlers[j].applied == old(handlers[j].applied)
    {
      var accepted := handlers[i].OnChange(c, accepts[i]);
      if !accepted { ok := false; }
      assert accepts[..i + 1] == accepts[..i] + [accepts[i]];
    }
    assert accepts[..|accepts|] == accepts;
  }

  class FileLoader {
    const codec: Codec
    const process: Process
    var configData: Bytes
    var confSHA256: string
    var priorityConfigHash: map<string, string>
    const source: Source
    var onChangeHandlers: seq<Handler>
    var watchCancel: bool
    var closed: bool
    var started: seq<Goroutine>
    var contextDone: bool

    ghost predicate Valid()
      reads this, process
    {
      Distinct(onChangeHandlers) && Terminated(process.env)
    }

    function Contents(): World
      reads this, process, onChangeHandlers
    {
      World(process.env, configData, confSHA256, priorityConfigHash, States(onChangeHandlers))
    }

    /** Handlers, flags and loops. */
    function Subs(): Subscriptions
      reads this
    {
      Subscriptions(|onChangeHandlers|, watchCancel, closed, started, contextDone)
    }

    /** initialize, on bytes that were loaded and decoded. */
    constructor (codec: Codec, process: Process, source: Source, data: Bytes, priorityHash: map<string, string>)
      requires codec.parse(data).Some? && Terminated(process.env)
      ensures Valid() && Consistent(Contents(), codec) && Subs() == Unwatched
      ensures this.codec == codec && this.process == process && this.source == source
      ensures configData == data && priorityConfigHash == priorityHash
    {
      this.codec, this.process, this.source := codec, process, source;
      configData, confSHA256, priorityConfigHash := data, codec.sha256(data), priorityHash;
      onChangeHandlers, watchCancel, closed, started, contextDone := [], false, false, [], false;
    }

    /** Registers a handler, unless the loader was closed; the first one starts the loops. */
    method Watch(h: Handler)
      requires Valid() && h !in onChangeHandlers
      modifies this`onChangeHandlers, this`watchCancel, this`started
      ensures Valid() && Subs() == Watched(old(Subs()), source)
      ensures onChangeHandlers == if closed then old(onChangeHandlers) else old(onChangeHandlers) + [h]
    {
      if closed { return; }
      onChangeHandlers := onChangeHandlers + [h];
      if watchCancel { return; }
      watchCancel := true;
      if source.isFile {
        started := started + [LocalLoop];
        return;
      }
      started := started + [SourceLoop];
      if source.hasPriority { started := started + [PriorityLoop]; }
    }

    method Close()
      modifies this`closed, this`watchCancel, this`contextDone
      ensures Subs() == Closed(old(Subs()))
    {
      closed := true;
      var cancel := watchCancel;
      watchCancel := false;
      if cancel { contextDone := true; }
    }

    method Changed(data: Bytes, priorityHash: map<string, string>) returns (changed: bool)
      ensures Consistent(Contents(), codec) && data == configData && priorityHash == priorityConfigHash ==> !changed
      ensures !changed ==> codec.sha256(data) == confSHA256 && priorityHash == priorityConfigHash
    {
      changed := codec.sha256(data) != confSHA256 || priorityHash != priorityConfigHash;
    }

    /** Parses the bytes and merges the priority directory over them. */
    method DecodeConfig(data: Bytes, dir: Directory) returns (config: Option<Config>)
      ensures config.Some? <==> codec.parse(data).Some?
      ensures config.Some? ==>
                && config.value.envs == codec.parse(data).value.envs
                && config.value.endpoints ==
                     PriorityMerge.Merge(codec.parse(data).value.endpoints, PriorityMerge.Items(dir))
    {
      var parsed := codec.parse(data);
      if parsed.None? { return None; }
      var endpoints := PriorityMerge.MergePriorityConfig(parsed.value.endpoints, dir);
      return Some(parsed.value.(endpoints := endpoints));
    }

    /** Load: the last known-good snapshot, decoded with the directory as it is now; it cannot fail. */
    method Load(dir: Directory) returns (config: Option<Config>)
      requires Consistent(Contents(), codec)
      ensures config.Some? && config.value.envs == codec.parse(configData).value.envs
      ensures config.value.endpoints ==
                PriorityMerge.Merge(codec.parse(configData).value.endpoints, PriorityMerge.Items(dir))
    {
      config := DecodeConfig(configData, dir);
    }

    /** Environment and handlers of one reload; if a handler fails the environment is put back. */
    method ApplyConfig(config: Config, accepts: seq<bool>) returns (ok: bool)
      requires Valid() && |accepts| == |onChangeHandlers|
      modifies process, onChangeHandlers
      ensures Valid() && ok == (AllSettable(config.envs) && AllAccept(accepts))
      ensures process.env == if ok then old(process.env) + config.envs else old(process.env)
      ensures States(onChangeHandlers) ==
                if AllSettable(config.envs) then Notify(old(States(onChangeHandlers)), config, accepts)
                else old(States(onChangeHandlers))
    {
      var applied, previous := process.ApplyEnvs(config.envs);
      if !applied { return false; }
      ok := NotifyAll(onChangeHandlers, config, accepts);
      if !ok {
        OverlaidAll(old(process.env), config.envs);
        process.Undo(old(process.env), config.envs, config.envs.Keys, previous);
      }
    }

    /** One serialised reload. */
    method ExecuteLoader(call: Call) returns (ok: bool)
      requires Valid() && |call.accepts| == |onChangeHandlers|
      modifies this`configData, this`confSHA256, this`priorityConfigHash, process, onChangeHandlers
      ensures Valid()
      ensures ok == Succeeds(codec, call)
      ensures Contents() == Execute(old(Contents()), codec, call)
    {
      ReachesIff(codec, call);
      var decoded := DecodeConfig(call.data, call.dir);
      if decoded.None? { return false; }
      ok := ApplyConfig(decoded.value, call.accepts);
      if ok {
        configData, confSHA256, priorityConfigHash := call.data, codec.sha256(call.data), call.priorityHash;
      }
    }
  }

  /**
   A loader comes into being exactly when the priority directory can be made and read, the source can be
   loaded, and what it holds decodes; it then starts from those bytes.
   */
  method NewFileLoader(
      codec: Codec, process: Process, source: Source,
      mkdirFails: bool, loaded: Option<Bytes>, priorityHash: Option<map<string, string>>)
    returns (r: Option<FileLoader>)
    requires Terminated(process.env)
    ensures r.Some? <==>
              && (source.hasPriority ==> !mkdirFails) && loaded.Some? && codec.parse(loaded.value).Some?
              && (source.hasPriority ==> priorityHash.Some?)
    ensures r.Some? ==>
              && fresh(r.value) && r.value.Valid() && r.value.codec == codec && r.value.process == process
              && Consistent(r.value.Contents(), codec) && r.value.configData == loaded.value
              && r.value.priorityConfigHash == (if source.hasPriority then priorityHash.value else map[])
  {
    if source.hasPriority && mkdirFails { return None; }
    if loaded.None? { return None; }
    var data := loaded.value;
    if codec.parse(data).None? { return None; }
    if source.hasPriority && priorityHash.None? { return None; }
    var hashes := if source.hasPriority then priorityHash.value else map[];
    var loader := new FileLoader(codec, process, source, data, hashes);
    return Some(loader);
  }
}
