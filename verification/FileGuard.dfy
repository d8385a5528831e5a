/** The file operations and the watch callback in their own form. */
module FileGuard {
  import opened Wrappers
  import opened FileGuardModel

  /** The target path and the temporary files that were left beside it. */
  class Disk {
    var target: File
    var leftovers: seq<File>

    constructor (target: File)
      ensures this.target == target && leftovers == []
    {
      this.target, leftovers := target, [];
    }

    /**
     Writes, validates and renames; the target changes by the rename alone. A temporary file stays
     behind exactly when the replacement fails after making it and removing it fails too.
     */
    method ReplaceFile(contents: Bytes, mode: nat, x: Faults, validate: Option<Bytes -> bool>) returns (ok: bool)
      modifies this
      ensures ok == ReplaceSucceeds(contents, x, validate)
      ensures target == Replaced(old(target), contents, mode, x, validate)
      ensures |leftovers| == |old(leftovers)| +
                if contents != [] && !x.mkdir && !x.create && !ok && x.remove then 1 else 0
      ensures old(leftovers) <= leftovers
    {
      if |contents| == 0 || x.mkdir || x.create { return false; }
      var temp;
      ok, temp := WriteTemp(contents, mode, x);
      if ok && validate.Some? { ok := validate.value(temp.contents); }
      if ok { ok := !x.rename; }
      if ok { target := temp; }
      if !ok && x.remove { leftovers := leftovers + [temp]; }
    }

    /** A failed write leaves a torn temporary file, never a torn target. */
    method WriteTemp(contents: Bytes, mode: nat, x: Faults) returns (ok: bool, temp: File)
      requires |contents| > 0
      ensures temp.File?
      ensures ok == (!x.chmod && !x.write && !x.sync && !x.close)
      ensures ok ==> temp == File(contents, mode)
    {
      temp := File([], DefaultMode);
      if x.chmod { return false, temp; }
      temp := temp.(mode := mode);
      if x.write { return false, temp.(contents := contents[..|contents| / 2]); }
      temp := temp.(contents := contents);
      ok := !x.sync && !x.close;
    }

    /** The public ReplaceFile: keeps the mode of an existing target. */
    method ReplaceKeepingMode(contents: Bytes, statFails: bool, x: Faults, validate: Option<Bytes -> bool>)
      returns (ok: bool)
      modifies this
      ensures ok == (!statFails && ReplaceSucceeds(contents, x, validate))
      ensures target == if ok then File(contents, ModeOf(old(target))) else old(target)
    {
      if statFails { return false; }
      var mode := DefaultMode;
      if target.File? { mode := target.mode; }
      ok := ReplaceFile(contents, mode, x, validate);
    }

    method RestoreFile(snapshot: File, x: Faults, removeFails: bool) returns (ok: bool)
      modifies this
      ensures ok == RestoreSucceeds(snapshot, x, removeFails)
      ensures target == if ok then snapshot else old(target)
    {
      if snapshot.File? {
        ok := ReplaceFile(snapshot.contents, snapshot.mode, x, None);
      } else {
        ok := !removeFails;
        if ok { target := Missing; }
      }
    }

    /** SyncFile: what the source has replaces the target, unless the source cannot be read. */
    method SyncFile(loaded: Option<Bytes>, statFails: bool, x: Faults, validate: Option<Bytes -> bool>)
      returns (ok: bool)
      modifies this
      ensures ok ==> target.File? && loaded == Some(target.contents) && target.contents != []
      ensures ok && validate.Some? ==> validate.value(target.contents)
      ensures !ok ==> target == old(target)
    {
      if loaded.None? { return false; }
      ok := ReplaceKeepingMode(loaded.value, statFails, x, validate);
    }
  }

  /** The callback of WatchFile, with the runtime that onChange loads. */
  class FileWatch {
    const disk: Disk
    const hooks: Hooks
    var runtime: Runtime
    var errors: nat

    constructor (disk: Disk, hooks: Hooks, runtime: Runtime)
      ensures this.disk == disk && this.hooks == hooks && this.runtime == runtime && errors == 0
    {
      this.disk, this.hooks, this.runtime, errors := disk, hooks, runtime, 0;
    }

    function Contents(): State
      reads this, disk
    {
      State(disk.target, runtime)
    }

    method OnChange(onChange: Option<Bytes> -> bool, damage: Runtime) returns (ok: bool)
      modifies this`runtime
      ensures ok == onChange(FileGuardModel.Contents(disk.target))
      ensures runtime == Load(onChange, disk.target, damage)
    {
      var seen := FileGuardModel.Contents(disk.target);
      ok := onChange(seen);
      runtime := if ok then Loaded(seen) else damage;
    }

    /** One event; every event that is not taken is reported. */
    method OnEvent(e: Event)
      modifies this, disk
      ensures Contents() == Handle(old(Contents()), hooks, e)
      ensures errors == old(errors) + if Takes(hooks, e) then 0 else 1
    {
      var ok := false;
      if e.Update? && !e.weather.snapshotFails {
        var previous := disk.target;
        ok := disk.ReplaceKeepingMode(e.value, e.weather.statFails, e.weather.replace, hooks.validate);
        if ok && hooks.onChange.Some? {
          ok := OnChange(hooks.onChange.value, e.weather.damage);
          if !ok {
            var restored := disk.RestoreFile(previous, e.weather.restore, e.weather.removeFails);
            if restored {
              var reloaded := OnChange(hooks.onChange.value, e.weather.damageAgain);
            }
          }
        }
      }
      if !ok { errors := errors + 1; }
    }

    method Watch(events: seq<Event>)
      modifies this, disk
      ensures Contents() == After(old(Contents()), hooks, events)
    {
      assert events[..0] == [];
      for i := 0 to |events|
        invariant Contents() == After(old(Contents()), hooks, events[..i])
      {
        assert events[..i + 1][..i] == events[..i];
        OnEvent(events[i]);
      }
      assert events[..|events|] == events;
    }
  }
}
