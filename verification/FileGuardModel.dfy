/**
 Keeping a last known-good file (pkg/loader/source.go): an update is written beside the target,
 validated, renamed over it and applied; an update that does not apply is taken back. Every file
 operation may fail.
 */
module FileGuardModel {
  import opened Wrappers

  type Bytes = seq<bv8>

  datatype File = Missing | File(contents: Bytes, mode: nat)

  const DefaultMode: nat := 0x180

  function Contents(f: File): Option<Bytes> {
    if f.Missing? then None else Some(f.contents)
  }

  /** Which operations of one replaceFile call fail; `remove` is the removal of the temporary file. */
  datatype Faults = Faults(
    mkdir: bool, create: bool, chmod: bool, write: bool, sync: bool, close: bool, rename: bool, remove: bool)

  const NoFaults := Faults(false, false, false, false, false, false, false, false)

  /** A fault that makes the replacement fail; a temporary file that stays behind does not. */
  predicate Faulty(x: Faults) {
    x.(remove := false) != NoFaults
  }

  predicate ReplaceSucceeds(contents: Bytes, x: Faults, validate: Option<Bytes -> bool>) {
    contents != [] && !Faulty(x) && (validate.Some? ==> validate.value(contents))
  }

  /** replaceFile leaves the old file or the whole new one. */
  function Replaced(f: File, contents: Bytes, mode: nat, x: Faults, validate: Option<Bytes -> bool>): File {
    if ReplaceSucceeds(contents, x, validate) then File(contents, mode) else f
  }

  function ModeOf(f: File): nat {
    if f.Missing? then DefaultMode else f.mode
  }

  /** restoreFile puts a snapshot back, or removes a file that was not there before. */
  predicate RestoreSucceeds(snapshot: File, x: Faults, removeFails: bool) {
    if snapshot.Missing? then !removeFails else ReplaceSucceeds(snapshot.contents, x, None)
  }

  /** The running system: what it was last loaded from, or whatever a failed load left. */
  datatype Runtime = Loaded(from: Option<Bytes>) | Damaged(how: nat)

  datatype State = State(target: File, runtime: Runtime)

  /** `onChange` loads the runtime from the target and says whether that worked. */
  datatype Hooks = Hooks(validate: Option<Bytes -> bool>, onChange: Option<Option<Bytes> -> bool>)

  /** What an update meets: failing file operations, and what failed loads do to the runtime. */
  datatype Weather = Weather(
    snapshotFails: bool,
    statFails: bool,
    replace: Faults,
    restore: Faults,
    removeFails: bool,
    damage: Runtime,
    damageAgain: Runtime)

  datatype Event = WatchError | Deleted | Update(value: Bytes, weather: Weather)

  function Load(onChange: Option<Bytes> -> bool, target: File, damage: Runtime): Runtime {
    if onChange(Contents(target)) then Loaded(Contents(target)) else damage
  }

  /** The update reaches the disk. */
  predicate Lands(hooks: Hooks, e: Event)
    requires e.Update?
  {
    && !e.weather.snapshotFails && !e.weather.statFails
    && ReplaceSucceeds(e.value, e.weather.replace, hooks.validate)
  }

  /** The update reaches the disk and the runtime takes it. */
  predicate Takes(hooks: Hooks, e: Event) {
    e.Update? && Lands(hooks, e) && (hooks.onChange.Some? ==> hooks.onChange.value(Some(e.value)))
  }

  function Handle(s: State, hooks: Hooks, e: Event): State {
    if !e.Update? || !Lands(hooks, e) then s
    else
      var landed := File(e.value, ModeOf(s.target));
      if hooks.onChange.None? then s.(target := landed)
      else if hooks.onChange.value(Some(e.value)) then State(landed, Loaded(Some(e.value)))
      else if RestoreSucceeds(s.target, e.weather.restore, e.weather.removeFails)
      then State(s.target, Load(hooks.onChange.value, s.target, e.weather.damageAgain))
      else State(landed, e.weather.damage)
  }

  function After(s: State, hooks: Hooks, es: seq<Event>): State {
    if es == [] then s else Handle(After(s, hooks, es[..|es| - 1]), hooks, es[|es| - 1])
  }
}
