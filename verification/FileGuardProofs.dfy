/** The target is the last known-good file. */
module FileGuardProofs {
  import opened Wrappers
  import opened FileGuardModel

  /** A file that was synced and loaded: not empty, taken by the runtime, and what the runtime runs. */
  predicate Good(s: State, hooks: Hooks) {
    && s.target.File? && s.target.contents != []
    && hooks.onChange.Some? && hooks.onChange.value(Some(s.target.contents))
    && s.runtime == Loaded(Some(s.target.contents))
  }

  /** Taking back a landed update that did not apply works. */
  predicate RestoreWorks(hooks: Hooks, e: Event) {
    e.Update? && Lands(hooks, e) && !Takes(hooks, e) ==> !Faulty(e.weather.restore)
  }

  /** From a good state an event leads to a good state exactly when no needed restore fails. */
  lemma StaysGoodIff(s: State, hooks: Hooks, e: Event)
    requires Good(s, hooks)
    ensures Good(Handle(s, hooks, e), hooks) <==> RestoreWorks(hooks, e)
    ensures RestoreWorks(hooks, e) ==>
              Handle(s, hooks, e).target ==
                if Takes(hooks, e) then File(e.value, s.target.mode) else s.target
  {
  }

  /** The bytes of the most recent event that was taken, or the initial ones. */
  function LastTaken(initial: Bytes, hooks: Hooks, es: seq<Event>): Bytes {
    if es == [] then initial
    else if Takes(hooks, es[|es| - 1]) then es[|es| - 1].value
    else LastTaken(initial, hooks, es[..|es| - 1])
  }

  /**
   From a good start, over any events among which no needed restore fails: the target holds the bytes
   of the most recent event that was written, validated and applied, its mode is the initial one, and
   the runtime runs what is on disk.
   */
  lemma {:induction false} LastKnownGoodFile(s: State, hooks: Hooks, es: seq<Event>)
    requires Good(s, hooks) && forall i :: 0 <= i < |es| ==> RestoreWorks(hooks, es[i])
    ensures
      var r := After(s, hooks, es);
      && r.target == File(LastTaken(s.target.contents, hooks, es), s.target.mode)
      && r.runtime == Loaded(Some(r.target.contents))
      && Good(r, hooks)
  {
    if es != [] {
      var init := es[..|es| - 1];
      LastKnownGoodFile(s, hooks, init);
      StaysGoodIff(After(s, hooks, init), hooks, es[|es| - 1]);
    }
  }

  /** An event that does not take leaves the target as it was. */
  predicate TakenBack(s: State, hooks: Hooks, e: Event) {
    Handle(s, hooks, e).target == s.target
  }

  /**
   From any state: a rejected update is undone on disk exactly when the update did not land, or
   brought the bytes that were there already, or the restore works, which for an existing file needs
   content: an empty file cannot be put back.
   */
  lemma TakenBackIff(s: State, hooks: Hooks, e: Event)
    requires e.Update? && !Takes(hooks, e)
    ensures TakenBack(s, hooks, e) <==>
            !Lands(hooks, e)
            || Contents(s.target) == Some(e.value)
            || (if s.target.Missing? then !e.weather.removeFails
                else s.target.contents != [] && !Faulty(e.weather.restore))
  {
  }

  /** The empty file, concretely: the rejected bytes stay on disk. */
  lemma EmptyFileIsNotRestored()
    ensures
      var hooks := Hooks(None, Some(c => c != Some([1])));
      var calm := Weather(false, false, NoFaults, NoFaults, false, Damaged(0), Damaged(0));
      var s := State(File([], 0x1a4), Loaded(Some([])));
      Handle(s, hooks, Update([1], calm)).target == File([1], 0x1a4)
  {
    var hooks: Hooks := Hooks(None, Some(c => c != Some([1])));
    var calm := Weather(false, false, NoFaults, NoFaults, false, Damaged(0), Damaged(0));
    var e := Update([1], calm);
    assert ReplaceSucceeds([1], NoFaults, None);
    assert Lands(hooks, e);
    assert !hooks.onChange.value(Some([1]));
    assert !ReplaceSucceeds([], NoFaults, None);
  }

  /** The mode of an existing target never changes, whatever fails. */
  lemma {:induction false} ModeIsConstant(s: State, hooks: Hooks, es: seq<Event>)
    requires s.target.File?
    ensures After(s, hooks, es).target.File? && After(s, hooks, es).target.mode == s.target.mode
  {
    if es != [] { ModeIsConstant(s, hooks, es[..|es| - 1]); }
  }

  /** Whatever fails, the target holds whole contents: what it held at first or a validated update. */
  lemma {:induction false} NeverTorn(s: State, hooks: Hooks, es: seq<Event>)
    ensures
      var f := After(s, hooks, es).target;
      || f == s.target
      || exists i :: 0 <= i < |es| && es[i].Update? && Lands(hooks, es[i]) && Contents(f) == Some(es[i].value)
  {
    if es != [] {
      var init, e := es[..|es| - 1], es[|es| - 1];
      NeverTorn(s, hooks, init);
      var f, g := After(s, hooks, init).target, After(s, hooks, es).target;
      if g == f {
        if f != s.target {
          var i :| 0 <= i < |init| && init[i].Update? && Lands(hooks, init[i]) && Contents(f) == Some(init[i].value);
          assert es[i] == init[i];
        }
      } else {
        assert es[|es| - 1].Update? && Lands(hooks, e) && Contents(g) == Some(e.value);
      }
    }
  }

  /** No operation on the way to the disk fails; whether the temporary file can be removed does not matter. */
  predicate CalmSky(w: Weather) {
    && !w.snapshotFails && !w.statFails
    && !w.replace.mkdir && !w.replace.create && !w.replace.chmod && !w.replace.write
    && !w.replace.sync && !w.replace.close && !w.replace.rename
  }

  /** An update is taken exactly when it is not empty, nothing fails on the way, and validator and runtime like it. */
  lemma TakesIff(hooks: Hooks, value: Bytes, w: Weather)
    ensures Takes(hooks, Update(value, w)) <==>
              && value != [] && CalmSky(w)
              && (hooks.validate.Some? ==> hooks.validate.value(value))
              && (hooks.onChange.Some? ==> hooks.onChange.value(Some(value)))
  {
  }

  /** A taken update is on disk, with the mode the file had or 0600 for a new one, and is what the runtime runs. */
  lemma TakenIsOnDisk(s: State, hooks: Hooks, e: Event)
    requires Takes(hooks, e)
    ensures
      var r := Handle(s, hooks, e);
      && r.target == File(e.value, if s.target.Missing? then 6 * 64 else s.target.mode)
      && (hooks.onChange.Some? ==> r.runtime == Loaded(Some(e.value)))
      && (hooks.onChange.None? ==> r.runtime == s.runtime)
  {
  }

  /** An event that never reaches the disk changes nothing: a watch error, a deletion, an empty or refused update. */
  lemma OthersChangeNothing(s: State, hooks: Hooks, e: Event)
    requires e.Update? ==>
               e.value == [] || !CalmSky(e.weather) || (hooks.validate.Some? && !hooks.validate.value(e.value))
    ensures Handle(s, hooks, e) == s
  {
  }
}
