/** The process environment, applied from a configuration and rolled back (config/config.go). */
module Environment {
  import opened Wrappers

  type Env = map<string, string>

  const NUL: char := '\0'

  /** os.Setenv refuses an empty key, '=' or NUL in the key and NUL in the value. */
  predicate Settable(key: string, value: string) {
    key != "" && '=' !in key && NUL !in key && NUL !in value
  }

  /** The rule by characters. */
  lemma SettableIff(key: string, value: string)
    ensures Settable(key, value) <==>
              && |key| > 0 && (forall i :: 0 <= i < |key| ==> key[i] != '=' && key[i] != '\0')
              && forall i :: 0 <= i < |value| ==> value[i] != '\0'
  {
  }

  predicate AllSettable(envs: Env) {
    forall k :: k in envs ==> Settable(k, envs[k])
  }

  /** Values in a process environment are NUL-terminated strings. */
  predicate Terminated(env: Env) {
    forall k :: k in env ==> NUL !in env[k]
  }

  function Lookup(env: Env, key: string): Option<string> {
    if key in env then Some(env[key]) else None
  }

  /** What applyEnvs records before it sets the given keys. */
  function Previous(env: Env, keys: set<string>): map<string, Option<string>> {
    map k | k in keys :: Lookup(env, k)
  }

  function PutBack(env: Env, key: string, was: Option<string>): Env {
    if was.Some? then env[key := was.value] else env - {key}
  }

  /** The environment after the recorded keys in `keys` were put back. */
  function Restored(env: Env, previous: map<string, Option<string>>, keys: set<string>): Env
    requires keys <= previous.Keys
  {
    map k | k in env.Keys + keys && (k in keys ==> previous[k].Some?) ::
      if k in keys then previous[k].value else env[k]
  }

  /** The environment after the entries for `keys` were set. */
  function Overlaid(env: Env, envs: Env, keys: set<string>): Env
    requires keys <= envs.Keys
  {
    env + map k | k in keys :: envs[k]
  }

  /******* Rolling back is the inverse of applying *******/

  /** However far applying came, putting back what was recorded gives the environment it started from. */
  lemma RollbackInverts(env: Env, envs: Env, keys: set<string>)
    requires keys <= envs.Keys
    ensures Restored(Overlaid(env, envs, keys), Previous(env, keys), keys) == env
  {
    var applied, previous := Overlaid(env, envs, keys), Previous(env, keys);
    var back := Restored(applied, previous, keys);
    forall k ensures Lookup(back, k) == Lookup(env, k) {
      if k in keys { assert previous[k] == Lookup(env, k); }
    }
    SameLookups(back, env);
  }

  lemma SameLookups(a: Env, b: Env)
    requires forall k :: Lookup(a, k) == Lookup(b, k)
    ensures a == b
  {
    forall k ensures k in a <==> k in b { assert Lookup(a, k) == Lookup(b, k); }
    forall k | k in a ensures a[k] == b[k] { assert Lookup(a, k) == Lookup(b, k); }
  }

  /** What rollback sets is settable: the keys were set before, the values come from the environment. */
  lemma RollbackCannotFail(env: Env, envs: Env, keys: set<string>, k: string)
    requires Terminated(env) && keys <= envs.Keys && k in keys && Settable(k, envs[k])
    ensures Previous(env, keys)[k].Some? ==> Settable(k, Previous(env, keys)[k].value)
  {
  }

  /******* One key at a time *******/

  lemma OverlaidNone(env: Env, envs: Env)
    ensures Overlaid(env, envs, {}) == env
  {
  }

  lemma OverlaidOneMore(env: Env, envs: Env, keys: set<string>, k: string)
    requires keys <= envs.Keys && k in envs
    ensures Overlaid(env, envs, keys)[k := envs[k]] == Overlaid(env, envs, keys + {k})
  {
  }

  lemma OverlaidAll(env: Env, envs: Env)
    ensures Overlaid(env, envs, envs.Keys) == env + envs
  {
  }

  lemma PreviousNone(env: Env)
    ensures Previous(env, {}) == map[]
  {
  }

  lemma PreviousOneMore(env: Env, envs: Env, keys: set<string>, k: string)
    requires keys <= envs.Keys && k !in keys
    ensures Previous(env, keys)[k := Lookup(Overlaid(env, envs, keys), k)] == Previous(env, keys + {k})
  {
  }

  lemma RestoredNone(env: Env, previous: map<string, Option<string>>)
    ensures Restored(env, previous, {}) == env
  {
  }

  lemma RestoredOneMore(env: Env, previous: map<string, Option<string>>, keys: set<string>, k: string)
    requires keys <= previous.Keys && k in previous
    ensures
      var r := Restored(env, previous, keys);
      Restored(env, previous, keys + {k}) == PutBack(r, k, previous[k])
  {
  }

  lemma OneMore(all: set<string>, done: set<string>, k: string)
    ensures (all - done) - {k} == all - (done + {k})
  {
  }

  class Process {
    var env: Env

    constructor (env: Env)
      ensures this.env == env
    {
      this.env := env;
    }

    method Setenv(key: string, value: string) returns (ok: bool)
      modifies this
      ensures ok == Settable(key, value)
      ensures env == if ok then old(env)[key := value] else old(env)
    {
      ok := key != "" && '=' !in key && NUL !in key && NUL !in value;
      if ok { env := env[key := value]; }
    }

    method Unsetenv(key: string)
      modifies this
      ensures env == old(env) - {key}
    {
      env := env - {key};
    }

    method RestoreOne(key: string, was: Option<string>) returns (ok: bool)
      requires was.Some? ==> Settable(key, was.value)
      modifies this
      ensures ok && env == PutBack(old(env), key, was)
    {
      match was
      case Some(value) => ok := Setenv(key, value);
      case None =>
        Unsetenv(key);
        ok := true;
    }

    /** Puts back the recorded values, in any order; it cannot fail. */
    method Rollback(previous: map<string, Option<string>>) returns (ok: bool)
      requires forall k :: k in previous && previous[k].Some? ==> Settable(k, previous[k].value)
      modifies this
      ensures ok && env == Restored(old(env), previous, previous.Keys)
    {
      var todo := previous.Keys;
      ghost var all, done: set<string> := previous.Keys, {};
      RestoredNone(env, previous);
      ok := true;
      while todo != {}
        invariant ok && todo == all - done && done <= all
        invariant env == Restored(old(env), previous, done)
        decreases |todo|
      {
        var key :| key in todo;
        RestoredOneMore(old(env), previous, done, key);
        OneMore(all, done, key);
        ok := RestoreOne(key, previous[key]);
        todo, done := todo - {key}, done + {key};
      }
      assert done == all;
    }

    /**
     Sets all entries, in any order, and returns what is needed to undo it; or sets none and leaves
     the environment exactly as it was.
     */
    method ApplyEnvs(envs: Env) returns (ok: bool, previous: map<string, Option<string>>)
      requires Terminated(env)
      modifies this
      ensures ok == AllSettable(envs)
      ensures ok ==> env == old(env) + envs && previous == Previous(old(env), envs.Keys)
      ensures !ok ==> env == old(env)
    {
      var todo := envs.Keys;
      ghost var all, done: set<string> := envs.Keys, {};
      previous := map[];
      OverlaidNone(env, envs);
      PreviousNone(env);
      ok := true;
      while todo != {} && ok
        invariant todo == all - done && done <= all
        invariant forall k :: k in done ==> Settable(k, envs[k])
        invariant !ok ==> !AllSettable(envs)
        invariant env == Overlaid(old(env), envs, done)
        invariant previous == Previous(old(env), done)
        decreases |todo|, ok
      {
        var key :| key in todo;
        var oldValue := Lookup(env, key);
        OverlaidOneMore(old(env), envs, done, key);
        PreviousOneMore(old(env), envs, done, key);
        OneMore(all, done, key);
        ok := Setenv(key, envs[key]);
        if ok {
          previous := previous[key := oldValue];
          todo, done := todo - {key}, done + {key};
        }
      }
      if ok {
        assert done == all;
        OverlaidAll(old(env), envs);
      } else {
        Undo(old(env), envs, done, previous);
      }
    }

    method Undo(ghost before: Env, ghost envs: Env, ghost done: set<string>, previous: map<string, Option<string>>)
      requires Terminated(before) && done <= envs.Keys && previous == Previous(before, done)
      requires forall k :: k in done ==> Settable(k, envs[k])
      requires env == Overlaid(before, envs, done)
      modifies this
      ensures env == before
    {
      assert previous.Keys == done;
      forall k | k in previous && previous[k].Some? ensures Settable(k, previous[k].value) {
        RollbackCannotFail(before, envs, done, k);
      }
      RollbackInverts(before, envs, done);
      var ok := Rollback(previous);
    }
  }
}
