/** The scope stack as an object: insertion, lookup from the inside out, update in place. */
module EnvStates {
  import opened Ast
  import opened Scopes

  class EnvState<T> {
    var envs: Stack<T>

    constructor ()
      ensures Valid() && envs == [map[]]
    {
      envs := [map[]];
    }

    /** The global scope is always there. */
    ghost predicate Valid()
      reads this
    {
      envs != []
    }

    method Insert(k: string, v: T) returns (inserted: bool)
      requires Valid()
      modifies this
      ensures Valid() && inserted == (k !in old(envs)[|old(envs)| - 1])
      ensures envs == Scopes.Insert(old(envs), k, v)
    {
      var last := |envs| - 1;
      inserted := k !in envs[last];
      if inserted { envs := envs[last := envs[last][k := v]]; }
    }

    method Find(k: string) returns (r: Option<T>)
      requires Valid()
      ensures r == Scopes.Find(envs, k)
    {
      var i := |envs|;
      assert envs[..i] == envs;
      while i > 0
        invariant 0 <= i <= |envs|
        invariant Scopes.Find(envs[..i], k) == Scopes.Find(envs, k)
      {
        assert envs[..i][..i - 1] == envs[..i - 1];
        i := i - 1;
        if k in envs[i] { return Some(envs[i][k]); }
      }
      return None;
    }

    method Contains(k: string) returns (found: bool)
      requires Valid()
      ensures found <==> k in Flat(envs)
    {
      var i := |envs|;
      assert envs[..i] == envs;
      found := false;
      while i > 0
        invariant 0 <= i <= |envs| && !found
        invariant k in Flat(envs) <==> k in Flat(envs[..i])
      {
        assert envs[..i][..i - 1] == envs[..i - 1];
        i := i - 1;
        if k in envs[i] { return true; }
      }
    }

    method IsToplevel() returns (top: bool)
      requires Valid()
      ensures top <==> |envs| == 1
    {
      top := |envs| == 1;
    }

    method PushEnv()
      requires Valid()
      modifies this
      ensures Valid() && envs == old(envs) + [map[]]
    {
      envs := envs + [map[]];
    }

    /** Fails, changing nothing, on the global scope. */
    method PopEnv() returns (ok: bool)
      requires Valid()
      modifies this
      ensures Valid() && ok == (|old(envs)| > 1)
      ensures envs == if ok then old(envs)[..|old(envs)| - 1] else old(envs)
    {
      var top := IsToplevel();
      if top { return false; }
      envs := envs[..|envs| - 1];
      return true;
    }

    method Clear()
      modifies this
      ensures Valid() && envs == [map[]]
    {
      envs := [map[]];
    }

    /** Overwrites the innermost binding; fails when there is none. */
    method Update(k: string, v: T) returns (ok: bool)
      requires Valid()
      modifies this
      ensures Valid() && ok == Scopes.Find(old(envs), k).Some?
      ensures envs == if ok then Scopes.Update(old(envs), k, v) else old(envs)
    {
      ghost var s := envs;
      var i := |envs|;
      assert s[..i] == s && s[i..] == [];
      while i > 0
        invariant 0 <= i <= |envs| && envs == s == old(envs)
        invariant Scopes.Find(s[..i], k).Some? <==> Scopes.Find(s, k).Some?
        invariant Scopes.Find(s, k).Some? ==> Scopes.Update(s, k, v) == Scopes.Update(s[..i], k, v) + s[i..]
      {
        assert s[..i][..i - 1] == s[..i - 1];
        i := i - 1;
        if k in envs[i] {
          envs := envs[i := envs[i][k := v]];
          assert envs == s[..i + 1][i := s[i][k := v]] + s[i + 1..];
          return true;
        }
        assert s[i..] == [s[i]] + s[i + 1..];
      }
      return false;
    }
  }
}
