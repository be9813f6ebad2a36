/** A stack of scopes, outermost first, each a finite map from names to entries. */
module Scopes {
  import opened Ast

  type Layer<T> = map<string, T>
  type Stack<T> = seq<Layer<T>>

  /** The entry of the innermost scope that binds `k`. */
  function Find<T>(s: Stack<T>, k: string): Option<T> {
    if s == [] then None
    else
      var inner := s[|s| - 1];
      if k in inner then Some(inner[k]) else Find(s[..|s| - 1], k)
  }

  /** Binds `k` in the innermost scope unless it is bound there already. */
  function Insert<T>(s: Stack<T>, k: string, v: T): Stack<T>
    requires s != []
  {
    var inner := s[|s| - 1];
    if k in inner then s else s[|s| - 1 := inner[k := v]]
  }

  /** Replaces the innermost binding of `k`; there is one. */
  function Update<T>(s: Stack<T>, k: string, v: T): (r: Stack<T>)
    requires Find(s, k).Some?
    ensures |r| == |s|
    ensures forall i :: 0 <= i < |s| ==> r[i].Keys == s[i].Keys
  {
    var inner := s[|s| - 1];
    if k in inner then s[|s| - 1 := inner[k := v]]
    else Update(s[..|s| - 1], k, v) + [inner]
  }

  /** All live bindings as one map, inner ones first. */
  function Flat<T>(s: Stack<T>): Layer<T> {
    if s == [] then map[] else Flat(s[..|s| - 1]) + s[|s| - 1]
  }

  /** No name is bound in two live scopes. */
  ghost predicate Disjoint<T>(s: Stack<T>) {
    forall i, j :: 0 <= i < j < |s| ==> s[i].Keys !! s[j].Keys
  }

  /** Innermost-first search is lookup in the flat map. */
  lemma {:induction false} FindIsFlat<T>(s: Stack<T>, k: string)
    ensures Find(s, k) == if k in Flat(s) then Some(Flat(s)[k]) else None
  {
    if s != [] { FindIsFlat(s[..|s| - 1], k); }
  }

  lemma {:induction false} FlatKeys<T>(s: Stack<T>, k: string)
    ensures k in Flat(s) <==> exists i :: 0 <= i < |s| && k in s[i]
  {
    if s != [] {
      FlatKeys(s[..|s| - 1], k);
      if k in Flat(s[..|s| - 1]) {
        var i :| 0 <= i < |s| - 1 && k in s[..|s| - 1][i];
        assert k in s[i];
      }
      if i :| 0 <= i < |s| && k in s[i] {
        if i < |s| - 1 { assert k in s[..|s| - 1][i]; }
      }
    }
  }

  lemma {:induction false} FlatPrefix<T>(s: Stack<T>, n: nat)
    requires n <= |s| && Disjoint(s)
    ensures forall k :: k in Flat(s[..n]) ==> k in Flat(s) && Flat(s)[k] == Flat(s[..n])[k]
  {
    if n == |s| {
      assert s[..n] == s;
    } else {
      var t := s[..|s| - 1];
      assert t[..n] == s[..n];
      FlatPrefix(t, n);
      forall k | k in Flat(t) ensures k !in s[|s| - 1] {
        FlatKeys(t, k);
        var i :| 0 <= i < |t| && k in t[i];
        assert k in s[i];
      }
    }
  }

  /** When no name is bound twice, any binding of a name is the one that is found. */
  lemma OnlyBinding<T>(s: Stack<T>, i: nat, k: string)
    requires Disjoint(s) && i < |s| && k in s[i]
    ensures Find(s, k) == Some(s[i][k])
  {
    FindIsFlat(s, k);
    assert s[..i + 1][..i] == s[..i];
    assert k in Flat(s[..i + 1]) && Flat(s[..i + 1])[k] == s[i][k];
    FlatPrefix(s, i + 1);
  }

  // ---- Insert, update and lookup ----------------------------------------------------------

  lemma FindInsert<T>(s: Stack<T>, k: string, v: T, x: string)
    requires s != [] && k !in s[|s| - 1]
    ensures Find(Insert(s, k, v), x) == if x == k then Some(v) else Find(s, x)
  {
    var r := Insert(s, k, v);
    assert r[..|r| - 1] == s[..|s| - 1];
  }

  lemma {:induction false} FindUpdate<T>(s: Stack<T>, k: string, v: T, x: string)
    requires Find(s, k).Some?
    ensures Find(Update(s, k, v), x) == if x == k then Some(v) else Find(s, x)
  {
    var inner := s[|s| - 1];
    var r := Update(s, k, v);
    if k in inner {
      assert r[..|r| - 1] == s[..|s| - 1];
    } else {
      FindUpdate(s[..|s| - 1], k, v, x);
      assert r[..|r| - 1] == Update(s[..|s| - 1], k, v);
    }
  }

  lemma FindPush<T>(s: Stack<T>, x: string)
    ensures Find(s + [map[]], x) == Find(s, x)
  {
    assert (s + [map[]])[..|s|] == s;
  }
}
