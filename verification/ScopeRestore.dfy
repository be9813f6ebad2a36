/** Runs that open and close scopes in matching pairs give the outer scopes back. */
module ScopeRestore {
  import opened Ast
  import opened Scopes
  import opened ScopeRules

  /** The symbol kept its data, and may only have gone from declared to defined. */
  predicate Grew<D(==)>(a: Symbol<D>, b: Symbol<D>) {
    b.data == a.data && (b.status == a.status || (a.status.Declared? && b.status.Defined?))
  }

  /** Outer scopes have the same names, the last scope of `a` at least its names, and all of
      these symbols are still there. */
  ghost predicate Kept<D>(a: Symbols<D>, b: Symbols<D>) {
    && |a| <= |b|
    && (forall i :: 0 <= i < |a| - 1 ==> b[i].Keys == a[i].Keys)
    && (forall i :: 0 <= i < |a| ==> a[i].Keys <= b[i].Keys)
    && (forall i, x :: 0 <= i < |a| && x in a[i] ==> x in b[i] && Grew(a[i][x], b[i][x]))
  }

  /** Scopes are closed only after they were opened here, and all of them are. */
  ghost predicate Balanced<D>(evs: seq<Event<D>>) {
    (forall k: nat :: k <= |evs| ==> Depth(evs, k) >= 0) && Depth(evs, |evs|) == 0
  }

  lemma {:induction false} UpdateGrew<D>(s: Symbols<D>, x: string, d: D)
    requires Find(s, x) == Some(Symbol(Declared, d))
    ensures Kept(s, Update(s, x, Symbol(Defined, d)))
  {
    var n := |s| - 1;
    if x !in s[n] { UpdateGrew(s[..n], x, d); }
  }

  lemma KeptTrans<D>(a: Symbols<D>, b: Symbols<D>, c: Symbols<D>)
    requires Kept(a, b)
    requires Kept(b, c)
    ensures Kept(a, c)
  {
    forall i, x | 0 <= i < |a| && x in a[i] ensures x in c[i] && Grew(a[i][x], c[i][x]) {
      assert x in b[i];
    }
  }

  lemma StepKept<D>(s: Symbols<D>, e: Event<D>)
    requires s != [] && Step(s, e).Some? && !e.Close?
    ensures Kept(s, Step(s, e).value)
  {
    if e.Bind? && e.defines && Find(s, e.name).Some? { UpdateGrew(s, e.name, e.data); }
    hide Find, Update;
  }

  lemma {:induction false} RunKept<D>(s: Symbols<D>, evs: seq<Event<D>>, n: nat)
    requires s != [] && n <= |evs| && Run(s, evs[..n]).Some? && forall k: nat :: k <= |evs| ==> Depth(evs, k) >= 0
    ensures var s' := Run(s, evs[..n]).value; |s'| == |s| + Depth(evs, n) && Kept(s, s')
  {
    if n == 0 {
      assert evs[..0] == [];
    } else {
      assert evs[..n][..n - 1] == evs[..n - 1] && evs[..n][n - 1] == evs[n - 1];
      RunKept(s, evs, n - 1);
      var s1 := Run(s, evs[..n - 1]).value;
      var s2 := Run(s, evs[..n]).value;
      assert Depth(evs, n) >= 0;
      hide Run, Find;
      if evs[n - 1].Close? {
        assert s2 == s1[..|s1| - 1];
      } else {
        StepKept(s1, evs[n - 1]);
        assert |s2| >= |s1|;
        hide Step;
        KeptTrans(s, s1, s2);
      }
    }
  }

  /** A matched pair of brackets gives every outer scope its names back; types stay, and only
      declared symbols may have become defined. */
  lemma MatchedRestores<D>(s: Symbols<D>, body: seq<Event<D>>)
    requires s != [] && Balanced(body) && Run(s, [Event<D>.Open] + body + [Event<D>.Close]).Some?
    ensures var s' := Run(s, [Event<D>.Open] + body + [Event<D>.Close]).value;
      |s'| == |s| && Kept(s, s') && forall i :: 0 <= i < |s| ==> s'[i].Keys == s[i].Keys
  {
    var evs: seq<Event<D>> := [Event<D>.Open] + body + [Event<D>.Close];
    var inner: seq<Event<D>> := [Event<D>.Open] + body;
    assert evs[..|evs| - 1] == inner;
    RunConcat(s, [Event<D>.Open], body);
    var s1 := s + [map[]];
    assert Run(s, [Event<D>.Open]) == Some(s1) by { assert Run(s, []) == Some(s); }
    assert body[..|body|] == body;
    RunKept(s1, body, |body|);
    var s2 := Run(s1, body).value;
    assert Run(s, evs) == Some(s2[..|s2| - 1]);
    hide Run;
    forall i | 0 <= i < |s| ensures s2[i].Keys == s[i].Keys { assert s1[i] == s[i]; }
    forall i, x | 0 <= i < |s| && x in s[i] ensures x in s2[i] && Grew(s[i][x], s2[i][x]) { assert s1[i] == s[i]; }
  }

  lemma {:induction false} RunConcat<D>(s: Symbols<D>, a: seq<Event<D>>, b: seq<Event<D>>)
    requires s != []
    ensures Run(s, a + b) == if Run(s, a).None? then None else Run(Run(s, a).value, b)
    decreases |b|
  {
    if b == [] {
      assert a + b == a;
    } else {
      var n := |b| - 1;
      assert (a + b)[..|a + b| - 1] == a + b[..n];
      RunConcat(s, a, b[..n]);
    }
  }

  // ---- Balance ----------------------------------------------------------------------------

  lemma {:induction false} DepthConcat<D>(a: seq<Event<D>>, b: seq<Event<D>>, n: nat)
    requires n <= |a| + |b|
    ensures Depth(a + b, n) == if n <= |a| then Depth(a, n) else Depth(a, |a|) + Depth(b, n - |a|)
  {
    if n > 0 { DepthConcat(a, b, n - 1); }
  }

  lemma BalancedConcat<D>(a: seq<Event<D>>, b: seq<Event<D>>)
    requires Balanced(a) && Balanced(b)
    ensures Balanced(a + b)
  {
    forall k: nat | k <= |a + b| ensures Depth(a + b, k) >= 0 { DepthConcat(a, b, k); }
    DepthConcat(a, b, |a + b|);
  }

  lemma BalancedOne<D>(e: Event<D>)
    requires !e.Open? && !e.Close?
    ensures Balanced([e])
  {}

  lemma BalancedNone<D>()
    ensures Balanced<D>([])
  {}

  lemma BalancedBlock<D>(body: seq<Event<D>>)
    requires Balanced(body)
    ensures Balanced([Event<D>.Open] + body + [Event<D>.Close])
  {
    var inner := [Event<D>.Open] + body;
    var evs := inner + [Event<D>.Close];
    forall k: nat | k <= |evs| ensures Depth(evs, k) == if k == 0 || k == |evs| then 0 else 1 + Depth(body, k - 1) {
      DepthConcat([Event<D>.Open], body, if k <= |inner| then k else |inner|);
      DepthConcat(inner, [Event<D>.Close], k);
    }
  }
}
