/** What comes out of an inclusion: the text that would come out if the lines of the file stood in
    its place. */
module PreprocessingSplice {
  import opened Ast
  import opened Preprocessing
  import opened PreprocessingOnce

  // ---- Sources one behind the other -------------------------------------------------------

  /** Where a walk stops: behind the source, or one line further when its last line is an `endif`
      that closes, which takes the next line with it. */
  function Stop(macros: set<string>, src: seq<Line>, pos: nat): (e: nat)
    requires Walk(macros, src, pos).Some?
    ensures e >= pos
    decreases |src| - pos
  {
    if pos >= |src| then pos
    else if src[pos].Ifdef? then Stop(macros, src, WalkIfdef(macros, src, pos + 1, src[pos].macro in macros).value.1 + 1)
    else Stop(macros, src, pos + 1)
  }

  /** Free of errors, no `ifdef` is left open, and nothing behind it is lost. */
  predicate Whole(macros: set<string>, src: seq<Line>) {
    Walk(macros, src, 0).Some? && Stop(macros, src, 0) == |src|
  }

  /** A branch that ends is not influenced by what comes later. */
  lemma {:induction false} IfdefAhead(macros: set<string>, a: seq<Line>, b: seq<Line>, pos: nat, emit: bool)
    requires WalkIfdef(macros, a, pos, emit).Some?
    ensures WalkIfdef(macros, a + b, pos, emit) == WalkIfdef(macros, a, pos, emit) && WalkIfdef(macros, a, pos, emit).value.1 <= |a|
    decreases |a| - pos, 1
  {
    assert (a + b)[pos] == a[pos];
    if a[pos].Ifdef? && emit {
      NestedAhead(macros, a, b, pos);
    } else if !a[pos].Endif? {
      IfdefAhead(macros, a, b, pos + 1, if a[pos].ElseLine? then !emit else emit);
    }
  }

  lemma {:induction false} NestedAhead(macros: set<string>, a: seq<Line>, b: seq<Line>, pos: nat)
    requires pos < |a| && a[pos].Ifdef? && WalkIfdef(macros, a, pos, true).Some?
    ensures WalkIfdef(macros, a + b, pos, true) == WalkIfdef(macros, a, pos, true) && WalkIfdef(macros, a, pos, true).value.1 <= |a|
    decreases |a| - pos, 0
  {
    assert (a + b)[pos] == a[pos];
    IfdefAhead(macros, a, b, pos + 1, a[pos].macro in macros);
    IfdefAhead(macros, a, b, WalkIfdef(macros, a, pos + 1, a[pos].macro in macros).value.1 + 1, true);
  }

  lemma {:induction false} WalkAhead(macros: set<string>, a: seq<Line>, b: seq<Line>, pos: nat)
    requires pos <= |a| + 1 && Walk(macros, a, pos).Some?
    ensures Stop(macros, a, pos) == |a| || Stop(macros, a, pos) == |a| + 1
    ensures var rest := Walk(macros, a + b, Stop(macros, a, pos));
      Walk(macros, a + b, pos) == if rest.None? then None else Some(Walk(macros, a, pos).value + rest.value)
    decreases |a| + 1 - pos
  {
    var rest := Walk(macros, a + b, Stop(macros, a, pos));
    if pos < |a| {
      assert (a + b)[pos] == a[pos];
      if a[pos].Ifdef? {
        IfdefAhead(macros, a, b, pos + 1, a[pos].macro in macros);
        var branch := WalkIfdef(macros, a, pos + 1, a[pos].macro in macros).value;
        WalkAhead(macros, a, b, branch.1 + 1);
        if rest.Some? { Regroup(branch.0, Walk(macros, a, branch.1 + 1).value, rest.value); }
      } else {
        WalkAhead(macros, a, b, pos + 1);
        if rest.Some? { Regroup([ActionOf(a[pos])], Walk(macros, a, pos + 1).value, rest.value); }
      }
    } else if rest.Some? {
      assert [] + rest.value == rest.value;
    }
  }

  function ActionOf(l: Line): Action
    requires l.Text? || l.IncludeLine? || l.IncludeOnceLine?
  {
    match l
    case Text(s) => Emit(s)
    case IncludeLine(p) => Include(p)
    case IncludeOnceLine(p) => IncludeOnce(p)
  }

  lemma Regroup<T>(a: seq<T>, b: seq<T>, c: seq<T>)
    ensures a + b + c == a + (b + c)
  {}

  /** Behind a whole source the next one begins as if nothing had come before; behind one that ends
      with an `endif` that closes, it begins with its second line. */
  lemma WalkConcat(macros: set<string>, a: seq<Line>, b: seq<Line>)
    requires Walk(macros, a, 0).Some?
    ensures var rest := Walk(macros, b, if Whole(macros, a) then 0 else 1);
      Walk(macros, a + b, 0) == if rest.None? then None else Some(Walk(macros, a, 0).value + rest.value)
  {
    WalkAhead(macros, a, b, 0);
    WalkBehind(macros, a, b, Stop(macros, a, 0) - |a|);
  }

  /** Handling two sources one behind the other. */
  lemma HandleConcat(files: Files, macros: set<string>, st: State, a: seq<Line>, b: seq<Line>)
    requires st.nesting < MAX_NESTING && Whole(macros, a)
    ensures Handle(files, macros, st, a + b) ==
      if Handle(files, macros, st, a).None? then None else Handle(files, macros, Handle(files, macros, st, a).value, b)
  {
    WalkConcat(macros, a, b);
    var acts, rest := Walk(macros, a, 0).value, Walk(macros, b, 0);
    if rest.Some? { PerformConcat(files, macros, st, acts, rest.value); }
  }

  lemma OneLine(macros: set<string>, l: Line)
    requires l.Text? || l.IncludeLine? || l.IncludeOnceLine?
    ensures Whole(macros, [l]) && Walk(macros, [l], 0) == Some([ActionOf(l)])
  {
    assert Walk(macros, [l], 1) == Some([]);
    assert [ActionOf(l)] + [] == [ActionOf(l)];
  }

  lemma HandleOne(files: Files, macros: set<string>, st: State, l: Line)
    requires st.nesting < MAX_NESTING && (l.Text? || l.IncludeLine? || l.IncludeOnceLine?)
    ensures Handle(files, macros, st, [l]) == PerformOne(files, macros, st, ActionOf(l))
  {
    OneLine(macros, l);
    var acts := [ActionOf(l)];
    assert acts[1..] == [];
    assert Handle(files, macros, st, [l]) == Perform(files, macros, st, acts);
    var st1 := PerformOne(files, macros, st, acts[0]);
    if st1.Some? { assert Perform(files, macros, st1.value, []) == st1; }
    hide Walk, PerformOne, Handle;
  }

  lemma {:induction false} TextWalk(macros: set<string>, ls: seq<Line>, pos: nat)
    requires TextOnly(ls) && pos <= |ls|
    ensures Walk(macros, ls, pos) == Some(Emits(ls[pos..])) && Stop(macros, ls, pos) == |ls|
    decreases |ls| - pos
  {
    if pos < |ls| {
      TextWalk(macros, ls, pos + 1);
      assert ls[pos] in ls && ls[pos..][1..] == ls[pos + 1..];
    }
  }

  /** Text is emitted as it stands. */
  lemma TextHandled(files: Files, macros: set<string>, st: State, ls: seq<Line>)
    requires st.nesting < MAX_NESTING && TextOnly(ls)
    ensures Whole(macros, ls) && Handle(files, macros, st, ls) == Some(st.(dst := st.dst + Texts(ls)))
  {
    TextWalk(macros, ls, 0);
    assert ls[0..] == ls;
    TextPerformed(files, macros, st, ls);
  }

  lemma {:induction false} TextPerformed(files: Files, macros: set<string>, st: State, ls: seq<Line>)
    requires st.nesting < MAX_NESTING && TextOnly(ls)
    ensures Perform(files, macros, st, Emits(ls)) == Some(st.(dst := st.dst + Texts(ls)))
    decreases |ls|
  {
    if ls == [] {
      assert st.dst + [] == st.dst;
    } else {
      EmitsFirst(files, macros, st, ls);
      hide Perform, Emits;
      TextPerformed(files, macros, st.(dst := st.dst + [ls[0].text]), ls[1..]);
      assert st.dst + [ls[0].text] + Texts(ls[1..]) == st.dst + Texts(ls);
    }
  }

  lemma EmitsFirst(files: Files, macros: set<string>, st: State, ls: seq<Line>)
    requires st.nesting < MAX_NESTING && TextOnly(ls) && ls != []
    ensures Perform(files, macros, st, Emits(ls)) == Perform(files, macros, st.(dst := st.dst + [ls[0].text]), Emits(ls[1..]))
  {
    assert Emits(ls)[0] == Emit(ls[0].text) && Emits(ls)[1..] == Emits(ls[1..]);
    hide Emits, Expand;
  }

  function Texts(ls: seq<Line>): (r: seq<string>)
    requires TextOnly(ls)
    ensures |r| == |ls| && forall i :: 0 <= i < |ls| ==> r[i] == ls[i].text
  {
    if ls == [] then [] else [ls[0].text] + Texts(ls[1..])
  }

  // ---- Branches ---------------------------------------------------------------------------

  /** Some actions, and then what is left of the branch. */
  function Before(acts: seq<Action>, rest: Option<(seq<Action>, nat)>): Option<(seq<Action>, nat)> {
    if rest.None? then None else Some((acts + rest.value.0, rest.value.1))
  }

  /** In the branch that is taken, a whole source does what it does outside. */
  lemma {:induction false} TakenLines(macros: set<string>, pre: seq<Line>, ls: seq<Line>, post: seq<Line>, k: nat)
    requires k <= |ls| && Walk(macros, ls, k).Some? && Stop(macros, ls, k) == |ls|
    ensures WalkIfdef(macros, pre + (ls + post), |pre| + k, true) ==
      Before(Walk(macros, ls, k).value, WalkIfdef(macros, pre + (ls + post), |pre| + |ls|, true))
    decreases |ls| - k
  {
    var src := pre + (ls + post);
    var rest := WalkIfdef(macros, src, |pre| + |ls|, true);
    if k == |ls| {
      if rest.Some? { assert [] + rest.value.0 == rest.value.0; }
    } else {
      assert src[|pre| + k] == ls[k];
      if ls[k].Ifdef? {
        TakenNested(macros, pre, ls, post, k);
        var inner := WalkIfdef(macros, ls, k + 1, ls[k].macro in macros).value;
        TakenLines(macros, pre, ls, post, inner.1 + 1);
        if rest.Some? { Regroup(inner.0, Walk(macros, ls, inner.1 + 1).value, rest.value.0); }
      } else {
        TakenLines(macros, pre, ls, post, k + 1);
        if rest.Some? { Regroup([ActionOf(ls[k])], Walk(macros, ls, k + 1).value, rest.value.0); }
      }
    }
  }

  lemma TakenNested(macros: set<string>, pre: seq<Line>, ls: seq<Line>, post: seq<Line>, k: nat)
    requires k < |ls| && ls[k].Ifdef? && WalkIfdef(macros, ls, k + 1, ls[k].macro in macros).Some?
    ensures var inner := WalkIfdef(macros, ls, k + 1, ls[k].macro in macros).value;
      inner.1 <= |ls| && WalkIfdef(macros, pre + (ls + post), |pre| + k, true) ==
        Before(inner.0, WalkIfdef(macros, pre + (ls + post), |pre| + (inner.1 + 1), true))
  {
    var emit := ls[k].macro in macros;
    assert (pre + (ls + post))[|pre| + k] == ls[k];
    IfdefAhead(macros, ls, post, k + 1, emit);
    WalkIfdefBehind(macros, pre, ls + post, k + 1, emit);
  }

  predicate NoEnds(ls: seq<Line>) {
    forall l <- ls :: !l.ElseLine? && !l.Endif?
  }

  /** The lines of text among `ls`. */
  function TextLines(ls: seq<Line>): (r: seq<Line>)
    ensures TextOnly(r)
  {
    if ls == [] then [] else (if ls[0].Text? then [ls[0]] else []) + TextLines(ls[1..])
  }

  /** In the branch that is not taken, text comes out and every directive is passed over, faulty
      ones and further `ifdef`s included. */
  lemma {:induction false} UntakenLines(macros: set<string>, src: seq<Line>, pos: nat, ls: seq<Line>)
    requires NoEnds(ls) && pos + |ls| <= |src| && src[pos..pos + |ls|] == ls
    ensures WalkIfdef(macros, src, pos, false) == Before(Emits(TextLines(ls)), WalkIfdef(macros, src, pos + |ls|, false))
    decreases |ls|
  {
    hide WalkIfdef, Emits, TextLines;
    var rest := WalkIfdef(macros, src, pos + |ls|, false);
    if ls == [] {
      NoText();
      if rest.Some? { assert [] + rest.value.0 == rest.value.0; }
    } else {
      assert src[pos] == ls[0] && ls[0] in ls;
      assert src[pos + 1..pos + 1 + |ls[1..]|] == ls[1..];
      UntakenLine(macros, src, pos);
      UntakenLines(macros, src, pos + 1, ls[1..]);
      assert pos + 1 + |ls[1..]| == pos + |ls|;
      TextFirst(ls);
      if ls[0].Text? && rest.Some? { Regroup([Emit(ls[0].text)], Emits(TextLines(ls[1..])), rest.value.0); }
    }
  }

  lemma UntakenLine(macros: set<string>, src: seq<Line>, pos: nat)
    requires pos < |src| && !src[pos].ElseLine? && !src[pos].Endif?
    ensures var next := WalkIfdef(macros, src, pos + 1, false);
      WalkIfdef(macros, src, pos, false) == if src[pos].Text? then Before([Emit(src[pos].text)], next) else next
  {
    var next := WalkIfdef(macros, src, pos + 1, false);
    if next.Some? { assert [] + next.value.0 == next.value.0; }
  }

  lemma NoText()
    ensures Emits(TextLines([])) == []
  {}

  lemma TextFirst(ls: seq<Line>)
    requires ls != []
    ensures Emits(TextLines(ls)) == if ls[0].Text? then [Emit(ls[0].text)] + Emits(TextLines(ls[1..])) else Emits(TextLines(ls[1..]))
  {
    if ls[0].Text? {
      assert TextLines(ls)[0] == ls[0] && TextLines(ls)[1..] == TextLines(ls[1..]);
    } else {
      assert TextLines(ls) == TextLines(ls[1..]);
    }
  }

  /** Both branches of an `ifdef`: the one that is taken does what its lines do outside, of the
      other one the text comes out, and the line behind the `endif` is lost. */
  lemma IfdefExactly(macros: set<string>, m: string, a: seq<Line>, b: seq<Line>, lost: Line, rest: seq<Line>)
    requires if m in macros then Whole(macros, a) && NoEnds(b) else NoEnds(a) && Whole(macros, b)
    ensures var src := [Ifdef(m)] + (a + ([ElseLine] + (b + ([Endif, lost] + rest)))); var next := Walk(macros, rest, 0);
      Walk(macros, src, 0) ==
        if next.None? then None
        else if m in macros then Some(Walk(macros, a, 0).value + Emits(TextLines(b)) + next.value)
        else Some(Emits(TextLines(a)) + Walk(macros, b, 0).value + next.value)
  {
    hide *;
    IfdefShape(m, a, b, lost, rest);
    var end := [Endif, lost] + rest;
    var src := [Ifdef(m)] + (a + ([ElseLine] + (b + end)));
    var p, n := 1 + |a|, |a| + |b| + 2;
    if m in macros { TakenFirst(macros, src, a, b, p, p + 1, n); } else { TakenSecond(macros, src, a, b, p, p + 1, n); }
    WalkBranch(macros, src, m);
    WalkBehind(macros, [Ifdef(m)] + a + [ElseLine] + b + [Endif, lost], rest, 0);
  }

  lemma IfdefShape(m: string, a: seq<Line>, b: seq<Line>, lost: Line, rest: seq<Line>)
    ensures var src := [Ifdef(m)] + (a + ([ElseLine] + (b + ([Endif, lost] + rest)))); var before := [Ifdef(m)] + a + [ElseLine] + b + [Endif, lost];
      src == before + rest && |before| == |a| + |b| + 4
    ensures var src := [Ifdef(m)] + (a + ([ElseLine] + (b + ([Endif, lost] + rest)))); var p, n := 1 + |a|, |a| + |b| + 2;
      |src| > n && src[0] == Ifdef(m) && src[p] == ElseLine && src[n] == Endif && src[1..p] == a && src[p + 1..n] == b
  {}

  lemma TakenSlice(macros: set<string>, src: seq<Line>, pos: nat, ls: seq<Line>)
    requires Whole(macros, ls) && pos + |ls| <= |src| && src[pos..pos + |ls|] == ls
    ensures WalkIfdef(macros, src, pos, true) == Before(Walk(macros, ls, 0).value, WalkIfdef(macros, src, pos + |ls|, true))
  {
    var pre, post := src[..pos], src[pos + |ls|..];
    assert src == pre + (ls + post);
    hide WalkIfdef;
    TakenLines(macros, pre, ls, post, 0);
  }

  lemma AtEnd(macros: set<string>, src: seq<Line>, pos: nat, emit: bool, acts: seq<Action>)
    requires pos < |src| && src[pos] == Endif
    ensures Before(acts, WalkIfdef(macros, src, pos, emit)) == Some((acts, pos + 1))
  {
    assert acts + [] == acts;
  }

  lemma AtElse(macros: set<string>, src: seq<Line>, pos: nat, emit: bool)
    requires pos < |src| && src[pos] == ElseLine
    ensures WalkIfdef(macros, src, pos, emit) == WalkIfdef(macros, src, pos + 1, !emit)
  {}

  lemma TakenFirst(macros: set<string>, src: seq<Line>, a: seq<Line>, b: seq<Line>, p: nat, q: nat, n: nat)
    requires p == 1 + |a| && q == p + 1 && n == q + |b| && n < |src| && src[p] == ElseLine && src[n] == Endif
    requires src[1..p] == a && src[q..n] == b && Whole(macros, a) && NoEnds(b)
    ensures WalkIfdef(macros, src, 1, true) == Some((Walk(macros, a, 0).value + Emits(TextLines(b)), n + 1))
  {
    assert Walk(macros, a, 0).Some?;
    hide *;
    var first, second := Walk(macros, a, 0).value, Emits(TextLines(b));
    TakenSlice(macros, src, 1, a);
    AtElse(macros, src, p, true);
    UntakenLines(macros, src, q, b);
    AtEnd(macros, src, n, false, second);
    Joined(first, second, n + 1);
  }

  lemma TakenSecond(macros: set<string>, src: seq<Line>, a: seq<Line>, b: seq<Line>, p: nat, q: nat, n: nat)
    requires p == 1 + |a| && q == p + 1 && n == q + |b| && n < |src| && src[p] == ElseLine && src[n] == Endif
    requires src[1..p] == a && src[q..n] == b && NoEnds(a) && Whole(macros, b)
    ensures WalkIfdef(macros, src, 1, false) == Some((Emits(TextLines(a)) + Walk(macros, b, 0).value, n + 1))
  {
    assert Walk(macros, b, 0).Some?;
    hide *;
    var first, second := Emits(TextLines(a)), Walk(macros, b, 0).value;
    UntakenLines(macros, src, 1, a);
    AtElse(macros, src, p, false);
    TakenSlice(macros, src, q, b);
    AtEnd(macros, src, n, true, second);
    Joined(first, second, n + 1);
  }

  lemma Joined(a: seq<Action>, b: seq<Action>, n: nat)
    ensures Before(a, Some((b, n))) == Some((a + b, n))
  {}

  // ---- Inclusions -------------------------------------------------------------------------

  /** What succeeds one level deeper does the same here. */
  lemma {:induction false} Shallower(files: Files, macros: set<string>, st: State, acts: seq<Action>)
    requires st.nesting + 1 < MAX_NESTING && Perform(files, macros, st.(nesting := st.nesting + 1), acts).Some?
    ensures Perform(files, macros, st, acts) ==
      Some(Perform(files, macros, st.(nesting := st.nesting + 1), acts).value.(nesting := st.nesting))
    decreases MAX_NESTING - st.nesting, 1, |acts|
  {
    if acts != [] {
      var deep := st.(nesting := st.nesting + 1);
      var a := acts[0];
      if a.Include? {
        ShallowerFile(files, macros, st, a.path);
      } else if a.IncludeOnce? && a.path !in st.registered {
        ShallowerFile(files, macros, st.(log := st.log + [a.path]), a.path);
      }
      var st1 := PerformOne(files, macros, st, a).value;
      assert PerformOne(files, macros, deep, a).value == st1.(nesting := st.nesting + 1);
      Shallower(files, macros, st1, acts[1..]);
    }
  }

  lemma {:induction false} ShallowerFile(files: Files, macros: set<string>, st: State, p: Path)
    requires st.nesting + 1 < MAX_NESTING && Expand(files, macros, st.(nesting := st.nesting + 1), p).Some?
    ensures Expand(files, macros, st, p) ==
      Some(Expand(files, macros, st.(nesting := st.nesting + 1), p).value.(nesting := st.nesting))
    decreases MAX_NESTING - st.nesting, 0
  {
    Shallower(files, macros, st.(nesting := st.nesting + 1), Walk(macros, files[p], 0).value);
  }

  /** Expanding a file does what its lines do in place, in every state: whenever it succeeds, and
      with enough levels left also when it does not. */
  lemma ExpandInPlace(files: Files, macros: set<string>, st: State, p: Path)
    requires st.nesting < MAX_NESTING && p in files
    ensures Expand(files, macros, st, p).Some? ==> Handle(files, macros, st, files[p]) == Expand(files, macros, st, p)
    ensures st.nesting + |files| < MAX_NESTING ==> Handle(files, macros, st, files[p]) == Expand(files, macros, st, p)
  {
    if Expand(files, macros, st, p).Some? {
      assert Handle(files, macros, st.(nesting := st.nesting + 1), files[p]).Some?;
      Shallower(files, macros, st, Walk(macros, files[p], 0).value);
    } else if st.nesting + |files| < MAX_NESTING && Handle(files, macros, st, files[p]).Some? {
      var acts := Walk(macros, files[p], 0).value;
      PerformFounded(files, macros, st.registered, st, acts);
      var n := CommonDepth(files, macros, st.registered, acts);
      EnoughLevels(files, macros, st.registered, p, n + 1);
      DeepExpands(files, macros, st.registered, st, p, |files|);
    }
  }

  /** The splicing law. An inclusion outside any `ifdef` does what the lines of the file do in its
      place: the same output, registrations and errors. */
  lemma Splicing(files: Files, macros: set<string>, st: State, a: seq<Line>, p: Path, b: seq<Line>)
    requires st.nesting < MAX_NESTING && Whole(macros, a) && p in files && Whole(macros, files[p])
    ensures Handle(files, macros, st, a + [IncludeLine(p)] + b).Some? || st.nesting + |files| < MAX_NESTING ==>
      Handle(files, macros, st, a + [IncludeLine(p)] + b) == Handle(files, macros, st, a + files[p] + b)
  {
    hide Walk, Whole, Handle, Expand;
    ThreeParts(files, macros, st, a, [IncludeLine(p)], b) by { OneLine(macros, IncludeLine(p)); }
    ThreeParts(files, macros, st, a, files[p], b);
    var r := Handle(files, macros, st, a);
    if r.Some? {
      HandleOne(files, macros, r.value, IncludeLine(p));
      ExpandInPlace(files, macros, r.value, p);
    }
  }

  lemma ThreeParts(files: Files, macros: set<string>, st: State, a: seq<Line>, x: seq<Line>, b: seq<Line>)
    requires st.nesting < MAX_NESTING && Whole(macros, a) && Whole(macros, x)
    ensures var r := Handle(files, macros, st, a); r.Some? ==> r.value.nesting == st.nesting
    ensures var r := Handle(files, macros, st, a);
      Handle(files, macros, st, a + x + b) ==
        if r.None? || Handle(files, macros, r.value, x).None? then None
        else Handle(files, macros, Handle(files, macros, r.value, x).value, b)
  {
    assert Handle(files, macros, st, a).Some? ==> Handle(files, macros, st, a).value.nesting == st.nesting;
    hide Walk, Handle;
    assert a + x + b == a + (x + b);
    HandleConcat(files, macros, st, a, x + b);
    var r := Handle(files, macros, st, a);
    if r.Some? { HandleConcat(files, macros, r.value, x, b); }
  }

  // ---- Inclusions that happen once --------------------------------------------------------

  /** More output and more expansions in front. */
  function Behind(d: seq<string>, l: seq<Path>, st: State): State {
    st.(dst := d + st.dst, log := l + st.log)
  }

  function BehindOption(d: seq<string>, l: seq<Path>, r: Option<State>): Option<State> {
    if r.None? then None else Some(Behind(d, l, r.value))
  }

  /** What was written and logged before has no influence, and stays in front. */
  lemma {:induction false} OutputAppended(files: Files, macros: set<string>, d: seq<string>, l: seq<Path>, st: State, acts: seq<Action>)
    requires st.nesting < MAX_NESTING
    ensures Perform(files, macros, Behind(d, l, st), acts) == BehindOption(d, l, Perform(files, macros, st, acts))
    decreases MAX_NESTING - st.nesting, 2, |acts|
  {
    if acts != [] {
      OneAppended(files, macros, d, l, st, acts[0]);
      var st1 := PerformOne(files, macros, st, acts[0]);
      hide PerformOne;
      if st1.Some? { OutputAppended(files, macros, d, l, st1.value, acts[1..]); }
    }
  }

  lemma {:induction false} OneAppended(files: Files, macros: set<string>, d: seq<string>, l: seq<Path>, st: State, a: Action)
    requires st.nesting < MAX_NESTING
    ensures PerformOne(files, macros, Behind(d, l, st), a) == BehindOption(d, l, PerformOne(files, macros, st, a))
    decreases MAX_NESTING - st.nesting, 1
  {
    match a
    case Emit(s) => assert d + st.dst + [s] == d + (st.dst + [s]);
    case Include(p) => FileAppended(files, macros, d, l, st, p);
    case IncludeOnce(p) =>
      assert l + st.log + [p] == l + (st.log + [p]);
      FileAppended(files, macros, d, l, st.(log := st.log + [p]), p);
  }

  lemma {:induction false} FileAppended(files: Files, macros: set<string>, d: seq<string>, l: seq<Path>, st: State, p: Path)
    requires st.nesting < MAX_NESTING
    ensures Expand(files, macros, Behind(d, l, st), p) == BehindOption(d, l, Expand(files, macros, st, p))
    decreases MAX_NESTING - st.nesting, 0
  {
    var deep := st.(nesting := st.nesting + 1);
    if p in files && deep.nesting < MAX_NESTING && Walk(macros, files[p], 0).Some? {
      OutputAppended(files, macros, d, l, deep, Walk(macros, files[p], 0).value);
    }
  }

  /** A path that is registered is not expanded again: the line has no effect. */
  lemma OnceLater(files: Files, macros: set<string>, st: State, a: seq<Line>, p: Path, b: seq<Line>)
    requires st.nesting < MAX_NESTING && Whole(macros, a)
    requires Handle(files, macros, st, a).Some? ==> p in Handle(files, macros, st, a).value.registered
    ensures Handle(files, macros, st, a + [IncludeOnceLine(p)] + b) == Handle(files, macros, st, a + b)
  {
    hide Walk, Whole, Handle, Expand;
    ThreeParts(files, macros, st, a, [IncludeOnceLine(p)], b) by { OneLine(macros, IncludeOnceLine(p)); }
    HandleConcat(files, macros, st, a, b);
    var r := Handle(files, macros, st, a);
    if r.Some? { HandleOne(files, macros, r.value, IncludeOnceLine(p)); }
  }

  /** The first time, the output is that of the lines of the file in place; besides, the path is
      registered and logged. */
  lemma OnceFirst(files: Files, macros: set<string>, st: State, a: seq<Line>, p: Path)
    requires st.nesting < MAX_NESTING && Whole(macros, a) && p in files
    requires Handle(files, macros, st, a).Some? && p !in Handle(files, macros, st, a).value.registered
    ensures Handle(files, macros, st, a + [IncludeOnceLine(p)]).Some? || st.nesting + |files| < MAX_NESTING ==>
      var once, plain := Handle(files, macros, st, a + [IncludeOnceLine(p)]), Handle(files, macros, st, a + files[p]);
      if once.None? then plain.None?
      else plain.Some? && once.value.dst == plain.value.dst && once.value.registered == plain.value.registered + {p}
  {
    hide Walk, Whole, Handle, Expand;
    HandleConcat(files, macros, st, a, [IncludeOnceLine(p)]);
    HandleConcat(files, macros, st, a, files[p]);
    HandleNesting(files, macros, st, a);
    var r := Handle(files, macros, st, a).value;
    HandleOne(files, macros, r, IncludeOnceLine(p));
    ExpandInPlace(files, macros, r, p);
    var bare := r.(log := []);
    FileAppended(files, macros, [], r.log, bare, p);
    FileAppended(files, macros, [], r.log + [p], bare, p);
    assert Behind([], r.log, bare) == r && Behind([], r.log + [p], bare) == r.(log := r.log + [p]);
  }

  lemma HandleNesting(files: Files, macros: set<string>, st: State, a: seq<Line>)
    requires st.nesting < MAX_NESTING && Handle(files, macros, st, a).Some?
    ensures Handle(files, macros, st, a).value.nesting == st.nesting
  {}

  /** Of two lines that include the same path once, the second one has no effect, whatever stands
      between them. */
  lemma OnceTwice(files: Files, macros: set<string>, st: State, a: seq<Line>, p: Path, b: seq<Line>, c: seq<Line>)
    requires st.nesting < MAX_NESTING && Whole(macros, a) && Whole(macros, b)
    ensures Handle(files, macros, st, a + [IncludeOnceLine(p)] + (b + [IncludeOnceLine(p)] + c)) ==
      Handle(files, macros, st, a + [IncludeOnceLine(p)] + (b + c))
  {
    hide Walk, Whole, Handle, Expand;
    var x := [IncludeOnceLine(p)];
    OneLine(macros, x[0]);
    ThreeParts(files, macros, st, a, x, b + x + c);
    ThreeParts(files, macros, st, a, x, b + c);
    var r := Handle(files, macros, st, a);
    if r.Some? {
      HandleOne(files, macros, r.value, x[0]);
      var s := Handle(files, macros, r.value, x);
      if s.Some? {
        OnceRegisters(files, macros, r.value, p);
        HandleNesting(files, macros, r.value, x);
        if Handle(files, macros, s.value, b).Some? { HandleRegistered(files, macros, s.value, b); }
        OnceLater(files, macros, s.value, b, p, c);
      }
    }
  }

  lemma OnceRegisters(files: Files, macros: set<string>, st: State, p: Path)
    requires st.nesting < MAX_NESTING && PerformOne(files, macros, st, IncludeOnce(p)).Some?
    ensures p in PerformOne(files, macros, st, IncludeOnce(p)).value.registered
  {}

  lemma HandleRegistered(files: Files, macros: set<string>, st: State, a: seq<Line>)
    requires st.nesting < MAX_NESTING && Handle(files, macros, st, a).Some?
    ensures st.registered <= Handle(files, macros, st, a).value.registered
  {}
}
