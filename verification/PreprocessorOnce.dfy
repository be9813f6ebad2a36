/** `include_once` expands a path at most once in any successful run, although the path is
    registered only after its expansion. */
module PreprocessingOnce {
  import opened Ast
  import opened Preprocessing
  import opened Sequences

  /** A file whose expansion is in progress, and how it was entered. */
  datatype Frame = Frame(path: Path, once: bool)

  function Entering(f: Frame): Action {
    if f.once then IncludeOnce(f.path) else Include(f.path)
  }

  /** What the file at the end of the chain does; anything, when there is none. */
  ghost predicate Does(files: Files, macros: set<string>, chain: seq<Frame>, a: Action) {
    chain == [] || DoesFile(files, macros, chain[|chain| - 1].path, a)
  }

  ghost predicate DoesFile(files: Files, macros: set<string>, p: Path, a: Action) {
    p in files && Walk(macros, files[p], 0).Some? && a in Walk(macros, files[p], 0).value
  }

  /** Each file in progress was entered by an action of the one before it. */
  ghost predicate Linked(files: Files, macros: set<string>, chain: seq<Frame>) {
    forall i :: 0 < i < |chain| ==> DoesFile(files, macros, chain[i - 1].path, Entering(chain[i]))
  }

  ghost predicate InProgress(chain: seq<Frame>, p: Path) {
    exists i :: 0 <= i < |chain| && chain[i] == Frame(p, true)
  }

  /** The expansions so far are of different paths, each complete and registered or in progress
      and not registered. */
  ghost predicate Orderly(st: State, chain: seq<Frame>) {
    && Distinct(st.log)
    && (forall p :: p in st.log ==> p in st.registered || InProgress(chain, p))
    && (forall p :: InProgress(chain, p) ==> p !in st.registered)
  }

  /** The files from frame `i` on, and those of them that were entered by `include_once`, among
      which is `p`. */
  function Loop(chain: seq<Frame>, i: nat): set<Path>
    requires i <= |chain|
  {
    set j | i <= j < |chain| :: chain[j].path
  }

  function LoopOnce(chain: seq<Frame>, i: nat): set<Path>
    requires i <= |chain|
  {
    set j | i <= j < |chain| && chain[j].once :: chain[j].path
  }

  lemma LoopIsCyclic(files: Files, macros: set<string>, chain: seq<Frame>, i: nat, p: Path)
    requires i < |chain| && chain[i] == Frame(p, true) && Linked(files, macros, chain)
    requires Does(files, macros, chain, IncludeOnce(p))
    ensures Cyclic(files, macros, Loop(chain, i), LoopOnce(chain, i))
  {
    var s, t := Loop(chain, i), LoopOnce(chain, i);
    forall q | q in s && q in files && Walk(macros, files[q], 0).Some?
      ensures exists a :: a in Walk(macros, files[q], 0).value && Enters(a, s, t)
    {
      var j :| i <= j < |chain| && chain[j].path == q;
      if j + 1 < |chain| {
        var next := chain[j + 1];
        assert DoesFile(files, macros, chain[j + 1 - 1].path, Entering(next));
        assert next.path in s && (next.once ==> next.path in t);
        assert Enters(Entering(next), s, t);
      } else {
        assert p in t;
        assert Enters(IncludeOnce(p), s, t);
      }
    }
  }

  /** A path in progress is not begun again by a run that succeeds. */
  lemma NotBegunAgain(files: Files, macros: set<string>, st: State, chain: seq<Frame>, p: Path)
    requires st.nesting < MAX_NESTING && Linked(files, macros, chain) && Does(files, macros, chain, IncludeOnce(p))
    requires Orderly(st, chain) && Expand(files, macros, st.(log := st.log + [p]), p).Some?
    ensures !InProgress(chain, p)
  {
    if InProgress(chain, p) {
      var i :| 0 <= i < |chain| && chain[i] == Frame(p, true);
      LoopIsCyclic(files, macros, chain, i, p);
      forall q | q in LoopOnce(chain, i) ensures q !in st.registered {
        var j :| i <= j < |chain| && chain[j].once && chain[j].path == q;
        assert chain[j] == Frame(q, true);
      }
      CycleFails(files, macros, Loop(chain, i), LoopOnce(chain, i), st.(log := st.log + [p]), p);
    }
  }

  lemma InProgressPush(chain: seq<Frame>, f: Frame, p: Path)
    ensures InProgress(chain + [f], p) <==> InProgress(chain, p) || f == Frame(p, true)
  {
    var longer := chain + [f];
    if InProgress(chain, p) {
      var i :| 0 <= i < |chain| && chain[i] == Frame(p, true);
      assert longer[i] == Frame(p, true);
    }
    if f == Frame(p, true) { assert longer[|chain|] == f; }
  }

  // ---- The run ----------------------------------------------------------------------------

  lemma {:induction false} PerformOrderly(files: Files, macros: set<string>, st: State, acts: seq<Action>, chain: seq<Frame>)
    requires st.nesting < MAX_NESTING && Linked(files, macros, chain) && Orderly(st, chain)
    requires forall a :: a in acts ==> Does(files, macros, chain, a)
    requires Perform(files, macros, st, acts).Some?
    ensures Orderly(Perform(files, macros, st, acts).value, chain)
    decreases MAX_NESTING - st.nesting, 2, |acts|
  {
    if acts != [] {
      PerformOneOrderly(files, macros, st, acts[0], chain);
      PerformOrderly(files, macros, PerformOne(files, macros, st, acts[0]).value, acts[1..], chain);
    }
  }

  lemma {:induction false} PerformOneOrderly(files: Files, macros: set<string>, st: State, a: Action, chain: seq<Frame>)
    requires st.nesting < MAX_NESTING && Linked(files, macros, chain) && Orderly(st, chain)
    requires Does(files, macros, chain, a) && PerformOne(files, macros, st, a).Some?
    ensures Orderly(PerformOne(files, macros, st, a).value, chain)
    decreases MAX_NESTING - st.nesting, 1
  {
    match a
    case Emit(_) =>
    case Include(p) =>
      forall q ensures InProgress(chain + [Frame(p, false)], q) <==> InProgress(chain, q) { InProgressPush(chain, Frame(p, false), q); }
      ExpandOrderly(files, macros, st, p, chain, false);
    case IncludeOnce(p) =>
      if p !in st.registered {
        NotBegunAgain(files, macros, st, chain, p);
        forall q ensures InProgress(chain + [Frame(p, true)], q) <==> InProgress(chain, q) || q == p { InProgressPush(chain, Frame(p, true), q); }
        hide InProgress;
        ExpandOrderly(files, macros, st.(log := st.log + [p]), p, chain, true);
      }
  }

  lemma {:induction false} ExpandOrderly(files: Files, macros: set<string>, st: State, p: Path, chain: seq<Frame>, once: bool)
    requires st.nesting < MAX_NESTING && Linked(files, macros, chain) && Orderly(st, chain + [Frame(p, once)])
    requires Does(files, macros, chain, Entering(Frame(p, once))) && Expand(files, macros, st, p).Some?
    ensures Orderly(Expand(files, macros, st, p).value, chain + [Frame(p, once)])
    decreases MAX_NESTING - st.nesting, 0
  {
    var longer := chain + [Frame(p, once)];
    forall i | 0 < i < |longer| ensures DoesFile(files, macros, longer[i - 1].path, Entering(longer[i])) {
      if i < |chain| { assert DoesFile(files, macros, chain[i - 1].path, Entering(chain[i])); }
    }
    PerformOrderly(files, macros, st.(nesting := st.nesting + 1), Walk(macros, files[p], 0).value, longer);
  }

  /** In every run that succeeds, `include_once` expands each path at most once, and what it
      expanded is what is registered in the end. */
  lemma OnceAtMost(files: Files, macros: set<string>, src: seq<Line>)
    requires Preprocess(files, macros, src).Some?
    ensures var st := Preprocess(files, macros, src).value;
      Distinct(st.log) && (forall p :: p in st.log <==> p in st.registered) && st.nesting == 0
  {
    PerformOrderly(files, macros, START, Walk(macros, src, 0).value, []);
    RegisteredLogged(files, macros, START, Walk(macros, src, 0).value);
  }

  lemma {:induction false} RegisteredLogged(files: Files, macros: set<string>, st: State, acts: seq<Action>)
    requires st.nesting < MAX_NESTING && Perform(files, macros, st, acts).Some?
    requires forall p :: p in st.registered ==> p in st.log
    ensures var r := Perform(files, macros, st, acts).value; forall p :: p in r.registered ==> p in r.log
    decreases MAX_NESTING - st.nesting, 2, |acts|
  {
    if acts != [] {
      var a := acts[0];
      var st1 := PerformOne(files, macros, st, a).value;
      match a {
        case Emit(_) =>
        case Include(p) => ExpandLogged(files, macros, st, p);
        case IncludeOnce(p) => if p !in st.registered { ExpandLogged(files, macros, st.(log := st.log + [p]), p); }
      }
      if a.IncludeOnce? && a.path !in st.registered {
        assert (st.log + [a.path])[|st.log|] == a.path;
        assert st.log + [a.path] <= st1.log;
      }
      assert forall p :: p in st1.registered ==> p in st1.log;
      RegisteredLogged(files, macros, st1, acts[1..]);
    }
  }

  lemma {:induction false} ExpandLogged(files: Files, macros: set<string>, st: State, p: Path)
    requires st.nesting < MAX_NESTING && Expand(files, macros, st, p).Some?
    requires forall q :: q in st.registered ==> q in st.log
    ensures var r := Expand(files, macros, st, p).value; forall q :: q in r.registered ==> q in r.log
    decreases MAX_NESTING - st.nesting, 1
  {
    RegisteredLogged(files, macros, st.(nesting := st.nesting + 1), Walk(macros, files[p], 0).value);
  }

  // ---- Branches ---------------------------------------------------------------------------

  predicate TextOnly(ls: seq<Line>) {
    forall l <- ls :: l.Text?
  }

  function Emits(ls: seq<Line>): seq<Action>
    requires TextOnly(ls)
  {
    if ls == [] then [] else [Emit(ls[0].text)] + Emits(ls[1..])
  }

  /** Lines of text inside an `ifdef`, taken or not. */
  lemma {:induction false} BranchLines(macros: set<string>, src: seq<Line>, pos: nat, ls: seq<Line>, emit: bool)
    requires TextOnly(ls) && pos + |ls| <= |src| && src[pos..pos + |ls|] == ls
    ensures var rest := WalkIfdef(macros, src, pos + |ls|, emit);
      WalkIfdef(macros, src, pos, emit) == if rest.None? then None else Some((Emits(ls) + rest.value.0, rest.value.1))
    decreases |ls|
  {
    if ls == [] {
      assert forall acts :: Emits(ls) + acts == acts;
    } else {
      assert src[pos] == ls[0];
      assert src[pos + 1..pos + 1 + |ls[1..]|] == ls[1..];
      BranchLines(macros, src, pos + 1, ls[1..], emit);
      var rest := WalkIfdef(macros, src, pos + |ls|, emit);
      if rest.Some? { assert [Emit(ls[0].text)] + (Emits(ls[1..]) + rest.value.0) == Emits(ls) + rest.value.0; }
    }
  }

  /** What comes before has no influence. */
  lemma {:induction false} WalkBehind(macros: set<string>, before: seq<Line>, src: seq<Line>, pos: nat)
    ensures Walk(macros, before + src, |before| + pos) == Walk(macros, src, pos)
    decreases |src| - pos
  {
    if pos < |src| {
      assert (before + src)[|before| + pos] == src[pos];
      if src[pos].Ifdef? {
        var emit := src[pos].macro in macros;
        WalkIfdefBehind(macros, before, src, pos + 1, emit);
        var branch := WalkIfdef(macros, src, pos + 1, emit);
        if branch.Some? { WalkBehind(macros, before, src, branch.value.1 + 1); }
      } else {
        WalkBehind(macros, before, src, pos + 1);
      }
    }
  }

  lemma {:induction false} WalkIfdefBehind(macros: set<string>, before: seq<Line>, src: seq<Line>, pos: nat, emit: bool)
    ensures var r := WalkIfdef(macros, src, pos, emit);
      WalkIfdef(macros, before + src, |before| + pos, emit) == if r.None? then None else Some((r.value.0, |before| + r.value.1))
    decreases |src| - pos, 1
  {
    if pos < |src| {
      assert (before + src)[|before| + pos] == src[pos];
      if src[pos].Ifdef? && emit {
        WalkNestedBehind(macros, before, src, pos);
      } else {
        WalkIfdefBehind(macros, before, src, pos + 1, if src[pos].ElseLine? then !emit else emit);
      }
    }
  }

  lemma {:induction false} WalkNestedBehind(macros: set<string>, before: seq<Line>, src: seq<Line>, pos: nat)
    requires pos < |src| && src[pos].Ifdef?
    ensures var r := WalkIfdef(macros, src, pos, true);
      WalkIfdef(macros, before + src, |before| + pos, true) == if r.None? then None else Some((r.value.0, |before| + r.value.1))
    decreases |src| - pos, 0
  {
    assert (before + src)[|before| + pos] == src[pos];
    var inner := WalkIfdef(macros, src, pos + 1, src[pos].macro in macros);
    WalkIfdefBehind(macros, before, src, pos + 1, src[pos].macro in macros);
    if inner.Some? { WalkIfdefBehind(macros, before, src, inner.value.1 + 1, true); }
  }

  lemma BothBranches(macros: set<string>, src: seq<Line>, a: seq<Line>, b: seq<Line>, emit: bool)
    requires TextOnly(a) && TextOnly(b) && |src| >= |a| + |b| + 3
    requires src[1..|a| + 1] == a && src[|a| + 1] == ElseLine && src[|a| + 2..|a| + |b| + 2] == b && src[|a| + |b| + 2] == Endif
    ensures WalkIfdef(macros, src, 1, emit) == Some((Emits(a) + Emits(b), |a| + |b| + 3))
  {
    var n := |a| + |b| + 2;
    assert WalkIfdef(macros, src, n, !emit) == Some(([], n + 1));
    BranchLines(macros, src, |a| + 2, b, !emit);
    assert Emits(b) + [] == Emits(b);
    assert WalkIfdef(macros, src, |a| + 1, emit) == Some((Emits(b), n + 1));
    hide WalkIfdef;
    BranchLines(macros, src, 1, a, emit);
  }

  /** The text of both branches comes out whatever is defined, and the line behind the `endif`
      is lost. */
  lemma BranchText(macros: set<string>, m: string, a: seq<Line>, b: seq<Line>, lost: Line, rest: seq<Line>)
    requires TextOnly(a) && TextOnly(b)
    ensures var src := [Ifdef(m)] + a + [ElseLine] + b + [Endif, lost] + rest;
      Walk(macros, src, 0) ==
        if Walk(macros, rest, 0).None? then None else Some(Emits(a) + Emits(b) + Walk(macros, rest, 0).value)
  {
    hide *;
    var before := [Ifdef(m)] + a + [ElseLine] + b + [Endif, lost];
    BranchParts(m, a, b, lost, rest);
    BranchWalk(macros, m, a, b, before + rest);
    WalkBehind(macros, before, rest, 0);
  }

  lemma BranchParts(m: string, a: seq<Line>, b: seq<Line>, lost: Line, rest: seq<Line>)
    ensures var before := [Ifdef(m)] + a + [ElseLine] + b + [Endif, lost]; var src := before + rest; var n := |a| + |b| + 2;
      && |before| == n + 2 && src[0] == Ifdef(m) && src[|a| + 1] == ElseLine && src[n] == Endif
      && src[1..|a| + 1] == a && src[|a| + 2..n] == b
  {}

  lemma BranchWalk(macros: set<string>, m: string, a: seq<Line>, b: seq<Line>, src: seq<Line>)
    requires TextOnly(a) && TextOnly(b)
    requires var n := |a| + |b| + 2;
      && |src| > n && src[0] == Ifdef(m) && src[|a| + 1] == ElseLine && src[n] == Endif
      && src[1..|a| + 1] == a && src[|a| + 2..n] == b
    ensures var rest := Walk(macros, src, |a| + |b| + 4);
      Walk(macros, src, 0) == if rest.None? then None else Some(Emits(a) + Emits(b) + rest.value)
  {
    hide Walk, WalkIfdef, Emits, TextOnly;
    BothBranches(macros, src, a, b, m in macros);
    WalkBranch(macros, src, m);
  }

  lemma WalkBranch(macros: set<string>, src: seq<Line>, m: string)
    requires src != [] && src[0] == Ifdef(m) && WalkIfdef(macros, src, 1, m in macros).Some?
    ensures var branch := WalkIfdef(macros, src, 1, m in macros).value; var rest := Walk(macros, src, branch.1 + 1);
      Walk(macros, src, 0) == if rest.None? then None else Some(branch.0 + rest.value)
  {
    hide WalkIfdef;
  }

  // ---- Lost lines -------------------------------------------------------------------------

  /** The lines behind the `endif`s that close. */
  function Lost(macros: set<string>, src: seq<Line>, pos: nat): set<nat>
    decreases |src| - pos
  {
    if pos >= |src| then {}
    else
      match src[pos]
      case Ifdef(m) =>
        var branch := WalkIfdef(macros, src, pos + 1, m in macros);
        LostInside(macros, src, pos + 1, m in macros) +
        (if branch.None? then {} else {branch.value.1} + Lost(macros, src, branch.value.1 + 1))
      case _ => Lost(macros, src, pos + 1)
  }

  /** Those of the `ifdef`s inside another one. */
  function LostInside(macros: set<string>, src: seq<Line>, pos: nat, emit: bool): set<nat>
    decreases |src| - pos
  {
    if pos >= |src| then {}
    else
      match src[pos]
      case Endif => {}
      case ElseLine => LostInside(macros, src, pos + 1, !emit)
      case Ifdef(m) =>
        if emit then
          var inner := WalkIfdef(macros, src, pos + 1, m in macros);
          LostInside(macros, src, pos + 1, m in macros) +
          (if inner.None? then {} else {inner.value.1} + LostInside(macros, src, inner.value.1 + 1, emit))
        else LostInside(macros, src, pos + 1, emit)
      case _ => LostInside(macros, src, pos + 1, emit)
  }

  lemma {:induction false} ClosedByEndif(macros: set<string>, src: seq<Line>, pos: nat, emit: bool)
    ensures var r := WalkIfdef(macros, src, pos, emit); r.Some? ==> r.value.1 <= |src| && src[r.value.1 - 1] == Endif
    ensures forall k :: k in LostInside(macros, src, pos, emit) ==> 0 < k <= |src| && src[k - 1] == Endif
    decreases |src| - pos
  {
    if pos < |src| && !src[pos].Endif? {
      if src[pos].Ifdef? && emit {
        var inner := WalkIfdef(macros, src, pos + 1, src[pos].macro in macros);
        ClosedByEndif(macros, src, pos + 1, src[pos].macro in macros);
        if inner.Some? { ClosedByEndif(macros, src, inner.value.1 + 1, emit); }
      } else {
        ClosedByEndif(macros, src, pos + 1, if src[pos].ElseLine? then !emit else emit);
      }
    }
  }

  lemma {:induction false} LostBehindEndif(macros: set<string>, src: seq<Line>, pos: nat)
    ensures forall k :: k in Lost(macros, src, pos) ==> 0 < k <= |src| && src[k - 1] == Endif
    decreases |src| - pos
  {
    if pos < |src| {
      if src[pos].Ifdef? {
        var emit := src[pos].macro in macros;
        ClosedByEndif(macros, src, pos + 1, emit);
        var branch := WalkIfdef(macros, src, pos + 1, emit);
        if branch.Some? { LostBehindEndif(macros, src, branch.value.1 + 1); }
      } else {
        LostBehindEndif(macros, src, pos + 1);
      }
    }
  }

  /** Line `k` has no influence inside an `ifdef` from `pos` on. */
  predicate Unread(macros: set<string>, src: seq<Line>, pos: nat, emit: bool, k: nat) {
    var r := WalkIfdef(macros, src, pos, emit);
    k < pos || k in LostInside(macros, src, pos, emit) || (r.Some? && r.value.1 <= k)
  }

  lemma {:induction false} InsideUnread(macros: set<string>, src: seq<Line>, pos: nat, emit: bool, k: nat, l: Line)
    requires k < |src| && Unread(macros, src, pos, emit, k)
    ensures WalkIfdef(macros, src[k := l], pos, emit) == WalkIfdef(macros, src, pos, emit)
    decreases |src| - pos, 1
  {
    if pos < |src| {
      InsideAhead(macros, src, pos, emit);
      assert src[k := l][pos] == src[pos];
      if src[pos].Endif? {
      } else if src[pos].Ifdef? && emit {
        NestedUnread(macros, src, pos, k, l);
      } else {
        InsideUnread(macros, src, pos + 1, if src[pos].ElseLine? then !emit else emit, k, l);
      }
    }
  }

  lemma {:induction false} NestedUnread(macros: set<string>, src: seq<Line>, pos: nat, k: nat, l: Line)
    requires pos < |src| && src[pos].Ifdef? && k < |src| && k != pos && Unread(macros, src, pos, true, k)
    ensures WalkIfdef(macros, src[k := l], pos, true) == WalkIfdef(macros, src, pos, true)
    decreases |src| - pos, 0
  {
    var defined := src[pos].macro in macros;
    var inner := WalkIfdef(macros, src, pos + 1, defined);
    InsideAhead(macros, src, pos + 1, defined);
    if inner.Some? { InsideAhead(macros, src, inner.value.1 + 1, true); }
    assert LostInside(macros, src, pos, true) == LostInside(macros, src, pos + 1, defined) +
      (if inner.None? then {} else {inner.value.1} + LostInside(macros, src, inner.value.1 + 1, true));
    assert Unread(macros, src, pos + 1, defined, k);
    if inner.Some? { assert Unread(macros, src, inner.value.1 + 1, true, k); }
    assert src[k := l][pos] == src[pos];
    hide Unread;
    InsideUnread(macros, src, pos + 1, defined, k, l);
    if inner.Some? { InsideUnread(macros, src, inner.value.1 + 1, true, k, l); }
  }

  lemma {:induction false} InsideAhead(macros: set<string>, src: seq<Line>, pos: nat, emit: bool)
    ensures var r := WalkIfdef(macros, src, pos, emit);
      forall k :: k in LostInside(macros, src, pos, emit) ==> k > pos && (r.Some? ==> k < r.value.1)
    decreases |src| - pos
  {
    if pos < |src| && !src[pos].Endif? {
      if src[pos].Ifdef? && emit {
        var inner := WalkIfdef(macros, src, pos + 1, src[pos].macro in macros);
        InsideAhead(macros, src, pos + 1, src[pos].macro in macros);
        if inner.Some? { InsideAhead(macros, src, inner.value.1 + 1, emit); }
      } else {
        InsideAhead(macros, src, pos + 1, if src[pos].ElseLine? then !emit else emit);
      }
    }
  }

  lemma {:induction false} LostAhead(macros: set<string>, src: seq<Line>, pos: nat)
    ensures forall k :: k in Lost(macros, src, pos) ==> k > pos
    decreases |src| - pos
  {
    if pos < |src| {
      if src[pos].Ifdef? {
        var branch := WalkIfdef(macros, src, pos + 1, src[pos].macro in macros);
        InsideAhead(macros, src, pos + 1, src[pos].macro in macros);
        if branch.Some? { LostAhead(macros, src, branch.value.1 + 1); }
      } else {
        LostAhead(macros, src, pos + 1);
      }
    }
  }

  /** Whatever stands behind an `endif` that closes, a directive or text, the file does the same. */
  lemma {:induction false} LostUnread(macros: set<string>, src: seq<Line>, pos: nat, k: nat, l: Line)
    requires k < |src| && (k < pos || k in Lost(macros, src, pos))
    ensures Walk(macros, src[k := l], pos) == Walk(macros, src, pos)
    decreases |src| - pos
  {
    if pos < |src| {
      LostAhead(macros, src, pos);
      assert src[k := l][pos] == src[pos];
      if src[pos].Ifdef? {
        var emit := src[pos].macro in macros;
        var branch := WalkIfdef(macros, src, pos + 1, emit);
        BranchUnread(macros, src, pos, k, l);
        if branch.Some? { LostUnread(macros, src, branch.value.1 + 1, k, l); }
        hide WalkIfdef, Lost;
      } else {
        LostUnread(macros, src, pos + 1, k, l);
      }
    }
  }

  lemma BranchUnread(macros: set<string>, src: seq<Line>, pos: nat, k: nat, l: Line)
    requires pos < |src| && src[pos].Ifdef? && k < |src| && (k < pos || k in Lost(macros, src, pos))
    ensures var branch := WalkIfdef(macros, src, pos + 1, src[pos].macro in macros);
      && WalkIfdef(macros, src[k := l], pos + 1, src[pos].macro in macros) == branch
      && (branch.Some? ==> k < branch.value.1 + 1 || k in Lost(macros, src, branch.value.1 + 1))
  {
    var emit := src[pos].macro in macros;
    var branch := WalkIfdef(macros, src, pos + 1, emit);
    InsideAhead(macros, src, pos + 1, emit);
    if branch.Some? { LostAhead(macros, src, branch.value.1 + 1); }
    InsideUnread(macros, src, pos + 1, emit, k, l);
  }
}
