/** Include expansion. A file is a sequence of lines; a directive stands at the start of its
    line, and the paths in it are resolved already. */
module Preprocessing {
  import opened Ast

  type Path = string

  datatype Line =
    | Text(text: string)
    | IncludeLine(path: Path)
    | IncludeOnceLine(path: Path)
    | Ifdef(macro: string)
    | ElseLine
    | Endif
    // `#<error`, an unknown or a malformed directive.
    | Faulty

  type Files = map<Path, seq<Line>>

  const MAX_NESTING: nat := 255

  // ---- What a file does -------------------------------------------------------------------

  datatype Action = Emit(text: string) | Include(path: Path) | IncludeOnce(path: Path)

  /** The main loop, from line `pos` on. `None`: an error is reported sooner or later. */
  function Walk(macros: set<string>, src: seq<Line>, pos: nat): Option<seq<Action>>
    decreases |src| - pos
  {
    if pos >= |src| then Some([])
    else
      match src[pos]
      case Text(s) =>
        var rest :- Walk(macros, src, pos + 1);
        Some([Emit(s)] + rest)
      case IncludeLine(p) =>
        var rest :- Walk(macros, src, pos + 1);
        Some([Include(p)] + rest)
      case IncludeOnceLine(p) =>
        var rest :- Walk(macros, src, pos + 1);
        Some([IncludeOnce(p)] + rest)
      case Ifdef(m) =>
        var branch :- WalkIfdef(macros, src, pos + 1, m in macros);
        var rest :- Walk(macros, src, branch.1 + 1);
        Some(branch.0 + rest)
      case _ => None
  }

  /** Inside an `ifdef`. Text is emitted in both branches; directives count only in the branch
      that is taken, so an `endif` closes even when the `ifdef` it belongs to did not count. The
      cursor is left behind the `endif`, from where the caller goes on with the line after. */
  function WalkIfdef(macros: set<string>, src: seq<Line>, pos: nat, emit: bool): (r: Option<(seq<Action>, nat)>)
    ensures r.Some? ==> pos < r.value.1
    decreases |src| - pos
  {
    if pos >= |src| then None
    else
      match src[pos]
      case Text(s) =>
        var rest :- WalkIfdef(macros, src, pos + 1, emit);
        Some(([Emit(s)] + rest.0, rest.1))
      case ElseLine => WalkIfdef(macros, src, pos + 1, !emit)
      case Endif => Some(([], pos + 1))
      case IncludeLine(p) =>
        var rest :- WalkIfdef(macros, src, pos + 1, emit);
        Some(((if emit then [Include(p)] else []) + rest.0, rest.1))
      case IncludeOnceLine(p) =>
        var rest :- WalkIfdef(macros, src, pos + 1, emit);
        Some(((if emit then [IncludeOnce(p)] else []) + rest.0, rest.1))
      case Ifdef(m) =>
        if emit then
          var inner :- WalkIfdef(macros, src, pos + 1, m in macros);
          var rest :- WalkIfdef(macros, src, inner.1 + 1, emit);
          Some((inner.0 + rest.0, rest.1))
        else WalkIfdef(macros, src, pos + 1, emit)
      case Faulty => if emit then None else WalkIfdef(macros, src, pos + 1, emit)
  }

  // ---- Doing it ---------------------------------------------------------------------------

  /** `log` lists the expansions by `include_once`, in the order they begin. */
  datatype State = State(dst: seq<string>, nesting: nat, registered: set<Path>, log: seq<Path>)

  function Perform(files: Files, macros: set<string>, st: State, acts: seq<Action>): (r: Option<State>)
    requires st.nesting < MAX_NESTING
    ensures r.Some? ==> r.value.nesting == st.nesting && st.registered <= r.value.registered && st.log <= r.value.log && st.dst <= r.value.dst
    decreases MAX_NESTING - st.nesting, 2, |acts|
  {
    if acts == [] then Some(st)
    else
      var st1 :- PerformOne(files, macros, st, acts[0]);
      Perform(files, macros, st1, acts[1..])
  }

  function PerformOne(files: Files, macros: set<string>, st: State, a: Action): (r: Option<State>)
    requires st.nesting < MAX_NESTING
    ensures r.Some? ==> r.value.nesting == st.nesting && st.registered <= r.value.registered && st.log <= r.value.log && st.dst <= r.value.dst
    decreases MAX_NESTING - st.nesting, 1
  {
    match a
    case Emit(s) => Some(st.(dst := st.dst + [s]))
    case Include(p) => Expand(files, macros, st, p)
    case IncludeOnce(p) =>
      if p in st.registered then Some(st)
      else
        var st1 :- Expand(files, macros, st.(log := st.log + [p]), p);
        Some(st1.(registered := st1.registered + {p}))
  }

  /** One level deeper, and back. A path is registered only when its expansion is complete. */
  function Expand(files: Files, macros: set<string>, st: State, p: Path): (r: Option<State>)
    requires st.nesting < MAX_NESTING
    ensures r.Some? ==> r.value.nesting == st.nesting && st.registered <= r.value.registered && st.log <= r.value.log && st.dst <= r.value.dst
    decreases MAX_NESTING - st.nesting, 0
  {
    if p !in files then None
    else
      var st1 :- Handle(files, macros, st.(nesting := st.nesting + 1), files[p]);
      Some(st1.(nesting := st.nesting))
  }

  function Handle(files: Files, macros: set<string>, st: State, src: seq<Line>): (r: Option<State>)
    requires st.nesting <= MAX_NESTING
    ensures r.Some? ==> r.value.nesting == st.nesting && st.registered <= r.value.registered && st.log <= r.value.log && st.dst <= r.value.dst
    decreases MAX_NESTING - st.nesting, 3
  {
    if st.nesting >= MAX_NESTING then None
    else
      var acts :- Walk(macros, src, 0);
      Perform(files, macros, st, acts)
  }

  const START: State := State([], 0, {}, [])

  function Preprocess(files: Files, macros: set<string>, src: seq<Line>): Option<State> {
    Handle(files, macros, START, src)
  }

  lemma {:induction false} PerformConcat(files: Files, macros: set<string>, st: State, a: seq<Action>, b: seq<Action>)
    requires st.nesting < MAX_NESTING
    ensures Perform(files, macros, st, a + b) ==
      if Perform(files, macros, st, a).None? then None else Perform(files, macros, Perform(files, macros, st, a).value, b)
    decreases |a|
  {
    if a == [] {
      assert a + b == b;
    } else {
      assert (a + b)[1..] == a[1..] + b;
      var st1 := PerformOne(files, macros, st, a[0]);
      if st1.Some? { PerformConcat(files, macros, st1.value, a[1..], b); }
    }
  }

  // ---- What can be expanded ---------------------------------------------------------------

  /** The action begins an expansion while just `reg` is registered. */
  predicate Begins(a: Action, reg: set<Path>) {
    a.Include? || (a.IncludeOnce? && a.path !in reg)
  }

  /** The file and all it leads to are there and free of errors, on at most `n` levels. */
  predicate Deep(files: Files, macros: set<string>, reg: set<Path>, p: Path, n: nat)
    decreases n
  {
    && n > 0 && p in files && Walk(macros, files[p], 0).Some?
    && forall a <- Walk(macros, files[p], 0).value :: Begins(a, reg) ==> Deep(files, macros, reg, a.path, n - 1)
  }

  ghost predicate Founded(files: Files, macros: set<string>, reg: set<Path>, p: Path) {
    exists n: nat :: Deep(files, macros, reg, p, n)
  }

  /** What fits the nesting limit is expanded. */
  lemma {:induction false} DeepExpands(files: Files, macros: set<string>, reg: set<Path>, st: State, p: Path, n: nat)
    requires st.nesting + n < MAX_NESTING && reg <= st.registered && Deep(files, macros, reg, p, n)
    ensures Expand(files, macros, st, p).Some?
    decreases n, 0
  {
    DeepPerform(files, macros, reg, st.(nesting := st.nesting + 1), Walk(macros, files[p], 0).value, n - 1);
  }

  lemma {:induction false} DeepPerform(files: Files, macros: set<string>, reg: set<Path>, st: State, acts: seq<Action>, n: nat)
    requires st.nesting + n < MAX_NESTING && reg <= st.registered
    requires forall a <- acts :: Begins(a, reg) ==> Deep(files, macros, reg, a.path, n)
    ensures Perform(files, macros, st, acts).Some?
    decreases n, 1, |acts|
  {
    if acts != [] {
      var a := acts[0];
      if a.Include? {
        DeepExpands(files, macros, reg, st, a.path, n);
      } else if a.IncludeOnce? && a.path !in st.registered {
        DeepExpands(files, macros, reg, st.(log := st.log + [a.path]), a.path, n);
      }
      DeepPerform(files, macros, reg, PerformOne(files, macros, st, a).value, acts[1..], n);
    }
  }

  lemma {:induction false} DeepMore(files: Files, macros: set<string>, reg: set<Path>, p: Path, n: nat, m: nat)
    requires Deep(files, macros, reg, p, n) && n <= m
    ensures Deep(files, macros, reg, p, m)
    decreases n
  {
    forall a | a in Walk(macros, files[p], 0).value && Begins(a, reg) ensures Deep(files, macros, reg, a.path, m - 1) {
      DeepMore(files, macros, reg, a.path, n - 1, m - 1);
    }
  }

  /** One number of levels does for all of a list. */
  lemma {:induction false} CommonDepth(files: Files, macros: set<string>, reg: set<Path>, acts: seq<Action>) returns (n: nat)
    requires forall a <- acts :: Begins(a, reg) ==> Founded(files, macros, reg, a.path)
    ensures forall a <- acts :: Begins(a, reg) ==> Deep(files, macros, reg, a.path, n)
  {
    n := 0;
    if acts != [] {
      n := CommonDepth(files, macros, reg, acts[1..]);
      if Begins(acts[0], reg) {
        var k: nat :| Deep(files, macros, reg, acts[0].path, k);
        var m := if k > n then k else n;
        forall a | a in acts && Begins(a, reg) ensures Deep(files, macros, reg, a.path, m) {
          if a == acts[0] { DeepMore(files, macros, reg, a.path, k, m); } else { DeepMore(files, macros, reg, a.path, n, m); }
        }
        n := m;
      }
    }
  }

  ghost predicate AllFounded(files: Files, macros: set<string>, reg: set<Path>, paths: set<Path>) {
    forall q <- paths :: q in reg || Founded(files, macros, reg, q)
  }

  /** What is expanded does not come back to itself: it ends after some number of levels. */
  lemma {:induction false} ExpandFounded(files: Files, macros: set<string>, reg: set<Path>, st: State, p: Path)
    requires st.nesting < MAX_NESTING && AllFounded(files, macros, reg, st.registered) && Expand(files, macros, st, p).Some?
    ensures Founded(files, macros, reg, p) && AllFounded(files, macros, reg, Expand(files, macros, st, p).value.registered)
    decreases MAX_NESTING - st.nesting, 0
  {
    var acts := Walk(macros, files[p], 0).value;
    PerformFounded(files, macros, reg, st.(nesting := st.nesting + 1), acts);
    var n := CommonDepth(files, macros, reg, acts);
    assert Deep(files, macros, reg, p, n + 1);
  }

  lemma {:induction false} PerformFounded(files: Files, macros: set<string>, reg: set<Path>, st: State, acts: seq<Action>)
    requires st.nesting < MAX_NESTING && AllFounded(files, macros, reg, st.registered) && Perform(files, macros, st, acts).Some?
    ensures forall a <- acts :: Begins(a, reg) ==> Founded(files, macros, reg, a.path)
    ensures AllFounded(files, macros, reg, Perform(files, macros, st, acts).value.registered)
    decreases MAX_NESTING - st.nesting, 1, |acts|
  {
    hide Founded, Deep;
    if acts != [] {
      var a := acts[0];
      if a.Include? {
        ExpandFounded(files, macros, reg, st, a.path);
      } else if a.IncludeOnce? && a.path !in st.registered {
        ExpandFounded(files, macros, reg, st.(log := st.log + [a.path]), a.path);
      }
      PerformFounded(files, macros, reg, PerformOne(files, macros, st, a).value, acts[1..]);
    }
  }

  // ---- How many levels there can be -------------------------------------------------------

  function Level(files: Files, macros: set<string>, reg: set<Path>, n: nat): set<Path> {
    set q | q in files && Deep(files, macros, reg, q, n)
  }

  /** As long as more levels give more files, each gives at least one. */
  lemma {:induction false} LevelsGrow(files: Files, macros: set<string>, reg: set<Path>, n: nat)
    ensures Level(files, macros, reg, n) <= Level(files, macros, reg, n + 1)
    ensures Level(files, macros, reg, n) == Level(files, macros, reg, n + 1) || |Level(files, macros, reg, n + 1)| > n
  {
    var here, next := Level(files, macros, reg, n), Level(files, macros, reg, n + 1);
    forall q | q in here ensures q in next { DeepMore(files, macros, reg, q, n, n + 1); }
    if n > 0 {
      LevelsGrow(files, macros, reg, n - 1);
      if Level(files, macros, reg, n - 1) == here {
        LevelsStop(files, macros, reg, n - 1);
      } else if here != next {
        Larger(here, next);
      }
    } else if here != next {
      Larger(here, next);
    }
  }

  lemma Larger<T>(a: set<T>, b: set<T>)
    requires a <= b && a != b
    ensures |a| < |b|
  {
    var x :| x in b && x !in a;
    assert |b - a| > 0;
    assert b == a + (b - a);
  }

  lemma LevelsStop(files: Files, macros: set<string>, reg: set<Path>, n: nat)
    requires Level(files, macros, reg, n) == Level(files, macros, reg, n + 1)
    ensures Level(files, macros, reg, n + 1) == Level(files, macros, reg, n + 2)
  {
    forall q | q in files ensures Deep(files, macros, reg, q, n + 1) <==> Deep(files, macros, reg, q, n + 2) {
      forall a: Action | Begins(a, reg) ensures Deep(files, macros, reg, a.path, n) <==> Deep(files, macros, reg, a.path, n + 1) {
        assert a.path in Level(files, macros, reg, n) <==> a.path in Level(files, macros, reg, n + 1);
      }
    }
  }

  /** As many levels as there are files are enough. */
  lemma {:induction false} EnoughLevels(files: Files, macros: set<string>, reg: set<Path>, p: Path, n: nat)
    requires Deep(files, macros, reg, p, n)
    ensures Deep(files, macros, reg, p, |files|)
  {
    if n <= |files| {
      DeepMore(files, macros, reg, p, n, |files|);
    } else {
      LevelsGrow(files, macros, reg, n - 1);
      var level := Level(files, macros, reg, n);
      if level != files.Keys { Larger(level, files.Keys); }
      assert p in Level(files, macros, reg, n - 1);
      EnoughLevels(files, macros, reg, p, n - 1);
    }
  }

  /** With no more files than nesting levels left, a file is expanded exactly when it and all it
      leads to are there, are free of errors and do not come back to themselves. */
  lemma ExpandsExactly(files: Files, macros: set<string>, st: State, p: Path)
    requires st.nesting + |files| < MAX_NESTING
    ensures Expand(files, macros, st, p).Some? <==> Deep(files, macros, st.registered, p, |files|)
  {
    if Expand(files, macros, st, p).Some? {
      ExpandFounded(files, macros, st.registered, st, p);
      var n: nat :| Deep(files, macros, st.registered, p, n);
      EnoughLevels(files, macros, st.registered, p, n);
    }
    if Deep(files, macros, st.registered, p, |files|) { DeepExpands(files, macros, st.registered, st, p, |files|); }
  }

  /** Under the same bound, a source is preprocessed exactly when it is free of errors and every
      inclusion in it can be expanded. */
  lemma PreprocessesExactly(files: Files, macros: set<string>, src: seq<Line>)
    requires |files| < MAX_NESTING
    ensures Preprocess(files, macros, src).Some? <==>
      Walk(macros, src, 0).Some? && forall a <- Walk(macros, src, 0).value :: Begins(a, {}) ==> Deep(files, macros, {}, a.path, |files|)
  {
    if Walk(macros, src, 0).Some? {
      var acts := Walk(macros, src, 0).value;
      if Perform(files, macros, START, acts).Some? {
        PerformFounded(files, macros, {}, START, acts);
        forall a | a in acts && Begins(a, {}) ensures Deep(files, macros, {}, a.path, |files|) {
          var n: nat :| Deep(files, macros, {}, a.path, n);
          EnoughLevels(files, macros, {}, a.path, n);
        }
      }
      if forall a <- acts :: Begins(a, {}) ==> Deep(files, macros, {}, a.path, |files|) {
        DeepPerform(files, macros, {}, START, acts, |files|);
      }
    }
  }

  /** Where a rank falls along every inclusion, the rank of a file bounds its levels. */
  lemma {:induction false} RankExpands(files: Files, macros: set<string>, st: State, p: Path, rank: map<Path, nat>)
    requires p in rank && st.nesting + rank[p] + 1 < MAX_NESTING
    requires forall q <- rank :: q in files && Walk(macros, files[q], 0).Some?
    requires forall q <- rank ::
      forall a <- Walk(macros, files[q], 0).value :: Begins(a, st.registered) ==> a.path in rank && rank[a.path] < rank[q]
    ensures Deep(files, macros, st.registered, p, rank[p] + 1) && Expand(files, macros, st, p).Some?
    decreases rank[p]
  {
    forall a | a in Walk(macros, files[p], 0).value && Begins(a, st.registered)
      ensures Deep(files, macros, st.registered, a.path, rank[p])
    {
      RankExpands(files, macros, st, a.path, rank);
      DeepMore(files, macros, st.registered, a.path, rank[a.path] + 1, rank[p]);
    }
    DeepExpands(files, macros, st.registered, st, p, rank[p] + 1);
  }

  /** No file uses `include_once`. */
  ghost predicate Plain(files: Files, macros: set<string>) {
    forall q :: q in files && Walk(macros, files[q], 0).Some? ==> forall a <- Walk(macros, files[q], 0).value :: !a.IncludeOnce?
  }

  /** Without `include_once` the levels left decide, however many files there are. */
  lemma {:induction false} PlainExpandsExactly(files: Files, macros: set<string>, st: State, p: Path)
    requires st.nesting < MAX_NESTING && Plain(files, macros)
    ensures Expand(files, macros, st, p).Some? <==> Deep(files, macros, st.registered, p, MAX_NESTING - 1 - st.nesting)
  {
    if Expand(files, macros, st, p).Some? { PlainDeep(files, macros, st.registered, st, p); }
    if Deep(files, macros, st.registered, p, MAX_NESTING - 1 - st.nesting) {
      DeepExpands(files, macros, st.registered, st, p, MAX_NESTING - 1 - st.nesting);
    }
  }

  lemma {:induction false} PlainDeep(files: Files, macros: set<string>, reg: set<Path>, st: State, p: Path)
    requires st.nesting < MAX_NESTING && Plain(files, macros) && Expand(files, macros, st, p).Some?
    ensures Deep(files, macros, reg, p, MAX_NESTING - 1 - st.nesting)
    decreases MAX_NESTING - st.nesting, 0
  {
    PlainActs(files, macros, reg, st.(nesting := st.nesting + 1), Walk(macros, files[p], 0).value);
  }

  lemma {:induction false} PlainActs(files: Files, macros: set<string>, reg: set<Path>, st: State, acts: seq<Action>)
    requires st.nesting < MAX_NESTING && Plain(files, macros) && (forall a <- acts :: !a.IncludeOnce?) && Perform(files, macros, st, acts).Some?
    ensures forall a <- acts :: Begins(a, reg) ==> Deep(files, macros, reg, a.path, MAX_NESTING - 1 - st.nesting)
    decreases MAX_NESTING - st.nesting, 1, |acts|
  {
    hide Deep;
    if acts != [] {
      if acts[0].Include? { PlainDeep(files, macros, reg, st, acts[0].path); }
      PlainActs(files, macros, reg, PerformOne(files, macros, st, acts[0]).value, acts[1..]);
    }
  }

  // ---- Cycles -----------------------------------------------------------------------------

  /** The action enters a file of `s`, by `include_once` only if the file is in `t`. */
  predicate Enters(a: Action, s: set<Path>, t: set<Path>) {
    (a.Include? && a.path in s) || (a.IncludeOnce? && a.path in t)
  }

  /** Every file of `s` that is there and free of errors enters a file of `s` again. */
  ghost predicate Cyclic(files: Files, macros: set<string>, s: set<Path>, t: set<Path>) {
    && t <= s
    && forall p :: p in s && p in files && Walk(macros, files[p], 0).Some? ==>
         exists a :: a in Walk(macros, files[p], 0).value && Enters(a, s, t)
  }

  /** A cycle has no last level. */
  lemma {:induction false} CycleEndless(files: Files, macros: set<string>, s: set<Path>, t: set<Path>, reg: set<Path>, p: Path, n: nat)
    requires Cyclic(files, macros, s, t) && p in s && t !! reg
    ensures !Deep(files, macros, reg, p, n)
    decreases n
  {
    if n > 0 && p in files && Walk(macros, files[p], 0).Some? {
      var a :| a in Walk(macros, files[p], 0).value && Enters(a, s, t);
      CycleEndless(files, macros, s, t, reg, a.path, n - 1);
    }
  }

  /** Expanding a file of a cycle never succeeds while none of the files entered by
      `include_once` is registered: the nesting limit is reached. */
  lemma CycleFails(files: Files, macros: set<string>, s: set<Path>, t: set<Path>, st: State, p: Path)
    requires st.nesting < MAX_NESTING && Cyclic(files, macros, s, t) && p in s && t !! st.registered
    ensures Expand(files, macros, st, p).None?
  {
    if Expand(files, macros, st, p).Some? {
      ExpandFounded(files, macros, st.registered, st, p);
      var n: nat :| Deep(files, macros, st.registered, p, n);
      CycleEndless(files, macros, s, t, st.registered, p, n);
    }
  }

  /** A file that includes itself, once or not, is never expanded successfully unless it is
      registered already. */
  lemma SelfInclusionFails(files: Files, macros: set<string>, st: State, p: Path)
    requires st.nesting < MAX_NESTING && p in files && p !in st.registered
    requires Walk(macros, files[p], 0).Some? ==>
      Include(p) in Walk(macros, files[p], 0).value || IncludeOnce(p) in Walk(macros, files[p], 0).value
    ensures Expand(files, macros, st, p).None?
  {
    if Walk(macros, files[p], 0).Some? {
      var acts := Walk(macros, files[p], 0).value;
      assert exists a :: a in acts && Enters(a, {p}, {p}) by {
        if Include(p) in acts { assert Enters(Include(p), {p}, {p}); }
        else { assert Enters(IncludeOnce(p), {p}, {p}); }
      }
    }
    CycleFails(files, macros, {p}, {p}, st, p);
  }
}
