/** The preprocessor as an object that moves a cursor over its source and appends to its output. */
module Preprocessors {
  import opened Ast
  import opened Preprocessing

  class TextStream {
    const lines: seq<Line>
    var pos: nat

    constructor (lines: seq<Line>)
      ensures this.lines == lines && pos == 0
    {
      this.lines := lines;
      pos := 0;
    }
  }

  /** Performing what a walk found; nothing succeeds behind an error. */
  function Then(files: Files, macros: set<string>, st: State, walk: Option<seq<Action>>): Option<State>
    requires st.nesting < MAX_NESTING
  {
    if walk.None? then None else Perform(files, macros, st, walk.value)
  }

  function Actions(walk: Option<(seq<Action>, nat)>): Option<seq<Action>> {
    if walk.None? then None else Some(walk.value.0)
  }

  /** What line `pos` does when it counts; only for an `ifdef` that reaches behind the line. */
  function OfDirective(macros: set<string>, src: seq<Line>, pos: nat): (r: Option<(seq<Action>, nat)>)
    requires pos < |src| && !src[pos].Text?
    ensures r.Some? ==> r.value.1 >= pos
  {
    match src[pos]
    case IncludeLine(p) => Some(([Include(p)], pos))
    case IncludeOnceLine(p) => Some(([IncludeOnce(p)], pos))
    case Ifdef(m) => WalkIfdef(macros, src, pos + 1, m in macros)
    case _ => None
  }

  class Preprocessor {
    const files: Files
    const macros: set<string>
    var dst: seq<string>
    var nesting: nat
    var registered: set<Path>
    ghost var log: seq<Path>

    constructor (files: Files, macros: set<string>)
      ensures View() == START && this.files == files && this.macros == macros
    {
      this.files, this.macros := files, macros;
      dst, nesting, registered, log := [], 0, {}, [];
    }

    ghost function View(): State
      reads this
    {
      State(dst, nesting, registered, log)
    }

    method HandlePreprocessor(src: TextStream) returns (ok: bool)
      requires nesting <= MAX_NESTING && src.pos == 0
      modifies this, src
      ensures ok == Handle(files, macros, old(View()), src.lines).Some?
      ensures ok ==> View() == Handle(files, macros, old(View()), src.lines).value
      decreases MAX_NESTING - nesting, |src.lines|, 3
    {
      hide Walk, Perform, OfDirective, WalkLeft;
      if nesting >= MAX_NESTING { return false; }
      ghost var st := View();
      WalkStart(files, macros, st, src.lines);
      while src.pos < |src.lines|
        invariant nesting == st.nesting && WalkLeft(files, macros, st, View(), src.lines, src.pos)
        decreases |src.lines| - src.pos
      {
        ghost var now, at := View(), src.pos;
        match src.lines[src.pos] {
          case Text(s) =>
            dst := dst + [s];
            WalkText(files, macros, st, now, src.lines, at);
          case _ =>
            ok := MatchMacro(src);
            WalkDirective(files, macros, st, now, src.lines, at);
            if !ok { return; }
        }
        src.pos := src.pos + 1;
      }
      WalkEnd(files, macros, st, View(), src.lines, src.pos);
      return true;
    }

    /** A directive that counts: on success the cursor is on its line or, for an `ifdef`, behind
        its `endif`. */
    method MatchMacro(src: TextStream) returns (ok: bool)
      requires nesting < MAX_NESTING && src.pos < |src.lines| && !src.lines[src.pos].Text?
      modifies this, src
      ensures ok == Then(files, macros, old(View()), Actions(OfDirective(macros, src.lines, old(src.pos)))).Some?
      ensures ok ==> View() == Then(files, macros, old(View()), Actions(OfDirective(macros, src.lines, old(src.pos)))).value
      ensures ok ==> src.pos == OfDirective(macros, src.lines, old(src.pos)).value.1
      decreases MAX_NESTING - nesting, |src.lines| - src.pos, 2
    {
      ghost var st := View();
      match src.lines[src.pos]
      case IncludeLine(p) =>
        ok := HandleInclude(p);
        PerformSingle(files, macros, st, Include(p));
      case IncludeOnceLine(p) =>
        ok := HandleIncludeOnce(p);
        PerformSingle(files, macros, st, IncludeOnce(p));
      case Ifdef(m) => ok := HandleIfdef(src, m);
      case _ => ok := false;
    }

    method HandleInclude(p: Path) returns (ok: bool)
      requires nesting < MAX_NESTING
      modifies this
      ensures ok == PerformOne(files, macros, old(View()), Include(p)).Some?
      ensures ok ==> View() == PerformOne(files, macros, old(View()), Include(p)).value
      decreases MAX_NESTING - nesting, 0, 1
    {
      ok := IncludeFile(p);
    }

    method HandleIncludeOnce(p: Path) returns (ok: bool)
      requires nesting < MAX_NESTING
      modifies this
      ensures ok == PerformOne(files, macros, old(View()), IncludeOnce(p)).Some?
      ensures ok ==> View() == PerformOne(files, macros, old(View()), IncludeOnce(p)).value
      decreases MAX_NESTING - nesting, 0, 1
    {
      if p in registered { return true; }
      log := log + [p];
      ok := IncludeFile(p);
      if ok { registered := registered + {p}; }
    }

    method IncludeFile(p: Path) returns (ok: bool)
      requires nesting < MAX_NESTING
      modifies this
      ensures ok == Expand(files, macros, old(View()), p).Some?
      ensures ok ==> View() == Expand(files, macros, old(View()), p).value
      decreases MAX_NESTING - nesting, 0, 0
    {
      if p !in files { return false; }
      var buffer := new TextStream(files[p]);
      nesting := nesting + 1;
      ok := HandlePreprocessor(buffer);
      if ok { nesting := nesting - 1; }
    }

    method HandleIfdef(src: TextStream, macro: string) returns (ok: bool)
      requires nesting < MAX_NESTING && src.pos < |src.lines|
      modifies this, src
      ensures var walk := WalkIfdef(macros, src.lines, old(src.pos) + 1, macro in macros);
        && ok == Then(files, macros, old(View()), Actions(walk)).Some?
        && (ok ==> View() == Then(files, macros, old(View()), Actions(walk)).value && src.pos == walk.value.1)
      decreases MAX_NESTING - nesting, |src.lines| - src.pos, 1
    {
      hide Left, WalkIfdef, Perform, OfDirective;
      ghost var st := View();
      var emit := macro in macros;
      src.pos := src.pos + 1;
      ghost var all := WalkIfdef(macros, src.lines, src.pos, emit);
      LeftStart(files, macros, st, all);
      while src.pos < |src.lines|
        invariant nesting == st.nesting && src.pos > old(src.pos)
        invariant Left(files, macros, st, all, View(), WalkIfdef(macros, src.lines, src.pos, emit))
        decreases |src.lines| - src.pos
      {
        ghost var now, at, on := View(), src.pos, emit;
        match src.lines[src.pos] {
          case Text(s) =>
            dst := dst + [s];
            LeftText(files, macros, st, all, now, src.lines, at, on);
          case ElseLine =>
            LeftElse(macros, src.lines, at, on);
            emit := !emit;
          case Endif =>
            LeftEnd(files, macros, st, all, now, src.lines, at, on);
            src.pos := src.pos + 1;
            return true;
          case _ =>
            if emit {
              ok := MatchMacro(src);
              LeftDirective(files, macros, st, all, now, src.lines, at);
              if !ok { return; }
            } else {
              LeftSkipped(files, macros, st, all, now, src.lines, at);
            }
        }
        src.pos := src.pos + 1;
      }
      LeftNothing(files, macros, st, all, View(), src.lines, src.pos, emit);
      return false;
    }
  }

  // ---- One line at a time -----------------------------------------------------------------

  lemma PerformSingle(files: Files, macros: set<string>, st: State, a: Action)
    requires st.nesting < MAX_NESTING
    ensures Perform(files, macros, st, [a]) == PerformOne(files, macros, st, a)
  {
    assert [a][1..] == [];
  }

  /** The run that began in `st` comes down to the lines from `pos` on, now that it is in `now`. */
  ghost predicate WalkLeft(files: Files, macros: set<string>, st: State, now: State, src: seq<Line>, pos: nat)
    requires st.nesting < MAX_NESTING && now.nesting < MAX_NESTING
  {
    Then(files, macros, st, Walk(macros, src, 0)) == Then(files, macros, now, Walk(macros, src, pos))
  }

  lemma WalkStart(files: Files, macros: set<string>, st: State, src: seq<Line>)
    requires st.nesting < MAX_NESTING
    ensures WalkLeft(files, macros, st, st, src, 0)
  {}

  lemma WalkEnd(files: Files, macros: set<string>, st: State, now: State, src: seq<Line>, pos: nat)
    requires st.nesting < MAX_NESTING && now.nesting < MAX_NESTING && pos >= |src|
    requires WalkLeft(files, macros, st, now, src, pos)
    ensures Then(files, macros, st, Walk(macros, src, 0)) == Some(now)
  {}

  lemma WalkText(files: Files, macros: set<string>, st: State, now: State, src: seq<Line>, pos: nat)
    requires st.nesting < MAX_NESTING && now.nesting < MAX_NESTING && pos < |src| && src[pos].Text?
    requires WalkLeft(files, macros, st, now, src, pos)
    ensures WalkLeft(files, macros, st, now.(dst := now.dst + [src[pos].text]), src, pos + 1)
  {
    var rest := Walk(macros, src, pos + 1);
    if rest.Some? { PerformText(files, macros, now, src[pos].text, rest.value); }
  }

  /** A directive, and then the walk from the line after. */
  lemma WalkDirective(files: Files, macros: set<string>, st: State, now: State, src: seq<Line>, pos: nat)
    requires st.nesting < MAX_NESTING && now.nesting < MAX_NESTING && pos < |src| && !src[pos].Text?
    requires WalkLeft(files, macros, st, now, src, pos)
    ensures var d := OfDirective(macros, src, pos); var done := Then(files, macros, now, Actions(d));
      if done.None? then Then(files, macros, st, Walk(macros, src, 0)).None?
      else WalkLeft(files, macros, st, done.value, src, d.value.1 + 1)
  {
    var d := OfDirective(macros, src, pos);
    if d.Some? {
      var rest := Walk(macros, src, d.value.1 + 1);
      assert Walk(macros, src, pos) == if rest.None? then None else Some(d.value.0 + rest.value);
      if rest.Some? { PerformConcat(files, macros, now, d.value.0, rest.value); }
    }
  }

  lemma PerformText(files: Files, macros: set<string>, st: State, s: string, rest: seq<Action>)
    requires st.nesting < MAX_NESTING
    ensures Perform(files, macros, st, [Emit(s)] + rest) == Perform(files, macros, st.(dst := st.dst + [s]), rest)
  {
    assert ([Emit(s)] + rest)[1..] == rest;
  }

  /** What is left of an `ifdef` that began in `st`, now that the run is in `now`. */
  ghost predicate Left(files: Files, macros: set<string>, st: State, all: Option<(seq<Action>, nat)>, now: State, rest: Option<(seq<Action>, nat)>)
    requires st.nesting < MAX_NESTING && now.nesting < MAX_NESTING
  {
    && Then(files, macros, st, Actions(all)) == Then(files, macros, now, Actions(rest))
    && (all.Some? && rest.Some? ==> all.value.1 == rest.value.1)
    && (all.Some? <==> rest.Some?)
  }

  lemma LeftText(files: Files, macros: set<string>, st: State, all: Option<(seq<Action>, nat)>, now: State, src: seq<Line>, pos: nat, emit: bool)
    requires st.nesting < MAX_NESTING && now.nesting < MAX_NESTING && pos < |src| && src[pos].Text?
    requires Left(files, macros, st, all, now, WalkIfdef(macros, src, pos, emit))
    ensures Left(files, macros, st, all, now.(dst := now.dst + [src[pos].text]), WalkIfdef(macros, src, pos + 1, emit))
  {
    var rest := WalkIfdef(macros, src, pos + 1, emit);
    if rest.Some? { PerformText(files, macros, now, src[pos].text, rest.value.0); }
  }

  lemma LeftStart(files: Files, macros: set<string>, st: State, all: Option<(seq<Action>, nat)>)
    requires st.nesting < MAX_NESTING
    ensures Left(files, macros, st, all, st, all)
  {}

  lemma LeftElse(macros: set<string>, src: seq<Line>, pos: nat, emit: bool)
    requires pos < |src| && src[pos].ElseLine?
    ensures WalkIfdef(macros, src, pos, emit) == WalkIfdef(macros, src, pos + 1, !emit)
  {}

  lemma LeftEnd(files: Files, macros: set<string>, st: State, all: Option<(seq<Action>, nat)>, now: State, src: seq<Line>, pos: nat, emit: bool)
    requires st.nesting < MAX_NESTING && now.nesting < MAX_NESTING && pos < |src| && src[pos].Endif?
    requires Left(files, macros, st, all, now, WalkIfdef(macros, src, pos, emit))
    ensures Then(files, macros, st, Actions(all)) == Some(now) && all.value.1 == pos + 1
  {}

  lemma LeftNothing(files: Files, macros: set<string>, st: State, all: Option<(seq<Action>, nat)>, now: State, src: seq<Line>, pos: nat, emit: bool)
    requires st.nesting < MAX_NESTING && now.nesting < MAX_NESTING && pos >= |src|
    requires Left(files, macros, st, all, now, WalkIfdef(macros, src, pos, emit))
    ensures Then(files, macros, st, Actions(all)).None?
  {}

  /** A directive in a branch that does not count. */
  lemma LeftSkipped(files: Files, macros: set<string>, st: State, all: Option<(seq<Action>, nat)>, now: State, src: seq<Line>, pos: nat)
    requires st.nesting < MAX_NESTING && now.nesting < MAX_NESTING && pos < |src|
    requires !src[pos].Text? && !src[pos].ElseLine? && !src[pos].Endif?
    requires Left(files, macros, st, all, now, WalkIfdef(macros, src, pos, false))
    ensures Left(files, macros, st, all, now, WalkIfdef(macros, src, pos + 1, false))
  {
    var rest := WalkIfdef(macros, src, pos + 1, false);
    if rest.Some? { assert [] + rest.value.0 == rest.value.0; }
  }

  /** A directive in a branch that counts. */
  lemma LeftDirective(files: Files, macros: set<string>, st: State, all: Option<(seq<Action>, nat)>, now: State, src: seq<Line>, pos: nat)
    requires st.nesting < MAX_NESTING && now.nesting < MAX_NESTING && pos < |src|
    requires !src[pos].Text? && !src[pos].ElseLine? && !src[pos].Endif?
    requires Left(files, macros, st, all, now, WalkIfdef(macros, src, pos, true))
    ensures var d := OfDirective(macros, src, pos); var done := Then(files, macros, now, Actions(d));
      if done.None? then Then(files, macros, st, Actions(all)).None?
      else Left(files, macros, st, all, done.value, WalkIfdef(macros, src, d.value.1 + 1, true))
  {
    var d := OfDirective(macros, src, pos);
    if d.Some? {
      var rest := WalkIfdef(macros, src, d.value.1 + 1, true);
      assert WalkIfdef(macros, src, pos, true) == if rest.None? then None else Some((d.value.0 + rest.value.0, rest.value.1));
      if rest.Some? { PerformConcat(files, macros, now, d.value.0, rest.value.0); }
    }
  }
}
