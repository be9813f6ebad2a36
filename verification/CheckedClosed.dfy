/** Every program the checker lets through is closed function by function after lowering, although
    scopes leak, as long as no local name is also a global one and no step uses a name of its
    body. */
module CheckedClosed {
  import opened Ast
  import opened Statements
  import opened Scopes
  import opened Mir
  import opened MirFactory
  import opened MirBuilder
  import opened MirShape
  import opened MirProgram
  import opened MirMeaningFunction
  import opened MirClosed
  import opened MirTouches
  import MirFrame
  import opened MirChecked
  import opened CheckedNames
  import ScopeRules
  import ScopeRestore
  import ScopeCheckers
  import ScopeOccurrences

  // ---- Names of a program -----------------------------------------------------------------

  function Locals(s: Stmt): set<string>
    decreases s, 1
  {
    match s
    case Let(x, _) => {x}
    case Var(x, _) => {x}
    case If(first, _, onTrue, onFalse) =>
      (if first.None? then {} else Locals(first.value)) + AllLocals(onTrue) + (if onFalse.NoElse? then {} else AllLocals(onFalse.code))
    case Loop(first, _, post, body) =>
      (if first.None? then {} else Locals(first.value)) + (if post.None? then {} else Locals(post.value)) + AllLocals(body)
    case _ => {}
  }

  function AllLocals(ss: seq<Stmt>): set<string>
    decreases ss, 0
  {
    if ss == [] then {} else Locals(ss[0]) + AllLocals(ss[1..])
  }

  function ItemLocals(i: Item): set<string> {
    if i.Function? then SetOf(i.params) + AllLocals(i.code) else {}
  }

  function ItemHead(i: Item): string {
    match i
    case Function(f, _, _) => f
    case FunctionDecl(f) => f
    case GlobalDecl(x) => x
  }

  function ProgramLocals(items: seq<Item>): set<string> {
    if items == [] then {} else ItemLocals(items[0]) + ProgramLocals(items[1..])
  }

  function ProgramHeads(items: seq<Item>): set<string> {
    if items == [] then {} else {ItemHead(items[0])} + ProgramHeads(items[1..])
  }

  predicate ItemApart(i: Item) {
    i.Function? ==> AllApart(i.code)
  }

  predicate AllItemsApart(items: seq<Item>) {
    items == [] || (ItemApart(items[0]) && AllItemsApart(items[1..]))
  }

  /** No local name is also the name of a function or a global, and no step uses a name of its body. */
  predicate NamesApart(items: seq<Item>) {
    ProgramLocals(items) !! ProgramHeads(items) && AllItemsApart(items)
  }

  ghost predicate Within(ns: Names, names: set<string>) {
    forall i, x :: 0 <= i < |ns| && x in ns[i] ==> x in names
  }

  // ---- Names behind a function ------------------------------------------------------------

  lemma {:induction false} AfterWithin(ns: Names, s: Stmt, names: set<string>)
    requires ns != [] && Within(ns, names) && Locals(s) <= names
    ensures Within(After(ns, s), names)
    decreases s, 1
  {
    hide Within;
    match s
    case Let(x, _) => LastWithin(ns, x, names);
    case Var(x, _) => LastWithin(ns, x, names);
    case If(first, _, onTrue, onFalse) =>
      var ns1 := if first.None? then ns else After(ns, first.value);
      if first.Some? { AfterWithin(ns, first.value, names); }
      PushWithin(ns1, names);
      if onFalse.Else? { AllAfterWithin(ns1 + [{}], onTrue, names); }
    case Loop(first, _, post, body) =>
      var ns1 := if first.None? then ns else After(ns, first.value);
      if first.Some? { AfterWithin(ns, first.value, names); }
      var ns2 := if post.None? then ns1 else After(ns1, post.value);
      if post.Some? { AfterWithin(ns1, post.value, names); }
      PushWithin(ns2, names);
      AllAfterWithin(ns2 + [{}], body, names);
      PopWithin(AllAfter(ns2 + [{}], body), names);
    case _ =>
  }

  lemma LastWithin(ns: Names, x: string, names: set<string>)
    requires ns != [] && Within(ns, names) && x in names
    ensures Within(ns[|ns| - 1 := ns[|ns| - 1] + {x}], names)
  {}

  lemma PushWithin(ns: Names, names: set<string>)
    requires Within(ns, names)
    ensures Within(ns + [{}], names)
  {}

  lemma PopWithin(ns: Names, names: set<string>)
    requires ns != [] && Within(ns, names)
    ensures Within(ns[..|ns| - 1], names)
  {}

  lemma {:induction false} AllAfterWithin(ns: Names, ss: seq<Stmt>, names: set<string>)
    requires ns != [] && Within(ns, names) && AllLocals(ss) <= names
    ensures Within(AllAfter(ns, ss), names)
    decreases ss, 0
  {
    hide Within, After, Locals;
    if ss != [] {
      AfterWithin(ns, ss[0], names);
      AllAfterWithin(After(ns, ss[0]), ss[1..], names);
    }
  }

  /** The names that are visible behind a function. */
  lemma FunctionNames(order: Order, st: State, f: string, params: seq<string>, code: seq<Stmt>)
    requires TopLevel(st) && IsOrder(order) && Below(st.varEnv, st.varId) && VisitItem(order, st, Function(f, params, code)).Some?
    ensures var ns := AllAfter(BodyNames(st, params), code); NamesOf(VisitItem(order, st, Function(f, params, code)).value.varEnv) == ns[..|ns| - 1]
  {
    FunctionParts(order, st, f, params, code);
    hide Entry, VisitItem, VisitParams, VisitList, Below, AllAfter, Touched, BodyNames, ListTouches;
    ParamsReady(st, f, params);
    ListAdvances(order, VisitParams(Entry(st, f), params).value, code);
  }

  // ---- One function -----------------------------------------------------------------------

  /** The checker's scopes when it comes to the body of a function. */
  ghost predicate Prepared<D>(s: ScopeRules.Symbols<D>, inner: ScopeRules.Symbols<D>, params: seq<string>) {
    |s| == 1 && |inner| == 2 && inner[0].Keys == s[0].Keys && inner[1].Keys <= SetOf(params)
  }

  lemma {:induction false} ParamsBind<D>(types: ScopeCheckers.Types<D>, s: ScopeRules.Symbols<D>, i: Item, n: nat)
    requires |s| == 1 && i.Function? && n <= |i.params| && ScopeRules.Run(s + [map[]], ScopeCheckers.OfParams(types, i, n)).Some?
    ensures Prepared(s, ScopeRules.Run(s + [map[]], ScopeCheckers.OfParams(types, i, n)).value, i.params)
    decreases n
  {
    var inner := s + [map[]];
    ScopeOccurrences.RunNothing(inner);
    if n > 0 {
      var bind := ScopeRules.Bind(i.params[n - 1], types(ScopeCheckers.ParamBinder(i, n - 1)), true);
      ScopeRestore.RunConcat(inner, ScopeCheckers.OfParams(types, i, n - 1), [bind]);
      ParamsBind(types, s, i, n - 1);
      var s1 := ScopeRules.Run(inner, ScopeCheckers.OfParams(types, i, n - 1)).value;
      ScopeOccurrences.RunOne(s1, bind);
      hide ScopeRules.Run, Find;
    }
  }

  /** A function that passes is lowered to code that refers to its own variables only. */
  lemma FunctionChecked<D>(order: Order, types: ScopeCheckers.Types<D>, st: State, s: ScopeRules.Symbols<D>, i: Item, locals: set<string>, heads: set<string>)
    requires TopLevel(st) && IsOrder(order) && Below(st.varEnv, st.varId) && i.Function? && VisitItem(order, st, i).Some?
    requires |s| == 1 && ScopeRules.Run(s, ScopeCheckers.OfItem(types, i)).Some? && ItemApart(i)
    requires Within(NamesOf(st.varEnv), locals) && s[0].Keys <= heads && locals !! heads && ItemHead(i) in heads
    ensures var fs := VisitItem(order, st, i).value.functions;
      |fs| == |st.functions| + 1 && fs[..|st.functions|] == st.functions && Closed(fs[|st.functions|])
  {
    BodyChecked(types, s, i, NamesOf(st.varEnv), st.globals, locals, heads);
    hide VisitItem, Below, Within, MirFrame.ListUses, ScopeRules.Run, Closed;
    OwnFunctionClosed(order, st, i.fname, i.params, i.code);
  }

  lemma BodyChecked<D>(types: ScopeCheckers.Types<D>, s: ScopeRules.Symbols<D>, i: Item, ns: Names, g: set<string>, locals: set<string>, heads: set<string>)
    requires i.Function? && |s| == 1 && ScopeRules.Run(s, ScopeCheckers.OfItem(types, i)).Some? && ItemApart(i)
    requires Within(ns, locals) && s[0].Keys <= heads && locals !! heads && ItemHead(i) in heads
    ensures MirFrame.AllOwn(|ns|, MirFrame.ListUses(ns + [SetOf(i.params)], g, i.code))
  {
    var bind := ScopeRules.Bind(i.fname, types(ScopeCheckers.ItemBinder(i)), true);
    var params, body := ScopeCheckers.OfParams(types, i, |i.params|), ScopeCheckers.OfList(types, i.code);
    ScopeRestore.RunConcat(s, [bind], ScopeCheckers.Block(params + body));
    ScopeOccurrences.RunOne(s, bind);
    var s1 := ScopeRules.Step(s, bind).value;
    HeadBinds(s, bind, heads);
    hide ScopeRules.Run, ScopeRules.Step, ScopeCheckers.OfParams, ScopeCheckers.OfList, ScopeCheckers.Block, Covers, MirFrame.ListUses, SetOf, Owned;
    ScopeOccurrences.RunBlock(s1, params + body);
    ScopeRestore.RunConcat(s1 + [map[]], params, body);
    ParamsBind(types, s1, i, |i.params|);
    var inner := ScopeRules.Run(s1 + [map[]], params).value;
    PreparedCovers(s1, inner, i.params, ns, locals, heads);
    ListOwned(types, inner, ns + [SetOf(i.params)], |ns|, g, i.code);
    OwnedIs(inner, ScopeRules.Run(inner, body).value, AllAfter(ns + [SetOf(i.params)], i.code), |ns|, MirFrame.ListUses(ns + [SetOf(i.params)], g, i.code));
  }

  lemma HeadBinds<D>(s: ScopeRules.Symbols<D>, e: ScopeRules.Event<D>, heads: set<string>)
    requires |s| == 1 && e.Bind? && e.name in heads && s[0].Keys <= heads && ScopeRules.Step(s, e).Some?
    ensures var s' := ScopeRules.Step(s, e).value; |s'| == 1 && s'[0].Keys <= heads
  {
    hide Find;
  }

  lemma PreparedCovers<D>(s: ScopeRules.Symbols<D>, inner: ScopeRules.Symbols<D>, params: seq<string>, ns: Names, locals: set<string>, heads: set<string>)
    requires |s| == 1 && Prepared(s, inner, params) && Within(ns, locals) && s[0].Keys <= heads && locals !! heads
    ensures Covers(inner, ns + [SetOf(params)], |ns|)
  {
    var ns' := ns + [SetOf(params)];
    forall j, x | 1 <= j < |inner| && x in inner[j] ensures exists i :: |ns| <= i < |ns'| && x in ns'[i] {
      assert x in ns'[|ns|];
    }
    forall i, x | 0 <= i < |ns| && x in ns'[i] ensures x !in inner[0] {
      assert x in ns[i];
    }
  }

  // ---- Programs ---------------------------------------------------------------------------

  lemma OfProgramLast<D>(types: ScopeCheckers.Types<D>, items: seq<Item>)
    ensures ScopeCheckers.OfProgram(types, items) ==
      if items == [] then [] else ScopeCheckers.OfProgram(types, items[..|items| - 1]) + ScopeCheckers.OfItem(types, items[|items| - 1])
  {
    hide ScopeCheckers.OfItem;
  }

  lemma {:induction false} OfProgramFirst<D>(types: ScopeCheckers.Types<D>, items: seq<Item>)
    requires items != []
    ensures ScopeCheckers.OfProgram(types, items) == ScopeCheckers.OfItem(types, items[0]) + ScopeCheckers.OfProgram(types, items[1..])
    decreases |items|
  {
    hide ScopeCheckers.OfItem, ScopeCheckers.OfProgram;
    var n := |items| - 1;
    var rest := items[1..];
    OfProgramLast(types, items);
    OfProgramLast(types, rest);
    OfProgramLast<D>(types, []);
    if n == 0 {
      assert items[..n] == [] && rest == [];
    } else {
      OfProgramFirst(types, items[..n]);
      assert rest[..n - 1] == items[..n][1..] && rest[n - 1] == items[n];
    }
  }

  lemma ItemScopes<D>(types: ScopeCheckers.Types<D>, s: ScopeRules.Symbols<D>, i: Item, heads: set<string>)
    requires |s| == 1 && ScopeRules.Run(s, ScopeCheckers.OfItem(types, i)).Some? && s[0].Keys <= heads && ItemHead(i) in heads
    ensures var s' := ScopeRules.Run(s, ScopeCheckers.OfItem(types, i)).value; |s'| == 1 && s'[0].Keys <= heads
  {
    if i.Function? {
      ScopeCheckers.FunctionKeepsScopes(types, s, i);
      hide ScopeRules.Run, ScopeCheckers.OfItem, ScopeRestore.Kept;
    } else {
      var bind := ScopeRules.Bind(ItemHead(i), types(ScopeCheckers.ItemBinder(i)), false);
      ScopeOccurrences.RunOne(s, bind);
      HeadBinds(s, bind, heads);
      hide ScopeRules.Run, ScopeRules.Step;
    }
  }

  ghost predicate AllClosed(fs: seq<MirFunction>) {
    forall k :: 0 <= k < |fs| ==> Closed(fs[k])
  }

  lemma ItemChecked<D>(order: Order, types: ScopeCheckers.Types<D>, st: State, s: ScopeRules.Symbols<D>, i: Item, locals: set<string>, heads: set<string>)
    requires TopLevel(st) && IsOrder(order) && Below(st.varEnv, st.varId) && VisitItem(order, st, i).Some? && AllClosed(st.functions)
    requires |s| == 1 && ScopeRules.Run(s, ScopeCheckers.OfItem(types, i)).Some? && ItemApart(i)
    requires Within(NamesOf(st.varEnv), locals) && s[0].Keys <= heads && locals !! heads && ItemHead(i) in heads && ItemLocals(i) <= locals
    ensures var st' := VisitItem(order, st, i).value; AllClosed(st'.functions) && Within(NamesOf(st'.varEnv), locals)
  {
    hide *;
    if i.Function? {
      BodyNamesIs(st, i.params);
      FunctionChecked(order, types, st, s, i, locals, heads);
      FunctionNames(order, st, i.fname, i.params, i.code);
      MoreClosed(st.functions, VisitItem(order, st, i).value.functions);
      BodyWithin(NamesOf(st.varEnv), i, locals);
    } else {
      HeadLowered(order, st, i);
    }
  }

  lemma BodyNamesIs(st: State, params: seq<string>)
    ensures BodyNames(st, params) == NamesOf(st.varEnv) + [SetOf(params)]
  {}

  lemma HeadLowered(order: Order, st: State, i: Item)
    requires TopLevel(st) && IsOrder(order) && !i.Function?
    ensures VisitItem(order, st, i).Some? && VisitItem(order, st, i).value.functions == st.functions && VisitItem(order, st, i).value.varEnv == st.varEnv
  {}

  lemma MoreClosed(a: seq<MirFunction>, b: seq<MirFunction>)
    requires AllClosed(a) && |b| == |a| + 1 && b[..|a|] == a && Closed(b[|a|])
    ensures AllClosed(b)
  {
    hide Closed;
    forall k | 0 <= k < |b| ensures Closed(b[k]) {
      if k < |a| { assert b[k] == b[..|a|][k]; }
    }
  }

  lemma BodyWithin(ns: Names, i: Item, locals: set<string>)
    requires i.Function? && Within(ns, locals) && ItemLocals(i) <= locals
    ensures var r := AllAfter(ns + [SetOf(i.params)], i.code); Within(r[..|r| - 1], locals)
  {
    assert Within(ns + [SetOf(i.params)], locals);
    hide Within, AllAfter;
    AllAfterWithin(ns + [SetOf(i.params)], i.code, locals);
    PopWithin(AllAfter(ns + [SetOf(i.params)], i.code), locals);
  }

  lemma {:induction false} ItemsChecked<D>(order: Order, types: ScopeCheckers.Types<D>, st: State, ix: Index, s: ScopeRules.Symbols<D>, items: seq<Item>,
                                           locals: set<string>, heads: set<string>)
    requires Inv(st, ix) && TopLevel(st) && IsOrder(order) && VisitItems(order, st, items).Some? && AllClosed(st.functions)
    requires |s| == 1 && ScopeRules.Run(s, ScopeCheckers.OfProgram(types, items)).Some? && AllItemsApart(items)
    requires Within(NamesOf(st.varEnv), locals) && s[0].Keys <= heads && locals !! heads && ProgramHeads(items) <= heads && ProgramLocals(items) <= locals
    ensures AllClosed(VisitItems(order, st, items).value.functions)
    decreases |items|
  {
    if items != [] {
      var a, b := ScopeCheckers.OfItem(types, items[0]), ScopeCheckers.OfProgram(types, items[1..]);
      OfProgramFirst(types, items);
      ScopeRestore.RunConcat(s, a, b);
      hide Inv, VisitItem, AllClosed, Within, ScopeRules.Run, ScopeCheckers.OfItem, ScopeCheckers.OfProgram, Below, ItemLocals;
      InvBelow(st, ix);
      ItemChecked(order, types, st, s, items[0], locals, heads);
      ItemScopes(types, s, items[0], heads);
      var ix1 := ItemKeeps(order, st, ix, items[0]);
      ItemsChecked(order, types, VisitItem(order, st, items[0]).value, ix1, ScopeRules.Run(s, a).value, items[1..], locals, heads);
    }
  }

  /** Every program that the checker lets through and that is lowered, and whose names are apart, refers
      in each function to variables of that function only, to parameters and earlier results. */
  lemma CheckedProgramClosed<D(!new)>(order: Order, types: ScopeCheckers.Types<D>, items: seq<Item>)
    requires IsOrder(order) && VisitItems(order, INITIAL, items).Some?
    requires ScopeRules.WellScoped(ScopeCheckers.OfProgram(types, items)) && NamesApart(items)
    ensures var st := VisitItems(order, INITIAL, items).value;
      forall r, i: nat, o :: IsPlace(st, r, i) && o in Get(st, r, i).operands && (o.Local? || o.PhiArg?) ==> OwnBefore(st, r.fn, o.v, Get(st, r, i).id)
  {
    var st := VisitItems(order, INITIAL, items).value;
    ScopeRules.StackDecidesScoping(ScopeCheckers.OfProgram(types, items));
    InitialInv();
    SsaShape(order, items);
    assert Within(NamesOf(INITIAL.varEnv), ProgramLocals(items));
    assert AllClosed(INITIAL.functions);
    hide Inv, Ssa, VisitItems, ScopeRules.Run, ScopeRules.WellScoped, ScopeCheckers.OfProgram, OwnBefore, Closed, Within;
    ItemsChecked(order, types, INITIAL, EMPTY, [map[]], items, ProgramLocals(items), ProgramHeads(items));
    forall r, i: nat, o | IsPlace(st, r, i) && o in Get(st, r, i).operands && (o.Local? || o.PhiArg?)
      ensures OwnBefore(st, r.fn, o.v, Get(st, r, i).id)
    {
      ClosedOwnBefore(st, r, i, o);
    }
  }
}
