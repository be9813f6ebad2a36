/** Programs that pass the checker and are lowered to code that refers to variables of another
    function. */
module CheckedExamples {
  import opened Ast
  import opened Statements
  import opened Scopes
  import opened Mir
  import opened MirFactory
  import opened MirBuilder
  import opened MirShape
  import opened MirProgram
  import opened MirClosed
  import opened MirExamples
  import opened CheckedClosed
  import CheckedNames
  import ScopeRules
  import ScopeRestore
  import ScopeCheckers
  import ScopeOccurrences

  // ---- A local name that becomes the name of a function -----------------------------------

  /** `f` leaves a scope with `x` open, then `x` is declared as a function, and `g` returns it. */
  function Renamed(f: string, g: string, x: string): seq<Item> {
    [Function(f, [], Leaking(x)), FunctionDecl(x), Function(g, [], Returning(x))]
  }

  lemma EmptyBlock<D>(s: ScopeRules.Symbols<D>)
    requires s != []
    ensures ScopeRules.Run(s, ScopeCheckers.Block([])) == Some(s)
  {
    ScopeOccurrences.RunBlock(s, []);
    ScopeOccurrences.RunNothing(s + [map[]]);
    hide ScopeRules.Run, ScopeCheckers.Block;
  }

  lemma LeakingEvents<D>(types: ScopeCheckers.Types<D>, x: string)
    ensures ScopeCheckers.OfList(types, Leaking(x)) ==
      [ScopeRules.Bind(x, types(ScopeCheckers.StmtBinder(Let(x, Some(TRUE)))), true)] + (ScopeCheckers.Block([]) + ScopeCheckers.Block([]))
  {
    hide ScopeCheckers.Block;
    var code := Leaking(x);
    CheckedNames.OfListFirst(types, code);
    var rest := code[1..];
    assert rest == [EmptyIf(Else([]))];
    CheckedNames.OfListFirst(types, rest);
    assert rest[1..] == [] && ScopeCheckers.OfList(types, rest[1..]) == [];
    assert ScopeCheckers.OfExpr<D>(TRUE) == [];
    assert ScopeCheckers.OfList(types, []) == [];
    assert ScopeCheckers.OfStmt(types, EmptyIf(Else([]))) == [] + [] + ScopeCheckers.Block([]) + ScopeCheckers.Block([]);
    assert ScopeCheckers.OfStmt(types, Let(x, Some(TRUE))) == [] + [ScopeRules.Bind(x, types(ScopeCheckers.StmtBinder(Let(x, Some(TRUE)))), true)];
  }

  /** Binding a free name. */
  lemma FreeBinds<D>(s: ScopeRules.Symbols<D>, e: ScopeRules.Event<D>)
    requires s != [] && e.Bind? && forall j :: 0 <= j < |s| ==> e.name !in s[j]
    ensures ScopeRules.Step(s, e).Some? && |ScopeRules.Step(s, e).value| == |s|
    ensures var s' := ScopeRules.Step(s, e).value; var n := |s| - 1;
      s'[n].Keys == s[n].Keys + {e.name} && forall j :: 0 <= j < n ==> s'[j] == s[j]
  {
    ScopeRules.NotFound(s, e.name);
    hide Find;
  }

  /** Its body passes. */
  lemma LeakingPasses<D>(types: ScopeCheckers.Types<D>, s: ScopeRules.Symbols<D>, x: string)
    requires |s| == 2 && x !in s[0] && x !in s[1]
    ensures ScopeRules.Run(s, ScopeCheckers.OfList(types, Leaking(x))).Some?
  {
    var bind := ScopeRules.Bind(x, types(ScopeCheckers.StmtBinder(Let(x, Some(TRUE)))), true);
    LeakingEvents(types, x);
    FreeBinds(s, bind);
    hide ScopeRules.Run, ScopeRules.Step, ScopeCheckers.Block, ScopeCheckers.OfList;
    var s1 := ScopeRules.Step(s, bind).value;
    ScopeOccurrences.RunOne(s, bind);
    ScopeRestore.RunConcat(s, [bind], ScopeCheckers.Block([]) + ScopeCheckers.Block([]));
    EmptyBlock(s1);
    ScopeRestore.RunConcat(s1, ScopeCheckers.Block([]), ScopeCheckers.Block([]));
  }

  lemma ReturningEvents<D>(types: ScopeCheckers.Types<D>, x: string)
    ensures ScopeCheckers.OfList(types, Returning(x)) == [ScopeRules.Use(x)]
  {
    var code := Returning(x);
    CheckedNames.OfListFirst(types, code);
    assert code[1..] == [] && ScopeCheckers.OfList(types, code[1..]) == [];
    assert ScopeCheckers.OfExpr<D>(Identifier(x)) == [ScopeRules.Use(x)];
  }

  /** A function without parameters passes when its name is free and its body passes. */
  lemma FunctionPasses<D>(types: ScopeCheckers.Types<D>, s: ScopeRules.Symbols<D>, i: Item)
    requires |s| == 1 && i.Function? && i.params == [] && i.fname !in s[0]
    requires var s1 := ScopeRules.Step(s, ScopeRules.Bind(i.fname, types(ScopeCheckers.ItemBinder(i)), true));
      s1.Some? ==> ScopeRules.Run(s1.value + [map[]], ScopeCheckers.OfList(types, i.code)).Some?
    ensures ScopeRules.Run(s, ScopeCheckers.OfItem(types, i)).Some?
    ensures var s' := ScopeRules.Run(s, ScopeCheckers.OfItem(types, i)).value; |s'| == 1 && s'[0].Keys <= s[0].Keys + {i.fname}
  {
    var bind := ScopeRules.Bind(i.fname, types(ScopeCheckers.ItemBinder(i)), true);
    FreeBinds(s, bind);
    var s1 := ScopeRules.Step(s, bind).value;
    var body := ScopeCheckers.OfList(types, i.code);
    assert ScopeCheckers.OfItem(types, i) == [bind] + ScopeCheckers.Block(body) by {
      assert ScopeCheckers.OfParams(types, i, 0) == [] && [] + body == body;
    }
    ScopeRestore.RunConcat(s, [bind], ScopeCheckers.Block(body));
    ScopeOccurrences.RunOne(s, bind);
    ScopeOccurrences.RunBlock(s1, body);
    ScopeCheckers.ListBalanced(types, i.code);
    BodyDepth(s1 + [map[]], body);
    if ScopeRules.Run(s, ScopeCheckers.OfItem(types, i)).Some? { ScopeCheckers.FunctionKeepsScopes(types, s, i); }
    hide ScopeRules.Run, ScopeRules.Step, ScopeCheckers.Block, ScopeCheckers.OfList, ScopeCheckers.OfItem, ScopeRestore.Balanced, ScopeRestore.Kept;
  }

  lemma BodyDepth<D>(s: ScopeRules.Symbols<D>, body: seq<ScopeRules.Event<D>>)
    requires s != [] && ScopeRestore.Balanced(body) && ScopeRules.Run(s, body).Some?
    ensures |ScopeRules.Run(s, body).value| == |s|
  {
    assert body[..|body|] == body;
    ScopeRestore.RunKept(s, body, |body|);
    hide ScopeRules.Run, ScopeRestore.Kept;
  }

  /** The whole program passes. */
  lemma RenamedPasses<D(!new)>(types: ScopeCheckers.Types<D>, f: string, g: string, x: string)
    requires f != g && f != x && g != x
    ensures ScopeRules.WellScoped(ScopeCheckers.OfProgram(types, Renamed(f, g, x)))
  {
    var items := Renamed(f, g, x);
    var i1, i2, i3 := items[0], items[1], items[2];
    var s0: ScopeRules.Symbols<D> := [map[]];
    RenamedEvents(types, f, g, x);
    FirstPasses(types, f, x);
    var s1 := ScopeRules.Run(s0, ScopeCheckers.OfItem(types, i1)).value;
    DeclaredPasses(types, s1, x);
    var s2 := ScopeRules.Run(s1, ScopeCheckers.OfItem(types, i2)).value;
    LastPasses(types, s2, g, x);
    hide ScopeRules.Run, ScopeCheckers.OfItem, ScopeCheckers.OfProgram, ScopeRules.WellScoped;
    ScopeRestore.RunConcat(s0, ScopeCheckers.OfItem(types, i1), ScopeCheckers.OfItem(types, i2) + ScopeCheckers.OfItem(types, i3));
    ScopeRestore.RunConcat(s1, ScopeCheckers.OfItem(types, i2), ScopeCheckers.OfItem(types, i3));
    ScopeRules.StackDecidesScoping(ScopeCheckers.OfProgram(types, items));
  }

  lemma RenamedEvents<D>(types: ScopeCheckers.Types<D>, f: string, g: string, x: string)
    ensures var items := Renamed(f, g, x);
      ScopeCheckers.OfProgram(types, items) ==
        ScopeCheckers.OfItem(types, items[0]) + (ScopeCheckers.OfItem(types, items[1]) + ScopeCheckers.OfItem(types, items[2]))
  {
    hide ScopeCheckers.OfItem;
    var items := Renamed(f, g, x);
    OfProgramFirst(types, items);
    var two := items[1..];
    OfProgramFirst(types, two);
    var one := two[1..];
    OfProgramFirst(types, one);
    assert two[0] == items[1] && one[0] == items[2] && one[1..] == [];
    OfProgramLast<D>(types, []);
    hide ScopeCheckers.OfProgram;
  }

  lemma FirstPasses<D>(types: ScopeCheckers.Types<D>, f: string, x: string)
    requires f != x
    ensures ScopeRules.Run([map[]], ScopeCheckers.OfItem(types, Function(f, [], Leaking(x)))).Some?
    ensures var s' := ScopeRules.Run([map[]], ScopeCheckers.OfItem(types, Function(f, [], Leaking(x)))).value; |s'| == 1 && s'[0].Keys <= {f}
  {
    var s0: ScopeRules.Symbols<D> := [map[]];
    var i := Function(f, [], Leaking(x));
    var bind := ScopeRules.Bind(f, types(ScopeCheckers.ItemBinder(i)), true);
    FreeBinds(s0, bind);
    hide ScopeRules.Run, ScopeRules.Step, ScopeCheckers.OfItem, ScopeCheckers.OfList;
    LeakingPasses(types, ScopeRules.Step(s0, bind).value + [map[]], x);
    FunctionPasses(types, s0, i);
  }

  lemma DeclaredPasses<D>(types: ScopeCheckers.Types<D>, s: ScopeRules.Symbols<D>, x: string)
    requires |s| == 1 && x !in s[0]
    ensures ScopeRules.Run(s, ScopeCheckers.OfItem(types, FunctionDecl(x))).Some?
    ensures var s' := ScopeRules.Run(s, ScopeCheckers.OfItem(types, FunctionDecl(x))).value; |s'| == 1 && s'[0].Keys == s[0].Keys + {x}
  {
    var bind := ScopeRules.Bind(x, types(ScopeCheckers.ItemBinder(FunctionDecl(x))), false);
    FreeBinds(s, bind);
    ScopeOccurrences.RunOne(s, bind);
    hide ScopeRules.Run, ScopeRules.Step;
  }

  lemma LastPasses<D>(types: ScopeCheckers.Types<D>, s: ScopeRules.Symbols<D>, g: string, x: string)
    requires |s| == 1 && x in s[0] && g !in s[0]
    ensures ScopeRules.Run(s, ScopeCheckers.OfItem(types, Function(g, [], Returning(x)))).Some?
  {
    var i := Function(g, [], Returning(x));
    var bind := ScopeRules.Bind(g, types(ScopeCheckers.ItemBinder(i)), true);
    FreeBinds(s, bind);
    var inner := ScopeRules.Step(s, bind).value + [map[]];
    assert x in inner[0];
    ScopeRules.NotFound(inner, x);
    ReturningEvents(types, x);
    ScopeOccurrences.RunOne(inner, ScopeRules.Use(x));
    hide ScopeRules.Run, ScopeCheckers.OfItem, ScopeCheckers.OfList, Find;
    FunctionPasses(types, s, i);
  }

  /** It is lowered, and `g` refers to a variable of `f`: names have to be apart. */
  lemma RenamedForeign<D(!new)>(order: Order, types: ScopeCheckers.Types<D>, f: string, g: string, x: string)
    requires IsOrder(order) && f != g && f != x && g != x
    ensures ScopeRules.WellScoped(ScopeCheckers.OfProgram(types, Renamed(f, g, x))) && VisitItems(order, INITIAL, Renamed(f, g, x)).Some?
    ensures var fs := VisitItems(order, INITIAL, Renamed(f, g, x)).value.functions; fs != [] && !Closed(fs[|fs| - 1])
  {
    RenamedPasses(types, f, g, x);
    hide ScopeRules.WellScoped, ScopeCheckers.OfProgram;
    RenamedLowers(order, f, g, x);
  }

  lemma RenamedLowers(order: Order, f: string, g: string, x: string)
    requires IsOrder(order)
    ensures VisitItems(order, INITIAL, Renamed(f, g, x)).Some?
    ensures var fs := VisitItems(order, INITIAL, Renamed(f, g, x)).value.functions; fs != [] && !Closed(fs[|fs| - 1])
  {
    hide *;
    RenamedItems(f, g, x);
    var items := Renamed(f, g, x);
    var st1, st2, ix := RenamedVisible(order, items[0], items[1], f, x);
    VisibleForeign(order, st2, ix, g, x);
    ThreeItems(order, items, st1, st2, VisitItem(order, st2, items[2]).value);
  }

  /** In front of `g` the name is visible. */
  lemma RenamedVisible(order: Order, i1: Item, i2: Item, f: string, x: string) returns (st1: State, st2: State, ix: Index)
    requires IsOrder(order) && i1 == Function(f, [], Leaking(x)) && i2 == FunctionDecl(x)
    ensures TopLevel(INITIAL) && TopLevel(st1) && TopLevel(st2) && Inv(st2, ix) && x !in st2.globals && Find(st2.varEnv, x).Some?
    ensures VisitItem(order, INITIAL, i1) == Some(st1) && VisitItem(order, st1, i2) == Some(st2)
  {
    assert TopLevel(INITIAL);
    hide *;
    LeakingItem(order, f, x);
    InitialInv();
    st1 := VisitItem(order, INITIAL, i1).value;
    DeclarationLowers(order, st1, x);
    st2 := VisitItem(order, st1, i2).value;
    VisibleFound(st2.varEnv, x);
    var ix1 := ItemKeeps(order, INITIAL, EMPTY, i1);
    ix := ItemKeeps(order, st1, ix1, i2);
  }

  lemma RenamedItems(f: string, g: string, x: string)
    ensures var items := Renamed(f, g, x);
      |items| == 3 && items[0] == Function(f, [], Leaking(x)) && items[1] == FunctionDecl(x) && items[2] == Function(g, [], Returning(x))
  {}

  lemma VisibleFound(env: Stack<Site>, x: string)
    requires |env| == 2 && x in env[1]
    ensures Find(env, x).Some?
  {}

  lemma DeclarationLowers(order: Order, st: State, x: string)
    requires TopLevel(st) && IsOrder(order)
    ensures VisitItem(order, st, FunctionDecl(x)).Some?
    ensures var st' := VisitItem(order, st, FunctionDecl(x)).value; st'.varEnv == st.varEnv && st'.globals == st.globals
  {}

  lemma ThreeItems(order: Order, items: seq<Item>, st1: State, st2: State, st3: State)
    requires IsOrder(order) && |items| == 3 && TopLevel(st1) && TopLevel(st2)
    requires VisitItem(order, INITIAL, items[0]) == Some(st1) && VisitItem(order, st1, items[1]) == Some(st2) && VisitItem(order, st2, items[2]) == Some(st3)
    ensures VisitItems(order, INITIAL, items) == Some(st3)
  {
    hide VisitItem;
    var two := items[1..];
    var one := two[1..];
    assert two[0] == items[1] && one[0] == items[2] && one[1..] == [];
    assert VisitItems(order, st3, one[1..]) == Some(st3);
    assert VisitItems(order, st2, one) == Some(st3);
    assert VisitItems(order, st1, two) == Some(st3);
  }
}
