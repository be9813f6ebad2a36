/** What the checker lets through refers to its own variables only, although scopes of earlier
    functions stay open. */
module MirChecked {
  import opened Ast
  import opened Statements
  import opened Scopes
  import opened Mir
  import opened MirFactory
  import opened MirBuilder
  import opened MirShape
  import opened MirProgram
  import opened MirMeaningFunction
  import opened MirClosed
  import opened MirTouches
  import opened MirFrame

  // ---- A function that touches own names only ---------------------------------------------

  lemma ParamHidden(n: nat, st: State)
    requires HasFunction(st) && n <= |st.varEnv|
    ensures AddParam(Hidden(n, st)) == Hidden(n, AddParam(st)) && AddParam(st).varEnv == st.varEnv && AddParam(st).globals == st.globals
    ensures AddParam(st).varId == st.varId + 1 && Hidden(n, st).varId == st.varId
  {}

  lemma {:induction false} ParamsAlone(f: Stack<Site>, st: State, params: seq<string>)
    requires Ready(st) && Framed(f, st) && Below(st.varEnv, st.varId) && VisitParams(st, params).Some?
    ensures Ready(Hidden(|f|, st)) && Mirrored(f, VisitParams(st, params), VisitParams(Hidden(|f|, st), params))
    ensures var st' := VisitParams(st, params).value; var ns := NamesOf(st.varEnv);
      Below(st'.varEnv, st'.varId) && NamesOf(st'.varEnv) == ns[|ns| - 1 := ns[|ns| - 1] + SetOf(params)] && st'.globals == st.globals
    decreases |params|
  {
    HiddenReady(f, st);
    if params == [] {
      NoParams(NamesOf(st.varEnv), params);
    } else {
      ParamAlone(f, st, params[0]);
      hide VarBind, AddParam, Below, SetOf, HiddenEnv, Hidden;
      var st1 := VarBind(AddParam(st), params[0], st.varId).value;
      ParamsAlone(f, st1, params[1..]);
      MoreParams(NamesOf(st.varEnv), params);
    }
  }

  lemma MoreParams(ns: Names, params: seq<string>)
    requires ns != [] && params != []
    ensures var n := |ns| - 1; var ns1 := ns[n := ns[n] + {params[0]}];
      ns1[n := ns1[n] + SetOf(params[1..])] == ns[n := ns[n] + SetOf(params)]
  {
    var n := |ns| - 1;
    assert params == [params[0]] + params[1..];
    assert ns[n] + {params[0]} + SetOf(params[1..]) == ns[n] + SetOf(params);
  }

  lemma NoParams(ns: Names, params: seq<string>)
    requires ns != [] && params == []
    ensures ns[|ns| - 1 := ns[|ns| - 1] + SetOf(params)] == ns
  {
    assert ns[|ns| - 1] + SetOf(params) == ns[|ns| - 1];
  }

  lemma ParamAlone(f: Stack<Site>, st: State, x: string)
    requires Ready(st) && Framed(f, st) && Below(st.varEnv, st.varId) && VarBind(AddParam(st), x, st.varId).Some?
    ensures HasBlock(AddParam(st)) && Ready(Hidden(|f|, st)) && HasBlock(AddParam(Hidden(|f|, st))) && Hidden(|f|, st).varId == st.varId
    ensures Mirrored(f, VarBind(AddParam(st), x, st.varId), VarBind(AddParam(Hidden(|f|, st)), x, st.varId))
    ensures var st' := VarBind(AddParam(st), x, st.varId).value; var ns := NamesOf(st.varEnv);
      Ready(st') && Below(st'.varEnv, st'.varId) && NamesOf(st'.varEnv) == ns[|ns| - 1 := ns[|ns| - 1] + {x}] && st'.globals == st.globals
  {
    hide *;
    ParamParts(f, st);
    BindMirrored(f, AddParam(st), x, st.varId);
    BindAdvances(AddParam(st), x, st.varId);
    BoundReady(AddParam(st), x, st.varId);
    var ns := NamesOf(st.varEnv);
    AdvancesIs(AddParam(st), VarBind(AddParam(st), x, st.varId).value, ns[|ns| - 1 := ns[|ns| - 1] + {x}], {});
  }

  lemma ParamParts(f: Stack<Site>, st: State)
    requires Ready(st) && Framed(f, st) && Below(st.varEnv, st.varId)
    ensures Ready(Hidden(|f|, st)) && HasFunction(st) && HasFunction(Hidden(|f|, st)) && st.varEnv != []
    ensures var st1 := AddParam(st);
      && HasBlock(st1) && Ready(st1) && Framed(f, st1) && Below(st1.varEnv, st1.varId) && st1.varEnv == st.varEnv && st1.globals == st.globals
      && HasBlock(AddParam(Hidden(|f|, st))) && AddParam(Hidden(|f|, st)) == Hidden(|f|, st1) && Hidden(|f|, st).varId == st.varId
  {
    HiddenReady(f, st);
    ParamHidden(|f|, st);
    BelowMore(st.varEnv, st.varId, st.varId + 1);
    HiddenReady(f, AddParam(st));
    hide Below, HiddenEnv, Hidden;
  }

  lemma BindMirrored(f: Stack<Site>, st: State, x: string, v: VarId)
    requires Ready(st) && Framed(f, st) && VarBind(st, x, v).Some?
    ensures Ready(Hidden(|f|, st)) && Mirrored(f, VarBind(st, x, v), VarBind(Hidden(|f|, st), x, v))
  {
    HiddenReady(f, st);
    BindHidden(f, st, x, v);
    hide VarBind, HiddenEnv, Hidden;
  }

  lemma BoundReady(st: State, x: string, v: VarId)
    requires Ready(st) && VarBind(st, x, v).Some?
    ensures Ready(VarBind(st, x, v).value)
  {
    hide VarBind;
  }

  lemma AdvancesIs(a: State, b: State, ns: Names, t: set<MirTouches.Place>)
    requires Advances(a, b, ns, t)
    ensures Below(b.varEnv, b.varId) && NamesOf(b.varEnv) == ns && b.globals == a.globals
  {
    hide Below, Touched;
  }

  /** The names in scope at the beginning of a body. */
  function BodyNames(st: State, params: seq<string>): Names {
    NamesOf(st.varEnv) + [SetOf(params)]
  }

  lemma EntryFrame(st: State, f: string)
    requires TopLevel(st) && Below(st.varEnv, st.varId)
    ensures var st1 := Entry(st, f); var blank := st.(varEnv := Blank(|st.varEnv|));
      && Ready(st1) && Framed(st.varEnv, st1) && Below(st1.varEnv, st1.varId) && st1.globals == st.globals
      && NamesOf(st1.varEnv) == NamesOf(st.varEnv) + [{}]
      && TopLevel(blank) && Hidden(|st.varEnv|, st1) == Entry(blank, f)
  {
    var st1 := Entry(st, f);
    var empty: Layer<Site> := map[];
    assert empty.Keys == {};
    assert st1.varEnv == st.varEnv + [empty];
    assert NamesOf(st1.varEnv) == NamesOf(st.varEnv) + [{}];
    assert HiddenEnv(|st.varEnv|, st1.varEnv) == Blank(|st.varEnv|) + [empty];
  }

  /** A function that touches names of its own scopes only refers to its own variables only, whatever
      is visible in front of it. */
  lemma OwnFunctionClosed(order: Order, st: State, f: string, params: seq<string>, code: seq<Stmt>)
    requires TopLevel(st) && IsOrder(order) && Below(st.varEnv, st.varId) && VisitItem(order, st, Function(f, params, code)).Some?
    requires AllOwn(|st.varEnv|, ListUses(BodyNames(st, params), st.globals, code))
    ensures var fs := VisitItem(order, st, Function(f, params, code)).value.functions;
      |fs| == |st.functions| + 1 && fs[..|st.functions|] == st.functions && Closed(fs[|st.functions|])
  {
    var blank := st.(varEnv := Blank(|st.varEnv|));
    assert Nameless(blank.varEnv) && TopLevel(blank);
    hide *;
    HiddenIsOrder(order, st.varEnv);
    AloneFunction(order, st, f, params, code);
    FunctionClosed(HiddenOrder(order, st.varEnv), blank, f, params, code);
  }

  lemma AloneFunction(order: Order, st: State, f: string, params: seq<string>, code: seq<Stmt>)
    requires TopLevel(st) && IsOrder(order) && Below(st.varEnv, st.varId) && VisitItem(order, st, Function(f, params, code)).Some?
    requires AllOwn(|st.varEnv|, ListUses(BodyNames(st, params), st.globals, code))
    ensures var blank := st.(varEnv := Blank(|st.varEnv|)); var order' := HiddenOrder(order, st.varEnv);
      && TopLevel(blank) && IsOrder(order') && VisitItem(order', blank, Function(f, params, code)).Some?
      && VisitItem(order', blank, Function(f, params, code)).value.functions == VisitItem(order, st, Function(f, params, code)).value.functions
  {
    hide *;
    var n := |st.varEnv|;
    var blank, order' := st.(varEnv := Blank(n)), HiddenOrder(order, st.varEnv);
    HiddenIsOrder(order, st.varEnv);
    EntryFrame(st, f);
    FunctionParts(order, st, f, params, code);
    var st1 := Entry(st, f);
    ParamsAlone(st.varEnv, st1, params);
    var st2 := VisitParams(st1, params).value;
    ParamsReady(st, f, params);
    MirroredIs(st.varEnv, VisitParams(st1, params), VisitParams(Hidden(n, st1), params));
    ListAlone(order, st.varEnv, st2, code);
    var st3 := VisitList(order, st2, code).value;
    MirroredIs(st.varEnv, VisitList(order, st2, code), VisitList(order', Hidden(n, st2), code));
    EnoughScopes(order, st, f, params, code, st3);
    SameFunctions(n, st3);
    FunctionIs(order', blank, f, params, code, Hidden(n, st2), Hidden(n, st3));
  }

  lemma MirroredIs(f: Stack<Site>, a: Option<State>, b: Option<State>)
    requires Mirrored(f, a, b)
    ensures a.Some? && Framed(f, a.value) && |f| < |a.value.varEnv| && b == Some(Hidden(|f|, a.value))
  {}

  lemma ParamsReady(st: State, f: string, params: seq<string>)
    requires TopLevel(st) && Below(st.varEnv, st.varId) && Ready(Entry(st, f)) && VisitParams(Entry(st, f), params).Some?
    ensures var st2 := VisitParams(Entry(st, f), params).value;
      && Ready(st2) && Framed(st.varEnv, st2) && Below(st2.varEnv, st2.varId) && NamesOf(st2.varEnv) == BodyNames(st, params) && st2.globals == st.globals
      && |st.varEnv| < |st2.varEnv| && Ready(Hidden(|st.varEnv|, st2))
  {
    hide *;
    EntryFrame(st, f);
    var st2 := VisitParams(Entry(st, f), params).value;
    ParamsAlone(st.varEnv, Entry(st, f), params);
    MirroredIs(st.varEnv, VisitParams(Entry(st, f), params), VisitParams(Hidden(|st.varEnv|, Entry(st, f)), params));
    BodyNamesAre(st, params);
    ParamsGrow(Entry(st, f), params);
    HiddenReady(st.varEnv, st2);
  }

  lemma ParamsGrow(st: State, params: seq<string>)
    requires Ready(st) && VisitParams(st, params).Some?
    ensures Ready(VisitParams(st, params).value)
  {
    hide VisitParams;
  }

  lemma BodyNamesAre(st: State, params: seq<string>)
    ensures var ns := NamesOf(st.varEnv) + [{}]; ns[|ns| - 1 := ns[|ns| - 1] + SetOf(params)] == BodyNames(st, params)
  {
    assert {} + SetOf(params) == SetOf(params);
  }

  lemma SameFunctions(n: nat, st: State)
    requires n <= |st.varEnv|
    ensures Hidden(n, st).functions == st.functions && |Hidden(n, st).varEnv| == |st.varEnv| && Hidden(n, st).fnEnv == st.fnEnv
  {}

  lemma EnoughScopes(order: Order, st: State, f: string, params: seq<string>, code: seq<Stmt>, st3: State)
    requires TopLevel(st) && IsOrder(order) && VisitItem(order, st, Function(f, params, code)).Some? && Framed(st.varEnv, st3)
    requires Ready(Entry(st, f)) && VisitParams(Entry(st, f), params).Some?
    requires VisitList(order, VisitParams(Entry(st, f), params).value, code) == Some(st3)
    ensures PopEnv(Hidden(|st.varEnv|, st3)).Some?
  {
    hide VisitParams, VisitList, AddBlock, AddFunctionDefinition, HiddenEnv;
  }

  lemma FunctionIs(order: Order, st: State, f: string, params: seq<string>, code: seq<Stmt>, st2: State, st3: State)
    requires TopLevel(st) && IsOrder(order) && Ready(Entry(st, f)) && VisitParams(Entry(st, f), params) == Some(st2) && Ready(st2)
    requires VisitList(order, st2, code) == Some(st3) && PopEnv(st3).Some?
    ensures VisitItem(order, st, Function(f, params, code)).Some? && VisitItem(order, st, Function(f, params, code)).value.functions == st3.functions
  {
    hide VisitParams, VisitList, AddBlock, AddFunctionDefinition;
  }
}
