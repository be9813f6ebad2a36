/** The names the lowering touches against the scopes of the checker: what the checker finds in a
    scope of the function is found in a scope of the function when it is lowered. */
module CheckedNames {
  import opened Ast
  import opened Statements
  import opened Scopes
  import opened ScopeRules
  import opened ScopeRestore
  import opened ScopeCheckers
  import opened ScopeOccurrences
  import MirTouches
  import MirFrame

  type Names = MirTouches.Names
  type Place = MirTouches.Place

  /** A name of one of the checker's scopes inside the function is in a scope from `base` on, and the
      names of the outer scopes there are not global. */
  ghost predicate Covers<D>(s: Symbols<D>, ns: Names, base: nat) {
    && |s| >= 2 && base < |ns|
    && (forall j, x :: 1 <= j < |s| && x in s[j] ==> exists i :: base <= i < |ns| && x in ns[i])
    && (forall i, x :: 0 <= i < base && x in ns[i] ==> x !in s[0])
  }

  /** The same scopes, with other symbols in them. */
  ghost predicate SameScopes<D>(s: Symbols<D>, s': Symbols<D>) {
    |s'| == |s| && forall j :: 0 <= j < |s| ==> s'[j].Keys == s[j].Keys
  }

  /** Scopes are added, and only the innermost one of `a` has new names. */
  ghost predicate Outward(a: Names, b: Names) {
    && a != [] && |a| <= |b| && (forall i :: 0 <= i < |a| - 1 ==> b[i] == a[i]) && a[|a| - 1] <= b[|a| - 1]
  }

  lemma CoversMore<D>(s: Symbols<D>, ns: Names, s': Symbols<D>, ns': Names, base: nat)
    requires Covers(s, ns, base) && SameScopes(s, s') && Outward(ns, ns')
    ensures Covers(s', ns', base)
  {
    forall j, x | 1 <= j < |s'| && x in s'[j] ensures exists i :: base <= i < |ns'| && x in ns'[i] {
      assert s'[j].Keys == s[j].Keys;
      assert x in s[j];
      var i :| base <= i < |ns| && x in ns[i];
      assert x in ns'[i];
    }
    forall i, x | 0 <= i < base && x in ns'[i] ensures x !in s'[0] {
      assert x in ns[i] && s'[0].Keys == s[0].Keys;
    }
  }

  lemma OutwardTrans(a: Names, b: Names, c: Names)
    requires Outward(a, b) && Outward(b, c)
    ensures Outward(a, c)
  {}

  lemma OutwardSelf(a: Names)
    requires a != []
    ensures Outward(a, a)
  {}

  lemma SameTrans<D>(a: Symbols<D>, b: Symbols<D>, c: Symbols<D>)
    requires SameScopes(a, b) && SameScopes(b, c)
    ensures SameScopes(a, c)
  {}

  // ---- Expressions ------------------------------------------------------------------------

  /** What is touched is looked up, and found where the name is. */
  lemma {:induction false} TouchedLooked(ns: Names, g: set<string>, e: Expr)
    ensures forall p :: p in MirTouches.ExprTouches(ns, g, e) ==> p.1 in LookedUp(e) && MirTouches.Home(ns, p.1) == Some(p.0)
    decreases e, 1
  {
    match e
    case FunctionCall(_, args) => ArgsTouchedLooked(ns, g, args);
    case Prefix(_, x) => TouchedLooked(ns, g, x);
    case Infix(_, l, r) =>
      TouchedLooked(ns, g, l);
      TouchedLooked(ns, g, r);
    case _ =>
  }

  lemma {:induction false} ArgsTouchedLooked(ns: Names, g: set<string>, args: seq<Expr>)
    ensures forall p :: p in MirTouches.ArgsTouch(ns, g, args) ==> p.1 in LookedUpAll(args) && MirTouches.Home(ns, p.1) == Some(p.0)
    decreases args, 0
  {
    if args != [] {
      TouchedLooked(ns, g, args[0]);
      ArgsTouchedLooked(ns, g, args[1..]);
      LookedUpFirst(args);
    }
  }

  lemma {:induction false} LookedUpFirst(args: seq<Expr>)
    requires args != []
    ensures forall x :: x in LookedUpAll(args) <==> x in LookedUp(args[0]) || x in LookedUpAll(args[1..])
    decreases |args|
  {
    if |args| == 1 {
      assert args[..0] == [] && args[1..] == [];
    } else {
      LookedUpFirst(args[..|args| - 1]);
      assert args[1..][..|args| - 2] == args[..|args| - 1][1..];
    }
  }

  lemma NameOwned<D>(s: Symbols<D>, ns: Names, base: nat, x: string)
    requires Covers(s, ns, base) && Find(s, x).Some? && MirTouches.Home(ns, x).Some?
    ensures MirTouches.Home(ns, x).value >= base
  {
    NotFound(s, x);
    var j :| 0 <= j < |s| && x in s[j];
    if j >= 1 {
      var i :| base <= i < |ns| && x in ns[i];
    }
  }

  /** An expression that passes touches names of the function's own scopes only. */
  lemma ExprOwned<D>(s: Symbols<D>, ns: Names, base: nat, g: set<string>, e: Expr)
    requires Covers(s, ns, base) && Run(s, OfExpr(e)).Some?
    ensures MirFrame.AllOwn(base, MirTouches.ExprTouches(ns, g, e)) && Run(s, OfExpr(e)) == Some(s)
  {
    OfExprRuns(s, e);
    TouchedLooked(ns, g, e);
    hide Run, MirTouches.ExprTouches, LookedUp, Find, AcceptedExpr;
    forall p | p in MirTouches.ExprTouches(ns, g, e) ensures p.0 >= base { NameOwned(s, ns, base, p.1); }
  }

  lemma OptionOwned<D>(s: Symbols<D>, ns: Names, base: nat, g: set<string>, e: Option<Expr>)
    requires Covers(s, ns, base) && Run(s, OfOption(e)).Some?
    ensures MirFrame.AllOwn(base, MirTouches.OptionTouches(ns, g, e)) && Run(s, OfOption(e)) == Some(s)
  {
    RunNothing(s);
    if e.Some? { ExprOwned(s, ns, base, g, e.value); }
    hide Run;
  }

  // ---- Statements -------------------------------------------------------------------------

  /** The names a list binds in its own scope. */
  function Bound(s: Stmt): set<string> {
    match s
    case Let(x, _) => {x}
    case Var(x, _) => {x}
    case If(first, _, _, _) => if first.None? then {} else Bound(first.value)
    case Loop(first, _, _, _) => if first.None? then {} else Bound(first.value)
    case _ => {}
  }

  function AllBound(ss: seq<Stmt>): set<string> {
    if ss == [] then {} else AllBound(ss[..|ss| - 1]) + Bound(ss[|ss| - 1])
  }

  /** What the step of a loop looks up; a step is an assignment or an expression. */
  function StepNames(s: Stmt): Option<seq<string>> {
    match s
    case Assign(_, target, value) => Some(LookedUp(target) + LookedUp(value))
    case Increment(x) => Some(LookedUp(x))
    case Decrement(x) => Some(LookedUp(x))
    case ExprStmt(e) => Some(LookedUp(e))
    case _ => None
  }

  /** No step uses a name that is bound in the scope of its body: the checker visits the step behind
      the body, the lowering in front of it. */
  predicate StepsApart(s: Stmt)
    decreases s, 1
  {
    match s
    case If(first, _, onTrue, onFalse) =>
      (first.Some? ==> StepsApart(first.value)) && AllApart(onTrue) && (onFalse.Else? ==> AllApart(onFalse.code))
    case Loop(first, _, post, body) =>
      && (first.Some? ==> StepsApart(first.value)) && AllApart(body)
      && (post.Some? ==> StepNames(post.value).Some? && forall x <- StepNames(post.value).value :: x !in AllBound(body))
    case _ => true
  }

  predicate AllApart(ss: seq<Stmt>)
    decreases ss, 0
  {
    ss == [] || (StepsApart(ss[0]) && AllApart(ss[1..]))
  }

  lemma {:induction false} AfterOutward(ns: Names, s: Stmt)
    requires ns != []
    ensures Outward(ns, MirTouches.After(ns, s))
    decreases s, 1
  {
    OutwardSelf(ns);
    hide Outward;
    match s
    case Let(x, _) => LastOutward(ns, x);
    case Var(x, _) => LastOutward(ns, x);
    case If(first, _, onTrue, onFalse) =>
      var ns1 := if first.None? then ns else MirTouches.After(ns, first.value);
      if first.Some? { AfterOutward(ns, first.value); }
      if onFalse.Else? {
        InsideOutward(ns1, onTrue);
        OutwardTrans(ns, ns1, MirTouches.AllAfter(ns1 + [{}], onTrue));
      }
    case Loop(first, _, post, body) =>
      var ns1 := if first.None? then ns else MirTouches.After(ns, first.value);
      if first.Some? { AfterOutward(ns, first.value); }
      var ns2 := if post.None? then ns1 else MirTouches.After(ns1, post.value);
      if post.Some? {
        AfterOutward(ns1, post.value);
        OutwardTrans(ns, ns1, ns2);
      }
      BlockOutward(ns2, body);
      OutwardTrans(ns, ns2, MirTouches.BlockAfter(ns2, body));
    case _ =>
  }

  lemma LastOutward(ns: Names, x: string)
    requires ns != []
    ensures Outward(ns, ns[|ns| - 1 := ns[|ns| - 1] + {x}])
  {}

  lemma {:induction false} AllOutward(ns: Names, ss: seq<Stmt>)
    requires ns != []
    ensures Outward(ns, MirTouches.AllAfter(ns, ss))
    decreases ss, 0
  {
    OutwardSelf(ns);
    hide Outward;
    if ss != [] {
      AfterOutward(ns, ss[0]);
      AllOutward(MirTouches.After(ns, ss[0]), ss[1..]);
      OutwardTrans(ns, MirTouches.After(ns, ss[0]), MirTouches.AllAfter(MirTouches.After(ns, ss[0]), ss[1..]));
    }
  }

  /** In a scope of its own a list does not bind outside. */
  lemma {:induction false} InsideOutward(ns: Names, ss: seq<Stmt>)
    requires ns != []
    ensures var r := MirTouches.AllAfter(ns + [{}], ss); Outward(ns, r) && Outward(ns + [{}], r)
    decreases ss, 1
  {
    hide MirTouches.AllAfter;
    AllOutward(ns + [{}], ss);
  }

  lemma {:induction false} BlockOutward(ns: Names, ss: seq<Stmt>)
    requires ns != []
    ensures Outward(ns, MirTouches.BlockAfter(ns, ss))
    decreases ss, 2
  {
    hide MirTouches.AllAfter;
    InsideOutward(ns, ss);
  }

  /** A statement that passes touches names of the function's own scopes only, and leaves it so. */
  ghost predicate Owned<D>(s: Symbols<D>, s': Symbols<D>, ns: Names, base: nat, t: set<Place>) {
    MirFrame.AllOwn(base, t) && Covers(s', ns, base) && |s'| == |s|
  }

  lemma OpenCovers<D>(s: Symbols<D>, ns: Names, base: nat)
    requires Covers(s, ns, base)
    ensures Covers(s + [map[]], ns + [{}], base)
  {
    var s', ns' := s + [map[]], ns + [{}];
    forall j, x | 1 <= j < |s'| && x in s'[j] ensures exists i :: base <= i < |ns'| && x in ns'[i] {
      var i :| base <= i < |ns| && x in ns[i];
      assert x in ns'[i];
    }
  }

  lemma BindCovers<D>(s: Symbols<D>, ns: Names, base: nat, x: string, d: D)
    requires Covers(s, ns, base) && Step(s, Bind(x, d, true)).Some?
    ensures var n := |ns| - 1; var s' := Step(s, Bind(x, d, true)).value; Covers(s', ns[n := ns[n] + {x}], base) && |s'| == |s|
  {
    hide Find;
    var n := |ns| - 1;
    var s', ns' := Step(s, Bind(x, d, true)).value, ns[n := ns[n] + {x}];
    assert x in ns'[n];
    assert forall j, y :: 1 <= j < |s| && y in s'[j] ==> y == x || y in s[j];
    assert s'[0].Keys == s[0].Keys;
    forall j, y | 1 <= j < |s'| && y in s'[j] ensures exists i :: base <= i < |ns'| && y in ns'[i] {
      if y != x {
        var i :| base <= i < |ns| && y in ns[i];
        assert y in ns'[i];
      }
    }
  }

  lemma BindingOwned<D>(s: Symbols<D>, ns: Names, base: nat, g: set<string>, x: string, d: D, init: Option<Expr>)
    requires Covers(s, ns, base) && Run(s, OfOption(init) + [Bind(x, d, true)]).Some?
    ensures var n := |ns| - 1; var s' := Run(s, OfOption(init) + [Bind(x, d, true)]).value;
      Owned(s, s', ns[n := ns[n] + {x}], base, MirTouches.OptionTouches(ns, g, init))
  {
    hide Covers, MirTouches.OptionTouches, Step, MirFrame.AllOwn;
    CoversNotEmpty(s, ns, base);
    RunConcat(s, OfOption(init), [Bind(x, d, true)]);
    hide Run;
    OptionOwned(s, ns, base, g, init);
    RunOne(s, Bind(x, d, true));
    BindCovers(s, ns, base, x, d);
  }

  lemma CoversNotEmpty<D>(s: Symbols<D>, ns: Names, base: nat)
    requires Covers(s, ns, base)
    ensures s != [] && ns != [] && |s| >= 2
  {}

  lemma AssignOwned<D>(s: Symbols<D>, ns: Names, base: nat, g: set<string>, op: AssignOp, target: Expr, value: Expr)
    requires Covers(s, ns, base) && Run(s, OfExpr(target) + OfExpr(value)).Some?
    ensures MirFrame.AllOwn(base, MirTouches.StmtTouches(ns, g, Assign(op, target, value))) && Run(s, OfExpr(target) + OfExpr(value)) == Some(s)
  {
    CoversNotEmpty(s, ns, base);
    RunConcat(s, OfExpr(target), OfExpr(value));
    ExprOwned(s, ns, base, g, target);
    ExprOwned(s, ns, base, g, value);
    if target.Identifier? {
      RunOne(s, Use(target.id));
      if MirTouches.Home(ns, target.id).Some? { NameOwned(s, ns, base, target.id); }
    }
    hide Run, MirTouches.ExprTouches, Find, Covers;
  }

  /** A list in a scope of its own. */
  lemma {:induction false} StmtOwned<D>(types: Types<D>, s: Symbols<D>, ns: Names, base: nat, g: set<string>, t: Stmt)
    requires Covers(s, ns, base) && StepsApart(t) && Run(s, OfStmt(types, t)).Some?
    ensures Owned(s, Run(s, OfStmt(types, t)).value, MirTouches.After(ns, t), base, MirFrame.StmtUses(ns, g, t))
    decreases t, 1
  {
    CoversNotEmpty(s, ns, base);
    RunNothing(s);
    hide Run, Covers, Block, MirTouches.ExprTouches;
    match t
    case Let(x, init) => BindingOwned(s, ns, base, g, x, types(StmtBinder(t)), init);
    case Var(x, init) => BindingOwned(s, ns, base, g, x, types(StmtBinder(t)), init);
    case Assign(op, target, value) => AssignOwned(s, ns, base, g, op, target, value);
    case Increment(x) => ExprOwned(s, ns, base, g, x);
    case Decrement(x) => ExprOwned(s, ns, base, g, x);
    case ExprStmt(e) => ExprOwned(s, ns, base, g, e);
    case Return(result) => ReturnOwned(types, s, ns, base, g, result);
    case If(_, _, _, _) => IfOwned(types, s, ns, base, g, t);
    case Loop(_, _, _, _) => LoopOwned(types, s, ns, base, g, t);
    case _ =>
  }

  lemma ReturnOwned<D>(types: Types<D>, s: Symbols<D>, ns: Names, base: nat, g: set<string>, result: Option<Expr>)
    requires Covers(s, ns, base) && Run(s, OfStmt(types, Return(result))).Some?
    ensures Owned(s, Run(s, OfStmt(types, Return(result))).value, ns, base, MirTouches.OptionTouches(ns, g, result))
  {
    if result.Some? {
      ExprOwned(s, ns, base, g, result.value);
    } else {
      RunOne(s, Event<D>.Reject);
    }
    hide Run, Covers, MirTouches.ExprTouches;
  }

  lemma {:induction false} OfListFirst<D>(types: Types<D>, ss: seq<Stmt>)
    requires ss != []
    ensures OfList(types, ss) == OfStmt(types, ss[0]) + OfList(types, ss[1..])
    decreases |ss|
  {
    hide OfStmt, OfList;
    var n := |ss| - 1;
    var rest := ss[1..];
    OfListLast(types, ss);
    OfListLast(types, rest);
    OfListLast<D>(types, []);
    if n == 0 {
      assert ss[..n] == [] && rest == [];
    } else {
      OfListFirst(types, ss[..n]);
      assert rest[..n - 1] == ss[..n][1..] && rest[n - 1] == ss[n];
    }
  }

  lemma OfListLast<D>(types: Types<D>, ss: seq<Stmt>)
    ensures OfList(types, ss) == if ss == [] then [] else OfList(types, ss[..|ss| - 1]) + OfStmt(types, ss[|ss| - 1])
  {
    hide OfStmt;
  }

  lemma OwnedIs<D>(s: Symbols<D>, s': Symbols<D>, ns: Names, base: nat, t: set<Place>)
    requires Owned(s, s', ns, base, t)
    ensures MirFrame.AllOwn(base, t) && Covers(s', ns, base) && |s'| == |s|
  {}

  lemma OwnedThen<D>(a: Symbols<D>, b: Symbols<D>, ns: Names, base: nat, t: set<Place>, c: Symbols<D>, ns': Names, u: set<Place>)
    requires Owned(a, b, ns, base, t) && Owned(b, c, ns', base, u)
    ensures Owned(a, c, ns', base, t + u)
  {
    hide Covers;
  }

  lemma {:induction false} ListOwned<D>(types: Types<D>, s: Symbols<D>, ns: Names, base: nat, g: set<string>, ss: seq<Stmt>)
    requires Covers(s, ns, base) && AllApart(ss) && Run(s, OfList(types, ss)).Some?
    ensures Owned(s, Run(s, OfList(types, ss)).value, MirTouches.AllAfter(ns, ss), base, MirFrame.ListUses(ns, g, ss))
    decreases ss, 0
  {
    CoversNotEmpty(s, ns, base);
    RunNothing(s);
    if ss != [] {
      OfListFirst(types, ss);
      hide Run, Covers, MirTouches.After, MirFrame.StmtUses, OfStmt, OfList, Owned;
      var a, b := OfStmt(types, ss[0]), OfList(types, ss[1..]);
      RunConcat(s, a, b);
      StmtOwned(types, s, ns, base, g, ss[0]);
      var s1, ns1 := Run(s, a).value, MirTouches.After(ns, ss[0]);
      OwnedIs(s, s1, ns1, base, MirFrame.StmtUses(ns, g, ss[0]));
      ListOwned(types, s1, ns1, base, g, ss[1..]);
      OwnedThen(s, s1, ns1, base, MirFrame.StmtUses(ns, g, ss[0]), Run(s1, b).value, MirTouches.AllAfter(ns1, ss[1..]), MirFrame.ListUses(ns1, g, ss[1..]));
    }
  }

  /** In a scope of its own a list touches own names, and the scopes around it have their names back. */
  lemma {:induction false} BlockOwned<D>(types: Types<D>, s: Symbols<D>, ns: Names, base: nat, g: set<string>, ss: seq<Stmt>)
    requires Covers(s, ns, base) && AllApart(ss) && Run(s, Block(OfList(types, ss))).Some?
    ensures MirFrame.AllOwn(base, MirFrame.ListUses(ns + [{}], g, ss)) && SameScopes(s, Run(s, Block(OfList(types, ss))).value)
    decreases ss, 1
  {
    CoversNotEmpty(s, ns, base);
    ListBalanced(types, ss);
    RestoresScopes(s, OfList(types, ss));
    hide Run, Covers, OfList, Balanced, MirFrame.ListUses, MirTouches.AllAfter, Block, SameScopes;
    RunBlock(s, OfList(types, ss));
    OpenCovers(s, ns, base);
    ListOwned(types, s + [map[]], ns + [{}], base, g, ss);
  }

  lemma RestoresScopes<D>(s: Symbols<D>, body: seq<Event<D>>)
    requires s != [] && Balanced(body)
    ensures Run(s, Block(body)).Some? ==> SameScopes(s, Run(s, Block(body)).value)
  {
    if Run(s, Block(body)).Some? { MatchedRestores(s, body); }
    hide Run, Balanced, Kept;
  }

  lemma {:induction false} FirstOwned<D>(types: Types<D>, s: Symbols<D>, ns: Names, base: nat, g: set<string>, first: Option<Stmt>)
    requires Covers(s, ns, base) && (first.Some? ==> StepsApart(first.value)) && Run(s, OfFirst(types, first)).Some?
    ensures Owned(s, Run(s, OfFirst(types, first)).value, if first.None? then ns else MirTouches.After(ns, first.value), base,
                  if first.None? then {} else MirFrame.StmtUses(ns, g, first.value))
    decreases first, 2
  {
    CoversNotEmpty(s, ns, base);
    RunNothing(s);
    hide Run, Covers;
    if first.Some? { StmtOwned(types, s, ns, base, g, first.value); }
  }

  lemma {:induction false} IfOwned<D>(types: Types<D>, s: Symbols<D>, ns: Names, base: nat, g: set<string>, t: Stmt)
    requires Covers(s, ns, base) && t.If? && StepsApart(t) && Run(s, OfStmt(types, t)).Some?
    ensures Owned(s, Run(s, OfStmt(types, t)).value, MirTouches.After(ns, t), base, MirFrame.StmtUses(ns, g, t))
    decreases t, 0
  {
    CoversNotEmpty(s, ns, base);
    MirFrame.IfUses(ns, g, t);
    MirTouches.IfReads(ns, g, t);
    IfEvents(types, t);
    hide Run, Covers, Block, MirTouches.ExprTouches, OfStmt, OfExpr, OfList, OfFirst, Owned, MirTouches.After, MirTouches.AllAfter, MirTouches.StmtTouches, MirFrame.StmtUses, MirFrame.ListUses,
         SameScopes, Outward, MirFrame.AllOwn;
    var ns1 := if t.first.None? then ns else MirTouches.After(ns, t.first.value);
    var a, b, c: seq<Event<D>>, d: seq<Event<D>> := OfFirst(types, t.first), OfExpr(t.cond), Block(OfList(types, t.onTrue)),
      if t.onFalse.NoElse? then [] else Block(OfList(types, t.onFalse.code));
    RunConcat(s, a + b + c, d);
    RunConcat(s, a + b, c);
    RunConcat(s, a, b);
    FirstOwned(types, s, ns, base, g, t.first);
    var s1 := Run(s, a).value;
    var u := if t.first.None? then {} else MirFrame.StmtUses(ns, g, t.first.value);
    OwnedIs(s, s1, ns1, base, u);
    CoversNotEmpty(s1, ns1, base);
    ExprOwned(s1, ns1, base, g, t.cond);
    BlockOwned(types, s1, ns1, base, g, t.onTrue);
    var s2 := Run(s1, c).value;
    OutwardSelf(ns1);
    CoversMore(s1, ns1, s2, ns1, base);
    CoversNotEmpty(s2, ns1, base);
    IfEnd(types, s2, ns1, base, g, t);
    IfSum(s, s1, s2, Run(s2, d).value, ns1, base, u, MirTouches.ExprTouches(ns1, g, t.cond), MirFrame.ListUses(ns1 + [{}], g, t.onTrue),
          if t.onFalse.NoElse? then {} else MirFrame.ListUses(ns1 + [{}], g, t.onFalse.code), MirTouches.After(ns, t));
  }

  lemma IfEvents<D>(types: Types<D>, t: Stmt)
    requires t.If?
    ensures OfStmt(types, t) == OfFirst(types, t.first) + OfExpr(t.cond) + Block(OfList(types, t.onTrue)) +
      (if t.onFalse.NoElse? then [] else Block(OfList(types, t.onFalse.code)))
  {
    hide Block, OfList, OfExpr;
  }

  lemma IfSum<D>(s: Symbols<D>, s1: Symbols<D>, s2: Symbols<D>, s3: Symbols<D>, ns: Names, base: nat, t1: set<Place>, t2: set<Place>, t3: set<Place>, t4: set<Place>, ns': Names)
    requires |s1| == |s| && SameScopes(s1, s2) && SameScopes(s2, s3)
    requires MirFrame.AllOwn(base, t1) && MirFrame.AllOwn(base, t2) && MirFrame.AllOwn(base, t3) && MirFrame.AllOwn(base, t4) && Covers(s3, ns', base)
    ensures Owned(s, s3, ns', base, t1 + t2 + t3 + t4)
  {
    hide Covers;
  }

  /** The alternative, and the names behind the whole. */
  lemma {:induction false} IfEnd<D>(types: Types<D>, s: Symbols<D>, ns: Names, base: nat, g: set<string>, t: Stmt)
    requires t.If? && StepsApart(t) && Covers(s, ns, base)
    requires Run(s, if t.onFalse.NoElse? then [] else Block(OfList(types, t.onFalse.code))).Some?
    ensures var s' := Run(s, if t.onFalse.NoElse? then [] else Block(OfList(types, t.onFalse.code))).value;
      && SameScopes(s, s') && Covers(s', if t.onFalse.NoElse? then ns else MirTouches.AllAfter(ns + [{}], t.onTrue), base)
      && MirFrame.AllOwn(base, if t.onFalse.NoElse? then {} else MirFrame.ListUses(ns + [{}], g, t.onFalse.code))
    decreases t, 0, 0
  {
    CoversNotEmpty(s, ns, base);
    RunNothing(s);
    hide Run, Covers, Block, OfList, MirTouches.AllAfter, MirFrame.ListUses, Outward;
    if t.onFalse.Else? {
      BlockOwned(types, s, ns, base, g, t.onFalse.code);
      InsideOutward(ns, t.onTrue);
      CoversMore(s, ns, Run(s, Block(OfList(types, t.onFalse.code))).value, MirTouches.AllAfter(ns + [{}], t.onTrue), base);
    }
  }

  // ---- Loops ------------------------------------------------------------------------------

  /** A list binds in the innermost scope only what can be read off it. */
  lemma {:induction false} ListBinds<D>(types: Types<D>, s: Symbols<D>, ss: seq<Stmt>)
    requires s != [] && Run(s, OfList(types, ss)).Some?
    ensures var s' := Run(s, OfList(types, ss)).value; var n := |s| - 1;
      |s'| == |s| && s'[n].Keys <= s[n].Keys + AllBound(ss) && forall j :: 0 <= j < n ==> s'[j].Keys == s[j].Keys
    decreases ss, 0
  {
    RunNothing(s);
    OfListLast(types, ss);
    hide Run, OfStmt, OfList, Bound;
    if ss != [] {
      var a, t := ss[..|ss| - 1], ss[|ss| - 1];
      assert AllBound(ss) == AllBound(a) + Bound(t);
      hide AllBound;
      RunConcat(s, OfList(types, a), OfStmt(types, t));
      var s1 := Run(s, OfList(types, a)).value;
      ListBinds(types, s, a);
      var s2 := Run(s1, OfStmt(types, t)).value;
      StmtBinds(types, s1, t);
      BindsThen(s, s1, s2, AllBound(a), Bound(t));
    }
  }

  lemma BindsThen<D>(s: Symbols<D>, s1: Symbols<D>, s2: Symbols<D>, a: set<string>, b: set<string>)
    requires s != [] && |s1| == |s| && |s2| == |s| && s1[|s| - 1].Keys <= s[|s| - 1].Keys + a && s2[|s| - 1].Keys <= s1[|s| - 1].Keys + b
    requires forall j :: 0 <= j < |s| - 1 ==> s1[j].Keys == s[j].Keys
    requires forall j :: 0 <= j < |s| - 1 ==> s2[j].Keys == s1[j].Keys
    ensures s2[|s| - 1].Keys <= s[|s| - 1].Keys + (a + b) && forall j :: 0 <= j < |s| - 1 ==> s2[j].Keys == s[j].Keys
  {}

  lemma {:induction false} StmtBinds<D>(types: Types<D>, s: Symbols<D>, t: Stmt)
    requires s != [] && Run(s, OfStmt(types, t)).Some?
    ensures var s' := Run(s, OfStmt(types, t)).value; var n := |s| - 1;
      |s'| == |s| && s'[n].Keys <= s[n].Keys + Bound(t) && forall j :: 0 <= j < n ==> s'[j].Keys == s[j].Keys
    decreases t, 1
  {
    StatementKeepsScopes(types, s, t);
    hide Run, Block, OfList, OfExpr, OfOption, Kept;
    RunNothing(s);
    match t
    case Let(x, init) => BindingBinds(types, s, t, x, init);
    case Var(x, init) => BindingBinds(types, s, t, x, init);
    case If(first, _, _, _) => IfBinds(types, s, t);
    case Loop(first, _, _, _) => LoopBinds(types, s, t);
    case Assign(_, target, value) =>
      RunConcat(s, OfExpr(target), OfExpr(value));
      OfExprRuns(s, target);
      OfExprRuns(s, value);
    case Increment(x) => OfExprRuns(s, x);
    case Decrement(x) => OfExprRuns(s, x);
    case ExprStmt(e) => OfExprRuns(s, e);
    case Return(result) => if result.Some? { OfExprRuns(s, result.value); } else { RunOne(s, Event<D>.Reject); }
    case _ =>
  }

  lemma BindingBinds<D>(types: Types<D>, s: Symbols<D>, t: Stmt, x: string, init: Option<Expr>)
    requires s != [] && Run(s, OfOption(init) + [Bind(x, types(StmtBinder(t)), true)]).Some?
    ensures var s' := Run(s, OfOption(init) + [Bind(x, types(StmtBinder(t)), true)]).value; var n := |s| - 1;
      |s'| == |s| && s'[n].Keys <= s[n].Keys + {x} && forall j :: 0 <= j < n ==> s'[j].Keys == s[j].Keys
  {
    var bind := Bind(x, types(StmtBinder(t)), true);
    RunConcat(s, OfOption(init), [bind]);
    RunNothing(s);
    if init.Some? { OfExprRuns(s, init.value); }
    RunOne(s, bind);
    hide Run, Find, OfExpr;
  }

  /** What stands behind the initialisation of an `If` or a `Loop` binds nothing outside. */
  lemma {:induction false} IfBinds<D>(types: Types<D>, s: Symbols<D>, t: Stmt)
    requires s != [] && t.If? && Run(s, OfStmt(types, t)).Some?
    ensures var s' := Run(s, OfStmt(types, t)).value; var n := |s| - 1;
      |s'| == |s| && s'[n].Keys <= s[n].Keys + Bound(t) && forall j :: 0 <= j < n ==> s'[j].Keys == s[j].Keys
    decreases t, 0
  {
    IfEvents(types, t);
    RunNothing(s);
    hide Run, Block, OfStmt, OfExpr, OfList;
    var a, b, c: seq<Event<D>>, d: seq<Event<D>> := OfFirst(types, t.first), OfExpr(t.cond), Block(OfList(types, t.onTrue)),
      if t.onFalse.NoElse? then [] else Block(OfList(types, t.onFalse.code));
    RunConcat(s, a + b + c, d);
    RunConcat(s, a + b, c);
    RunConcat(s, a, b);
    if t.first.Some? { StmtBinds(types, s, t.first.value); }
    var s1 := Run(s, a).value;
    OfExprRuns(s1, t.cond);
    ListBalanced(types, t.onTrue);
    RestoresScopes(s1, OfList(types, t.onTrue));
    var s2 := Run(s1, c).value;
    RunNothing(s2);
    if t.onFalse.Else? {
      ListBalanced(types, t.onFalse.code);
      RestoresScopes(s2, OfList(types, t.onFalse.code));
    }
  }

  lemma LoopEvents<D>(types: Types<D>, t: Stmt)
    requires t.Loop?
    ensures OfStmt(types, t) == OfFirst(types, t.first) + OfOption(t.test) + Block(OfList(types, t.body) + OfFirst(types, t.post))
    ensures Balanced(OfList(types, t.body) + OfFirst(types, t.post))
  {
    ListBalanced(types, t.body);
    BalancedNone<D>();
    if t.post.Some? { StmtBalanced(types, t.post.value); }
    BalancedConcat(OfList(types, t.body), OfFirst(types, t.post));
    hide Block, OfList, OfOption, Balanced;
  }

  lemma {:induction false} LoopBinds<D>(types: Types<D>, s: Symbols<D>, t: Stmt)
    requires s != [] && t.Loop? && Run(s, OfStmt(types, t)).Some?
    ensures var s' := Run(s, OfStmt(types, t)).value; var n := |s| - 1;
      |s'| == |s| && s'[n].Keys <= s[n].Keys + Bound(t) && forall j :: 0 <= j < n ==> s'[j].Keys == s[j].Keys
    decreases t, 0
  {
    LoopEvents(types, t);
    RunNothing(s);
    hide Run, Block, OfStmt, OfExpr, OfList, Balanced;
    var a, b, c := OfFirst(types, t.first), OfOption(t.test), Block(OfList(types, t.body) + OfFirst(types, t.post));
    RunConcat(s, a + b, c);
    RunConcat(s, a, b);
    if t.first.Some? { StmtBinds(types, s, t.first.value); }
    var s1 := Run(s, a).value;
    RunNothing(s1);
    if t.test.Some? { OfExprRuns(s1, t.test.value); }
    RestoresScopes(s1, OfList(types, t.body) + OfFirst(types, t.post));
  }

  lemma StepTouched(ns: Names, g: set<string>, post: Stmt)
    requires ns != [] && StepNames(post).Some?
    ensures MirTouches.After(ns, post) == ns && MirFrame.StmtUses(ns, g, post) == MirTouches.StmtTouches(ns, g, post)
    ensures forall p :: p in MirTouches.StmtTouches(ns, g, post) ==> p.1 in StepNames(post).value && MirTouches.Home(ns, p.1) == Some(p.0)
  {
    hide MirTouches.ExprTouches;
    match post
    case Assign(_, target, value) => TouchedLooked(ns, g, value);
    case Increment(x) => TouchedLooked(ns, g, x);
    case Decrement(x) => TouchedLooked(ns, g, x);
    case ExprStmt(e) => TouchedLooked(ns, g, e);
  }

  lemma StepFinds<D>(types: Types<D>, s: Symbols<D>, post: Stmt)
    requires s != [] && StepNames(post).Some? && Run(s, OfStmt(types, post)).Some?
    ensures AllFound(s, StepNames(post).value)
  {
    hide Run, OfExpr, Find;
    match post
    case Assign(_, target, value) =>
      RunConcat(s, OfExpr(target), OfExpr(value));
      OfExprRuns(s, target);
      OfExprRuns(s, value);
    case Increment(x) => OfExprRuns(s, x);
    case Decrement(x) => OfExprRuns(s, x);
    case ExprStmt(e) => OfExprRuns(s, e);
  }

  /** A step that passes behind the body, and uses none of its names, touches own names. */
  lemma StepOwned<D>(types: Types<D>, s: Symbols<D>, ns: Names, base: nat, g: set<string>, post: Stmt, body: seq<Stmt>)
    requires Covers(s, ns, base) && StepNames(post).Some? && forall x <- StepNames(post).value :: x !in AllBound(body)
    requires Run(s + [map[]], OfList(types, body)).Some? && Run(Run(s + [map[]], OfList(types, body)).value, OfStmt(types, post)).Some?
    ensures MirFrame.AllOwn(base, MirFrame.StmtUses(ns, g, post)) && MirTouches.After(ns, post) == ns
  {
    CoversNotEmpty(s, ns, base);
    StepTouched(ns, g, post);
    var inside := Run(s + [map[]], OfList(types, body)).value;
    ListBinds(types, s + [map[]], body);
    StepFinds(types, inside, post);
    hide Run, OfList, OfStmt, AllBound, StepNames, MirTouches.StmtTouches, MirFrame.StmtUses, Covers, Find, MirTouches.After;
    forall p | p in MirTouches.StmtTouches(ns, g, post) ensures p.0 >= base {
      StillFound(s, inside, p.1, AllBound(body));
      NameOwned(s, ns, base, p.1);
    }
  }

  lemma StillFound<D>(s: Symbols<D>, inside: Symbols<D>, x: string, bound: set<string>)
    requires s != [] && |inside| == |s| + 1 && inside[|s|].Keys <= bound && Find(inside, x).Some? && x !in bound
    requires forall j :: 0 <= j < |s| ==> inside[j].Keys == (s + [map[]])[j].Keys
    ensures Find(s, x).Some?
  {
    NotFound(s, x);
    NotFound(inside, x);
    hide Find;
    var j :| 0 <= j < |inside| && x in inside[j];
    assert (s + [map[]])[j].Keys == s[j].Keys;
    assert x in s[j];
  }

  lemma {:induction false} LoopOwned<D>(types: Types<D>, s: Symbols<D>, ns: Names, base: nat, g: set<string>, t: Stmt)
    requires Covers(s, ns, base) && t.Loop? && StepsApart(t) && Run(s, OfStmt(types, t)).Some?
    ensures Owned(s, Run(s, OfStmt(types, t)).value, MirTouches.After(ns, t), base, MirFrame.StmtUses(ns, g, t))
    decreases t, 0
  {
    CoversNotEmpty(s, ns, base);
    LoopEvents(types, t);
    hide Run, Covers, Block, Balanced, MirTouches.ExprTouches, OfStmt, OfExpr, OfOption, OfList, OfFirst, Owned, MirTouches.OptionTouches, MirTouches.StmtTouches,
         MirFrame.ListUses, SameScopes, Outward, MirFrame.AllOwn, MirTouches.BlockAfter;
    var ns1 := if t.first.None? then ns else MirTouches.After(ns, t.first.value);
    var a, b, body := OfFirst(types, t.first), OfOption(t.test), OfList(types, t.body) + OfFirst(types, t.post);
    RunConcat(s, a + b, Block(body));
    RunConcat(s, a, b);
    FirstOwned(types, s, ns, base, g, t.first);
    var s1 := Run(s, a).value;
    var u := if t.first.None? then {} else MirFrame.StmtUses(ns, g, t.first.value);
    OwnedIs(s, s1, ns1, base, u);
    CoversNotEmpty(s1, ns1, base);
    OptionOwned(s1, ns1, base, g, t.test);
    RestoresScopes(s1, body);
    LoopBodyOwned(types, s1, ns1, base, g, t);
    var ns2 := if t.post.None? then ns1 else MirTouches.After(ns1, t.post.value);
    var s2 := Run(s1, Block(body)).value;
    BlockOutward(ns1, t.body);
    CoversMore(s1, ns1, s2, MirTouches.BlockAfter(ns1, t.body), base);
    LoopSum(s, s1, s2, base, u, MirTouches.OptionTouches(ns1, g, t.test), if t.post.None? then {} else MirFrame.StmtUses(ns1, g, t.post.value),
            MirFrame.ListUses(ns2 + [{}], g, t.body), MirTouches.BlockAfter(ns1, t.body));
    LoopUsesAre(ns, g, t);
  }

  lemma LoopUsesAre(ns: Names, g: set<string>, t: Stmt)
    requires ns != [] && t.Loop?
    ensures var ns1 := if t.first.None? then ns else MirTouches.After(ns, t.first.value);
      var ns2 := if t.post.None? then ns1 else MirTouches.After(ns1, t.post.value);
      && MirTouches.After(ns, t) == MirTouches.BlockAfter(ns2, t.body)
      && MirFrame.StmtUses(ns, g, t) ==
           (if t.first.None? then {} else MirFrame.StmtUses(ns, g, t.first.value)) + MirTouches.OptionTouches(ns1, g, t.test) +
           (if t.post.None? then {} else MirFrame.StmtUses(ns1, g, t.post.value)) + MirFrame.ListUses(ns2 + [{}], g, t.body)
  {
    hide MirTouches.OptionTouches, MirFrame.ListUses, MirTouches.BlockAfter;
  }

  lemma LoopSum<D>(s: Symbols<D>, s1: Symbols<D>, s2: Symbols<D>, base: nat, t1: set<Place>, t2: set<Place>, t3: set<Place>, t4: set<Place>, ns': Names)
    requires |s1| == |s| && SameScopes(s1, s2) && Covers(s2, ns', base)
    requires MirFrame.AllOwn(base, t1) && MirFrame.AllOwn(base, t2) && MirFrame.AllOwn(base, t3) && MirFrame.AllOwn(base, t4)
    ensures Owned(s, s2, ns', base, t1 + t2 + t3 + t4)
  {
    hide Covers;
  }

  /** Body and step. */
  lemma {:induction false} LoopBodyOwned<D>(types: Types<D>, s: Symbols<D>, ns: Names, base: nat, g: set<string>, t: Stmt)
    requires Covers(s, ns, base) && t.Loop? && StepsApart(t) && Run(s, Block(OfList(types, t.body) + OfFirst(types, t.post))).Some?
    ensures t.post.Some? ==> MirTouches.After(ns, t.post.value) == ns && MirFrame.AllOwn(base, MirFrame.StmtUses(ns, g, t.post.value))
    ensures MirFrame.AllOwn(base, MirFrame.ListUses(ns + [{}], g, t.body))
    decreases t, 0, 0
  {
    CoversNotEmpty(s, ns, base);
    hide Run, Covers, Block, OfStmt, OfList, MirFrame.StmtUses, MirFrame.ListUses, MirFrame.AllOwn, MirTouches.After, MirTouches.AllAfter;
    var inner := s + [map[]];
    RunBlock(s, OfList(types, t.body) + OfFirst(types, t.post));
    RunConcat(inner, OfList(types, t.body), OfFirst(types, t.post));
    OpenCovers(s, ns, base);
    ListOwned(types, inner, ns + [{}], base, g, t.body);
    if t.post.Some? { StepOwned(types, s, ns, base, g, t.post.value, t.body); }
  }
}
