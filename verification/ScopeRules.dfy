/** Scoping as a relation on the sequence of what a program does to scopes, and the scope stack
    that decides it. */
module ScopeRules {
  import opened Ast
  import opened Scopes

  datatype Status = Declared | Defined

  datatype Symbol<D> = Symbol(status: Status, data: D)

  type Symbols<D> = Stack<Symbol<D>>

  datatype Event<D> =
    | Use(name: string)
    | Bind(name: string, data: D, defines: bool)
    | Open
    | Close
    | Reject

  // ---- The scope stack --------------------------------------------------------------------

  /** A declaration repeats what is visible, or is added to the innermost scope. */
  function Declare<D(==)>(s: Symbols<D>, x: string, d: D): (r: Option<Symbols<D>>)
    requires s != []
    ensures r.Some? ==> |r.value| == |s|
  {
    var known := Find(s, x);
    if known.None? then Some(Insert(s, x, Symbol(Declared, d)))
    else if known.value.data == d then Some(s)
    else None
  }

  /** A definition completes a visible declaration wherever that stands, or is added to the
      innermost scope; a visible definition excludes it. */
  function Define<D(==)>(s: Symbols<D>, x: string, d: D): (r: Option<Symbols<D>>)
    requires s != []
    ensures r.Some? ==> |r.value| == |s|
  {
    var known := Find(s, x);
    if known.None? then Some(Insert(s, x, Symbol(Defined, d)))
    else if known.value == Symbol(Declared, d) then Some(Update(s, x, Symbol(Defined, d)))
    else None
  }

  function Step<D(==)>(s: Symbols<D>, e: Event<D>): (r: Option<Symbols<D>>)
    requires s != []
    ensures r.Some? ==> r.value != []
  {
    match e
    case Use(x) => if Find(s, x).Some? then Some(s) else None
    case Bind(x, d, defines) => if defines then Define(s, x, d) else Declare(s, x, d)
    case Open => Some(s + [map[]])
    case Close => if |s| == 1 then None else Some(s[..|s| - 1])
    case Reject => None
  }

  function Run<D(==)>(s: Symbols<D>, evs: seq<Event<D>>): (r: Option<Symbols<D>>)
    requires s != []
    ensures r.Some? ==> r.value != []
  {
    if evs == [] then Some(s)
    else
      var s1 :- Run(s, evs[..|evs| - 1]);
      Step(s1, evs[|evs| - 1])
  }

  // ---- The relation -----------------------------------------------------------------------

  /** How many scopes are open before event `n`. */
  function Depth<D>(evs: seq<Event<D>>, n: nat): int
    requires n <= |evs|
  {
    if n == 0 then 0
    else Depth(evs, n - 1) + (if evs[n - 1].Open? then 1 else if evs[n - 1].Close? then -1 else 0)
  }

  /** The scope around event `m` is still open at event `n`. */
  ghost predicate Live<D>(evs: seq<Event<D>>, m: nat, n: nat)
    requires n <= |evs|
  {
    m <= n && forall k :: m <= k <= n ==> Depth(evs, k) >= Depth(evs, m)
  }

  ghost predicate Binds<D>(evs: seq<Event<D>>, m: nat, x: string) {
    m < |evs| && evs[m].Bind? && evs[m].name == x
  }

  ghost predicate Defines<D>(evs: seq<Event<D>>, m: nat, x: string) {
    Binds(evs, m, x) && evs[m].defines
  }

  /** Some visible scope binds `x` before event `n`. */
  ghost predicate Visible<D>(evs: seq<Event<D>>, n: nat, x: string)
    requires n <= |evs|
  {
    exists m: nat :: m < n && Binds(evs, m, x) && Live(evs, m, n)
  }

  /** What is visible as `x` at event `n` has been defined, perhaps in a scope that is closed. */
  ghost predicate Taken<D>(evs: seq<Event<D>>, n: nat, x: string)
    requires n <= |evs|
  {
    exists m: nat, j: nat :: TakenBy(evs, n, x, m, j)
  }

  ghost predicate TakenBy<D>(evs: seq<Event<D>>, n: nat, x: string, m: nat, j: nat)
    requires n <= |evs|
  {
    m <= j < n && Binds(evs, m, x) && Defines(evs, j, x) && Live(evs, m, j) && Live(evs, m, n)
  }

  /** Every visible binding of `x` has this data. */
  ghost predicate Agrees<D(!new)>(evs: seq<Event<D>>, n: nat, x: string, d: D)
    requires n <= |evs|
  {
    forall m: nat :: m < n && Binds(evs, m, x) && Live(evs, m, n) ==> evs[m].data == d
  }

  /** Event `n` keeps to the rules. */
  ghost predicate Lawful<D(!new)>(evs: seq<Event<D>>, n: nat)
    requires n < |evs|
  {
    match evs[n]
    case Use(x) => Visible(evs, n, x)
    case Bind(x, d, defines) => Agrees(evs, n, x, d) && (defines ==> !Taken(evs, n, x))
    case Open => true
    case Close => Depth(evs, n) > 0
    case Reject => false
  }

  ghost predicate WellScoped<D(!new)>(evs: seq<Event<D>>) {
    forall n :: 0 <= n < |evs| ==> Lawful(evs, n)
  }

  // ---- No name is ever bound twice --------------------------------------------------------

  lemma NotFound<T>(s: Stack<T>, x: string)
    ensures Find(s, x).None? <==> forall i :: 0 <= i < |s| ==> x !in s[i]
  {
    FindIsFlat(s, x);
    FlatKeys(s, x);
  }

  lemma {:induction false} UpdateKeys<T>(s: Stack<T>, x: string, v: T)
    requires Find(s, x).Some? && Disjoint(s)
    ensures Disjoint(Update(s, x, v))
  {}

  lemma StepDisjoint<D>(s: Symbols<D>, e: Event<D>)
    requires s != [] && Disjoint(s) && Step(s, e).Some?
    ensures Disjoint(Step(s, e).value)
  {
    if e.Bind? {
      NotFound(s, e.name);
      if Find(s, e.name).Some? && e.defines { UpdateKeys(s, e.name, Symbol(Defined, e.data)); }
      hide Find;
    }
  }

  /** In every state of every run the live scopes have pairwise disjoint names, so looking
      from the inside out is looking in one flat map. */
  lemma {:induction false} NoShadowing<D>(evs: seq<Event<D>>, n: nat)
    requires n <= |evs| && Run([map[]], evs).Some?
    ensures var s := Run([map[]], evs[..n]);
      s.Some? && Disjoint(s.value) &&
      forall x :: Find(s.value, x) == if x in Flat(s.value) then Some(Flat(s.value)[x]) else None
    decreases |evs| - n
  {
    RunPrefix([map[]], evs, n);
    RunDisjoint(evs[..n]);
    var s := Run([map[]], evs[..n]).value;
    forall x ensures Find(s, x) == if x in Flat(s) then Some(Flat(s)[x]) else None { FindIsFlat(s, x); }
  }

  lemma {:induction false} RunPrefix<D>(s: Symbols<D>, evs: seq<Event<D>>, n: nat)
    requires s != [] && n <= |evs| && Run(s, evs).Some?
    ensures Run(s, evs[..n]).Some?
  {
    if n == |evs| {
      assert evs[..n] == evs;
    } else {
      assert evs[..|evs| - 1][..n] == evs[..n];
      RunPrefix(s, evs[..|evs| - 1], n);
    }
  }

  lemma {:induction false} RunDisjoint<D>(evs: seq<Event<D>>)
    requires Run([map[]], evs).Some?
    ensures Disjoint(Run([map[]], evs).value)
  {
    if evs != [] {
      RunDisjoint(evs[..|evs| - 1]);
      StepDisjoint(Run([map[]], evs[..|evs| - 1]).value, evs[|evs| - 1]);
    }
  }

  // ---- The stack decides the relation -----------------------------------------------------

  /** As `Visible` and `TakenBy`, for the scopes up to depth `l`. */
  ghost predicate VisibleAt<D>(evs: seq<Event<D>>, n: nat, x: string, l: int, m: nat)
    requires n <= |evs|
  {
    m < n && Binds(evs, m, x) && Live(evs, m, n) && Depth(evs, m) <= l
  }

  ghost predicate TakenAt<D>(evs: seq<Event<D>>, n: nat, x: string, l: int, m: nat, j: nat)
    requires n <= |evs|
  {
    TakenBy(evs, n, x, m, j) && Depth(evs, m) <= l
  }

  ghost predicate SeenUpTo<D>(evs: seq<Event<D>>, n: nat, x: string, l: int)
    requires n <= |evs|
  {
    exists m: nat :: VisibleAt(evs, n, x, l, m)
  }

  ghost predicate TakenUpTo<D>(evs: seq<Event<D>>, n: nat, x: string, l: int)
    requires n <= |evs|
  {
    exists m: nat, j: nat :: TakenAt(evs, n, x, l, m, j)
  }

  /** What the stack knows about `x` before event `n`, scope by scope. */
  ghost predicate Knows<D(!new)>(evs: seq<Event<D>>, n: nat, s: Symbols<D>, x: string, l: nat)
    requires n <= |evs| && l < |s|
  {
    var found := Find(s[..l + 1], x);
    && (found.Some? <==> SeenUpTo(evs, n, x, l))
    && (found.Some? ==> (found.value.status.Defined? <==> TakenUpTo(evs, n, x, l)))
    && (found.Some? ==> Agrees(evs, n, x, found.value.data))
  }

  ghost predicate Corresponds<D(!new)>(evs: seq<Event<D>>, n: nat, s: Symbols<D>)
    requires n <= |evs|
  {
    && |s| == Depth(evs, n) + 1 && Disjoint(s)
    && (forall m: nat :: m <= n ==> Depth(evs, m) >= 0)
    && forall x, l: nat :: l < |s| ==> Knows(evs, n, s, x, l)
  }

  lemma LiveNext<D>(evs: seq<Event<D>>, m: nat, n: nat)
    requires m <= n < |evs|
    ensures Live(evs, m, n + 1) <==> Live(evs, m, n) && Depth(evs, n + 1) >= Depth(evs, m)
  {}

  lemma LiveSelf<D>(evs: seq<Event<D>>, n: nat)
    requires n <= |evs|
    ensures Live(evs, n, n)
  {}

  /** Looking in the outer part of a stack that was changed. */
  lemma FindInsertPrefix<T>(s: Stack<T>, y: string, v: T, x: string, l: nat)
    requires s != [] && l < |s| && Find(s, y).None?
    ensures |Insert(s, y, v)| == |s|
    ensures Find(Insert(s, y, v)[..l + 1], x) == if x == y && l == |s| - 1 then Some(v) else Find(s[..l + 1], x)
  {
    NotFound(s, y);
    var r := Insert(s, y, v);
    if l == |s| - 1 {
      assert r[..l + 1] == r && s[..l + 1] == s;
      FindInsert(s, y, v, x);
    } else {
      assert r[..l + 1] == s[..l + 1];
    }
  }

  lemma FindUpdatePrefix<T>(s: Stack<T>, y: string, v: T, x: string, l: nat)
    requires l < |s| && Find(s, y).Some? && Disjoint(s)
    ensures Find(Update(s, y, v)[..l + 1], x) == if x == y && Find(s[..l + 1], y).Some? then Some(v) else Find(s[..l + 1], x)
  {
    var r := Update(s, y, v);
    UpdateKeys(s, y, v);
    var home := Home(s, y);
    NotFound(s[..l + 1], y);
    if l < home {
      UpdateAt(s, y, v, home);
      assert r[..l + 1] == s[..l + 1];
      assert forall i :: 0 <= i < l + 1 ==> y !in s[i];
    } else {
      UpdateAt(s, y, v, home);
      assert s[..l + 1][home] == s[home];
      assert Find(s[..l + 1], y).Some?;
      assert Disjoint(s[..l + 1]);
      FindUpdate(s[..l + 1], y, v, x);
      UpdateAt(s[..l + 1], y, v, home);
      assert r[..l + 1] == Update(s[..l + 1], y, v);
    }
  }

  /** The one scope that binds a name. */
  function Home<T>(s: Stack<T>, y: string): (h: nat)
    requires Find(s, y).Some?
    ensures h < |s| && y in s[h]
  {
    if y in s[|s| - 1] then |s| - 1 else Home(s[..|s| - 1], y)
  }

  lemma {:induction false} UpdateAt<T>(s: Stack<T>, y: string, v: T, h: nat)
    requires h < |s| && y in s[h] && Disjoint(s) && Find(s, y).Some?
    ensures Update(s, y, v) == s[h := s[h][y := v]]
  {
    var n := |s| - 1;
    if h != n {
      assert y !in s[n];
      assert s[..n][h] == s[h];
      UpdateAt(s[..n], y, v, h);
    }
  }

  // ---- One event --------------------------------------------------------------------------

  /** An event that does not bind `x`, when the scopes up to `l` after it show what those up to
      `l0` showed before it. */
  lemma SeenStay<D(!new)>(evs: seq<Event<D>>, n: nat, next: nat, x: string, l0: int, l: int)
    requires n < |evs| && next == n + 1 && !Binds(evs, n, x)
    requires forall m: nat :: m < n && Live(evs, m, n) ==>
      (Depth(evs, m) <= l0 <==> Depth(evs, m) <= l && Depth(evs, m) <= Depth(evs, next))
    ensures SeenUpTo(evs, next, x, l) <==> SeenUpTo(evs, n, x, l0)
    ensures TakenUpTo(evs, next, x, l) <==> TakenUpTo(evs, n, x, l0)
    ensures forall d :: Agrees(evs, n, x, d) ==> Agrees(evs, next, x, d)
  {
    hide Depth;
    forall m: nat ensures VisibleAt(evs, next, x, l, m) <==> VisibleAt(evs, n, x, l0, m) {
      if m <= n { LiveNext(evs, m, n); }
    }
    forall m: nat, j: nat ensures TakenAt(evs, next, x, l, m, j) <==> TakenAt(evs, n, x, l0, m, j) {
      if m <= n { LiveNext(evs, m, n); }
    }
    forall d | Agrees(evs, n, x, d) ensures Agrees(evs, next, x, d) {
      forall m: nat | m < next && Binds(evs, m, x) && Live(evs, m, next) ensures evs[m].data == d {
        LiveNext(evs, m, n);
      }
    }
    hide VisibleAt, TakenAt;
  }

  /** An event that binds `x`. */
  lemma SeenBound<D(!new)>(evs: seq<Event<D>>, n: nat, next: nat, x: string, l: int)
    requires n < |evs| && next == n + 1 && Binds(evs, n, x)
    ensures SeenUpTo(evs, next, x, l) <==> SeenUpTo(evs, n, x, l) || Depth(evs, n) <= l
  {
    assert Depth(evs, next) == Depth(evs, n);
    LiveSelf(evs, n);
    DepthTop(evs, n);
    hide Depth;
    forall m: nat ensures VisibleAt(evs, next, x, l, m) <==> VisibleAt(evs, n, x, l, m) || (m == n && Depth(evs, n) <= l) {
      if m <= n { LiveNext(evs, m, n); }
    }
    if Depth(evs, n) <= l { assert VisibleAt(evs, next, x, l, n); }
    hide VisibleAt;
  }

  lemma TakenBound<D(!new)>(evs: seq<Event<D>>, n: nat, next: nat, x: string, l: int)
    requires n < |evs| && next == n + 1 && Binds(evs, n, x)
    ensures TakenUpTo(evs, next, x, l) <==>
      TakenUpTo(evs, n, x, l) || (evs[n].defines && (SeenUpTo(evs, n, x, l) || Depth(evs, n) <= l))
  {
    assert Depth(evs, next) == Depth(evs, n);
    LiveSelf(evs, n);
    DepthTop(evs, n);
    hide Depth;
    forall m: nat, j: nat
      ensures TakenAt(evs, next, x, l, m, j) <==>
        TakenAt(evs, n, x, l, m, j) || (j == n && evs[n].defines && (VisibleAt(evs, n, x, l, m) || (m == n && Depth(evs, n) <= l)))
    {
      if m <= n { LiveNext(evs, m, n); }
    }
    if evs[n].defines && SeenUpTo(evs, n, x, l) {
      var m: nat :| VisibleAt(evs, n, x, l, m);
      assert TakenAt(evs, next, x, l, m, n);
    }
    if evs[n].defines && Depth(evs, n) <= l { assert TakenAt(evs, next, x, l, n, n); }
    hide VisibleAt, TakenAt;
  }

  lemma AgreesBound<D(!new)>(evs: seq<Event<D>>, n: nat, next: nat, x: string, d: D)
    requires n < |evs| && next == n + 1 && Binds(evs, n, x) && evs[n].data == d && Agrees(evs, n, x, d)
    ensures Agrees(evs, next, x, d)
  {
    forall m: nat | m < next && Binds(evs, m, x) && Live(evs, m, next) ensures evs[m].data == d {
      LiveNext(evs, m, n);
    }
  }

  lemma DepthTop<D>(evs: seq<Event<D>>, n: nat)
    requires n <= |evs|
    ensures forall m: nat :: m < n && Live(evs, m, n) ==> Depth(evs, m) <= Depth(evs, n)
  {}

  /** Visible at all is visible up to the innermost scope. */
  lemma SeenTop<D(!new)>(evs: seq<Event<D>>, n: nat, x: string)
    requires n <= |evs|
    ensures Visible(evs, n, x) <==> SeenUpTo(evs, n, x, Depth(evs, n))
    ensures Taken(evs, n, x) <==> TakenUpTo(evs, n, x, Depth(evs, n))
    ensures !Visible(evs, n, x) ==> forall d :: Agrees(evs, n, x, d)
  {
    DepthTop(evs, n);
    var l := Depth(evs, n);
    hide Depth;
    if Visible(evs, n, x) {
      var m: nat :| m < n && Binds(evs, m, x) && Live(evs, m, n);
      assert VisibleAt(evs, n, x, l, m);
    }
    if Taken(evs, n, x) {
      var m: nat, j: nat :| TakenBy(evs, n, x, m, j);
      assert TakenAt(evs, n, x, l, m, j);
    }
  }

  lemma KnowsStay<D(!new)>(evs: seq<Event<D>>, n: nat, s: Symbols<D>, s': Symbols<D>, x: string, l0: nat, l: nat)
    requires n < |evs| && l0 < |s| && l < |s'| && Knows(evs, n, s, x, l0) && Find(s'[..l + 1], x) == Find(s[..l0 + 1], x)
    requires !Binds(evs, n, x)
    requires forall m: nat :: m < n && Live(evs, m, n) ==>
      (Depth(evs, m) <= l0 <==> Depth(evs, m) <= l && Depth(evs, m) <= Depth(evs, n + 1))
    ensures Knows(evs, n + 1, s', x, l)
  {
    hide Find, Depth, SeenUpTo, TakenUpTo, Agrees;
    SeenStay(evs, n, n + 1, x, l0, l);
  }

  /** A new binding in the innermost scope. */
  lemma KnowsAdded<D(!new)>(evs: seq<Event<D>>, n: nat, s: Symbols<D>, x: string, l: nat)
    requires n < |evs| && Corresponds(evs, n, s) && Binds(evs, n, x) && Find(s, x).None? && l < |s|
    ensures var s' := Insert(s, x, Symbol(if evs[n].defines then Defined else Declared, evs[n].data));
      |s'| == |s| && Knows(evs, n + 1, s', x, l)
  {
    var v := Symbol(if evs[n].defines then Defined else Declared, evs[n].data);
    FindInsertPrefix(s, x, v, x, l);
    NotFound(s, x);
    NotFound(s[..l + 1], x);
    assert Knows(evs, n, s, x, l);
    TakenIsSeen(evs, n, x, l);
    SeenTop(evs, n, x);
    assert s[..|s|] == s && Knows(evs, n, s, x, |s| - 1);
    hide Find, Depth, Insert, SeenUpTo, TakenUpTo, Agrees, Visible;
    SeenBound(evs, n, n + 1, x, l);
    TakenBound(evs, n, n + 1, x, l);
    AgreesBound(evs, n, n + 1, x, v.data);
  }

  lemma TakenIsSeen<D(!new)>(evs: seq<Event<D>>, n: nat, x: string, l: int)
    requires n <= |evs|
    ensures TakenUpTo(evs, n, x, l) ==> SeenUpTo(evs, n, x, l)
  {
    if TakenUpTo(evs, n, x, l) {
      var m: nat, j: nat :| TakenAt(evs, n, x, l, m, j);
      assert VisibleAt(evs, n, x, l, m);
    }
  }

  /** A definition of what is declared. */
  lemma KnowsCompleted<D(!new)>(evs: seq<Event<D>>, n: nat, s: Symbols<D>, x: string, l: nat)
    requires n < |evs| && Corresponds(evs, n, s) && Defines(evs, n, x) && l < |s|
    requires Find(s, x) == Some(Symbol(Declared, evs[n].data))
    ensures var s' := Update(s, x, Symbol(Defined, evs[n].data)); Knows(evs, n + 1, s', x, l)
  {
    var v := Symbol(Defined, evs[n].data);
    FindUpdatePrefix(s, x, v, x, l);
    assert s[..|s|] == s;
    assert Knows(evs, n, s, x, |s| - 1) && Knows(evs, n, s, x, l);
    assert l == |s| - 1 ==> s[..l + 1] == s;
    hide Find, Depth, Update, SeenUpTo, TakenUpTo, Agrees;
    SeenBound(evs, n, n + 1, x, l);
    TakenBound(evs, n, n + 1, x, l);
    AgreesBound(evs, n, n + 1, x, v.data);
  }

  /** A declaration of what is there with the same data. */
  lemma KnowsRepeated<D(!new)>(evs: seq<Event<D>>, n: nat, s: Symbols<D>, x: string, l: nat)
    requires n < |evs| && Corresponds(evs, n, s) && Binds(evs, n, x) && !evs[n].defines && l < |s|
    requires Find(s, x).Some? && Find(s, x).value.data == evs[n].data
    ensures Knows(evs, n + 1, s, x, l)
  {
    assert s[..|s|] == s;
    assert Knows(evs, n, s, x, |s| - 1) && Knows(evs, n, s, x, l);
    assert l == |s| - 1 ==> s[..l + 1] == s;
    if Find(s[..l + 1], x).Some? { SameData(evs, n, x, l, Find(s[..l + 1], x).value.data, Find(s, x).value.data); }
    hide Find, Depth, SeenUpTo, TakenUpTo, Agrees;
    SeenBound(evs, n, n + 1, x, l);
    TakenBound(evs, n, n + 1, x, l);
    AgreesBound(evs, n, n + 1, x, evs[n].data);
  }

  lemma SameData<D(!new)>(evs: seq<Event<D>>, n: nat, x: string, l: int, d: D, e: D)
    requires n <= |evs| && SeenUpTo(evs, n, x, l) && Agrees(evs, n, x, d) && Agrees(evs, n, x, e)
    ensures d == e
  {
    var m: nat :| VisibleAt(evs, n, x, l, m);
  }

  // ---- The theorem ------------------------------------------------------------------------

  lemma DepthNext<D(!new)>(evs: seq<Event<D>>, n: nat, s: Symbols<D>)
    requires n < |evs| && Corresponds(evs, n, s) && Step(s, evs[n]).Some?
    ensures |Step(s, evs[n]).value| == Depth(evs, n + 1) + 1
    ensures forall m: nat :: m <= n + 1 ==> Depth(evs, m) >= 0
  {
    hide Find, Knows;
  }

  lemma StepCorresponds<D(!new)>(evs: seq<Event<D>>, n: nat, s: Symbols<D>)
    requires n < |evs| && Corresponds(evs, n, s) && Step(s, evs[n]).Some?
    ensures Corresponds(evs, n + 1, Step(s, evs[n]).value)
  {
    var s' := Step(s, evs[n]).value;
    StepDisjoint(s, evs[n]);
    DepthNext(evs, n, s);
    var next: nat := n + 1;
    forall x, l: nat | l < |s'| ensures Knows(evs, next, s', x, l) {
      StepKnows(evs, n, s, x, l);
    }
    hide Knows, Find;
  }

  lemma StepKnows<D(!new)>(evs: seq<Event<D>>, n: nat, s: Symbols<D>, x: string, l: nat)
    requires n < |evs| && Corresponds(evs, n, s) && Step(s, evs[n]).Some? && l < |Step(s, evs[n]).value|
    ensures Knows(evs, n + 1, Step(s, evs[n]).value, x, l)
  {
    var s' := Step(s, evs[n]).value;
    hide Knows, Depth;
    match evs[n]
    case Use(_) => SameDepthKnows(evs, n, s, s', x, l);
    case Bind(y, d, defines) =>
      if y == x {
        BoundKnows(evs, n, s, x, l);
      } else {
        OtherFind(s, evs[n], x, l);
        SameDepthKnows(evs, n, s, s', x, l);
      }
    case Open => OpenKnows(evs, n, s, x, l);
    case Close => CloseKnows(evs, n, s, x, l);
  }

  lemma BoundKnows<D(!new)>(evs: seq<Event<D>>, n: nat, s: Symbols<D>, x: string, l: nat)
    requires n < |evs| && Corresponds(evs, n, s) && Binds(evs, n, x) && Step(s, evs[n]).Some? && l < |s|
    ensures Knows(evs, n + 1, Step(s, evs[n]).value, x, l)
  {
    hide Knows, Depth, Find, Corresponds;
    if Find(s, x).None? { KnowsAdded(evs, n, s, x, l); }
    else if evs[n].defines { KnowsCompleted(evs, n, s, x, l); }
    else { KnowsRepeated(evs, n, s, x, l); }
  }

  lemma OtherFind<D>(s: Symbols<D>, e: Event<D>, x: string, l: nat)
    requires s != [] && e.Bind? && e.name != x && Step(s, e).Some? && l < |s| && Disjoint(s)
    ensures Find(Step(s, e).value[..l + 1], x) == Find(s[..l + 1], x)
  {
    var y := e.name;
    hide Find;
    if Find(s, y).None? {
      FindInsertPrefix(s, y, Symbol(if e.defines then Defined else Declared, e.data), x, l);
    } else if e.defines {
      FindUpdatePrefix(s, y, Symbol(Defined, e.data), x, l);
    }
  }

  lemma SameDepthKnows<D(!new)>(evs: seq<Event<D>>, n: nat, s: Symbols<D>, s': Symbols<D>, x: string, l: nat)
    requires n < |evs| && Corresponds(evs, n, s) && l < |s| == |s'| && Find(s'[..l + 1], x) == Find(s[..l + 1], x)
    requires !Binds(evs, n, x) && !evs[n].Open? && !evs[n].Close?
    ensures Knows(evs, n + 1, s', x, l)
  {
    assert Depth(evs, n + 1) == Depth(evs, n);
    DepthTop(evs, n);
    hide Find, Depth;
    KnowsStay(evs, n, s, s', x, l, l);
  }

  lemma OpenKnows<D(!new)>(evs: seq<Event<D>>, n: nat, s: Symbols<D>, x: string, l: nat)
    requires n < |evs| && Corresponds(evs, n, s) && evs[n].Open? && l <= |s|
    ensures Knows(evs, n + 1, s + [map[]], x, l)
  {
    var s' := s + [map[]];
    assert Depth(evs, n + 1) == Depth(evs, n) + 1;
    DepthTop(evs, n);
    if l == |s| {
      FindPush(s, x);
      assert s'[..l + 1] == s' && s[..l] == s;
      hide Find, Depth;
      KnowsStay(evs, n, s, s', x, l - 1, l);
    } else {
      assert s'[..l + 1] == s[..l + 1];
      hide Find, Depth;
      KnowsStay(evs, n, s, s', x, l, l);
    }
  }

  lemma CloseKnows<D(!new)>(evs: seq<Event<D>>, n: nat, s: Symbols<D>, x: string, l: nat)
    requires n < |evs| && Corresponds(evs, n, s) && evs[n].Close? && |s| > 1 && l < |s| - 1
    ensures Knows(evs, n + 1, s[..|s| - 1], x, l)
  {
    var s' := s[..|s| - 1];
    assert Depth(evs, n + 1) == Depth(evs, n) - 1;
    assert s'[..l + 1] == s[..l + 1];
    hide Find, Depth;
    KnowsStay(evs, n, s, s', x, l, l);
  }

  /** The next event is let through exactly when it keeps to the rules. */
  lemma StepDecides<D(!new)>(evs: seq<Event<D>>, n: nat, s: Symbols<D>)
    requires n < |evs| && Corresponds(evs, n, s)
    ensures Step(s, evs[n]).Some? <==> Lawful(evs, n)
  {
    if evs[n].Use? || evs[n].Bind? {
      var x := evs[n].name;
      var top := |s| - 1;
      assert s[..top + 1] == s;
      assert Knows(evs, n, s, x, top);
      SeenTop(evs, n, x);
      if Find(s, x).Some? { SomethingVisible(evs, n, x, Find(s, x).value.data); }
      hide Find, Depth, Insert, Update, Visible, Taken, SeenUpTo, TakenUpTo, Agrees;
      if Find(s, x).None? { TakenIsSeen(evs, n, x, top); }
    }
  }

  lemma SomethingVisible<D(!new)>(evs: seq<Event<D>>, n: nat, x: string, d: D)
    requires n <= |evs| && Visible(evs, n, x) && Agrees(evs, n, x, d)
    ensures forall e :: Agrees(evs, n, x, e) <==> e == d
  {}

  lemma {:induction false} RunCorresponds<D(!new)>(evs: seq<Event<D>>, n: nat)
    requires n <= |evs|
    ensures Run([map[]], evs[..n]).Some? <==> forall k: nat :: k < n ==> Lawful(evs, k)
    ensures Run([map[]], evs[..n]).Some? ==> Corresponds(evs, n, Run([map[]], evs[..n]).value)
  {
    if n > 0 {
      RunCorresponds(evs, n - 1);
      assert evs[..n][..n - 1] == evs[..n - 1] && evs[..n][n - 1] == evs[n - 1];
      hide Lawful, Corresponds, Step;
      var before := Run([map[]], evs[..n - 1]);
      if before.Some? {
        StepDecides(evs, n - 1, before.value);
        if Step(before.value, evs[n - 1]).Some? { StepCorresponds(evs, n - 1, before.value); }
      }
    } else {
      assert evs[..0] == [];
      StartCorresponds(evs);
    }
  }

  lemma StartCorresponds<D(!new)>(evs: seq<Event<D>>)
    ensures Corresponds(evs, 0, [map[]])
  {
    var s: Symbols<D> := [map[]];
    forall x, l: nat | l < |s| ensures Knows(evs, 0, s, x, l) {
      assert s[..1][..0] == [];
      NotFound(s[..1], x);
    }
  }

  /** The scope stack lets a program through exactly when it is well scoped. */
  lemma StackDecidesScoping<D(!new)>(evs: seq<Event<D>>)
    ensures Run([map[]], evs).Some? <==> WellScoped(evs)
  {
    RunCorresponds(evs, |evs|);
    assert evs[..|evs|] == evs;
    hide Run, Lawful;
  }
}
