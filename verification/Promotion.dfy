/** Type inference of arithmetic, and which types may be bound or assigned to which. */
module Promotion {
  import opened Ast
  import opened SymbolTypes

  datatype Mode = PromoteToLhs | EnforceRhs | Peak

  /** The place of a type on the integer ladder. */
  function Rank(n: NativeType): Option<nat> {
    match n
    case IntType => Some(0)
    case UIntType => Some(1)
    case I8 => Some(2)
    case U8 => Some(3)
    case I16 => Some(4)
    case U16 => Some(5)
    case I32 => Some(6)
    case U32 => Some(7)
    case I64 => Some(8)
    case U64 => Some(9)
    case ISize => Some(10)
    case USize => Some(11)
    case _ => None
  }

  lemma RankInjective(a: NativeType, b: NativeType)
    requires Rank(a).Some? && Rank(a) == Rank(b)
    ensures a == b
  {}

  /** Where a type stands among the sizes: the types of undetermined size below all, those of the
      machine's size above all. */
  function Bits(n: NativeType): nat {
    if n.I8? || n.U8? then 8
    else if n.I16? || n.U16? then 16
    else if n.I32? || n.U32? then 32
    else if n.I64? || n.U64? then 64
    else if n.ISize? || n.USize? then 128
    else 0
  }

  predicate IsSigned(n: NativeType) {
    n.IntType? || n.I8? || n.I16? || n.I32? || n.I64? || n.ISize?
  }

  predicate IsUnsigned(n: NativeType) {
    n.UIntType? || n.U8? || n.U16? || n.U32? || n.U64? || n.USize?
  }

  /** The ladder holds the integer types and no others, by size, and within a size the signed one
      below the unsigned one. */
  lemma LadderOrder(a: NativeType, b: NativeType)
    ensures Rank(a).Some? <==> IsSigned(a) || IsUnsigned(a)
    ensures Rank(a).Some? && Rank(b).Some? ==>
      (Rank(a).value < Rank(b).value <==> Bits(a) < Bits(b) || (Bits(a) == Bits(b) && IsSigned(a) && IsUnsigned(b)))
  {}

  function PromoteNative(l: NativeType, r: NativeType, mode: Mode): Option<NativeType> {
    if Rank(l).None? || Rank(r).None? then None
    else
      match mode
      case PromoteToLhs => if Rank(l).value >= Rank(r).value then Some(l) else None
      case EnforceRhs => Some(r)
      case Peak => if Rank(l).value > Rank(r).value then Some(l) else Some(r)
  }

  /** `None` when a type is empty, an exception. */
  function Promote(l: SymbolData, r: SymbolData, mode: Mode): Option<Option<NativeType>> {
    var a :- NativeTypeOf(l);
    var b :- NativeTypeOf(r);
    Some(if a.None? || b.None? then None else PromoteNative(a.value, b.value, mode))
  }

  // ---- The validator ----------------------------------------------------------------------

  function ValidateArithmetic(l: SymbolData, r: SymbolData): Option<SymbolData> {
    var p :- Promote(l, r, Peak);
    if p.Some? then Some(Native(p.value))
    else if l == r then Some(l)
    else None
  }

  /** A binding with an annotation and an initial value: the annotation, if it is the value's type
      or the value's type can be promoted to it. */
  function ValidateBinding(annotation: SymbolData, init: SymbolData): Option<SymbolData> {
    if annotation == init then Some(annotation)
    else
      var p :- Promote(annotation, init, PromoteToLhs);
      if p.Some? then Some(Native(p.value)) else None
  }

  function ValidateAssignment(l: SymbolData, e: SymbolData): Option<SymbolData> {
    if !(l.VarType? && l.mutable) then None
    else
      var lr :- ResolveResultType(l);
      var er :- ResolveResultType(e);
      var p :- Promote(l, e, PromoteToLhs);
      if p.Some? || lr == er then Some(l) else None
  }

  // ---- Arithmetic is a join ---------------------------------------------------------------

  datatype Tree = Leaf(data: SymbolData) | Node(left: Tree, right: Tree)

  function Infer(t: Tree): Option<SymbolData> {
    match t
    case Leaf(d) => Some(d)
    case Node(l, r) =>
      var a :- Infer(l);
      var b :- Infer(r);
      ValidateArithmetic(a, b)
  }

  function Leaves(t: Tree): set<SymbolData> {
    match t
    case Leaf(d) => {d}
    case Node(l, r) => Leaves(l) + Leaves(r)
  }

  /** A type, perhaps that of a variable, that stands on the integer ladder. */
  predicate IsInteger(d: SymbolData) {
    NativeTypeOf(d).Some? && NativeTypeOf(d).value.Some? && Rank(NativeTypeOf(d).value.value).Some?
  }

  function RankOf(d: SymbolData): nat
    requires IsInteger(d)
  {
    Rank(NativeTypeOf(d).value.value).value
  }

  ghost predicate IntegerLeaves(t: Tree) {
    forall d :: d in Leaves(t) ==> IsInteger(d)
  }

  /** `d` has the type of one of the leaves, and no leaf ranks higher. */
  ghost predicate Highest(t: Tree, d: SymbolData)
    requires IntegerLeaves(t)
  {
    && IsInteger(d)
    && (exists e :: e in Leaves(t) && NativeTypeOf(d) == NativeTypeOf(e))
    && forall e :: e in Leaves(t) ==> RankOf(e) <= RankOf(d)
  }

  /** Arithmetic over integers always has a type, that of its highest leaf. */
  lemma {:induction false} InferHighest(t: Tree)
    requires IntegerLeaves(t)
    ensures Infer(t).Some? && Highest(t, Infer(t).value)
  {
    match t
    case Leaf(d) => assert d in Leaves(t);
    case Node(l, r) =>
      assert IntegerLeaves(l) && IntegerLeaves(r);
      InferHighest(l);
      InferHighest(r);
      NodeHighest(l, r, Infer(l).value, Infer(r).value);
  }

  lemma NodeHighest(l: Tree, r: Tree, a: SymbolData, b: SymbolData)
    requires IntegerLeaves(l) && IntegerLeaves(r) && Highest(l, a) && Highest(r, b) && IntegerLeaves(Node(l, r))
    ensures ValidateArithmetic(a, b).Some? && Highest(Node(l, r), ValidateArithmetic(a, b).value)
  {
    var t, d := Node(l, r), ValidateArithmetic(a, b).value;
    var e: SymbolData;
    if RankOf(a) > RankOf(b) {
      e :| e in Leaves(l) && NativeTypeOf(a) == NativeTypeOf(e);
    } else {
      e :| e in Leaves(r) && NativeTypeOf(b) == NativeTypeOf(e);
    }
    assert e in Leaves(t) && NativeTypeOf(d) == NativeTypeOf(e);
    hide Leaves, NativeTypeOf;
  }

  /** Neither order nor grouping nor repetition of the leaves matters. */
  lemma InferOrderFree(t: Tree, u: Tree)
    requires IntegerLeaves(t) && Leaves(t) == Leaves(u)
    ensures Infer(t).Some? && Infer(u).Some? && NativeTypeOf(Infer(t).value) == NativeTypeOf(Infer(u).value)
  {
    hide Infer, Leaves, NativeTypeOf, Rank;
    assert IntegerLeaves(u);
    InferHighest(t);
    InferHighest(u);
    var d, e := Infer(t).value, Infer(u).value;
    var x :| x in Leaves(t) && NativeTypeOf(d) == NativeTypeOf(x);
    var y :| y in Leaves(u) && NativeTypeOf(e) == NativeTypeOf(y);
    assert RankOf(x) <= RankOf(e) && RankOf(y) <= RankOf(d);
    RankInjective(NativeTypeOf(d).value.value, NativeTypeOf(e).value.value);
  }

  /** An annotated binding of integer arithmetic is accepted exactly when the annotation ranks at
      least as high as every leaf; it then has the annotated type. */
  lemma BindingAccepted(a: NativeType, t: Tree)
    requires Rank(a).Some? && IntegerLeaves(t)
    ensures Infer(t).Some?
    ensures ValidateBinding(Native(a), Infer(t).value).Some? <==> forall e :: e in Leaves(t) ==> RankOf(e) <= Rank(a).value
    ensures ValidateBinding(Native(a), Infer(t).value).Some? ==> ValidateBinding(Native(a), Infer(t).value).value == Native(a)
  {
    hide Infer, Leaves;
    InferHighest(t);
    var d := Infer(t).value;
    var x :| x in Leaves(t) && NativeTypeOf(d) == NativeTypeOf(x);
    assert RankOf(d) == RankOf(x);
    assert NativeTypeOf(Native(a)) == Some(Some(a));
    hide NativeTypeOf, Rank;
    assert (forall e :: e in Leaves(t) ==> RankOf(e) <= RankOf(Native(a))) <==> RankOf(d) <= RankOf(Native(a));
  }

  /** Assigning integer arithmetic to an integer variable is accepted exactly when the variable is
      mutable and ranks at least as high as every leaf. */
  lemma AssignmentAccepted(l: SymbolData, t: Tree)
    requires l.VarType? && IsInteger(l) && IntegerLeaves(t)
    ensures Infer(t).Some?
    ensures ValidateAssignment(l, Infer(t).value).Some? <==>
      l.mutable && forall e :: e in Leaves(t) ==> RankOf(e) <= RankOf(l)
  {
    InferHighest(t);
    var d := Infer(t).value;
    var x :| x in Leaves(t) && NativeTypeOf(d) == NativeTypeOf(x);
    NativeOnlyBehindVariables(l, NativeTypeOf(l).value.value);
    NativeOnlyBehindVariables(d, NativeTypeOf(d).value.value);
    hide Infer, Leaves, NativeTypeOf, ResolveResultType;
    assert RankOf(d) == RankOf(x);
    if RankOf(d) <= RankOf(l) {
      assert forall e :: e in Leaves(t) ==> RankOf(e) <= RankOf(l);
    }
  }

  /** An assignment of anything to anything: accepted exactly when the left side is a mutable
      variable and either both sides are integers, the right one ranking no higher, or they are
      types that differ in variables along pointers and arrays only. The empty type is refused. */
  lemma AssignmentExactly(l: SymbolData, e: SymbolData)
    ensures ValidateAssignment(l, e).Some? <==>
      && l.VarType? && l.mutable && ResolveResultType(l).Some? && ResolveResultType(e).Some?
      && ((IsInteger(l) && IsInteger(e) && RankOf(e) <= RankOf(l)) || SameAlongPath(l, e))
    ensures ValidateAssignment(l, e).Some? ==> ValidateAssignment(l, e).value == l
  {
    EmptyType(l);
    EmptyType(e);
    if ResolveResultType(l).Some? && ResolveResultType(e).Some? { ResolveIdentifies(l, e); }
  }

  /** What has no native type to ask for resolves to nothing. */
  lemma {:induction false} EmptyType(d: SymbolData)
    ensures NativeTypeOf(d).None? ==> ResolveResultType(d).None?
  {
    if d.VarType? { EmptyType(d.inner); }
  }

  /** A binding of anything with any annotation: accepted exactly when the annotation is the type
      of the value, or both are integers and the annotation ranks at least as high; it has the
      annotated type, without its variables in the second case. */
  lemma BindingExactly(annotation: SymbolData, init: SymbolData)
    ensures ValidateBinding(annotation, init).Some? <==>
      annotation == init || (IsInteger(annotation) && IsInteger(init) && RankOf(init) <= RankOf(annotation))
    ensures annotation == init ==> ValidateBinding(annotation, init) == Some(annotation)
    ensures annotation != init && ValidateBinding(annotation, init).Some? ==>
      ValidateBinding(annotation, init) == ResolveResultType(annotation)
  {
    if IsInteger(annotation) { NativeOnlyBehindVariables(annotation, NativeTypeOf(annotation).value.value); }
  }

  // ---- Floats -----------------------------------------------------------------------------

  /** Off the integer ladder nothing is promoted and variables are not resolved: two operands are
      accepted exactly when their types are equal, so a variable never meets a plain value. */
  lemma OffTheLadder(l: SymbolData, r: SymbolData)
    requires NativeTypeOf(l).Some? && NativeTypeOf(r).Some? && !(IsInteger(l) && IsInteger(r))
    ensures ValidateArithmetic(l, r) == if l == r then Some(l) else None
    ensures l.VarType? != r.VarType? ==> ValidateArithmetic(l, r).None?
  {}

  // ---- The promoter as an object ----------------------------------------------------------

  class TypePromoter {
    var ints: map<NativeType, nat>

    constructor ()
      ensures Valid()
    {
      ints := map[IntType := 0, UIntType := 1, I8 := 2, U8 := 3, I16 := 4, U16 := 5, I32 := 6, U32 := 7, I64 := 8, U64 := 9, ISize := 10, USize := 11];
    }

    ghost predicate Valid()
      reads this
    {
      forall n :: (n in ints <==> Rank(n).Some?) && (n in ints ==> ints[n] == Rank(n).value)
    }

    /** Fails for a type that is not on the ladder. */
    method GetPriority(n: NativeType) returns (p: Option<nat>)
      requires Valid()
      ensures p == Rank(n)
    {
      p := if n in ints then Some(ints[n]) else None;
    }

    method PromoteInt(l: NativeType, r: NativeType, mode: Mode) returns (p: Option<NativeType>)
      requires Valid() && l in ints && r in ints
      ensures p == PromoteNative(l, r, mode)
    {
      var a, b := ints[l], ints[r];
      match mode
      case PromoteToLhs => p := if a >= b then Some(l) else None;
      case EnforceRhs => p := Some(r);
      case Peak => p := Some(if a > b then l else r);
    }

    method Promote(l: NativeType, r: NativeType, mode: Mode) returns (p: Option<NativeType>)
      requires Valid()
      ensures p == PromoteNative(l, r, mode)
    {
      p := None;
      if l in ints && r in ints { p := PromoteInt(l, r, mode); }
    }
  }
}
