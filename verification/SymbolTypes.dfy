/** The types the semantic checker computes with. Members of structs are listed in key order, as
    an ordered map keeps them; null pointers are not modelled. */
module SymbolTypes {
  import opened Ast

  datatype NativeType =
    | VoidType | F32 | F64
    | IntType | I8 | I16 | I32 | I64 | ISize
    | UIntType | U8 | U16 | U32 | U64 | USize
    | CharType | CStr | BoolType

  datatype SymbolData =
    | Monostate
    | Native(native: NativeType)
    | EnumType(id: string, underlying: SymbolData, fields: set<string>)
    | StructType(id: string, members: seq<Member>, methods: seq<Member>)
    | FnType(params: seq<SymbolData>, result: SymbolData)
    | PointerType(target: SymbolData, indirection: nat, readonly: bool)
    | ArrayType(elem: SymbolData, size: nat)
    | VarType(mutable: bool, inner: SymbolData)

  datatype Member = Member(id: string, data: SymbolData)

  /** Types without the mutability of variables. */
  datatype TypeVariant =
    | NativeVariant(native: NativeType)
    | EnumVariant(id: string, underlying: TypeVariant, fields: set<string>)
    | StructVariant(id: string, members: seq<MemberVariant>, methods: seq<MemberVariant>)
    | FnVariant(params: seq<TypeVariant>, result: TypeVariant)
    | PointerVariant(target: TypeVariant, indirection: nat, readonly: bool)
    | ArrayVariant(elem: TypeVariant, size: nat)
    | VarVariant(inner: TypeVariant)

  datatype MemberVariant = MemberVariant(id: string, data: TypeVariant)

  // ---- Resolution -------------------------------------------------------------------------

  /** Strips variables from a type and from what its pointers and arrays lead to; fails on the
      empty type. */
  function ResolveResultType(d: SymbolData): Option<SymbolData> {
    match d
    case Monostate => None
    case PointerType(t, n, ro) =>
      var r :- ResolveResultType(t);
      Some(PointerType(r, n, ro))
    case ArrayType(t, n) =>
      var r :- ResolveResultType(t);
      Some(ArrayType(r, n))
    case VarType(_, t) => ResolveResultType(t)
    case _ => Some(d)
  }

  /** `None`: thrown; `Some(None)`: not a native type. */
  function NativeTypeOf(d: SymbolData): Option<Option<NativeType>> {
    match d
    case Monostate => None
    case Native(n) => Some(Some(n))
    case VarType(_, t) => NativeTypeOf(t)
    case _ => Some(None)
  }

  /** No variable on the way along pointers and arrays. */
  predicate NoVariables(d: SymbolData) {
    match d
    case PointerType(t, _, _) => NoVariables(t)
    case ArrayType(t, _) => NoVariables(t)
    case VarType(_, _) => false
    case _ => true
  }

  /** The end of that way. */
  function Core(d: SymbolData): SymbolData {
    match d
    case PointerType(t, _, _) => Core(t)
    case ArrayType(t, _) => Core(t)
    case VarType(_, t) => Core(t)
    case _ => d
  }

  /** Equal but for variables along pointers and arrays, however many and however mutable. */
  predicate SameAlongPath(a: SymbolData, b: SymbolData)
    decreases a, b
  {
    if a.VarType? then SameAlongPath(a.inner, b)
    else if b.VarType? then SameAlongPath(a, b.inner)
    else if a.PointerType? && b.PointerType? then
      a.indirection == b.indirection && a.readonly == b.readonly && SameAlongPath(a.target, b.target)
    else if a.ArrayType? && b.ArrayType? then a.size == b.size && SameAlongPath(a.elem, b.elem)
    else a == b
  }

  lemma {:induction false} ResolveFails(d: SymbolData)
    ensures ResolveResultType(d).None? <==> Core(d).Monostate?
  {
    match d
    case PointerType(t, _, _) => ResolveFails(t);
    case ArrayType(t, _) => ResolveFails(t);
    case VarType(_, t) => ResolveFails(t);
    case _ =>
  }

  /** The result has no variable on its way, resolving it again changes nothing, and it has the
      native type of the original. */
  lemma {:induction false} ResolveResolved(d: SymbolData)
    requires ResolveResultType(d).Some?
    ensures var r := ResolveResultType(d).value;
      NoVariables(r) && ResolveResultType(r) == Some(r) && NativeTypeOf(r) == NativeTypeOf(d) && SameAlongPath(d, r)
  {
    match d
    case PointerType(t, _, _) => ResolveResolved(t);
    case ArrayType(t, _) => ResolveResolved(t);
    case VarType(_, t) => ResolveResolved(t);
    case _ =>
  }

  /** Two types resolve to equal types exactly when they differ only in variables on the way. */
  lemma {:induction false} ResolveIdentifies(a: SymbolData, b: SymbolData)
    requires ResolveResultType(a).Some? && ResolveResultType(b).Some?
    ensures ResolveResultType(a) == ResolveResultType(b) <==> SameAlongPath(a, b)
    decreases a, b
  {
    if a.VarType? { ResolveIdentifies(a.inner, b); }
    else if b.VarType? { ResolveIdentifies(a, b.inner); }
    else if a.PointerType? && b.PointerType? { ResolveIdentifies(a.target, b.target); }
    else if a.ArrayType? && b.ArrayType? { ResolveIdentifies(a.elem, b.elem); }
  }

  /** Pointers and arrays have no native type, whatever they lead to. */
  lemma {:induction false} NativeOnlyBehindVariables(d: SymbolData, n: NativeType)
    ensures NativeTypeOf(d) == Some(Some(n)) <==> ResolveResultType(d) == Some(Native(n))
  {
    if d.VarType? { NativeOnlyBehindVariables(d.inner, n); }
  }

  // ---- Type variants ----------------------------------------------------------------------

  function Variant(d: SymbolData): Option<TypeVariant>
    decreases d
  {
    match d
    case Monostate => None
    case Native(n) => Some(NativeVariant(n))
    case EnumType(id, u, fields) =>
      var v :- Variant(u);
      Some(EnumVariant(id, v, fields))
    case StructType(id, members, methods) =>
      var ms :- VariantMembers(members);
      var fs :- VariantMembers(methods);
      Some(StructVariant(id, ms, fs))
    case FnType(params, result) =>
      var ps :- VariantList(params);
      var r :- Variant(result);
      Some(FnVariant(ps, r))
    case PointerType(t, n, ro) =>
      var v :- Variant(t);
      Some(PointerVariant(v, n, ro))
    case ArrayType(t, n) =>
      var v :- Variant(t);
      Some(ArrayVariant(v, n))
    case VarType(_, t) =>
      var v :- Variant(t);
      Some(VarVariant(v))
  }

  function VariantList(ds: seq<SymbolData>): (r: Option<seq<TypeVariant>>)
    ensures r.Some? ==> |r.value| == |ds|
    decreases ds
  {
    if ds == [] then Some([])
    else
      var v :- Variant(ds[0]);
      var vs :- VariantList(ds[1..]);
      Some([v] + vs)
  }

  function VariantMembers(ms: seq<Member>): (r: Option<seq<MemberVariant>>)
    ensures r.Some? ==> |r.value| == |ms|
    decreases ms
  {
    if ms == [] then Some([])
    else
      var v :- Variant(ms[0].data);
      var vs :- VariantMembers(ms[1..]);
      Some([MemberVariant(ms[0].id, v)] + vs)
  }

  /** Equal but for the mutability of variables, at any depth. */
  predicate SameButMutability(a: SymbolData, b: SymbolData)
    decreases a
  {
    match a
    case EnumType(id, u, fields) => b.EnumType? && b.id == id && b.fields == fields && SameButMutability(u, b.underlying)
    case StructType(id, members, methods) =>
      b.StructType? && b.id == id && SameMembers(members, b.members) && SameMembers(methods, b.methods)
    case FnType(params, result) => b.FnType? && SameList(params, b.params) && SameButMutability(result, b.result)
    case PointerType(t, n, ro) => b.PointerType? && b.indirection == n && b.readonly == ro && SameButMutability(t, b.target)
    case ArrayType(t, n) => b.ArrayType? && b.size == n && SameButMutability(t, b.elem)
    case VarType(_, t) => b.VarType? && SameButMutability(t, b.inner)
    case _ => a == b
  }

  predicate SameList(a: seq<SymbolData>, b: seq<SymbolData>)
    decreases a
  {
    |a| == |b| && (a != [] ==> SameButMutability(a[0], b[0]) && SameList(a[1..], b[1..]))
  }

  predicate SameMembers(a: seq<Member>, b: seq<Member>)
    decreases a
  {
    |a| == |b| && (a != [] ==> a[0].id == b[0].id && SameButMutability(a[0].data, b[0].data) && SameMembers(a[1..], b[1..]))
  }

  /** The variants are equal exactly when the types are equal up to mutability. */
  lemma {:induction false} VariantIdentifies(a: SymbolData, b: SymbolData)
    requires Variant(a).Some? && Variant(b).Some?
    ensures Variant(a) == Variant(b) <==> SameButMutability(a, b)
    decreases a
  {
    match a
    case EnumType(_, u, _) => if b.EnumType? { VariantIdentifies(u, b.underlying); }
    case StructType(_, members, methods) =>
      if b.StructType? {
        MembersIdentify(members, b.members);
        MembersIdentify(methods, b.methods);
      }
    case FnType(params, result) =>
      if b.FnType? {
        ListIdentifies(params, b.params);
        VariantIdentifies(result, b.result);
      }
    case PointerType(t, _, _) => if b.PointerType? { VariantIdentifies(t, b.target); }
    case ArrayType(t, _) => if b.ArrayType? { VariantIdentifies(t, b.elem); }
    case VarType(_, t) => if b.VarType? { VariantIdentifies(t, b.inner); }
    case Native(_) =>
  }

  lemma {:induction false} ListIdentifies(a: seq<SymbolData>, b: seq<SymbolData>)
    requires VariantList(a).Some? && VariantList(b).Some?
    ensures VariantList(a) == VariantList(b) <==> SameList(a, b)
    decreases a
  {
    if a != [] && b != [] {
      VariantIdentifies(a[0], b[0]);
      ListIdentifies(a[1..], b[1..]);
      var va, vb := VariantList(a).value, VariantList(b).value;
      assert va == [va[0]] + VariantList(a[1..]).value && vb == [vb[0]] + VariantList(b[1..]).value;
      assert va[1..] == VariantList(a[1..]).value && vb[1..] == VariantList(b[1..]).value;
    }
  }

  lemma {:induction false} MembersIdentify(a: seq<Member>, b: seq<Member>)
    requires VariantMembers(a).Some? && VariantMembers(b).Some?
    ensures VariantMembers(a) == VariantMembers(b) <==> SameMembers(a, b)
    decreases a
  {
    if a != [] && b != [] {
      VariantIdentifies(a[0].data, b[0].data);
      MembersIdentify(a[1..], b[1..]);
      var va, vb := VariantMembers(a).value, VariantMembers(b).value;
      assert va == [va[0]] + VariantMembers(a[1..]).value && vb == [vb[0]] + VariantMembers(b[1..]).value;
      assert va[1..] == VariantMembers(a[1..]).value && vb[1..] == VariantMembers(b[1..]).value;
    }
  }

  // ---- Building variants ------------------------------------------------------------------

  /** Fails where an empty type is met. */
  method TypeVariantOf(d: SymbolData) returns (r: Option<TypeVariant>)
    ensures r == Variant(d)
    decreases d, 1
  {
    match d
    case Monostate => return None;
    case Native(n) => return Some(NativeVariant(n));
    case EnumType(id, u, fields) =>
      var v := TypeVariantOf(u);
      return if v.None? then None else Some(EnumVariant(id, v.value, fields));
    case StructType(id, members, methods) =>
      var ms := TypeVariantsOfMembers(members);
      if ms.None? { return None; }
      var fs := TypeVariantsOfMembers(methods);
      return if fs.None? then None else Some(StructVariant(id, ms.value, fs.value));
    case FnType(params, result) =>
      var ps := TypeVariantsOf(params);
      if ps.None? { return None; }
      var v := TypeVariantOf(result);
      return if v.None? then None else Some(FnVariant(ps.value, v.value));
    case PointerType(t, n, ro) =>
      var v := TypeVariantOf(t);
      return if v.None? then None else Some(PointerVariant(v.value, n, ro));
    case ArrayType(t, n) =>
      var v := TypeVariantOf(t);
      return if v.None? then None else Some(ArrayVariant(v.value, n));
    case VarType(_, t) =>
      var v := TypeVariantOf(t);
      return if v.None? then None else Some(VarVariant(v.value));
  }

  method TypeVariantsOf(ds: seq<SymbolData>) returns (r: Option<seq<TypeVariant>>)
    ensures r == VariantList(ds)
    decreases ds, 0
  {
    hide Variant, VariantList, ListLeft;
    r := Some([]);
    ListStart(ds);
    for i := 0 to |ds|
      invariant r.Some? && ListLeft(ds, r.value, ds[i..])
    {
      ListNext(ds, r.value, ds[i..]);
      assert ds[i..][0] == ds[i] && ds[i..][1..] == ds[i + 1..];
      var v := TypeVariantOf(ds[i]);
      if v.None? { return None; }
      r := Some(r.value + [v.value]);
    }
    ListEnd(ds, r.value, ds[|ds|..]);
  }

  method TypeVariantsOfMembers(ms: seq<Member>) returns (r: Option<seq<MemberVariant>>)
    ensures r == VariantMembers(ms)
    decreases ms, 0
  {
    hide Variant, VariantMembers, MembersLeft;
    r := Some([]);
    MembersStart(ms);
    for i := 0 to |ms|
      invariant r.Some? && MembersLeft(ms, r.value, ms[i..])
    {
      MembersNext(ms, r.value, ms[i..]);
      assert ms[i..][0] == ms[i] && ms[i..][1..] == ms[i + 1..];
      var v := TypeVariantOf(ms[i].data);
      if v.None? { return None; }
      r := Some(r.value + [MemberVariant(ms[i].id, v.value)]);
    }
    MembersEnd(ms, r.value, ms[|ms|..]);
  }

  /** `done` are the variants so far, and `left` the types still to do. */
  ghost predicate ListLeft(ds: seq<SymbolData>, done: seq<TypeVariant>, left: seq<SymbolData>) {
    VariantList(ds) == if VariantList(left).None? then None else Some(done + VariantList(left).value)
  }

  lemma ListStart(ds: seq<SymbolData>)
    ensures ListLeft(ds, [], ds[0..])
  {
    assert ds[0..] == ds;
    hide VariantList;
    if VariantList(ds).Some? { assert [] + VariantList(ds).value == VariantList(ds).value; }
  }

  lemma ListNext(ds: seq<SymbolData>, done: seq<TypeVariant>, left: seq<SymbolData>)
    requires ListLeft(ds, done, left) && left != []
    ensures var v := Variant(left[0]);
      if v.None? then VariantList(ds).None? else ListLeft(ds, done + [v.value], left[1..])
  {
    hide Variant;
    var v, rest := Variant(left[0]), VariantList(left[1..]);
    if v.Some? && rest.Some? {
      assert VariantList(left).value == [v.value] + rest.value;
      assert done + ([v.value] + rest.value) == done + [v.value] + rest.value;
    }
  }

  lemma ListEnd(ds: seq<SymbolData>, done: seq<TypeVariant>, left: seq<SymbolData>)
    requires ListLeft(ds, done, left) && left == []
    ensures VariantList(ds) == Some(done)
  {
    assert VariantList(left) == Some([]);
    assert done + [] == done;
  }

  ghost predicate MembersLeft(ms: seq<Member>, done: seq<MemberVariant>, left: seq<Member>) {
    VariantMembers(ms) == if VariantMembers(left).None? then None else Some(done + VariantMembers(left).value)
  }

  lemma MembersStart(ms: seq<Member>)
    ensures MembersLeft(ms, [], ms[0..])
  {
    assert ms[0..] == ms;
    hide VariantMembers;
    if VariantMembers(ms).Some? { assert [] + VariantMembers(ms).value == VariantMembers(ms).value; }
  }

  lemma MembersNext(ms: seq<Member>, done: seq<MemberVariant>, left: seq<Member>)
    requires MembersLeft(ms, done, left) && left != []
    ensures var v := Variant(left[0].data);
      if v.None? then VariantMembers(ms).None?
      else MembersLeft(ms, done + [MemberVariant(left[0].id, v.value)], left[1..])
  {
    hide Variant;
    var v, rest := Variant(left[0].data), VariantMembers(left[1..]);
    if v.Some? && rest.Some? {
      var m := MemberVariant(left[0].id, v.value);
      assert VariantMembers(left).value == [m] + rest.value;
      assert done + ([m] + rest.value) == done + [m] + rest.value;
    }
  }

  lemma MembersEnd(ms: seq<Member>, done: seq<MemberVariant>, left: seq<Member>)
    requires MembersLeft(ms, done, left) && left == []
    ensures VariantMembers(ms) == Some(done)
  {
    assert VariantMembers(left) == Some([]);
    assert done + [] == done;
  }
}
