/** Type expressions as token sequences: the parser, the evaluator and the printer. Base types
    are the native ones. */
module TypeSyntax {
  import opened Ast
  import opened SymbolTypes
  import opened Sequences

  datatype Token =
    | Star | ReadOnly
    | BracketOpen | BracketClose | Semicolon
    | Integer(n: nat)
    | Word(text: string)
    | OtherToken

  datatype Node =
    | Pointer(left: Node, stars: nat, ro: bool)
    | Array(left: Node, len: nat)
    | TypeName(name: string)

  /** `Missing` leaves the cursor where it was. */
  datatype Parsed = Got(node: Node, pos: nat) | Missing | Thrown

  // ---- The parser -------------------------------------------------------------------------

  predicate At(toks: seq<Token>, pos: nat, t: Token) {
    pos < |toks| && toks[pos] == t
  }

  function Stars(toks: seq<Token>, pos: nat): (n: nat)
    ensures pos <= |toks| ==> pos + n <= |toks|
    ensures forall k :: pos <= k < pos + n ==> At(toks, k, Star)
    ensures !At(toks, pos + n, Star)
    decreases |toks| - pos
  {
    if At(toks, pos, Star) then 1 + Stars(toks, pos + 1) else 0
  }

  /** A run of stars is one pointer, readonly or not, to the type behind it. Looking at a token
      behind the last one throws. */
  function Parse(toks: seq<Token>, pos: nat): (r: Parsed)
    ensures r.Got? ==> pos < r.pos <= |toks|
    decreases |toks| - pos
  {
    if At(toks, pos, Star) then
      var n := Stars(toks, pos);
      var ro := At(toks, pos + n, ReadOnly);
      var target := Parse(toks, pos + n + (if ro then 1 else 0));
      if target.Got? then Got(Pointer(target.node, n, ro), target.pos) else Thrown
    else if At(toks, pos, BracketOpen) then
      var elem := Parse(toks, pos + 1);
      if !elem.Got? then Thrown
      else
        var p := elem.pos;
        if At(toks, p, Semicolon) && p + 2 < |toks| && toks[p + 1].Integer? && toks[p + 2] == BracketClose
        then Got(Array(elem.node, toks[p + 1].n), p + 3)
        else Thrown
    else if pos >= |toks| then Thrown
    else if toks[pos].Word? then Got(TypeName(toks[pos].text), pos + 1)
    else Missing
  }

  // ---- Evaluation and printing ------------------------------------------------------------

  function NativeName(n: NativeType): string {
    match n
    case VoidType => "void"
    case F32 => "f32"
    case F64 => "f64"
    case IntType => "int"
    case I8 => "i8"
    case I16 => "i16"
    case I32 => "i32"
    case I64 => "i64"
    case ISize => "isz"
    case UIntType => "uint"
    case U8 => "u8"
    case U16 => "u16"
    case U32 => "u32"
    case U64 => "u64"
    case USize => "usz"
    case CharType => "char"
    case CStr => "cstr"
    case BoolType => "bool"
  }

  function NativeNamed(s: string): Option<NativeType> {
    match s
    case "void" => Some(VoidType)
    case "f32" => Some(F32)
    case "f64" => Some(F64)
    case "int" => Some(IntType)
    case "i8" => Some(I8)
    case "i16" => Some(I16)
    case "i32" => Some(I32)
    case "i64" => Some(I64)
    case "isz" => Some(ISize)
    case "uint" => Some(UIntType)
    case "u8" => Some(U8)
    case "u16" => Some(U16)
    case "u32" => Some(U32)
    case "u64" => Some(U64)
    case "usz" => Some(USize)
    case "char" => Some(CharType)
    case "cstr" => Some(CStr)
    case "bool" => Some(BoolType)
    case _ => None
  }

  /** The number of stars is kept in one byte. */
  function Evaluate(n: Node): Option<SymbolData> {
    match n
    case Pointer(t, stars, ro) =>
      var d :- Evaluate(t);
      Some(PointerType(d, stars % 256, ro))
    case Array(t, len) =>
      var d :- Evaluate(t);
      Some(ArrayType(d, len))
    case TypeName(s) =>
      var native :- NativeNamed(s);
      Some(Native(native))
  }

  /** Native types, and pointers and arrays over them. */
  predicate Printable(d: SymbolData) {
    match d
    case Native(_) => true
    case PointerType(t, n, _) => n < 256 && Printable(t)
    case ArrayType(t, _) => Printable(t)
    case _ => false
  }

  function Print(d: SymbolData): seq<Token>
    requires Printable(d)
  {
    match d
    case Native(n) => [Word(NativeName(n))]
    case PointerType(t, n, ro) => Repeat(n, Star) + (if ro then [ReadOnly] else []) + Print(t)
    case ArrayType(t, n) => [BracketOpen] + Print(t) + [Semicolon, Integer(n), BracketClose]
  }

  /** The tokens of a tree, with every star written out. */
  function Spell(n: Node): (s: seq<Token>)
    ensures s != []
  {
    match n
    case Pointer(t, stars, ro) => Repeat(stars, Star) + (if ro then [ReadOnly] else []) + Spell(t)
    case Array(t, len) => [BracketOpen] + Spell(t) + [Semicolon, Integer(len), BracketClose]
    case TypeName(s) => [Word(s)]
  }

  /** Every pointer has stars, and a plain one does not lead to a pointer. */
  predicate Canonical(n: Node) {
    match n
    case Pointer(t, stars, ro) => stars > 0 && (t.Pointer? ==> ro) && Canonical(t)
    case Array(t, _) => Canonical(t)
    case TypeName(_) => true
  }

  predicate RunsFit(n: Node) {
    match n
    case Pointer(t, stars, _) => stars <= 255 && RunsFit(t)
    case Array(t, _) => RunsFit(t)
    case TypeName(_) => true
  }

  predicate NormalForm(d: SymbolData)
    requires Printable(d)
  {
    match d
    case PointerType(t, n, ro) => n > 0 && (t.PointerType? ==> ro) && NormalForm(t)
    case ArrayType(t, _) => NormalForm(t)
    case Native(_) => true
  }

  // ---- Parsing is reading back ------------------------------------------------------------

  lemma {:induction false} ParseSound(toks: seq<Token>, pos: nat)
    requires Parse(toks, pos).Got?
    ensures var r := Parse(toks, pos); Spell(r.node) == toks[pos..r.pos] && Canonical(r.node)
    decreases |toks| - pos
  {
    hide Spell;
    var r := Parse(toks, pos);
    if At(toks, pos, Star) {
      var q := pos + r.node.stars + (if r.node.ro then 1 else 0);
      ParseSound(toks, q);
      PointerText(toks, pos, q, r);
    } else if At(toks, pos, BracketOpen) {
      ParseSound(toks, pos + 1);
      ArrayText(toks, pos, r);
    } else {
      WordText(toks, pos, r);
    }
  }

  lemma PointerText(toks: seq<Token>, pos: nat, q: nat, r: Parsed)
    requires r.Got? && r.node.Pointer? && pos <= q <= r.pos <= |toks| && q == pos + r.node.stars + (if r.node.ro then 1 else 0)
    requires forall k :: pos <= k < pos + r.node.stars ==> At(toks, k, Star)
    requires r.node.ro ==> At(toks, q - 1, ReadOnly)
    requires Spell(r.node.left) == toks[q..r.pos]
    ensures Spell(r.node) == toks[pos..r.pos]
  {
    var m := pos + r.node.stars;
    forall k | 0 <= k < r.node.stars ensures toks[pos..m][k] == Star { assert At(toks, pos + k, Star); }
    assert toks[pos..m] == Repeat(r.node.stars, Star);
    assert toks[m..q] == if r.node.ro then [ReadOnly] else [];
    hide Spell;
    assert toks[pos..r.pos] == toks[pos..m] + toks[m..q] + toks[q..r.pos];
  }

  lemma ArrayText(toks: seq<Token>, pos: nat, r: Parsed)
    requires r.Got? && r.node.Array? && pos + 4 <= r.pos <= |toks| && toks[pos] == BracketOpen
    requires toks[r.pos - 3..r.pos] == [Semicolon, Integer(r.node.len), BracketClose]
    requires Spell(r.node.left) == toks[pos + 1..r.pos - 3]
    ensures Spell(r.node) == toks[pos..r.pos]
  {
    assert toks[pos..r.pos] == [BracketOpen] + toks[pos + 1..r.pos - 3] + toks[r.pos - 3..r.pos];
  }

  lemma WordText(toks: seq<Token>, pos: nat, r: Parsed)
    requires pos < |toks| && toks[pos].Word? && r == Got(TypeName(toks[pos].text), pos + 1)
    ensures Spell(r.node) == toks[pos..r.pos]
  {}

  lemma {:induction false} StarsAre(toks: seq<Token>, pos: nat, n: nat)
    requires forall k :: pos <= k < pos + n ==> At(toks, k, Star)
    requires !At(toks, pos + n, Star)
    ensures Stars(toks, pos) == n
    decreases n
  {
    if n > 0 { StarsAre(toks, pos + 1, n - 1); }
  }

  /** A canonical tree is read back from its tokens, whatever follows. */
  lemma {:induction false} ParseComplete(toks: seq<Token>, pos: nat, n: Node)
    requires Canonical(n) && pos + |Spell(n)| <= |toks| && toks[pos..pos + |Spell(n)|] == Spell(n)
    ensures Parse(toks, pos) == Got(n, pos + |Spell(n)|)
    decreases n
  {
    hide Parse, Spell, Stars;
    match n
    case Pointer(t, stars, ro) =>
      PointerParts(toks, pos, n);
      ParseComplete(toks, pos + stars + (if ro then 1 else 0), t);
      PointerParsed(toks, pos, n);
    case Array(t, len) =>
      ArrayParts(toks, pos, n);
      ParseComplete(toks, pos + 1, t);
      ArrayParsed(toks, pos, n);
    case TypeName(_) => WordParsed(toks, pos, n);
  }

  /** Where the parts of a pointer's text are. */
  lemma PointerParts(toks: seq<Token>, pos: nat, n: Node)
    requires n.Pointer? && Canonical(n) && pos + |Spell(n)| <= |toks| && toks[pos..pos + |Spell(n)|] == Spell(n)
    ensures var q := pos + n.stars + (if n.ro then 1 else 0);
      && q + |Spell(n.left)| == pos + |Spell(n)| && toks[q..q + |Spell(n.left)|] == Spell(n.left)
      && (forall k :: pos <= k < pos + n.stars ==> At(toks, k, Star)) && (n.ro ==> At(toks, q - 1, ReadOnly))
  {
    var text := toks[pos..pos + |Spell(n)|];
    var q := pos + n.stars + (if n.ro then 1 else 0);
    assert text == Repeat(n.stars, Star) + (if n.ro then [ReadOnly] else []) + Spell(n.left);
    hide Spell;
    assert text[q - pos..] == Spell(n.left);
    assert toks[q..q + |Spell(n.left)|] == text[q - pos..];
    forall k | pos <= k < pos + n.stars ensures At(toks, k, Star) { assert toks[k] == text[k - pos]; }
    if n.ro { assert toks[q - 1] == text[n.stars]; }
  }

  lemma PointerParsed(toks: seq<Token>, pos: nat, n: Node)
    requires n.Pointer? && Canonical(n)
    requires var q := pos + n.stars + (if n.ro then 1 else 0);
      && q + |Spell(n.left)| == pos + |Spell(n)| <= |toks| && toks[q..q + |Spell(n.left)|] == Spell(n.left)
      && (forall k :: pos <= k < pos + n.stars ==> At(toks, k, Star)) && (n.ro ==> At(toks, q - 1, ReadOnly))
      && Parse(toks, q) == Got(n.left, q + |Spell(n.left)|)
    ensures Parse(toks, pos) == Got(n, pos + |Spell(n)|)
  {
    hide Parse, Stars;
    var q := pos + n.stars + (if n.ro then 1 else 0);
    SpellHead(n.left);
    assert toks[q] == Spell(n.left)[0] by { assert toks[q..q + |Spell(n.left)|][0] == toks[q]; }
    hide Spell;
    PointerStars(toks, pos, n, q);
    PointerRead(toks, pos, n, q, pos + |Spell(n)|);
  }

  lemma PointerStars(toks: seq<Token>, pos: nat, n: Node, q: nat)
    requires n.Pointer? && n.stars > 0 && q == pos + n.stars + (if n.ro then 1 else 0) && q < |toks|
    requires (forall k :: pos <= k < pos + n.stars ==> At(toks, k, Star)) && (n.ro ==> At(toks, q - 1, ReadOnly))
    requires toks[q] != ReadOnly && (!n.ro ==> toks[q] != Star)
    ensures At(toks, pos, Star) && Stars(toks, pos) == n.stars && At(toks, pos + n.stars, ReadOnly) == n.ro
  {
    hide Stars;
    StarsAre(toks, pos, n.stars);
  }

  lemma PointerRead(toks: seq<Token>, pos: nat, n: Node, q: nat, end: nat)
    requires n.Pointer? && At(toks, pos, Star) && Stars(toks, pos) == n.stars && At(toks, pos + n.stars, ReadOnly) == n.ro
    requires q == pos + n.stars + (if n.ro then 1 else 0) && Parse(toks, q) == Got(n.left, end)
    ensures Parse(toks, pos) == Got(n, end)
  {
    hide Stars, Spell, At;
  }

  lemma ArrayParts(toks: seq<Token>, pos: nat, n: Node)
    requires n.Array? && pos + |Spell(n)| <= |toks| && toks[pos..pos + |Spell(n)|] == Spell(n)
    ensures var p := pos + 1 + |Spell(n.left)|;
      && p + 3 == pos + |Spell(n)| && toks[pos + 1..p] == Spell(n.left) && toks[pos] == BracketOpen
      && toks[p] == Semicolon && toks[p + 1] == Integer(n.len) && toks[p + 2] == BracketClose
  {
    var text := toks[pos..pos + |Spell(n)|];
    var m := |Spell(n.left)|;
    assert text == [BracketOpen] + Spell(n.left) + [Semicolon, Integer(n.len), BracketClose];
    hide Spell;
    assert |text| == m + 4;
    assert text[1..1 + m] == Spell(n.left);
    TextSlice(toks, pos, text, 1, 1 + m);
    assert toks[pos] == text[0] && toks[pos + 1 + m] == text[1 + m] && toks[pos + 2 + m] == text[2 + m] && toks[pos + 3 + m] == text[3 + m];
  }

  lemma TextSlice(toks: seq<Token>, pos: nat, text: seq<Token>, i: nat, j: nat)
    requires i <= j <= |text| && pos + |text| <= |toks| && text == toks[pos..pos + |text|]
    ensures text[i..j] == toks[pos + i..pos + j]
  {
    forall k | 0 <= k < j - i ensures text[i..j][k] == toks[pos + i..pos + j][k] {
      assert text[i + k] == toks[pos + i + k];
    }
  }

  lemma ArrayParsed(toks: seq<Token>, pos: nat, n: Node)
    requires n.Array?
    requires var p := pos + 1 + |Spell(n.left)|;
      && p + 3 == pos + |Spell(n)| <= |toks| && toks[pos] == BracketOpen
      && toks[p] == Semicolon && toks[p + 1] == Integer(n.len) && toks[p + 2] == BracketClose
      && Parse(toks, pos + 1) == Got(n.left, p)
    ensures Parse(toks, pos) == Got(n, pos + |Spell(n)|)
  {
    hide Spell;
  }

  lemma WordParsed(toks: seq<Token>, pos: nat, n: Node)
    requires n.TypeName? && pos + |Spell(n)| <= |toks| && toks[pos..pos + |Spell(n)|] == Spell(n)
    ensures Parse(toks, pos) == Got(n, pos + |Spell(n)|)
  {
    assert toks[pos] == toks[pos..pos + 1][0];
  }

  /** The first token tells what the tree is. */
  lemma SpellHead(n: Node)
    requires Canonical(n)
    ensures (Spell(n)[0] == Star <==> n.Pointer?) && Spell(n)[0] != ReadOnly
  {}

  // ---- The two directions -----------------------------------------------------------------

  lemma NativeNames(n: NativeType)
    ensures NativeNamed(NativeName(n)) == Some(n)
  {}

  lemma NamedNative(s: string)
    requires NativeNamed(s).Some?
    ensures NativeName(NativeNamed(s).value) == s
  {}

  /** Evaluating and printing gives the tokens back exactly when every run of stars fits a byte,
      and otherwise fewer. */
  lemma {:induction false} PrintEvaluated(n: Node)
    requires Evaluate(n).Some?
    ensures var d := Evaluate(n).value;
      && Printable(d) && |Print(d)| <= |Spell(n)|
      && (Print(d) == Spell(n) <==> RunsFit(n)) && (|Print(d)| == |Spell(n)| <==> RunsFit(n))
  {
    match n
    case Pointer(t, stars, ro) => PrintEvaluated(t);
    case Array(t, _) => PrintEvaluated(t);
    case TypeName(s) => NamedNative(s);
  }

  /** Parse, evaluate, print: an accepted token sequence comes back exactly when it has no run of
      more than 255 stars. */
  lemma ParsePrint(toks: seq<Token>)
    requires Parse(toks, 0).Got? && Evaluate(Parse(toks, 0).node).Some?
    ensures var r := Parse(toks, 0); var d := Evaluate(r.node).value;
      Printable(d) && (Print(d) == toks[..r.pos] <==> RunsFit(r.node))
  {
    ParseSound(toks, 0);
    PrintEvaluated(Parse(toks, 0).node);
  }

  /** The tree of a type in normal form. */
  function NodeOf(d: SymbolData): Node
    requires Printable(d)
  {
    match d
    case Native(n) => TypeName(NativeName(n))
    case PointerType(t, n, ro) => Pointer(NodeOf(t), n, ro)
    case ArrayType(t, n) => Array(NodeOf(t), n)
  }

  lemma {:induction false} NodeOfIs(d: SymbolData)
    requires Printable(d)
    ensures Spell(NodeOf(d)) == Print(d) && Evaluate(NodeOf(d)) == Some(d) && (Canonical(NodeOf(d)) <==> NormalForm(d))
  {
    match d
    case Native(n) => NativeNames(n);
    case PointerType(t, _, _) => NodeOfIs(t);
    case ArrayType(t, _) => NodeOfIs(t);
  }

  /** What the text of a type is read as. */
  ghost predicate ReadsBack(d: SymbolData, toks: seq<Token>) {
    Parse(toks, 0).Got? && Evaluate(Parse(toks, 0).node) == Some(d)
  }

  /** Print, parse, evaluate: a type comes back from its text, whatever follows it, when it is in
      normal form. */
  lemma PrintParse(d: SymbolData, rest: seq<Token>)
    requires Printable(d) && NormalForm(d)
    ensures ReadsBack(d, Print(d) + rest) && Parse(Print(d) + rest, 0).pos == |Print(d)|
  {
    NodeOfIs(d);
    assert (Print(d) + rest)[0..0 + |Print(d)|] == Print(d);
    ParseComplete(Print(d) + rest, 0, NodeOf(d));
  }

  lemma {:induction false} EvaluatedNormal(n: Node)
    requires Evaluate(n).Some? && Canonical(n) && RunsFit(n)
    ensures Printable(Evaluate(n).value) && NormalForm(Evaluate(n).value)
  {
    match n
    case Pointer(t, _, _) => EvaluatedNormal(t);
    case Array(t, _) => EvaluatedNormal(t);
    case TypeName(_) =>
  }

  /** And only then: no other type is what its text is read as. */
  lemma OnlyNormalFormsReadBack(d: SymbolData)
    requires Printable(d)
    ensures ReadsBack(d, Print(d)) <==> NormalForm(d)
  {
    if NormalForm(d) {
      PrintParse(d, []);
      assert Print(d) + [] == Print(d);
    }
    if ReadsBack(d, Print(d)) {
      var n := Parse(Print(d), 0).node;
      ParseSound(Print(d), 0);
      PrintEvaluated(n);
      EvaluatedNormal(n);
    }
  }

  // ---- The parser as an object ------------------------------------------------------------

  class TypeParser {
    const toks: seq<Token>
    var pos: nat

    constructor (toks: seq<Token>)
      ensures this.toks == toks && pos == 0
    {
      this.toks := toks;
      pos := 0;
    }

    /** The cursor and the outcome agree with the specification; nothing is promised about the
        cursor after an exception. */
    ghost predicate Agrees(start: nat, want: Parsed, node: Option<Node>, thrown: bool)
      reads this
    {
      match want
      case Got(n, p) => !thrown && node == Some(n) && pos == p
      case Missing => !thrown && node == None && pos == start
      case Thrown => thrown
    }

    method NextIf(t: Token) returns (hit: bool, thrown: bool)
      modifies this
      ensures hit == At(toks, old(pos), t) && pos == old(pos) + (if hit then 1 else 0)
      ensures thrown <==> old(pos) >= |toks|
    {
      if pos >= |toks| { return false, true; }
      hit, thrown := toks[pos] == t, false;
      if hit { pos := pos + 1; }
    }

    method TypePointer() returns (node: Option<Node>, thrown: bool)
      requires At(toks, pos, Star)
      modifies this
      ensures Agrees(old(pos), Parse(toks, old(pos)), node, thrown)
      decreases |toks| - pos, 0
    {
      ghost var start := pos;
      var hit;
      hit, thrown := NextIf(Star);
      var indirection := 1;
      while true
        invariant pos == start + indirection <= |toks| && Stars(toks, start) == indirection + Stars(toks, pos)
        decreases |toks| - pos
      {
        hit, thrown := NextIf(Star);
        if thrown { return None, true; }
        if !hit { break; }
        indirection := indirection + 1;
      }
      var readonly;
      readonly, thrown := NextIf(ReadOnly);
      var target;
      target, thrown := TypeExpr();
      if thrown || target.None? { return None, true; }
      node := Some(Pointer(target.value, indirection, readonly));
    }

    method TypeArray() returns (node: Option<Node>, thrown: bool)
      requires At(toks, pos, BracketOpen)
      modifies this
      ensures Agrees(old(pos), Parse(toks, old(pos)), node, thrown)
      decreases |toks| - pos, 0
    {
      var hit;
      hit, thrown := NextIf(BracketOpen);
      var elem;
      elem, thrown := TypeExpr();
      if thrown || elem.None? { return None, true; }
      hit, thrown := NextIf(Semicolon);
      if !hit || pos >= |toks| || !toks[pos].Integer? { return None, true; }
      var size := toks[pos].n;
      pos := pos + 1;
      hit, thrown := NextIf(BracketClose);
      if !hit { return None, true; }
      node := Some(Array(elem.value, size));
    }

    method TypeExpr() returns (node: Option<Node>, thrown: bool)
      modifies this
      ensures Agrees(old(pos), Parse(toks, old(pos)), node, thrown)
      decreases |toks| - pos, 1
    {
      if pos >= |toks| {
        node, thrown := None, true;
      } else if toks[pos] == Star {
        node, thrown := TypePointer();
      } else if toks[pos] == BracketOpen {
        node, thrown := TypeArray();
      } else if toks[pos].Word? {
        node, thrown := Some(TypeName(toks[pos].text)), false;
        pos := pos + 1;
      } else {
        node, thrown := None, false;
      }
    }
  }
}
