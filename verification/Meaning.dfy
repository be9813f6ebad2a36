/** The meaning of straight-line function bodies over 32-bit integers and booleans. */
module Meaning {
  import opened Ast
  import opened Statements
  import opened Words

  datatype Value = IntV(i: int) | BoolV(b: bool)

  function Abs(n: int): nat {
    if n < 0 then -n else n
  }

  /** Division rounds toward zero, and the remainder has the sign of the dividend. */
  function TruncDiv(a: int, b: int): int
    requires b != 0
  {
    if (a < 0) == (b < 0) then Abs(a) / Abs(b) else -(Abs(a) / Abs(b))
  }

  function TruncMod(a: int, b: int): int
    requires b != 0
  {
    if a < 0 then -(Abs(a) % Abs(b)) else Abs(a) % Abs(b)
  }

  lemma DivMod(a: int, b: int)
    requires b != 0
    ensures a == b * TruncDiv(a, b) + TruncMod(a, b)
    ensures Abs(TruncMod(a, b)) < Abs(b) && (TruncMod(a, b) == 0 || (TruncMod(a, b) < 0) == (a < 0))
  {
    var p, q := Abs(a), Abs(b);
    assert p == q * (p / q) + p % q;
  }

  type Env = map<string, Value>

  function Compare(op: InfixOp, a: int, b: int): bool {
    match op
    case LessThan => a < b
    case LessThanEqual => a <= b
    case GreaterThan => a > b
    case GreaterThanEqual => a >= b
    case Equal => a == b
    case _ => a != b
  }

  /** `None`: the operator has no value for these operands. */
  function Apply(op: InfixOp, a: Value, b: Value): Option<Value> {
    if a.BoolV? && b.BoolV? && (op == Equal || op == NotEqual) then
      Some(BoolV(if op == Equal then a.b == b.b else a.b != b.b))
    else if a.BoolV? || b.BoolV? then None
    else
      match op
      case Add => Some(IntV(Wrap32(a.i + b.i)))
      case Subtract => Some(IntV(Wrap32(a.i - b.i)))
      case Multiply => Some(IntV(Wrap32(a.i * b.i)))
      case Divide => if b.i == 0 then None else Some(IntV(Wrap32(TruncDiv(a.i, b.i))))
      case Modulo => if b.i == 0 then None else Some(IntV(TruncMod(a.i, b.i)))
      case And => None
      case Or => None
      case _ => Some(BoolV(Compare(op, a.i, b.i)))
  }

  /** The expressions the lowering completes. */
  predicate Simple(e: Expr) {
    match e
    case Literal(lit) => lit.IntLit? || lit.BoolLit?
    case Identifier(_) => true
    case Prefix(op, x) => (op == Positive || op == Negative) && Simple(x)
    case Infix(op, l, r) => op != And && op != Or && Simple(l) && Simple(r)
    case _ => false
  }

  function Names(e: Expr): set<string>
    requires Simple(e)
  {
    match e
    case Literal(_) => {}
    case Identifier(x) => {x}
    case Prefix(_, x) => Names(x)
    case Infix(_, l, r) => Names(l) + Names(r)
  }

  /** How a written integer is read; an integer type may be too small for it. */
  type Reading = int -> int

  function Eval(read: Reading, env: Env, e: Expr): Option<Value>
    requires Simple(e)
  {
    match e
    case Literal(IntLit(n)) => Some(IntV(read(n)))
    case Literal(BoolLit(b)) => Some(BoolV(b))
    case Identifier(x) => if x in env then Some(env[x]) else None
    case Prefix(op, x) =>
      var v :- Eval(read, env, x);
      if op == Positive then Some(v)
      else if v.BoolV? then None
      else Some(IntV(Wrap32(-v.i)))
    case Infix(op, l, r) =>
      var a :- Eval(read, env, l);
      var b :- Eval(read, env, r);
      Apply(op, a, b)
  }

  predicate SimpleStmt(s: Stmt) {
    match s
    case Let(_, init) => init.Some? && Simple(init.value)
    case Var(_, init) => init.Some? && Simple(init.value)
    case Assign(op, target, value) => target.Identifier? && op != ModAssign && Simple(value)
    case ExprStmt(e) => Simple(e)
    case Return(result) => result.Some? ==> Simple(result.value)
    case _ => false
  }

  predicate SimpleBody(ss: seq<Stmt>) {
    forall i :: 0 <= i < |ss| ==> SimpleStmt(ss[i])
  }

  datatype Outcome = Running(env: Env) | Returned(result: Option<Value>) | Stuck

  function AssignMeaning(op: AssignOp): (r: InfixOp)
    requires op != Regular
    ensures r != And && r != Or
  {
    match op
    case MulAssign => Multiply
    case DivAssign => Divide
    case ModAssign => Modulo
    case AddAssign => Add
    case SubAssign => Subtract
  }

  function Bound(env: Env, x: string, v: Option<Value>): Outcome {
    if v.None? then Stuck else Running(env[x := v.value])
  }

  function Run(read: Reading, env: Env, s: Stmt): Outcome
    requires SimpleStmt(s)
  {
    match s
    case Let(x, init) => Bound(env, x, Eval(read, env, init.value))
    case Var(x, init) => Bound(env, x, Eval(read, env, init.value))
    case Assign(op, target, value) =>
      if op != Regular then Bound(env, target.id, Eval(read, env, Infix(AssignMeaning(op), target, value)))
      else if target.id in env then Bound(env, target.id, Eval(read, env, value))
      else Stuck
    case ExprStmt(e) => if Eval(read, env, e).None? then Stuck else Running(env)
    case Return(result) =>
      if result.None? then Returned(None)
      else if Eval(read, env, result.value).None? then Stuck
      else Returned(Eval(read, env, result.value))
  }

  function RunBody(read: Reading, env: Env, ss: seq<Stmt>): Outcome
    requires SimpleBody(ss)
    decreases |ss|
  {
    if ss == [] then Running(env)
    else
      var first := Run(read, env, ss[0]);
      if first.Running? then RunBody(read, first.env, ss[1..]) else first
  }

  /** The names a statement needs. */
  function Used(s: Stmt): set<string>
    requires SimpleStmt(s)
  {
    match s
    case Let(_, init) => Names(init.value)
    case Var(_, init) => Names(init.value)
    case Assign(_, target, value) => Names(value) + {target.id}
    case ExprStmt(e) => Names(e)
    case Return(result) => if result.Some? then Names(result.value) else {}
  }

  /** The names it binds. */
  function Binds(s: Stmt): set<string> {
    if s.Let? || s.Var? then {s.name} else {}
  }

  /** Every name is bound where it is used, and no name is bound twice in the same scope:
      `bound` are the visible names, `inner` those of the innermost scope. */
  predicate WellNamed(bound: set<string>, inner: set<string>, ss: seq<Stmt>)
    requires SimpleBody(ss)
    decreases |ss|
  {
    ss == [] ||
    (Used(ss[0]) <= bound && Binds(ss[0]) !! inner && WellNamed(bound + Binds(ss[0]), inner + Binds(ss[0]), ss[1..]))
  }

  /** More visible names do no harm. */
  lemma {:induction false} MoreNames(bound: set<string>, more: set<string>, inner: set<string>, ss: seq<Stmt>)
    requires SimpleBody(ss) && WellNamed(bound, inner, ss) && bound <= more
    ensures WellNamed(more, inner, ss)
    decreases |ss|
  {
    if ss != [] { MoreNames(bound + Binds(ss[0]), more + Binds(ss[0]), inner + Binds(ss[0]), ss[1..]); }
  }

  /** A statement that goes on gives its name a value and keeps the others' names. */
  lemma RunNames(read: Reading, env: Env, s: Stmt)
    requires SimpleStmt(s) && Used(s) <= env.Keys && Run(read, env, s).Running?
    ensures Run(read, env, s).env.Keys == env.Keys + Binds(s)
  {}
}
