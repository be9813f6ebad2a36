/** The C++ backend's expression visitors as an object: strings are built from the strings of the
    parts, and a stack says whether the node being visited ends a statement. */
module CppBackends {
  import opened Ast
  import opened Tokens
  import opened CppText

  /** A semicolon and a line break. */
  const TERMINATOR: Token := Other(0)

  class CppBackend {
    var terminates: seq<bool>

    constructor ()
      ensures terminates == []
    {
      terminates := [];
    }

    method Terminate() returns (text: seq<Token>)
      requires terminates != []
      ensures text == if terminates[|terminates| - 1] then [TERMINATOR] else []
    {
      return if terminates[|terminates| - 1] then [TERMINATOR] else [];
    }

    /** The text of an expression; only a call that is a statement of its own is terminated, and
        nothing inside an expression ever is. */
    method Resolve(e: Expr, statement: bool) returns (text: seq<Token>)
      requires CppTree(e)
      modifies this
      ensures terminates == old(terminates)
      ensures text == Text(e) + (if statement && e.FunctionCall? then [TERMINATOR] else [])
      decreases e, 1
    {
      terminates := terminates + [statement];
      text := Visit(e);
      terminates := terminates[..|terminates| - 1];
    }

    method Visit(e: Expr) returns (text: seq<Token>)
      requires CppTree(e) && terminates != []
      modifies this
      ensures terminates == old(terminates)
      ensures text == Text(e) + (if terminates[|terminates| - 1] && e.FunctionCall? then [TERMINATOR] else [])
      decreases e, 0
    {
      match e
      case Literal(lit) => text := [Lit(lit)];
      case Identifier(id) => text := [Name(id)];
      case FunctionCall(f, args) =>
        var arguments := Arguments(args);
        var end := Terminate();
        text := [Name(f), ParenOpen] + arguments + [ParenClose] + end;
      case Infix(op, l, r) =>
        var left := Resolve(l, false);
        var right := Resolve(r, false);
        text := [ParenOpen] + left + [ParenClose] + [InfixToken(op)] + [ParenOpen] + right + [ParenClose];
      case Prefix(op, x) =>
        var operand := Resolve(x, false);
        text := if op == AddressOf || op == Dereference then [PrefixToken(op)] + [ParenOpen] + operand + [ParenClose]
                else [ParenOpen] + [PrefixToken(op)] + operand + [ParenClose];
    }

    method Arguments(args: seq<Expr>) returns (text: seq<Token>)
      requires forall e <- args :: CppTree(e)
      modifies this
      ensures terminates == old(terminates) && text == TextList(args)
      decreases args, 0
    {
      text := [];
      var sep: seq<Token> := [];
      for i := 0 to |args|
        invariant terminates == old(terminates) && sep == if i == 0 then [] else [Comma]
        invariant text == TextList(args[..i])
      {
        var argument := Resolve(args[i], false);
        TextListNext(args, i);
        text := text + sep + argument;
        sep := [Comma];
      }
      assert args[..|args|] == args;
    }
  }

  lemma {:induction false} TextTailNext(es: seq<Expr>, i: nat)
    requires (forall e <- es :: CppTree(e)) && i < |es|
    ensures TextTail(es[..i + 1]) == TextTail(es[..i]) + [Comma] + Text(es[i])
    decreases i
  {
    hide Text, CppTree;
    if i == 0 {
      assert es[..1][1..] == [] && TextTail([]) == [];
    } else {
      var t := es[1..];
      assert es[..i + 1][1..] == t[..i] && es[..i][1..] == t[..i - 1];
      TextTailNext(t, i - 1);
      var head := [Comma] + Text(es[0]);
      assert TextTail(es[..i + 1]) == head + TextTail(t[..i]) && TextTail(es[..i]) == head + TextTail(t[..i - 1]);
      hide TextTail;
      var last := [Comma] + Text(es[i]);
      assert TextTail(t[..i]) == TextTail(t[..i - 1]) + last;
      assert head + (TextTail(t[..i - 1]) + last) == head + TextTail(t[..i - 1]) + last;
    }
  }

  lemma TextListNext(es: seq<Expr>, i: nat)
    requires (forall e <- es :: CppTree(e)) && i < |es|
    ensures TextList(es[..i + 1]) == TextList(es[..i]) + (if i == 0 then [] else [Comma]) + Text(es[i])
  {
    hide Text, CppTree;
    if i == 0 {
      assert es[..1][1..] == [] && TextTail([]) == [];
    } else {
      var t := es[1..];
      assert es[..i + 1][1..] == t[..i] && es[..i][1..] == t[..i - 1];
      TextTailNext(t, i - 1);
      hide TextTail;
      assert Text(es[0]) + (TextTail(t[..i - 1]) + [Comma] + Text(es[i])) == Text(es[0]) + TextTail(t[..i - 1]) + [Comma] + Text(es[i]);
    }
  }
}
