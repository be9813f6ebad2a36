# Acris in Dafny

Acris is a compiler. This project models five of its parts and proves what they promise. Each
imperative part is an object whose methods are proved against functions, and the theorems are about
those functions.

**Expression parser and C++ text.** `PrattGrammar` is the grammar of token sequences with binding
powers, `PrattSpec` the parser as functions of tokens and cursor, `PrattParser` the object that
moves the cursor. Everything takes the binding table as a parameter; `Binding.ACRIS` is the
language's own. `PrattSound`, `PrattComplete` and `PrattTheorems` show that the parser decides the
grammar, that the grammar is unambiguous and that tokens are conserved; `PrattPrinter` is the
printer with minimal parentheses and its round trip, and `PrattShortest` shows that its texts are
the shortest. `PrattTiers` says what the language's own table means: families of operators, how
trees nest and how chains of operators are read. `CppText` is the text the C++ backend emits for
expressions and exactly when it fixes the grouping; `CppBackend` is the visitor that builds it.

**MIR lowering.** `Mir` and `MirFactory` are the module under construction and the factory
operations, `MirBuilder` the visitors as functions on it, `MirModuleFactory` and `MirVisitor` the
two objects. `MirShape`, `MirSteps`, `MirSsa` and `MirProgram` prove the SSA shape as an invariant
over every operation and every program; `MirLabels` the uniqueness of labels; `MirTargets` where
control goes and `MirBlocks` which code stays in one block; `Meaning`, `MirMachine`, `MirMeaning`,
`MirMeaningBody` and `MirMeaningFunction` that lowering a straight-line function preserves its
meaning; `MirMerge` what merging environments does and `MirNames` what an `If` makes of the names
around it; `MirTouches` which names stand for another variable behind a piece of code, and `MirEnds`
where its last block goes; `MirScopes` which scopes stay open, `MirClosed` when a function refers to
its own variables only, `MirFrame` and `MirChecked` that names it does not touch do not matter;
`MirTrace` that in every program no instruction is lost, doubled or moved, `MirEffects` how control
leaves a statement, `MirCalls` what a call passes and to whom; `MirLimits` what the lowering gets
wrong, with programs in `MirExamples`. The order in which a hash map is walked is the parameter
`order`; it may be another one at every merge and for every layer, and every theorem holds for all
orders.

**From checker to lowering.** `CheckedNames` relates the checker's scopes to those of the lowering,
`CheckedClosed` proves that checked programs are closed function by function, and `CheckedExamples`
has a program that shows why names have to be apart.

**Scopes.** `Scopes` and `EnvState` are the scope stack. `ScopeRules` states scoping as a relation
on the sequence of uses, bindings, pushes and pops, and proves that the stack decides it;
`ScopeRestore` that matched pairs give the outer scopes back; `ScopeChecker` what a tree does to
scopes; `ScopeOccurrences` compares the names the checker looks up with all names that are written;
`ScopeVisitor` is the checker's visitor. The type of every binder is given by the parameter `types`.

**Types.** `TypeSyntax` holds the type parser, evaluator and printer and shows on which types and
texts they are inverses; `SymbolTypes` resolving and type variants; `Promotion` the integer ladder
and the validation of arithmetic, bindings and assignments.

**Preprocessor.** `Preprocessor` expands inclusions over a finite map from paths to lines, cyclic
graphs included, and says exactly which expansions succeed; `PreprocessorOnce` proves that
`include_once` expands a path at most once, and what becomes of the lines around an `ifdef`;
`PreprocessorSplice` that an inclusion does what the lines of the file do in its place;
`PreprocessorClass` is the object.

`Ast`, `Statements`, `Tokens`, `Words` and `Sequences` are shared.

## What the code does differently from what it seems to promise

Each of these is a theorem below. Where a promise fails for some inputs only, the theorem says for
which.

- A unary `+`, `-` or `!` over an infix operand changes the grouping of the C++ text: `-(a + b)` is read
  as `(-a) + b` (`CppText.GroupingIsFixed`, `CppText.NegatedSumIsMisread`).
- A second postfix operator in a row is not tried, so `a + b[i][j]` groups as `(a + b[i])[j]`
  (`PrattPrinter.SecondSubscript`), a postfix operator under another one is always parenthesised
  (`PrattPrinter.PostfixGrouped`), and the index of a subscript is read at power 119, so an operator in
  it needs parentheses (`PrattTiers.NoSumInBrackets`). The minimal printer takes both into account.
- The jump that ends an `If` branch is put into the block the branch begins in. The block the branch
  ends in reaches the merge block exactly when the branch has no control flow and no short-circuit
  operator (`MirTargets.BranchReachesMerge`, both branches; `MirExamples.NestedIfOpen`). The same holds
  for the right term of `&&` and `||` (`MirEnds.RightReachesMerge`, `MirExamples.NestedOrOpen`), for the
  body of a loop and for its step (`MirEnds.LoopReachesStep`, `MirExamples.BranchingLoopOpen`). Without
  an alternative the conditional jump has one label only (`MirTargets.IfFlow`), although the opcode's
  comment in `src/acris/mir/mir.hpp` asks for two.
- An `If` with an alternative leaves one scope too many (`MirScopes.IfScopes`, and
  `MirScopes.StmtScopes` for nested ones). So a function gives the visible names back exactly when none
  is left open in it (`MirScopes.FunctionScopes`), and a later function can be lowered with a name it
  does not bind and a variable of another function (`MirExamples.LeakedName`). Without globals,
  functions refer to their own variables only exactly as long as no name is visible between them
  (`MirClosed.ClosedExactly`); when no function leaves a scope open they do with globals as well
  (`MirClosed.ProgramClosed`).
- Scopes that stay open do no harm to programs that pass the checker, as long as no local name is also a
  global one and no step of a loop uses a name of its body (`CheckedClosed.CheckedProgramClosed`);
  `CheckedExamples.RenamedForeign` is a program that passes and mixes variables of two functions.
- Behind a `Loop` a name stands for a variable of step or body, which a loop that is never entered does
  not compute, exactly when it is read or assigned there or bound anew (`MirTouches.LoopKeepsExactly`,
  `MirExamples.LoopNameMoves`).
- `x %= e` leaves `x` as it was (`MirLimits.RemainderForgotten`), and so do `x++` and `x--`
  (`MirLimits.StepForgotten`).
- A call has no value, so it cannot be an operand (`MirLimits.CallNoOperand`), an argument
  (`MirLimits.CallNoArgument`), or an initial, assigned, returned or tested value
  (`MirLimits.CallNoValue`); one null pointer per argument stands in front of its operands
  (`MirCalls.CallLowered`).
- Integer literals wrap to 32 bits (`MirMeaningFunction.LiteralExact`,
  `MirMeaningFunction.FunctionExact`).
- The index of a subscript, the elements of an array behind the first one, what is written behind a dot,
  and deferred statements are never looked up; a `return` without a value and an empty array are
  rejected. Apart from these the checker decides the scoping of every name that is written
  (`ScopeOccurrences.OccurrencesDecided`); each of the six positions has a lemma
  (`ScopeOccurrences.StrayIndexPasses`, `StrayElementPasses`, `StrayMemberPasses`,
  `StrayDeferredPasses`, `BareReturnFails`, `EmptyArrayFails`).
- Runs of stars are counted modulo 256 (`TypeSyntax.ParsePrint`).
- Arithmetic on a float variable and a float value is refused (`Promotion.OffTheLadder`).
- A name that takes the result of a PHI keeps the block of its first side (`MirMerge.MergeLayerSpec`),
  so an argument of a later PHI names the block that computes it only when it is no PHI result itself
  (`MirProgram.SsaShape`).
- A file that ends with an `#<endif` swallows no line of the including file, as it would if its lines
  stood there (`PreprocessingSplice.WalkConcat`).
- The line behind every `#<endif` that closes is lost (`PreprocessingOnce.LostUnread`), and text lines
  of both branches are emitted (`PreprocessingOnce.BranchText`).
- A path is registered only behind its expansion, so a file that includes itself once reaches the
  nesting limit (`Preprocessing.SelfInclusionFails`). With no more files than nesting levels left, an
  expansion succeeds exactly when nothing in it comes back to itself, is missing or has an error
  (`Preprocessing.ExpandsExactly`).

Rows whose last column begins with "object:" are the methods that do in place what a function
specifies; the rows in front of them are the results.

## Model

| member | source | states |
|---|---|---|
| PrattTheorems.ParserDecidesGrammar | src/acris/parser/acris/pratt/pratt_parser.cpp:676-747 | for every binding table and minimum power: the parser returns a tree and an end position if and only if the tokens there spell that tree, the tree keeps to the binding powers, and what follows cannot be drawn into it |
| PrattTheorems.Unambiguous | src/acris/parser/acris/pratt/pratt_parser.cpp:375-506 | two trees that keep to the binding powers and have the same tokens are the same tree, redundant parentheses and newlines included |
| PrattTheorems.CursorBehindTree | src/acris/parser/parser.cpp:84-129 | after a successful parse the cursor stands behind the tree, or, past newlines only, in front of an operator that was stepped back over |
| PrattTheorems.TokensConserved | src/acris/parser/acris/pratt/pratt_parser.cpp:102-225 | only parentheses, newlines and commas are lost between the tokens of a tree and its in-order reading |
| PrattTheorems.ParseConservesTokens | src/acris/parser/acris/pratt/pratt_parser.cpp:676-747 | every successful parse consumes exactly the in-order tokens of the tree it returns, apart from parentheses, newlines and commas |
| PrattTiers.ChainReading | src/acris/parser/acris/pratt/binding/maps.hpp:29-63 | under the language's table, every chain of operands and infix operators, of any length and with newlines in front of operators, is read as the tree of the families: factors above terms above comparisons above logical and above logical or, split at the last operator of the lowest family there is, or at the first one if these are comparisons |
| PrattTiers.PairReading | src/acris/parser/acris/pratt/binding/maps.hpp:29-63 | for all names and infix operators, `a x b y c` is read as `a x (b y c)` if and only if the family of `y` is the higher one or both are comparisons, and as `(a x b) y c` if and only if not |
| PrattTiers.AcrisNesting | src/acris/parser/acris/pratt/binding/maps.hpp:15-86 | in every tree with `Ok(ACRIS, c, m)`, at every node: an infix operator right of another stands in a higher family or both are comparisons, one left of another does not; no infix operator is the bare operand of a prefix operator, a dot or a bracket; and a dot or bracket follows a sum or signed operand only where that ends in a postfix operator |
| PrattTiers.RightOperandEnds | src/acris/parser/acris/pratt/binding/maps.hpp:29-63 | what may stand on the right of an operator ends in front of a second one if and only if the second one is not in a higher family and not both are comparisons |
| PrattTiers.SignReading | src/acris/parser/acris/pratt/binding/maps.hpp:15-86 | for all prefix and infix operators, `p a.b x q c[i]` is read as `(p (a.b)) x (q (c[i]))`: prefix operators bind tighter than infix ones, dot and bracket tighter than either |
| PrattTiers.DotReading | src/acris/parser/acris/pratt/binding/maps.hpp:70-86 | `a.b.c[i]` is read as `a.(b.(c[i]))` |
| PrattTiers.NoSumInBrackets | src/acris/parser/acris/pratt/binding/maps.hpp:70-86 | for every infix operator `x`, neither `a[b x c]` nor `a[b.c]` is an expression |
| PrattTiers.SignMeaning | src/acris/parser/acris/pratt/pratt_parser.cpp:375-485 | between two numbers every arithmetic sign and comparison is read as the operator that computes what the sign means, with a minus in front as well |
| PrattSpec.ParseExpr | src/acris/parser/acris/pratt/pratt_parser.cpp:676-747 | the mutual recursion ends on every token sequence; a tree consumes at least one token and the cursor never leaves the stream |
| PrattPrinter.PrintParse | src/acris/parser/acris/pratt/pratt_parser.cpp:676-747 | printing with parentheses only where the powers ask for them, then parsing at the same power, gives the tree back and stops at the rest, for every tree, every table without negative powers and every rest that cannot continue the expression |
| PrattPrinter.RoundTrip | src/acris/parser/acris/pratt/pratt_parser.cpp:676-747 | in front of a rest that starts with no operator the cursor stops exactly behind the printed text |
| PrattPrinter.ParensNeeded | src/acris/parser/acris/pratt/pratt_parser.cpp:102-116 | a tree whose root is too weak for the minimum power is parenthesised in every text the grammar has for it |
| PrattPrinter.PostfixGrouped | src/acris/parser/acris/pratt/pratt_parser.cpp:676-747 | in every text of the grammar, under every table, a postfix operator directly under another one is parenthesised |
| PrattPrinter.PostfixNeedsParens | src/acris/parser/acris/pratt/pratt_parser.cpp:676-747 | so it is in every text that is parsed to such a tree |
| PrattPrinter.SecondSubscript | src/acris/parser/acris/pratt/pratt_parser.cpp:676-747 | `a + b[i][j]` is read as a subscript of the sum, because after a postfix operator no second one is tried |
| PrattShortest.PrintShortest | src/acris/parser/acris/pratt/pratt_parser.cpp:676-747 | under the language's table no text that parses to a tree has fewer tokens than the printed one |
| CppText.TextReadBack | src/acris/codegen/cpp_backend/cpp_backend.cpp:608-720 | read with any table without negative powers, the C++ text of a tree is one complete expression, and it is the original tree if and only if no unary operator is drawn into an infix operand |
| CppText.GroupingIsFixed | src/acris/codegen/cpp_backend/cpp_backend.cpp:615-616 | the text gives the tree back under every precedence if and only if unary plus, minus and not stand on atoms, calls or other prefix expressions only |
| CppText.OperandsNeverCapture | src/acris/codegen/cpp_backend/cpp_backend.cpp:679-704 | unary operators on operands never capture |
| CppText.CapturedIsMisread | src/acris/codegen/cpp_backend/cpp_backend.cpp:679-685 | a captured operand is read as the left operand of the infix operator |
| CppText.NegatedSumIsMisread | src/acris/codegen/cpp_backend/cpp_backend.cpp:679-685 | the text of `-(a + b)` is read as `(-a) + b` |
| Scopes.FindIsFlat | src/acris/container/env_state.hpp:88-132 | a search from the innermost scope outward is a lookup in one flat map |
| Scopes.FlatKeys | src/acris/container/env_state.hpp:134-144 | the flat map has exactly the names of all scopes |
| Scopes.OnlyBinding | src/acris/container/env_state.hpp:88-132 | when no name is in two scopes, whatever scope binds it is the one a search finds |
| Scopes.FindInsert | src/acris/container/env_state.hpp:78-86 | inserting a free name changes the lookup of that name only |
| Scopes.FindUpdate | src/acris/mir/mir_builder/mir_env_state.hpp:65-72 | an update in place changes the lookup of that name only |
| MirProgram.SsaShape | src/acris/mir/mir_builder/mir_builder.cpp:36-957 | whatever the program and the walking order of hash maps, a lowered module is in SSA shape: unique instruction ids, ids increasing in each block, each variable the result of one instruction at most and then no parameter, operands that are parameters or earlier results, PHI arguments that name the block in which their variable is computed unless it is the result of a PHI itself, names bound to such variables, labels that lead to the one block of that name in the same function |
| MirShape.AppendKeeps | src/acris/mir/mir_builder/mir_module_factory.cpp:119-135 | appending an instruction whose id, result and operands fit keeps the invariant |
| MirShape.AddOperandsKeeps | src/acris/mir/mir_builder/mir_builder.cpp:51-60 | operands that are added to an emitted instruction keep the invariant if they are labels, or older than it |
| MirShape.AddBlockKeeps | src/acris/mir/mir_builder/mir_module_factory.cpp:371-403 | a new block keeps the invariant |
| MirSteps.VarBindKeeps | src/acris/mir/mir_builder/mir_module_factory.cpp:231-253 | binding a name to a copy keeps the invariant |
| MirSteps.AddVariableRefKeeps | src/acris/mir/mir_builder/mir_module_factory.cpp:288-309 | reading a name, which rebinds it to a copy, keeps the invariant |
| MirSteps.AddUpdateKeeps | src/acris/mir/mir_builder/mir_module_factory.cpp:311-330 | updating a name keeps the invariant |
| MirSteps.InsertJumpKeeps | src/acris/mir/mir_builder/mir_module_factory.cpp:205-221 | a jump that was created early and is inserted late keeps the ids of its block increasing |
| MirSteps.MergeEnvsKeep | src/acris/mir/mir_builder/mir_module_factory.cpp:514-594 | merging environments keeps the invariant |
| MirSsa.ExprKeeps | src/acris/mir/mir_builder/mir_builder.cpp:386-720 | lowering an expression keeps the invariant |
| MirSsa.LogicalKeeps | src/acris/mir/mir_builder/mir_builder.cpp:728-852 | lowering a short-circuit operator keeps the invariant |
| MirProgram.StmtKeeps | src/acris/mir/mir_builder/mir_builder.cpp:36-157 | lowering a statement keeps the invariant |
| MirProgram.EmittedStays | src/acris/mir/mir_builder/mir_builder.cpp:36-157 | an emitted instruction keeps its place and its operands, although conditional jumps are completed late |
| MirLabels.LabelRead | src/acris/mir/mir_builder/mir_module_factory.cpp:371-384 | prefix, underscore and decimal counter can be read back from a label, whatever the prefix |
| MirLabels.FindLabel | src/acris/mir/mir_builder/mir_module_factory.cpp:405-420 | searching a function for the label of one of its blocks finds that block |
| MirTargets.LogicalFlow | src/acris/mir/mir_builder/mir_builder.cpp:728-852 | the left term is entered; the conditional jump goes to the right term exactly when the left one does not decide; the blocks both terms begin in end with a jump to the merge block; and the PHI selects the value of the operator |
| MirEnds.RightReachesMerge | src/acris/mir/mir_builder/mir_builder.cpp:728-852 | the block the right term ends in jumps to the merge block if and only if no short-circuit operator is visited in it |
| MirExamples.NestedOrOpen | src/acris/mir/mir_builder/mir_builder.cpp:728-852 | an or of `true` and an and is lowered in every state, and the merge block of the inner operator does not jump to the one of the outer operator |
| MirTargets.IfFlow | src/acris/mir/mir_builder/mir_builder.cpp:36-97 | the conditional jump tests the condition, goes to the block the first branch begins in, has a second label exactly when there is an alternative, and both branches jump to the merge block |
| MirTargets.BranchReachesMerge | src/acris/mir/mir_builder/mir_builder.cpp:62-79 | for both branches of every `If`: the block a branch ends in jumps to the merge block if and only if the code of the branch has no control flow and no short-circuit operator where it is visited |
| MirBlocks.ExprMoves | src/acris/mir/mir_builder/mir_builder.cpp:386-852 | lowering an expression stays in its block if and only if no short-circuit operator stands where it is visited |
| MirBlocks.StmtMoves | src/acris/mir/mir_builder/mir_builder.cpp:36-334 | lowering a statement stays in its block if and only if that can be read off the statement: no control flow, no short-circuit operator; otherwise it ends in a later block of the same function |
| MirBlocks.BranchMoves | src/acris/mir/mir_builder/mir_builder.cpp:36-97 | a branch ends in the block it begins in if and only if its code stays in one block |
| MirExamples.NestedIfOpen | src/acris/mir/mir_builder/mir_builder.cpp:62-79 | `if true { if true {} }` is lowered in every state, and the block its branch ends in does not jump to the merge block |
| MirTargets.LoopFlow | src/acris/mir/mir_builder/mir_builder.cpp:99-157 | the conditional jump goes to the block the body begins in or behind the loop; that block ends with a jump to the step, and the block the step begins in with a jump to the condition |
| MirEnds.LoopReachesStep | src/acris/mir/mir_builder/mir_builder.cpp:99-157 | the block the body ends in jumps to the step if and only if the body has no control flow and no short-circuit operator; the block the step ends in jumps to the condition if and only if the step has none |
| MirEnds.StmtEnds | src/acris/mir/mir_builder/mir_builder.cpp:36-334 | lowering a statement never leaves a jump at the end of the last block |
| MirExamples.BranchingLoopOpen | src/acris/mir/mir_builder/mir_builder.cpp:99-157 | a loop with an `if` in its body is lowered in every state, and the block behind the `if` does not jump to the step |
| Meaning.DivMod | src/acris/mir/mir_builder/mir_builder.cpp:421-437 | the quotient rounds toward zero and the remainder has the sign of the dividend |
| MirMeaning.ExprLowers | src/acris/mir/mir_builder/mir_builder.cpp:321-720 | a straight-line expression is lowered if and only if its names are bound; only the last block grows |
| MirMeaning.RefRuns | src/acris/mir/mir_builder/mir_module_factory.cpp:288-330 | reading a name copies its value and the copy stands for the name afterwards |
| MirMeaning.ExprRuns | src/acris/mir/mir_builder/mir_builder.cpp:386-715 | the emitted code leaves the value of the expression in the last variable, or fails exactly when it has none, and every name keeps its value |
| MirMeaningBody.BodyLowers | src/acris/mir/mir_builder/mir_builder.cpp:191-564 | a straight-line body is lowered if and only if every name is bound before it is used, at most once in a scope |
| MirMeaningBody.BodyRuns | src/acris/mir/mir_builder/mir_builder.cpp:191-564 | the emitted code has the outcome of the body: it fails, returns the value, or goes on with the variable of every name holding the value of the name |
| MirMeaningFunction.FunctionLowers | src/acris/mir/mir_builder/mir_builder.cpp:210-255 | from every state between two items: a straight-line function is lowered if and only if its parameters are distinct and its body is well named, where names that earlier functions left visible count as bound |
| MirMeaningFunction.FunctionMeaning | src/acris/mir/mir_builder/mir_builder.cpp:210-255 | from every state between two items, whatever earlier functions left behind: a straight-line function with distinct parameters and a well-named body is lowered, and its entry block, started on any arguments, has the outcome of the body with each parameter standing for its argument |
| MirMeaningFunction.FunctionExact | src/acris/mir/mir_builder/mir_builder.cpp:210-255 | when its literals are below 2^31 as well, that outcome is the one of the body with literals of any size |
| MirMeaningFunction.LiteralExact | src/acris/mir/mir_builder/mir_builder.cpp:885-897 | an integer literal keeps its value if and only if it is below 2^31 |
| MirMeaningFunction.FittingBody | src/acris/mir/mir_builder/mir_builder.cpp:885-897 | when every literal of a body is below 2^31, the body means the same as with literals of any size |
| MirTrace.ProgramConserved | src/acris/mir/mir_builder/mir_builder.cpp:36-976 | for every program and walking order, whatever the control flow: the instructions of the lowered module, jumps and PHIs apart, are in order those of the source, with the operator each computes, the constant or global it reads, the function it calls, and the loop, round or function it leaves; none is lost, doubled or moved; and the locals of a function are the variables bound in it, in order |
| MirTrace.StmtAdds | src/acris/mir/mir_builder/mir_builder.cpp:36-334 | lowering any statement adds exactly its own events, behind all that were there |
| MirEffects.LastEffect | src/acris/mir/mir_builder/mir_builder.cpp:159-208 | for every lowered statement that stays in one block: the last instruction it emits, if any, leaves the loop, starts the next round, leaves the function or goes on exactly as the statement does, a statement that leaves emits one, and all instructions before it go on |
| MirEffects.ListEffects | src/acris/mir/mir_builder/mir_builder.cpp:159-208 | in a list of statements that stays in one block the leaving instructions are those of the leaving statements, one for one and in order |
| MirCalls.CallLowered | src/acris/mir/mir_builder/mir_module_factory.cpp:332-353 | for every call: it is lowered if and only if its function is visible and each argument leaves a variable; the last instruction is then a call without result, whose operands are the label of the function, a null for each argument, and for each `k` the variable that is last when the first `k + 1` arguments have been visited, in order |
| MirCalls.CallPasses | src/acris/mir/mir_builder/mir_builder.cpp:939-955 | where simple arguments are passed, operand `k` behind the nulls holds the value of argument `k`, although the code of later arguments rebinds names |
| MirCalls.ArgsRun | src/acris/mir/mir_builder/mir_builder.cpp:939-955 | the code of simple arguments leaves the value of each in its variable, or fails if and only if one of them has none |
| MirCalls.ProgramVisible | src/acris/mir/mir_builder/mir_module_factory.cpp:440-497 | behind the items of a program exactly the functions that are declared or defined in it can be called, and a definition counts more than a declaration |
| MirLimits.CallIsEmpty | src/acris/mir/mir_builder/mir_module_factory.cpp:332-353 | a lowered call leaves no value in the last variable |
| MirLimits.CallNoOperand | src/acris/mir/mir_builder/mir_builder.cpp:386-852 | a call is an exception as either operand of every infix operator, logical ones included, and behind a sign |
| MirLimits.CallNoArgument | src/acris/mir/mir_builder/mir_builder.cpp:939-955 | an argument list with a call anywhere in it is an exception |
| MirLimits.CallNoValue | src/acris/mir/mir_builder/mir_builder.cpp:36-334 | a call is an exception as initial value, assigned value, returned value, operand of a step, and condition of an `If` or a `Loop` |
| MirLimits.RemainderForgotten | src/acris/mir/mir_builder/mir_builder.cpp:472-564 | `%=` fails where the remainder has no value and otherwise leaves every name with its old value |
| MirLimits.StepForgotten | src/acris/mir/mir_builder/mir_builder.cpp:636-675 | `x++` and `x--` compute the next and the previous number in an instruction without a result, and every name keeps its value |
| MirScopes.StmtScopes | src/acris/mir/mir_builder/mir_builder.cpp:36-334 | how many scopes a statement leaves open can be read off it: an `If` with an alternative leaves one and what its first branch leaves, a loop what its body and step leave, both what their initialisation leaves; alternatives and branches without one leave none |
| MirScopes.IfScopes | src/acris/mir/mir_builder/mir_builder.cpp:77-97 | an `If` restores the number of scopes if and only if it has no alternative and its initialisation restores it; without an alternative the environment is the one behind its condition |
| MirScopes.FunctionScopes | src/acris/mir/mir_builder/mir_builder.cpp:210-255 | lowering a function adds as many scopes as its body leaves open and keeps the names of all others; it gives the names back if and only if its body leaves none open |
| MirScopes.ProgramScopes | src/acris/mir/mir_builder/mir_builder.cpp:957-976 | behind a whole program no name is visible if and only if no function leaves a scope open |
| MirScopes.FunctionRestores | src/acris/mir/mir_builder/mir_builder.cpp:210-255 | a well-named straight-line function gives back the very environment it found |
| MirExamples.LeakedName | src/acris/mir/mir_builder/mir_builder.cpp:77-97 | a program of two functions is lowered although the second one returns a name that only the first one binds, and the second one then refers to a variable of the first one |
| MirClosed.FunctionClosed | src/acris/mir/mir_builder/mir_builder.cpp:210-255 | where no name is visible, the code of the next function, whatever it is, refers to variables of its own only, and earlier functions are not touched |
| MirClosed.ClosedExactly | src/acris/mir/mir_builder/mir_builder.cpp:210-255 | in every state with the SSA invariant and no globals: whatever function comes next, its code refers to its own variables only, if and only if no name is visible in front of it |
| MirClosed.ProgramClosed | src/acris/mir/mir_builder/mir_builder.cpp:957-976 | when no function leaves a scope open, every variable operand in the module is a parameter of its own function or the result of an earlier instruction of its own function |
| MirClosed.VisibleForeign | src/acris/mir/mir_builder/mir_module_factory.cpp:288-309 | where a name is still visible, a function that returns it is lowered and refers to a variable that is not its own |
| MirTouches.LoopKeepsExactly | src/acris/mir/mir_builder/mir_builder.cpp:99-157 | for every lowered loop and name: behind the loop it stands for the variable it stood for behind the test if and only if it is found in the same scope and step and body neither read nor assign it there, which is read off the code and the names in scope; otherwise it stands for a variable that step or body compute |
| MirTouches.StmtKeepsExactly | src/acris/mir/mir_builder/mir_builder.cpp:36-334 | the same for every statement |
| MirTouches.StmtAdvances | src/acris/mir/mir_builder/mir_builder.cpp:36-334 | the names in every scope behind a statement, and which of them stand for a new variable, are those that can be read off it |
| MirExamples.LoopNameMoves | src/acris/mir/mir_builder/mir_builder.cpp:99-157 | behind `loop true; true; true { x }` the name `x` stands for another variable than behind the test |
| MirExamples.LoopName | src/acris/mir/mir_builder/mir_builder.cpp:99-157 | that variable was computed one block before the block in which lowering goes on, the one of the body |
| MirFrame.StmtAlone | src/acris/mir/mir_builder/mir_builder.cpp:36-334 | a statement that touches names of own scopes only is lowered to the same code as with no other name visible, whatever is there |
| MirChecked.OwnFunctionClosed | src/acris/mir/mir_builder/mir_builder.cpp:210-255 | a function that touches names of its own scopes only refers to its own variables only, whatever earlier functions left visible |
| CheckedNames.StmtOwned | src/acris/semantic/semantic_checker.cpp:296-664 | what passes the checker inside a function touches, when it is lowered, names of scopes of that function only |
| CheckedClosed.CheckedProgramClosed | src/acris/mir/mir_builder/mir_builder.cpp:957-976 | for every program that passes the checker and is lowered, in which no local name is the name of a function or global and no step uses a name of its body: every variable operand is a parameter of its own function or an earlier result of its own function, although scopes leak |
| CheckedExamples.RenamedForeign | src/acris/mir/mir_builder/mir_builder.cpp:957-976 | without names apart it fails: a program that declares a leaked name as a function and returns it passes the checker, is lowered, and refers to a variable of another function |
| MirMerge.MergeLayerSpec | src/acris/mir/mir_builder/mir_module_factory.cpp:543-587 | one layer: one PHI per differing name, in walking order, and only those names are rebound |
| MirMerge.MergeEnvsSpec | src/acris/mir/mir_builder/mir_module_factory.cpp:514-594 | for all environments and walking orders: exactly one PHI per layer and name that the walk reaches and on which the environments differ, its arguments exactly the two incoming sites; layers, names and all other variables stay |
| MirMerge.WholeLayer | src/acris/mir/mir_builder/mir_module_factory.cpp:543-587 | a layer whose names are all in the matching layer of the second environment is walked to its end |
| MirMerge.MatchingEnvs | src/acris/mir/mir_builder/mir_module_factory.cpp:514-594 | when each layer of the first environment has its names in the matching layer of the second, exactly the differing names get a PHI |
| MirNames.StmtNames | src/acris/mir/mir_builder/mir_builder.cpp:36-334 | a statement adds names to the innermost scope only, and never removes a scope |
| MirNames.IfJoinsNames | src/acris/mir/mir_builder/mir_builder.cpp:53-85 | behind an `If` with an alternative, every name around it stands for the variable on which both branches agree, or for a PHI between the variables it has at the ends of the two |
| ScopeRules.StackDecidesScoping | src/acris/semantic/semantic_checker.cpp:97-182 | a run on the scope stack succeeds if and only if every used name is bound earlier in an open scope, every binding agrees with what is visible, and no definition reuses a visible defined name |
| ScopeRules.NoShadowing | src/acris/semantic/semantic_checker.cpp:97-182 | in every reachable state no name is in two live scopes, so the innermost-first search is a lookup in one flat map |
| ScopeRestore.MatchedRestores | src/acris/semantic/semantic_checker.cpp:296-389 | a matched push and pop gives every outer scope its names back, keeps the types, and moves status from declared to defined only |
| ScopeCheckers.StatementKeepsScopes | src/acris/semantic/semantic_checker.cpp:296-362 | checking a statement leaves the scope depth, the outer names and all types |
| ScopeCheckers.FunctionKeepsScopes | src/acris/semantic/semantic_checker.cpp:422-468 | checking a function adds its own name at most |
| ScopeCheckers.CheckerDecidesScoping | src/acris/semantic/semantic_checker.cpp:1371-1380 | what a program does to scopes succeeds if and only if the program is well scoped |
| ScopeVisitors.Check | src/acris/semantic/semantic_checker.cpp:1371-1380 | a checker on a fresh scope stack lets a program through if and only if what it looks up is well scoped; and when no name stands where it does not look, if and only if the program has no rejected form and all its names are well scoped |
| ScopeOccurrences.OccurrencesDecided | src/acris/semantic/semantic_checker.cpp:296-664 | for every program, with every place where a name is written: what is let through has no rejected form; a program without one whose names are all well scoped is let through; and when no name stands in an index, in an array element behind the first, behind a dot or in a deferred statement, only such programs are let through |
| ScopeOccurrences.ProgramCovered | src/acris/semantic/semantic_checker.cpp:1371-1380 | a program without rejected forms and skipped names leaves the scopes exactly as looking up every name does |
| ScopeOccurrences.ProgramReading | src/acris/semantic/semantic_checker.cpp:1371-1380 | wherever looking up every name succeeds, the checker succeeds with the same names in the same scopes and no more of them defined |
| ScopeOccurrences.ExprDecided | src/acris/semantic/semantic_checker.cpp:470-664 | for every expression as the only statement of a function: it is let through if and only if it has no empty array where the checker looks and the names looked up are in scope; all its names are in scope if and only if they are the function or its parameter |
| ScopeOccurrences.StrayIndexPasses | src/acris/semantic/semantic_checker.cpp:624-664 | any index with an unbound name is let through |
| ScopeOccurrences.StrayElementPasses | src/acris/semantic/semantic_checker.cpp:1084-1110 | any array with an unbound name behind its first element is let through |
| ScopeOccurrences.StrayMemberPasses | src/acris/semantic/semantic_checker.cpp:1318-1360 | an unbound name behind a dot, in an argument or an index, is let through |
| ScopeOccurrences.StrayDeferredPasses | src/acris/semantic/semantic_checker.cpp:401-401 | an unbound name in a deferred statement is let through |
| ScopeOccurrences.BareReturnFails | src/acris/semantic/semantic_checker.cpp:403-411 | a `return` without a value is rejected although nothing is out of scope |
| ScopeOccurrences.EmptyArrayFails | src/acris/semantic/semantic_checker.cpp:1084-1110 | an empty array is rejected although nothing is out of scope |
| TypeSyntax.ParseSound | src/acris/parser/acris/type/type_parser.cpp:19-84 | what the type parser accepts spells the tree it returns, and the tree has no plain pointer to a pointer |
| TypeSyntax.ParseComplete | src/acris/parser/acris/type/type_parser.cpp:19-84 | the spelling of every such tree is read as that tree, whatever follows |
| TypeSyntax.PrintEvaluated | src/acris/types/core/core_types.cpp:108-142 | evaluating and printing gives the tokens back if and only if every run of stars fits a byte |
| TypeSyntax.ParsePrint | src/acris/parser/acris/type/type_parser.cpp:212-226 | parse, evaluate, print: an accepted sequence comes back if and only if it has no run of more than 255 stars |
| TypeSyntax.PrintParse | src/acris/types/core/core_types.cpp:108-142 | print, parse, evaluate: a type in normal form comes back, whatever follows its text |
| TypeSyntax.OnlyNormalFormsReadBack | src/acris/semantic/type_node_evaluator.cpp:71-95 | a type is what its text is read as if and only if it is in normal form |
| SymbolTypes.ResolveFails | src/acris/types/semantic/symbol_data.cpp:188-209 | resolving fails exactly when the path ends in no type |
| SymbolTypes.ResolveResolved | src/acris/types/semantic/symbol_types.cpp:10-155 | resolving leaves no variable on the path, is idempotent and keeps the native type |
| SymbolTypes.ResolveIdentifies | src/acris/types/semantic/symbol_data.cpp:257-302 | two types resolve to equal types if and only if they differ in variables along the path only |
| SymbolTypes.NativeOnlyBehindVariables | src/acris/types/semantic/symbol_data.cpp:211-232 | a type has a native type if and only if it resolves to it |
| SymbolTypes.VariantIdentifies | src/acris/types/semantic/symbol_data.cpp:234-255 | two types have equal variants if and only if they are equal up to mutability |
| SymbolTypes.TypeVariantOf | src/acris/types/semantic/symbol_data.cpp:234-255 | computes the specified variant |
| SymbolTypes.TypeVariantsOf | src/acris/types/semantic/symbol_types.cpp:77-91 | the loop over parameters computes the specified variants |
| SymbolTypes.TypeVariantsOfMembers | src/acris/types/semantic/symbol_types.cpp:47-63 | the loop over members computes the specified variants |
| Promotion.InferHighest | src/acris/semantic/semantic_checker.cpp:833-850 | integer arithmetic always has a type, that of its highest-ranked leaf |
| Promotion.InferOrderFree | src/acris/semantic/semantic_validator.cpp:147-177 | trees with the same set of leaves have the same native type |
| Promotion.BindingAccepted | src/acris/semantic/semantic_validator.cpp:67-122 | an annotated binding of integer arithmetic is accepted if and only if the annotation ranks at least as high as every leaf |
| Promotion.AssignmentAccepted | src/acris/semantic/semantic_validator.cpp:179-219 | an assignment of integer arithmetic to an integer variable is accepted if and only if the variable is mutable and ranks at least as high as every leaf |
| Promotion.AssignmentExactly | src/acris/semantic/semantic_validator.cpp:179-219 | for every left and right side: accepted if and only if the left side is a mutable variable, neither is the empty type, and both are integers of which the right one ranks no higher, or they are types that differ in variables along pointers and arrays only; the result is the left side |
| Promotion.BindingExactly | src/acris/semantic/semantic_validator.cpp:67-122 | for every annotation and initial value: accepted if and only if the annotation is the type of the value, or both are integers and the annotation ranks at least as high; the result is the annotation, without its variables in the second case |
| Promotion.LadderOrder | src/acris/semantic/type_promoter.cpp:47-62 | the ladder holds the integer types and no others, ordered by size, and within a size the signed type below the unsigned one |
| Promotion.OffTheLadder | src/acris/semantic/semantic_validator.cpp:147-177 | with a float or boolean, operands are accepted only if their types are equal, so a variable never meets a plain value |
| Preprocessing.Handle | src/acris/preprocessor/preprocessor.cpp:347-370 | expansion ends on every finite file map, cycles included, by a lexicographic measure; the nesting stays within 255 and is back at its old value; registered paths are never forgotten, and the output only grows |
| Preprocessing.ExpandsExactly | src/acris/preprocessor/preprocessor.cpp:172-201 | with no more files than nesting levels left: a file is expanded if and only if it and all it leads to are present, free of errors and do not come back to themselves |
| Preprocessing.PreprocessesExactly | src/acris/preprocessor/preprocessor.cpp:347-370 | with fewer than 255 files: a source is preprocessed if and only if it is free of errors and every inclusion in it can be expanded |
| Preprocessing.PlainExpandsExactly | src/acris/preprocessor/preprocessor.cpp:267-280 | without `include_once`, for any number of files: a file is expanded if and only if it leads to no more levels than are left |
| Preprocessing.RankExpands | src/acris/preprocessor/preprocessor.cpp:172-201 | where a rank falls along every inclusion of an unregistered path and fits the levels left, the file is expanded |
| Preprocessing.EnoughLevels | src/acris/preprocessor/preprocessor.cpp:172-201 | what ends after any number of levels ends after as many as there are files |
| Preprocessing.CycleFails | src/acris/preprocessor/preprocessor.cpp:172-201 | expanding a file of an inclusion cycle never succeeds while none of the files it enters once is registered |
| Preprocessing.SelfInclusionFails | src/acris/preprocessor/preprocessor.cpp:248-265 | a file that includes itself, once or not, is never expanded successfully unless it is registered |
| PreprocessingSplice.Splicing | src/acris/preprocessor/preprocessor.cpp:172-201 | from every state and for all sources around it: an inclusion outside any `ifdef`, of a file whose walk leaves no `ifdef` open and takes no line behind it along, does what the lines of the file do in its place, with the same output, registrations and errors, whenever it succeeds, and with enough levels for the files there are also when it does not |
| PreprocessingSplice.OnceFirst | src/acris/preprocessor/preprocessor.cpp:248-265 | behind any source that ends with itself: the first `include_once` of a path succeeds if and only if the lines of the file in its place do, whenever it succeeds or there are levels enough; then it gives their output, and besides registers the path |
| PreprocessingSplice.OnceLater | src/acris/preprocessor/preprocessor.cpp:248-265 | behind any source that ends with itself: an `include_once` of a path that is registered by then has no effect |
| PreprocessingSplice.OnceTwice | src/acris/preprocessor/preprocessor.cpp:248-265 | of two lines that include the same path once, the second one has no effect, whatever source that ends with itself stands between them |
| PreprocessingSplice.OutputAppended | src/acris/preprocessor/preprocessor.cpp:347-370 | what was written and logged before has no influence on a run and stays in front of what it writes |
| PreprocessingSplice.TextHandled | src/acris/preprocessor/preprocessor.cpp:347-370 | a source of text lines comes out as it stands |
| PreprocessingSplice.WalkConcat | src/acris/preprocessor/preprocessor.cpp:282-370 | behind a source whose walk ends with it the next source begins as if nothing had come before; behind one that ends with a closing `endif` it begins with its second line |
| PreprocessingSplice.HandleConcat | src/acris/preprocessor/preprocessor.cpp:347-370 | handling a source that ends with itself and then another is handling them in turn |
| PreprocessingOnce.OnceAtMost | src/acris/preprocessor/preprocessor.cpp:248-265 | in every successful run `include_once` expands each path at most once, although it registers a path only behind its expansion; what is registered is what was expanded; the nesting ends at 0 |
| PreprocessingOnce.BranchText | src/acris/preprocessor/preprocessor.cpp:282-323 | for branches of any number of text lines: the lines of both are emitted whatever is defined, the line behind the `endif` is lost, and the rest is handled as if it stood alone |
| PreprocessingSplice.IfdefExactly | src/acris/preprocessor/preprocessor.cpp:282-323 | where the branch that is taken is a source that ends with itself, nested `ifdef`s included, and the other one has any lines but `else` and `endif`: the first one does what its lines do outside; of the other one the text comes out and every directive is passed over, faulty ones included; the line behind the `endif` is lost and the rest is handled as if it stood alone |
| PreprocessingOnce.LostUnread | src/acris/preprocessor/preprocessor.cpp:282-323 | the line behind any `endif` that closes, nested ones included, can be replaced by any other without a change |
| PreprocessingOnce.LostBehindEndif | src/acris/preprocessor/preprocessor.cpp:296-312 | only lines behind an `endif` are lost this way |
| PrattParser.Parser.Expect | src/acris/parser/parser.cpp:67-82 | object: consumes the wanted token or throws without moving |
| PrattParser.Parser.AfterNewlines | src/acris/parser/parser.cpp:102-129 | object: moves to the first token behind newlines if it is the wanted one, and otherwise not at all |
| PrattParser.Parser.NewlineOpt | src/acris/parser/acris/acris_parser.cpp:53-60 | object: skips every newline at the cursor |
| PrattParser.Parser.Grouping | src/acris/parser/acris/pratt/pratt_parser.cpp:102-116 | object: agrees with the specification of a parenthesised operand, the empty pair included |
| PrattParser.Parser.FunctionCallNode | src/acris/parser/acris/pratt/pratt_parser.cpp:199-225 | object: agrees with the specification of a call, or gives the name back |
| PrattParser.Parser.UnaryOperator | src/acris/parser/acris/pratt/pratt_parser.cpp:118-197 | object: agrees with the specification of a prefix operator and its operand |
| PrattParser.Parser.PrefixOperand | src/acris/parser/acris/pratt/pratt_parser.cpp:272-298 | object: agrees with the specification of an operand |
| PrattParser.Parser.ExprListOpt | src/acris/parser/acris/acris_parser.cpp:255-283 | object: agrees with the specification of a list of expressions, whose loop pushes one tree per comma |
| PrattParser.Parser.MemberAccessNode | src/acris/parser/acris/pratt/pratt_parser.cpp:508-529 | object: agrees with one step of the postfix specification, or steps back |
| PrattParser.Parser.SubscriptNode | src/acris/parser/acris/pratt/pratt_parser.cpp:531-553 | object: agrees with one step of the postfix specification, or steps back |
| PrattParser.Parser.Postfix | src/acris/parser/acris/pratt/pratt_parser.cpp:613-634 | object: tries at most one postfix operator |
| PrattParser.Parser.ArithmeticNode | src/acris/parser/acris/pratt/pratt_parser.cpp:375-412 | object: agrees with the infix step for the arithmetic operators |
| PrattParser.Parser.LogicalNode | src/acris/parser/acris/pratt/pratt_parser.cpp:414-439 | object: agrees with the infix step for the logical operators |
| PrattParser.Parser.ComparisonNode | src/acris/parser/acris/pratt/pratt_parser.cpp:441-485 | object: agrees with the infix step for the comparison operators |
| PrattParser.Parser.InfixNode | src/acris/parser/acris/pratt/pratt_parser.cpp:487-506 | object: agrees with the infix step for any operator |
| PrattParser.Parser.Expression | src/acris/parser/acris/pratt/pratt_parser.cpp:676-747 | object: the loop over postfix and infix operators computes the specified tree, cursor and exception, whatever the tokens are |
| CppBackends.CppBackend.Resolve | src/acris/codegen/cpp_backend/cpp_backend.cpp:109-127 | object: the string of an expression is its text, only a call that is a statement is terminated, and the stack is as before |
| CppBackends.CppBackend.Visit | src/acris/codegen/cpp_backend/cpp_backend.cpp:608-720 | object: each visitor builds the text from the texts of the parts |
| CppBackends.CppBackend.Arguments | src/acris/codegen/cpp_backend/cpp_backend.cpp:378-406 | object: the loop joins the argument texts with commas |
| EnvStates.EnvState.Insert | src/acris/container/env_state.hpp:78-86 | object: adds to the innermost scope and keeps an entry that is there |
| EnvStates.EnvState.Find | src/acris/container/env_state.hpp:88-111 | object: the loop from the innermost scope outward finds what the specification finds |
| EnvStates.EnvState.Contains | src/acris/container/env_state.hpp:134-144 | object: true exactly for the names of the flat map |
| EnvStates.EnvState.PopEnv | src/acris/container/env_state.hpp:157-167 | object: removes the innermost scope, and refuses to remove the last one |
| EnvStates.EnvState.Update | src/acris/mir/mir_builder/mir_env_state.hpp:65-72 | object: overwrites the innermost binding, or fails |
| MirModuleFactories.MirModuleFactory.RequireLastVar | src/acris/mir/mir_builder/mir_module_factory.cpp:87-103 | object: the result of the last instruction, or an exception |
| MirModuleFactories.MirModuleFactory.InsertJump | src/acris/mir/mir_builder/mir_module_factory.cpp:205-221 | object: appends the reserved jump with its label; the whole new state is the specified one |
| MirModuleFactories.MirModuleFactory.AddBlock | src/acris/mir/mir_builder/mir_module_factory.cpp:371-403 | object: a block with a fresh label; the whole new state is the specified one |
| MirModuleFactories.MirModuleFactory.FindBlock | src/acris/mir/mir_builder/mir_module_factory.cpp:405-420 | object: the loop finds the first block with the label |
| MirModuleFactories.MirModuleFactory.VarBind | src/acris/mir/mir_builder/mir_module_factory.cpp:231-253 | object: as specified, or the exception for a name that is bound in the innermost scope; the whole new state is the specified one |
| MirModuleFactories.MirModuleFactory.AddUpdate | src/acris/mir/mir_builder/mir_module_factory.cpp:311-330 | object: as specified, or the exception for an unbound name; the whole new state is the specified one |
| MirModuleFactories.MirModuleFactory.AddVariableRef | src/acris/mir/mir_builder/mir_module_factory.cpp:288-309 | object: a load for a global, a copy otherwise; the whole new state is the specified one |
| MirModuleFactories.MirModuleFactory.AddCall | src/acris/mir/mir_builder/mir_module_factory.cpp:332-353 | object: as specified, or the exception for a function that is not visible; the whole new state is the specified one |
| MirModuleFactories.MirModuleFactory.AddFunctionDefinition | src/acris/mir/mir_builder/mir_module_factory.cpp:463-497 | object: as specified; the whole new state is the specified one |
| MirModuleFactories.MirModuleFactory.MergeLayer | src/acris/mir/mir_builder/mir_module_factory.cpp:543-587 | object: the inner loop computes the specified layer; the whole new state is the specified one |
| MirModuleFactories.MirModuleFactory.MergeEnvs | src/acris/mir/mir_builder/mir_module_factory.cpp:514-594 | object: the two nested loops compute the specified environment and instructions; the whole new state is the specified one |
| MirVisitors.MirBuilder.VisitExpr | src/acris/mir/mir_builder/mir_builder.cpp:321-720 | object: the visitor leaves the factory in the specified state, or throws exactly when specified |
| MirVisitors.MirBuilder.VisitLogical | src/acris/mir/mir_builder/mir_builder.cpp:728-852 | object: the visitor for logical and, and logical or, does what is specified |
| MirVisitors.MirBuilder.VisitAssignment | src/acris/mir/mir_builder/mir_builder.cpp:472-564 | object: the visitor does what is specified, right side first |
| MirVisitors.MirBuilder.VisitStmt | src/acris/mir/mir_builder/mir_builder.cpp:36-334 | object: the statement visitors do what is specified |
| MirVisitors.MirBuilder.VisitIf | src/acris/mir/mir_builder/mir_builder.cpp:36-97 | object: branches are lowered from the same environment and merged as specified |
| MirVisitors.MirBuilder.VisitLoop | src/acris/mir/mir_builder/mir_builder.cpp:99-157 | object: the loop visitor does what is specified |
| MirVisitors.MirBuilder.VisitFunction | src/acris/mir/mir_builder/mir_builder.cpp:210-255 | object: parameters and body in a scope of their own |
| MirVisitors.MirBuilder.GetCallArgs | src/acris/mir/mir_builder/mir_builder.cpp:939-955 | object: the loop collects one variable per argument |
| MirVisitors.MirBuilder.Translate | src/acris/mir/mir_builder/mir_builder.cpp:957-976 | object: from an empty module: the result is the specified one, and when nothing throws it is in SSA shape |
| ScopeVisitors.SemanticChecker.AddSymbolDeclaration | src/acris/semantic/semantic_checker.cpp:97-137 | object: repeats what is visible or adds to the innermost scope |
| ScopeVisitors.SemanticChecker.AddSymbolDefinition | src/acris/semantic/semantic_checker.cpp:139-182 | object: completes a visible declaration wherever it stands, adds a free name, refuses a defined one |
| ScopeVisitors.SemanticChecker.VisitExpr | src/acris/semantic/semantic_checker.cpp:470-664 | object: does what the expression does to scopes |
| ScopeVisitors.SemanticChecker.VisitIf | src/acris/semantic/semantic_checker.cpp:296-328 | object: does what the `If` does to scopes |
| ScopeVisitors.SemanticChecker.VisitLoop | src/acris/semantic/semantic_checker.cpp:330-362 | object: does what the `Loop` does to scopes |
| ScopeVisitors.SemanticChecker.VisitFunction | src/acris/semantic/semantic_checker.cpp:422-468 | object: does what the function does to scopes |
| ScopeVisitors.SemanticChecker.VisitItems | src/acris/semantic/semantic_checker.cpp:1371-1380 | object: the loop does what the program does to scopes |
| TypeSyntax.TypeParser.TypePointer | src/acris/parser/acris/type/type_parser.cpp:19-52 | object: the loop over stars computes the specified pointer, cursor or exception |
| TypeSyntax.TypeParser.TypeArray | src/acris/parser/acris/type/type_parser.cpp:54-84 | object: computes the specified array, cursor or exception |
| TypeSyntax.TypeParser.TypeExpr | src/acris/parser/acris/type/type_parser.cpp:212-226 | object: computes the specified type expression, cursor or exception |
| Promotion.TypePromoter.PromoteInt | src/acris/semantic/type_promoter.cpp:104-127 | object: computes the specified promotion from the ladder |
| Promotion.TypePromoter.Promote | src/acris/semantic/type_promoter.cpp:129-150 | object: promotes exactly when both types are on the ladder |
| Preprocessors.Preprocessor.HandlePreprocessor | src/acris/preprocessor/preprocessor.cpp:347-370 | object: the loop over lines does what is specified and reports exactly the specified errors |
| Preprocessors.Preprocessor.MatchMacro | src/acris/preprocessor/preprocessor.cpp:325-345 | object: one directive does what is specified |
| Preprocessors.Preprocessor.HandleIfdef | src/acris/preprocessor/preprocessor.cpp:282-323 | object: the loop over a branch does what is specified |
| Preprocessors.Preprocessor.HandleInclude | src/acris/preprocessor/preprocessor.cpp:267-280 | object: one inclusion does what is specified |
| Preprocessors.Preprocessor.HandleIncludeOnce | src/acris/preprocessor/preprocessor.cpp:248-265 | object: expands an unregistered path and registers it afterwards |
| Preprocessors.Preprocessor.IncludeFile | src/acris/preprocessor/preprocessor.cpp:172-201 | object: one nesting level deeper and back |

## Left out

- Characters, positions, comments and diagnostics: the parsers start from tokens, and a failure is a kind of error without its text.
- `to` casts, `::`, `->`, `self`, method calls and the chain parser of the Pratt parser: other operators or other entry points.
- Statement and item parsing: only the expression and type parsers are modelled.
- The C++ backend's statements, items and statement terminators other than a call's, array names behind `&`, array, member and subscript text, and character literals.
- MirBuilder.VisitStmt: `switch`, `match`, structs, enums, methods, attributes and float opcodes are not lowered; types of variables and comments of instructions are not kept.
- MirMeaningFunction.FunctionMeaning: not stated for `If`, `Loop`, `&&`, `||`, calls, `++`, `--`, globals, `defer` and floats, which the builder does not complete. What is emitted for them is stated by `MirTrace` (operators, constants, calls, exits), `MirEffects` (`break`, `continue` and `return`), `MirCalls` (operands), `MirTargets` (jumps) and `MirLimits` (`++` and `--`).
- MirClosed.ProgramClosed: that a definition dominates its uses follows inside a block, where ids increase. Across blocks it is stated through names: behind a loop by `MirTouches.LoopKeepsExactly`, behind an `If` by `MirNames.IfJoinsNames`; dominance in the graph of blocks is not defined.
- CheckedClosed.CheckedProgramClosed: the condition on names is sufficient; `CheckedExamples.RenamedForeign` shows that its first half cannot be dropped. Which programs that pass the checker are lowered at all is not stated.
- MirClosed.ClosedExactly: stated for programs without globals; a global of the same name hides a name that is still visible when it is read, but not when environments are merged.
- MirMeaning.ExprRuns: machine integers have 32 bits, the width at which the builder reads literals; wider integer types are not distinguished.
- MirBuilder.VisitItem: a second definition of a function overwrites the first one through a shared pointer; here every definition is a function of its own.
- MirFactory.InsertJump: blocks and instructions are addressed by position; the lists of the source only grow at their ends, so a position stands for the pointer.
- PrattShortest.PrintShortest: for the language's own table; under other tables one pair of parentheses can serve two purposes at once.
- ScopeCheckers.OfStmt: the types that the checker infers are given; type errors, context flags, enums, structs, methods, `switch` and imports are left out.
- ScopeVisitors.SemanticChecker.AddSymbolDeclaration: repeated declarations of a struct are not compared by the source; only declarations of structs, which are not modelled, pass a struct type to it.
- ScopeVisitors.SemanticChecker.VisitExpr: the member behind a dot is a name of a struct and not looked up in the scopes; `ScopeOccurrences.Occurring` does not count it as a use either.
- ScopeOccurrences.OccurrencesDecided: the condition on skipped positions is sufficient; a program with a bound name in one of them is judged correctly as well.
- TypeSyntax.Evaluate: user-defined type names are left out; base types are the native ones.
- SymbolTypes.Variant: null pointers inside types.
- Promotion.PromoteNative: the float ladder, which the promoter fills but never uses.
- Preprocessing.ExpandsExactly: with more files than nesting levels left, whether an acyclic expansion with `include_once` stays within the limit depends on which file is registered first; `Preprocessing.RankExpands` is sufficient, and `Preprocessing.PlainExpandsExactly` exact without `include_once`.
- Preprocessing.Walk: how a directive is found inside a line, macro definitions, path resolution and reading files; the file system is the map `files`.
- The LLVM backend, shell, interoperability with Lua and Python, settings, logging, banners and the AST archive: input, output and display.
