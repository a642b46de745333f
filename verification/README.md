# Three-address code generator, modelled in Dafny

The `ThreeAddressCode` class (ThreeAdressCode.py:4-73) compiles one line of
space-separated infix arithmetic into three-address code:

- `infix_to_postfix` splits the line on whitespace and converts it to
  postfix order with a shunting-yard loop and a fixed precedence table;
- `generate_tac` walks the postfix order with an operand stack, appending
  `t<k> = a op b` for each binary operator (naming a new temporary with
  `new_temp`) and `lhs = rhs` for `=`;
- `get_instructions` joins every instruction the object has ever emitted
  with line breaks.

The object is mutable and long-lived: its temporary counter and instruction
list persist across calls, and across errors. In the model the object is a
value, `Tac.Session`, which each call takes and returns (`Tac.Outcome` pairs
the new session with the returned name or the error raised).

Modules, one per file:

| module | file | what it holds |
|---|---|---|
| `Errors` | errors.dfy | `CompileError` (one constructor per kind of failure), `Option`, `Result` |
| `Lists` | lists.dfy | Python lists as stacks (`Top`, `Pop`), `Reverse`, `Filter` |
| `Text` | text.dfy | `str.split()`, `str.isalnum()`, `"\n".join` and its inverse, `str(n)` |
| `Tokens` | tokens.dfy | the token classes both loops test for, `Classify` and its inverse `Spell` |
| `Precedence` | precedence.dfy | the precedence table and `Rank` |
| `Postfix` | postfix.dfy | `infix_to_postfix`: `Step`, `Run`, `Drain`, `InfixToPostfix` |
| `PostfixLaws` | postfix_laws.dfy | what the converter guarantees |
| `Tac` | tac.dfy | the object: `Session`, `NewTemp`, `EmitStep`, `EmitAll`, `GenerateTac`, `GetInstructions` |
| `TacLaws` | tac_laws.dfy | what the emitter and `generate_tac` guarantee |
| `Expressions` | expressions.dfy | expression trees, where `Group` is a pair of parentheses a user adds: the printer (the parentheses precedence needs, plus one pair per `Group`), postfix order, a recursive reference compiler, evaluation |
| `ExpressionLaws` | expression_laws.dfy | on printed trees, `generate_tac` does what the reference compiler does |
| `SemanticsLaws` | semantics_laws.dfy | the emitted code computes the tree's value |
| `ListingLaws` | listing_laws.dfy | `get_instructions` splits back into one instruction per line |
| `Traces` | traces.dfy | worked lines that pin down the code's edge cases |

Behaviour of the code that a reader of its docstrings might not expect, all
modelled as the code does it:

- The operator branch (line 60) pops while the top outranks the incoming
  token, with no test for `(`. So `=` (rank -1) pops `(` (rank 0). That `(`
  then reaches the postfix output, and the emitter treats it as a binary
  operator (`Traces.AssignPopsOpen`).
- A symbol outside the table is looked up only when the operator stack is
  non-empty, because the `operators and ...` test short-circuits. `a ? b` is
  accepted and emits `t1 = a ? b` (`Traces.UnknownAlone`). `a ? b + c` fails
  (`Traces.UnknownOnStack`).
- A blank line is not rejected by the core. The postfix order is empty, the
  stack ends empty, and line 39 raises (`TacLaws.BlankInput`). The
  blank-input check at line 100 belongs to the window class.
- An error does not roll the object back. Instructions appended and
  temporaries numbered before the failing token stay in it
  (`Traces.TrailingOperand`).
- Temporaries are named `t1`, `t2`, ... with no check against the line's
  own variables. A variable called `t1` can be overwritten before it is read
  (`Traces.TempCollision`).

## Model

| member | source | states |
|---|---|---|
| Text.SplitBlank | ThreeAdressCode.py:48 | splitting yields no tokens exactly when the line is all whitespace |
| Text.SplitKeepsVisible | ThreeAdressCode.py:48 | splitting only drops whitespace: the tokens, glued together, are the line's non-whitespace characters in order |
| Text.SplitJoinSpaces | ThreeAdressCode.py:48 | splitting whitespace-free words joined by single spaces gives back exactly those words |
| Text.SplitOnJoin | ThreeAdressCode.py:73 | splitting a newline-joined list at line breaks gives the list back, when no element contains a line break and there is at least one element |
| Text.JoinSplitOn | ThreeAdressCode.py:73 | splitting any text at line breaks and joining again with line breaks gives the text back |
| Text.ParseNatToString | ThreeAdressCode.py:12 | the decimal numeral written into a temporary's name reads back as the counter value |
| Text.NatToStringInjective | ThreeAdressCode.py:12 | different counter values give different numerals |
| Tokens.SpellClassify | ThreeAdressCode.py:49-59 | classifying a word by the loop's tests loses nothing: the token's text is the word |
| Tokens.ClassifySpell | ThreeAdressCode.py:49-59 | every classifiable token is recovered by classifying its text |
| Tokens.TokenizeSpelled | ThreeAdressCode.py:48-59 | splitting and classifying the space-joined text of a token sequence gives that sequence back |
| Precedence.RankIsTableLookup | ThreeAdressCode.py:44 | a token's rank exists exactly when its text is a key of the table, and is that key's value |
| Precedence.LowestRank | ThreeAdressCode.py:44 | `=` ranks at or below every symbol in the table |
| Precedence.ArithmeticRank | ThreeAdressCode.py:44 | the four arithmetic operators all rank at least 1, above `(` |
| Postfix.PopOutranking | ThreeAdressCode.py:60-61 | the operator pop loop only removes entries from the top of the stack, and its only failure is a failed table lookup |
| Postfix.PopOutrankingMoves | ThreeAdressCode.py:60-61 | the entries the operator pop loop removes reach the output top first |
| Postfix.KeptRun | ThreeAdressCode.py:60-61 | the entries above the kept prefix all outrank the token, and the entry just below them does not |
| Postfix.PopOutrankingStops | ThreeAdressCode.py:60-61 | the operator pop loop fails exactly when the entry where it stops, or the token itself, is missing from the table; otherwise it keeps exactly the entries that do not outrank the token |
| Postfix.PopToOpen | ThreeAdressCode.py:54-55 | the `)` pop loop only removes entries from the top of the stack, and stops on an empty stack or with `(` on top |
| Postfix.PopToOpenMoves | ThreeAdressCode.py:54-55 | the `)` pop loop moves no `(`, and the entries it moves reach the output top first |
| Postfix.Step | ThreeAdressCode.py:49-62 | a token fails only with a parenthesis error (for `)`) or an unknown-operator error (for everything else) |
| Postfix.CloseFails | ThreeAdressCode.py:53-58 | `)` fails exactly when the stack holds no `(` |
| Postfix.Drain | ThreeAdressCode.py:64-67 | the final flush succeeds exactly when no `(` is left on the stack; the stack then goes to the output top first |
| PostfixLaws.StepOnClose | ThreeAdressCode.py:53-58 | `)` moves every entry above the topmost `(` to the output, top first, and drops that `(` |
| PostfixLaws.StepOnOperator | ThreeAdressCode.py:59-62 | an operator moves the outranking entries to the output and then goes on the stack; it fails exactly when the pop loop fails |
| PostfixLaws.OperandsInOrder | ThreeAdressCode.py:42-69 | a successful conversion emits every operand of the input once, in input order, and never emits `)` |
| PostfixLaws.StepOrdered | ThreeAdressCode.py:59-62 | one token keeps the stack strictly increasing in rank between parentheses |
| PostfixLaws.RunOrdered | ThreeAdressCode.py:48-62 | on every stack the token loop builds, each entry other than `(` ranks strictly above the entry below it |
| PostfixLaws.LowRankAtBottom | ThreeAdressCode.py:59-62 | `=` and symbols outside the table are only ever at the bottom of the stack |
| PostfixLaws.StepArithmetic | ThreeAdressCode.py:49-62 | on operands, parentheses and `+ - * /`, a token fails only as an unmatched `)`, and the state keeps its invariant |
| PostfixLaws.RunArithmetic | ThreeAdressCode.py:48-62 | on operands, parentheses and `+ - * /`, the token loop succeeds exactly when no prefix closes more parentheses than it opens |
| PostfixLaws.ArithmeticConversion | ThreeAdressCode.py:42-69 | on operands, parentheses and `+ - * /`, conversion succeeds exactly when the parentheses balance; the output is then the input's non-parenthesis tokens, rearranged |
| Tac.RenderAll | ThreeAdressCode.py:27-35 | one rendered line per instruction, each the instruction's f-string text |
| Tac.NewTemp | ThreeAdressCode.py:9-12 | `new_temp` raises the counter by one and leaves the instructions alone |
| Tac.EmitStep | ThreeAdressCode.py:19-36 | the emitter loop can only raise the insufficient-operands error |
| TacLaws.EmitStepHeight | ThreeAdressCode.py:20-36 | a token fails exactly when it is an operator meeting fewer than two entries; otherwise operands push one entry and operators remove one |
| TacLaws.EmitHeight | ThreeAdressCode.py:19-36 | the emitter loop runs to the end exactly when every operator finds two entries, and then leaves the predicted number of entries on the stack |
| TacLaws.EmitStepLog | ThreeAdressCode.py:20-36 | one step appends one instruction per operator, and a binary operator takes the next temporary in number order |
| TacLaws.EmitLog | ThreeAdressCode.py:19-36 | whether or not the loop stops early, instructions are only appended and the temporaries named are the next ones in order |
| TacLaws.EmitCounts | ThreeAdressCode.py:19-36 | a loop that runs to the end emits one instruction per operator and one temporary per non-`=` operator |
| TacLaws.OneInstructionPerOperator | ThreeAdressCode.py:14-69 | on a line of operands, parentheses and `+ - * /`, a call that returns a name or raises only at the end (unresolved expression) has appended one instruction and named one temporary per operator of the line |
| TacLaws.TempNameInjective | ThreeAdressCode.py:12 | two temporary names are equal exactly when their numbers are |
| TacLaws.TempRangeDistinct | ThreeAdressCode.py:9-12 | the temporaries named over a span of counter values are pairwise distinct |
| TacLaws.NewTempName | ThreeAdressCode.py:9-12 | the name `new_temp` returns is `t` followed by digits that read back as the raised counter |
| TacLaws.NewTempFresh | ThreeAdressCode.py:9-12 | `new_temp` never returns a name it returned before |
| TacLaws.FreshNumbered | ThreeAdressCode.py:5-7 | a new object satisfies the numbering invariant |
| TacLaws.GenerateTacAppends | ThreeAdressCode.py:14-40 | `generate_tac` only appends, whether it succeeds or raises, and the temporaries it names continue the numbering; the numbering invariant is kept |
| TacLaws.GenerateTacResult | ThreeAdressCode.py:14-40 | a conversion error leaves the object untouched; otherwise the call returns exactly when every operator finds two operands and one entry remains, and the errors are exactly the two emitter errors |
| TacLaws.BlankInput | ThreeAdressCode.py:17-39 | a blank line raises the unresolved-expression error and leaves the object as it was |
| TacLaws.GetInstructionsLines | ThreeAdressCode.py:71-73 | splitting the listing at line breaks gives the rendered instructions back, when there is at least one and none spans two lines |
| ExpressionLaws.RunAppend | ThreeAdressCode.py:48-62 | the token loop over two sequences is the loop over the second, started where the first stopped; an error in the first ends it |
| ExpressionLaws.PopAbove | ThreeAdressCode.py:60-61 | when the entries above some point all outrank the incoming operator and the entry at that point ranks below it, the operator pop loop moves exactly those entries, top first, and stops there |
| ExpressionLaws.ParensRun | ThreeAdressCode.py:48-62 | a parenthesised tree appends exactly its postfix order to the output and leaves the stack as it was |
| ExpressionLaws.LeftThenOperator | ThreeAdressCode.py:48-62 | after a tree's left operand, the tree's operator pops every operator the operand left stacked, which bind at least as tightly, and stops at the entry below, which binds more loosely |
| ExpressionLaws.PrintRun | ThreeAdressCode.py:48-62 | a printed tree, on a stack whose top binds more loosely than the tree's root, moves its whole postfix order to the output except the operators down its unparenthesised right edge, which stay stacked |
| ExpressionLaws.ConvertPrint | ThreeAdressCode.py:42-69 | converting any printed tree gives the tree's postfix order. A printed tree has the parentheses that precedence and left grouping need, plus any a user adds, nested or around the whole line. In that order `*` and `/` bind tighter than `+` and `-`, and equal ranks associate left |
| ExpressionLaws.ConvertStatement | ThreeAdressCode.py:42-69 | converting `name = tree`, the tree printed as above, gives the name, the tree's postfix order, then `=` |
| ExpressionLaws.EmitAllAppend | ThreeAdressCode.py:19-36 | the emitter loop over two sequences is the loop over the second, started where the first stopped; an error in the first ends it |
| ExpressionLaws.EmitPostfix | ThreeAdressCode.py:19-36 | the emitter on a tree's postfix order appends the reference compiler's instructions, numbers temporaries after the counter, and leaves the result on the stack |
| ExpressionLaws.GenerateTacOnTree | ThreeAdressCode.py:14-40 | `generate_tac` on any printing of a tree (the fewest parentheses, or extra ones at any depth) returns the reference compiler's result and appends exactly its instructions |
| ExpressionLaws.GenerateTacOnStatement | ThreeAdressCode.py:14-40 | `generate_tac` on `name = tree`, the tree printed as above, appends the tree's code and one copy into `name`, and returns `name` |
| SemanticsLaws.ExecAppend | ThreeAdressCode.py:19-36 | running two instruction lists in turn is running their concatenation |
| SemanticsLaws.CompileWrites | ThreeAdressCode.py:29-36 | the code of a tree writes only temporaries numbered above the counter it started from and up to the counter it ends at |
| SemanticsLaws.ExecCompiled | ThreeAdressCode.py:19-36 | running the code of a tree leaves the tree's value in its result name, for any operator meaning, when no variable is named like a temporary the code writes |
| SemanticsLaws.GenerateTacMeaning | ThreeAdressCode.py:14-40 | `generate_tac` on any printing of a tree succeeds, and running the instructions it appends leaves the tree's value in the name it returns |
| ListingLaws.TokenizeSingleLine | ThreeAdressCode.py:48 | no token of a line contains a line break |
| ListingLaws.ConvertSingleLine | ThreeAdressCode.py:42-69 | the postfix order holds only tokens of the line, so none contains a line break |
| ListingLaws.EmitAllOneLine | ThreeAdressCode.py:19-36 | the emitter never writes an instruction that spans two lines |
| ListingLaws.GenerateTacOneLine | ThreeAdressCode.py:14-40 | after any call, successful or not, every instruction renders on one line |
| ListingLaws.ReplayListing | ThreeAdressCode.py:71-73 | for every object built by a series of calls, the listing splits back into its instructions, one per line |
| Traces.LeftAssociative | ThreeAdressCode.py:60-62 | `a - b - c` converts to `a b - c -`: an equal rank on top is popped first |
| Traces.TimesBindsTighter | ThreeAdressCode.py:60-62 | `a + b * c` converts to `a b c * +`: a lower rank on top stays under `*` |
| Traces.PoppedByNext | ThreeAdressCode.py:60-62 | after any prefix that leaves one entry stacked, an operator that entry outranks pops it, even `(`, before it is pushed, and a following operand goes to the output |
| Traces.LookupOnStack | ThreeAdressCode.py:60 | for any operands, an operator arriving on a stacked symbol outside the table raises the unknown-operator error |
| Traces.TwoThenBinary | ThreeAdressCode.py:29-36 | for any names and object, two operands and a non-`=` operator give `temp = op1 op op2` with the first operand on the left, and leave only the new temporary |
| Traces.OpenThenAssign | ThreeAdressCode.py:22-36 | for any names and object, `x y ( z =` writes `temp = x ( y` and then `temp = z`, leaving `temp` |
| Traces.OneThenOperator | ThreeAdressCode.py:22-31 | for any name and object, an operator meeting a single operand raises and leaves the object untouched |
| Traces.AssignPopsOpenConversion | ThreeAdressCode.py:59-62 | `x ( y = z` converts to `x y ( z =`: `=` pops the `(` |
| Traces.AssignPopsOpenEmission | ThreeAdressCode.py:29-36 | the emitter treats that `(` as a binary operator: `t1 = x ( y`, then `t1 = z` |
| Traces.AssignPopsOpen | ThreeAdressCode.py:14-69 | `generate_tac` accepts `x ( y = z`, emits those two instructions and returns `t1` |
| Traces.UnknownAloneConversion | ThreeAdressCode.py:59-62 | `a ? b` converts without a lookup of `?`, to `a b ?` |
| Traces.UnknownAlone | ThreeAdressCode.py:14-69 | `generate_tac` accepts `a ? b`, emits `t1 = a ? b` and returns `t1` |
| Traces.UnknownOnStack | ThreeAdressCode.py:60 | `a ? b + c` fails with the unknown-operator error when `+` meets `?` |
| Traces.TrailingOperandEmission | ThreeAdressCode.py:19-36 | the emitter on `a b c +` writes `t1 = b + c` and leaves two entries |
| Traces.TrailingOperand | ThreeAdressCode.py:38-39 | `generate_tac` on `a + b c` raises, yet `t1 = b + c` and the counter stay in the object |
| Traces.LeadingOperator | ThreeAdressCode.py:30-31 | `+ a` raises the insufficient-operands error and leaves the object untouched |
| Traces.GroupedLines | ThreeAdressCode.py:48-62 | `( x ) + x`, `( ( x + y ) ) * z` and `x * ( ( y ) )` are printed trees, and the second converts to `x y + z *` |
| Traces.TempCollisionCode | ThreeAdressCode.py:29-36 | `generate_tac` on `t1 + a * b` writes `t1 = a * b`, then `t2 = t1 + t1` |
| Traces.TempCollision | ThreeAdressCode.py:34-36 | with `t1`, `a`, `b` worth 10, 2 and 3 that tree is worth 16, but its code computes 12 |

## Left out

- The window class `TACApp` (lines 77-113) and the start-up block (lines
  117-120) are not modelled. They are presentation and event wiring, and
  include the blank-input dialog.
- Python's Unicode rules for `str.split()` and `str.isalnum()` are not
  modelled. Whitespace and letters/digits are their ASCII members.
- The error message texts are not modelled, and neither is the exception
  class (`ValueError` versus the `KeyError` of a failed table lookup). Each
  kind of failure is one `CompileError` constructor: the raises at lines 24
  and 31 share `InsufficientOperands`, and those at lines 57 and 66 share
  `MismatchedParentheses`.
- What the operators mean is not modelled. `Eval` and `Exec` take it as a
  parameter, so no division or overflow semantics are assumed.
- Object identity and in-place mutation are not modelled. The session is
  passed in and returned.
- SemanticsLaws.GenerateTacMeaning: requires that no variable of the tree
  is named like a temporary the call will write. The code makes no such
  check, and `Traces.TempCollision` shows what goes wrong without it.
- PostfixLaws.ArithmeticConversion: states the output's contents, not its
  order. The order is stated by `ExpressionLaws.ConvertPrint` for lines
  printed from a tree. For balanced lines that print no tree, such as
  `a +` or `a b`, only the contents are stated.
- ExpressionLaws.GenerateTacOnStatement: covers one assignment, `name =
  tree`, per line. A chain such as `x = y = e`, or `=` inside an
  expression, is covered only by the general `TacLaws.GenerateTacAppends`
  and `TacLaws.GenerateTacResult`.
- ExpressionLaws.ConvertStatement: likewise covers only `name = tree`.
- ExpressionLaws.GenerateTacOnTree: covers inputs printed from a tree with
  single spaces. Other spacing of the same tokens gives the same token
  sequence (`Text.SplitJoinSpaces`, `Tokens.TokenizeSpelled`), but this is
  not stated as one lemma.
