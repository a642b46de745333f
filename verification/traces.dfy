/** Worked examples of the compiler on particular lines, chosen to pin down
    the behaviour the general laws leave implicit: how `=` treats an open
    parenthesis, when an unknown symbol is an error, what an error leaves
    in the object, and why a variable named like a temporary breaks the
    meaning of the code.  Each line is given as its tokens; `Line` is the
    text, the tokens separated by single spaces. */
module Traces {
  import opened Errors
  import opened Lists
  import opened Text
  import opened Tokens
  import opened Precedence
  import opened Postfix
  import opened PostfixLaws
  import opened Tac
  import opened Expressions
  import opened ExpressionLaws

  // ---------------------------------------------------------------------
  // Stepping through the two loops one token at a time.  Each helper takes
  // the states before and after explicitly, so that every step of a trace
  // is checked on its own.

  lemma RunStep(tokens: seq<Token>, t: Token, whole: seq<Token>, st: Conv, mid: Conv, next: Conv)
    requires whole == tokens + [t]
    requires Run(tokens, st) == Ok(mid) && Step(mid, t) == Ok(next)
    ensures Run(whole, st) == Ok(next)
  {
    assert Pop(whole) == tokens && Top(whole) == t;
  }

  lemma RunStepFails(tokens: seq<Token>, t: Token, whole: seq<Token>, st: Conv, mid: Conv, err: CompileError)
    requires whole == tokens + [t]
    requires Run(tokens, st) == Ok(mid) && Step(mid, t) == Err(err)
    ensures Run(whole, st) == Err(err)
  {
    assert Pop(whole) == tokens && Top(whole) == t;
  }

  lemma RunAfterError(tokens: seq<Token>, t: Token, whole: seq<Token>, st: Conv, err: CompileError)
    requires whole == tokens + [t]
    requires Run(tokens, st) == Err(err)
    ensures Run(whole, st) == Err(err)
  {
    assert Pop(whole) == tokens;
  }

  lemma OperandStep(st: Conv, t: Token, next: Conv)
    requires t.Operand? && next == Conv(st.output + [t], st.ops)
    ensures Step(st, t) == Ok(next)
  {
  }

  lemma OpenStep(st: Conv, next: Conv)
    requires next == Conv(st.output, st.ops + [Open])
    ensures Step(st, Open) == Ok(next)
  {
  }

  /** An operator arriving on an empty stack ... */
  lemma PushOnEmpty(st: Conv, t: Token, next: Conv)
    requires t.Operator? && st.ops == [] && next == Conv(st.output, [t])
    ensures Step(st, t) == Ok(next)
  {
    assert [] + [t] == [t];
  }

  /** ... on a single entry it does not outrank ... */
  lemma PopOne(st: Conv, t: Token, next: Conv)
    requires t.Operator? && |st.ops| == 1 && Outranks(st.ops[0], t)
    requires next == Conv(st.output + st.ops, [t])
    ensures Step(st, t) == Ok(next)
  {
    var top := st.ops[0];
    assert Pop(st.ops) == [] && Top(st.ops) == top && st.ops == [top];
    assert PopOutranking(st, t) == PopOutranking(Conv(st.output + [top], []), t);
    PushOnEmpty(Conv(st.output + [top], []), t, next);
  }

  /** ... and on a single entry without a rank. */
  lemma LookupFails(st: Conv, t: Token)
    requires t.Operator? && |st.ops| == 1 && Rank(st.ops[0]).None?
    ensures Step(st, t) == Err(UnknownOperator)
  {
    assert Top(st.ops) == st.ops[0];
  }

  lemma DrainOne(st: Conv, postfix: seq<Token>)
    requires |st.ops| == 1 && st.ops[0] != Open && postfix == st.output + st.ops
    ensures Drain(st) == Ok(postfix)
  {
    assert st.ops == [st.ops[0]] && Pop(st.ops) == [] && Top(st.ops) == st.ops[0];
    assert Conv(st.output + [Top(st.ops)], Pop(st.ops)) == Conv(postfix, []);
    assert Drain(Conv(postfix, [])) == Ok(postfix);
  }

  /** ... and two entries, the top first. */
  lemma DrainTwo(st: Conv, postfix: seq<Token>)
    requires |st.ops| == 2 && st.ops[0] != Open && st.ops[1] != Open
    requires postfix == st.output + [st.ops[1], st.ops[0]]
    ensures Drain(st) == Ok(postfix)
  {
    var rest := Conv(st.output + [st.ops[1]], [st.ops[0]]);
    assert Pop(st.ops) == [st.ops[0]] && Top(st.ops) == st.ops[1];
    DrainOne(rest, postfix);
  }

  /** An operator arriving on a single entry it outranks strictly. */
  lemma PushAbove(st: Conv, t: Token, next: Conv)
    requires t.Operator? && |st.ops| == 1
    requires Rank(st.ops[0]).Some? && Rank(t).Some? && Rank(st.ops[0]).value < Rank(t).value
    requires next == Conv(st.output, st.ops + [t])
    ensures Step(st, t) == Ok(next)
  {
    assert Top(st.ops) == st.ops[0];
  }

  /** `a op b` from the start: both operands out, the operator stacked. */
  lemma OperandOperatorOperand(a: Token, op: Token, b: Token)
    requires a.Operand? && op.Operator? && b.Operand?
    ensures Run([a, op, b], Start) == Ok(Conv([a, b], [op]))
  {
    var s1 := Conv([a], []);
    var s2 := Conv([a], [op]);
    var s3 := Conv([a, b], [op]);
    OperandStep(Start, a, s1);
    RunStep([], a, [a], Start, Start, s1);
    PushOnEmpty(s1, op, s2);
    RunStep([a], op, [a, op], Start, s1, s2);
    OperandStep(s2, b, s3);
    RunStep([a, op], b, [a, op, b], Start, s2, s3);
  }

  lemma EmitStepAll(tokens: seq<Token>, t: Token, whole: seq<Token>, em: Emit, mid: Emit, next: Emit)
    requires whole == tokens + [t]
    requires EmitAll(tokens, em) == Halt(mid, None) && EmitStep(mid, t) == Ok(next)
    ensures EmitAll(whole, em) == Halt(next, None)
  {
    assert Pop(whole) == tokens && Top(whole) == t;
  }

  lemma EmitStepFails(tokens: seq<Token>, t: Token, whole: seq<Token>, em: Emit, mid: Emit, err: CompileError)
    requires whole == tokens + [t]
    requires EmitAll(tokens, em) == Halt(mid, None) && EmitStep(mid, t) == Err(err)
    ensures EmitAll(whole, em) == Halt(mid, Some(err))
  {
    assert Pop(whole) == tokens && Top(whole) == t;
  }

  lemma EmitOperand(em: Emit, name: string, next: Emit)
    requires next == Emit(em.session, em.stack + [name])
    ensures EmitStep(em, Operand(name)) == Ok(next)
  {
  }

  /** A non-operand other than `=` on two stacked names: `instr` names
      the next temporary. */
  lemma EmitOperator(em: Emit, below: seq<string>, left: string, right: string, t: Token, instr: Instr, next: Emit)
    requires em.stack == below + [left, right]
    requires !t.Operand? && t != Operator(Assign)
    requires instr == Binary(TempName(em.session.tempCount + 1), left, Spell(t), right)
    requires next == Emit(Session(em.session.tempCount + 1, em.session.instructions + [instr]), below + [instr.target])
    ensures EmitStep(em, t) == Ok(next)
  {
    var both := em.stack;
    assert both[|both| - 1] == right && both[|both| - 2] == left && both[..|both| - 2] == below;
  }

  /** `=` on two stacked names. */
  lemma EmitAssign(em: Emit, below: seq<string>, left: string, right: string, next: Emit)
    requires em.stack == below + [left, right]
    requires next == Emit(Session(em.session.tempCount, em.session.instructions + [Copy(left, right)]), below + [left])
    ensures EmitStep(em, Operator(Assign)) == Ok(next)
  {
    var both := em.stack;
    assert both[|both| - 1] == right && both[|both| - 2] == left && both[..|both| - 2] == below;
  }

  /** `generate_tac` reads the text of a token sequence back as that
      token sequence. */
  lemma ReadBack(tokens: seq<Token>)
    requires AllPrintable(tokens)
    ensures InfixToPostfix(Line(tokens)) == ConvertTokens(tokens)
  {
    TokenizeSpelled(tokens);
  }

  lemma FirstTemp()
    ensures TempName(1) == "t1"
  {
    assert NatToString(1) == ['1'];
  }

  // ---------------------------------------------------------------------
  // The converter on the shapes of the lines below, for any operands

  /** `x ( y`: both operands out, `(` stacked. */
  lemma OpenBetween(x: Token, y: Token)
    requires x.Operand? && y.Operand?
    ensures Run([x, Open, y], Start) == Ok(Conv([x, y], [Open]))
  {
    var s1 := Conv([x], []);
    var s2 := Conv([x], [Open]);
    var s3 := Conv([x, y], [Open]);
    OperandStep(Start, x, s1);
    RunStep([], x, [x], Start, Start, s1);
    OpenStep(s1, s2);
    RunStep([x], Open, [x, Open], Start, s1, s2);
    OperandStep(s2, y, s3);
    RunStep([x, Open], y, [x, Open, y], Start, s2, s3);
  }

  /** After any prefix that leaves one entry stacked, an operator `t`
      that the entry outranks pops it, and an operand follows. */
  lemma PoppedByNext(tokens: seq<Token>, st: Conv, t: Token, c: Token, whole: seq<Token>, last: Conv)
    requires Run(tokens, Start) == Ok(st) && |st.ops| == 1 && Outranks(st.ops[0], t)
    requires t.Operator? && c.Operand?
    requires whole == tokens + [t, c] && last == Conv(st.output + st.ops + [c], [t])
    ensures Run(whole, Start) == Ok(last)
  {
    var mid := Conv(st.output + st.ops, [t]);
    PopsOnly(tokens, t, tokens + [t], st, mid);
    assert whole == (tokens + [t]) + [c];
    OperandAfter(tokens + [t], c, whole, mid, last);
  }

  /** An operator popping the single entry it meets, after `tokens`. */
  lemma PopsOnly(tokens: seq<Token>, t: Token, whole: seq<Token>, st: Conv, next: Conv)
    requires whole == tokens + [t] && Run(tokens, Start) == Ok(st)
    requires t.Operator? && |st.ops| == 1 && Outranks(st.ops[0], t)
    requires next == Conv(st.output + st.ops, [t])
    ensures Run(whole, Start) == Ok(next)
  {
    PopOne(st, t, next);
    RunStep(tokens, t, whole, Start, st, next);
  }

  /** An operand after `tokens`. */
  lemma OperandAfter(tokens: seq<Token>, c: Token, whole: seq<Token>, st: Conv, next: Conv)
    requires whole == tokens + [c] && Run(tokens, Start) == Ok(st)
    requires c.Operand? && next == Conv(st.output + [c], st.ops)
    ensures Run(whole, Start) == Ok(next)
  {
    OperandStep(st, c, next);
    RunStep(tokens, c, whole, Start, st, next);
  }

  /** `a p b t c` where `t` ranks strictly above `p`: `t` goes on top. */
  lemma StackedAbove(a: Token, p: Token, b: Token, t: Token, c: Token)
    requires a.Operand? && b.Operand? && c.Operand? && p.Operator? && t.Operator?
    requires Rank(p).Some? && Rank(t).Some? && Rank(p).value < Rank(t).value
    ensures Run([a, p, b, t, c], Start) == Ok(Conv([a, b, c], [p, t]))
  {
    var s3 := Conv([a, b], [p]);
    var s4 := Conv([a, b], [p, t]);
    var s5 := Conv([a, b, c], [p, t]);
    OperandOperatorOperand(a, p, b);
    PushAbove(s3, t, s4);
    RunStep([a, p, b], t, [a, p, b, t], Start, s3, s4);
    OperandStep(s4, c, s5);
    RunStep([a, p, b, t], c, [a, p, b, t, c], Start, s4, s5);
  }

  /** `a q b t c` where `q` is outside the table: `t` fails to look it up. */
  lemma LookupOnStack(a: Token, q: Token, b: Token, t: Token, c: Token)
    requires a.Operand? && b.Operand? && q.Operator? && t.Operator? && Rank(q).None?
    ensures Run([a, q, b, t, c], Start) == Err(UnknownOperator)
  {
    var s3 := Conv([a, b], [q]);
    OperandOperatorOperand(a, q, b);
    LookupFails(s3, t);
    RunStepFails([a, q, b], t, [a, q, b, t], Start, s3, UnknownOperator);
    RunAfterError([a, q, b, t], c, [a, q, b, t, c], Start, UnknownOperator);
  }

  /** `a op b c`: the last operand joins the output. */
  lemma ExtraOperand(a: Token, op: Token, b: Token, c: Token)
    requires a.Operand? && op.Operator? && b.Operand? && c.Operand?
    ensures Run([a, op, b, c], Start) == Ok(Conv([a, b, c], [op]))
  {
    var s3 := Conv([a, b], [op]);
    var s4 := Conv([a, b, c], [op]);
    OperandOperatorOperand(a, op, b);
    OperandStep(s3, c, s4);
    RunStep([a, op, b], c, [a, op, b, c], Start, s3, s4);
  }

  /** `op a`: the operand out, the operator stacked. */
  lemma OperatorFirst(op: Token, a: Token)
    requires op.Operator? && a.Operand?
    ensures Run([op, a], Start) == Ok(Conv([a], [op]))
  {
    var s1 := Conv([], [op]);
    var s2 := Conv([a], [op]);
    PushOnEmpty(Start, op, s1);
    RunStep([], op, [op], Start, Start, s1);
    OperandStep(s1, a, s2);
    RunStep([op], a, [op, a], Start, s1, s2);
  }

  // ---------------------------------------------------------------------
  // The emitter on the same shapes, for any names and any session

  /** `x y t` with `t` a binary operator: one instruction into the next
      temporary, which is left alone on the stack. */
  lemma TwoThenBinary(x: string, y: string, t: Token, s: Session)
    requires !t.Operand? && t != Operator(Assign)
    ensures var temp := TempName(s.tempCount + 1);
            EmitAll([Operand(x), Operand(y), t], Emit(s, [])) ==
              Halt(Emit(Session(s.tempCount + 1, s.instructions + [Binary(temp, x, Spell(t), y)]), [temp]), None)
  {
    var temp := TempName(s.tempCount + 1);
    var instr := Binary(temp, x, Spell(t), y);
    var e0 := Emit(s, []);
    var e1 := Emit(s, [x]);
    var e2 := Emit(s, [x, y]);
    var e3 := Emit(Session(s.tempCount + 1, s.instructions + [instr]), [temp]);
    EmitOperand(e0, x, e1);
    EmitStepAll([], Operand(x), [Operand(x)], e0, e0, e1);
    EmitOperand(e1, y, e2);
    EmitStepAll([Operand(x)], Operand(y), [Operand(x), Operand(y)], e0, e1, e2);
    EmitOperator(e2, [], x, y, t, instr, e3);
    EmitStepAll([Operand(x), Operand(y)], t, [Operand(x), Operand(y), t], e0, e2, e3);
  }

  /** `x y ( z =`: `(` names a temporary, which `=` then copies `z` into. */
  lemma OpenThenAssign(x: string, y: string, z: string, s: Session)
    ensures var temp := TempName(s.tempCount + 1);
            EmitAll([Operand(x), Operand(y), Open, Operand(z), Operator(Assign)], Emit(s, [])) ==
              Halt(Emit(Session(s.tempCount + 1, s.instructions + [Binary(temp, x, "(", y), Copy(temp, z)]), [temp]), None)
  {
    var temp := TempName(s.tempCount + 1);
    var first := Binary(temp, x, "(", y);
    var e0 := Emit(s, []);
    var e3 := Emit(Session(s.tempCount + 1, s.instructions + [first]), [temp]);
    var e4 := Emit(e3.session, [temp, z]);
    var e5 := Emit(Session(s.tempCount + 1, s.instructions + [first, Copy(temp, z)]), [temp]);
    var three := [Operand(x), Operand(y), Open];
    var four := [Operand(x), Operand(y), Open, Operand(z)];
    var five := [Operand(x), Operand(y), Open, Operand(z), Operator(Assign)];
    assert Spell(Open) == "(";
    TwoThenBinary(x, y, Open, s);
    EmitOperand(e3, z, e4);
    EmitStepAll(three, Operand(z), four, e0, e3, e4);
    assert e3.session.instructions + [Copy(temp, z)] == s.instructions + [first, Copy(temp, z)];
    EmitAssign(e4, [], temp, z, e5);
    EmitStepAll(four, Operator(Assign), five, e0, e4, e5);
  }

  lemma ThreeOperands(x: string, y: string, z: string, s: Session)
    ensures EmitAll([Operand(x), Operand(y), Operand(z)], Emit(s, [])) == Halt(Emit(s, [x, y, z]), None)
  {
    var e0 := Emit(s, []);
    var e1 := Emit(s, [x]);
    var e2 := Emit(s, [x, y]);
    var e3 := Emit(s, [x, y, z]);
    EmitOperand(e0, x, e1);
    EmitStepAll([], Operand(x), [Operand(x)], e0, e0, e1);
    EmitOperand(e1, y, e2);
    EmitStepAll([Operand(x)], Operand(y), [Operand(x), Operand(y)], e0, e1, e2);
    EmitOperand(e2, z, e3);
    EmitStepAll([Operand(x), Operand(y)], Operand(z), [Operand(x), Operand(y), Operand(z)], e0, e2, e3);
  }

  /** `x y z t`: `t` combines `y` and `z`; two entries remain. */
  lemma ThreeThenBinary(x: string, y: string, z: string, t: Token, s: Session)
    requires !t.Operand? && t != Operator(Assign)
    ensures var temp := TempName(s.tempCount + 1);
            EmitAll([Operand(x), Operand(y), Operand(z), t], Emit(s, [])) ==
              Halt(Emit(Session(s.tempCount + 1, s.instructions + [Binary(temp, y, Spell(t), z)]), [x, temp]), None)
  {
    var temp := TempName(s.tempCount + 1);
    var instr := Binary(temp, y, Spell(t), z);
    var three := [Operand(x), Operand(y), Operand(z)];
    var e3 := Emit(s, [x, y, z]);
    var e4 := Emit(Session(s.tempCount + 1, s.instructions + [instr]), [x, temp]);
    ThreeOperands(x, y, z, s);
    EmitOperator(e3, [x], y, z, t, instr, e4);
    EmitStepAll(three, t, [Operand(x), Operand(y), Operand(z), t], Emit(s, []), e3, e4);
  }

  /** `x t` with `t` not an operand: `t` finds one entry and raises. */
  lemma OneThenOperator(x: string, t: Token, s: Session)
    requires !t.Operand?
    ensures EmitAll([Operand(x), t], Emit(s, [])) == Halt(Emit(s, [x]), Some(InsufficientOperands))
  {
    var e0 := Emit(s, []);
    var e1 := Emit(s, [x]);
    EmitOperand(e0, x, e1);
    EmitStepAll([], Operand(x), [Operand(x)], e0, e0, e1);
    EmitStepFails([Operand(x)], t, [Operand(x), t], e0, e1, InsufficientOperands);
  }

  // ---------------------------------------------------------------------
  // Particular lines

  const A := Operand("a")
  const B := Operand("b")
  const C := Operand("c")
  const X := Operand("x")
  const Y := Operand("y")
  const Z := Operand("z")
  const Query := Operator(Unknown("?"))
  const Sum := Operator(Plus)
  const Dash := Operator(Minus)
  const Star := Operator(Times)
  const Gets := Operator(Assign)

  lemma OperandsPrintable()
    ensures Printable(A) && Printable(B) && Printable(C)
    ensures Printable(X) && Printable(Y) && Printable(Z)
  {
    OperandPrintable("a");
    OperandPrintable("b");
    OperandPrintable("c");
    OperandPrintable("x");
    OperandPrintable("y");
    OperandPrintable("z");
  }

  /** `a - b - c` converts to `a b - c -`: the stacked `-` has equal rank,
      so it is popped before the second `-` is pushed, and the two
      subtractions associate to the left. */
  lemma LeftAssociative()
    ensures ConvertTokens([A, Dash, B, Dash, C]) == Ok([A, B, Dash, C, Dash])
  {
    assert Rank(Dash) == Some(1);
    OperandOperatorOperand(A, Dash, B);
    PoppedByNext([A, Dash, B], Conv([A, B], [Dash]), Dash, C, [A, Dash, B, Dash, C], Conv([A, B, Dash, C], [Dash]));
    DrainOne(Conv([A, B, Dash, C], [Dash]), [A, B, Dash, C, Dash]);
  }

  /** `a + b * c` converts to `a b c * +`: the stacked `+` ranks below `*`,
      so `*` goes on top of it and leaves first. */
  lemma TimesBindsTighter()
    ensures ConvertTokens([A, Sum, B, Star, C]) == Ok([A, B, C, Star, Sum])
  {
    assert Rank(Sum) == Some(1) && Rank(Star) == Some(2);
    StackedAbove(A, Sum, B, Star, C);
    DrainTwo(Conv([A, B, C], [Sum, Star]), [A, B, C, Star, Sum]);
  }

  /** `x ( y = z` converts to `x y ( z =`: `=` ranks below `(`, and the
      pop loop does not stop at `(`. */
  lemma AssignPopsOpenConversion()
    ensures ConvertTokens([X, Open, Y, Gets, Z]) == Ok([X, Y, Open, Z, Gets])
  {
    assert Rank(Open) == Some(0) && Rank(Gets) == Some(-1);
    OpenBetween(X, Y);
    PoppedByNext([X, Open, Y], Conv([X, Y], [Open]), Gets, Z, [X, Open, Y, Gets, Z], Conv([X, Y, Open, Z], [Gets]));
    DrainOne(Conv([X, Y, Open, Z], [Gets]), [X, Y, Open, Z, Gets]);
  }

  /** The emitter then takes that `(` for a binary operator. */
  lemma AssignPopsOpenEmission()
    ensures EmitAll([X, Y, Open, Z, Gets], Emit(Fresh, [])) ==
              Halt(Emit(Session(1, [Binary("t1", "x", "(", "y"), Copy("t1", "z")]), ["t1"]), None)
  {
    FirstTemp();
    OpenThenAssign("x", "y", "z", Fresh);
  }

  /** `x ( y = z` is accepted: `(` is popped by `=` like an operator and
      then emitted as one, naming a temporary. */
  lemma AssignPopsOpen()
    ensures GenerateTac(Fresh, Line([X, Open, Y, Gets, Z])) ==
              Outcome(Session(1, [Binary("t1", "x", "(", "y"), Copy("t1", "z")]), Ok("t1"))
  {
    var tokens := [X, Open, Y, Gets, Z];
    OperandsPrintable();
    PunctuationPrintable(Open);
    PunctuationPrintable(Gets);
    assert AllPrintable(tokens);
    ReadBack(tokens);
    AssignPopsOpenConversion();
    AssignPopsOpenEmission();
  }

  lemma UnknownAloneConversion()
    ensures ConvertTokens([A, Query, B]) == Ok([A, B, Query])
  {
    OperandOperatorOperand(A, Query, B);
    DrainOne(Conv([A, B], [Query]), [A, B, Query]);
  }

  /** `?` is a word no other token spells. */
  lemma QueryPrintable()
    ensures Printable(Query)
  {
    var text := "?";
    assert text[0] == '?' && !IsAlnum(text[0]) && !IsOperand(text);
    assert forall w :: w in ["(", ")", "+", "-", "*", "/", "="] ==> w[0] != '?';
    assert text !in ["(", ")", "+", "-", "*", "/", "="];
    assert Spell(Query) == text && !IsWhitespace(text[0]);
  }

  /** `a ? b`: the stack is empty when `?` arrives, so it is never looked
      up; the emitter treats it as a binary operator and writes
      `t1 = a ? b`. */
  lemma UnknownAlone()
    ensures GenerateTac(Fresh, Line([A, Query, B])) ==
              Outcome(Session(1, [Binary("t1", "a", "?", "b")]), Ok("t1"))
  {
    var tokens := [A, Query, B];
    OperandsPrintable();
    QueryPrintable();
    assert AllPrintable(tokens);
    ReadBack(tokens);
    UnknownAloneConversion();
    UnknownAloneEmission();
  }

  lemma UnknownAloneEmission()
    ensures EmitAll([A, B, Query], Emit(Fresh, [])) ==
              Halt(Emit(Session(1, [Binary("t1", "a", "?", "b")]), ["t1"]), None)
  {
    FirstTemp();
    assert Spell(Query) == "?";
    TwoThenBinary("a", "b", Query, Fresh);
  }

  /** `a ? b + c`: `+` finds `?` on the stack and its lookup fails. */
  lemma UnknownOnStack()
    ensures ConvertTokens([A, Query, B, Sum, C]) == Err(UnknownOperator)
  {
    LookupOnStack(A, Query, B, Sum, C);
  }

  lemma TrailingOperandConversion()
    ensures ConvertTokens([A, Sum, B, C]) == Ok([A, B, C, Sum])
  {
    ExtraOperand(A, Sum, B, C);
    DrainOne(Conv([A, B, C], [Sum]), [A, B, C, Sum]);
  }

  lemma TrailingOperandEmission()
    ensures EmitAll([A, B, C, Sum], Emit(Fresh, [])) ==
              Halt(Emit(Session(1, [Binary("t1", "b", "+", "c")]), ["a", "t1"]), None)
  {
    FirstTemp();
    assert Spell(Sum) == "+";
    ThreeThenBinary("a", "b", "c", Sum, Fresh);
  }

  /** `a + b c`: the emitter names `t1` for `b + c` and then finds two
      entries left; the call raises, but `t1 = b + c` stays recorded and
      the counter stays at 1. */
  lemma TrailingOperand()
    ensures GenerateTac(Fresh, Line([A, Sum, B, C])) ==
              Outcome(Session(1, [Binary("t1", "b", "+", "c")]), Err(UnresolvedExpression))
  {
    var tokens := [A, Sum, B, C];
    OperandsPrintable();
    PunctuationPrintable(Sum);
    assert AllPrintable(tokens);
    ReadBack(tokens);
    TrailingOperandConversion();
    TrailingOperandEmission();
  }

  /** `+ a`: the operator has one operand; the object is untouched. */
  lemma LeadingOperator()
    ensures GenerateTac(Fresh, Line([Sum, A])) == Outcome(Fresh, Err(InsufficientOperands))
  {
    var tokens := [Sum, A];
    OperandsPrintable();
    PunctuationPrintable(Sum);
    assert AllPrintable(tokens);
    ReadBack(tokens);
    OperatorFirst(Sum, A);
    DrainOne(Conv([A], [Sum]), [A, Sum]);
    OneThenOperator("a", Sum, Fresh);
  }

  // ---------------------------------------------------------------------
  // Lines as a user types them

  /** With no extra parentheses, `(x - y) - z` and `x + (y * z)` print
      bare, while `x - (y - z)` and `(x + y) * z` keep theirs. */
  lemma MinimalLines(x: string, y: string, z: string)
    ensures Print(Bin(Sub, Bin(Sub, Var(x), Var(y)), Var(z))) ==
              [Operand(x), Dash, Operand(y), Dash, Operand(z)]
    ensures Print(Bin(Sub, Var(x), Bin(Sub, Var(y), Var(z)))) ==
              [Operand(x), Dash, Open, Operand(y), Dash, Operand(z), Close]
    ensures Print(Bin(Add, Var(x), Bin(Mul, Var(y), Var(z)))) ==
              [Operand(x), Sum, Operand(y), Star, Operand(z)]
    ensures Print(Bin(Mul, Bin(Add, Var(x), Var(y)), Var(z))) ==
              [Open, Operand(x), Sum, Operand(y), Close, Star, Operand(z)]
  {
    var vx, vy, vz := Var(x), Var(y), Var(z);
    assert Side(vx, false) == [Operand(x)];
    assert Side(vy, false) == [Operand(y)];
    assert Side(vz, false) == [Operand(z)];
    var diff, prod, sum := Bin(Sub, vy, vz), Bin(Mul, vy, vz), Bin(Add, vx, vy);
    assert Print(Bin(Sub, vx, vy)) == [Operand(x), Dash, Operand(y)];
    assert Print(diff) == [Operand(y), Dash, Operand(z)];
    assert Print(prod) == [Operand(y), Star, Operand(z)];
    assert Print(sum) == [Operand(x), Sum, Operand(y)];
    assert Side(Bin(Sub, vx, vy), false) == [Operand(x), Dash, Operand(y)];
    assert Side(diff, true) == [Open, Operand(y), Dash, Operand(z), Close];
    assert Side(prod, false) == [Operand(y), Star, Operand(z)];
    assert Side(sum, true) == [Open, Operand(x), Sum, Operand(y), Close];
  }

  /** Parentheses a user adds on top of the needed ones are `Group` nodes,
      nested as deep as they are written: `( x ) + x`, `( ( x + y ) ) * z`
      and `x * ( ( y ) )` are printed trees, and the second still converts
      to the postfix order of `(x + y) * z`. */
  lemma GroupedLines(x: string, y: string, z: string)
    ensures Print(Bin(Add, Group(Var(x)), Var(x))) == [Open, Operand(x), Close, Sum, Operand(x)]
    ensures Print(Bin(Mul, Group(Group(Bin(Add, Var(x), Var(y)))), Var(z))) ==
              [Open, Open, Operand(x), Sum, Operand(y), Close, Close, Star, Operand(z)]
    ensures Print(Bin(Mul, Var(x), Group(Group(Var(y))))) ==
              [Operand(x), Star, Open, Open, Operand(y), Close, Close]
    ensures ConvertTokens([Open, Open, Operand(x), Sum, Operand(y), Close, Close, Star, Operand(z)]) ==
              Ok([Operand(x), Operand(y), Sum, Operand(z), Star])
  {
    var vx, vy, vz := Var(x), Var(y), Var(z);
    assert Side(vx, false) == [Operand(x)];
    assert Side(vz, false) == [Operand(z)];
    assert Side(Group(vx), false) == [Open, Operand(x), Close];
    assert Print(Group(vy)) == [Open, Operand(y), Close];
    assert Side(Group(Group(vy)), false) == [Open, Open, Operand(y), Close, Close];
    TwiceGrouped(x, y, z);
    ConvertPrint(Bin(Mul, Group(Group(Bin(Add, vx, vy))), vz));
  }

  lemma TwiceGrouped(x: string, y: string, z: string)
    ensures var twice := Group(Group(Bin(Add, Var(x), Var(y))));
            && Side(twice, false) == [Open, Open, Operand(x), Sum, Operand(y), Close, Close]
            && PostfixOf(Bin(Mul, twice, Var(z))) == [Operand(x), Operand(y), Sum, Operand(z), Star]
  {
    var sum := Bin(Add, Var(x), Var(y));
    assert Side(Var(x), false) == [Operand(x)];
    assert Side(Var(y), false) == [Operand(y)];
    assert Print(sum) == [Operand(x), Sum, Operand(y)];
    assert Print(Group(sum)) == [Open, Operand(x), Sum, Operand(y), Close];
    assert PostfixOf(sum) == [Operand(x), Operand(y), Sum];
    assert PostfixOf(Group(Group(sum))) == PostfixOf(sum);
    assert Print(Group(Group(sum))) == Parens(Print(Group(sum)));
  }

  // ---------------------------------------------------------------------
  // A variable named like a temporary

  const Collide := Bin(Add, Var("t1"), Bin(Mul, Var("a"), Var("b")))
  const CollideCode := [Binary("t1", "a", "*", "b"), Binary("t2", "t1", "+", "t1")]

  /** The reference compiler's code for `t1 + a * b` from a fresh
      counter: `t1 = a * b`, then `t2 = t1 + t1`. */
  lemma CollideCompile()
    ensures Compile(Collide, 0) == Code(CollideCode, "t2", 2)
  {
    var first := Binary("t1", "a", "*", "b");
    var second := Binary("t2", "t1", "+", "t1");
    FirstTemp();
    assert NatToString(2) == ['2'];
    assert TempName(2) == "t2";
    assert Spell(OpToken(Mul)) == "*" && Spell(OpToken(Add)) == "+";
    assert Compile(Bin(Mul, Var("a"), Var("b")), 0) == Code([first], "t1", 1);
    assert Compile(Collide, 0) == Code([] + [first] + [second], "t2", 2);
    assert [] + [first] + [second] == CollideCode;
  }

  lemma CollideNames()
    ensures ValidNames(Collide)
  {
    assert IsOperand("t1") && IsOperand("a") && IsOperand("b");
  }

  /** `generate_tac` on `t1 + a * b` writes that code and returns `t2`. */
  lemma TempCollisionCode()
    ensures GenerateTac(Fresh, Line(Print(Collide))) == Outcome(Session(2, CollideCode), Ok("t2"))
  {
    CollideCompile();
    CollideNames();
    GenerateTacOnTree(Fresh, Collide);
    assert Fresh.instructions + CollideCode == CollideCode;
  }

  /** Running that code overwrites `t1` before reading it. */
  lemma CollideExec(env: string -> int, apply: (string, int, int) -> int)
    ensures Exec(CollideCode, env, apply)("t2") == apply("+", apply("*", env("a"), env("b")), apply("*", env("a"), env("b")))
  {
    var first := Binary("t1", "a", "*", "b");
    var second := Binary("t2", "t1", "+", "t1");
    var env1 := ExecOne(first, env, apply);
    var env2 := ExecOne(second, env1, apply);
    assert CollideCode[1..] == [second] && [second][1..] == [];
    assert Exec(CollideCode, env, apply) == Exec([second], env1, apply);
    assert Exec([second], env1, apply) == env2;
  }

  /** With `t1`, `a`, `b` worth 10, 2, 3 the tree `t1 + a * b` is
      worth 16, but the code `generate_tac` writes for it on a fresh object
      computes 12. */
  lemma TempCollision()
    ensures var out := GenerateTac(Fresh, Line(Print(Collide)));
            var env := (x: string) => if x == "t1" then 10 else if x == "a" then 2 else if x == "b" then 3 else 0;
            var apply := (op: string, u: int, v: int) => if op == "+" then u + v else if op == "*" then u * v else 0;
            && Eval(Collide, env, apply) == 16
            && out.result == Ok("t2")
            && Exec(out.session.instructions, env, apply)("t2") == 12
  {
    var env := (x: string) => if x == "t1" then 10 else if x == "a" then 2 else if x == "b" then 3 else 0;
    var apply := (op: string, u: int, v: int) => if op == "+" then u + v else if op == "*" then u * v else 0;
    TempCollisionCode();
    CollideExec(env, apply);
  }
}
