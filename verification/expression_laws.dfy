/** The compiler on well-formed input: for every expression tree, every
    line that prints it (with the parentheses precedence and left grouping
    need, and any extra ones) converts to the tree's postfix order, and
    `generate_tac` on that line emits exactly the reference compiler's
    instructions and returns its result.  The assignment form `x = e` adds one copy. */
module ExpressionLaws {
  import opened Errors
  import opened Lists
  import opened Text
  import opened Tokens
  import opened Precedence
  import opened Postfix
  import opened PostfixLaws
  import opened Tac
  import opened Expressions

  // ---------------------------------------------------------------------
  // Running the converter on concatenated token sequences

  lemma {:induction false} RunAppend(a: seq<Token>, b: seq<Token>, st: Conv)
    ensures Run(a, st).Err? ==> Run(a + b, st) == Run(a, st)
    ensures Run(a, st).Ok? ==> Run(a + b, st) == Run(b, Run(a, st).value)
    decreases |b|
  {
    if b == [] {
      assert a + b == a;
    } else {
      assert Pop(a + b) == a + Pop(b);
      assert Top(a + b) == Top(b);
      RunAppend(a, Pop(b), st);
    }
  }

  /** `RunAppend` once the first part is known to succeed. */
  lemma RunThen(a: seq<Token>, b: seq<Token>, st: Conv, mid: Conv)
    requires Run(a, st) == Ok(mid)
    ensures Run(a + b, st) == Run(b, mid)
  {
    RunAppend(a, b, st);
  }

  lemma RunOne(t: Token, st: Conv)
    ensures Run([t], st) == Step(st, t)
  {
    assert Pop([t]) == [];
  }

  lemma ReversePrepend<T>(x: T, s: seq<T>)
    ensures Reverse([x] + s) == Reverse(s) + [x]
  {
    var r := Reverse([x] + s);
    assert |r| == |Reverse(s) + [x]|;
    forall i | 0 <= i < |r| ensures r[i] == (Reverse(s) + [x])[i] {
      assert ([x] + s)[|s| - i] == if i == |s| then x else s[|s| - 1 - i];
    }
  }

  /** An operator's rank in the table is its binding strength. */
  lemma OpRank(op: Op)
    ensures Rank(OpToken(op)) == Some(Prec(op))
  {
  }

  /** Stack entries ranked at least `p`. */
  predicate RankedFrom(ops: seq<Token>, p: int) {
    forall i :: 0 <= i < |ops| ==> Rank(ops[i]).Some? && Rank(ops[i]).value >= p
  }

  /** The stack top, if any, ranks below `p`, so an operator of rank `p`
      stops there. */
  predicate StopsAt(ops: seq<Token>, p: int) {
    ops == [] || (Rank(Top(ops)).Some? && Rank(Top(ops)).value < p)
  }

  /** The pop loop moves the entries stacked above a stopping point, top
      first, and stops there. */
  lemma {:induction false} PopAbove(output: seq<Token>, ops: seq<Token>, above: seq<Token>, t: Token)
    requires Rank(t).Some? && RankedFrom(above, Rank(t).value) && StopsAt(ops, Rank(t).value)
    ensures PopOutranking(Conv(output, ops + above), t) == Ok(Conv(output + Reverse(above), ops))
    decreases |above|
  {
    if above == [] {
      assert ops + above == ops && output + Reverse(above) == output;
    } else {
      var whole := ops + above;
      var top := Top(above);
      assert Top(whole) == top && Pop(whole) == ops + Pop(above);
      assert Outranks(top, t);
      assert PopOutranking(Conv(output, whole), t) == PopOutranking(Conv(output + [top], ops + Pop(above)), t);
      assert RankedFrom(Pop(above), Rank(t).value) by {
        forall i | 0 <= i < |Pop(above)| ensures Rank(Pop(above)[i]).Some? && Rank(Pop(above)[i]).value >= Rank(t).value {
          assert Pop(above)[i] == above[i];
        }
      }
      PopAbove(output + [top], ops, Pop(above), t);
      assert Reverse(above) == [top] + Reverse(Pop(above));
      assert output + [top] + Reverse(Pop(above)) == output + Reverse(above);
    }
  }

  /** An operator arriving on the entries that outrank it. */
  lemma OperatorArrives(output: seq<Token>, ops: seq<Token>, above: seq<Token>, op: Op)
    requires RankedFrom(above, Prec(op)) && StopsAt(ops, Prec(op))
    ensures Step(Conv(output, ops + above), OpToken(op)) == Ok(Conv(output + Reverse(above), ops + [OpToken(op)]))
  {
    OpRank(op);
    PopAbove(output, ops, above, OpToken(op));
  }

  /** `)` moves the entries above the topmost `(`, top first, and drops it. */
  lemma {:induction false} PopToOpenAbove(output: seq<Token>, ops: seq<Token>, above: seq<Token>)
    requires Open !in above
    ensures PopToOpen(Conv(output, ops + [Open] + above)) == Conv(output + Reverse(above), ops + [Open])
    decreases |above|
  {
    var below := ops + [Open];
    if above == [] {
      assert below + above == below && output + Reverse(above) == output;
      assert Top(below) == Open;
    } else {
      assert Top(below + above) == Top(above) && Pop(below + above) == below + Pop(above);
      PopToOpenAbove(output + [Top(above)], ops, Pop(above));
      assert Reverse(above) == [Top(above)] + Reverse(Pop(above));
    }
  }

  lemma CloseAbove(output: seq<Token>, ops: seq<Token>, above: seq<Token>)
    requires Open !in above
    ensures Step(Conv(output, ops + [Open] + above), Close) == Ok(Conv(output + Reverse(above), ops))
  {
    PopToOpenAbove(output, ops, above);
    var below := ops + [Open];
    assert Pop(below) == ops;
  }

  /** Where a printed tree may start: an operator of the tree that is not
      inside parentheses never pops below this point. */
  predicate Fits(ops: seq<Token>, e: Expr) {
    e.Bin? ==> StopsAt(ops, Prec(e.op))
  }

  /** What a printed tree leaves on the stack: the operators down its right
      edge that are not parenthesised, each binding more tightly than the
      one before, so that none of them has been popped yet... */
  function Spine(e: Expr): seq<Token> {
    match e
    case Var(_) => []
    case Bin(op, _, r) => [OpToken(op)] + (if WrapRight(op, r) then [] else Spine(r))
    case Group(_) => []
  }

  /** ... and what it has written to the output. */
  function Flushed(e: Expr): seq<Token> {
    match e
    case Var(name) => [Operand(name)]
    case Bin(op, l, r) => PostfixOf(l) + (if WrapRight(op, r) then PostfixOf(r) else Flushed(r))
    case Group(i) => PostfixOf(i)
  }

  lemma RankedPrepend(t: Token, rest: seq<Token>, p: int)
    requires Rank(t).Some? && Rank(t).value >= p && RankedFrom(rest, p)
    ensures RankedFrom([t] + rest, p)
  {
    forall i | 0 <= i < |[t] + rest| ensures Rank(([t] + rest)[i]).Some? && Rank(([t] + rest)[i]).value >= p {
      if i > 0 {
        assert ([t] + rest)[i] == rest[i - 1];
      }
    }
  }

  lemma RankedWeaken(ops: seq<Token>, p: int, q: int)
    requires RankedFrom(ops, p) && q <= p
    ensures RankedFrom(ops, q)
  {
  }

  /** `(` ranks 0, below every binary operator. */
  lemma RankedNoOpen(ops: seq<Token>, p: int)
    requires RankedFrom(ops, p) && p >= 1
    ensures Open !in ops
  {
    forall i | 0 <= i < |ops| ensures ops[i] != Open {
      assert Rank(ops[i]).value >= 1;
    }
  }

  /** The stacked operators, popped, complete the postfix order... */
  lemma {:induction false} SpineOrder(e: Expr)
    ensures Flushed(e) + Reverse(Spine(e)) == PostfixOf(e)
  {
    match e {
      case Var(_) =>
        assert Flushed(e) + [] == PostfixOf(e);
      case Group(_) =>
        assert Flushed(e) + [] == PostfixOf(e);
      case Bin(op, l, r) =>
        var t := OpToken(op);
        if WrapRight(op, r) {
          assert Reverse([t]) == [t];
        } else {
          SpineOrder(r);
          var rest := Spine(r);
          ReversePrepend(t, rest);
          assert Flushed(e) + Reverse([t] + rest) == PostfixOf(l) + (Flushed(r) + Reverse(rest)) + [t];
        }
    }
  }

  /** ... and they all bind at least as tightly as the root, each more
      tightly than the one below it. */
  lemma {:induction false} SpineRanked(e: Expr)
    ensures !e.Bin? ==> Spine(e) == []
    ensures e.Bin? ==> RankedFrom(Spine(e), Prec(e.op))
  {
    match e {
      case Var(_) =>
      case Group(_) =>
      case Bin(op, l, r) =>
        var t := OpToken(op);
        OpRank(op);
        if WrapRight(op, r) {
          RankedPrepend(t, [], Prec(op));
        } else {
          SpineRanked(r);
          var rest := Spine(r);
          if r.Bin? {
            RankedWeaken(rest, Prec(r.op), Prec(op));
          }
          RankedPrepend(t, rest, Prec(op));
        }
    }
  }

  lemma SpineLaws(e: Expr)
    ensures Flushed(e) + Reverse(Spine(e)) == PostfixOf(e)
    ensures !e.Bin? ==> Spine(e) == []
    ensures e.Bin? ==> RankedFrom(Spine(e), Prec(e.op))
    ensures Open !in Spine(e)
  {
    SpineOrder(e);
    SpineRanked(e);
    if e.Bin? {
      RankedNoOpen(Spine(e), Prec(e.op));
    }
  }

  /** `( tokens )`, where `tokens` alone would leave `above` stacked over
      the `(`: those operators follow the rest to the output. */
  lemma Parenthesised(tokens: seq<Token>, st: Conv, flushed: seq<Token>, above: seq<Token>)
    requires Open !in above
    requires Run(tokens, Conv(st.output, st.ops + [Open])) == Ok(Conv(st.output + flushed, st.ops + [Open] + above))
    ensures Run(Parens(tokens), st) == Ok(Conv(st.output + flushed + Reverse(above), st.ops))
  {
    var inner := Conv(st.output, st.ops + [Open]);
    var before := Conv(st.output + flushed, st.ops + [Open] + above);
    RunOne(Open, st);
    RunThen([Open], tokens, st, inner);
    RunThen([Open] + tokens, [Close], st, before);
    RunOne(Close, before);
    CloseAbove(st.output + flushed, st.ops, above);
  }

  /** A parenthesised tree appends exactly its postfix order to the output
      and leaves the stack as it found it. */
  lemma {:induction false} ParensRun(e: Expr, st: Conv)
    ensures Run(Parens(Print(e)), st) == Ok(Conv(st.output + PostfixOf(e), st.ops))
    decreases e, 2
  {
    var inner := Conv(st.output, st.ops + [Open]);
    assert Top(inner.ops) == Open;
    PrintRun(e, inner);
    SpineLaws(e);
    Parenthesised(Print(e), st, Flushed(e), Spine(e));
    assert st.output + Flushed(e) + Reverse(Spine(e)) == st.output + PostfixOf(e);
  }

  /** The left operand and the operator: the operator pops what the left
      operand left stacked, which binds at least as tightly, and stops at
      the entry below, which binds more loosely. */
  lemma {:induction false} LeftThenOperator(op: Op, l: Expr, st: Conv)
    requires StopsAt(st.ops, Prec(op))
    ensures Run(Side(l, WrapLeft(op, l)) + [OpToken(op)], st) ==
              Ok(Conv(st.output + PostfixOf(l), st.ops + [OpToken(op)]))
    decreases l, 4
  {
    if WrapLeft(op, l) {
      LeftWrapped(op, l, st);
    } else {
      LeftBare(op, l, st);
    }
  }

  lemma {:induction false} LeftWrapped(op: Op, l: Expr, st: Conv)
    requires StopsAt(st.ops, Prec(op))
    ensures Run(Parens(Print(l)) + [OpToken(op)], st) ==
              Ok(Conv(st.output + PostfixOf(l), st.ops + [OpToken(op)]))
    decreases l, 3
  {
    var mid := Conv(st.output + PostfixOf(l), st.ops + []);
    ParensRun(l, st);
    assert st.ops + [] == st.ops;
    RunThen(Parens(Print(l)), [OpToken(op)], st, mid);
    RunOne(OpToken(op), mid);
    OperatorArrives(mid.output, st.ops, [], op);
    assert mid.output + Reverse([]) == mid.output;
  }

  lemma {:induction false} LeftBare(op: Op, l: Expr, st: Conv)
    requires StopsAt(st.ops, Prec(op)) && !WrapLeft(op, l)
    ensures Run(Print(l) + [OpToken(op)], st) ==
              Ok(Conv(st.output + PostfixOf(l), st.ops + [OpToken(op)]))
    decreases l, 3
  {
    var t := OpToken(op);
    var spine := Spine(l);
    var mid := Conv(st.output + Flushed(l), st.ops + spine);
    var last := Conv(mid.output + Reverse(spine), st.ops + [t]);
    assert Fits(st.ops, l);
    PrintRun(l, st);
    SpineLaws(l);
    if l.Bin? {
      RankedWeaken(spine, Prec(l.op), Prec(op));
    }
    OperatorArrives(mid.output, st.ops, spine, op);
    RunOne(t, mid);
    RunChain(Print(l), [t], st, mid, last);
    Associative(st.output, Flushed(l), Reverse(spine));
  }

  /** The right operand, on top of its operator. */
  lemma {:induction false} RightRun(op: Op, r: Expr, st: Conv)
    requires st.ops != [] && Top(st.ops) == OpToken(op)
    ensures var wrap := WrapRight(op, r);
            Run(Side(r, wrap), st) ==
              Ok(Conv(st.output + (if wrap then PostfixOf(r) else Flushed(r)),
                      st.ops + (if wrap then [] else Spine(r))))
    decreases r, 3
  {
    if WrapRight(op, r) {
      ParensRun(r, st);
      assert st.ops + [] == st.ops;
    } else {
      OpRank(op);
      PrintRun(r, st);
    }
  }

  /** A printed tree on a stack that fits it: everything but the right
      spine reaches the output. */
  lemma {:induction false} PrintRun(e: Expr, st: Conv)
    requires Fits(st.ops, e)
    ensures Run(Print(e), st) == Ok(Conv(st.output + Flushed(e), st.ops + Spine(e)))
    decreases e, 1
  {
    match e {
      case Var(name) =>
        RunOne(Operand(name), st);
        assert st.ops + [] == st.ops;
      case Bin(op, l, r) =>
        BinRun(op, l, r, st);
      case Group(i) =>
        ParensRun(i, st);
        assert st.ops + [] == st.ops;
    }
  }

  lemma {:induction false} BinRun(op: Op, l: Expr, r: Expr, st: Conv)
    requires StopsAt(st.ops, Prec(op))
    ensures var e := Bin(op, l, r);
            Run(Print(e), st) == Ok(Conv(st.output + Flushed(e), st.ops + Spine(e)))
    decreases Bin(op, l, r), 0
  {
    var t := OpToken(op);
    var wrap := WrapRight(op, r);
    var left := Side(l, WrapLeft(op, l));
    var right := Side(r, wrap);
    var mid := Conv(st.output + PostfixOf(l), st.ops + [t]);
    var flushed := if wrap then PostfixOf(r) else Flushed(r);
    var spine := if wrap then [] else Spine(r);
    var last := Conv(mid.output + flushed, mid.ops + spine);
    LeftThenOperator(op, l, st);
    assert Top(mid.ops) == t;
    RightRun(op, r, mid);
    RunChain(left + [t], right, st, mid, last);
    BinParts(op, l, r);
    Associative(st.output, PostfixOf(l), flushed);
    Associative(st.ops, [t], spine);
  }

  lemma Associative<T>(a: seq<T>, b: seq<T>, c: seq<T>)
    ensures a + b + c == a + (b + c)
  {
  }

  /** Two successful runs, one after the other. */
  lemma RunChain(a: seq<Token>, b: seq<Token>, st: Conv, mid: Conv, last: Conv)
    requires Run(a, st) == Ok(mid) && Run(b, mid) == Ok(last)
    ensures Run(a + b, st) == Ok(last)
  {
    RunThen(a, b, st, mid);
  }

  /** A binary node's line, output and spine in terms of its operands. */
  lemma BinParts(op: Op, l: Expr, r: Expr)
    ensures var e, wrap := Bin(op, l, r), WrapRight(op, r);
            && Print(e) == Side(l, WrapLeft(op, l)) + [OpToken(op)] + Side(r, wrap)
            && Flushed(e) == PostfixOf(l) + (if wrap then PostfixOf(r) else Flushed(r))
            && Spine(e) == [OpToken(op)] + (if wrap then [] else Spine(r))
  {
  }

  /** The converter's result once the token loop is known to succeed. */
  lemma ConvertAfterRun(tokens: seq<Token>, st: Conv)
    requires Run(tokens, Start) == Ok(st)
    requires Open !in st.ops
    ensures ConvertTokens(tokens) == Ok(st.output + Reverse(st.ops))
  {
  }

  /** Converting a printed tree gives its postfix order, whatever extra
      parentheses it carries: precedence and left grouping are respected. */
  lemma ConvertPrint(e: Expr)
    ensures ConvertTokens(Print(e)) == Ok(PostfixOf(e))
  {
    var st := Conv(Flushed(e), Spine(e));
    PrintRun(e, Start);
    assert Start.output + st.output == st.output && Start.ops + st.ops == st.ops;
    SpineLaws(e);
    ConvertAfterRun(Print(e), st);
  }

  /** The tokens of the assignment `name = e`. */
  function Statement(name: string, e: Expr): seq<Token> {
    [Operand(name), Operator(Assign)] + Print(e)
  }

  /** The first two tokens of an assignment leave the name in the output
      and `=` on the stack. */
  lemma RunHead(name: string)
    ensures Run([Operand(name), Operator(Assign)], Start) == Ok(Conv([Operand(name)], [Operator(Assign)]))
  {
    var head := [Operand(name), Operator(Assign)];
    var mid := Conv([Operand(name)], []);
    assert Pop(head) == [Operand(name)] && Top(head) == Operator(Assign);
    RunOne(Operand(name), Start);
    assert Start.output + [Operand(name)] == mid.output;
    assert Run(Pop(head), Start) == Ok(mid);
    assert PopOutranking(mid, Operator(Assign)) == Ok(mid);
    assert mid.ops + [Operator(Assign)] == [Operator(Assign)];
    assert Step(mid, Operator(Assign)) == Ok(Conv([Operand(name)], [Operator(Assign)]));
  }

  /** The token loop on an assignment: the name and the tree's output
      reach the output; `=` and the tree's spine stay stacked. */
  lemma StatementRun(name: string, e: Expr)
    ensures Run(Statement(name, e), Start) ==
              Ok(Conv([Operand(name)] + Flushed(e), [Operator(Assign)] + Spine(e)))
  {
    var head := [Operand(name), Operator(Assign)];
    var st := Conv([Operand(name)], [Operator(Assign)]);
    var last := Conv(st.output + Flushed(e), st.ops + Spine(e));
    RunHead(name);
    AssignFits(e);
    PrintRun(e, st);
    RunChain(head, Print(e), Start, st, last);
  }

  /** Any tree may follow `=`, which ranks below every operator. */
  lemma AssignFits(e: Expr)
    ensures Fits([Operator(Assign)], e)
  {
    assert Top([Operator(Assign)]) == Operator(Assign);
  }

  /** `=` ranks lowest, so it waits at the bottom of the stack and is
      emitted last. */
  lemma ConvertStatement(name: string, e: Expr)
    ensures ConvertTokens(Statement(name, e)) == Ok([Operand(name)] + PostfixOf(e) + [Operator(Assign)])
  {
    var flushed, spine := Flushed(e), Spine(e);
    var ops := [Operator(Assign)] + spine;
    var last := Conv([Operand(name)] + flushed, ops);
    StatementRun(name, e);
    SpineLaws(e);
    AssignBelow(spine);
    ConvertAfterRun(Statement(name, e), last);
    Associative(last.output, Reverse(spine), [Operator(Assign)]);
    Associative([Operand(name)], flushed, Reverse(spine));
  }

  /** `=` under operators: no `(` among them, and `=` is popped last. */
  lemma AssignBelow(spine: seq<Token>)
    requires Open !in spine
    ensures var ops := [Operator(Assign)] + spine;
            Open !in ops && Reverse(ops) == Reverse(spine) + [Operator(Assign)]
  {
    ReversePrepend(Operator(Assign), spine);
  }

  // ---------------------------------------------------------------------
  // Running the emitter on concatenated token sequences

  lemma {:induction false} EmitAllAppend(a: seq<Token>, b: seq<Token>, em: Emit)
    ensures EmitAll(a, em).error.Some? ==> EmitAll(a + b, em) == EmitAll(a, em)
    ensures EmitAll(a, em).error.None? ==> EmitAll(a + b, em) == EmitAll(b, EmitAll(a, em).last)
    decreases |b|
  {
    if b == [] {
      assert a + b == a;
    } else {
      assert Pop(a + b) == a + Pop(b);
      assert Top(a + b) == Top(b);
      EmitAllAppend(a, Pop(b), em);
    }
  }

  /** `EmitAllAppend` once the first part is known to finish cleanly. */
  lemma EmitThen(a: seq<Token>, b: seq<Token>, em: Emit, mid: Emit)
    requires EmitAll(a, em) == Halt(mid, None)
    ensures EmitAll(a + b, em) == EmitAll(b, mid)
  {
    EmitAllAppend(a, b, em);
  }

  lemma EmitOne(t: Token, em: Emit)
    requires EmitStep(em, t).Ok?
    ensures EmitAll([t], em) == Halt(EmitStep(em, t).value, None)
  {
    assert Pop([t]) == [];
  }

  /** Two runs of the emitter and one more step, in sequence. */
  lemma EmitThree(a: seq<Token>, b: seq<Token>, t: Token, em0: Emit, em1: Emit, em2: Emit, em3: Emit)
    requires EmitAll(a, em0) == Halt(em1, None)
    requires EmitAll(b, em1) == Halt(em2, None)
    requires EmitStep(em2, t) == Ok(em3)
    ensures EmitAll(a + b + [t], em0) == Halt(em3, None)
  {
    EmitThen(a, b, em0, em1);
    EmitThen(a + b, [t], em0, em2);
    EmitOne(t, em2);
  }

  /** The state the reference compiler's code of `e` leads to. */
  function Compiled(e: Expr, s: Session, stack: seq<string>): Emit {
    var code := Compile(e, s.tempCount);
    Emit(Session(code.count, s.instructions + code.instrs), stack + [code.result])
  }

  /** A binary operator on two stacked names emits one instruction into
      the next temporary and leaves that temporary in their place. */
  lemma BinaryOnTwo(s: Session, stack: seq<string>, left: string, right: string, op: Op)
    ensures var temp := TempName(s.tempCount + 1);
            EmitStep(Emit(s, stack + [left] + [right]), OpToken(op)) ==
              Ok(Emit(Session(s.tempCount + 1, s.instructions + [Binary(temp, left, Spell(OpToken(op)), right)]),
                      stack + [temp]))
  {
    var both := stack + [left] + [right];
    assert both[|both| - 1] == right && both[|both| - 2] == left;
    assert both[..|both| - 2] == stack;
  }

  /** The operator at the root of a tree, met with both operands' values
      on the stack, emits the reference compiler's last instruction. */
  lemma RootStep(op: Op, l: Expr, r: Expr, s: Session, stack: seq<string>)
    ensures var left := Compiled(l, s, stack);
            var right := Compiled(r, left.session, left.stack);
            EmitStep(right, OpToken(op)) == Ok(Compiled(Bin(op, l, r), s, stack))
  {
    var cl := Compile(l, s.tempCount);
    var cr := Compile(r, cl.count);
    var left := Compiled(l, s, stack);
    var right := Compiled(r, left.session, left.stack);
    BinaryOnTwo(right.session, stack, cl.result, cr.result, op);
    var temp := TempName(cr.count + 1);
    var instr := Binary(temp, cl.result, Spell(OpToken(op)), cr.result);
    assert right.session.instructions + [instr] == s.instructions + (cl.instrs + cr.instrs + [instr]);
  }

  /** The emitter, run on the postfix order of a tree, emits the reference
      compiler's instructions and pushes its result. */
  lemma {:induction false} EmitPostfix(e: Expr, s: Session, stack: seq<string>)
    ensures EmitAll(PostfixOf(e), Emit(s, stack)) == Halt(Compiled(e, s, stack), None)
  {
    match e {
      case Var(name) =>
        EmitOne(Operand(name), Emit(s, stack));
        assert s.instructions + [] == s.instructions;
      case Bin(op, l, r) =>
        var left := Compiled(l, s, stack);
        var right := Compiled(r, left.session, left.stack);
        EmitPostfix(l, s, stack);
        EmitPostfix(r, left.session, left.stack);
        RootStep(op, l, r, s, stack);
        EmitThree(PostfixOf(l), PostfixOf(r), OpToken(op), Emit(s, stack), left, right, Compiled(e, s, stack));
      case Group(i) =>
        EmitPostfix(i, s, stack);
    }
  }

  // ---------------------------------------------------------------------
  // End to end, from the text of a line

  /** A token that survives printing and re-reading. */
  predicate Printable(t: Token) {
    WellFormed(t) && IsWord(Spell(t))
  }

  predicate AllPrintable(tokens: seq<Token>) {
    forall i :: 0 <= i < |tokens| ==> Printable(tokens[i])
  }

  lemma AllPrintableAppend(a: seq<Token>, b: seq<Token>)
    requires AllPrintable(a) && AllPrintable(b)
    ensures AllPrintable(a + b)
  {
    forall i | 0 <= i < |a + b| ensures Printable((a + b)[i]) {
      if i >= |a| {
        assert (a + b)[i] == b[i - |a|];
      }
    }
  }

  lemma OperandPrintable(name: string)
    requires IsOperand(name)
    ensures Printable(Operand(name))
  {
    assert forall i :: 0 <= i < |name| ==> !IsWhitespace(name[i]) by {
      forall i | 0 <= i < |name| ensures !IsWhitespace(name[i]) {
        assert IsAlnum(name[i]);
      }
    }
  }

  lemma PunctuationPrintable(t: Token)
    requires t == Open || t == Close || (t.Operator? && !t.symbol.Unknown?)
    ensures Printable(t)
  {
    assert |Spell(t)| == 1 && !IsWhitespace(Spell(t)[0]);
  }

  lemma {:induction false} SidePrintable(e: Expr, wrap: bool)
    requires ValidNames(e)
    ensures AllPrintable(Side(e, wrap))
    decreases e, 1
  {
    PrintPrintable(e);
    if wrap {
      PunctuationPrintable(Open);
      PunctuationPrintable(Close);
      AllPrintableAppend([Open], Print(e));
      AllPrintableAppend([Open] + Print(e), [Close]);
    }
  }

  lemma {:induction false} PrintPrintable(e: Expr)
    requires ValidNames(e)
    ensures AllPrintable(Print(e))
    decreases e, 0
  {
    match e {
      case Var(name) =>
        OperandPrintable(name);
      case Bin(op, l, r) =>
        var left := Side(l, WrapLeft(op, l));
        var right := Side(r, WrapRight(op, r));
        SidePrintable(l, WrapLeft(op, l));
        SidePrintable(r, WrapRight(op, r));
        PunctuationPrintable(OpToken(op));
        AllPrintableAppend(left, [OpToken(op)]);
        AllPrintableAppend(left + [OpToken(op)], right);
      case Group(i) =>
        SidePrintable(i, true);
    }
  }

  /** The text of a token sequence: the tokens separated by single spaces. */
  function Line(tokens: seq<Token>): string {
    JoinWith(SpellAll(tokens), ' ')
  }

  /** `generate_tac` on the printed form of a tree emits the reference
      compiler's instructions after those already in the session, numbers
      its temporaries after those already named, and returns the name
      holding the value. */
  lemma GenerateTacOnTree(s: Session, e: Expr)
    requires ValidNames(e)
    ensures var code := Compile(e, s.tempCount);
            GenerateTac(s, Line(Print(e))) ==
              Outcome(Session(code.count, s.instructions + code.instrs), Ok(code.result))
  {
    var code := Compile(e, s.tempCount);
    PrintPrintable(e);
    ConvertPrint(e);
    EmitPostfix(e, s, []);
    assert [] + [code.result] == [code.result];
    GenerateTacOn(s, Print(e), PostfixOf(e), Session(code.count, s.instructions + code.instrs), code.result);
  }

  /** On `name = e` the code of `e` is followed by one copy into `name`,
      and the call returns `name`. */
  lemma GenerateTacOnStatement(s: Session, name: string, e: Expr)
    requires ValidNames(e) && IsOperand(name)
    ensures var code := Compile(e, s.tempCount);
            GenerateTac(s, Line(Statement(name, e))) ==
              Outcome(Session(code.count, s.instructions + code.instrs + [Copy(name, code.result)]), Ok(name))
  {
    var code := Compile(e, s.tempCount);
    StatementPrintable(name, e);
    ConvertStatement(name, e);
    StatementEmission(s, name, e);
    GenerateTacOn(s, Statement(name, e), [Operand(name)] + PostfixOf(e) + [Operator(Assign)],
                  Session(code.count, s.instructions + code.instrs + [Copy(name, code.result)]), name);
  }

  /** A line of printable tokens that converts to `postfix`, on which the
      emitter ends with one name on the stack, returns that name. */
  lemma GenerateTacOn(s: Session, tokens: seq<Token>, postfix: seq<Token>, s': Session, name: string)
    requires AllPrintable(tokens) && ConvertTokens(tokens) == Ok(postfix)
    requires EmitAll(postfix, Emit(s, [])) == Halt(Emit(s', [name]), None)
    ensures GenerateTac(s, Line(tokens)) == Outcome(s', Ok(name))
  {
    TokenizeSpelled(tokens);
  }

  lemma StatementPrintable(name: string, e: Expr)
    requires ValidNames(e) && IsOperand(name)
    ensures AllPrintable(Statement(name, e))
  {
    PrintPrintable(e);
    OperandPrintable(name);
    PunctuationPrintable(Operator(Assign));
    AllPrintableAppend([Operand(name), Operator(Assign)], Print(e));
  }

  /** The emitter on the postfix order of `name = e`. */
  lemma StatementEmission(s: Session, name: string, e: Expr)
    requires IsOperand(name)
    ensures var code := Compile(e, s.tempCount);
            EmitAll([Operand(name)] + PostfixOf(e) + [Operator(Assign)], Emit(s, [])) ==
              Halt(Emit(Session(code.count, s.instructions + code.instrs + [Copy(name, code.result)]), [name]), None)
  {
    var code := Compile(e, s.tempCount);
    var sc := Session(code.count, s.instructions + code.instrs);
    var start := Emit(s, []);
    EmitOne(Operand(name), start);
    EmitAllAppend([Operand(name)], PostfixOf(e), start);
    EmitPostfix(e, s, [name]);
    EmitAllAppend([Operand(name)] + PostfixOf(e), [Operator(Assign)], start);
    var stack := [name] + [code.result];
    EmitOne(Operator(Assign), Emit(sc, stack));
    assert stack[..0] + [name] == [name];
  }
}
