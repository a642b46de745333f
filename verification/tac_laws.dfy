/** What `generate_tac`, `new_temp` and `get_instructions` guarantee
    (ThreeAdressCode.py:9-40, 71-73): when the emitter succeeds, how the
    operand stack evolves, that the instruction list only grows, and that
    temporaries are numbered consecutively across calls. */
module TacLaws {
  import opened Errors
  import opened Lists
  import opened Text
  import opened Tokens
  import opened Postfix
  import opened PostfixLaws
  import opened Tac

  // ---------------------------------------------------------------------
  // Stack heights: when the emitter raises for lack of operands

  /** The stack height a token sequence leaves behind, starting from empty. */
  function Height(tokens: seq<Token>): int {
    if tokens == [] then 0 else Height(Pop(tokens)) + Arity(Top(tokens))
  }

  /** Every operator in `tokens` finds at least two entries on a stack that
      started with `start` entries. */
  predicate Feasible(tokens: seq<Token>, start: nat) {
    forall k :: 0 <= k < |tokens| && !tokens[k].Operand? ==> start + Height(tokens[..k]) >= 2
  }

  lemma FeasiblePrefix(tokens: seq<Token>, start: nat)
    requires tokens != []
    ensures Feasible(tokens, start) <==>
              Feasible(Pop(tokens), start) && (Top(tokens).Operand? || start + Height(Pop(tokens)) >= 2)
  {
    var n := |tokens| - 1;
    assert tokens[..n] == Pop(tokens);
    if Feasible(Pop(tokens), start) && (Top(tokens).Operand? || start + Height(Pop(tokens)) >= 2) {
      forall k | 0 <= k < |tokens| && !tokens[k].Operand? ensures start + Height(tokens[..k]) >= 2 {
        if k < n {
          assert tokens[..k] == Pop(tokens)[..k];
          assert tokens[k] == Pop(tokens)[k];
        }
      }
    }
    if Feasible(tokens, start) {
      forall k | 0 <= k < n && !Pop(tokens)[k].Operand? ensures start + Height(Pop(tokens)[..k]) >= 2 {
        assert tokens[..k] == Pop(tokens)[..k];
        assert tokens[k] == Pop(tokens)[k];
      }
    }
  }

  /** One emitter step fails exactly when an operator finds fewer than two
      entries, and otherwise changes the height by the token's arity. */
  lemma EmitStepHeight(e: Emit, token: Token)
    ensures EmitStep(e, token).Err? <==> !token.Operand? && |e.stack| < 2
    ensures EmitStep(e, token).Ok? ==> |EmitStep(e, token).value.stack| == |e.stack| + Arity(token)
  {
  }

  /** The emitter loop runs to the end exactly when every operator finds two
      operands; it then leaves `Height(tokens)` more entries on the stack.
      The only error it raises is `InsufficientOperands`. */
  lemma {:induction false} EmitHeight(tokens: seq<Token>, e: Emit)
    ensures EmitAll(tokens, e).error.None? <==> Feasible(tokens, |e.stack|)
    ensures EmitAll(tokens, e).error.None? ==> |EmitAll(tokens, e).last.stack| == |e.stack| + Height(tokens)
    ensures EmitAll(tokens, e).error.Some? ==> EmitAll(tokens, e).error.value == InsufficientOperands
    decreases |tokens|
  {
    if tokens != [] {
      EmitHeight(Pop(tokens), e);
      FeasiblePrefix(tokens, |e.stack|);
      var h := EmitAll(Pop(tokens), e);
      if h.error.None? {
        EmitStepHeight(h.last, Top(tokens));
      }
    }
  }

  // ---------------------------------------------------------------------
  // The instruction list only grows; temporaries are numbered in order

  predicate IsOperator(t: Token) {
    !t.Operand?
  }

  /** A token that makes the emitter call `new_temp`. */
  predicate IsBinary(t: Token) {
    !t.Operand? && t != Operator(Assign)
  }

  /** The number of instructions `tokens` emit. */
  function Emitted(tokens: seq<Token>): nat {
    |Filter(tokens, IsOperator)|
  }

  /** The number of temporaries `tokens` name. */
  function Named(tokens: seq<Token>): nat {
    |Filter(tokens, IsBinary)|
  }

  /** The targets of the binary instructions, in order: the temporaries. */
  function Temps(instrs: seq<Instr>): seq<string> {
    if instrs == [] then []
    else Temps(Pop(instrs)) + (if Top(instrs).Binary? then [Top(instrs).target] else [])
  }

  /** `t<lo+1>`, ..., `t<hi>`. */
  function TempRange(lo: nat, hi: nat): (r: seq<string>)
    requires lo <= hi
    ensures |r| == hi - lo
    decreases hi
  {
    if lo == hi then [] else TempRange(lo, hi - 1) + [TempName(hi)]
  }

  lemma TempsSnoc(instrs: seq<Instr>, i: Instr)
    ensures Temps(instrs + [i]) == Temps(instrs) + (if i.Binary? then [i.target] else [])
  {
    assert Pop(instrs + [i]) == instrs;
  }

  /** One step appends one instruction per operator, and a binary operator
      takes the next temporary. */
  lemma EmitStepLog(e: Emit, token: Token)
    requires EmitStep(e, token).Ok?
    ensures var s := e.session;
            var s' := EmitStep(e, token).value.session;
            && s.instructions <= s'.instructions
            && |s'.instructions| == |s.instructions| + (if IsOperator(token) then 1 else 0)
            && s'.tempCount == s.tempCount + (if IsBinary(token) then 1 else 0)
            && Temps(s'.instructions) == Temps(s.instructions) + TempRange(s.tempCount, s'.tempCount)
  {
    var s := e.session;
    var s' := EmitStep(e, token).value.session;
    if IsOperator(token) {
      var i := s'.instructions[|s.instructions|];
      assert s'.instructions == s.instructions + [i];
      TempsSnoc(s.instructions, i);
    }
  }

  lemma TempRangeAppend(a: nat, b: nat, c: nat)
    requires a <= b <= c
    ensures TempRange(a, b) + TempRange(b, c) == TempRange(a, c)
    decreases c
  {
    if b < c {
      TempRangeAppend(a, b, c - 1);
    }
  }

  lemma PrefixTrans<T>(a: seq<T>, b: seq<T>, c: seq<T>)
    requires a <= b && b <= c
    ensures a <= c
  {
    assert a == b[..|a|] == c[..|a|];
  }

  /** Over the whole loop, whether or not it stops early: instructions are
      only appended, and the temporaries named are the next ones in order. */
  lemma {:induction false} EmitLog(tokens: seq<Token>, e: Emit)
    ensures var s := e.session;
            var s' := EmitAll(tokens, e).last.session;
            && s.instructions <= s'.instructions
            && s.tempCount <= s'.tempCount
            && Temps(s'.instructions) == Temps(s.instructions) + TempRange(s.tempCount, s'.tempCount)
    decreases |tokens|
  {
    var s := e.session;
    if tokens == [] {
      assert Temps(s.instructions) + [] == Temps(s.instructions);
    } else {
      EmitLog(Pop(tokens), e);
      var h := EmitAll(Pop(tokens), e);
      var m := h.last.session;
      if h.error.None? && EmitStep(h.last, Top(tokens)).Ok? {
        var s' := EmitStep(h.last, Top(tokens)).value.session;
        assert EmitAll(tokens, e).last.session == s';
        EmitStepLog(h.last, Top(tokens));
        TempRangeAppend(s.tempCount, m.tempCount, s'.tempCount);
        PrefixTrans(s.instructions, m.instructions, s'.instructions);
      } else {
        assert EmitAll(tokens, e).last.session == m;
      }
    }
  }

  /** When the loop runs to the end it emits one instruction per operator
      and names one temporary per binary operator. */
  lemma {:induction false} EmitCounts(tokens: seq<Token>, e: Emit)
    ensures EmitAll(tokens, e).error.None? ==>
              var s := e.session;
              var s' := EmitAll(tokens, e).last.session;
              && |s'.instructions| == |s.instructions| + Emitted(tokens)
              && s'.tempCount == s.tempCount + Named(tokens)
    decreases |tokens|
  {
    if tokens != [] && EmitAll(tokens, e).error.None? {
      EmitCounts(Pop(tokens), e);
      EmitStepLog(EmitAll(Pop(tokens), e).last, Top(tokens));
    }
  }

  /** On a line of operands, parentheses and `+ - * /`, a call that does
      not stop early emits one instruction, into one new temporary, per
      operator of the line: the conversion only reorders the tokens and
      drops the parentheses, and the emitter emits once per operator it
      meets.  A call stops early on mismatched parentheses or an operator
      short of operands; otherwise it returns a name, or raises
      `UnresolvedExpression` once the loop is done. */
  lemma OneInstructionPerOperator(s: Session, expression: string)
    requires ArithmeticTokens(Tokenize(expression))
    ensures var out, operators := GenerateTac(s, expression), Unparenthesized(Tokenize(expression));
            (out.result.Ok? || out.result.error == UnresolvedExpression) ==>
              && |out.session.instructions| == |s.instructions| + Emitted(operators)
              && out.session.tempCount == s.tempCount + Named(operators)
  {
    var tokens := Tokenize(expression);
    ArithmeticConversion(tokens);
    if ConvertTokens(tokens).Ok? {
      var postfix := ConvertTokens(tokens).value;
      EmitHeight(postfix, Emit(s, []));
      EmitCounts(postfix, Emit(s, []));
      FilterSameCount(postfix, Unparenthesized(tokens), IsOperator);
      FilterSameCount(postfix, Unparenthesized(tokens), IsBinary);
    }
  }

  /** Distinct numbers name distinct temporaries. */
  lemma TempNameInjective(a: nat, b: nat)
    ensures TempName(a) == TempName(b) <==> a == b
  {
    if TempName(a) == TempName(b) {
      assert NatToString(a) == TempName(a)[1..];
      assert NatToString(b) == TempName(b)[1..];
      NatToStringInjective(a, b);
    }
  }

  /** `TempRange(lo, hi)` lists `t<lo+1>` ... `t<hi>` in order. */
  lemma {:induction false} TempRangeAt(lo: nat, hi: nat, i: nat)
    requires lo <= hi && i < hi - lo
    ensures TempRange(lo, hi)[i] == TempName(lo + 1 + i)
    decreases hi
  {
    if i < hi - lo - 1 {
      TempRangeAt(lo, hi - 1, i);
    }
  }

  /** No temporary is named twice in a range. */
  lemma TempRangeDistinct(lo: nat, hi: nat)
    requires lo <= hi
    ensures forall i, j :: 0 <= i < j < hi - lo ==> TempRange(lo, hi)[i] != TempRange(lo, hi)[j]
  {
    forall i, j | 0 <= i < j < hi - lo ensures TempRange(lo, hi)[i] != TempRange(lo, hi)[j] {
      TempRangeAt(lo, hi, i);
      TempRangeAt(lo, hi, j);
      TempNameInjective(lo + 1 + i, lo + 1 + j);
    }
  }

  /** The name `new_temp` returns is `t` followed by the decimal numeral of
      the raised counter: reading the digits back gives the counter. */
  lemma NewTempName(s: Session)
    ensures var (s', name) := NewTemp(s);
            && |name| >= 2 && name[0] == 't'
            && AllDigits(name[1..]) && ParseNat(name[1..]) == s'.tempCount
  {
    var name := NewTemp(s).1;
    assert name[1..] == NatToString(s.tempCount + 1);
    ParseNatToString(s.tempCount + 1);
  }

  /** `new_temp` never repeats a name it gave out before. */
  lemma NewTempFresh(s: Session)
    ensures forall k :: 1 <= k <= s.tempCount ==> NewTemp(s).1 != TempName(k)
  {
    forall k | 1 <= k <= s.tempCount ensures NewTemp(s).1 != TempName(k) {
      TempNameInjective(s.tempCount + 1, k);
    }
  }

  // ---------------------------------------------------------------------
  // `generate_tac` as a whole

  /** The session invariant: the binary instructions name `t1`, `t2`, ...
      up to the counter, each once and in order. */
  predicate Numbered(s: Session) {
    Temps(s.instructions) == TempRange(0, s.tempCount)
  }

  lemma FreshNumbered()
    ensures Numbered(Fresh)
  {
  }

  /** `generate_tac` only appends to the session, on success and on error,
      and keeps the numbering: temporaries continue where the previous call
      left off. */
  lemma GenerateTacAppends(s: Session, expression: string)
    ensures var s' := GenerateTac(s, expression).session;
            && s.instructions <= s'.instructions
            && s.tempCount <= s'.tempCount
            && Temps(s'.instructions) == Temps(s.instructions) + TempRange(s.tempCount, s'.tempCount)
    ensures Numbered(s) ==> Numbered(GenerateTac(s, expression).session)
  {
    var s' := GenerateTac(s, expression).session;
    if InfixToPostfix(expression).Ok? {
      EmitLog(InfixToPostfix(expression).value, Emit(s, []));
      TempRangeAppend(0, s.tempCount, s'.tempCount);
    } else {
      assert Temps(s.instructions) + [] == Temps(s.instructions);
    }
  }

  /** `generate_tac` returns a result exactly when the conversion succeeds,
      every operator of the postfix finds two operands and exactly one entry
      is left; a conversion error is raised before the session is touched. */
  lemma GenerateTacResult(s: Session, expression: string)
    ensures InfixToPostfix(expression).Err? ==>
              GenerateTac(s, expression) == Outcome(s, Err(InfixToPostfix(expression).error))
    ensures InfixToPostfix(expression).Ok? ==>
              var postfix := InfixToPostfix(expression).value;
              var o := GenerateTac(s, expression);
              && (o.result.Ok? <==> Feasible(postfix, 0) && Height(postfix) == 1)
              && (o.result.Err? && o.result.error == InsufficientOperands <==> !Feasible(postfix, 0))
              && (o.result.Err? ==> o.result.error in {InsufficientOperands, UnresolvedExpression})
  {
    if InfixToPostfix(expression).Ok? {
      EmitHeight(InfixToPostfix(expression).value, Emit(s, []));
    }
  }

  /** A blank line has no tokens: nothing is emitted and the stack ends
      empty, so the call raises `UnresolvedExpression` and leaves the
      session as it was. */
  lemma BlankInput(s: Session, expression: string)
    requires AllWhitespace(expression)
    ensures GenerateTac(s, expression) == Outcome(s, Err(UnresolvedExpression))
  {
    SplitBlank(expression);
    assert Tokenize(expression) == [];
  }

  // ---------------------------------------------------------------------
  // `get_instructions`

  predicate NoNewline(line: string) {
    '\n' !in line
  }

  /** Every instruction of the session renders on one line. */
  predicate OneLineEach(s: Session) {
    forall i :: 0 <= i < |s.instructions| ==> NoNewline(Render(s.instructions[i]))
  }

  /** Splitting the text of `get_instructions` at line breaks gives back
      the rendered instructions, one per line, when there is at least one
      (`"".split("\n")` is `[""]`, not `[]`). */
  lemma GetInstructionsLines(s: Session)
    requires |s.instructions| >= 1
    requires OneLineEach(s)
    ensures SplitOn(GetInstructions(s), '\n') == RenderAll(s.instructions)
  {
    SplitOnJoin(RenderAll(s.instructions), '\n');
  }
}
