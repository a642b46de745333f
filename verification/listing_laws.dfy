/** `get_instructions` as a listing that can be read back: no instruction
    text ever contains a line break, because every name and operator in it
    comes from a whitespace-free word of some input line or is a numbered
    temporary.  So for every object built by a series of `generate_tac`
    calls, splitting the listing at line breaks gives back the instructions
    one per line. */
module ListingLaws {
  import opened Errors
  import opened Lists
  import opened Text
  import opened Tokens
  import opened Postfix
  import opened PostfixLaws
  import opened Tac
  import opened TacLaws

  /** A token whose text has no line break. */
  predicate SingleLine(t: Token) {
    NoNewline(Spell(t))
  }

  predicate AllSingleLine(tokens: seq<Token>) {
    forall i :: 0 <= i < |tokens| ==> SingleLine(tokens[i])
  }

  /** Every token of a line is a word of it: no line break inside. */
  lemma TokenizeSingleLine(expression: string)
    ensures AllSingleLine(Tokenize(expression))
  {
    var words := Split(expression);
    forall i | 0 <= i < |words| ensures SingleLine(Tokenize(expression)[i]) {
      SpellClassify(words[i]);
      assert IsWhitespace('\n');
      assert forall j :: 0 <= j < |words[i]| ==> words[i][j] != '\n';
    }
  }

  // ---------------------------------------------------------------------
  // The converter only moves tokens around

  lemma SingleLineMoved(output: seq<Token>, ops: seq<Token>, n: nat)
    requires n <= |ops| && AllSingleLine(output) && AllSingleLine(ops)
    ensures AllSingleLine(output + Reverse(ops[n..]))
    ensures AllSingleLine(ops[..n])
  {
    var moved := Reverse(ops[n..]);
    forall i | 0 <= i < |output + moved| ensures SingleLine((output + moved)[i]) {
      if i >= |output| {
        assert (output + moved)[i] == ops[n..][|ops[n..]| - 1 - (i - |output|)];
      }
    }
  }

  lemma SingleLinePush(ops: seq<Token>, t: Token)
    requires AllSingleLine(ops) && SingleLine(t)
    ensures AllSingleLine(ops + [t])
  {
  }

  /** A converter state holding only printed tokens. */
  predicate SingleLineState(st: Conv) {
    AllSingleLine(st.output) && AllSingleLine(st.ops)
  }

  lemma StepSingleLine(st: Conv, t: Token)
    requires SingleLineState(st) && SingleLine(t)
    ensures Step(st, t).Ok? ==> SingleLineState(Step(st, t).value)
  {
    if Step(st, t).Ok? {
      match t {
        case Operand(_) =>
          StepOnOperand(st, t);
          SingleLinePush(st.output, t);
        case Open =>
          StepOnOpen(st);
          SingleLinePush(st.ops, t);
        case Close =>
          StepOnClose(st);
          var n := |PopToOpen(st).ops|;
          SingleLineMoved(st.output, st.ops, n);
          SingleLineMoved(st.output, st.ops, n - 1);
        case Operator(_) =>
          StepOnOperator(st, t);
          var n := Kept(st.ops, t);
          SingleLineMoved(st.output, st.ops, n);
          SingleLinePush(st.ops[..n], t);
      }
    }
  }

  lemma {:induction false} RunSingleLine(tokens: seq<Token>, st: Conv)
    requires SingleLineState(st) && AllSingleLine(tokens)
    ensures Run(tokens, st).Ok? ==> SingleLineState(Run(tokens, st).value)
    decreases |tokens|
  {
    if tokens != [] && Run(tokens, st).Ok? {
      RunSingleLine(Pop(tokens), st);
      StepSingleLine(Run(Pop(tokens), st).value, Top(tokens));
    }
  }

  /** The postfix form of a line holds only tokens of that line's kind:
      none has a line break in its text. */
  lemma ConvertSingleLine(tokens: seq<Token>)
    requires AllSingleLine(tokens)
    ensures ConvertTokens(tokens).Ok? ==> AllSingleLine(ConvertTokens(tokens).value)
  {
    RunSingleLine(tokens, Start);
    if Run(tokens, Start).Ok? {
      var st := Run(tokens, Start).value;
      SingleLineMoved(st.output, st.ops, 0);
      assert st.ops[0..] == st.ops;
    }
  }

  // ---------------------------------------------------------------------
  // The emitter writes one line per instruction

  lemma TempNoNewline(k: nat)
    ensures NoNewline(TempName(k))
  {
    var digits := NatToString(k);
    assert TempName(k) == "t" + digits;
    assert forall i :: 0 <= i < |digits| ==> IsDigit(digits[i]);
  }

  predicate StackSingleLine(stack: seq<string>) {
    forall i :: 0 <= i < |stack| ==> NoNewline(stack[i])
  }

  /** An emitter state whose instructions and stacked names are printable
      on one line each. */
  predicate OneLineState(em: Emit) {
    OneLineEach(em.session) && StackSingleLine(em.stack)
  }

  lemma OneLineAppend(s: Session, i: Instr)
    requires OneLineEach(s) && NoNewline(Render(i))
    ensures OneLineEach(Session(s.tempCount + 1, s.instructions + [i]))
    ensures OneLineEach(Session(s.tempCount, s.instructions + [i]))
  {
  }

  lemma EmitStepOneLine(em: Emit, t: Token)
    requires OneLineState(em) && SingleLine(t)
    ensures EmitStep(em, t).Ok? ==> OneLineState(EmitStep(em, t).value)
  {
    if EmitStep(em, t).Ok? && !t.Operand? {
      var n := |em.stack|;
      var right, left := em.stack[n - 1], em.stack[n - 2];
      var below := em.stack[..n - 2];
      assert NoNewline(left) && NoNewline(right);
      if t == Operator(Assign) {
        OneLineAppend(em.session, Copy(left, right));
      } else {
        var temp := TempName(em.session.tempCount + 1);
        TempNoNewline(em.session.tempCount + 1);
        OneLineAppend(em.session, Binary(temp, left, Spell(t), right));
      }
    }
  }

  lemma {:induction false} EmitAllOneLine(tokens: seq<Token>, em: Emit)
    requires OneLineState(em) && AllSingleLine(tokens)
    ensures OneLineState(EmitAll(tokens, em).last)
    decreases |tokens|
  {
    if tokens != [] {
      EmitAllOneLine(Pop(tokens), em);
      var h := EmitAll(Pop(tokens), em);
      if h.error.None? {
        EmitStepOneLine(h.last, Top(tokens));
      }
    }
  }

  /** `generate_tac` keeps every instruction on one line, whatever the
      input and whether or not it raises. */
  lemma GenerateTacOneLine(s: Session, expression: string)
    requires OneLineEach(s)
    ensures OneLineEach(GenerateTac(s, expression).session)
  {
    TokenizeSingleLine(expression);
    ConvertSingleLine(Tokenize(expression));
    if InfixToPostfix(expression).Ok? {
      EmitAllOneLine(InfixToPostfix(expression).value, Emit(s, []));
    }
  }

  /** The object after `generate_tac` has been called on each of `lines`
      in turn, starting from a fresh one. */
  function Replay(lines: seq<string>): Session
    decreases |lines|
  {
    if lines == [] then Fresh else GenerateTac(Replay(Pop(lines)), Top(lines)).session
  }

  /** For every object built by a series of calls, the listing splits back
      into the rendered instructions, one per line. */
  lemma {:induction false} ReplayListing(lines: seq<string>)
    ensures OneLineEach(Replay(lines))
    ensures |Replay(lines).instructions| >= 1 ==>
              SplitOn(GetInstructions(Replay(lines)), '\n') == RenderAll(Replay(lines).instructions)
    decreases |lines|
  {
    if lines != [] {
      ReplayListing(Pop(lines));
      GenerateTacOneLine(Replay(Pop(lines)), Top(lines));
    }
    if |Replay(lines).instructions| >= 1 {
      GetInstructionsLines(Replay(lines));
    }
  }
}
