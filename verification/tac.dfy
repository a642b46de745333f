/** The `ThreeAddressCode` object (ThreeAdressCode.py:4-73): its counter of
    temporaries and its instruction list (`Session`), `new_temp`,
    `generate_tac` and `get_instructions`.

    The object's mutable state becomes a value threaded through the calls:
    `GenerateTac` takes the session before the call and returns the session
    after it, together with the result or the error.  An error does not roll
    anything back: instructions appended and temporaries numbered before the
    failing token stay in the session, as they do in the original.
 */
module Tac {
  import opened Errors
  import opened Lists
  import opened Text
  import opened Tokens
  import opened Postfix

  /** One three-address instruction: a copy `lhs = rhs` (line 27) or a
      binary operation `temp = op1 op op2` (line 35). */
  datatype Instr =
    | Copy(target: string, source: string)
    | Binary(target: string, left: string, op: string, right: string)

  /** The text of an instruction, as the f-strings of lines 27 and 35 write it. */
  function Render(i: Instr): string {
    match i
    case Copy(target, source) => target + " = " + source
    case Binary(target, left, op, right) => target + " = " + left + " " + op + " " + right
  }

  function RenderAll(instrs: seq<Instr>): (lines: seq<string>)
    ensures |lines| == |instrs|
    ensures forall i :: 0 <= i < |instrs| ==> lines[i] == Render(instrs[i])
  {
    if instrs == [] then [] else [Render(instrs[0])] + RenderAll(instrs[1..])
  }

  /** `temp_count` and `instructions` of one `ThreeAddressCode` object. */
  datatype Session = Session(tempCount: nat, instructions: seq<Instr>)

  /** A freshly constructed object (lines 5-7). */
  const Fresh := Session(0, [])

  /** The name of the `k`-th temporary: `t1`, `t2`, ... */
  function TempName(k: nat): string {
    "t" + NatToString(k)
  }

  /** `new_temp` (lines 9-12): bump the counter and name the new temporary. */
  function NewTemp(s: Session): (r: (Session, string))
    ensures r.0.instructions == s.instructions
    ensures r.0.tempCount == s.tempCount + 1
  {
    var s' := Session(s.tempCount + 1, s.instructions);
    (s', TempName(s'.tempCount))
  }

  /** `get_instructions` (lines 71-73): the instructions, one per line. */
  function GetInstructions(s: Session): string {
    JoinWith(RenderAll(s.instructions), '\n')
  }

  // ---------------------------------------------------------------------
  // The emitter loop of `generate_tac` (lines 19-36)

  /** The session and the operand stack of `generate_tac`; the top is last. */
  datatype Emit = Emit(session: Session, stack: seq<string>)

  /** What a token does to the operand stack: an operand pushes one entry,
      anything else pops two and pushes one. */
  function Arity(t: Token): int {
    if t.Operand? then 1 else -1
  }

  /** One iteration of the emitter loop.  An operand is pushed (line 21);
      `=` emits a copy and leaves its left side on the stack (lines 22-28);
      every other token, `(` included, is a binary operator that names a new
      temporary (lines 29-36).  Both branches raise when fewer than two
      entries are on the stack. */
  function EmitStep(e: Emit, token: Token): (r: Result<Emit>)
    ensures r.Err? ==> r.error == InsufficientOperands
  {
    match token
    case Operand(name) => Ok(Emit(e.session, e.stack + [name]))
    case _ =>
      if |e.stack| < 2 then Err(InsufficientOperands)
      else
        var n := |e.stack|;
        var right := e.stack[n - 1];
        var left := e.stack[n - 2];
        var below := e.stack[..n - 2];
        if token == Operator(Assign) then
          var s := e.session;
          Ok(Emit(Session(s.tempCount, s.instructions + [Copy(left, right)]), below + [left]))
        else
          var (s, temp) := NewTemp(e.session);
          Ok(Emit(Session(s.tempCount, s.instructions + [Binary(temp, left, Spell(token), right)]), below + [temp]))
  }

  /** Where the emitter loop stopped: the last state it reached and, if it
      stopped early, the error that stopped it. */
  datatype Halt = Halt(last: Emit, error: Option<CompileError>)

  /** The emitter loop over `tokens`, started from `e`. */
  function EmitAll(tokens: seq<Token>, e: Emit): Halt
    decreases |tokens|
  {
    if tokens == [] then Halt(e, None)
    else
      var h := EmitAll(Pop(tokens), e);
      if h.error.Some? then h
      else
        match EmitStep(h.last, Top(tokens))
        case Ok(e') => Halt(e', None)
        case Err(err) => Halt(h.last, Some(err))
  }

  /** The session after a call and what the call returned or raised. */
  datatype Outcome = Outcome(session: Session, result: Result<string>)

  /** `generate_tac(expression)` (lines 14-40) on the session `s`. */
  function GenerateTac(s: Session, expression: string): Outcome {
    match InfixToPostfix(expression)
    case Err(err) => Outcome(s, Err(err))
    case Ok(postfix) =>
      var h := EmitAll(postfix, Emit(s, []));
      if h.error.Some? then Outcome(h.last.session, Err(h.error.value))
      else if |h.last.stack| != 1 then Outcome(h.last.session, Err(UnresolvedExpression))
      else Outcome(h.last.session, Ok(h.last.stack[0]))
  }
}
