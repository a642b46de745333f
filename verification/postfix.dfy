/** The shunting-yard converter `infix_to_postfix` (ThreeAdressCode.py:42-69).

    The converter's state is the output list and the operator stack
    (`Conv`); one token is processed by `Step`, a whole token sequence by
    `Run`, and the final flush of the stack by `Drain`.  Every `raise` and
    every failing `precedence[...]` lookup becomes an `Err`.
 */
module Postfix {
  import opened Errors
  import opened Lists
  import opened Tokens
  import opened Precedence

  /** `output` and `operators` of `infix_to_postfix`; the stack top is last. */
  datatype Conv = Conv(output: seq<Token>, ops: seq<Token>)

  const Start := Conv([], [])

  /** The pop loop of lines 60-61: while the stack is non-empty and
      `precedence[top] >= precedence[token]`, move the top to the output.
      There is no test for `(` on top: `(` (rank 0) is popped by `=`
      (rank -1).  Either lookup fails on a symbol outside the table, but
      only when the stack is non-empty. */
  function PopOutranking(st: Conv, token: Token): (r: Result<Conv>)
    ensures r.Ok? ==> r.value.ops <= st.ops
    ensures r.Err? ==> r.error == UnknownOperator
    decreases |st.ops|
  {
    if st.ops == [] then Ok(st)
    else
      var top := Top(st.ops);
      if Rank(top).None? || Rank(token).None? then Err(UnknownOperator)
      else if Rank(top).value >= Rank(token).value then
        PopOutranking(Conv(st.output + [top], Pop(st.ops)), token)
      else Ok(st)
  }

  /** The entries the pop loop removes reach the output top first. */
  lemma {:induction false} PopOutrankingMoves(st: Conv, token: Token)
    ensures PopOutranking(st, token).Ok? ==>
              var r := PopOutranking(st, token).value;
              r.output == st.output + Reverse(st.ops[|r.ops|..])
    decreases |st.ops|
  {
    if st.ops != [] && Outranks(Top(st.ops), token) {
      var next := Conv(st.output + [Top(st.ops)], Pop(st.ops));
      assert PopOutranking(st, token) == PopOutranking(next, token);
      PopOutrankingMoves(next, token);
      if PopOutranking(next, token).Ok? {
        var k := |PopOutranking(next, token).value.ops|;
        assert Pop(st.ops[k..]) == next.ops[k..];
        assert Top(st.ops[k..]) == Top(st.ops);
      }
    }
  }

  /** How many stack entries survive the pop loop: the loop pops exactly
      the run of entries at the top that outrank `token`. */
  function Kept(ops: seq<Token>, token: Token): (k: nat)
    ensures k <= |ops|
  {
    if ops == [] || !Outranks(Top(ops), token) then |ops| else Kept(Pop(ops), token)
  }

  /** `Kept` marks the top run of entries that outrank `token`: all of
      them outrank it, and the entry below them does not. */
  lemma {:induction false} KeptRun(ops: seq<Token>, token: Token)
    ensures var k := Kept(ops, token);
            && (forall i :: k <= i < |ops| ==> Outranks(ops[i], token))
            && (k > 0 ==> !Outranks(ops[k - 1], token))
  {
    if ops != [] && Outranks(Top(ops), token) {
      KeptRun(Pop(ops), token);
      var k := Kept(ops, token);
      forall i | k <= i < |ops| ensures Outranks(ops[i], token) {
        if i < |ops| - 1 {
          assert ops[i] == Pop(ops)[i];
        }
      }
      if k > 0 {
        assert ops[k - 1] == Pop(ops)[k - 1];
      }
    }
  }

  /** The pop loop stops where `Kept` says, and it fails exactly when the
      lookup at that point fails: a stack entry or the token itself is not
      in the table. */
  lemma {:induction false} PopOutrankingStops(st: Conv, token: Token)
    ensures PopOutranking(st, token).Err? <==>
              var k := Kept(st.ops, token);
              k > 0 && (Rank(st.ops[k - 1]).None? || Rank(token).None?)
    ensures PopOutranking(st, token).Ok? ==> |PopOutranking(st, token).value.ops| == Kept(st.ops, token)
    decreases |st.ops|
  {
    if st.ops != [] && Outranks(Top(st.ops), token) {
      var next := Conv(st.output + [Top(st.ops)], Pop(st.ops));
      assert PopOutranking(st, token) == PopOutranking(next, token);
      assert Kept(st.ops, token) == Kept(next.ops, token);
      PopOutrankingStops(next, token);
      var k := Kept(next.ops, token);
      if k > 0 {
        assert st.ops[k - 1] == next.ops[k - 1];
      }
    }
  }

  /** The pop loop of lines 54-55: move the top to the output until `(` is
      on top or the stack is empty. */
  function PopToOpen(st: Conv): (r: Conv)
    ensures r.ops <= st.ops
    ensures r.ops == [] || Top(r.ops) == Open
    decreases |st.ops|
  {
    if st.ops == [] || Top(st.ops) == Open then st
    else PopToOpen(Conv(st.output + [Top(st.ops)], Pop(st.ops)))
  }

  /** `PopToOpen` stops at the topmost `(`: what it moves holds no `(`, and
      reaches the output top first. */
  lemma {:induction false} PopToOpenMoves(st: Conv)
    ensures var r := PopToOpen(st);
            && r.output == st.output + Reverse(st.ops[|r.ops|..])
            && Open !in st.ops[|r.ops|..]
    decreases |st.ops|
  {
    if st.ops != [] && Top(st.ops) != Open {
      var next := Conv(st.output + [Top(st.ops)], Pop(st.ops));
      assert PopToOpen(st) == PopToOpen(next);
      PopToOpenMoves(next);
      var k := |PopToOpen(next).ops|;
      assert Pop(st.ops[k..]) == next.ops[k..];
      assert Top(st.ops[k..]) == Top(st.ops);
      assert st.ops[k..] == next.ops[k..] + [Top(st.ops)];
    }
  }

  /** One iteration of the token loop (lines 49-62).  The tests of lines 50,
      52 and 54 are the constructors of `Token`. */
  function Step(st: Conv, token: Token): (r: Result<Conv>)
    ensures r.Err? && token == Close ==> r.error == MismatchedParentheses
    ensures r.Err? && token != Close ==> r.error == UnknownOperator
  {
    match token
    case Operand(_) => Ok(Conv(st.output + [token], st.ops))
    case Open => Ok(Conv(st.output, st.ops + [Open]))
    case Close =>
      var st' := PopToOpen(st);
      if st'.ops == [] then Err(MismatchedParentheses)
      else Ok(Conv(st'.output, Pop(st'.ops)))
    case Operator(_) =>
      var st' :- PopOutranking(st, token);
      Ok(Conv(st'.output, st'.ops + [token]))
  }

  /** A `)` fails exactly when there is no `(` on the stack. */
  lemma CloseFails(st: Conv)
    ensures Step(st, Close).Err? <==> Open !in st.ops
  {
    PopToOpenMoves(st);
    var r := PopToOpen(st);
    assert st.ops == r.ops + st.ops[|r.ops|..];
    if r.ops != [] {
      assert r.ops[|r.ops| - 1] == Open;
    }
  }

  /** The token loop over `tokens`, started from `st`. */
  function Run(tokens: seq<Token>, st: Conv): Result<Conv>
    decreases |tokens|
  {
    if tokens == [] then Ok(st)
    else
      var mid :- Run(Pop(tokens), st);
      Step(mid, Top(tokens))
  }

  /** The final flush of lines 64-67: a `(` still on the stack is an error;
      otherwise the stack is emptied onto the output, top first. */
  function Drain(st: Conv): (r: Result<seq<Token>>)
    ensures r.Ok? <==> Open !in st.ops
    ensures r.Ok? ==> r.value == st.output + Reverse(st.ops)
    ensures r.Err? ==> r.error == MismatchedParentheses
    decreases |st.ops|
  {
    if st.ops == [] then Ok(st.output)
    else if Top(st.ops) == Open then Err(MismatchedParentheses)
    else
      Drain(Conv(st.output + [Top(st.ops)], Pop(st.ops)))
  }

  /** `infix_to_postfix` on an already split and classified token sequence. */
  function ConvertTokens(tokens: seq<Token>): Result<seq<Token>> {
    var st :- Run(tokens, Start);
    Drain(st)
  }

  /** `infix_to_postfix(expression)`: split on whitespace, then convert. */
  function InfixToPostfix(expression: string): Result<seq<Token>> {
    ConvertTokens(Tokenize(expression))
  }
}
