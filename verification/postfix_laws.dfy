/** What `infix_to_postfix` guarantees (ThreeAdressCode.py:42-69), for every
    token sequence and, in the second half, for sequences built from
    operands, parentheses and the four arithmetic operators only. */
module PostfixLaws {
  import opened Errors
  import opened Lists
  import opened Tokens
  import opened Precedence
  import opened Postfix

  // ---------------------------------------------------------------------
  // The shapes of `Step`, one lemma each, so that the proofs below do not
  // unfold every branch of `Step` and the pop loops at once.

  lemma StepOnOperand(st: Conv, token: Token)
    requires token.Operand?
    ensures Step(st, token) == Ok(Conv(st.output + [token], st.ops))
  {
  }

  lemma StepOnOpen(st: Conv)
    ensures Step(st, Open) == Ok(Conv(st.output, st.ops + [Open]))
  {
  }

  /** A `)` moves everything above the topmost `(` to the output, top
      first, and drops that `(`; without a `(` it fails. */
  lemma StepOnClose(st: Conv)
    ensures Step(st, Close).Ok? <==> Open in st.ops
    ensures Step(st, Close).Err? ==> Step(st, Close).error == MismatchedParentheses
    ensures Step(st, Close).Ok? ==>
              var n := |PopToOpen(st).ops|;
              && n > 0 && st.ops[n - 1] == Open
              && Open !in st.ops[n..]
              && Step(st, Close).value == Conv(st.output + Reverse(st.ops[n..]), st.ops[..n - 1])
  {
    CloseFails(st);
    PopToOpenMoves(st);
    var p := PopToOpen(st);
    if p.ops != [] {
      var n := |p.ops|;
      assert p.ops == st.ops[..n];
      assert Pop(p.ops) == st.ops[..n - 1];
    }
  }

  /** An operator pops the run of entries that outrank it (`Kept` says how
      far down), then goes on the stack. */
  lemma StepOnOperator(st: Conv, token: Token)
    requires token.Operator?
    ensures Step(st, token).Err? <==> PopOutranking(st, token).Err?
    ensures Step(st, token).Ok? ==>
              var n := Kept(st.ops, token);
              Step(st, token).value == Conv(st.output + Reverse(st.ops[n..]), st.ops[..n] + [token])
  {
    PopOutrankingStops(st, token);
    PopOutrankingMoves(st, token);
    if PopOutranking(st, token).Ok? {
      var p := PopOutranking(st, token).value;
      assert p.ops == st.ops[..|p.ops|];
    }
  }

  // ---------------------------------------------------------------------
  // Operands keep their order; `)` is never emitted

  /** No operand and no `)` ever sits on the operator stack, and no `)`
      ever reaches the output. */
  predicate Clean(st: Conv) {
    && (forall i :: 0 <= i < |st.ops| ==> !st.ops[i].Operand? && st.ops[i] != Close)
    && Close !in st.output
  }

  /** Moving the part of a clean stack above position `n` to the output
      adds no operand and no `)`. */
  lemma MoveClean(output: seq<Token>, ops: seq<Token>, n: nat)
    requires n <= |ops|
    requires forall i :: 0 <= i < |ops| ==> !ops[i].Operand? && ops[i] != Close
    requires Close !in output
    ensures Operands(output + Reverse(ops[n..])) == Operands(output)
    ensures Close !in output + Reverse(ops[n..])
  {
    var moved := ops[n..];
    assert forall i :: 0 <= i < |moved| ==> moved[i] == ops[n + i];
    FilterAppend(output, Reverse(moved), IsOperandToken);
    FilterReverseNone(moved, IsOperandToken);
    assert Operands(output) + [] == Operands(output);
  }

  lemma ShrinkClean(ops: seq<Token>, n: nat)
    requires n <= |ops|
    requires forall i :: 0 <= i < |ops| ==> !ops[i].Operand? && ops[i] != Close
    ensures forall i :: 0 <= i < n ==> !ops[..n][i].Operand? && ops[..n][i] != Close
  {
  }

  lemma PushClean(ops: seq<Token>, token: Token)
    requires forall i :: 0 <= i < |ops| ==> !ops[i].Operand? && ops[i] != Close
    requires !token.Operand? && token != Close
    ensures forall i :: 0 <= i < |ops + [token]| ==> !(ops + [token])[i].Operand? && (ops + [token])[i] != Close
  {
  }

  lemma StepClean(st: Conv, token: Token)
    requires Clean(st)
    ensures Step(st, token).Ok? ==>
              && Clean(Step(st, token).value)
              && Operands(Step(st, token).value.output) == Operands(st.output) + Operands([token])
  {
    FilterOne(token, IsOperandToken);
    if Step(st, token).Ok? {
      match token {
        case Operand(_) =>
          StepOnOperand(st, token);
          FilterAppend(st.output, [token], IsOperandToken);
        case Open =>
          StepOnOpen(st);
          PushClean(st.ops, Open);
        case Close =>
          StepOnClose(st);
          var n := |PopToOpen(st).ops|;
          MoveClean(st.output, st.ops, n);
          ShrinkClean(st.ops, n - 1);
        case Operator(_) =>
          StepOnOperator(st, token);
          var n := Kept(st.ops, token);
          MoveClean(st.output, st.ops, n);
          ShrinkClean(st.ops, n);
          PushClean(st.ops[..n], token);
      }
    }
  }

  lemma {:induction false} RunClean(tokens: seq<Token>, st: Conv)
    requires Clean(st)
    ensures Run(tokens, st).Ok? ==>
              && Clean(Run(tokens, st).value)
              && Operands(Run(tokens, st).value.output) == Operands(st.output) + Operands(tokens)
    decreases |tokens|
  {
    if tokens != [] && Run(tokens, st).Ok? {
      var mid := Run(Pop(tokens), st).value;
      RunClean(Pop(tokens), st);
      StepClean(mid, Top(tokens));
      assert Operands(tokens) == Operands(Pop(tokens)) + Operands([Top(tokens)]) by {
        FilterOne(Top(tokens), IsOperandToken);
      }
    }
  }

  /** A successful conversion emits every operand of the input exactly once
      and in input order, and never emits `)`. */
  lemma OperandsInOrder(tokens: seq<Token>)
    ensures ConvertTokens(tokens).Ok? ==>
              && Operands(ConvertTokens(tokens).value) == Operands(tokens)
              && Close !in ConvertTokens(tokens).value
  {
    RunClean(tokens, Start);
    if Run(tokens, Start).Ok? {
      var st := Run(tokens, Start).value;
      MoveClean(st.output, st.ops, 0);
      assert st.ops[0..] == st.ops;
    }
  }

  // ---------------------------------------------------------------------
  // The operator stack is ordered by strictly increasing rank

  /** `a` ranks strictly below `b`, both lookups succeeding. */
  predicate Below(a: Token, b: Token) {
    Rank(a).Some? && Rank(b).Some? && Rank(a).value < Rank(b).value
  }

  /** Every entry other than `(` ranks strictly above the entry directly
      below it: equal-or-higher ranks are always popped before a push,
      which is what makes equal ranks associate to the left and `*`, `/`
      bind tighter. */
  predicate Ordered(ops: seq<Token>) {
    forall i :: 0 < i < |ops| && ops[i] != Open ==> Below(ops[i - 1], ops[i])
  }

  lemma OrderedPrefix(ops: seq<Token>, n: nat)
    requires Ordered(ops) && n <= |ops|
    ensures Ordered(ops[..n])
  {
    forall i | 0 < i < n && ops[..n][i] != Open ensures Below(ops[..n][i - 1], ops[..n][i]) {
      assert ops[..n][i] == ops[i] && ops[..n][i - 1] == ops[i - 1];
    }
  }

  lemma OrderedPush(ops: seq<Token>, token: Token)
    requires Ordered(ops)
    requires token == Open || ops == [] || Below(Top(ops), token)
    ensures Ordered(ops + [token])
  {
    var ops' := ops + [token];
    forall i | 0 < i < |ops'| && ops'[i] != Open ensures Below(ops'[i - 1], ops'[i]) {
      if i < |ops| {
        assert ops'[i] == ops[i] && ops'[i - 1] == ops[i - 1];
      }
    }
  }

  /** Where the pop loop stops, the entry left on top ranks below the token. */
  lemma StopsBelow(st: Conv, token: Token)
    requires PopOutranking(st, token).Ok?
    ensures var n := Kept(st.ops, token);
            n > 0 ==> Below(st.ops[n - 1], token)
  {
    PopOutrankingStops(st, token);
    KeptRun(st.ops, token);
  }

  lemma StepOrdered(st: Conv, token: Token)
    requires Ordered(st.ops)
    ensures Step(st, token).Ok? ==> Ordered(Step(st, token).value.ops)
  {
    if Step(st, token).Ok? {
      match token {
        case Operand(_) =>
          StepOnOperand(st, token);
        case Open =>
          StepOnOpen(st);
          OrderedPush(st.ops, Open);
        case Close =>
          StepOnClose(st);
          OrderedPrefix(st.ops, |PopToOpen(st).ops| - 1);
        case Operator(_) =>
          StepOnOperator(st, token);
          var n := Kept(st.ops, token);
          StopsBelow(st, token);
          OrderedPrefix(st.ops, n);
          if n > 0 {
            assert Top(st.ops[..n]) == st.ops[n - 1];
          }
          OrderedPush(st.ops[..n], token);
      }
    }
  }

  lemma {:induction false} RunOrdered(tokens: seq<Token>)
    ensures Run(tokens, Start).Ok? ==> Ordered(Run(tokens, Start).value.ops)
    decreases |tokens|
  {
    if tokens != [] && Run(tokens, Start).Ok? {
      RunOrdered(Pop(tokens));
      StepOrdered(Run(Pop(tokens), Start).value, Top(tokens));
    }
  }

  /** On any stack the converter builds, `=` and symbols outside the table
      can only sit at the bottom: pushing them pops everything else. */
  lemma LowRankAtBottom(tokens: seq<Token>)
    ensures Run(tokens, Start).Ok? ==>
              var ops := Run(tokens, Start).value.ops;
              forall i :: 0 < i < |ops| ==> ops[i] != Operator(Assign) && Rank(ops[i]).Some?
  {
    RunOrdered(tokens);
    if Run(tokens, Start).Ok? {
      var ops := Run(tokens, Start).value.ops;
      forall i | 0 < i < |ops| ensures ops[i] != Operator(Assign) && Rank(ops[i]).Some? {
        if ops[i] != Open {
          assert Below(ops[i - 1], ops[i]);
          LowestRank(ops[i - 1]);
        }
      }
    }
  }

  // ---------------------------------------------------------------------
  // Operands, parentheses and + - * / only

  predicate IsParen(t: Token) {
    t == Open || t == Close
  }

  predicate NotParen(t: Token) {
    !IsParen(t)
  }

  predicate ArithmeticToken(t: Token) {
    t.Operand? || IsParen(t) || IsArithmetic(t)
  }

  predicate ArithmeticTokens(tokens: seq<Token>) {
    forall i :: 0 <= i < |tokens| ==> ArithmeticToken(tokens[i])
  }

  /** The tokens with every parenthesis removed. */
  function Unparenthesized(tokens: seq<Token>): seq<Token> {
    Filter(tokens, NotParen)
  }

  predicate IsOpen(t: Token) {
    t == Open
  }

  /** The number of `(` in `tokens`. */
  function Opens(tokens: seq<Token>): nat {
    |Filter(tokens, IsOpen)|
  }

  /** Number of `(` minus number of `)`. */
  function Depth(tokens: seq<Token>): int {
    if tokens == [] then 0
    else Depth(Pop(tokens)) + (if Top(tokens) == Open then 1 else if Top(tokens) == Close then -1 else 0)
  }

  /** No prefix closes more parentheses than it opens. */
  predicate NeverNegative(tokens: seq<Token>) {
    forall k :: 0 <= k <= |tokens| ==> Depth(tokens[..k]) >= 0
  }

  predicate Balanced(tokens: seq<Token>) {
    NeverNegative(tokens) && Depth(tokens) == 0
  }

  /** A stack holding only `(` and the four operators. */
  predicate ArithmeticStack(ops: seq<Token>) {
    forall i :: 0 <= i < |ops| ==> ops[i] == Open || IsArithmetic(ops[i])
  }

  /** Every non-parenthesis token seen so far is either in the output or on
      the stack. */
  predicate Conserved(st: Conv, seen: seq<Token>) {
    multiset(st.output) + multiset(Unparenthesized(st.ops)) == multiset(Unparenthesized(seen))
  }

  /** What the converter state holds after an arithmetic prefix `seen`:
      only `(` and operators on the stack, one `(` per open parenthesis,
      no parenthesis in the output, and every non-parenthesis token of
      `seen` either in the output or on the stack. */
  predicate ArithmeticState(st: Conv, seen: seq<Token>) {
    && ArithmeticStack(st.ops)
    && Opens(st.ops) == Depth(seen)
    && Open !in st.output && Close !in st.output
    && Conserved(st, seen)
  }

  lemma NeverNegativePrefix(tokens: seq<Token>)
    requires tokens != []
    ensures NeverNegative(tokens) <==> NeverNegative(Pop(tokens)) && Depth(tokens) >= 0
  {
    assert tokens[..|tokens|] == tokens;
    if NeverNegative(Pop(tokens)) && Depth(tokens) >= 0 {
      forall k | 0 <= k <= |tokens| ensures Depth(tokens[..k]) >= 0 {
        if k < |tokens| {
          assert tokens[..k] == Pop(tokens)[..k];
        }
      }
    }
    if NeverNegative(tokens) {
      forall k | 0 <= k <= |Pop(tokens)| ensures Depth(Pop(tokens)[..k]) >= 0 {
        assert tokens[..k] == Pop(tokens)[..k];
      }
    }
  }

  /** Moving `moved` from the top of a stack to the output, top first,
      keeps the combined contents. */
  lemma MultisetMove<T>(output: seq<T>, kept: seq<T>, moved: seq<T>)
    ensures multiset(output + Reverse(moved)) + multiset(kept)
            == multiset(output) + multiset(kept + moved)
  {
    ReverseMultiset(moved);
  }

  /** The operators (no parentheses) above position `n` of a stack: the
      stack below them has the same `(` and the same non-parentheses, less
      them. */
  lemma SplitOperators(ops: seq<Token>, n: nat)
    requires n <= |ops|
    requires forall i :: n <= i < |ops| ==> IsArithmetic(ops[i])
    ensures Unparenthesized(ops) == Unparenthesized(ops[..n]) + ops[n..]
    ensures Opens(ops[..n]) == Opens(ops)
    ensures Open !in Reverse(ops[n..]) && Close !in Reverse(ops[n..])
  {
    var moved := ops[n..];
    SlicedOperators(ops, n);
    assert ops[..n] + moved == ops;
    FilterAppend(ops[..n], moved, NotParen);
    FilterAll(moved, NotParen);
    FilterAppend(ops[..n], moved, IsOpen);
    FilterNone(moved, IsOpen);
    NoParenReversed(moved);
  }

  lemma SlicedOperators(ops: seq<Token>, n: nat)
    requires n <= |ops|
    requires forall i :: n <= i < |ops| ==> IsArithmetic(ops[i])
    ensures forall i :: 0 <= i < |ops[n..]| ==> IsArithmetic(ops[n..][i])
  {
    forall i | 0 <= i < |ops[n..]| ensures IsArithmetic(ops[n..][i]) {
      assert ops[n..][i] == ops[n + i];
    }
  }

  lemma NoParenReversed(moved: seq<Token>)
    requires forall i :: 0 <= i < |moved| ==> IsArithmetic(moved[i])
    ensures Open !in Reverse(moved) && Close !in Reverse(moved)
  {
    var r := Reverse(moved);
    assert forall i :: 0 <= i < |r| ==> IsArithmetic(r[i]);
  }

  /** Moving the operators above position `n` to the output keeps the
      contents and the `(` count. */
  lemma MoveOperators(st: Conv, seen: seq<Token>, n: nat)
    requires n <= |st.ops|
    requires forall i :: n <= i < |st.ops| ==> IsArithmetic(st.ops[i])
    requires Conserved(st, seen)
    requires Open !in st.output && Close !in st.output
    ensures Conserved(Conv(st.output + Reverse(st.ops[n..]), st.ops[..n]), seen)
    ensures Opens(st.ops[..n]) == Opens(st.ops)
    ensures var out := st.output + Reverse(st.ops[n..]); Open !in out && Close !in out
  {
    SplitOperators(st.ops, n);
    MultisetMove(st.output, Unparenthesized(st.ops[..n]), st.ops[n..]);
  }

  /** Depth and contents after one more token. */
  lemma SeenOneMore(seen: seq<Token>, token: Token)
    ensures Depth(seen + [token]) ==
              Depth(seen) + (if token == Open then 1 else if token == Close then -1 else 0)
    ensures Unparenthesized(seen + [token]) ==
              Unparenthesized(seen) + (if NotParen(token) then [token] else [])
  {
    var seen' := seen + [token];
    assert Pop(seen') == seen && Top(seen') == token;
    FilterAppend(seen, [token], NotParen);
    FilterOne(token, NotParen);
  }

  /** One step from an arithmetic state: only a `)` with no `(` to match
      can fail, and the state is kept. */
  lemma StepArithmetic(st: Conv, seen: seq<Token>, token: Token)
    requires ArithmeticState(st, seen)
    requires ArithmeticToken(token)
    ensures Step(st, token).Ok? <==> Depth(seen + [token]) >= 0
    ensures Step(st, token).Ok? ==> ArithmeticState(Step(st, token).value, seen + [token])
    ensures Step(st, token).Err? ==> Step(st, token).error == MismatchedParentheses
  {
    match token {
      case Operand(_) => StepArithmeticOperand(st, seen, token);
      case Open => StepArithmeticOpen(st, seen);
      case Close => StepArithmeticClose(st, seen);
      case Operator(_) => StepArithmeticOperator(st, seen, token);
    }
  }

  lemma StepArithmeticOperand(st: Conv, seen: seq<Token>, token: Token)
    requires ArithmeticState(st, seen)
    requires token.Operand?
    ensures Depth(seen + [token]) >= 0
    ensures Step(st, token).Ok? && ArithmeticState(Step(st, token).value, seen + [token])
  {
    SeenOneMore(seen, token);
    StepOnOperand(st, token);
    OperandArithmetic(st, seen, token);
  }

  lemma StepArithmeticOpen(st: Conv, seen: seq<Token>)
    requires ArithmeticState(st, seen)
    ensures Depth(seen + [Open]) >= 0
    ensures Step(st, Open).Ok? && ArithmeticState(Step(st, Open).value, seen + [Open])
  {
    SeenOneMore(seen, Open);
    StepOnOpen(st);
    OpenArithmetic(st, seen);
  }

  lemma StepArithmeticClose(st: Conv, seen: seq<Token>)
    requires ArithmeticState(st, seen)
    ensures Step(st, Close).Ok? <==> Depth(seen + [Close]) >= 0
    ensures Step(st, Close).Ok? ==> ArithmeticState(Step(st, Close).value, seen + [Close])
    ensures Step(st, Close).Err? ==> Step(st, Close).error == MismatchedParentheses
  {
    SeenOneMore(seen, Close);
    StepOnClose(st);
    CloseArithmetic(st, seen);
  }

  lemma StepArithmeticOperator(st: Conv, seen: seq<Token>, token: Token)
    requires ArithmeticState(st, seen)
    requires IsArithmetic(token)
    ensures Depth(seen + [token]) >= 0
    ensures Step(st, token).Ok? && ArithmeticState(Step(st, token).value, seen + [token])
  {
    SeenOneMore(seen, token);
    StepOnOperator(st, token);
    StackRanked(st.ops);
    ArithmeticRank(token);
    PopOutrankingSucceeds(st, token);
    OperatorArithmetic(st, seen, token);
  }

  lemma OperandArithmetic(st: Conv, seen: seq<Token>, token: Token)
    requires ArithmeticState(st, seen)
    requires token.Operand?
    requires Unparenthesized(seen + [token]) == Unparenthesized(seen) + [token]
    requires Depth(seen + [token]) == Depth(seen)
    ensures ArithmeticState(Conv(st.output + [token], st.ops), seen + [token])
  {
    assert multiset(st.output + [token]) == multiset(st.output) + multiset{token};
  }

  /** Pushing `(` adds one to the count and nothing to the contents. */
  lemma PushOpen(ops: seq<Token>)
    requires ArithmeticStack(ops)
    ensures ArithmeticStack(ops + [Open])
    ensures Opens(ops + [Open]) == Opens(ops) + 1
    ensures Unparenthesized(ops + [Open]) == Unparenthesized(ops)
  {
    assert forall i :: 0 <= i < |ops| ==> (ops + [Open])[i] == ops[i];
    FilterAppend(ops, [Open], NotParen);
    FilterOne(Open, NotParen);
    FilterAppend(ops, [Open], IsOpen);
    FilterOne(Open, IsOpen);
  }

  lemma OpenArithmetic(st: Conv, seen: seq<Token>)
    requires ArithmeticState(st, seen)
    requires Unparenthesized(seen + [Open]) == Unparenthesized(seen)
    requires Depth(seen + [Open]) == Depth(seen) + 1
    ensures ArithmeticState(Conv(st.output, st.ops + [Open]), seen + [Open])
  {
    PushOpen(st.ops);
  }

  /** The state after a `)`: the operators above the topmost `(` are
      moved, and the `(` is dropped. */
  lemma CloseArithmetic(st: Conv, seen: seq<Token>)
    requires ArithmeticState(st, seen)
    requires Unparenthesized(seen + [Close]) == Unparenthesized(seen)
    requires Depth(seen + [Close]) == Depth(seen) - 1
    requires Step(st, Close).Ok? <==> Open in st.ops
    requires Step(st, Close).Ok? ==>
               var n := |PopToOpen(st).ops|;
               && n > 0 && st.ops[n - 1] == Open
               && Open !in st.ops[n..]
               && Step(st, Close).value == Conv(st.output + Reverse(st.ops[n..]), st.ops[..n - 1])
    ensures Step(st, Close).Ok? <==> Depth(seen + [Close]) >= 0
    ensures Step(st, Close).Ok? ==> ArithmeticState(Step(st, Close).value, seen + [Close])
  {
    OpensCount(st.ops);
    if Step(st, Close).Ok? {
      var n := |PopToOpen(st).ops|;
      MovedAreOperators(st.ops, n);
      MoveOperators(st, seen, n);
      DropOpen(st.ops[..n]);
      assert Pop(st.ops[..n]) == st.ops[..n - 1];
    }
  }

  /** A stack holds a `(` exactly when its count is positive. */
  lemma OpensCount(ops: seq<Token>)
    ensures Open in ops <==> Opens(ops) > 0
  {
    if Open in ops {
      var i :| 0 <= i < |ops| && ops[i] == Open;
      assert ops == ops[..i] + [Open] + ops[i + 1..];
      FilterAppend(ops[..i] + [Open], ops[i + 1..], IsOpen);
      FilterAppend(ops[..i], [Open], IsOpen);
      FilterOne(Open, IsOpen);
    } else {
      FilterNone(ops, IsOpen);
    }
  }

  lemma MovedAreOperators(ops: seq<Token>, n: nat)
    requires ArithmeticStack(ops)
    requires n <= |ops| && Open !in ops[n..]
    ensures forall i :: n <= i < |ops| ==> IsArithmetic(ops[i])
  {
    forall i | n <= i < |ops| ensures IsArithmetic(ops[i]) {
      assert ops[i] == ops[n..][i - n];
    }
  }

  /** Dropping the `(` on top of a stack of `(` and operators. */
  lemma DropOpen(ops: seq<Token>)
    requires ArithmeticStack(ops)
    requires ops != [] && Top(ops) == Open
    ensures ArithmeticStack(Pop(ops))
    ensures Opens(Pop(ops)) == Opens(ops) - 1
    ensures Unparenthesized(Pop(ops)) == Unparenthesized(ops)
  {
    var rest := Pop(ops);
    assert forall i :: 0 <= i < |rest| ==> rest[i] == ops[i];
    FilterOne(Open, NotParen);
    FilterOne(Open, IsOpen);
  }

  /** Every lookup on a stack of `(` and operators succeeds. */
  lemma {:induction false} PopOutrankingSucceeds(st: Conv, token: Token)
    requires Rank(token).Some?
    requires forall i :: 0 <= i < |st.ops| ==> Rank(st.ops[i]).Some?
    ensures PopOutranking(st, token).Ok?
    decreases |st.ops|
  {
    if st.ops != [] && Outranks(Top(st.ops), token) {
      var next := Conv(st.output + [Top(st.ops)], Pop(st.ops));
      assert PopOutranking(st, token) == PopOutranking(next, token);
      assert forall i :: 0 <= i < |next.ops| ==> next.ops[i] == st.ops[i];
      PopOutrankingSucceeds(next, token);
    }
  }

  /** What an arithmetic operator pops is operators, never `(`: `(` has
      rank 0, below all four. */
  lemma PoppedAreOperators(ops: seq<Token>, token: Token)
    requires ArithmeticStack(ops)
    requires IsArithmetic(token)
    ensures forall i :: Kept(ops, token) <= i < |ops| ==> IsArithmetic(ops[i])
  {
    KeptRun(ops, token);
    ArithmeticRank(token);
  }

  lemma PushOperator(ops: seq<Token>, token: Token)
    requires ArithmeticStack(ops)
    requires IsArithmetic(token)
    ensures ArithmeticStack(ops + [token])
    ensures Opens(ops + [token]) == Opens(ops)
    ensures Unparenthesized(ops + [token]) == Unparenthesized(ops) + [token]
  {
    assert forall i :: 0 <= i < |ops| ==> (ops + [token])[i] == ops[i];
    FilterAppend(ops, [token], NotParen);
    FilterOne(token, NotParen);
    FilterAppend(ops, [token], IsOpen);
    FilterOne(token, IsOpen);
  }

  /** A stack of `(` and operators is ranked throughout. */
  lemma StackRanked(ops: seq<Token>)
    requires ArithmeticStack(ops)
    ensures forall i :: 0 <= i < |ops| ==> Rank(ops[i]).Some?
  {
    forall i | 0 <= i < |ops| ensures Rank(ops[i]).Some? {
      if ops[i] != Open {
        ArithmeticRank(ops[i]);
      }
    }
  }

  lemma PrefixStack(ops: seq<Token>, n: nat)
    requires ArithmeticStack(ops) && n <= |ops|
    ensures ArithmeticStack(ops[..n])
  {
    assert forall i :: 0 <= i < n ==> ops[..n][i] == ops[i];
  }

  /** An arithmetic operator moves the operators that outrank it and takes
      their place on the stack. */
  lemma OperatorArithmetic(st: Conv, seen: seq<Token>, token: Token)
    requires ArithmeticState(st, seen)
    requires IsArithmetic(token)
    requires Unparenthesized(seen + [token]) == Unparenthesized(seen) + [token]
    requires Depth(seen + [token]) == Depth(seen)
    ensures var n := Kept(st.ops, token);
            ArithmeticState(Conv(st.output + Reverse(st.ops[n..]), st.ops[..n] + [token]), seen + [token])
  {
    var n := Kept(st.ops, token);
    PoppedAreOperators(st.ops, token);
    MoveOperators(st, seen, n);
    PrefixStack(st.ops, n);
    PushOperator(st.ops[..n], token);
    var out := st.output + Reverse(st.ops[n..]);
    var kept := Unparenthesized(st.ops[..n]);
    assert multiset(kept + [token]) == multiset(kept) + multiset{token};
    assert multiset(Unparenthesized(seen) + [token]) == multiset(Unparenthesized(seen)) + multiset{token};
  }

  lemma {:induction false} RunArithmetic(tokens: seq<Token>)
    requires ArithmeticTokens(tokens)
    ensures Run(tokens, Start).Ok? <==> NeverNegative(tokens)
    ensures Run(tokens, Start).Ok? ==> ArithmeticState(Run(tokens, Start).value, tokens)
    ensures Run(tokens, Start).Err? ==> Run(tokens, Start).error == MismatchedParentheses
    decreases |tokens|
  {
    if tokens == [] {
      assert tokens[..0] == [];
    } else {
      var prefix := Pop(tokens);
      assert tokens == prefix + [Top(tokens)];
      RunArithmetic(prefix);
      NeverNegativePrefix(tokens);
      if Run(prefix, Start).Ok? {
        StepArithmetic(Run(prefix, Start).value, prefix, Top(tokens));
      }
    }
  }

  /** For operands, parentheses and `+ - * /`, conversion succeeds exactly
      when the parentheses are balanced (otherwise it reports mismatched
      parentheses), and then the output is the input with the parentheses
      removed, reordered: `(` is never popped by these operators, since its
      rank 0 is below all of theirs. */
  lemma ArithmeticConversion(tokens: seq<Token>)
    requires ArithmeticTokens(tokens)
    ensures ConvertTokens(tokens).Ok? <==> Balanced(tokens)
    ensures ConvertTokens(tokens).Err? ==> ConvertTokens(tokens).error == MismatchedParentheses
    ensures ConvertTokens(tokens).Ok? ==>
              && multiset(ConvertTokens(tokens).value) == multiset(Unparenthesized(tokens))
              && Open !in ConvertTokens(tokens).value
              && Close !in ConvertTokens(tokens).value
  {
    RunArithmetic(tokens);
    if Run(tokens, Start).Ok? {
      var st := Run(tokens, Start).value;
      OpensCount(st.ops);
      if Open !in st.ops {
        MovedAreOperators(st.ops, 0);
        assert st.ops[0..] == st.ops;
        MoveOperators(st, tokens, 0);
        FilterNone(st.ops[..0], NotParen);
      }
    }
  }
}
