/** The fixed precedence table of the converter (ThreeAdressCode.py:44).
    Python's `precedence[symbol]` raises `KeyError` on any symbol outside the
    table; `Rank` is the same table on classified tokens, with `None` where
    the lookup fails, and `RankIsTableLookup` shows the two agree. */
module Precedence {
  import opened Errors
  import opened Text
  import opened Tokens

  const Table: map<string, int> :=
    map["+" := 1, "-" := 1, "*" := 2, "/" := 2, "(" := 0, "=" := -1]

  function Rank(t: Token): Option<int> {
    match t
    case Open => Some(0)
    case Operator(Plus) => Some(1)
    case Operator(Minus) => Some(1)
    case Operator(Times) => Some(2)
    case Operator(Divide) => Some(2)
    case Operator(Assign) => Some(-1)
    case _ => None
  }

  /** `=` has the lowest rank in the table. */
  lemma LowestRank(t: Token)
    requires Rank(t).Some?
    ensures Rank(t).value >= Rank(Operator(Assign)).value
  {
  }

  /** The four arithmetic operators rank above `(`. */
  lemma ArithmeticRank(t: Token)
    requires IsArithmetic(t)
    ensures Rank(t).Some? && Rank(t).value >= 1
  {
  }

  /** `precedence[a] >= precedence[b]` with both lookups succeeding. */
  predicate Outranks(a: Token, b: Token) {
    Rank(a).Some? && Rank(b).Some? && Rank(a).value >= Rank(b).value
  }

  lemma TableKeys(s: string)
    requires s in Table
    ensures s in ["+", "-", "*", "/", "(", "="]
    ensures !IsOperand(s)
  {
    assert !IsAlnum(s[0]);
  }

  /** Looking a token up by rank is looking its text up in the table. */
  lemma RankIsTableLookup(t: Token)
    requires WellFormed(t)
    ensures Rank(t).Some? <==> Spell(t) in Table
    ensures Rank(t).Some? ==> Rank(t).value == Table[Spell(t)]
  {
    if Spell(t) in Table {
      TableKeys(Spell(t));
    }
  }
}
