/** The tokens the converter and the emitter distinguish.

    Both loops of the original test every token the same way: first
    `token.isalnum()`, then `token == '('`, `token == ')'`, and otherwise
    treat it as an operator whose precedence is looked up in the table at
    ThreeAdressCode.py:44 (the emitter further singles out `'='`).  `Classify`
    performs exactly these tests once; `Spell` gives the token's text back,
    and the two are inverse to each other (`SpellClassify`, `ClassifySpell`),
    so working on classified tokens loses nothing.
 */
module Tokens {
  import opened Text
  import opened Lists

  /** A symbol that is neither an operand nor a parenthesis. */
  datatype Symbol = Plus | Minus | Times | Divide | Assign | Unknown(text: string)

  datatype Token = Operand(name: string) | Open | Close | Operator(symbol: Symbol)

  function SymbolText(s: Symbol): string {
    match s
    case Plus => "+"
    case Minus => "-"
    case Times => "*"
    case Divide => "/"
    case Assign => "="
    case Unknown(text) => text
  }

  /** The text of a token, as it appears in the input and in the TAC. */
  function Spell(t: Token): string {
    match t
    case Operand(name) => name
    case Open => "("
    case Close => ")"
    case Operator(s) => SymbolText(s)
  }

  /** The tests of ThreeAdressCode.py:49-59 (and :20-29 in the emitter),
      applied to one whitespace-free word. */
  function Classify(word: string): Token {
    if IsOperand(word) then Operand(word)
    else if word == "(" then Open
    else if word == ")" then Close
    else if word == "+" then Operator(Plus)
    else if word == "-" then Operator(Minus)
    else if word == "*" then Operator(Times)
    else if word == "/" then Operator(Divide)
    else if word == "=" then Operator(Assign)
    else Operator(Unknown(word))
  }

  /** A token that `Classify` can produce. */
  predicate WellFormed(t: Token) {
    match t
    case Operand(name) => IsOperand(name)
    case Operator(Unknown(text)) =>
      !IsOperand(text) && text !in ["(", ")", "+", "-", "*", "/", "="]
    case _ => true
  }

  /** `input.split()`, each word classified. */
  function Tokenize(expression: string): seq<Token> {
    ClassifyAll(Split(expression))
  }

  function ClassifyAll(words: seq<string>): (tokens: seq<Token>)
    ensures |tokens| == |words|
    ensures forall i :: 0 <= i < |words| ==> tokens[i] == Classify(words[i])
  {
    if words == [] then [] else [Classify(words[0])] + ClassifyAll(words[1..])
  }

  function SpellAll(tokens: seq<Token>): (words: seq<string>)
    ensures |words| == |tokens|
    ensures forall i :: 0 <= i < |tokens| ==> words[i] == Spell(tokens[i])
  {
    if tokens == [] then [] else [Spell(tokens[0])] + SpellAll(tokens[1..])
  }

  predicate IsOperandToken(t: Token) {
    t.Operand?
  }

  /** The operand tokens of `tokens`, in their original order. */
  function Operands(tokens: seq<Token>): seq<Token> {
    Filter(tokens, IsOperandToken)
  }

  /** The four binary arithmetic operators. */
  predicate IsArithmetic(t: Token) {
    t.Operator? && !t.symbol.Assign? && !t.symbol.Unknown?
  }

  // ---------------------------------------------------------------------
  // Classification loses nothing

  lemma PunctuationIsNotOperand(c: char)
    requires !IsAlnum(c)
    ensures !IsOperand([c])
  {
    assert [c][0] == c;
  }

  /** The text of a classified word is the word. */
  lemma SpellClassify(word: string)
    ensures Spell(Classify(word)) == word
    ensures WellFormed(Classify(word))
  {
  }

  /** A token `Classify` can produce is recovered from its text. */
  lemma ClassifySpell(t: Token)
    requires WellFormed(t)
    ensures Classify(Spell(t)) == t
  {
    match t {
      case Operand(name) =>
      case Open => PunctuationIsNotOperand('(');
      case Close => PunctuationIsNotOperand(')');
      case Operator(s) =>
        match s {
          case Plus => PunctuationIsNotOperand('+');
          case Minus => PunctuationIsNotOperand('-');
          case Times => PunctuationIsNotOperand('*');
          case Divide => PunctuationIsNotOperand('/');
          case Assign => PunctuationIsNotOperand('=');
          case Unknown(text) =>
        }
    }
  }

  lemma ClassifySpellAll(tokens: seq<Token>)
    requires forall i :: 0 <= i < |tokens| ==> WellFormed(tokens[i])
    ensures ClassifyAll(SpellAll(tokens)) == tokens
  {
    var back := ClassifyAll(SpellAll(tokens));
    forall i | 0 <= i < |tokens| ensures back[i] == tokens[i] {
      ClassifySpell(tokens[i]);
    }
  }

  /** Tokenising the words of a token sequence joined by spaces gives the
      token sequence back, when every token's text is a word. */
  lemma TokenizeSpelled(tokens: seq<Token>)
    requires forall i :: 0 <= i < |tokens| ==> WellFormed(tokens[i]) && IsWord(Spell(tokens[i]))
    ensures Tokenize(JoinWith(SpellAll(tokens), ' ')) == tokens
  {
    SplitJoinSpaces(SpellAll(tokens));
    ClassifySpellAll(tokens);
  }
}
