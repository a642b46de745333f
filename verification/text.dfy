/** Character classes and the string helpers the compiler core relies on:
    whitespace tokenisation (`str.split()` with no argument), the operand test
    (`str.isalnum()`), newline joining (`"\n".join`) and decimal numerals
    (`str(n)` inside the temporary names).

    Only the ASCII range is modelled: Python's Unicode whitespace and
    Unicode letters/digits outside ASCII are not.
 */
module Text {

  /** The ASCII characters `str.split()` treats as separators:
      tab, line feed, vertical tab, form feed, carriage return,
      the four information separators 0x1C-0x1F, and space. */
  predicate IsWhitespace(c: char) {
    (9 <= c as int <= 13) || (28 <= c as int <= 32)
  }

  /** ASCII letters and digits, the characters `str.isalnum()` accepts. */
  predicate IsAlnum(c: char) {
    ('a' <= c <= 'z') || ('A' <= c <= 'Z') || ('0' <= c <= '9')
  }

  /** `token.isalnum()`: non-empty and made of letters and digits only. */
  predicate IsOperand(token: string) {
    |token| > 0 && forall i :: 0 <= i < |token| ==> IsAlnum(token[i])
  }

  /** A token `str.split()` can produce: non-empty, no whitespace inside. */
  predicate IsWord(w: string) {
    |w| > 0 && forall i :: 0 <= i < |w| ==> !IsWhitespace(w[i])
  }

  predicate AllWhitespace(s: string) {
    forall i :: 0 <= i < |s| ==> IsWhitespace(s[i])
  }

  /** The longest whitespace-free prefix of `s`. */
  function LeadingWord(s: string): (w: string)
    ensures w <= s
    ensures forall i :: 0 <= i < |w| ==> !IsWhitespace(w[i])
    ensures |w| < |s| ==> IsWhitespace(s[|w|])
  {
    if s == [] || IsWhitespace(s[0]) then [] else [s[0]] + LeadingWord(s[1..])
  }

  /** `s.split()`: the maximal runs of non-whitespace characters, in order. */
  function Split(s: string): (tokens: seq<string>)
    ensures forall i :: 0 <= i < |tokens| ==> IsWord(tokens[i])
    decreases |s|
  {
    if s == [] then []
    else if IsWhitespace(s[0]) then Split(s[1..])
    else
      var w := LeadingWord(s);
      [w] + Split(s[|w|..])
  }

  /** `sep.join(parts)` for a one-character separator. */
  function JoinWith(parts: seq<string>, sep: char): string {
    if |parts| == 0 then []
    else if |parts| == 1 then parts[0]
    else parts[0] + [sep] + JoinWith(parts[1..], sep)
  }

  /** All characters of `parts`, concatenated with no separator. */
  function Concat(parts: seq<string>): string {
    if parts == [] then [] else parts[0] + Concat(parts[1..])
  }

  /** The characters of `s` that are not whitespace, in order. */
  function Visible(s: string): string {
    if s == [] then []
    else if IsWhitespace(s[0]) then Visible(s[1..])
    else [s[0]] + Visible(s[1..])
  }

  // ---------------------------------------------------------------------
  // Properties of whitespace tokenisation

  lemma {:induction false} LeadingWordOfJoin(w: string, rest: string)
    requires IsWord(w)
    requires rest == [] || IsWhitespace(rest[0])
    ensures LeadingWord(w + rest) == w
  {
    if |w| > 1 {
      assert (w + rest)[1..] == w[1..] + rest;
      LeadingWordOfJoin(w[1..], rest);
    } else {
      assert (w + rest)[1..] == rest;
    }
  }

  /** Splitting words joined by single spaces gives the words back. */
  lemma {:induction false} SplitJoinSpaces(words: seq<string>)
    requires forall i :: 0 <= i < |words| ==> IsWord(words[i])
    ensures Split(JoinWith(words, ' ')) == words
  {
    if |words| == 0 {
    } else if |words| == 1 {
      var w := words[0];
      LeadingWordOfJoin(w, []);
      assert w + [] == w;
      assert w[|w|..] == [];
    } else {
      var w := words[0];
      var rest := JoinWith(words[1..], ' ');
      var s := w + [' '] + rest;
      assert s == w + ([' '] + rest);
      LeadingWordOfJoin(w, [' '] + rest);
      assert s[|w|..] == [' '] + rest;
      assert (s[|w|..])[1..] == rest;
      SplitJoinSpaces(words[1..]);
      assert Split(s) == [w] + Split(s[|w|..]);
      assert words == [words[0]] + words[1..];
    }
  }

  /** A line produces no tokens exactly when it is blank. */
  lemma {:induction false} SplitBlank(s: string)
    ensures Split(s) == [] <==> AllWhitespace(s)
    decreases |s|
  {
    if s != [] && IsWhitespace(s[0]) {
      SplitBlank(s[1..]);
      if AllWhitespace(s[1..]) {
        forall i | 0 <= i < |s| ensures IsWhitespace(s[i]) {
          if i > 0 { assert s[i] == s[1..][i - 1]; }
        }
      }
    }
  }

  lemma {:induction false} VisibleAppend(a: string, b: string)
    ensures Visible(a + b) == Visible(a) + Visible(b)
  {
    if a != [] {
      assert (a + b)[1..] == a[1..] + b;
      VisibleAppend(a[1..], b);
    } else {
      assert a + b == b;
    }
  }

  lemma {:induction false} VisibleOfWord(w: string)
    requires forall i :: 0 <= i < |w| ==> !IsWhitespace(w[i])
    ensures Visible(w) == w
  {
    if w != [] {
      VisibleOfWord(w[1..]);
    }
  }

  /** Tokenisation loses only whitespace: the tokens, glued together, are
      the visible characters of the line in their original order. */
  lemma {:induction false} SplitKeepsVisible(s: string)
    ensures Concat(Split(s)) == Visible(s)
    decreases |s|
  {
    if s == [] {
    } else if IsWhitespace(s[0]) {
      SplitKeepsVisible(s[1..]);
    } else {
      var w := LeadingWord(s);
      assert s == w + s[|w|..];
      SplitKeepsVisible(s[|w|..]);
      VisibleAppend(w, s[|w|..]);
      VisibleOfWord(w);
      assert Split(s) == [w] + Split(s[|w|..]);
      assert Concat([w] + Split(s[|w|..])) == w + Concat(Split(s[|w|..]));
    }
  }

  // ---------------------------------------------------------------------
  // Splitting on a single separator, the inverse of `JoinWith`

  /** The prefix of `s` before the first `sep` (all of `s` if none). */
  function Field(s: string, sep: char): (f: string)
    ensures f <= s
    ensures sep !in f
    ensures |f| < |s| ==> s[|f|] == sep
  {
    if s == [] || s[0] == sep then [] else [s[0]] + Field(s[1..], sep)
  }

  /** `s.split(sep)`: the fields between separators; never empty. */
  function SplitOn(s: string, sep: char): (parts: seq<string>)
    ensures |parts| >= 1
    ensures forall i :: 0 <= i < |parts| ==> sep !in parts[i]
    decreases |s|
  {
    var f := Field(s, sep);
    if |f| == |s| then [s] else [f] + SplitOn(s[|f| + 1..], sep)
  }

  lemma {:induction false} FieldOfJoin(f: string, sep: char, rest: string)
    requires sep !in f
    requires rest == [] || rest[0] == sep
    ensures Field(f + rest, sep) == f
  {
    if f != [] {
      assert (f + rest)[1..] == f[1..] + rest;
      FieldOfJoin(f[1..], sep, rest);
    } else {
      assert f + rest == rest;
    }
  }

  /** Joining with `sep` and splitting on `sep` gives the parts back, as long
      as no part contains `sep` (`"".split(sep)` is `[""]`, so there must be
      at least one part). */
  lemma {:induction false} SplitOnJoin(parts: seq<string>, sep: char)
    requires |parts| >= 1
    requires forall i :: 0 <= i < |parts| ==> sep !in parts[i]
    ensures SplitOn(JoinWith(parts, sep), sep) == parts
  {
    if |parts| == 1 {
      FieldOfJoin(parts[0], sep, []);
      assert parts[0] + [] == parts[0];
    } else {
      var f := parts[0];
      var rest := JoinWith(parts[1..], sep);
      var s := f + [sep] + rest;
      assert s == f + ([sep] + rest);
      assert JoinWith(parts, sep) == s;
      FieldOfJoin(f, sep, [sep] + rest);
      assert Field(s, sep) == f && |f| < |s|;
      assert s[|f| + 1..] == rest;
      assert SplitOn(s, sep) == [f] + SplitOn(rest, sep);
      SplitOnJoin(parts[1..], sep);
      assert parts == [parts[0]] + parts[1..];
    }
  }

  lemma JoinCons(f: string, tail: seq<string>, sep: char)
    requires |tail| >= 1
    ensures JoinWith([f] + tail, sep) == f + [sep] + JoinWith(tail, sep)
  {
    assert ([f] + tail)[1..] == tail;
  }

  /** A string with a separator in it is its first field, the separator,
      and the rest. */
  lemma FieldThenRest(s: string, sep: char)
    requires |Field(s, sep)| < |s|
    ensures s == Field(s, sep) + [sep] + s[|Field(s, sep)| + 1..]
  {
    var f := Field(s, sep);
    assert s == s[..|f|] + [s[|f|]] + s[|f| + 1..];
  }

  /** Splitting on `sep` and joining with `sep` gives the string back. */
  lemma {:induction false} JoinSplitOn(s: string, sep: char)
    ensures JoinWith(SplitOn(s, sep), sep) == s
    decreases |s|
  {
    var f := Field(s, sep);
    if |f| < |s| {
      var rest := s[|f| + 1..];
      var tail := SplitOn(rest, sep);
      JoinSplitOn(rest, sep);
      assert SplitOn(s, sep) == [f] + tail;
      JoinCons(f, tail, sep);
      FieldThenRest(s, sep);
    }
  }

  // ---------------------------------------------------------------------
  // Decimal numerals, as `str(n)` writes them

  predicate IsDigit(c: char) {
    '0' <= c <= '9'
  }

  predicate AllDigits(s: string) {
    forall i :: 0 <= i < |s| ==> IsDigit(s[i])
  }

  function DigitChar(d: nat): (c: char)
    requires d < 10
    ensures IsDigit(c)
  {
    ('0' as int + d) as char
  }

  function DigitValue(c: char): nat
    requires IsDigit(c)
  {
    c as int - '0' as int
  }

  /** `str(n)`: the decimal numeral of `n`, without leading zeros. */
  function NatToString(n: nat): (s: string)
    ensures |s| >= 1 && AllDigits(s)
    ensures s[0] == '0' ==> n == 0
  {
    if n < 10 then [DigitChar(n)] else NatToString(n / 10) + [DigitChar(n % 10)]
  }

  /** The value of a string of decimal digits (`int(s)`; the empty string reads as 0). */
  function ParseNat(s: string): nat
    requires AllDigits(s)
  {
    if s == [] then 0 else 10 * ParseNat(s[..|s| - 1]) + DigitValue(s[|s| - 1])
  }

  /** Reading back a written numeral gives the number. */
  lemma {:induction false} ParseNatToString(n: nat)
    ensures ParseNat(NatToString(n)) == n
  {
    if n >= 10 {
      var s := NatToString(n);
      ParseNatToString(n / 10);
      assert s[..|s| - 1] == NatToString(n / 10);
    }
  }

  /** Distinct numbers have distinct numerals. */
  lemma NatToStringInjective(a: nat, b: nat)
    ensures NatToString(a) == NatToString(b) ==> a == b
  {
    ParseNatToString(a);
    ParseNatToString(b);
  }
}
