/** What the lexer's scanning code computes, as functions of the input and
    the cursor position: the first-character dispatch of lexToken and the
    characters lexNumber consumes. */
module LexerSpec {
  import opened Tokens
  import opened Patterns

  // ---------------------------------------------------------------------
  // lexToken: choosing the sub-lexer
  // ---------------------------------------------------------------------

  /** The sub-lexer lexToken hands over to. ToEscape is the branch that would
      lex an escape; ToOperator goes to lexOperator. */
  datatype Branch = ToIdentifier | ToNumber | ToString | ToCharacter | ToEscape | ToOperator

  /** The if-chain of lexToken, each condition being a disjunction or
      conjunction of one-pattern peeks at the cursor position p. It decides
      from the character at offset 0 alone: a letter goes to the identifier
      lexer, a sign or digit to the number lexer, a double quote to the
      string lexer, a single quote to the character lexer, and anything
      else, or the end of the input, to the operator lexer. */
  function Dispatch(s: string, p: nat): (b: Branch)
    ensures b == if p < |s| then Classify(s[p]) else ToOperator
  {
    if (Fits(s, p, [At]) || Fits(s, p, [Letter])) && Fits(s, p, [IdentifierRest]) then
      ToIdentifier
    else if Fits(s, p, [Numbers]) || Fits(s, p, [SecondNumbers]) then
      ToNumber
    else if Fits(s, p, [DoubleQuote])
         && (Fits(s, p, [StringChar]) || Fits(s, p, [StringEscapeLetters]))
         && Fits(s, p, [DoubleQuote]) then
      ToString
    else if Fits(s, p, [SingleQuote])
         && (Fits(s, p, [CharacterChar]) || Fits(s, p, [CharacterEscapeLetters]))
         && Fits(s, p, [SingleQuote]) then
      ToCharacter
    else if Fits(s, p, [Escape]) then
      ToEscape
    else
      ToOperator
  }

  /** The same choice stated directly on the character under the cursor. */
  function Classify(c: char): Branch {
    if IsAsciiLetter(c) then ToIdentifier
    else if IsSign(c) || IsDigit(c) then ToNumber
    else if c == '"' then ToString
    else if c == '\'' then ToCharacter
    else ToOperator
  }

  /** The escape branch can never be taken. */
  lemma EscapeBranchUnreachable(s: string, p: nat)
    ensures Dispatch(s, p) != ToEscape
  {
  }

  /** Although '@' is peeked for, an identifier must also start with a
      character of [A-Za-z0-9_], so '@' goes to the operator lexer. */
  lemma AtSignIsNotIdentifier(s: string, p: nat)
    requires p < |s| && s[p] == '@'
    ensures Dispatch(s, p) == ToOperator
  {
  }

  // ---------------------------------------------------------------------
  // lexNumber: the characters consumed
  // ---------------------------------------------------------------------

  /** The position after the optional sign. */
  function SignEnd(s: string, p: nat): (q: nat)
    requires p <= |s|
    ensures q == p || (q == p + 1 && p < |s| && IsSign(s[p]))
    ensures p < |s| && IsSign(s[p]) ==> q == p + 1
  {
    if CharFits(s, p, Sign) then p + 1 else p
  }

  /** The digit loop of lexNumber from position p: each round takes a digit
      1-9; a '.' after it is taken too, and a digit after that '.' is taken
      and ends the number as a DECIMAL. The loop stops, giving an INTEGER,
      when the next character is not a digit 1-9. Returns the end position
      and the kind emitted. */
  function DigitRun(s: string, p: nat): (r: (nat, TokenType))
    requires p <= |s|
    ensures p <= r.0 <= |s|
    ensures r.1 == INTEGER || r.1 == DECIMAL
    decreases |s| - p
  {
    if CharFits(s, p, NonZeroDigits) then
      if CharFits(s, p + 1, DotClass) then
        if CharFits(s, p + 2, Digits) then (p + 3, DECIMAL)
        else DigitRun(s, p + 2)
      else DigitRun(s, p + 1)
    else (p, INTEGER)
  }

  /** One round of the digit loop, read off the three lookahead tests it
      makes at p, p + 1 and p + 2. */
  lemma DigitRunStep(s: string, p: nat, dot: bool, digit: bool)
    requires p <= |s| && CharFits(s, p, NonZeroDigits)
    requires dot == CharFits(s, p + 1, DotClass) && digit == CharFits(s, p + 2, Digits)
    ensures dot && digit ==> DigitRun(s, p) == (p + 3, DECIMAL)
    ensures dot && !digit ==> DigitRun(s, p) == DigitRun(s, p + 2)
    ensures !dot ==> DigitRun(s, p) == DigitRun(s, p + 1)
  {
  }

  /** End position and kind of the number lexNumber scans from p. */
  function NumberScan(s: string, p: nat): (r: (nat, TokenType))
    requires p <= |s|
    ensures p <= r.0 <= |s|
  {
    DigitRun(s, SignEnd(s, p))
  }

  predicate AllNonZero(t: string) {
    forall k :: 0 <= k < |t| ==> IsNonZeroDigit(t[k])
  }

  /** A DECIMAL run: digits 1-9, a '.', one digit. */
  predicate IsDecimalRun(u: string) {
    |u| >= 3 && AllNonZero(u[..|u| - 2]) && u[|u| - 2] == '.' && IsDigit(u[|u| - 1])
  }

  /** An INTEGER run: digits 1-9, possibly followed by a '.' that has no digit
      after it. The run may be empty. */
  predicate IsIntegerRun(u: string) {
    AllNonZero(u) || (|u| >= 2 && AllNonZero(u[..|u| - 1]) && u[|u| - 1] == '.')
  }

  /** What the digit loop from p consumed, ending at e with kind k, and why
      it stopped there. A run of digits 1-9 stops at the end of the input or
      before a character that is neither a digit 1-9 nor, when the run is not
      empty, a '.'; a run ending in '.' stops before a character that is not
      a digit. Together with the kind being INTEGER or DECIMAL, these
      clauses leave one possible end and kind (RunShapeUnique). */
  predicate RunShape(s: string, p: nat, r: (nat, TokenType))
    requires p <= r.0 <= |s|
  {
    var (e, k) := r;
    (k == DECIMAL ==> IsDecimalRun(s[p..e])) &&
    (k == INTEGER ==> IsIntegerRun(s[p..e])) &&
    (k == INTEGER && AllNonZero(s[p..e]) ==> e == |s| || !IsNonZeroDigit(s[e])) &&
    (k == INTEGER && AllNonZero(s[p..e]) && e > p ==> e == |s| || s[e] != '.') &&
    (k == INTEGER && !AllNonZero(s[p..e]) ==> e == |s| || !IsDigit(s[e]))
  }

  /** The digit loop's shape: what it consumed, and why it stopped. */
  lemma {:induction false} DigitRunShape(s: string, p: nat)
    requires p <= |s|
    ensures RunShape(s, p, DigitRun(s, p))
    decreases |s| - p
  {
    if CharFits(s, p, NonZeroDigits) {
      if CharFits(s, p + 1, DotClass) {
        DotRoundShape(s, p);
      } else {
        DigitRunShape(s, p + 1);
        DigitRoundShape(s, p);
      }
    } else {
      assert s[p..p] == [];
    }
  }

  /** A round that finds a '.' after its digit ends the run, or takes the
      digit after the '.' as a DECIMAL. */
  lemma DotRoundShape(s: string, p: nat)
    requires p <= |s| && CharFits(s, p, NonZeroDigits) && CharFits(s, p + 1, DotClass)
    ensures RunShape(s, p, DigitRun(s, p))
  {
    var (e, k) := DigitRun(s, p);
    assert s[p..e][..1] == [s[p]];
    if !CharFits(s, p + 2, Digits) {
      assert DigitRun(s, p + 2) == (p + 2, INTEGER);
      assert !AllNonZero(s[p..e]) by { assert s[p..e][1] == '.'; }
    }
  }

  /** A round with no '.' after its digit puts that digit in front of the
      run that the next round scans. */
  lemma DigitRoundShape(s: string, p: nat)
    requires p <= |s| && CharFits(s, p, NonZeroDigits) && !CharFits(s, p + 1, DotClass)
    requires RunShape(s, p + 1, DigitRun(s, p + 1))
    ensures RunShape(s, p, DigitRun(s, p))
  {
    var (e, k) := DigitRun(s, p);
    var u, v := s[p..e], s[p + 1..e];
    assert u == [s[p]] + v;
    if k == DECIMAL {
      assert u[..|u| - 2] == [s[p]] + v[..|v| - 2];
    } else if AllNonZero(v) {
      assert AllNonZero(u);
    } else {
      assert u[..|u| - 1] == [s[p]] + v[..|v| - 1];
      assert !AllNonZero(u) by {
        assert u[|u| - 1] == v[|v| - 1];
      }
    }
  }

  /** RunShape describes the digit loop completely: the only end and kind
      of kind INTEGER or DECIMAL that it allows are the ones DigitRun gives. */
  lemma {:induction false} RunShapeUnique(s: string, p: nat, r: (nat, TokenType))
    requires p <= r.0 <= |s| && (r.1 == INTEGER || r.1 == DECIMAL)
    requires RunShape(s, p, r)
    ensures r == DigitRun(s, p)
    decreases |s| - p
  {
    if !CharFits(s, p, NonZeroDigits) {
      NoRunShape(s, p, r);
    } else if CharFits(s, p + 1, DotClass) {
      DotRunShape(s, p, r);
    } else {
      DropDigitShape(s, p, r);
      RunShapeUnique(s, p + 1, r);
    }
  }

  /** Every character of a run of digits 1-9, or of one of its prefixes, is
      a digit 1-9. */
  lemma NonZeroAt(u: string, n: int, i: int)
    ensures 0 <= i < n <= |u| && AllNonZero(u[..n]) ==> IsNonZeroDigit(u[i])
    ensures 0 <= i < |u| && AllNonZero(u) ==> IsNonZeroDigit(u[i])
  {
    if 0 <= i < n <= |u| && AllNonZero(u[..n]) {
      assert u[..n][i] == u[i];
    }
  }

  /** Without a digit 1-9 under the cursor, only the empty INTEGER run fits. */
  lemma NoRunShape(s: string, p: nat, r: (nat, TokenType))
    requires p <= r.0 <= |s| && (r.1 == INTEGER || r.1 == DECIMAL)
    requires RunShape(s, p, r) && !CharFits(s, p, NonZeroDigits)
    ensures r == (p, INTEGER)
  {
    var (e, k) := r;
    var u := s[p..e];
    NonZeroAt(u, |u| - 2, 0);
    NonZeroAt(u, |u| - 1, 0);
  }

  /** With a digit 1-9 and then a '.', only the run DigitRun takes fits:
      the digit, the '.' and, if there is one, the digit after it. */
  lemma DotRunShape(s: string, p: nat, r: (nat, TokenType))
    requires p <= r.0 <= |s| && (r.1 == INTEGER || r.1 == DECIMAL)
    requires RunShape(s, p, r) && CharFits(s, p, NonZeroDigits) && CharFits(s, p + 1, DotClass)
    ensures r == DigitRun(s, p)
  {
    var (e, k) := r;
    var u := s[p..e];
    assert s[p..p] == [];
    if !CharFits(s, p + 2, Digits) {
      assert DigitRun(s, p + 2) == (p + 2, INTEGER);
    }
    NonZeroAt(u, |u| - 2, 1);
    NonZeroAt(u, |u| - 1, 1);
    NonZeroAt(u, |u|, 1);
  }

  /** With a digit 1-9 and no '.' after it, a run that fits from p also fits
      from p + 1 once that digit is dropped. */
  lemma DropDigitShape(s: string, p: nat, r: (nat, TokenType))
    requires p <= r.0 <= |s| && (r.1 == INTEGER || r.1 == DECIMAL)
    requires RunShape(s, p, r) && CharFits(s, p, NonZeroDigits) && !CharFits(s, p + 1, DotClass)
    ensures p + 1 <= r.0 && RunShape(s, p + 1, r)
    ensures DigitRun(s, p) == DigitRun(s, p + 1)
  {
    var (e, k) := r;
    assert s[p..p] == [];
    assert e > p;
    var u, v := s[p..e], s[p + 1..e];
    assert u == [s[p]] + v;
    if k == DECIMAL {
      DropDigitDecimal(s, p, e);
    } else if AllNonZero(u) {
      assert AllNonZero(v);
    } else {
      DropDigitDotted(s, p, e);
    }
  }

  /** DropDigitShape for a DECIMAL run. */
  lemma DropDigitDecimal(s: string, p: nat, e: nat)
    requires p < e <= |s| && IsDecimalRun(s[p..e]) && !CharFits(s, p + 1, DotClass)
    ensures IsDecimalRun(s[p + 1..e])
  {
    var u, v := s[p..e], s[p + 1..e];
    assert u[1] == s[p + 1];
    NonZeroAt(u, |u| - 2, 1);
    assert v[..|v| - 2] == u[..|u| - 2][1..];
  }

  /** DropDigitShape for an INTEGER run that ends in a '.'. */
  lemma DropDigitDotted(s: string, p: nat, e: nat)
    requires p < e <= |s| && IsIntegerRun(s[p..e]) && !AllNonZero(s[p..e])
    requires !CharFits(s, p + 1, DotClass)
    ensures IsIntegerRun(s[p + 1..e]) && !AllNonZero(s[p + 1..e])
  {
    var u, v := s[p..e], s[p + 1..e];
    assert u[1] == s[p + 1];
    NonZeroAt(u, |u| - 1, 1);
    assert v[..|v| - 1] == u[..|u| - 1][1..];
    assert v[|v| - 1] == u[|u| - 1];
  }

  /** A number's text without its leading sign, if it has one. */
  function Unsigned(t: string): string {
    if |t| > 0 && IsSign(t[0]) then t[1..] else t
  }

  /** The text lexNumber consumes: an optional sign, then a run of the shape
      the emitted kind says. */
  lemma NumberScanShape(s: string, p: nat)
    requires p <= |s|
    ensures var (e, k) := NumberScan(s, p);
      (k == DECIMAL || k == INTEGER) &&
      (k == DECIMAL ==> IsDecimalRun(Unsigned(s[p..e]))) &&
      (k == INTEGER ==> IsIntegerRun(Unsigned(s[p..e])))
  {
    var q := SignEnd(s, p);
    var (e, k) := NumberScan(s, p);
    DigitRunShape(s, q);
    if q == p + 1 {
      assert Unsigned(s[p..e]) == s[q..e];
    } else if e > p {
      assert s[p..e][0] == s[p];
      assert Unsigned(s[p..e]) == s[q..e];
    } else {
      assert Unsigned(s[p..e]) == s[q..e];
    }
  }

  /** lexNumber emits DECIMAL exactly when the last two characters it took
      are a '.' and a digit. */
  lemma DecimalIffDotThenDigit(s: string, p: nat)
    requires p <= |s|
    ensures var (e, k) := NumberScan(s, p);
      k == DECIMAL <==> (e >= p + 2 && s[e - 2] == '.' && IsDigit(s[e - 1]))
  {
    var q := SignEnd(s, p);
    var (e, k) := NumberScan(s, p);
    DigitRunShape(s, q);
    var u := s[q..e];
    if k == INTEGER && e >= p + 2 && e - 2 >= q {
      assert s[e - 2] == u[|u| - 2] && s[e - 1] == u[|u| - 1];
      if !AllNonZero(u) {
        assert !IsDigit(s[e - 1]);
      }
    }
  }

  /** lexNumber consumes something exactly when the input starts with a sign
      or a digit 1-9; in particular a leading '0' is not consumed. */
  lemma NumberScanConsumes(s: string, p: nat)
    requires p <= |s|
    ensures NumberScan(s, p).0 > p <==> p < |s| && (IsSign(s[p]) || IsNonZeroDigit(s[p]))
  {
  }

  /** Sample inputs that lexNumber emits as INTEGER, as written: a lone "0"
      yields an empty INTEGER, "10" stops after the "1", and a '.' with no
      digit after it is still taken. */
  lemma NumberScanSamples()
    ensures NumberScan("123", 0) == (3, INTEGER)
    ensures NumberScan("0", 0) == (0, INTEGER)
    ensures NumberScan("10", 0) == (1, INTEGER)
    ensures NumberScan("1.x", 0) == (2, INTEGER)
  {
  }

  /** Sample inputs that lexNumber emits as DECIMAL: only one digit follows
      the '.', and that digit may be a '0'. */
  lemma DecimalScanSamples()
    ensures NumberScan("-123.45", 0) == (6, DECIMAL)
    ensures NumberScan("1.0", 0) == (3, DECIMAL)
  {
  }
}
