/** The regular expressions the lexer passes to peek and match.

    Every pattern is applied with String.matches to a string made of ONE
    character, and String.matches asks for a match of the whole string. So
    each pattern denotes a set of single characters, which Matches spells out.
    The comment on each constructor gives the Java string literal. */
module Patterns {
  import opened Regexes

  datatype Pattern =
    | At                      // "@"
    | Letter                  // "[A-Za-z]"
    | IdentifierRest          // "[A-Za-z0-9_]*"
    | Numbers                 // "[\\+-]?|(0)[1-9][0-9]*"
    | SecondNumbers           // "(0)?|(-)?[1-9][0-9]*"
    | Sign                    // "[\\+-]"
    | DoubleQuote             // "\""
    | StringChar              // "[^\"\\n\\r\\\\]"
    | StringEscapeLetters     // "[bnrt\"\\\\]*"
    | SingleQuote             // "[']"
    | CharacterChar           // "[^'\\n\\r\\\\]"
    | CharacterEscapeLetters  // "[bnrt'\"\\\\]"
    | Escape                  // "\\[bnrt'\"\\\\]"
    | NonZeroDigits           // "[1-9]*"
    | Digit                   // "[0-9]"
    | DotClass                // "[.]"
    | EscapedDot              // "\\."
    | Digits                  // "[0-9]*"

  predicate IsAsciiLetter(c: char) { ('A' <= c <= 'Z') || ('a' <= c <= 'z') }
  predicate IsDigit(c: char) { '0' <= c <= '9' }
  predicate IsNonZeroDigit(c: char) { '1' <= c <= '9' }
  predicate IsSign(c: char) { c == '+' || c == '-' }

  /** Each pattern string as a regular expression, escapes resolved. */
  function RegexOf(p: Pattern): Regex {
    match p
    case At => Lit("@")
    case Letter => Class(false, [('A', 'Z'), ('a', 'z')])
    case IdentifierRest =>
      Star(Class(false, [('A', 'Z'), ('a', 'z'), ('0', '9'), ('_', '_')]))
    case Numbers =>
      Alt(Opt(Class(false, [('+', '+'), ('-', '-')])),
          Cat(Lit("0"), Cat(Class(false, [('1', '9')]), Star(Class(false, [('0', '9')])))))
    case SecondNumbers =>
      Alt(Opt(Lit("0")),
          Cat(Opt(Lit("-")), Cat(Class(false, [('1', '9')]), Star(Class(false, [('0', '9')])))))
    case Sign => Class(false, [('+', '+'), ('-', '-')])
    case DoubleQuote => Lit("\"")
    case StringChar =>
      Class(true, [('"', '"'), ('\n', '\n'), ('\r', '\r'), ('\\', '\\')])
    case StringEscapeLetters =>
      Star(Class(false, [('b', 'b'), ('n', 'n'), ('r', 'r'), ('t', 't'), ('"', '"'), ('\\', '\\')]))
    case SingleQuote => Class(false, [('\'', '\'')])
    case CharacterChar =>
      Class(true, [('\'', '\''), ('\n', '\n'), ('\r', '\r'), ('\\', '\\')])
    case CharacterEscapeLetters =>
      Class(false, [('b', 'b'), ('n', 'n'), ('r', 'r'), ('t', 't'), ('\'', '\''), ('"', '"'), ('\\', '\\')])
    case Escape => Lit("[bnrt'\"\\]")
    case NonZeroDigits => Star(Class(false, [('1', '9')]))
    case Digit => Class(false, [('0', '9')])
    case DotClass => Class(false, [('.', '.')])
    case EscapedDot => Lit(".")
    case Digits => Star(Class(false, [('0', '9')]))
  }

  /** Whether the one-character string [c] matches pattern p as a whole. */
  predicate Matches(p: Pattern, c: char) {
    match p
    case At => c == '@'
    case Letter => IsAsciiLetter(c)
    // A star over a class matches a one-character string exactly when
    // that character is in the class.
    case IdentifierRest => IsAsciiLetter(c) || IsDigit(c) || c == '_'
    // "[\+-]?" matches "", "+" or "-"; "0[1-9][0-9]*" needs two characters.
    case Numbers => IsSign(c)
    // "(0)?" matches "" or "0"; "(-)?[1-9][0-9]*" of length one is a digit 1-9.
    case SecondNumbers => IsDigit(c)
    case Sign => IsSign(c)
    case DoubleQuote => c == '"'
    case StringChar => c != '"' && c != '\n' && c != '\r' && c != '\\'
    case StringEscapeLetters =>
      c == 'b' || c == 'n' || c == 'r' || c == 't' || c == '"' || c == '\\'
    case SingleQuote => c == '\''
    case CharacterChar => c != '\'' && c != '\n' && c != '\r' && c != '\\'
    case CharacterEscapeLetters =>
      c == 'b' || c == 'n' || c == 'r' || c == 't' || c == '\'' || c == '"' || c == '\\'
    // "\[" is an escaped bracket, so the regex is the nine-character literal
    // [bnrt'"\] and no one-character string matches it.
    case Escape => false
    case NonZeroDigits => IsNonZeroDigit(c)
    case Digit => IsDigit(c)
    case DotClass => c == '.'
    case EscapedDot => c == '.'
    case Digits => IsDigit(c)
  }

  /** Matches gives, for every pattern, the answer its regular expression
      gives on a one-character string. */
  lemma MatchesIsRegex(p: Pattern, c: char)
    ensures Matches(p, c) == MatchesOne(RegexOf(p), c)
  {
    match p
    case At | Letter | IdentifierRest => IdentifierRegexes(p, c);
    case Numbers | SecondNumbers | Sign => SignRegexes(p, c);
    case NonZeroDigits | Digit | DotClass | EscapedDot | Digits => DigitRegexes(p, c);
    case DoubleQuote | StringChar | StringEscapeLetters => StringRegexes(p, c);
    case SingleQuote | CharacterChar | CharacterEscapeLetters | Escape => CharacterRegexes(p, c);
  }

  /** MatchesIsRegex for the patterns of an identifier's first character. */
  lemma IdentifierRegexes(p: Pattern, c: char)
    requires p == At || p == Letter || p == IdentifierRest
    ensures Matches(p, c) == MatchesOne(RegexOf(p), c)
  {
  }

  /** MatchesIsRegex for the patterns that start a number. */
  lemma SignRegexes(p: Pattern, c: char)
    requires p == Numbers || p == SecondNumbers || p == Sign
    ensures Matches(p, c) == MatchesOne(RegexOf(p), c)
  {
    assert MatchesOne(RegexOf(Sign), c) == IsSign(c);
    assert MatchesOne(Lit("0"), c) == (c == '0');
    assert MatchesOne(Cat(Class(false, [('1', '9')]), Star(Class(false, [('0', '9')]))), c) == IsNonZeroDigit(c);
  }

  /** MatchesIsRegex for the digit and dot patterns of lexNumber. */
  lemma DigitRegexes(p: Pattern, c: char)
    requires p == NonZeroDigits || p == Digit || p == DotClass || p == EscapedDot || p == Digits
    ensures Matches(p, c) == MatchesOne(RegexOf(p), c)
  {
  }

  /** MatchesIsRegex for the patterns that start a string. */
  lemma StringRegexes(p: Pattern, c: char)
    requires p == DoubleQuote || p == StringChar || p == StringEscapeLetters
    ensures Matches(p, c) == MatchesOne(RegexOf(p), c)
  {
  }

  /** MatchesIsRegex for the patterns that start a character literal or an escape. */
  lemma CharacterRegexes(p: Pattern, c: char)
    requires p == SingleQuote || p == CharacterChar || p == CharacterEscapeLetters || p == Escape
    ensures Matches(p, c) == MatchesOne(RegexOf(p), c)
  {
  }

  /** Whether the characters of s from position pos on match the patterns ps
      one by one, stopping at the first pattern that has no character left or
      that its character does not match. This is what peek computes. */
  predicate Fits(s: string, pos: nat, ps: seq<Pattern>)
    // a successful peek of k patterns from a position inside the input never
    // reaches past its end: advancing k characters stays within the input
    ensures Fits(s, pos, ps) && pos <= |s| ==> pos + |ps| <= |s|
    decreases |ps|
  {
    |ps| == 0 || (pos < |s| && Matches(ps[0], s[pos]) && Fits(s, pos + 1, ps[1..]))
  }

  /** The same question asked position by position: for every i, a character
      exists at pos + i and it matches ps[i]. */
  predicate FitsEach(s: string, pos: nat, ps: seq<Pattern>) {
    forall i :: 0 <= i < |ps| ==> CharFits(s, pos + i, ps[i])
  }

  /** A character exists at position k of s and it matches p. */
  predicate CharFits(s: string, k: nat, p: Pattern) {
    k < |s| && Matches(p, s[k])
  }

  /** The short-circuiting scan and the position-by-position reading agree. */
  lemma {:induction false} FitsPointwise(s: string, pos: nat, ps: seq<Pattern>)
    ensures Fits(s, pos, ps) <==> FitsEach(s, pos, ps)
    decreases |ps|
  {
    if |ps| > 0 {
      FitsPointwise(s, pos + 1, ps[1..]);
      if FitsEach(s, pos, ps) {
        forall i | 0 <= i < |ps| - 1 ensures CharFits(s, pos + 1 + i, ps[1..][i]) {
          assert ps[1..][i] == ps[i + 1];
        }
        assert CharFits(s, pos + 0, ps[0]);
      }
      if Fits(s, pos, ps) {
        forall i | 0 <= i < |ps| ensures CharFits(s, pos + i, ps[i]) {
          if i > 0 { assert ps[i] == ps[1..][i - 1]; }
        }
      }
    }
  }

  /** Peeking a single pattern looks at the one character under the cursor. */
  lemma FitsOne(s: string, pos: nat, p: Pattern)
    ensures Fits(s, pos, [p]) <==> pos < |s| && Matches(p, s[pos])
  {
    assert [p][1..] == [];
  }

  /** The patterns lexNumber peeks are at least as narrow as the ones it then
      matches, so each match following a successful peek succeeds:
      [1-9]* implies [0-9], [.] and \. agree, [0-9]* and [0-9] agree. */
  lemma NumberPatternsAgree(c: char)
    ensures Matches(NonZeroDigits, c) ==> Matches(Digit, c)
    ensures Matches(DotClass, c) <==> Matches(EscapedDot, c)
    ensures Matches(Digits, c) <==> Matches(Digit, c)
  {
  }
}
