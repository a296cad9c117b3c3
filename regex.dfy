/** The fragment of Java regular-expression syntax the lexer's patterns use,
    and what it means to match a string of exactly one character against a
    whole expression, as String.matches does for String.valueOf(c). */
module Regexes {

  datatype Regex =
    | Lit(text: string)                               // literal characters, escapes resolved
    | Class(negated: bool, ranges: seq<(char, char)>) // [a-z...] or [^...]; x is the range x-x
    | Opt(r: Regex)                                   // r?
    | Star(r: Regex)                                  // r*
    | Cat(left: Regex, right: Regex)                  // left right
    | Alt(left: Regex, right: Regex)                  // left | right

  predicate InRanges(c: char, ranges: seq<(char, char)>)
    decreases |ranges|
  {
    |ranges| > 0 && ((ranges[0].0 <= c <= ranges[0].1) || InRanges(c, ranges[1..]))
  }

  /** Whether r matches the empty string. */
  predicate Nullable(r: Regex) {
    match r
    case Lit(t) => t == []
    case Class(_, _) => false
    case Opt(_) => true
    case Star(_) => true
    case Cat(a, b) => Nullable(a) && Nullable(b)
    case Alt(a, b) => Nullable(a) || Nullable(b)
  }

  /** Whether r matches the one-character string [c]: a concatenation puts
      the character in one part and the empty string in the other, and a
      star or option takes the character in exactly one repetition. */
  predicate MatchesOne(r: Regex, c: char) {
    match r
    case Lit(t) => t == [c]
    case Class(neg, rs) => if neg then !InRanges(c, rs) else InRanges(c, rs)
    case Opt(a) => MatchesOne(a, c)
    case Star(a) => MatchesOne(a, c)
    case Cat(a, b) => (MatchesOne(a, c) && Nullable(b)) || (Nullable(a) && MatchesOne(b, c))
    case Alt(a, b) => MatchesOne(a, c) || MatchesOne(b, c)
  }
}
