/** The lexer: the peek/match protocol over a character stream, the number
    sub-lexer's loop, the emit-only sub-lexers and lexToken's dispatch. */
module Lexers {
  import opened Tokens
  import opened Patterns
  import opened CharStreams
  import opened LexerSpec

  class Lexer {
    const chars: CharStream

    ghost predicate Valid()
      reads this, chars
    {
      chars.Valid()
    }

    constructor (input: string)
      ensures Valid() && fresh(chars)
      ensures chars.input == input && chars.index == 0 && chars.length == 0
    {
      chars := new CharStream(input);
    }

    /** Whether the characters from the cursor on match ps one by one; the
        stream is only read. */
    method Peek(ps: seq<Pattern>) returns (b: bool)
      ensures b == Fits(chars.input, chars.index, ps)
      ensures b == FitsEach(chars.input, chars.index, ps)
    {
      FitsPointwise(chars.input, chars.index, ps);
      var i := 0;
      while i < |ps|
        invariant 0 <= i <= |ps|
        invariant Fits(chars.input, chars.index, ps) == Fits(chars.input, chars.index + i, ps[i..])
      {
        assert ps[i..][0] == ps[i] && ps[i..][1..] == ps[i + 1..];
        if !chars.Has(i) || !Matches(ps[i], chars.Get(i)) {
          return false;
        }
        i := i + 1;
      }
      assert ps[i..] == [];
      return true;
    }

    /** Peek, and on success consume one character per pattern; on failure
        nothing changes. */
    method Match(ps: seq<Pattern>) returns (b: bool)
      modifies chars
      ensures b == old(Fits(chars.input, chars.index, ps))
      ensures b ==> chars.index == old(chars.index) + |ps| && chars.length == old(chars.length) + |ps|
      ensures !b ==> chars.index == old(chars.index) && chars.length == old(chars.length)
      ensures old(chars.Valid()) ==> chars.Valid()
    {
      b := Peek(ps);
      if b {
        for i := 0 to |ps|
          invariant chars.index == old(chars.index) + i && chars.length == old(chars.length) + i
        {
          chars.Advance();
        }
      }
    }

    /** peek with a single pattern, the form every call site uses: it tests
        the character under the cursor. */
    method PeekOne(p: Pattern) returns (b: bool)
      ensures b == CharFits(chars.input, chars.index, p)
    {
      FitsOne(chars.input, chars.index, p);
      b := Peek([p]);
    }

    /** match with a single pattern: on success one character is consumed. */
    method MatchOne(p: Pattern) returns (b: bool)
      modifies chars
      ensures b == old(CharFits(chars.input, chars.index, p))
      ensures b ==> chars.index == old(chars.index) + 1 && chars.length == old(chars.length) + 1
      ensures !b ==> chars.index == old(chars.index) && chars.length == old(chars.length)
      ensures old(chars.Valid()) ==> chars.Valid()
    {
      FitsOne(chars.input, chars.index, p);
      b := Match([p]);
    }

    method LexIdentifier() returns (t: Token)
      requires Valid()
      modifies chars
      ensures Valid() && chars.index == old(chars.index) && chars.length == 0
      ensures t == Token(IDENTIFIER, old(chars.Pending()), old(chars.Start()))
    {
      t := chars.Emit(IDENTIFIER);
    }

    method LexCharacter() returns (t: Token)
      requires Valid()
      modifies chars
      ensures Valid() && chars.index == old(chars.index) && chars.length == 0
      ensures t == Token(CHARACTER, old(chars.Pending()), old(chars.Start()))
    {
      t := chars.Emit(CHARACTER);
    }

    method LexString() returns (t: Token)
      requires Valid()
      modifies chars
      ensures Valid() && chars.index == old(chars.index) && chars.length == 0
      ensures t == Token(STRING, old(chars.Pending()), old(chars.Start()))
    {
      t := chars.Emit(STRING);
    }

    /** Consumes an optional sign and the digits after it, then emits
        everything pending, from the pending token's start to the end
        NumberScan gives, with the kind NumberScan gives. */
    method LexNumber() returns (t: Token)
      requires Valid()
      modifies chars
      ensures Valid() && chars.length == 0
      ensures chars.index == NumberScan(chars.input, old(chars.index)).0
      ensures t == Token(NumberScan(chars.input, old(chars.index)).1,
                         chars.input[old(chars.Start())..chars.index], old(chars.Start()))
    {
      var signed := PeekOne(Sign);
      if signed {
        var taken := MatchOne(Sign);
      }
      var kind := LexDigits();
      t := chars.Emit(kind);
    }

    /** The while loop of lexNumber. Each round takes a digit 1-9 and, when
        a '.' follows, the '.'; a digit after that '.' is taken and ends the
        loop as a DECIMAL. The loop ends as an INTEGER when the lookahead is
        no digit 1-9. Every round consumes at least one character. */
    method LexDigits() returns (kind: TokenType)
      requires Valid()
      modifies chars
      ensures Valid() && chars.Start() == old(chars.Start())
      ensures (chars.index, kind) == DigitRun(chars.input, old(chars.index))
    {
      ghost var s, start := chars.input, chars.Start();
      ghost var target := DigitRun(s, chars.index);
      kind := INTEGER;
      var more := PeekOne(NonZeroDigits);
      while more
        invariant Valid() && chars.Start() == start
        invariant DigitRun(s, chars.index) == target
        invariant more == CharFits(s, chars.index, NonZeroDigits)
        decreases |s| - chars.index
      {
        ghost var at := chars.index;
        // each match follows a peek of a pattern at least as narrow
        NumberPatternsAgree(s[at]);
        var taken := MatchOne(Digit);
        assert taken;
        var dot := PeekOne(DotClass);
        DigitRunStep(s, at, dot, CharFits(s, at + 2, Digits));
        if dot {
          NumberPatternsAgree(s[at + 1]);
          taken := MatchOne(EscapedDot);
          assert taken;
          var digit := PeekOne(Digits);
          if digit {
            NumberPatternsAgree(s[at + 2]);
            taken := MatchOne(Digit);
            assert taken;
            return DECIMAL;
          }
        }
        more := PeekOne(NonZeroDigits);
      }
    }

    /** Chooses the sub-lexer from the lookahead without consuming anything,
        then runs it on the stream as it was on entry. The escape branch and
        the operator branch have no sub-lexer: they end in Unsupported. */
    method LexToken() returns (r: LexResult)
      requires Valid()
      modifies chars
      ensures Valid()
      ensures var b := Dispatch(chars.input, old(chars.index));
        (b == ToIdentifier ==> r == Lexed(Token(IDENTIFIER, old(chars.Pending()), old(chars.Start())))) &&
        (b == ToString ==> r == Lexed(Token(STRING, old(chars.Pending()), old(chars.Start())))) &&
        (b == ToCharacter ==> r == Lexed(Token(CHARACTER, old(chars.Pending()), old(chars.Start())))) &&
        (b in {ToIdentifier, ToString, ToCharacter} ==> chars.index == old(chars.index) && chars.length == 0)
      ensures var b := Dispatch(chars.input, old(chars.index));
        var (e, k) := NumberScan(chars.input, old(chars.index));
        b == ToNumber ==>
          r == Lexed(Token(k, chars.input[old(chars.Start())..e], old(chars.Start())))
          && chars.index == e && chars.length == 0
      ensures var b := Dispatch(chars.input, old(chars.index));
        (b == ToEscape || b == ToOperator) ==>
          r == Unsupported && chars.index == old(chars.index) && chars.length == old(chars.length)
    {
      var b := Dispatch(chars.input, chars.index);
      match b
      case ToIdentifier =>
        var t := LexIdentifier();
        r := Lexed(t);
      case ToNumber =>
        var t := LexNumber();
        r := Lexed(t);
      case ToString =>
        var t := LexString();
        r := Lexed(t);
      case ToCharacter =>
        var t := LexCharacter();
        r := Lexed(t);
      case ToEscape =>
        r := Unsupported;
      case ToOperator =>
        r := Unsupported;
    }
  }
}
