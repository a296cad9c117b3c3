/** The character stream: a read-only input, the index of the next
    unconsumed character and the length of the token being accumulated. */
module CharStreams {
  import opened Tokens

  class CharStream {
    const input: string
    /** The next unconsumed character. */
    var index: nat
    /** Characters consumed since the last skip or emit. */
    var length: nat

    /** The consumed-but-not-emitted slice lies inside the input and ends at
        the cursor. Matching keeps this; a bare advance past the end does not. */
    ghost predicate Valid()
      reads this
    {
      length <= index <= |input|
    }

    /** Offset of the first character of the pending token. */
    ghost function Start(): nat
      reads this
      requires Valid()
    {
      index - length
    }

    /** The pending token's text, input[index - length, index). */
    ghost function Pending(): string
      reads this
      requires Valid()
    {
      input[index - length .. index]
    }

    /** The input not consumed yet. */
    ghost function Remaining(): string
      reads this
      requires Valid()
    {
      input[index..]
    }

    constructor (input: string)
      ensures Valid()
      ensures this.input == input && index == 0 && length == 0
    {
      this.input := input;
      index := 0;
      length := 0;
    }

    /** Whether a character exists offset positions past the cursor. */
    function Has(offset: nat): (r: bool)
      reads this
      ensures Valid() ==> (r <==> offset < |Remaining()|)
    {
      index + offset < |input|
    }

    /** The character offset positions past the cursor. */
    function Get(offset: nat): (r: char)
      reads this
      requires Has(offset)
      ensures Valid() ==> offset < |Remaining()| && r == Remaining()[offset]
    {
      input[index + offset]
    }

    /** Consumes one character into the pending token. */
    method Advance()
      modifies this
      ensures index == old(index) + 1 && length == old(length) + 1
    {
      index := index + 1;
      length := length + 1;
    }

    /** Drops the pending token; the cursor stays where it is. */
    method Skip()
      modifies this
      ensures index == old(index) && length == 0
    {
      length := 0;
    }

    /** Cuts the pending slice into a token of the given kind and starts a
        new, empty pending token at the cursor. */
    method Emit(kind: TokenType) returns (t: Token)
      requires Valid()
      modifies this
      ensures Valid()
      ensures index == old(index) && length == 0
      ensures t == Token(kind, old(Pending()), old(Start()))
    {
      var start := index - length;
      Skip();
      t := Token(kind, input[start .. index], start);
    }
  }

  /** Without an emit or skip, the pending token and the remaining input
      together are the input from the token's start on: nothing is lost or
      seen twice by advancing. */
  lemma PendingThenRemaining(cs: CharStream)
    requires cs.Valid()
    ensures cs.Pending() + cs.Remaining() == cs.input[cs.Start()..]
  {
  }
}
