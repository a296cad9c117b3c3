/** Tokens produced by the lexer, and the outcome of lexing one token. */
module Tokens {

  /** The token kinds; the sub-lexers emit IDENTIFIER, INTEGER, DECIMAL,
      CHARACTER and STRING. OPERATOR is part of the kind set but no reachable
      code path emits it, because the operator sub-lexer only throws. */
  datatype TokenType = IDENTIFIER | INTEGER | DECIMAL | CHARACTER | STRING | OPERATOR

  /** A token: its kind, the exact slice of the input it covers, and the
      offset of that slice's first character. */
  datatype Token = Token(kind: TokenType, literal: string, index: int)

  /** Lexing one token either yields a token or reaches a branch whose
      sub-lexer is not implemented (it throws UnsupportedOperationException). */
  datatype LexResult = Lexed(token: Token) | Unsupported
}
