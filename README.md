# Lexer scanning core, modelled in Dafny

This project models the scanning machinery of the hand-written lexer
`plc.project.Lexer`: the character stream with its cursor and pending-token
length, the `peek`/`match` lookahead protocol, the number sub-lexer's loop,
the emit-only identifier, character and string sub-lexers, and the
first-character dispatch of `lexToken`. It models the code as it is written.
Several of the methods are unfinished, and the model keeps what they do.

Files and modules:

- `tokens.dfy` (`Tokens`): the token kinds, `Token(kind, literal, index)` as built by `emit`, and `LexResult`. `LexResult` is either a token or `Unsupported`, which stands for the branches that throw `UnsupportedOperationException`.
- `regex.dfy` (`Regexes`): the fragment of Java's regular-expression syntax that the patterns use (literals, classes, `?`, `*`, concatenation, alternation), and what it means for such an expression to match a string of exactly one character.
- `patterns.dfy` (`Patterns`): one constructor per regular-expression string that the lexer passes to `peek` or `match`, and `RegexOf`, which writes each string out as a `Regex`. `Matches` gives the set of single characters each pattern accepts, because every pattern is matched against a one-character string; `MatchesIsRegex` proves it agrees with the expression. `Fits` is what `peek` computes, and there are lemmas about it.
- `char_stream.dfy` (`CharStreams`): the `CharStream` class with `index` and `length` fields, and its `Has`, `Get`, `Advance`, `Skip` and `Emit`.
- `lexer_spec.dfy` (`LexerSpec`): the pure side. `Dispatch` is the `lexToken` if-chain. `Classify` says the same thing directly on one character. `DigitRun` and `NumberScan` describe what the number sub-lexer consumes.
- `lexer.dfy` (`Lexers`): the `Lexer` class. Its `Peek` and `Match` are loops, the sub-lexers are methods, and `LexToken` dispatches. Each method is proved against the functions above.

What the code does, as written (each point is proved):

- `lexToken` sends a character to the identifier lexer only when it matches both `@`-or-`[A-Za-z]` and `[A-Za-z0-9_]*`. So `@` does not start an identifier: it falls through to the operator branch (`AtSignIsNotIdentifier`). The grammar comments in `lexToken` intend `@` to start an identifier. The model follows the code.
- The escape pattern `\[bnrt'"\\]` is a nine-character literal, so the escape branch can never be taken (`EscapeBranchUnreachable`).
- `lexNumber`'s loop tests for a digit 1-9, so a `0` is never consumed as a leading or integer-part digit; the one digit taken after a `.` may be `0`. `"0"` gives an INTEGER with an empty literal, `"10"` stops after the `1`, `"1.0"` is a DECIMAL over all three characters, only one digit is taken after a `.`, and a `.` with no digit after it is still consumed (`DigitRunShape`, `NumberScanSamples`, `DecimalScanSamples`, `NumberScanConsumes`).
- `lexIdentifier`, `lexCharacter` and `lexString` consume nothing. They emit whatever is pending, which is empty when nothing has been matched since the last emit or skip.

## Model

| member | source | states |
|---|---|---|
| `CharStreams.CharStream.constructor` | src/main/java/plc/project/Lexer.java:204-210 | a new stream holds the input, is at index 0 with nothing pending, and satisfies `length <= index <= |input|` |
| `CharStreams.CharStream.Has` | src/main/java/plc/project/Lexer.java:212-214 | `has(offset)` holds exactly when the unconsumed input is longer than `offset` |
| `CharStreams.CharStream.Get` | src/main/java/plc/project/Lexer.java:216-218 | `get(offset)` is the character at `offset` in the unconsumed input, which exists whenever `has(offset)` holds |
| `CharStreams.CharStream.Advance` | src/main/java/plc/project/Lexer.java:220-223 | index and length each grow by exactly one |
| `CharStreams.CharStream.Skip` | src/main/java/plc/project/Lexer.java:225-227 | length becomes 0; index and input do not change |
| `CharStreams.CharStream.Emit` | src/main/java/plc/project/Lexer.java:229-233 | the token has the given kind, the pending slice `input[index-length, index)` as its literal and `index-length` as its offset; afterwards length is 0, index is unchanged and the stream invariant still holds |
| `CharStreams.PendingThenRemaining` | src/main/java/plc/project/Lexer.java:202-233 | the pending slice followed by the unconsumed input is exactly the input from the pending token's start on |
| `Patterns.MatchesIsRegex` | src/main/java/plc/project/Lexer.java:80-126 | for every pattern string of `lexToken` and `lexNumber` and every character `c`, `String.valueOf(c).matches(pattern)` as computed by `Matches` is the answer the pattern's regular expression gives on the one-character string `c`; in particular `\\[bnrt'"\\\\]` is a nine-character literal and matches no character |
| `Patterns.Fits` | src/main/java/plc/project/Lexer.java:163-172 | a successful peek of `k` patterns from inside the input leaves room to advance `k` characters without passing its end |
| `Patterns.FitsPointwise` | src/main/java/plc/project/Lexer.java:163-172 | the short-circuiting scan of `peek` is true iff, for every `i < |ps|`, a character exists at offset `i` and matches `ps[i]` |
| `Patterns.FitsOne` | src/main/java/plc/project/Lexer.java:166 | peeking one pattern tests only the character under the cursor, and fails at the end of the input |
| `Patterns.NumberPatternsAgree` | src/main/java/plc/project/Lexer.java:118-126 | in `lexNumber`, every pattern matched after a successful peek accepts the character that was peeked, so those matches cannot fail |
| `Lexers.Lexer.constructor` | src/main/java/plc/project/Lexer.java:22-24 | a lexer gets a fresh stream over its input, at index 0 with nothing pending |
| `Lexers.Lexer.Peek` | src/main/java/plc/project/Lexer.java:159-172 | returns true iff every pattern in turn matches the character at its offset, with every such character present; it changes no state, and the empty list gives true |
| `Lexers.Lexer.Match` | src/main/java/plc/project/Lexer.java:182-192 | returns what `peek` returns; on true, index and length both grow by exactly `|ps|`; on false nothing changes; `length <= index <= |input|` is preserved |
| `Lexers.Lexer.PeekOne` | src/main/java/plc/project/Lexer.java:159-172 | `peek` with one pattern tests exactly the character under the cursor |
| `Lexers.Lexer.MatchOne` | src/main/java/plc/project/Lexer.java:182-192 | `match` with one pattern consumes exactly the matching character under the cursor, or nothing |
| `Lexers.Lexer.LexIdentifier` | src/main/java/plc/project/Lexer.java:110-114 | emits the pending slice as an IDENTIFIER without consuming anything |
| `Lexers.Lexer.LexCharacter` | src/main/java/plc/project/Lexer.java:134-138 | emits the pending slice as a CHARACTER without consuming anything |
| `Lexers.Lexer.LexString` | src/main/java/plc/project/Lexer.java:140-144 | emits the pending slice as a STRING without consuming anything |
| `Lexers.Lexer.LexNumber` | src/main/java/plc/project/Lexer.java:116-132 | consumes exactly up to the end `NumberScan` gives and emits everything from the pending token's start to there, with the kind `NumberScan` gives |
| `Lexers.Lexer.LexDigits` | src/main/java/plc/project/Lexer.java:121-130 | the loop terminates, because every round consumes a character; it stops where `DigitRun` says, with its kind, and keeps the pending token's start |
| `Lexers.Lexer.LexToken` | src/main/java/plc/project/Lexer.java:77-108 | the sub-lexer is chosen by `Dispatch` on the entry state and runs on that same state; identifier, string and character emit the entry's pending slice; number consumes what `NumberScan` gives; the escape and operator branches end in `Unsupported` and leave the stream untouched |
| `LexerSpec.Dispatch` | src/main/java/plc/project/Lexer.java:94-106 | the branch depends only on the character at offset 0: an ASCII letter goes to identifier; then `+`, `-` or a digit goes to number; then `"` goes to string; then `'` goes to character; anything else, and the end of input, goes to operator |
| `LexerSpec.EscapeBranchUnreachable` | src/main/java/plc/project/Lexer.java:91-103 | no input makes `lexToken` take the escape branch |
| `LexerSpec.AtSignIsNotIdentifier` | src/main/java/plc/project/Lexer.java:94-95 | an `@` under the cursor falls through to the operator branch, not the identifier branch |
| `LexerSpec.SignEnd` | src/main/java/plc/project/Lexer.java:118-120 | the optional sign step consumes one character exactly when the character under the cursor is `+` or `-` |
| `LexerSpec.DigitRun` | src/main/java/plc/project/Lexer.java:121-131 | the loop's end lies between its start and the end of the input, and its kind is INTEGER or DECIMAL |
| `LexerSpec.NumberScan` | src/main/java/plc/project/Lexer.java:116-131 | the number's end lies between the cursor and the end of the input |
| `LexerSpec.DigitRunStep` | src/main/java/plc/project/Lexer.java:121-129 | one round of the loop, decided by the three lookahead tests it makes |
| `LexerSpec.DigitRunShape` | src/main/java/plc/project/Lexer.java:121-131 | a DECIMAL run is digits 1-9, a `.` and one digit; an INTEGER run is digits 1-9, possibly ending in a `.`; an INTEGER run of digits 1-9 stops at the end of the input or before a character that is neither a digit 1-9 nor, when the run is not empty, a `.`; an INTEGER run ending in a `.` stops at the end of the input or before a character that is not a digit. Together these fix where the loop stops and with which kind (`RunShapeUnique`) |
| `LexerSpec.RunShapeUnique` | src/main/java/plc/project/Lexer.java:121-131 | any end and kind, INTEGER or DECIMAL, that meets the shape and stop conditions of `DigitRunShape` is exactly what the loop gives, so those conditions specify the loop completely |
| `LexerSpec.NumberScanShape` | src/main/java/plc/project/Lexer.java:116-132 | the text `lexNumber` consumes from the cursor is an optional sign followed by a run of the shape its kind requires; the emitted literal is any pending text followed by it |
| `LexerSpec.DecimalIffDotThenDigit` | src/main/java/plc/project/Lexer.java:121-131 | DECIMAL is emitted exactly when the last two characters consumed are a `.` and a digit |
| `LexerSpec.NumberScanConsumes` | src/main/java/plc/project/Lexer.java:118-121 | the number sub-lexer consumes something exactly when the first character is a sign or a digit 1-9 |
| `LexerSpec.NumberScanSamples` | src/main/java/plc/project/Lexer.java:116-132 | `"123"` gives INTEGER over 3 characters, `"0"` an empty INTEGER, `"10"` INTEGER over 1, `"1.x"` INTEGER over 2 |
| `LexerSpec.DecimalScanSamples` | src/main/java/plc/project/Lexer.java:116-132 | `"-123.45"` gives DECIMAL over 6 characters, leaving the `5` unconsumed, and `"1.0"` DECIMAL over all 3 |

## Left out

- `lex()` (lines 30-67) is not modelled. It calls `lexToken` whenever one of the five whitespace tests at lines 33-47 fails, so `lexToken` also runs on whitespace and at the end of the input, where it throws `UnsupportedOperationException` from the operator branch. With a letter, a quote or a `0` under the cursor, it adds tokens forever, because nothing consumes that character. It returns an empty list for the empty input. Its results on other inputs depend on the order of the whitespace tests, and they are not stated here.
- `lexOperator` and `lexEscape` (lines 146-152), and the throw at line 107, only throw `UnsupportedOperationException`. They are modelled as the `Unsupported` result of `LexToken`, not as methods.
- The console output of the sub-lexers (`System.out.println`) is I/O and is left out.
- Java's regular-expression engine is not modelled. Each pattern string is written out by hand as a `Regex` value (`Patterns.RegexOf`), and only matching against a one-character string is defined, which is the only way the lexer uses its patterns. Parsing the pattern strings is not modelled.
- The `Token` and `ParseException` classes are not part of this model. A token is a plain datatype built as at line 232.
- `Lexers.Lexer.LexToken`: the dispatch is evaluated by the pure function `Dispatch` on the entry state rather than by a sequence of `peek` calls. Since `peek` changes nothing, the result is the same.
- `Lexers.Lexer.LexDigits` is the `while` loop of `lexNumber` written as a method of its own. Its statements and their order are those of the loop.
- `CharStreams.CharStream.Get` requires `Has(offset)`, so the `StringIndexOutOfBoundsException` that `charAt` throws past the end of the input is not modelled. Its only caller, `peek` (line 166), tests `has(i)` first.
- `CharStreams.CharStream.Has`, `CharStreams.CharStream.Get`: offsets are natural numbers. The negative offsets that Java's `int` allows are never used by `peek`, and they are not modelled.
- `CharStreams.CharStream.Advance`, `CharStreams.CharStream.Has`: the 32-bit wrap-around of `index++` and of `index + offset` is not modelled, because integers are unbounded. Under `match`-only use, `index` never exceeds the input length.
- `CharStreams.CharStream.Emit` and the sub-lexers require `length <= index <= |input|`, the range in which `substring` does not throw.
- Characters are Dafny `char` values, not UTF-16 code units.
