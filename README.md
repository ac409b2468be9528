# katamaran front end, in Dafny

This project models the front end of the katamaran language, which has three stages.

1. **Lexer.** The character lexer (`LexerCursor`) skips whitespace, then classifies one token at a time. It yields:
   - punctuation;
   - operators, with one character of lookahead;
   - integer and float literals;
   - keywords and identifiers;
   - string literals, whose end is decided by the one-flag `StringParser`;
   - position-tagged errors.
2. **Token-tree builder.** It folds the flat token sequence into token trees. Each bracketed region becomes one `Group` node. An unmatched, mismatched or unclosed bracket aborts the whole build.
3. **Recursive-descent parser.** It runs over the tree stream and builds `be [mut] ident = ident ;` statements. It appends diagnostics to an error list that only grows.

Each stage that works by changing state is a Dafny class, and each of its methods is proved equal to a pure function of the old state:

- the lexer cursor, with fields `position`, `row` and `column`;
- the string parser, with field `skipNext`;
- the parser, with fields `stream` and `errors`.

The properties of the stages are proved about those functions:

- positions;
- lookahead;
- the outcomes of number, word and string literals;
- that the text of a token, lexed on its own, gives the same token kind;
- the bracket errors;
- that the trees flatten back to the tokens, with leaf and group counts kept;
- that building succeeds exactly when the input is well bracketed;
- every parser diagnostic and where it is reported;
- how much each statement reads;
- a render-then-parse round trip for `be` statements.

Modules:

- `Common`: `Option`, `Result`, positions, decimal and Debug rendering;
- `LexerTypes`, `Lexer`, `LexerProps`;
- `TokenTrees`, `TokenTreeProps`;
- `Ast`;
- `Parsing`, `ParserProps`;
- `Driver`: lexing then tree building, as the command-line entry point does.

## Model

| member | source | states |
|---|---|---|
| LexerTypes.StringParser.constructor | src/lexer/types.rs:77-79 | A new string parser starts with its skip flag clear |
| LexerTypes.StringParser.Condition | src/lexer/types.rs:81-95 | With the flag set, any character is accepted and the flag is cleared. With it clear, the character is rejected exactly when it is `"`, and the flag is set exactly when it is a backslash |
| LexerTypes.EscapedSpanEnd | src/lexer/types.rs:81-95 | A scan driven by the string parser stops inside the input only at a `"` |
| LexerTypes.EscapedSpanFrom | src/lexer/types.rs:81-95 | The flag at any index is set exactly when an odd run of backslashes precedes it. The scan stops at a quote preceded by an even run, and every quote it passes is preceded by an odd run |
| LexerTypes.StringBodyEndsAtUnescapedQuote | src/lexer/types.rs:81-95 | A string body ends at the first `"` not escaped by an odd run of backslashes, or at the end of the input |
| LexerTypes.EscapedBackslashThenQuote | src/lexer/types.rs:82-92 | In `\\"` the quote ends the body; in `\"` the quote is part of the body |
| Lexer.RowColCounts | src/lexer/mod.rs:22-34 | After consuming a text, the row is one more than its newline count and the column is the length of its last line |
| Lexer.ScanWhile | src/lexer/mod.rs:44-57 | The scan stops at the first character failing the predicate, or at the end; every character before that satisfies it |
| Lexer.Keyword | src/lexer/mod.rs:182-195 | Every keyword starts with an ASCII letter and is spelled with word characters, so the word lexer can reach it; no keyword gives an Identifier |
| Lexer.WordKind | src/lexer/mod.rs:182-195 | A word gives an Identifier exactly when it is not a keyword, and that Identifier holds the word's text |
| Lexer.SingleCharKind | src/lexer/mod.rs:68-81 | None of the one-character punctuation and operator characters is whitespace, a lookahead operator, a quote, a digit or a word character, so checking them first makes the same token as the single `match` |
| Lexer.NextToken | src/lexer/mod.rs:63-66 | One lexer call never moves backwards, and a call that yields an item moves past the skipped whitespace |
| Lexer.Classify | src/lexer/mod.rs:67-203 | Classifying the character at `start` always consumes it, and never reads past the end |
| Lexer.CompoundOperator | src/lexer/mod.rs:82-138 | A lookahead operator consumes its own character and at most one more, and never reads past the end of the input |
| Lexer.LexString | src/lexer/mod.rs:141-150 | A string literal never moves the cursor backwards or past the end |
| Lexer.LexNumber | src/lexer/mod.rs:151-177 | A number literal consumes at least its first digit |
| Lexer.LexWord | src/lexer/mod.rs:179-196 | A word consumes at least its first character |
| Lexer.Tokenize | src/main.rs:24 | Draining the lexer gives no tokens at the end of the input, and never more tokens than there are characters left |
| Lexer.LexerCursor.constructor | src/lexer/mod.rs:13-20 | A fresh cursor is at position 0, row 1, column 0 |
| Lexer.LexerCursor.Bump | src/lexer/mod.rs:22-34 | At the end it yields nothing and changes nothing. Otherwise it yields the next character and advances the position by one. A newline increments the row and resets the column to 0; any other character increments the column |
| Lexer.LexerCursor.Peek | src/lexer/mod.rs:36-38 | Gives the character at the cursor, or nothing exactly at the end of the input. `Bump` yields exactly what `Peek` gave before it |
| Lexer.LexerCursor.Pos | src/lexer/mod.rs:40-42 | The (row, column) pair is the one reached by consuming the text before the cursor |
| Lexer.LexerCursor.EatWhile | src/lexer/mod.rs:44-57 | Returns exactly the consumed span. Every character in it satisfies the predicate, and the next character, if any, does not |
| Lexer.LexerCursor.EatStringBody | src/lexer/mod.rs:142-143 | Consumes exactly the span a fresh string parser accepts, and returns it |
| Lexer.LexerCursor.Next | src/lexer/mod.rs:63-208 | The item yielded and the new position are those of the pure one-call lexer `NextToken` from the old position |
| Lexer.LexerCursor.EatString | src/lexer/mod.rs:141-150 | Yields the string token and consumes the closing quote. With no closing quote it yields nothing |
| Lexer.LexerCursor.EatCompoundOperator | src/lexer/mod.rs:82-138 | The operator and the new position are the lookahead table's |
| Lexer.LexerCursor.EatNumber | src/lexer/mod.rs:151-177 | The item and the new position are those of the number literal's specification |
| Lexer.LexerCursor.EatWord | src/lexer/mod.rs:179-196 | Consumes the maximal run of word characters and gives its keyword kind, or an identifier |
| LexerProps.WhitespaceOnlyEndsStream | src/lexer/mod.rs:64-65 | Empty or all-whitespace input yields no item, and lexes to the empty token sequence |
| LexerProps.TokenPositionAfterFirstChar | src/lexer/mod.rs:204-207 | A token's position is the one reached after its first character: the line is one more than the newlines before it, and the column is 1-based |
| LexerProps.OperatorLookahead | src/lexer/mod.rs:82-138 | `==` `!=` `>=` `>>` `<=` `<<` `&&` `\|\|` `\|>` consume two characters. Otherwise the one-character operator is produced and the next character is left unread |
| LexerProps.CompoundOperatorTables | src/lexer/mod.rs:82-138 | The lookahead operators agree with the two-character table, and else with the one-character table |
| LexerProps.NumberLiteral | src/lexer/mod.rs:151-177 | Digits then `.` give a Float that includes the dot and the fraction digits, so `12.` is a Float. Otherwise the digits give an Integer, or "Invalid integer literal" with the digits and position when the value exceeds the i64 range |
| LexerProps.WordToken | src/lexer/mod.rs:179-196 | A word is a letter or `_` followed by the maximal run of letters, digits and `_`. A keyword gives its kind (`true`/`false` give Boolean); anything else gives an Identifier holding the text |
| LexerProps.DistinctWordsDistinctKinds | src/lexer/mod.rs:182-195 | Two words that lex to the same kind are the same word |
| LexerProps.KeywordSpelling | src/lexer/mod.rs:182-193 | Each keyword kind is spelled by exactly one word, which an independent spelling table gives back |
| LexerProps.LexWordFacts | src/lexer/mod.rs:179-196 | The same facts, stated for the word lexer itself |
| LexerProps.StringToken | src/lexer/mod.rs:141-150 | A terminated string yields its raw contents, backslashes kept, and consumes the closing quote. An unterminated one ends the stream with no error |
| LexerProps.UnexpectedCharacter | src/lexer/mod.rs:197-202 | Any character that starts no token gives "Unexpected character" with that character and its position |
| LexerProps.TokenTextRelexes | src/lexer/mod.rs:63-208 | The text a token spans, lexed on its own, is consumed whole and gives the same token kind: where a token ends depends only on its own characters and the one after it |
| TokenTrees.TokenToGroupMode | src/tokentree/mod.rs:111-118 | A mode is given exactly for the six bracket kinds |
| TokenTrees.ParseFromTokens | src/tokentree/mod.rs:54-63 | No tokens give no trees, and a successful build has at most one top-level tree per token |
| TokenTrees.ParseSeq | src/tokentree/mod.rs:57-62 | The trees already built stay at the front, in order, and each remaining token adds at most one more |
| TokenTrees.TokenToTree | src/tokentree/mod.rs:65-109 | A successful tree reads at least one token, and never reads past the end |
| TokenTrees.ParseGroup | src/tokentree/mod.rs:120-152 | A closed group carries the opener's mode and position, and reads at least its closer |
| TokenTreeProps.ModePairs | src/tokentree/mod.rs:111-118 | `(` and `)` map to Parens, `{` and `}` to Curly, `[` and `]` to Bracket |
| TokenTreeProps.LeafMapping | src/tokentree/mod.rs:69-108 | A non-bracket token becomes a one-token leaf of the same kind, payload and position |
| TokenTreeProps.UnmatchedCloser | src/tokentree/mod.rs:91-96 | A closer at top level fails the whole build with "Unmatched closing bracket" at its position |
| TokenTreeProps.MismatchedCloser | src/tokentree/mod.rs:135-140 | A closer of another mode inside a group fails with "Mismatched closing bracket" at the closer's position. The message names the expected and the found bracket |
| TokenTreeProps.UnclosedAtEnd | src/tokentree/mod.rs:147-151 | The end of input inside a group fails with "Unclosed bracket starting" at the opener's position |
| TokenTreeProps.TokenToTreeFlattens | src/tokentree/mod.rs:65-109 | A built tree, flattened back into kinds and bracket positions, is exactly the tokens it read |
| TokenTreeProps.ParseGroupFlattens | src/tokentree/mod.rs:120-152 | A built group, flattened, is its opener, the tokens it read, and its closer, in input order |
| TokenTreeProps.ParseSeqFlattens | src/tokentree/mod.rs:54-63 | The top-level loop's trees flatten to those already built followed by every remaining token |
| TokenTreeProps.BuildFlattensBack | src/tokentree/mod.rs:54-63 | On success, the trees flatten back to the whole token sequence, so children keep input order and nothing is lost or added |
| TokenTreeProps.BuildPreservesCounts | src/tokentree/mod.rs:57-62 | On success, the number of leaves equals the number of non-bracket tokens, and the number of groups equals the number of opening brackets |
| TokenTreeProps.TokenToTreeBrackets | src/tokentree/mod.rs:65-109 | One tree is built exactly when its brackets close properly against the open stack |
| TokenTreeProps.ParseGroupBrackets | src/tokentree/mod.rs:120-152 | A group is built exactly when the rest of the input closes it properly |
| TokenTreeProps.ParseSeqBrackets | src/tokentree/mod.rs:54-63 | The top-level loop succeeds exactly when the remaining tokens are well bracketed |
| TokenTreeProps.BuildSucceedsIffWellBracketed | src/tokentree/mod.rs:54-152 | Building succeeds if and only if the tokens are well bracketed. Any bracket error aborts the build |
| TokenTreeProps.TreeDebugIgnoresPositions | src/tokentree/mod.rs:5-11 | Two trees that differ only in their own positions and those of the trees nested in them have the same Debug rendering, and so do their kinds, which the "Unexpected token" message shows |
| TokenTreeProps.BracketNamesDistinct | src/tokentree/mod.rs:136-139 | The expected mode and the closer named in a "Mismatched closing bracket" message are unambiguous: different ones are rendered differently |
| Ast.PosOfWrappedNode | src/parser/types/ast.rs:70-117 | A statement's and an expression's position is the stored position of the node they wrap |
| Ast.DebugIgnoresPositions | src/parser/types/ast.rs:14-68 | Two statements that differ only in positions have the same Debug rendering |
| Ast.DebugExpressionIgnoresPositions | src/parser/types/ast.rs:40-68 | Two expressions that differ only in positions have the same Debug rendering |
| Parsing.PeekSpec | src/parser/types/mod.rs:20-26 | An empty stream gives nothing and exactly "Unexpected EOF". Otherwise it gives the front tree, unconsumed, with no message |
| Parsing.IdentSpec | src/parser/mod.rs:139-155 | A non-empty stream always loses its front tree, whatever that tree is; an empty stream stays empty |
| Parsing.ExpressionSpec | src/parser/mod.rs:117-137 | An expression reads at most its one tree |
| Parsing.BeSpec | src/parser/mod.rs:71-87 | A `be` statement reads at least its `be` tree |
| Parsing.BeEqualsSpec | src/parser/mod.rs:88-97 | The rest of a `be` statement never grows the stream |
| Parsing.BeSemicolonSpec | src/parser/mod.rs:98-114 | The `;` stage never grows the stream |
| Parsing.StatementSpec | src/parser/mod.rs:56-69 | A non-empty stream loses at least one tree. An empty stream gives exactly "Unexpected EOF" |
| Parsing.ProgramSpec | src/parser/mod.rs:41-54 | Statements are parsed until the stream is empty; each tree read builds at most one statement, so there are never more statements than trees |
| Parsing.Parser.constructor | src/parser/types/mod.rs:13-18 | A new parser holds the given trees in order and an empty error list |
| Parsing.Parser.PeekToken | src/parser/types/mod.rs:20-26 | Follows the peek specification: the stream is unchanged, and the errors are the old ones plus its messages |
| Parsing.Parser.ParseIdent | src/parser/mod.rs:139-155 | Follows the identifier specification; the errors are only appended to |
| Parsing.Parser.ParseExpression | src/parser/mod.rs:117-137 | Follows the expression specification; the errors are only appended to |
| Parsing.Parser.ParseBeStatement | src/parser/mod.rs:71-87 | Follows the `be` statement specification; the errors are only appended to |
| Parsing.Parser.ParseBeRest | src/parser/mod.rs:88-114 | Follows the specification of the part after the identifier; the errors are only appended to |
| Parsing.Parser.ParseStatement | src/parser/mod.rs:56-69 | Follows the statement specification; the errors are only appended to |
| Parsing.Parser.ParseProgram | src/parser/mod.rs:41-54 | Loops until the stream is empty. The statements returned, and the messages appended, are those of the statement-list specification |
| ParserProps.BeStage | src/parser/mod.rs:73-87 | After `be` and an optional `mut`, a missing identifier stops the statement there. Otherwise the statement goes on after the identifier |
| ParserProps.EqualsStage | src/parser/mod.rs:88-97 | After the identifier: `=` is required; the value is then peeked and must be an identifier |
| ParserProps.BeMissingIdentifier | src/parser/mod.rs:80-86 | Reports "Expected identifier after 'be'" at the `be` tree's position. `mut` is consumed and the offending tree is left unread |
| ParserProps.BeMissingEquals | src/parser/mod.rs:88-93 | Reports "Expected '=' after identifier" at the identifier's position, and leaves the tree in its place unread |
| ParserProps.BeValueAtEnd | src/parser/mod.rs:117-119 | A stream that ends after `=` reports exactly "Unexpected EOF" |
| ParserProps.BeValueNotIdentifier | src/parser/mod.rs:119-133 | A value that is not an identifier reports "Unexpected token" with its Debug kind and position, and is not consumed |
| ParserProps.BeMissingSemicolon | src/parser/mod.rs:98-104 | Reports "Expected ';' after expression" at the value's position, and leaves the tree in its place unread |
| ParserProps.BeParsed | src/parser/mod.rs:108-113 | A well-formed statement carries the `be` position, the identifier's text and position, and the value. is_mut is true exactly when `mut` follows `be`. No message is added, and the trees after `;` are left unread |
| ParserProps.NonBeStatement | src/parser/mod.rs:61-65 | Any other front tree is consumed alone, "Not yet implemented" is appended, and nothing is built |
| ParserProps.StatementConsumesPrefix | src/parser/mod.rs:56-69 | A statement reads a non-empty prefix of the stream and leaves the rest untouched, so the loop terminates |
| ParserProps.BeConsumesPrefix | src/parser/mod.rs:71-114 | A `be` statement reads a non-empty prefix of the stream |
| ParserProps.EqualsConsumesPrefix | src/parser/mod.rs:88-114 | The part after the identifier reads a prefix of what is left |
| ParserProps.StatementMessages | src/parser/mod.rs:56-69 | A statement is built exactly when it adds no message, and it never adds more than one |
| ParserProps.BuiltAtFront | src/parser/mod.rs:58-60 | A built statement is a `be` statement at the front tree's position |
| ParserProps.Attempts | src/parser/mod.rs:44-51 | The loop makes at least one attempt on a non-empty stream, and never more attempts than there are trees |
| ParserProps.ProgramMessages | src/parser/mod.rs:41-54 | The list has one message for each attempted statement that was not built, so no failure is silent |
| ParserProps.StatementPositionsFromBe | src/parser/mod.rs:73 | Every statement in the result is a `be` statement carrying the position of a `be` tree of the input |
| ParserProps.RenderThenParse | src/parser/mod.rs:71-115 | Rendering a `be` statement as its trees and parsing them gives the statement back, with no message and the following trees unread |
| ParserProps.ProgramRoundTrip | src/parser/mod.rs:41-54 | Parsing the rendered trees of any list of `be` statements gives the whole list back, in order, with no message |
| Driver.Collect | src/main.rs:23-24 | Draining a fresh cursor gives the lexer's whole token sequence, or its first error |
| Driver.FrontEnd | src/main.rs:24-25 | A lexer error is the result, before any bracket is looked at; on success there are at most as many top-level trees as characters |
| Driver.FrontEndOutcome | src/main.rs:24-25 | Lexing then building succeeds exactly when lexing succeeds and the tokens are well bracketed. The trees then flatten back to the tokens |
| Driver.UnclosedExample | src/tokentree/mod.rs:148-151 | `(a` fails with "Unclosed bracket starting at line 1, column 1" |

## Where the code and its documented behaviour differ

The model follows the code in each of these cases.

- **Unterminated string.** The lexer yields no item for an unterminated string, so the stream ends silently (src/lexer/mod.rs:144-149). No error is reported.
- **Unexpected token.** The tree reported as "Unexpected token" is not consumed (src/parser/mod.rs:125-132).
- **Literal expressions.** Literal trees are not parsed as expressions: only an identifier is accepted as a value (src/parser/mod.rs:120-133).
- **Parsing an identifier on an empty stream.** It gives nothing and adds no message (src/parser/mod.rs:141). It is only reached after the front tree was seen to be an identifier.
- **One statement, several messages.** A `be` statement whose `=` is missing reports "Expected '=' after identifier" and leaves the tree in its place unread, so the statement loop goes on from there (src/parser/mod.rs:88-93). For `be x 5 ;` this gives three messages and no statement: the missing `=`, then "Not yet implemented" for `5` and again for `;`.
- **Where a missing `;` is reported.** "Expected ';' after expression" carries the position of the value expression, not the position after it (src/parser/mod.rs:98-104).
- **Entry point.** It lexes and builds trees, and never calls the parser (src/main.rs:23-26). `Driver` models exactly that composition.

`Classify` and `LexerCursor.Next` check the table of one-character tokens first, then the six lookahead operators, the string quote, digits and word starts. The source does this with a single `match`. Both give the same token for every character.

## Left out

- **Positions.** Positions are character indices. The source advances by the UTF-8 width of each character (src/lexer/mod.rs:31), and only row and column reach the tokens.
- **Float literals.** The `f64` conversion and its Debug form are not modelled. A Float token keeps its literal text. The "Invalid float literal" branch cannot be reached for digits-dot-digits input, so it has no counterpart.
- **Debug escapes.** Rust's Debug escaping of strings is modelled for quotes, backslashes and the common control characters. Its `\u{..}` escapes for other non-printable characters are not.
- **String parser.** The `StringParser` is called through a closure by `eat_while`. In the model, `LexerCursor.EatStringBody` is a separate loop that calls `StringParser.Condition` directly.
- **Integer width.** The 64-bit size of `usize` rows and columns is not modelled (they are unbounded naturals). The i64 range is modelled explicitly.
- **TokenTrees.ParseGroup.** Its contract does not state that the children keep input order; `TokenTreeProps.ParseGroupFlattens` and `TokenTreeProps.BuildFlattensBack` state the order instead.
- **Types the parser never builds.** The `Precedence` enum, return statements, expression statements and literal expressions exist in src/parser/types/ast.rs and src/parser/types/mod.rs but are never constructed. The AST datatypes include them; no parsing is invented for them.
- **Older parser copies.** src/parser/ast/mod.rs and src/parser/ast/types.rs are a superseded parser that is not in the module tree. src/parser/types/ast/mod.rs is an older subset of src/parser/types/ast.rs. None of them is part of this model.
- **Macros.** `peek_is!` is written out as predicates on the front tree. `extract!` is not used by the modelled code.
- **Source.** The `Source` type that src/lexer/mod.rs:3 imports is not part of this model. The model takes it to be a peekable iterator over the characters of the input, next to the input text that positions index into, which is the shape src/lexer/mod.rs:22-57 relies on. `LexerCursor` keeps the text as `src` and peeks and advances by index.
- **Entry point I/O.** Argument parsing, file reading, printing and the process exit code in src/main.rs are not part of this model.
