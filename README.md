# json_parser in Dafny

A model of the core of `json_parser`, a small Rust JSON-like pipeline. It has four parts:

- **Tokens** (`src/token.rs`): the closed set of eleven token kinds.
- **Lexer** (`src/lexer.rs`): a character cursor that turns text into tokens.
  - Each whitespace character becomes its own token.
  - Strings are read raw, with no escapes.
  - An unterminated string quietly becomes an empty string token.
  - A number is the maximal run of digits and dots.
  - `t`, `f` and `n` start a fixed-length keyword probe.
- **Parser** (`src/parser.rs`): recursive descent over a peekable token cursor.
  - The only root it accepts is an object.
  - A value is peeked before it is read, and a `{` in value position is left for the object loop, which wants a key; so a nested object can never parse.
  - After a pair the closing `}` is only peeked and left unread; the `}` of an empty object is consumed. Tokens after the object are ignored.
  - A numeral that is not a float panics.
- **Values** (`src/value.rs`): the value tree and its two renderers, the compact `Display` text and the indented structural dump `ast_fmt`.

Each stage has two parts:

- **Pure specification functions.**
  - `Lexing.Lex` gives the tokens of a text.
  - `Parsing.ParseSpec` and its stage functions give the outcome of a parse on the remaining tokens.
  - `Values.Compact` and `Values.Ast` give the rendered texts.
- **The imperative code, written the way the source is.**
  - `Lexing.Lexer` is a class with a cursor `index` into the input.
  - `Parsing.Parser` is a class with a cursor `pos` into the tokens.
  - `Values.Display` and `Values.AstFmt` append to a `Values.Formatter` buffer, in loops over pairs and elements.

Each method is proved to do exactly what its specification function says. The properties of the source are then proved about those functions:

- `LexerProperties` for the lexer;
- `ParserProperties` for the parser;
- `CompactProperties` for the compact text;
- `DumpProperties` for the structural dump.

`RoundTrip` links all three stages. Take a flat object whose keys and strings hold no `"` and whose numbers render as numerals that convert back. Its compact text lexes and parses back to the same object. Every object that lexing and parsing produce meets the condition on keys and strings, because the parser copies them from string tokens and the lexer never puts a `"` in one; so such an object survives rendering, lexing and parsing whenever its numbers do.

Modelling choices:

- Rust's `f64` is a 64-bit pattern (`F64`). Two conversions are function parameters:
  - `str::parse::<f64>` is `parseF64: string -> Option<F64>`;
  - the float's `Display` is `showF64: F64 -> string`.
- The panic of `.parse().unwrap()` is its own outcome, `Panicked(numeral)`. It is kept apart from the parse errors.
- Error messages become datatypes of error kinds: `LexError` and `ParseError`.
- Digits are `'0'..'9'`, and the input is taken to be ASCII.

## Model

| member | source | states |
|---|---|---|
| Tokens.PayloadFreeTokens | src/token.rs:1-14 | the tokens without payload are exactly the six punctuation tokens, `Whitespace` and `Null`; `String`, `Number` and `Boolean` carry data |
| Lexing.StringBody | src/lexer.rs:89-99 | a string body is missing exactly when no `"` follows; otherwise it is the text up to the first `"`, holds no `"`, and the text resumes after that quote |
| Lexing.NumberRunLength | src/lexer.rs:105-112 | the run taken after a number's first digit is the maximal prefix of digits and dots |
| Lexing.ScanToken | src/lexer.rs:39-73 | every token scanned consumes at least one character |
| LexerProperties.PunctuationTokens | src/lexer.rs:42-51 | `Punctuation`: exactly `{ } [ ] , :` are punctuation, each standing for a token that carries no text |
| LexerProperties.ProbeLengths | src/lexer.rs:58 | `ProbeLength`: a probe takes 3 more characters after `t` and `n` and 4 after `f`, the length of the constant each can become |
| LexerProperties.ScanStringShape | src/lexer.rs:46-48 | `ScanString`: the token is a string with no `"`; with a `"` left the input is its text, the quote, then what remains; with none it is empty and nothing remains |
| LexerProperties.ScanNumberShape | src/lexer.rs:54-56 | `ScanNumber`: the numeral is the first digit followed by exactly the characters taken, all digits or dots, and what remains cannot continue it |
| LexerProperties.ScanKeywordShape | src/lexer.rs:57-66 | `ScanKeyword`: too little input is "Unexpected end of input"; a full probe is a constant token and leaves the input after the probe, or is "Invalid constant" with the probed text |
| LexerProperties.ScanFromCases | src/lexer.rs:41-72 | `ScanFrom`: punctuation and whitespace are one-character tokens; a step fails only in a keyword probe or as "Invalid character" on a character that starts no token |
| LexerProperties.LexTokenCount | src/lexer.rs:13-21 | `Lex`: every token takes at least one character, so a scan yields at most one token per character and at least one on input that is not empty |
| Lexing.Lexer.constructor | src/lexer.rs:9-11 | a new lexer starts at index 0 of its input |
| Lexing.Lexer.HasNext | src/lexer.rs:35-37 | there is input left exactly when the unscanned rest is not empty |
| Lexing.Lexer.PeekChar | src/lexer.rs:31-33 | gives the next character without moving, or nothing at the end |
| Lexing.Lexer.NextChar | src/lexer.rs:23-29 | gives the next character and advances by one; at the end it gives nothing and stays |
| Lexing.Lexer.ReadConstant | src/lexer.rs:75-87 | with `len` characters left, gives the initial character followed by the next `len` and consumes them; with fewer left, gives nothing |
| Lexing.Lexer.ReadString | src/lexer.rs:89-99 | gives the body up to the next `"` and consumes the quote; with no `"` left, gives nothing and consumes everything |
| Lexing.Lexer.ReadNumber | src/lexer.rs:101-115 | gives the initial character followed by the maximal run of digits and dots, and consumes exactly that run |
| Lexing.Lexer.NextToken | src/lexer.rs:39-73 | returns the token, or the error, of the scan of the unscanned rest, and leaves the rest the scan leaves |
| Lexing.Lexer.Tokenize | src/lexer.rs:13-21 | returns `Lex` of the unscanned input, the first error aborting it; on success the whole input is consumed |
| Lexing.TokenizeText | src/lexer.rs:9-21 | a new lexer's `tokenize` on a text is `Lex` of that text |
| LexerProperties.LexPunctuation | src/lexer.rs:42-51 | each of `{ } [ ] , :` consumes one character and yields its one token |
| LexerProperties.LexWhitespaceRun | src/lexer.rs:52 | a run of whitespace yields one `Whitespace` token per character, not collapsed |
| LexerProperties.LexString | src/lexer.rs:46-48 | a quoted text with no `"` inside yields one `String` token holding exactly the text between the quotes, then lexing resumes after the closing quote |
| LexerProperties.LexUnterminatedString | src/lexer.rs:47-48 | a `"` with no closing quote is no error: it yields `String("")` and ends the token list |
| LexerProperties.LexedStringsHaveNoQuote | src/lexer.rs:93 | no `String` token of a successful lex holds a `"` |
| LexerProperties.LexNumber | src/lexer.rs:54-56 | a numeral starting with a digit and followed by a character that is not a digit or dot yields one unvalidated `Number` token with that text |
| LexerProperties.KeywordTokens | src/lexer.rs:59-64 | `Keyword`: only `true`, `false` and `null` are keywords; any other probed text is "Invalid constant" with that text |
| LexerProperties.LexProbeCutShort | src/lexer.rs:58-65 | running out of input during a keyword probe is "Unexpected end of input" |
| LexerProperties.LexProbeInvalid | src/lexer.rs:58-63 | a probe of 3 characters after `t` or `n`, or 4 after `f`, that is not a keyword is "Invalid constant" with the probed text |
| LexerProperties.LexProbe | src/lexer.rs:57-62 | a probe that is a keyword yields its token and lexing resumes after the probe |
| LexerProperties.LexConstants | src/lexer.rs:60-62 | `true`, `false` and `null` yield `Boolean(true)`, `Boolean(false)` and `Null` |
| LexerProperties.LexInvalidCharacter | src/lexer.rs:67-69 | any other character is "Invalid character", and the whole lex fails with no partial token list |
| LexerProperties.LexExampleNumber | src/lexer.rs:101-115 | `1.2.3` lexes as one `Number` token |
| LexerProperties.LexExampleWhitespace | src/lexer.rs:42-52 | `{ }` lexes as `{`, one `Whitespace` and `}` |
| LexerProperties.LexExampleNoEscapes | src/lexer.rs:89-99 | a backslash in a string is kept as it is |
| LexerProperties.LexExampleErrors | src/lexer.rs:47-71 | an unterminated string gives `String("")`; a cut-short keyword, an invalid constant and an invalid character give their errors |
| Values.Indent | src/value.rs:52 | the indent at depth `d` is `d` spaces |
| Values.NatText | src/value.rs:52 | a size is printed as a non-empty run of decimal digits with no leading zero, whose decimal value is the size |
| Values.Formatter.Write | src/value.rs:17 | a write appends its text to the formatter's output |
| Values.Display | src/value.rs:13-42 | appends exactly the compact text of the value |
| Values.DisplayObject | src/value.rs:16-25 | the object arm appends `{`, the entries with `, ` between neighbours, then `}` |
| Values.DisplayArray | src/value.rs:26-35 | the array arm appends `[`, the elements with `, ` between neighbours, then `]` |
| Values.AstFmt | src/value.rs:48-73 | appends exactly the structural dump of the value at the given depth |
| Values.AstFmtObject | src/value.rs:51-58 | the object arm appends the header, each key line with its value dumped four deeper, then the closing line |
| Values.AstFmtArray | src/value.rs:59-66 | the array arm appends the header, each element after an indent of depth+2 and dumped at depth+2, then the closing line |
| Values.AstWrapperFmt | src/value.rs:77-80 | the wrapper appends the dump at depth 0 |
| Values.RenderCompact | src/value.rs:13-42 | rendering into an empty formatter gives exactly the compact text |
| Values.RenderAst | src/value.rs:75-80 | rendering the wrapper into an empty formatter gives exactly the dump at depth 0 |
| CompactProperties.CompactObject | src/value.rs:16-25 | an object renders as `{`, its `"key": value` entries in stored order joined by `, ` (nothing before the first or after the last), then `}` |
| CompactProperties.CompactArray | src/value.rs:26-35 | an array renders as `[`, its elements in stored order joined by `, `, then `]` |
| CompactProperties.CompactMembersJoin | src/value.rs:18-23 | `CompactMembers`: the first `n` entries written by the object loop are their `"key": value` texts joined by `, ` |
| CompactProperties.CompactElementsJoin | src/value.rs:28-33 | `CompactElements`: the first `n` elements written by the array loop are their texts joined by `, ` |
| CompactProperties.CompactEmpty | src/value.rs:16-35 | empty containers render as `{}` and `[]` |
| CompactProperties.CompactObjectExample | src/value.rs:22-39 | duplicate keys are rendered in order, and a `"` inside a string is not escaped |
| CompactProperties.CompactArrayExample | src/value.rs:28-38 | booleans print as `true` and `false` |
| DumpProperties.LeafNewlines | src/value.rs:67-70 | a leaf whose string text, or rendered number, holds no line break dumps as exactly one line |
| DumpProperties.AstMultiLineString | src/value.rs:67 | a line break inside a string is written raw, so the string `a`, line break, `b` dumps over two lines |
| DumpProperties.HeaderNewlines | src/value.rs:52-65 | headers and closing lines are one line each |
| DumpProperties.AstLines | src/value.rs:48-73 | when no key or string holds a line break and no number renders with one, the dump has one line per leaf plus two per container |
| DumpProperties.AstMemberLines | src/value.rs:53-56 | `AstMembers`: when no text holds a line break, the key lines of the first `n` pairs, each completed by its value's dump, hold as many lines as those values' dumps: one per leaf and two more per container |
| DumpProperties.AstElementLines | src/value.rs:61-64 | `AstElements`: when no text holds a line break, the first `n` elements, each after its indent, hold as many lines as their dumps: one per leaf and two more per container |
| DumpProperties.AstMembersConcat | src/value.rs:53-56 | `AstMembers`: the first `n` pairs written by the object loop are, in stored order, each key prefix at depth+2 followed by its value dumped at depth+4 |
| DumpProperties.AstElementsConcat | src/value.rs:61-64 | `AstElements`: the first `n` elements written by the array loop are, in stored order, each indent of depth+2 followed by the element dumped at depth+2 |
| DumpProperties.AstObjectLayout | src/value.rs:51-58 | an object dumps as its size header, then every pair in stored order with its key prefix and its value four deeper, then the closing `}` line |
| DumpProperties.AstArrayLayout | src/value.rs:59-66 | an array dumps as its size header, then every element in stored order after an indent and two deeper, then the closing `]` line |
| DumpProperties.AstFraming | src/value.rs:48-73 | every dump at depth `d` starts with `d` spaces and ends with a line break |
| DumpProperties.AstLeafExample | src/value.rs:70 | `Null` at depth 2 dumps as two spaces, `Null`, then a line break |
| DumpProperties.AstArrayExample | src/value.rs:59-66 | a leaf inside an array gets the array's indent twice |
| DumpProperties.AstPairExample | src/value.rs:54-55 | a key line is the indent of depth+2 followed by `Key: k, Value: `; the value follows on that line, dumped four deeper |
| DumpProperties.AstObjectExample | src/value.rs:51-58 | the object with the single pair `a`: `true` dumps as its header, the key line with the value on it, then the closing line |
| Parsing.SkipWs | src/parser.rs:93-97 | skipping whitespace leaves no more tokens than it was given, and what it leaves is empty or starts with a token that is not whitespace |
| ParserProperties.SkipWsDropsOnlyWhitespace | src/parser.rs:93-97 | skipping whitespace leaves a suffix of the tokens, and every token it drops is whitespace |
| Parsing.ParseSpec | src/parser.rs:18-27 | every successful parse consumes at least one token |
| Parsing.ObjectSpec | src/parser.rs:29-66 | a completed object loop has consumed at least one token |
| Parsing.PairSpec | src/parser.rs:35-43 | a completed pair, counted from the token after its key, has consumed at least one token |
| Parsing.AfterPairSpec | src/parser.rs:44-53 | the comma-or-brace step never adds tokens to what is left |
| Parsing.ValueSpec | src/parser.rs:68-91 | a value that is read has consumed at least one token |
| Parsing.Parser.constructor | src/parser.rs:12-16 | a new parser's cursor is at the first token |
| Parsing.Parser.Peek | src/parser.rs:45 | gives the next token without moving, or nothing at the end |
| Parsing.Parser.Next | src/parser.rs:34 | gives the next token and advances by one; at the end it gives nothing and stays |
| Parsing.Parser.SkipWhitespace | src/parser.rs:93-97 | advances past exactly the leading whitespace tokens |
| Parsing.Parser.Parse | src/parser.rs:18-27 | returns the outcome of `ParseSpec` on the unread tokens and leaves unread what it leaves |
| Parsing.Parser.ParseObject | src/parser.rs:29-66 | returns the outcome of the object loop on the unread tokens, starting from no pairs, and leaves unread what it leaves |
| Parsing.Parser.ParseMember | src/parser.rs:35-43 | after a key, reads `:` after whitespace and then a value: on success it returns exactly the value `ValueSpec` reads after the `:`, leaves the cursor where that read ends, and the pair step goes on as the comma-or-brace step from there with the pair appended; a missing `:`, a value error and a panic are those of `PairSpec` |
| Parsing.Parser.ParseValue | src/parser.rs:68-91 | returns the outcome of the value step on the unread tokens and leaves unread what it leaves |
| Parsing.ParseTokens | src/parser.rs:12-27 | a new parser's `parse` on tokens is `ParseSpec` of those tokens |
| ParserProperties.ParseNeedsObjectRoot | src/parser.rs:19-25 | "No tokens to parse" occurs exactly when the first token that is not whitespace is missing or is not `{` |
| ParserProperties.NoRootErrorInObject | src/parser.rs:29-66 | the object loop never reports "No tokens to parse" |
| ParserProperties.NestedObjectFails | src/parser.rs:71-72 | a `{` where a value is expected is peeked, not consumed, so the object loop fails with "Expected string key or right brace" |
| ParserProperties.ValueCases | src/parser.rs:68-91 | a value parses exactly when the next token is a string, boolean, null, or number whose numeral converts; `[`, `]`, `}`, `,`, `:` and the end are "Unexpected token"; a numeral that does not convert panics |
| ParserProperties.ValueIsScalar | src/parser.rs:68-91 | every parsed value is a String, Number, Boolean or Null |
| ParserProperties.ObjectCases | src/parser.rs:55-62 | where a key is expected, `}` gives an empty object while no pair has been read and "Unexpected right brace" afterwards; anything else that is not a string is "Expected string key or right brace" |
| ParserProperties.PairCases | src/parser.rs:36-42 | a key not followed by `:` is "Expected colon" |
| ParserProperties.AfterPairCases | src/parser.rs:44-53 | after a value, anything but `,` or `}`, the end included, is "Expected comma or right brace" |
| ParserProperties.TrailingCommaRejected | src/parser.rs:46-60 | `,` then `}` after a pair is "Unexpected right brace", whatever whitespace lies between |
| ParserProperties.ParseEmptyObject | src/parser.rs:55-65 | `{}` parses to the empty object |
| ParserProperties.ParseTrailingComma | src/parser.rs:55-60 | `{"a": null,}` fails with "Unexpected right brace" |
| ParserProperties.ParseBadNumeral | src/parser.rs:77-79 | a numeral that does not convert makes the whole parse panic |
| ParserProperties.ObjectExtends | src/parser.rs:30-39 | the object loop only appends: its result starts with the pairs already read, and every value is a scalar |
| ParserProperties.ParseIsFlatObject | src/parser.rs:18-66 | every successful parse is an object of scalar values; after a non-empty object the `}` is left unread |
| ParserProperties.ParseIgnoresWhitespace | src/parser.rs:18-97 | removing every whitespace token changes neither the value, nor the error, nor the panic |
| ParserProperties.ParsedTextsFromTokens | src/parser.rs:35-75 | every key and every string value of a parsed object is the text of a string token it was given |
| ParserProperties.ParseIgnoresTrailing | src/parser.rs:18-50 | tokens after a successful parse are never looked at: appending them changes nothing but the unread rest |
| RoundTrip.LexCompactObject | src/value.rs:16-25 | the compact text of a flat, renderable object lexes to `{`, each entry's key, `:`, space and value tokens with `,` and space between entries, then `}` |
| RoundTrip.ParseMembers | src/parser.rs:32-53 | the tokens of rendered entries parse to those pairs, appended in order with repeated keys kept, leaving the `}` unread |
| RoundTrip.ParseCompactTokens | src/parser.rs:18-66 | the tokens of a rendered flat object parse back to that object |
| RoundTrip.RenderLexParse | src/value.rs:16-25 | a flat object with no `"` in keys or strings, whose numbers render as numerals that convert back, survives render, lex and parse unchanged |
| RoundTrip.TokenHasNoQuote | src/lexer.rs:89-99 | no text of a string token of a successful lex holds a `"` |
| RoundTrip.LexParseRoundTrip | src/value.rs:13-42 | an object obtained by lexing and parsing a text renders to a compact text that lexes and parses back to it, as long as its numbers render as numerals that convert back; objects without numbers always do |

## Left out

- `src/main.rs` is not part of this model. It reads a fixed file path, prints the tokens, and exits on errors, all of which is I/O.
- Floating point is abstract. `str::parse::<f64>` and the `Display` of `f64` are the parameters `parseF64` and `showF64`, so no property of decimal conversion is proved.
- Unicode is not modelled. `char::is_numeric` accepts every Unicode numeric character, while the model accepts only `'0'..'9'`. Rust also slices the input by bytes while `index` counts characters, which can panic on non-ASCII input. The model indexes characters and takes the input to be ASCII.
- The exact error-message strings are not modelled. Errors are the kinds in `LexError` and `ParseError`.
- The `fmt::Result` that `write!` returns is not modelled. The formatter is an append-only buffer that never fails.
- `Peekable<Iter<JsonToken>>` is modelled as an index `pos` into a sequence of tokens. Borrowing and the iterator's lifetime are not modelled.
- RoundTrip.RenderLexParse: holds only for flat objects whose keys and strings hold no `"` and whose numbers render as numerals that convert back. The renderer does not escape quotes, and the parser cannot read nested objects or arrays.
