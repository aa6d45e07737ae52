# STM JSON parser, modelled in Dafny

The STM JSON parser is a small C library for embedded boards. It reads one
JSON object whose members are flat scalars (`{"key": value, ...}`), in two
passes:

- the **lexer** scans a NUL-terminated string of at most 256 characters and
  fills a static table of at most 50 tokens;
- the **object parser** walks that table with an index and writes every
  `key : value` pair into one value record, so the record ends up holding
  the last pair.

The parser handles a restricted subset of JSON. It has no escapes, nesting,
arrays or booleans, and numbers are truncated to integers by `atoi`. A `*`
ends the input at the top level.

The project has six modules:

| module | file | contents |
|---|---|---|
| `JsonTypes` | `json_types.dfy` | token kinds, tokens, value tags, values with an optional key, the errors that replace `printf` + `exit(1)` |
| `Lexer` | `lexer.dfy` | `Lex`, the scan as a function; `TokenTable`, the fixed table behind `append_token`, as a class over an array; `Tokenize`, the imperative scan, proved equal to `Lex` |
| `Values` | `values.dfy` | `parse_value` and the `atoi` it calls |
| `Parser` | `parser.dfy` | `ObjectAt`, parse_object as a function; `ParseObject`, its loop, proved equal to `ObjectAt`; `ParseJson`, the driver |
| `LexerProperties` | `lexer_properties.dfy` | what each kind of character does, the shape of every token produced, the size limits, the star |
| `ParserProperties` | `parser_properties.dfy` | the grammar of accepted objects as a token generator: the parser accepts exactly its outputs, returns the last pair, and reports the first violated check |

How the C is mapped into Dafny:

- A C string is a `string`, and each Dafny `char` stands for one C `char`,
  that is, one byte. A character that takes several bytes in the C program's
  encoding is several elements of the model's input, so the 256 limit and
  `UnknownChar` are about bytes, as in C.
- The code reads a character at an index with `CharAt`, which gives `'\0'`
  past the end of the sequence. The input may hold NUL characters before
  that end, standing for the bytes of the C buffer after its terminator. At
  the top level a NUL stops the scan. A NUL that ends a string is stepped
  over, as `pos++` at stm_json_parser.c:72 does, and the scan goes on. The
  length check uses `StrLen`, the index of the first NUL.
- Each `printf` + `exit(1)` becomes an `Err` result.
- The pointers `obj` and `token_index` of `parse_object` become values that
  are passed in and returned in a `Parsed` record.

## Model

| member | source | states |
|---|---|---|
| JsonTypes.Punctuation | stm_json_parser.c:44-61 | each punctuation token is spelled by exactly one character |
| Lexer.IsWhitespace | stm_json_parser.c:6-8 | `is_whitespace` accepts space, tab, LF and CR, none of which is a digit, a `-`, a `"`, a `*` or NUL, so whitespace never competes with another branch of the scan |
| Lexer.IsNumber | stm_json_parser.c:10-12 | `is_number` accepts exactly the ten decimal digits |
| Lexer.StrLen | stm_json_parser.c:36 | `strlen` is the index of the first NUL, or the whole length when there is none |
| Lexer.StringEnd | stm_json_parser.c:63-66 | the string scan stops at the first `"`, `*` or NUL at or after its start, and at no character before it |
| Lexer.NumberEnd | stm_json_parser.c:76-79 | the number scan stops at the first character that is neither a digit nor `.`, and every character it passes is one |
| Lexer.NextLexeme | stm_json_parser.c:42-91 | one pass of the branch chain: whitespace always advances; a token is appended without advancing only for a `-`, and that token is an empty Number |
| Lexer.LexFrom | stm_json_parser.c:41-92 | the scan loop only appends to the table, a successful scan never holds more than 50 tokens, and its only failures are TokenLimit and UnknownChar |
| Lexer.Lex | stm_json_parser.c:31-95 | the lexer fails with InputTooLarge exactly when the string before its first NUL is longer than 256, and a success holds at most 50 tokens |
| Lexer.TokenTable.constructor | stm_json_parser.c:33-34 | the token table starts empty, with 50 slots |
| Lexer.TokenTable.Append | stm_json_parser.c:14-29 | `append_token` fails exactly when 50 tokens are already stored; otherwise it appends one token with the given kind and text, the count grows by one and the earlier tokens are unchanged |
| Lexer.ScanString | stm_json_parser.c:63-66 | the inner string loop stops where `StringEnd` says |
| Lexer.ScanNumber | stm_json_parser.c:76-79 | the inner number loop stops where `NumberEnd` says |
| Lexer.ScanLexeme | stm_json_parser.c:42-91 | the branch chain of the scan loop computes `NextLexeme` |
| Lexer.Tokenize | stm_json_parser.c:31-95 | the imperative lexer, with its table, returns exactly `Lex`: the same tokens or the same error |
| LexerProperties.PunctuationToken | stm_json_parser.c:44-61 | each of `{ } [ ] : ,` appends one token of the matching kind, whose text is that character, and moves on by one; with a full table the scan fails with TokenLimit |
| LexerProperties.WhitespaceSkipped | stm_json_parser.c:73-74 | space, tab, LF and CR add no token and move on by one |
| LexerProperties.NullToken | stm_json_parser.c:85-87 | the literal `null` appends a Null token and moves on by four |
| LexerProperties.StringToken | stm_json_parser.c:62-72 | a String token holds exactly the characters between the opening quote and the first `"`, `*`, NUL or end of input, with no escape processing; the scan resumes after the terminator, or stops at the end of input |
| LexerProperties.NumberToken | stm_json_parser.c:75-84 | a Number token that starts at a digit is the maximal run of digits and dots, and the scan resumes right after the run |
| LexerProperties.MinusHitsTokenLimit | stm_json_parser.c:75-84 | a `-` appends empty Number tokens without advancing, whatever follows it, so the lexer always ends in TokenLimit |
| LexerProperties.UnknownCharRejected | stm_json_parser.c:88-91 | any character that starts no lexeme, other than `*` and NUL, is an UnknownChar error carrying that character |
| LexerProperties.BooleansRejected | stm_json_parser.c:88-91 | `true` and `false` are not literals: their first letter is rejected |
| LexerProperties.ProgressingLexemeIsLexical | stm_json_parser.c:44-87 | every lexeme that advances the position emits a well-formed token |
| LexerProperties.LexOutput | stm_json_parser.c:31-95 | a successful lex has at most 50 tokens, every token is well formed (punctuation spelled by itself, strings without quote or star, numbers of digits and dots starting with a digit, `null`), and no True or False token appears |
| LexerProperties.TooLargeRejected | stm_json_parser.c:36-39 | a NUL-free input longer than 256 characters is rejected before any token is produced |
| LexerProperties.StarCut | stm_json_parser.c:41 | a scan that reaches a top-level `*` gives the same result as the scan of the input cut at the star |
| LexerProperties.StarEndsScan | stm_json_parser.c:36-41 | the tokens depend only on the input before the first top-level `*`, apart from the length check, which counts the whole string |
| LexerProperties.EmbeddedNulInString | stm_json_parser.c:62-72 | a NUL inside the buffer that ends a string is stepped over: `"ab` NUL `}` lexes to the String `ab` and a `}` |
| LexerProperties.StarInsideString | stm_json_parser.c:62-72 | inside a string a `*` only ends the string; it is skipped and the scan goes on after it |
| Values.ParseValue | stm_json_parser.c:97-116 | a String, Number or Null token gives a value of the matching tag with no key, the String keeping its text; any other kind is an UnexpectedTokenType error naming the kind |
| Values.Atoi | stm_json_parser.c:106 | `atoi` is negative only when the text has a minus sign, and is 0 for a text without digits |
| Values.DecimalRoundTrip | stm_json_parser.c:106 | the digit reader inside `atoi` reads back every decimal numeral |
| Values.AtoiTruncates | stm_json_parser.c:106 | `atoi` of a numeral followed by a non-digit is the numeral's value: a fraction and anything after it are dropped |
| Values.NumberTokenValue | stm_json_parser.c:104-107 | a lexed Number token converts to the value of its leading digit run, which is 0 when the text is empty or starts with `.` |
| Values.NumberExamples | stm_json_parser.c:104-107 | `3.14` converts to 3 and the empty text to 0 |
| Parser.TokenAt | stm_json_parser.c:119 | reading at an index past the tokens is the EndOfTokens syntax error |
| Parser.Store | stm_json_parser.c:134-159 | one pair overwrites the key, the tag and the payload, so the value after it depends on that pair alone and its tag is the parsed value's tag |
| Parser.MembersAt | stm_json_parser.c:126-171 | a member loop that succeeds ends one past a closing brace, after where it started |
| Parser.MembersKeepOrKey | stm_json_parser.c:126-171 | a successful member loop leaves either the value it was given or a value that carries a key, since every stored pair sets the key |
| Parser.ObjectAt | stm_json_parser.c:118-172 | a successful parse_object started on a `{` and ends one past a `}`, at least two tokens later, leaving the given value or a keyed one |
| Parser.ParseObject | stm_json_parser.c:118-172 | the imperative loop of parse_object returns exactly `ObjectAt`: the same value and index, or the same error |
| Parser.Parse | stm_json_parser.c:174-187 | `parse_json` fails with InputTooLarge on an over-long string; a success lexed at least two tokens and returns the zeroed value or a value that carries a key |
| Parser.ParseJson | stm_json_parser.c:174-187 | `parse_json` lexes, then parses one object from index 0 into the zeroed value, and passes on the first error |
| ParserProperties.PairStep | stm_json_parser.c:126-170 | a well-formed `key : value` stores that key and value, then continues after a comma, stops after a `}`, or fails with ExpectedCommaOrClose |
| ParserProperties.CommaPairsPrefix | stm_json_parser.c:126-170 | pairs followed by commas leave the member loop holding the last of them, positioned just after them |
| ParserProperties.MembersComplete | stm_json_parser.c:126-171 | a member list (with or without a trailing comma) followed by `}` parses to its last pair or leaves the value unchanged, and ends one past the `}` |
| ParserProperties.ObjectComplete | stm_json_parser.c:118-172 | every generated object, followed by any tokens, parses to its last pair, with the index one past its `}` |
| ParserProperties.PairShape | stm_json_parser.c:126-170 | when the member loop accepts a non-`}` token, that token starts a well-formed `key : value` followed by `,` or `}` |
| ParserProperties.MembersSound | stm_json_parser.c:126-171 | whatever the member loop accepts is a generated member list followed by `}`, and the value it returns is that list's last pair |
| ParserProperties.ObjectSound | stm_json_parser.c:118-172 | whatever parse_object accepts at index 0 starts with a generated object that ends where the parse ends, and the value returned is that object's last pair |
| ParserProperties.TokensSound | stm_json_parser.c:174-186 | an accepted token sequence is a generated object followed by ignored tokens |
| ParserProperties.FirstViolation | stm_json_parser.c:126-170 | after `{` and well-formed pairs, the parse fails on the first bad token: EndOfTokens, ExpectedStringKey, ExpectedColon, UnexpectedTokenType of the value, or ExpectedCommaOrClose |
| ParserProperties.NoOpeningBrace | stm_json_parser.c:119-123 | an object that does not start with `{` is an ExpectedOpenBrace error |
| ParserProperties.ParseSound | stm_json_parser.c:174-187 | when parse_json succeeds, the lexer's tokens are a generated object followed by ignored tokens, and the result is that object's last pair, or the zeroed value for `{}` |
| ParserProperties.ParseComplete | stm_json_parser.c:174-187 | conversely, when the tokens start with a generated object, parse_json returns its last pair |
| ParserProperties.EmptyObject | stm_json_parser.c:124-126 | `{}` leaves the value unchanged, and the index ends after the `}` |

## Left out

- Diagnostics and termination: each `printf` followed by `exit(1)` is an `Err` result naming the failure; stopping the process is not modelled.
- Memory: `malloc`, `strdup`, `strcpy`, `strncpy` and `free`, and the leaks of the old key and string at stm_json_parser.c:134 and 150, are not modelled, because strings here are values.
- The allocation-failure exit at stm_json_parser.c:23-26 is not modelled, because allocation cannot fail in the model.
- The static token table at stm_json_parser.c:34 is not reused across calls. `Tokenize` starts a fresh table on every call, so the non-reentrancy of the C, and the stale entries a later call can see, are not captured.
- Values.Atoi: C's `int` overflow on long digit runs is undefined behaviour; the model reads the digits into an unbounded integer.
- The `double number` field of the value union and the `int null` field are not modelled, and neither is how the union members overlap. A Null value carries no payload.
- `TOKEN_TRUE` and `TOKEN_FALSE` are declared, but the lexer never produces them (LexerProperties.LexOutput).
- End of input inside a string: when the string runs into the end of the input buffer, the C steps past the terminator at stm_json_parser.c:72 and then reads out of bounds at line 41, which is undefined behaviour. As a modelling choice, the lexer emits the text collected so far and stops there (`Lexer.NextLexeme`). A NUL before the end of the sequence is stepped over as in C (`LexerProperties.EmbeddedNulInString`).
- Encodings: a Dafny `char` stands for one byte. A multi-byte character has to be given as its separate bytes; as a single `char` it would be counted once by `StrLen` and reported whole by `UnknownChar`, where the C counts and prints bytes.
- Running out of tokens: `parse_object` never compares the index with the token count, so it reads stale or zeroed table entries. As a modelling choice, reading past the end is the EndOfTokens syntax error (`Parser.TokenAt`).
- Parser.ParseObject: the value and the token index, which the C updates through pointers, are passed in and returned. Aliasing between them and the caller is not modelled, and neither are the partial writes seen by a caller after a failure, since the C exits at that point.
- Lexer.Tokenize: in the C each branch of the scan loop calls `append_token` itself. The model computes the branch's token first (`Lexer.ScanLexeme`) and then makes one `TokenTable.Append` call. Tokens are appended in the same order.
