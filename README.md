# TryParsec JSON grammar in Dafny

This project models the JSON support of TryParsec, a parser-combinator
library for Swift, as the test suite `Tests/TryParsecTests/Specs/JSONSpec.swift`
pins it down. It covers:

- the parse result (`Done` with the remaining input and an output, or `Fail`
  with the remaining input, a context stack and a message);
- the combinators the grammar is built from: `satisfy`, `char`, `string`,
  `map`, sequencing, `<|>`, `zeroOrOne`, `many`, `many1`, `sepBy`, `between`,
  `skipSpaces` and `endOfInput`. Also modelled, though the grammar does not
  use it, is `try`, with its laws (`Parsers.TrySpec`, `Parsers.TryOrElse`,
  `Parsers.TryBacktracks`);
- the JSON productions `jsonNull`, `jsonBool`, `jsonString`, `jsonNumber`,
  `jsonArray`, `jsonObject` and `jsonValue`, and the entry point `parseJSON`;
- the JSON syntax tree, with the accessors `json[key]`, `json[index]`,
  `rawBool`, `rawNumber`, `rawString` and `rawNull`;
- `decode` into `[Double]` and `[String: Double]`.

Everything is pure.

- **Parsers.** A parser is a function from the remaining input (a
  `seq<char>`) to a reply (module `Parsers`).
- **Leaf parsers.** These are combinator expressions (module `JsonParser`).
- **Recursive productions.** Values, arrays and objects refer to each other,
  so they are written as mutually recursive functions over the input
  (`ValueAt`, `ArrayAt`, `ObjectAt`, …). They terminate because `[` and `{`
  are consumed before any nested value is read.
- **Grammar lemmas.** Module `JsonGrammar` proves that each of these functions
  equals the combinator expression it stands for: `sepBy`, `between`,
  `skipSpaces`, `<|>`.
- **Numbers.** Numbers are exact rationals (`real`). A literal denotes its
  significand (all its digits, the decimal point dropped) times ten to the
  written exponent less the number of fraction digits. So `1.2e3` is exactly
  `1200`. Module `JsonNumbers` proves that the literal of any sign, digits,
  fraction and exponent is read back as exactly those parts, and that the
  value depends only on where the decimal point ends up.
- **Objects.** An object is a `map` from keys to values. It is built from the
  parsed members in order, so a repeated key keeps its last value.

Modules:

- `Wrappers`: `Option` and `Result`.
- `Parsers`: the reply type and the combinators, with their laws at one input.
- `JsonAst`: the syntax tree, its accessors and the error type.
- `JsonParser`: the grammar.
- `JsonGrammar`: the first-order productions equal the combinator expressions.
- `JsonNumbers`: the read-back of every number literal, and the laws of its value.
- `JsonProperties`: properties on all inputs. These are the failure on a
  wrong first character, the read-back of string and integer literals, how
  `jsonValue` chooses an alternative, and step lemmas for arrays and objects.
- `JsonDecode`: `decode`.
- `JsonExamples` and `JsonDocuments`: one lemma per test case of the suite.

## Model

| member | source | states |
|---|---|---|
| Parsers.SatisfySpec | Tests/TryParsecTests/Specs/JSONSpec.swift:70-75 | `satisfy` succeeds exactly when the predicate holds of the first character, and then consumes just that character. Otherwise it fails with message "satisfy", no contexts, and the input untouched. |
| Parsers.StrSpec | Tests/TryParsecTests/Specs/JSONSpec.swift:133-138 | A literal string succeeds exactly when it is a prefix of the input, and then consumes it. Otherwise it fails with "satisfy" at the first mismatching character, keeping the matched prefix consumed. |
| Parsers.OrElseSpec | Tests/TryParsecTests/Specs/JSONSpec.swift:114-124 | `<|>` keeps a success of the first branch. It runs the second branch on the original input only after a first-branch failure that consumed nothing. Otherwise it propagates the first branch's failure. |
| Parsers.AlternationCommits | Tests/TryParsecTests/Specs/JSONSpec.swift:114-124 | `string("ab") <|> string("ac")` on `ac` fails at `c` with "satisfy": the first branch consumed the `a`, so the second branch is not tried. |
| Parsers.ManyDone | Tests/TryParsecTests/Specs/JSONSpec.swift:58-68 | `many p` succeeds with `xs`, leaving `r`, exactly when `xs` are the outputs of successive runs of `p` ending at `r`, and `p` fails at `r` without consuming. |
| Parsers.SepBySpec | Tests/TryParsecTests/Specs/JSONSpec.swift:146-150 | `sepBy(p, sep)` is the empty list, consuming nothing, when the first `p` fails without consuming. Otherwise it is `p` followed by repetitions of `sep *> p`. |
| Parsers.SepTailSpec | Tests/TryParsecTests/Specs/JSONSpec.swift:146-150 | The repetition after the first element stops at a separator or element that fails without consuming. A failure that consumed input is propagated. |
| Parsers.SkipSpacesSpec | Tests/TryParsecTests/Specs/JSONSpec.swift:146-150 | `skipSpaces` always succeeds and removes exactly the leading white space. |
| Parsers.CharSpec | Tests/TryParsecTests/Specs/JSONSpec.swift:152-157 | `char(c)` succeeds exactly when the input starts with `c`, and then consumes just that character. Otherwise it fails with "satisfy", no contexts, and the input untouched. |
| Parsers.EndOfInputSpec | Tests/TryParsecTests/Specs/JSONSpec.swift:23-24 | `endOfInput` succeeds exactly on the empty input and never consumes. Otherwise it fails with "endOfInput". |
| Parsers.MapSpec | Tests/TryParsecTests/Specs/JSONSpec.swift:146-150 | `f <^> p` succeeds exactly when `p` does and leaves the same input. It applies `f` to a successful output and keeps a failure of `p` unchanged. |
| Parsers.BetweenSpec | Tests/TryParsecTests/Specs/JSONSpec.swift:58-62 | `between(open, close, p)` fails at the first of `open`, `p`, `close` that fails. Otherwise it yields the output of `p` and leaves what `close` left. |
| Parsers.Opt | Tests/TryParsecTests/Specs/JSONSpec.swift:83-99 | Given the reply of `p`: a success becomes `Some` of its output, a failure that consumed nothing becomes `None` at the original input, and any other failure is propagated. |
| Parsers.OptionalSpec | Tests/TryParsecTests/Specs/JSONSpec.swift:83-99 | `zeroOrOne(p)` wraps a success of `p` in `Some`. It yields `None`, consuming nothing, where `p` fails without consuming, and otherwise propagates the failure of `p`. |
| Parsers.Many1Spec | Tests/TryParsecTests/Specs/JSONSpec.swift:83-87 | `many1(p)` fails where the first `p` fails. Otherwise it is that output followed by `many(p)` on what it left, and fails where that fails. |
| Parsers.ThenSpec | Tests/TryParsecTests/Specs/JSONSpec.swift:165-169 | `p *> q` fails where `p` fails, and otherwise replies as `q` does on what `p` left. |
| Parsers.SkipSpec | Tests/TryParsecTests/Specs/JSONSpec.swift:165-169 | `p <* q` fails where `p` or `q` fails, and otherwise keeps the output of `p`. |
| JsonParser.ValueAt | Tests/TryParsecTests/Specs/JSONSpec.swift:13-21 | `jsonValue` replies with a suffix of its input. A success consumes at least one character, which is the measure its recursion through arrays and objects decreases on. |
| JsonParser.ArrayAt | Tests/TryParsecTests/Specs/JSONSpec.swift:146-150 | `jsonArray` leaves a suffix of its input, strictly shorter on success. |
| JsonParser.ObjectAt | Tests/TryParsecTests/Specs/JSONSpec.swift:165-169 | `jsonObject` leaves a suffix of its input, strictly shorter on success. |
| JsonGrammar.NullAtSpec | Tests/TryParsecTests/Specs/JSONSpec.swift:36 | The combinator `jsonNull` equals the first-order `NullAt` on every input. |
| JsonGrammar.BoolAtSpec | Tests/TryParsecTests/Specs/JSONSpec.swift:112-138 | The combinator `jsonBool` equals `BoolAt` on every input. |
| JsonGrammar.StringAtSpec | Tests/TryParsecTests/Specs/JSONSpec.swift:56-75 | The combinator `jsonString` (quote, `many` of string characters, quote) equals `StringAt` on every input. |
| JsonGrammar.NumberAtSpec | Tests/TryParsecTests/Specs/JSONSpec.swift:81-106 | The combinator `jsonNumber` equals `NumberAt` on every input. It reads an optional minus, digits, an optional fraction and an optional exponent, mapped to their exact value. |
| JsonGrammar.ArrayAtSpec | Tests/TryParsecTests/Specs/JSONSpec.swift:144-157 | The combinator `jsonArray` equals `ArrayAt` on every input: `[`, white space, values separated by commas with white space skipped, `]`. |
| JsonGrammar.ObjectAtSpec | Tests/TryParsecTests/Specs/JSONSpec.swift:163-176 | The combinator `jsonObject` equals `ObjectAt` on every input: `{`, white space, key/colon/value members separated by commas, `}`. |
| JsonGrammar.ValueAtSpec | Tests/TryParsecTests/Specs/JSONSpec.swift:32-36 | The combinator `jsonValue`, the alternation of the six productions, equals `ValueAt` on every input. |
| JsonGrammar.ParseJSONSpec | Tests/TryParsecTests/Specs/JSONSpec.swift:23-24 | `parseJSON` succeeds with `j` exactly when `j` is read after the leading white space and only white space follows it. A value followed by anything else is a syntax error there, "endOfInput". A failing value is a syntax error with the parser's failure. |
| JsonGrammar.ParseJSONOfValue | Tests/TryParsecTests/Specs/JSONSpec.swift:39-40 | A text that is exactly one value, with no surrounding white space, parses to that value. |
| JsonProperties.StringFirstChar | Tests/TryParsecTests/Specs/JSONSpec.swift:70-75 | `jsonString` fails without consuming exactly when the input does not start with `"`. It then fails with "satisfy" and no contexts. |
| JsonProperties.NumberFirstChar | Tests/TryParsecTests/Specs/JSONSpec.swift:101-106 | `jsonNumber` fails without consuming exactly when the input does not start with `-` or a digit. It then fails with "satisfy". |
| JsonProperties.BoolFirstChar | Tests/TryParsecTests/Specs/JSONSpec.swift:126-138 | `jsonBool` fails without consuming exactly when the input does not start with a lower-case `t` or `f`. It then fails with "satisfy". |
| JsonProperties.NullFirstChar | Tests/TryParsecTests/Specs/JSONSpec.swift:46 | `jsonNull` fails without consuming exactly when the input does not start with `n`. |
| JsonProperties.ArrayFirstChar | Tests/TryParsecTests/Specs/JSONSpec.swift:152-157 | `jsonArray` fails without consuming exactly when the input does not start with `[`. It then fails with "satisfy". |
| JsonProperties.ObjectFirstChar | Tests/TryParsecTests/Specs/JSONSpec.swift:171-176 | `jsonObject` fails without consuming exactly when the input does not start with `{`. It then fails with "satisfy". |
| JsonProperties.ScalarOfString | Tests/TryParsecTests/Specs/JSONSpec.swift:32-36 | After a `"`, the scalar alternatives of `jsonValue` reply as `jsonString`. |
| JsonProperties.ScalarOfNumber | Tests/TryParsecTests/Specs/JSONSpec.swift:32-36 | After `-` or a digit, they reply as `jsonNumber`. |
| JsonProperties.ScalarOfBool | Tests/TryParsecTests/Specs/JSONSpec.swift:32-36 | After `t` or `f`, they reply as `jsonBool`. |
| JsonProperties.ScalarOfNull | Tests/TryParsecTests/Specs/JSONSpec.swift:32-36 | After `n`, they reply as `jsonNull`. |
| JsonProperties.ScalarOfOther | Tests/TryParsecTests/Specs/JSONSpec.swift:32-36 | After any other character, they fail with "satisfy" without consuming. |
| JsonProperties.ScalarDispatch | Tests/TryParsecTests/Specs/JSONSpec.swift:32-36 | The first character decides which scalar alternative of `jsonValue` replies, in all five cases. |
| JsonProperties.ValueDispatch | Tests/TryParsecTests/Specs/JSONSpec.swift:32-36 | `{` selects `jsonObject`, `[` selects `jsonArray`, and anything else the scalar alternatives. No alternative is tried after one that consumed input. |
| JsonProperties.StringCharOfEscape | Tests/TryParsecTests/Specs/JSONSpec.swift:58-68 | The escaped form of any character is read back as that character, whatever follows. |
| JsonProperties.CharsOfEscape | Tests/TryParsecTests/Specs/JSONSpec.swift:58-68 | The escaped body of any text is read back as that text, up to the closing quote. |
| JsonProperties.QuoteRoundTrip | Tests/TryParsecTests/Specs/JSONSpec.swift:58-68 | `jsonString` reads the literal of any text back as that text. It leaves exactly what follows the literal. |
| JsonProperties.EscapePlain | Tests/TryParsecTests/Specs/JSONSpec.swift:64-68 | A text without quotes or backslashes, raw newlines included, is its own literal body. |
| JsonProperties.PlainStringAt | Tests/TryParsecTests/Specs/JSONSpec.swift:64-68 | Such a text between quotes is read back as itself, leaving what follows. |
| JsonProperties.NatDigitsValue | Tests/TryParsecTests/Specs/JSONSpec.swift:184-187 | The decimal digits of a natural number denote that number. |
| JsonProperties.DigitRunOf | Tests/TryParsecTests/Specs/JSONSpec.swift:83-99 | `many(digit)` reads a run of digits up to the first character that is not one. |
| JsonProperties.DigitsOf | Tests/TryParsecTests/Specs/JSONSpec.swift:83-99 | `many1(digit)` reads a non-empty run of digits up to the first character that is not one. |
| JsonProperties.IntPartsAt | Tests/TryParsecTests/Specs/JSONSpec.swift:184-187 | The literal of any integer, followed by something that cannot continue a number, parses to its sign and digits, with no fraction and no exponent. |
| JsonProperties.IntPartsValue | Tests/TryParsecTests/Specs/JSONSpec.swift:184-187 | Those parts denote the integer itself. |
| JsonProperties.IntRoundTrip | Tests/TryParsecTests/Specs/JSONSpec.swift:184-187 | `jsonNumber` reads the literal of any integer back as that integer. |
| JsonNumbers.NumberTextAt | Tests/TryParsecTests/Specs/JSONSpec.swift:83-99 | The literal of any parts (optional minus, non-empty digits, optional fraction, optional exponent with optional sign) is read as exactly those parts when followed by something that cannot continue a number. |
| JsonNumbers.NumberRoundTrip | Tests/TryParsecTests/Specs/JSONSpec.swift:83-99 | `jsonNumber` reads the literal of any such parts, with `e` or `E`, as the number `NumberValue` gives them, leaving what follows. |
| JsonNumbers.ScaleWhole | Tests/TryParsecTests/Specs/JSONSpec.swift:89-93 | Moving the decimal point of a whole number `k` places to the right multiplies it by ten to the `k`. |
| JsonNumbers.DigitsValueAppend | Tests/TryParsecTests/Specs/JSONSpec.swift:83-99 | Digits written after others shift those left by their count: the value of `a + b` is that of `a` times ten to the length of `b`, plus that of `b`. |
| JsonNumbers.PointShift | Tests/TryParsecTests/Specs/JSONSpec.swift:89-99 | `w.f` with exponent `k` plus the length of `f` has the value of the digits `w`, `f` and `k` zeros written out: `1.2e3` is `1200`, for every `w`, `f` and `k`, either sign. |
| JsonNumbers.FractionAsExponent | Tests/TryParsecTests/Specs/JSONSpec.swift:83-87 | A fraction is a negative exponent: `w.f` has the value of the digits `w` and `f` with exponent minus the length of `f`. |
| JsonNumbers.NotationsAgree | Tests/TryParsecTests/Specs/JSONSpec.swift:89-99 | `jsonNumber` reads the scientific and the plain literal of the same number as one value, leaving the same rest. |
| JsonProperties.BoolRoundTrip | Tests/TryParsecTests/Specs/JSONSpec.swift:114-124 | `jsonBool` reads `true` and `false` back as their booleans, whatever follows. |
| JsonProperties.NullRoundTrip | Tests/TryParsecTests/Specs/JSONSpec.swift:46 | `jsonNull` reads `null` back as `Null`, whatever follows. |
| JsonProperties.ValueOfString | Tests/TryParsecTests/Specs/JSONSpec.swift:32-36 | `jsonValue` reads a string literal as `jsonString` does. |
| JsonProperties.ValueOfInt | Tests/TryParsecTests/Specs/JSONSpec.swift:32-36 | `jsonValue` reads an integer literal as `jsonNumber` does. |
| JsonProperties.ValueOfBool | Tests/TryParsecTests/Specs/JSONSpec.swift:32-36 | `jsonValue` reads a boolean literal as `jsonBool` does. |
| JsonProperties.ValueOfNull | Tests/TryParsecTests/Specs/JSONSpec.swift:32-36 | `jsonValue` reads `null` as `jsonNull` does. |
| JsonProperties.DropBlank | Tests/TryParsecTests/Specs/JSONSpec.swift:146-150 | Skipping white space removes exactly a blank prefix. |
| JsonProperties.ArrayPiece | Tests/TryParsecTests/Specs/JSONSpec.swift:146-150 | `[`, blanks, elements read up to `]`, then `]` make an array of exactly those elements, both as `jsonArray` and as `jsonValue`. |
| JsonProperties.MemberPiece | Tests/TryParsecTests/Specs/JSONSpec.swift:165-169 | A key, a colon with blanks around it, and an element make one member. |
| JsonProperties.ObjectPiece | Tests/TryParsecTests/Specs/JSONSpec.swift:165-169 | `{`, blanks, members up to `}`, then `}` make the object of those members, both as `jsonObject` and as `jsonValue`. |
| JsonAst.JSON.Key | Tests/TryParsecTests/Specs/JSONSpec.swift:26 | `json[key]` has a value exactly when the receiver is an object holding `key`, and then it is the value under `key`. |
| JsonAst.JSON.At | Tests/TryParsecTests/Specs/JSONSpec.swift:43-46 | `json[index]` has a value exactly when the receiver is an array with `index` in bounds, and then it is that element. |
| JsonAst.JSON.RawBool | Tests/TryParsecTests/Specs/JSONSpec.swift:26 | `rawBool` has a value exactly when the receiver is a boolean, and the receiver is `Bool` of it. |
| JsonAst.JSON.RawNumber | Tests/TryParsecTests/Specs/JSONSpec.swift:43 | `rawNumber` has a value exactly when the receiver is a number, and the receiver is `Number` of it. |
| JsonAst.JSON.RawString | Tests/TryParsecTests/Specs/JSONSpec.swift:42-44 | `rawString` has a value exactly when the receiver is a string, and the receiver is `String` of it. |
| JsonAst.JSON.RawNull | Tests/TryParsecTests/Specs/JSONSpec.swift:46 | `rawNull` has a value exactly when the receiver is `null`. |
| JsonAst.KeyOf | Tests/TryParsecTests/Specs/JSONSpec.swift:26 | `o?[key]` has a value exactly when `o` is present and is an object holding `key`, and then it is the value under `key`. A missing `o` gives a missing result. |
| JsonAst.AtOf | Tests/TryParsecTests/Specs/JSONSpec.swift:43-46 | `o?[index]` has a value exactly when `o` is present and is an array with `index` in bounds, and then it is that element. A missing `o` gives a missing result. |
| JsonAst.FollowNone | Tests/TryParsecTests/Specs/JSONSpec.swift:26 | A missing value stays missing along any path of keys and indices. |
| JsonAst.FollowAppend | Tests/TryParsecTests/Specs/JSONSpec.swift:45-46 | Following a path in two parts is following the whole path: `o?[a]?[b]` is `(o?[a])?[b]`. |
| Wrappers.Option.Then | Tests/TryParsecTests/Specs/JSONSpec.swift:26 | Optional chaining leaves a missing value missing without applying the step, and hands a present value to the step. |
| Wrappers.ThenAssociative | Tests/TryParsecTests/Specs/JSONSpec.swift:42-46 | Chaining two steps one after the other is chaining once with the composed step. |
| JsonAst.RawAccessorsExclusive | Tests/TryParsecTests/Specs/JSONSpec.swift:42-46 | At most one raw accessor yields a value on any syntax tree: there is no coercion across tags. |
| JsonAst.ToMapKeys | Tests/TryParsecTests/Specs/JSONSpec.swift:15-21 | The object built from a list of members has exactly the members' keys. |
| JsonAst.ToMapLast | Tests/TryParsecTests/Specs/JSONSpec.swift:15-21 | A key maps to the value of its last occurrence among the members. |
| JsonAst.ToMapOne | Tests/TryParsecTests/Specs/JSONSpec.swift:168 | One member gives the one-key object. |
| JsonAst.ToMapTwo | Tests/TryParsecTests/Specs/JSONSpec.swift:34-37 | Two members give the two-key object, the second winning a tie. |
| JsonDecode.AsNumber | Tests/TryParsecTests/Specs/JSONSpec.swift:184-194 | The conversion to `Double` succeeds exactly on numbers, with their value. Otherwise it is a type mismatch naming the tag found. |
| JsonDecode.DecodeEach | Tests/TryParsecTests/Specs/JSONSpec.swift:184-188 | Converting the elements succeeds exactly when every element converts, giving their values in order. Otherwise the error is that of the first element that fails. |
| JsonDecode.DecodeArrayOf | Tests/TryParsecTests/Specs/JSONSpec.swift:184-188 | `[T]` decoding succeeds exactly on an array whose elements all convert, with their values in order. It is a type mismatch on anything that is not an array. |
| JsonDecode.DecodeDictOf | Tests/TryParsecTests/Specs/JSONSpec.swift:190-194 | `[String: T]` decoding succeeds exactly on an object whose values all convert, keeping its keys. A failure is the error of some field, and anything that is not an object is a type mismatch. |
| JsonDecode.Decode | Tests/TryParsecTests/Specs/JSONSpec.swift:186 | `decode` reports the syntax error of `parseJSON`, or else applies the conversion to the parsed tree. |
| JsonDecode.NumbersToJSON | Tests/TryParsecTests/Specs/JSONSpec.swift:184-188 | A list of numbers becomes the array of those numbers, in order. |
| JsonDecode.NumberDictToJSON | Tests/TryParsecTests/Specs/JSONSpec.swift:190-194 | A dictionary of numbers becomes the object with the same keys. |
| JsonDecode.NumbersRoundTrip | Tests/TryParsecTests/Specs/JSONSpec.swift:184-188 | Decoding the array built from a list of numbers gives back the list. |
| JsonDecode.NumberDictRoundTrip | Tests/TryParsecTests/Specs/JSONSpec.swift:190-194 | Decoding the object built from a dictionary of numbers gives back the dictionary. |
| JsonExamples.StringWhole | Tests/TryParsecTests/Specs/JSONSpec.swift:58-62 | `jsonString` on `"123"` consumes everything and yields `String("123")`. |
| JsonExamples.StringPartial | Tests/TryParsecTests/Specs/JSONSpec.swift:64-68 | `jsonString` on `"123\nabc"other`, with a raw newline, yields `String("123\nabc")` and leaves `other`. |
| JsonExamples.StringRejectsNull | Tests/TryParsecTests/Specs/JSONSpec.swift:70-75 | `jsonString` on `null` fails at `null`, with no contexts and message "satisfy". |
| JsonExamples.NumberDecimal | Tests/TryParsecTests/Specs/JSONSpec.swift:83-87 | `jsonNumber` on `1.2` consumes everything and yields exactly 1.2. |
| JsonExamples.NumberSmallE | Tests/TryParsecTests/Specs/JSONSpec.swift:89-93 | `jsonNumber` on `1.2e3` consumes everything and yields exactly 1200. |
| JsonExamples.NumberLargeE | Tests/TryParsecTests/Specs/JSONSpec.swift:95-99 | `jsonNumber` on `-1.2E3` consumes everything and yields exactly -1200. |
| JsonExamples.NumberRejectsNull | Tests/TryParsecTests/Specs/JSONSpec.swift:101-106 | `jsonNumber` on `null` fails at `null`, with no contexts and message "satisfy". |
| JsonExamples.BoolTrue | Tests/TryParsecTests/Specs/JSONSpec.swift:114-118 | `jsonBool` on `true` consumes everything and yields `Bool(true)`. |
| JsonExamples.BoolFalse | Tests/TryParsecTests/Specs/JSONSpec.swift:120-124 | `jsonBool` on `false` consumes everything and yields `Bool(false)`. |
| JsonExamples.BoolRejectsNull | Tests/TryParsecTests/Specs/JSONSpec.swift:126-131 | `jsonBool` on `null` fails at `null`, with no contexts and message "satisfy". |
| JsonExamples.BoolIsCaseSensitive | Tests/TryParsecTests/Specs/JSONSpec.swift:133-138 | `jsonBool` on `True` fails at `True`, with no contexts and message "satisfy". |
| JsonExamples.TrueFalseArray | Tests/TryParsecTests/Specs/JSONSpec.swift:146-150 | `[ true, false ]` followed by any text is read as the two booleans in order, leaving that text. |
| JsonExamples.ArrayTrueFalse | Tests/TryParsecTests/Specs/JSONSpec.swift:146-150 | `jsonArray` on `[ true, false ]` consumes everything and yields `Array([Bool(true), Bool(false)])`. |
| JsonExamples.ArrayRejectsNull | Tests/TryParsecTests/Specs/JSONSpec.swift:152-157 | `jsonArray` on `null` fails at `null`, with no contexts and message "satisfy". |
| JsonExamples.TestObject | Tests/TryParsecTests/Specs/JSONSpec.swift:165-169 | `{ "test" : true }` followed by any text is read as the one-member object, leaving that text. |
| JsonExamples.ObjectTest | Tests/TryParsecTests/Specs/JSONSpec.swift:165-169 | `jsonObject` on `{ "test" : true }` consumes everything and yields the object mapping `test` to `true`. |
| JsonExamples.ObjectRejectsNull | Tests/TryParsecTests/Specs/JSONSpec.swift:171-176 | `jsonObject` on `null` fails at `null`, with no contexts and message "satisfy". |
| JsonDocuments.ParseItems | Tests/TryParsecTests/Specs/JSONSpec.swift:13-24 | `parseJSON` on `{ "items": [ { "hidden" : true } ] }` yields the object holding `items`: an array of one object mapping `hidden` to `true`. |
| JsonDocuments.ItemsAccessors | Tests/TryParsecTests/Specs/JSONSpec.swift:26 | On that tree, `["items"][0]["hidden"].rawBool` is `true`. |
| JsonDocuments.ParseMixed | Tests/TryParsecTests/Specs/JSONSpec.swift:32-40 | `parseJSON` on `{ "string" : "hello", "array" : [1, "two", [true, null]] }` yields the object mapping `string` to `"hello"` and `array` to `[1, "two", [true, null]]`. |
| JsonDocuments.MixedAccessors | Tests/TryParsecTests/Specs/JSONSpec.swift:42-46 | On that tree, the five chains give `"hello"`, `1`, `"two"`, `true` and unit. The chains are `["string"].rawString`, `["array"][0].rawNumber`, `["array"][1].rawString`, `["array"][2][0].rawBool` and `["array"][2][1].rawNull`. |
| JsonDocuments.DecodeNumbersExample | Tests/TryParsecTests/Specs/JSONSpec.swift:184-188 | `decode` of `[1, 2, 3]` as `[Double]` yields `[1, 2, 3]`. |
| JsonDocuments.DecodeNumberDictExample | Tests/TryParsecTests/Specs/JSONSpec.swift:190-194 | `decode` of `{ "value": 5 }` as `[String: Double]` yields `{"value": 5}`. |

## Left out

- The Swift sources of the library (`Sources/TryParsec`), with the JSON
  parsers, `parse`, `decode` and `JSON`, are not modelled line by line. The
  combinators and the grammar are written from the behaviour the test suite
  fixes and from the library's documented Parsec rules. Where
  the tests leave a detail open (the white-space set, the escape codes, the
  order of `jsonValue`'s alternatives), the model takes the usual Parsec and
  JSON reading.
- White space is space, tab, line feed and carriage return (`IsSpace`).
- `parseJSON` accepts trailing white space: `JsonParser.Document` skips white
  space after the value and before `endOfInput`. The tests do not fix this
  choice; every text they parse ends in the value.
- `many`, `many1` and `sepBy` (`ManyAt`, `SepBy`) require a parser that
  consumes input whenever it succeeds (`WellBehaved`). `many` over a parser
  that can succeed without consuming, which loops in Parsec, is not modelled.
- `\uXXXX` escapes are not modelled: `\u` is a syntax error here. The tests do
  not fix their behaviour. The single-character escapes are modelled.
- Numbers are exact rationals, not IEEE doubles, so no rounding is modelled.
- `label`: the JSON grammar adds no labels. Every failure the tests check has
  empty contexts, so labels and context stacks beyond the empty one are not
  modelled.
- `encode` and the `_Model` record type, with the record conversion and its
  `MissingField` error, are left out: `_Model` is not part of this model and no
  encoded text is asserted.
- The fixture-file tests (loading files, `print`, the `beforeEach` banner) are
  I/O with nothing asserted beyond success, and are left out. So is the Quick
  and Nimble harness: each `it` block is a lemma instead.
- JsonDecode.DecodeDictOf: when several values of an object fail to convert,
  the model says the error is one of theirs, not which one. Swift
  dictionaries have no fixed iteration order.
- JsonDocuments.ParseMixed: the 58-character test text is written in the
  statement as the concatenation of three pieces of it, not as one literal.
  `JsonDocuments.MixedTextIs` proves the pieces spell that text.
- Incremental parsing of input that ends mid-token is not modelled: the input
  is always complete.
