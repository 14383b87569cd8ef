/** The JSON grammar, built from the combinators of `Parsers`.

    The leaf parsers (`jsonNull`, `jsonBool`, `jsonString`, `jsonNumber`) are
    combinator expressions. The recursive productions (values, arrays,
    objects) cannot be closures that call themselves, so they are written as
    mutually recursive functions over the input; each is proved equal to the
    combinator expression it stands for (see `JsonGrammar`). Termination
    rests on the brackets: `[` and `{` are consumed before any recursive call,
    and every value consumes at least one character. */
module JsonParser {
  import opened Wrappers
  import opened Parsers
  import opened JsonAst

  // ---------------------------------------------------------------------------
  // Literals

  function JsonNull(): Parser<JSON>
  {
    Map(Str("null"), (_: string) => Null)
  }

  /** `"true"` or `"false"`, case-sensitively. */
  function JsonBool(): Parser<JSON>
  {
    OrElse(Map(Str("true"), (_: string) => Bool(true)),
           Map(Str("false"), (_: string) => Bool(false)))
  }

  // ---------------------------------------------------------------------------
  // Strings

  /** The characters that may follow a backslash. */
  predicate IsEscapeCode(c: char)
  {
    c == '"' || c == '\\' || c == '/' || c == 'b' || c == 'f' || c == 'n' || c == 'r' || c == 't'
  }

  /** The character an escape code stands for. */
  function Unescape(c: char): char
  {
    match c
    case 'b' => 8 as char
    case 'f' => 12 as char
    case 'n' => '\n'
    case 'r' => '\r'
    case 't' => '\t'
    case _ => c
  }

  /** Any character but the closing quote and the backslash, raw control
      characters such as a newline included. */
  predicate IsPlainChar(c: char)
  {
    c != '"' && c != '\\'
  }

  function EscapedChar(): Parser<char>
  {
    Then(Char('\\'), Map(Satisfy(IsEscapeCode), Unescape))
  }

  function StringChar(): Parser<char>
  {
    OrElse(EscapedChar(), Satisfy(IsPlainChar))
  }

  lemma StringCharWellBehaved()
    ensures WellBehaved(StringChar())
  {
    SatisfyWellBehaved(x => x == '\\');
    SatisfyWellBehaved(IsEscapeCode);
    SatisfyWellBehaved(IsPlainChar);
    MapShrinking(Satisfy(IsEscapeCode), Unescape);
    ThenWellBehaved(Char('\\'), Map(Satisfy(IsEscapeCode), Unescape));
    OrElseShrinking(EscapedChar(), Satisfy(IsPlainChar));
  }

  /** `many(stringChar)`. */
  function StringChars(): Parser<string>
  {
    StringCharWellBehaved();
    Many(StringChar())
  }

  /** The text of a string literal, delimited by double quotes. */
  function QuotedString(): Parser<string>
  {
    Between(Char('"'), StringChars(), Char('"'))
  }

  function JsonString(): Parser<JSON>
  {
    Map(QuotedString(), (t: string) => String(t))
  }


  // ---------------------------------------------------------------------------
  // Numbers

  predicate IsDigit(c: char)
  {
    '0' <= c <= '9'
  }

  predicate IsExponentMarker(c: char)
  {
    c == 'e' || c == 'E'
  }

  predicate IsSign(c: char)
  {
    c == '+' || c == '-'
  }

  function Digits(): Parser<seq<char>>
  {
    SatisfyWellBehaved(IsDigit);
    Many1(Satisfy(IsDigit))
  }

  /** `.` followed by the fractional digits. */
  function Fraction(): Parser<seq<char>>
  {
    Then(Char('.'), Digits())
  }

  /** `e` or `E`, an optional sign, and the exponent digits. */
  function Exponent(): Parser<(Option<char>, seq<char>)>
  {
    Then(Satisfy(IsExponentMarker), Seq(Optional(Satisfy(IsSign)), Digits()))
  }

  /** The pieces of a number literal: the optional minus sign and the
      integer digits, the optional fraction and the optional exponent. */
  type NumberParts = (((Option<char>, seq<char>), Option<seq<char>>), Option<(Option<char>, seq<char>)>)

  /** The optional minus sign and the integer digits. */
  function SignedDigits(): Parser<(Option<char>, seq<char>)>
  {
    Seq(Optional(Char('-')), Digits())
  }

  /** The signed integer digits and the optional fraction. */
  function Mantissa(): Parser<((Option<char>, seq<char>), Option<seq<char>>)>
  {
    Seq(SignedDigits(), Optional(Fraction()))
  }

  function NumberSyntax(): Parser<NumberParts>
  {
    Seq(Mantissa(), Optional(Exponent()))
  }

  function JsonNumber(): Parser<JSON>
  {
    Map(NumberSyntax(), (t: NumberParts) => Number(NumberValue(t)))
  }

  function DigitValue(c: char): int
  {
    c as int - '0' as int
  }

  /** The value of a run of decimal digits, most significant first. */
  function DigitsValue(ds: seq<char>): int
    decreases |ds|
  {
    if ds == [] then 0 else DigitsValue(ds[..|ds| - 1]) * 10 + DigitValue(ds[|ds| - 1])
  }

  /** `x` times ten to the power `e`, exactly: the decimal point moved `e`
      places to the right, or `-e` places to the left. */
  function Scale(x: real, e: int): real
    decreases if e >= 0 then e else -e
  {
    if e == 0 then x else if e > 0 then Scale(x, e - 1) * 10.0 else Scale(x, e + 1) / 10.0
  }

  /** The digits of the fraction, empty when there is none. */
  function FractionDigits(t: NumberParts): seq<char>
  {
    if t.0.1.Some? then t.0.1.value else []
  }

  /** The exponent as written, zero when there is none. */
  function WrittenExponent(t: NumberParts): int
  {
    match t.1
    case None => 0
    case Some((sign, es)) => if sign == Some('-') then -DigitsValue(es) else DigitsValue(es)
  }

  /** All the digits before the exponent read as one integer, the decimal point dropped. */
  function Significand(t: NumberParts): int
  {
    DigitsValue(t.0.0.1 + FractionDigits(t))
  }

  /** The exact value a number literal denotes: its significand times ten
      to the written exponent less the number of fraction digits, negated
      after a `-`. */
  function NumberValue(t: NumberParts): real
  {
    var magnitude := Scale(Significand(t) as real, WrittenExponent(t) - |FractionDigits(t)|);
    if t.0.0.0.Some? then -magnitude else magnitude
  }

  // ---------------------------------------------------------------------------
  // Separators

  /** `,` and the white space after it. */
  function Comma(): Parser<char>
  {
    Skip(Char(','), SkipSpaces())
  }

  /** White space, `:` and white space, between a key and its value. */
  function Colon(): Parser<char>
  {
    Skip(Then(SkipSpaces(), Char(':')), SkipSpaces())
  }

  /** An object key and the colon after it. */
  function KeyPart(): Parser<string>
  {
    Skip(QuotedString(), Colon())
  }

  // ---------------------------------------------------------------------------
  // The productions at one input
  //
  // Each function below is the reply of one production at input `s`, written
  // with the replies of the primitives. `JsonGrammar` proves each equal to
  // the combinator expression it stands for.

  function NullAt(s: seq<char>): (r: Reply<JSON>)
    ensures IsSuffix(r.remaining, s)
    ensures r.Done? ==> |r.remaining| < |s|
  {
    StrSpec("null", s);
    match StrAt("null", s)
    case Fail(rest, c, m) => Fail(rest, c, m)
    case Done(rest, _) => Done(rest, Null)
  }

  function BoolAt(s: seq<char>): (r: Reply<JSON>)
    ensures IsSuffix(r.remaining, s)
    ensures r.Done? ==> |r.remaining| < |s|
  {
    StrSpec("true", s);
    StrSpec("false", s);
    Alt(s,
      match StrAt("true", s)
      case Fail(rest, c, m) => Fail(rest, c, m)
      case Done(rest, _) => Done(rest, Bool(true)),
      match StrAt("false", s)
      case Fail(rest, c, m) => Fail(rest, c, m)
      case Done(rest, _) => Done(rest, Bool(false)))
  }

  /** One character of a string literal: an escape sequence, or any
      character but `"` and `\\`. */
  function StringCharAt(s: seq<char>): (r: Reply<char>)
    ensures IsSuffix(r.remaining, s)
    ensures r.Done? ==> |r.remaining| < |s|
  {
    if |s| > 0 && s[0] == '\\' then
      DropIsSuffix(s, 1);
      if |s| > 1 && IsEscapeCode(s[1]) then
        DropIsSuffix(s, 2);
        Done(s[2..], Unescape(s[1]))
      else Fail(s[1..], [], "satisfy")
    else SatisfyAt(IsPlainChar, s)
  }

  /** A run of digits, possibly empty: `many(digit)`. */
  function DigitRunAt(s: seq<char>): (r: Reply<seq<char>>)
    ensures r.Done? && IsSuffix(r.remaining, s)
    decreases |s|
  {
    if |s| > 0 && IsDigit(s[0]) then
      match DigitRunAt(s[1..])
      case Done(rest, ds) => Done(rest, [s[0]] + ds)
      case Fail(rest, c, m) => Fail(rest, c, m)
    else Done(s, [])
  }

  /** The characters of a string literal up to the closing quote: `many(stringChar)`. */
  function CharsAt(s: seq<char>): (r: Reply<string>)
    ensures IsSuffix(r.remaining, s)
    decreases |s|
  {
    match StringCharAt(s)
    case Fail(rest, c, m) => if |rest| == |s| then Done(s, []) else Fail(rest, c, m)
    case Done(rest, x) =>
      SuffixTransitive(CharsAt(rest).remaining, rest, s);
      match CharsAt(rest)
      case Fail(rest', c, m) => Fail(rest', c, m)
      case Done(rest', xs) => Done(rest', [x] + xs)
  }

  /** The text of a string literal: `"`, its characters, `"`. */
  function QuotedAt(s: seq<char>): (r: Reply<string>)
    ensures IsSuffix(r.remaining, s)
    ensures r.Done? ==> |r.remaining| < |s|
  {
    match CharAt('"', s)
    case Fail(rest, c, m) => Fail(rest, c, m)
    case Done(s1, _) =>
      SuffixTransitive(CharsAt(s1).remaining, s1, s);
      match CharsAt(s1)
      case Fail(rest, c, m) => Fail(rest, c, m)
      case Done(s2, text) =>
        SuffixTransitive(CharAt('"', s2).remaining, s2, s);
        match CharAt('"', s2)
        case Fail(rest, c, m) => Fail(rest, c, m)
        case Done(s3, _) => Done(s3, text)
  }

  function StringAt(s: seq<char>): (r: Reply<JSON>)
    ensures IsSuffix(r.remaining, s)
    ensures r.Done? ==> |r.remaining| < |s|
  {
    match QuotedAt(s)
    case Fail(rest, c, m) => Fail(rest, c, m)
    case Done(rest, text) => Done(rest, String(text))
  }

  /** One or more digits. */
  function DigitsAt(s: seq<char>): (r: Reply<seq<char>>)
    ensures IsSuffix(r.remaining, s)
    ensures r.Done? ==> |r.remaining| < |s|
  {
    match SatisfyAt(IsDigit, s)
    case Fail(rest, c, m) => Fail(rest, c, m)
    case Done(s1, d) =>
      SuffixTransitive(DigitRunAt(s1).remaining, s1, s);
      match DigitRunAt(s1)
      case Fail(rest, c, m) => Fail(rest, c, m)
      case Done(s2, ds) => Done(s2, [d] + ds)
  }

  function FractionAt(s: seq<char>): (r: Reply<seq<char>>)
    ensures IsSuffix(r.remaining, s)
  {
    match CharAt('.', s)
    case Fail(rest, c, m) => Fail(rest, c, m)
    case Done(s1, _) =>
      SuffixTransitive(DigitsAt(s1).remaining, s1, s);
      DigitsAt(s1)
  }

  /** An optional `+` or `-`. */
  function SignAt(s: seq<char>): (r: Reply<Option<char>>)
    ensures r.Done? && IsSuffix(r.remaining, s)
  {
    Opt(s, SatisfyAt(IsSign, s))
  }

  function ExponentAt(s: seq<char>): (r: Reply<(Option<char>, seq<char>)>)
    ensures IsSuffix(r.remaining, s)
  {
    match SatisfyAt(IsExponentMarker, s)
    case Fail(rest, c, m) => Fail(rest, c, m)
    case Done(s1, _) =>
      var s2 := SignAt(s1).remaining;
      SuffixTransitive(s2, s1, s);
      SuffixTransitive(DigitsAt(s2).remaining, s2, s);
      match DigitsAt(s2)
      case Fail(rest, c, m) => Fail(rest, c, m)
      case Done(s3, ds) => Done(s3, (SignAt(s1).output, ds))
  }

  /** An optional `-` sign. */
  function MinusAt(s: seq<char>): (r: Reply<Option<char>>)
    ensures r.Done? && IsSuffix(r.remaining, s)
  {
    Opt(s, CharAt('-', s))
  }

  /** The syntax of a number, split into its parts. */
  function SignedDigitsAt(s: seq<char>): (r: Reply<(Option<char>, seq<char>)>)
    ensures IsSuffix(r.remaining, s)
    ensures r.Done? ==> |r.remaining| < |s|
  {
    var s1 := MinusAt(s).remaining;
    SuffixTransitive(DigitsAt(s1).remaining, s1, s);
    match DigitsAt(s1)
    case Fail(rest, c, m) => Fail(rest, c, m)
    case Done(s2, whole) => Done(s2, (MinusAt(s).output, whole))
  }

  function MantissaAt(s: seq<char>): (r: Reply<((Option<char>, seq<char>), Option<seq<char>>)>)
    ensures IsSuffix(r.remaining, s)
    ensures r.Done? ==> |r.remaining| < |s|
  {
    match SignedDigitsAt(s)
    case Fail(rest, c, m) => Fail(rest, c, m)
    case Done(s2, w) =>
      var fraction := Opt(s2, FractionAt(s2));
      SuffixTransitive(fraction.remaining, s2, s);
      match fraction
      case Fail(rest, c, m) => Fail(rest, c, m)
      case Done(s3, f) => Done(s3, (w, f))
  }

  function NumberPartsAt(s: seq<char>): (r: Reply<NumberParts>)
    ensures IsSuffix(r.remaining, s)
    ensures r.Done? ==> |r.remaining| < |s|
  {
    match MantissaAt(s)
    case Fail(rest, c, m) => Fail(rest, c, m)
    case Done(s3, w) =>
      var exponent := Opt(s3, ExponentAt(s3));
      SuffixTransitive(exponent.remaining, s3, s);
      match exponent
      case Fail(rest, c, m) => Fail(rest, c, m)
      case Done(s4, e) => Done(s4, (w, e))
  }

  function NumberAt(s: seq<char>): (r: Reply<JSON>)
    ensures IsSuffix(r.remaining, s)
    ensures r.Done? ==> |r.remaining| < |s|
  {
    match NumberPartsAt(s)
    case Fail(rest, c, m) => Fail(rest, c, m)
    case Done(rest, parts) => Done(rest, Number(NumberValue(parts)))
  }

  /** `,` and the white space after it. */
  function CommaAt(s: seq<char>): (r: Reply<char>)
    ensures IsSuffix(r.remaining, s)
    ensures r.Done? ==> |r.remaining| < |s|
  {
    match CharAt(',', s)
    case Fail(rest, c, m) => Fail(rest, c, m)
    case Done(s1, x) =>
      SuffixTransitive(DropSpaces(s1), s1, s);
      Done(DropSpaces(s1), x)
  }

  /** White space, `:`, white space. */
  function ColonAt(s: seq<char>): (r: Reply<char>)
    ensures IsSuffix(r.remaining, s)
  {
    var s1 := DropSpaces(s);
    match CharAt(':', s1)
    case Fail(rest, c, m) => Fail(rest, c, m)
    case Done(s2, x) =>
      SuffixTransitive(s2, s1, s);
      SuffixTransitive(DropSpaces(s2), s2, s);
      Done(DropSpaces(s2), x)
  }

  // ---------------------------------------------------------------------------
  // Values, arrays and objects

  /** The alternatives of `jsonValue` that hold no other value: a string, a
      number, a boolean or null, tried in that order. */
  function ScalarAt(s: seq<char>): (r: Reply<JSON>)
    ensures IsSuffix(r.remaining, s)
    ensures r.Done? ==> |r.remaining| < |s|
  {
    Alt(s, StringAt(s), Alt(s, NumberAt(s), Alt(s, BoolAt(s), NullAt(s))))
  }

  /** `jsonValue`: an object, an array, a string, a number, a boolean or null,
      tried in that order. */
  function ValueAt(s: seq<char>): (r: Reply<JSON>)
    ensures IsSuffix(r.remaining, s)
    ensures r.Done? ==> |r.remaining| < |s|
    decreases |s|, 2
  {
    Alt(s, ObjectAt(s), Alt(s, ArrayAt(s), ScalarAt(s)))
  }

  /** A value and the white space after it. */
  function ElementAt(s: seq<char>): (r: Reply<JSON>)
    ensures IsSuffix(r.remaining, s)
    ensures r.Done? ==> |r.remaining| < |s|
    decreases |s|, 3
  {
    match ValueAt(s)
    case Fail(rest, c, m) => Fail(rest, c, m)
    case Done(s1, v) =>
      SuffixTransitive(DropSpaces(s1), s1, s);
      Done(DropSpaces(s1), v)
  }

  /** `many(comma *> element)`. */
  function MoreElementsAt(s: seq<char>): (r: Reply<seq<JSON>>)
    ensures IsSuffix(r.remaining, s)
    decreases |s|, 0
  {
    match CommaAt(s)
    case Fail(rest, c, m) => if |rest| == |s| then Done(s, []) else Fail(rest, c, m)
    case Done(s1, _) =>
      SuffixTransitive(ElementAt(s1).remaining, s1, s);
      match ElementAt(s1)
      case Fail(rest, c, m) => if |rest| == |s| then Done(s, []) else Fail(rest, c, m)
      case Done(s2, e) =>
        SuffixTransitive(MoreElementsAt(s2).remaining, s2, s);
        match MoreElementsAt(s2)
        case Fail(rest, c, m) => Fail(rest, c, m)
        case Done(s3, es) => Done(s3, [e] + es)
  }

  /** `sepBy(element, comma)`: no element at all when the first one fails
      without consuming input. */
  function ElementsAt(s: seq<char>): (r: Reply<seq<JSON>>)
    ensures IsSuffix(r.remaining, s)
    decreases |s|, 4
  {
    Alt(s,
      match ElementAt(s)
      case Fail(rest, c, m) => Fail(rest, c, m)
      case Done(s1, e) =>
        SuffixTransitive(MoreElementsAt(s1).remaining, s1, s);
        match MoreElementsAt(s1)
        case Fail(rest, c, m) => Fail(rest, c, m)
        case Done(s2, es) => Done(s2, [e] + es),
      Done(s, []))
  }

  /** `jsonArray`: `[`, white space, the elements, `]`. */
  function ArrayAt(s: seq<char>): (r: Reply<JSON>)
    ensures IsSuffix(r.remaining, s)
    ensures r.Done? ==> |r.remaining| < |s|
    decreases |s|, 1
  {
    match CharAt('[', s)
    case Fail(rest, c, m) => Fail(rest, c, m)
    case Done(s1, _) =>
      var s2 := DropSpaces(s1);
      SuffixTransitive(s2, s1, s);
      SuffixTransitive(ElementsAt(s2).remaining, s2, s);
      match ElementsAt(s2)
      case Fail(rest, c, m) => Fail(rest, c, m)
      case Done(s3, es) =>
        SuffixTransitive(CharAt(']', s3).remaining, s3, s);
        match CharAt(']', s3)
        case Fail(rest, c, m) => Fail(rest, c, m)
        case Done(s4, _) => Done(s4, Array(es))
  }

  /** A key, the colon, the value and the white space after it. */
  function MemberAt(s: seq<char>): (r: Reply<(string, JSON)>)
    ensures IsSuffix(r.remaining, s)
    ensures r.Done? ==> |r.remaining| < |s|
    decreases |s|, 0
  {
    match QuotedAt(s)
    case Fail(rest, c, m) => Fail(rest, c, m)
    case Done(s1, k) =>
      SuffixTransitive(ColonAt(s1).remaining, s1, s);
      match ColonAt(s1)
      case Fail(rest, c, m) => Fail(rest, c, m)
      case Done(s2, _) =>
        SuffixTransitive(ElementAt(s2).remaining, s2, s);
        match ElementAt(s2)
        case Fail(rest, c, m) => Fail(rest, c, m)
        case Done(s3, v) => Done(s3, (k, v))
  }

  /** `many(comma *> member)`. */
  function MoreMembersAt(s: seq<char>): (r: Reply<seq<(string, JSON)>>)
    ensures IsSuffix(r.remaining, s)
    decreases |s|, 1
  {
    match CommaAt(s)
    case Fail(rest, c, m) => if |rest| == |s| then Done(s, []) else Fail(rest, c, m)
    case Done(s1, _) =>
      SuffixTransitive(MemberAt(s1).remaining, s1, s);
      match MemberAt(s1)
      case Fail(rest, c, m) => if |rest| == |s| then Done(s, []) else Fail(rest, c, m)
      case Done(s2, e) =>
        SuffixTransitive(MoreMembersAt(s2).remaining, s2, s);
        match MoreMembersAt(s2)
        case Fail(rest, c, m) => Fail(rest, c, m)
        case Done(s3, es) => Done(s3, [e] + es)
  }

  /** `sepBy(member, comma)`. */
  function MembersAt(s: seq<char>): (r: Reply<seq<(string, JSON)>>)
    ensures IsSuffix(r.remaining, s)
    decreases |s|, 2
  {
    Alt(s,
      match MemberAt(s)
      case Fail(rest, c, m) => Fail(rest, c, m)
      case Done(s1, e) =>
        SuffixTransitive(MoreMembersAt(s1).remaining, s1, s);
        match MoreMembersAt(s1)
        case Fail(rest, c, m) => Fail(rest, c, m)
        case Done(s2, es) => Done(s2, [e] + es),
      Done(s, []))
  }

  /** `jsonObject`: `{`, white space, the members, `}`; a repeated key keeps
      its last value. */
  function ObjectAt(s: seq<char>): (r: Reply<JSON>)
    ensures IsSuffix(r.remaining, s)
    ensures r.Done? ==> |r.remaining| < |s|
    decreases |s|, 1
  {
    match CharAt('{', s)
    case Fail(rest, c, m) => Fail(rest, c, m)
    case Done(s1, _) =>
      var s2 := DropSpaces(s1);
      SuffixTransitive(s2, s1, s);
      SuffixTransitive(MembersAt(s2).remaining, s2, s);
      match MembersAt(s2)
      case Fail(rest, c, m) => Fail(rest, c, m)
      case Done(s3, ms) =>
        SuffixTransitive(CharAt('}', s3).remaining, s3, s);
        match CharAt('}', s3)
        case Fail(rest, c, m) => Fail(rest, c, m)
        case Done(s4, _) => Done(s4, Object(ToMap(ms)))
  }

  function JsonValue(): Parser<JSON> { s => ValueAt(s) }
  function JsonArray(): Parser<JSON> { s => ArrayAt(s) }
  function JsonObject(): Parser<JSON> { s => ObjectAt(s) }

  // ---------------------------------------------------------------------------
  // Top level

  /** `skipSpaces *> jsonValue <* skipSpaces <* endOfInput`. */
  function Document(): Parser<JSON>
  {
    Between(SkipSpaces(), JsonValue(), Then(SkipSpaces(), EndOfInput()))
  }

  /** `parseJSON`: the whole text is one JSON value, with white space around
      it allowed. */
  function ParseJSON(text: string): Result<JSON, ParseError>
  {
    match Document()(text)
    case Done(_, j) => Success(j)
    case Fail(r, c, m) => Failure(SyntaxError(r, c, m))
  }
}
