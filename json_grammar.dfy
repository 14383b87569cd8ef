/** The productions of `JsonParser`, written as functions over the input, are
    the combinator expressions of the JSON grammar: each lemma here states
    that the two agree on every input. */
module JsonGrammar {
  import opened Wrappers
  import opened Parsers
  import opened JsonAst
  import opened JsonParser

  // ---------------------------------------------------------------------------
  // Literals and strings

  lemma NullAtSpec(s: seq<char>)
    ensures JsonNull()(s) == NullAt(s)
  {
  }

  lemma BoolAtSpec(s: seq<char>)
    ensures JsonBool()(s) == BoolAt(s)
  {
    StrSpec("true", s);
  }

  lemma StringCharAtSpec(s: seq<char>)
    ensures StringChar()(s) == StringCharAt(s)
  {
    CharSpec('\\', s);
    ThenSpec(Char('\\'), Map(Satisfy(IsEscapeCode), Unescape), s);
    if |s| > 0 && s[0] == '\\' {
      SatisfySpec(IsEscapeCode, s[1..]);
    }
  }

  lemma {:induction false} CharsAtSpec(s: seq<char>)
    ensures StringChars()(s) == CharsAt(s)
    decreases |s|
  {
    StringCharWellBehaved();
    StringCharAtSpec(s);
    match StringCharAt(s)
    case Fail(_, _, _) =>
    case Done(rest, _) => CharsAtSpec(rest);
  }

  lemma QuotedAtSpec(s: seq<char>)
    ensures QuotedString()(s) == QuotedAt(s)
  {
    CharSpec('"', s);
    match Char('"')(s)
    case Fail(_, _, _) =>
    case Done(s1, _) => CharsAtSpec(s1);
  }

  lemma StringAtSpec(s: seq<char>)
    ensures JsonString()(s) == StringAt(s)
  {
    QuotedAtSpec(s);
  }

  // ---------------------------------------------------------------------------
  // Numbers

  lemma {:induction false} DigitRunAtSpec(s: seq<char>)
    requires WellBehaved(Satisfy(IsDigit))
    ensures ManyAt(Satisfy(IsDigit), s) == DigitRunAt(s)
    decreases |s|
  {
    if |s| > 0 && IsDigit(s[0]) {
      DigitRunAtSpec(s[1..]);
    }
  }

  lemma DigitsAtSpec(s: seq<char>)
    ensures Digits()(s) == DigitsAt(s)
  {
    SatisfyWellBehaved(IsDigit);
    if SatisfyAt(IsDigit, s).Done? {
      DigitRunAtSpec(s[1..]);
    }
  }

  lemma FractionAtSpec(s: seq<char>)
    ensures Fraction()(s) == FractionAt(s)
  {
    CharSpec('.', s);
    match Char('.')(s)
    case Fail(_, _, _) =>
    case Done(s1, _) => DigitsAtSpec(s1);
  }

  lemma ExponentAtSpec(s: seq<char>)
    ensures Exponent()(s) == ExponentAt(s)
  {
    SatisfySpec(IsExponentMarker, s);
    match Satisfy(IsExponentMarker)(s)
    case Fail(_, _, _) =>
    case Done(s1, _) =>
      assert Optional(Satisfy(IsSign))(s1) == SignAt(s1);
      DigitsAtSpec(SignAt(s1).remaining);
  }

  lemma SignedDigitsAtSpec(s: seq<char>)
    ensures SignedDigits()(s) == SignedDigitsAt(s)
  {
    assert Optional(Char('-'))(s) == MinusAt(s);
    DigitsAtSpec(MinusAt(s).remaining);
  }

  lemma MantissaAtSpec(s: seq<char>)
    ensures Mantissa()(s) == MantissaAt(s)
  {
    SignedDigitsAtSpec(s);
    match SignedDigitsAt(s)
    case Fail(_, _, _) =>
    case Done(s2, _) =>
      FractionAtSpec(s2);
  }

  lemma NumberPartsAtSpec(s: seq<char>)
    ensures NumberSyntax()(s) == NumberPartsAt(s)
  {
    MantissaAtSpec(s);
    match MantissaAt(s)
    case Fail(_, _, _) =>
    case Done(s3, _) =>
      ExponentAtSpec(s3);
  }

  lemma NumberAtSpec(s: seq<char>)
    ensures JsonNumber()(s) == NumberAt(s)
  {
    NumberPartsAtSpec(s);
  }

  // ---------------------------------------------------------------------------
  // Separators

  lemma CommaAtSpec(s: seq<char>)
    ensures Comma()(s) == CommaAt(s)
  {
    CharSpec(',', s);
    if Char(',')(s).Done? {
      SkipSpacesSpec(s[1..]);
    }
  }

  lemma ColonAtSpec(s: seq<char>)
    ensures Colon()(s) == ColonAt(s)
  {
    SkipSpacesSpec(s);
    var s1 := DropSpaces(s);
    CharSpec(':', s1);
    if Char(':')(s1).Done? {
      SkipSpacesSpec(s1[1..]);
    }
  }

  lemma CommaShrinking()
    ensures Shrinking(Comma())
  {
    forall s ensures IsSuffix(Comma()(s).remaining, s) {
      CommaAtSpec(s);
    }
  }

  // ---------------------------------------------------------------------------
  // Arrays
  //
  // The lemmas ending in `With` take the sub-parsers as parameters, known
  // only through the productions they agree with, so that their proofs see
  // one layer of the grammar at a time.

  /** `jsonValue <* skipSpaces`. */
  function Element(): Parser<JSON>
  {
    Skip(JsonValue(), SkipSpaces())
  }

  lemma ElementAtSpec(s: seq<char>)
    ensures Element()(s) == ElementAt(s)
  {
    match ValueAt(s)
    case Fail(_, _, _) =>
    case Done(s1, _) => SkipSpacesSpec(s1);
  }

  lemma ElementWellBehaved()
    ensures WellBehaved(Element())
    ensures forall t :: Element()(t) == ElementAt(t)
  {
    forall t ensures Element()(t) == ElementAt(t) {
      ElementAtSpec(t);
    }
  }

  lemma CommaAgrees()
    ensures Shrinking(Comma())
    ensures forall t :: Comma()(t) == CommaAt(t)
  {
    forall t ensures Comma()(t) == CommaAt(t) {
      CommaAtSpec(t);
    }
  }

  /** `sepBy(element, comma)`. */
  function Elements(): Parser<seq<JSON>>
  {
    ElementWellBehaved();
    CommaAgrees();
    SepBy(Element(), Comma())
  }

  lemma {:induction false} MoreElementsWith(e: Parser<JSON>, c: Parser<char>, s: seq<char>)
    requires WellBehaved(e) && Shrinking(c)
    requires forall t :: e(t) == ElementAt(t)
    requires forall t :: c(t) == CommaAt(t)
    ensures SepTail(e, c)(s) == MoreElementsAt(s)
    decreases |s|
  {
    SepTailSpec(e, c, s);
    match CommaAt(s)
    case Fail(_, _, _) =>
    case Done(s1, _) =>
      match ElementAt(s1)
      case Fail(_, _, _) =>
      case Done(s2, _) =>
        SuffixTransitive(s2, s1, s);
        MoreElementsWith(e, c, s2);
  }

  lemma ElementsWith(e: Parser<JSON>, c: Parser<char>, s: seq<char>)
    requires WellBehaved(e) && Shrinking(c)
    requires forall t :: e(t) == ElementAt(t)
    requires forall t :: c(t) == CommaAt(t)
    ensures SepBy(e, c)(s) == ElementsAt(s)
  {
    SepBySpec(e, c, s);
    if ElementAt(s).Done? {
      MoreElementsWith(e, c, ElementAt(s).remaining);
    }
  }

  lemma ElementsAtSpec(s: seq<char>)
    ensures Elements()(s) == ElementsAt(s)
  {
    ElementWellBehaved();
    CommaAgrees();
    ElementsWith(Element(), Comma(), s);
  }

  lemma ArrayWith(es: Parser<seq<JSON>>, s: seq<char>)
    requires forall t :: es(t) == ElementsAt(t)
    ensures Map(Between(Then(Char('['), SkipSpaces()), es, Char(']')), (xs: seq<JSON>) => Array(xs))(s)
         == ArrayAt(s)
  {
    CharSpec('[', s);
    if Char('[')(s).Done? {
      SkipSpacesSpec(s[1..]);
      var s2 := DropSpaces(s[1..]);
      if ElementsAt(s2).Done? {
        CharSpec(']', ElementsAt(s2).remaining);
      }
    }
  }

  /** `jsonArray`: `Array <^> (char("[") *> skipSpaces *> sepBy(element, comma) <* char("]"))`. */
  function ArrayGrammar(): Parser<JSON>
  {
    Map(Between(Then(Char('['), SkipSpaces()), Elements(), Char(']')), (xs: seq<JSON>) => Array(xs))
  }

  lemma ArrayAtSpec(s: seq<char>)
    ensures ArrayGrammar()(s) == ArrayAt(s)
  {
    forall t ensures Elements()(t) == ElementsAt(t) {
      ElementsAtSpec(t);
    }
    ArrayWith(Elements(), s);
  }

  // ---------------------------------------------------------------------------
  // Objects

  /** A key, the colon, the value and the white space after it:
      `(jsonString <* colon) <&> element`. */
  function Member(): Parser<(string, JSON)>
  {
    Seq(KeyPart(), Element())
  }

  lemma MemberWith(q: Parser<string>, col: Parser<char>, e: Parser<JSON>, s: seq<char>)
    requires forall t :: q(t) == QuotedAt(t)
    requires forall t :: col(t) == ColonAt(t)
    requires forall t :: e(t) == ElementAt(t)
    ensures Seq(Skip(q, col), e)(s) == MemberAt(s)
  {
    SkipSpec(q, col, s);
  }

  lemma MemberAtSpec(s: seq<char>)
    ensures Member()(s) == MemberAt(s)
  {
    forall t ensures QuotedString()(t) == QuotedAt(t) {
      QuotedAtSpec(t);
    }
    forall t ensures Colon()(t) == ColonAt(t) {
      ColonAtSpec(t);
    }
    ElementWellBehaved();
    MemberWith(QuotedString(), Colon(), Element(), s);
  }

  lemma MemberWellBehaved()
    ensures WellBehaved(Member())
    ensures forall t :: Member()(t) == MemberAt(t)
  {
    forall t ensures Member()(t) == MemberAt(t) {
      MemberAtSpec(t);
    }
  }

  /** `sepBy(member, comma)`. */
  function Members(): Parser<seq<(string, JSON)>>
  {
    MemberWellBehaved();
    CommaAgrees();
    SepBy(Member(), Comma())
  }

  lemma {:induction false} MoreMembersWith(e: Parser<(string, JSON)>, c: Parser<char>, s: seq<char>)
    requires WellBehaved(e) && Shrinking(c)
    requires forall t :: e(t) == MemberAt(t)
    requires forall t :: c(t) == CommaAt(t)
    ensures SepTail(e, c)(s) == MoreMembersAt(s)
    decreases |s|
  {
    SepTailSpec(e, c, s);
    match CommaAt(s)
    case Fail(_, _, _) =>
    case Done(s1, _) =>
      match MemberAt(s1)
      case Fail(_, _, _) =>
      case Done(s2, _) =>
        SuffixTransitive(s2, s1, s);
        MoreMembersWith(e, c, s2);
  }

  lemma MembersWith(e: Parser<(string, JSON)>, c: Parser<char>, s: seq<char>)
    requires WellBehaved(e) && Shrinking(c)
    requires forall t :: e(t) == MemberAt(t)
    requires forall t :: c(t) == CommaAt(t)
    ensures SepBy(e, c)(s) == MembersAt(s)
  {
    SepBySpec(e, c, s);
    if MemberAt(s).Done? {
      MoreMembersWith(e, c, MemberAt(s).remaining);
    }
  }

  lemma MembersAtSpec(s: seq<char>)
    ensures Members()(s) == MembersAt(s)
  {
    MemberWellBehaved();
    CommaAgrees();
    MembersWith(Member(), Comma(), s);
  }

  lemma ObjectWith(ms: Parser<seq<(string, JSON)>>, s: seq<char>)
    requires forall t :: ms(t) == MembersAt(t)
    ensures Map(Between(Then(Char('{'), SkipSpaces()), ms, Char('}')),
                (xs: seq<(string, JSON)>) => Object(ToMap(xs)))(s)
         == ObjectAt(s)
  {
    CharSpec('{', s);
    if Char('{')(s).Done? {
      SkipSpacesSpec(s[1..]);
      var s2 := DropSpaces(s[1..]);
      if MembersAt(s2).Done? {
        CharSpec('}', MembersAt(s2).remaining);
      }
    }
  }

  /** `jsonObject`: `{`, white space, the members separated by commas, `}`,
      the pairs gathered into a dictionary. */
  function ObjectGrammar(): Parser<JSON>
  {
    Map(Between(Then(Char('{'), SkipSpaces()), Members(), Char('}')),
        (xs: seq<(string, JSON)>) => Object(ToMap(xs)))
  }

  lemma ObjectAtSpec(s: seq<char>)
    ensures ObjectGrammar()(s) == ObjectAt(s)
  {
    forall t ensures Members()(t) == MembersAt(t) {
      MembersAtSpec(t);
    }
    ObjectWith(Members(), s);
  }

  // ---------------------------------------------------------------------------
  // Values

  /** `jsonObject <|> jsonArray <|> jsonString <|> jsonNumber <|> jsonBool <|> jsonNull`. */
  function ValueGrammar(): Parser<JSON>
  {
    OrElse(ObjectGrammar(), OrElse(ArrayGrammar(),
      OrElse(JsonString(), OrElse(JsonNumber(), OrElse(JsonBool(), JsonNull())))))
  }

  lemma ValueAtSpec(s: seq<char>)
    ensures ValueGrammar()(s) == ValueAt(s)
  {
    ObjectAtSpec(s);
    ArrayAtSpec(s);
    StringAtSpec(s);
    NumberAtSpec(s);
    BoolAtSpec(s);
    NullAtSpec(s);
  }

  // ---------------------------------------------------------------------------
  // Top level

  /** The whole text is one value with white space around it: the value is
      read after the leading white space, and the trailing white space must
      reach the end of the text. */
  lemma DocumentSpec(text: string)
    ensures Document()(text) ==
      match ValueAt(DropSpaces(text))
      case Fail(r, c, m) => Fail(r, c, m)
      case Done(r, j) => if DropSpaces(r) == [] then Done([], j) else Fail(DropSpaces(r), [], "endOfInput")
  {
    SkipSpacesSpec(text);
    var s1 := DropSpaces(text);
    match ValueAt(s1)
    case Fail(_, _, _) =>
    case Done(r, _) => SkipSpacesSpec(r);
  }

  /** `parseJSON` succeeds with `j` exactly when `j` is read after the leading
      white space and only white space follows it; a value that is followed
      by anything else is reported at that position as "endOfInput". */
  lemma ParseJSONSpec(text: string)
    ensures ParseJSON(text) ==
      match ValueAt(DropSpaces(text))
      case Fail(r, c, m) => Failure(SyntaxError(r, c, m))
      case Done(r, j) =>
        if DropSpaces(r) == [] then Success(j) else Failure(SyntaxError(DropSpaces(r), [], "endOfInput"))
  {
    DocumentSpec(text);
  }

  /** A text that starts with a value and holds nothing after it is that value. */
  lemma ParseJSONOfValue(text: string, j: JSON)
    requires (text == [] || !IsSpace(text[0])) && ValueAt(text) == Done([], j)
    ensures ParseJSON(text) == Success(j)
  {
    ParseJSONSpec(text);
  }
}
