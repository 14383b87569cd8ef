/** `parseJSON`, the accessors and `decode` on the documents of the
    repository's test suite. Each document is written as a chain of short
    pieces, each followed by the rest of the text, and read one production at
    a time from the innermost value outwards; every step holds whatever text
    follows the piece. */
module JsonDocuments {
  import opened Wrappers
  import opened Parsers
  import opened JsonAst
  import opened JsonParser
  import opened JsonGrammar
  import opened JsonProperties
  import opened JsonDecode

  // ---------------------------------------------------------------------------
  // { "items": [ { "hidden" : true } ] }

  function Hidden(): JSON
  {
    Object(map["hidden" := Bool(true)])
  }

  function Items(): JSON
  {
    Object(map["items" := Array([Hidden()])])
  }

  /** `{ "hidden" : true }`, then `rest`. */
  function HiddenText(rest: seq<char>): seq<char>
  {
    "{ " + ("\"hidden\"" + (" : " + ("true" + (" }" + rest))))
  }

  /** The first document, then `rest`. */
  function ItemsText(rest: seq<char>): seq<char>
  {
    "{ " + ("\"items\"" + (": " + ("[ " + HiddenText(" ]" + (" }" + rest)))))
  }

  lemma HiddenKey(rest: seq<char>)
    ensures QuotedAt("\"hidden\"" + rest) == Done(rest, "hidden")
  {
    QuotedPiece("\"hidden\"", "hidden", rest);
  }

  lemma HiddenMember(rest: seq<char>)
    ensures MemberAt("\"hidden\"" + (" : " + ("true" + (" }" + rest)))) == Done("}" + rest, ("hidden", Bool(true)))
  {
    TrueThenClose(" }", '}', rest);
    HiddenKey(" : " + ("true" + (" }" + rest)));
    MemberPiece("\"hidden\"" + (" : " + ("true" + (" }" + rest))), "hidden", " : ", 1, "true" + (" }" + rest),
                "}" + rest, Bool(true));
  }

  lemma HiddenMembers(rest: seq<char>)
    ensures MembersAt("\"hidden\"" + (" : " + ("true" + (" }" + rest)))) == Done("}" + rest, [("hidden", Bool(true))])
  {
    HiddenMember(rest);
    MembersLast("\"hidden\"" + (" : " + ("true" + (" }" + rest))), "}" + rest, ("hidden", Bool(true)));
  }

  lemma HiddenObject(rest: seq<char>)
    ensures ValueAt(HiddenText(rest)) == Done(rest, Hidden())
  {
    HiddenMembers(rest);
    ObjectPiece("{ ", "\"hidden\"" + (" : " + ("true" + (" }" + rest))), [("hidden", Bool(true))], rest);
    ToMapOne("hidden", Bool(true));
  }

  lemma HiddenElement(rest: seq<char>)
    ensures ElementAt(HiddenText(" ]" + rest)) == Done("]" + rest, Hidden())
  {
    HiddenObject(" ]" + rest);
    ElementThenClose(HiddenText(" ]" + rest), Hidden(), " ]", ']', rest);
  }

  lemma HiddenArray(rest: seq<char>)
    ensures ValueAt("[ " + HiddenText(" ]" + rest)) == Done(rest, Array([Hidden()]))
  {
    HiddenElement(rest);
    ElementsLast(HiddenText(" ]" + rest), "]" + rest, Hidden());
    ArrayPiece("[ ", HiddenText(" ]" + rest), [Hidden()], rest);
  }

  lemma ItemsElement(rest: seq<char>)
    ensures ElementAt("[ " + HiddenText(" ]" + (" }" + rest))) == Done("}" + rest, Array([Hidden()]))
  {
    HiddenArray(" }" + rest);
    ElementThenClose("[ " + HiddenText(" ]" + (" }" + rest)), Array([Hidden()]), " }", '}', rest);
  }

  lemma ItemsKey(rest: seq<char>)
    ensures QuotedAt("\"items\"" + rest) == Done(rest, "items")
  {
    QuotedPiece("\"items\"", "items", rest);
  }

  lemma ItemsMember(rest: seq<char>)
    ensures MemberAt("\"items\"" + (": " + ("[ " + HiddenText(" ]" + (" }" + rest)))))
         == Done("}" + rest, ("items", Array([Hidden()])))
  {
    var x := "[ " + HiddenText(" ]" + (" }" + rest));
    ItemsElement(rest);
    ItemsKey(": " + x);
    MemberPiece("\"items\"" + (": " + x), "items", ": ", 0, x, "}" + rest, Array([Hidden()]));
  }

  lemma ItemsObject(rest: seq<char>)
    ensures ValueAt(ItemsText(rest)) == Done(rest, Items())
  {
    var x := "\"items\"" + (": " + ("[ " + HiddenText(" ]" + (" }" + rest))));
    ItemsMember(rest);
    MembersLast(x, "}" + rest, ("items", Array([Hidden()])));
    ObjectPiece("{ ", x, [("items", Array([Hidden()]))], rest);
    ToMapOne("items", Array([Hidden()]));
  }

  lemma ItemsTextIs()
    ensures ItemsText([]) == "{ \"items\": [ { \"hidden\" : true } ] }"
  {
  }

  /** `parseJSON` on the first document of the test suite. */
  lemma ParseItems()
    ensures ParseJSON("{ \"items\": [ { \"hidden\" : true } ] }") == Success(Items())
  {
    ItemsObject([]);
    ItemsTextIs();
    ParseJSONOfValue(ItemsText([]), Items());
  }

  /** `json["items"]?[0]?["hidden"]?.rawBool` on the first document. */
  lemma ItemsAccessors()
    ensures KeyOf(AtOf(KeyOf(Some(Items()), "items"), 0), "hidden") == Some(Bool(true))
    ensures Items().Key("items").value.At(0).value.Key("hidden").value.RawBool() == Some(true)
  {
  }

  // ---------------------------------------------------------------------------
  // { "string" : "hello", "array" : [1, "two", [true, null]] }

  function Pair(): JSON
  {
    Array([Bool(true), Null])
  }

  function List(): JSON
  {
    Array([Number(1.0), String("two"), Pair()])
  }

  function Mixed(): JSON
  {
    Object(map["string" := String("hello"), "array" := List()])
  }

  /** `[true, null]`, then `rest`. */
  function PairText(rest: seq<char>): seq<char>
  {
    "[" + ("true" + (", " + ("null" + ("]" + rest))))
  }

  /** `[1, "two", [true, null]]`, then `rest`. */
  function ListText(rest: seq<char>): seq<char>
  {
    "[" + ("1" + (", " + ("\"two\"" + (", " + PairText("]" + rest)))))
  }

  /** The second document, then `rest`. */
  function MixedText(rest: seq<char>): seq<char>
  {
    "{ " + ("\"string\"" + (" : " + ("\"hello\"" + (", " + ("\"array\"" + (" : " + ListText(" }" + rest)))))))
  }

  lemma NullLast(rest: seq<char>)
    ensures MoreElementsAt(", " + ("null" + ("]" + rest))) == Done("]" + rest, [Null])
  {
    NullThenClose("]", ']', rest);
    MoreElementsLast(", ", "null" + ("]" + rest), "]" + rest, Null);
  }

  lemma PairElements(rest: seq<char>)
    ensures ElementsAt("true" + (", " + ("null" + ("]" + rest)))) == Done("]" + rest, [Bool(true), Null])
  {
    NullLast(rest);
    TrueThenComma("null" + ("]" + rest));
    ElementsCons("true" + (", " + ("null" + ("]" + rest))), ", " + ("null" + ("]" + rest)), "]" + rest,
                 Bool(true), [Null]);
    assert [Bool(true)] + [Null] == [Bool(true), Null];
  }

  lemma PairArray(rest: seq<char>)
    ensures ValueAt(PairText(rest)) == Done(rest, Pair())
  {
    PairElements(rest);
    ArrayPiece("[", "true" + (", " + ("null" + ("]" + rest))), [Bool(true), Null], rest);
  }

  lemma PairLast(rest: seq<char>)
    ensures MoreElementsAt(", " + PairText("]" + rest)) == Done("]" + rest, [Pair()])
  {
    PairArray("]" + rest);
    ElementThenClose(PairText("]" + rest), Pair(), "]", ']', rest);
    MoreElementsLast(", ", PairText("]" + rest), "]" + rest, Pair());
  }

  lemma TwoThenPair(rest: seq<char>)
    ensures ElementAt("\"two\"" + (", " + PairText("]" + rest))) == Done(", " + PairText("]" + rest), String("two"))
  {
    QuotedThenComma("\"two\"", "two", PairText("]" + rest));
  }

  lemma TwoMore(rest: seq<char>)
    ensures MoreElementsAt(", " + ("\"two\"" + (", " + PairText("]" + rest))))
         == Done("]" + rest, [String("two"), Pair()])
  {
    PairLast(rest);
    TwoThenPair(rest);
    MoreElementsNext(", ", "\"two\"" + (", " + PairText("]" + rest)), ", " + PairText("]" + rest), "]" + rest,
                     String("two"), [Pair()]);
    assert [String("two")] + [Pair()] == [String("two"), Pair()];
  }

  lemma ListElements(rest: seq<char>)
    ensures ElementsAt("1" + (", " + ("\"two\"" + (", " + PairText("]" + rest)))))
         == Done("]" + rest, [Number(1.0), String("two"), Pair()])
  {
    var x := ", " + ("\"two\"" + (", " + PairText("]" + rest)));
    TwoMore(rest);
    OneThenComma("\"two\"" + (", " + PairText("]" + rest)));
    ElementsCons("1" + x, x, "]" + rest, Number(1.0), [String("two"), Pair()]);
    assert [Number(1.0)] + [String("two"), Pair()] == [Number(1.0), String("two"), Pair()];
  }

  lemma ListArray(rest: seq<char>)
    ensures ValueAt(ListText(rest)) == Done(rest, List())
  {
    ListElements(rest);
    ArrayPiece("[", "1" + (", " + ("\"two\"" + (", " + PairText("]" + rest)))),
               [Number(1.0), String("two"), Pair()], rest);
  }

  lemma ListElement(rest: seq<char>)
    ensures ElementAt(ListText(" }" + rest)) == Done("}" + rest, List())
  {
    ListArray(" }" + rest);
    ElementThenClose(ListText(" }" + rest), List(), " }", '}', rest);
  }

  lemma ArrayKey(rest: seq<char>)
    ensures QuotedAt("\"array\"" + rest) == Done(rest, "array")
  {
    QuotedPiece("\"array\"", "array", rest);
  }

  lemma ArrayMember(rest: seq<char>)
    ensures MemberAt("\"array\"" + (" : " + ListText(" }" + rest))) == Done("}" + rest, ("array", List()))
  {
    ListElement(rest);
    ArrayKey(" : " + ListText(" }" + rest));
    MemberPiece("\"array\"" + (" : " + ListText(" }" + rest)), "array", " : ", 1, ListText(" }" + rest),
                "}" + rest, List());
  }

  lemma ArrayLast(rest: seq<char>)
    ensures MoreMembersAt(", " + ("\"array\"" + (" : " + ListText(" }" + rest))))
         == Done("}" + rest, [("array", List())])
  {
    ArrayMember(rest);
    MoreMembersLast(", ", "\"array\"" + (" : " + ListText(" }" + rest)), "}" + rest, ("array", List()));
  }

  lemma StringKey(rest: seq<char>)
    ensures QuotedAt("\"string\"" + rest) == Done(rest, "string")
  {
    QuotedPiece("\"string\"", "string", rest);
  }

  lemma StringMember(rest: seq<char>)
    ensures MemberAt("\"string\"" + (" : " + ("\"hello\"" + (", " + rest))))
         == Done(", " + rest, ("string", String("hello")))
  {
    QuotedThenComma("\"hello\"", "hello", rest);
    StringKey(" : " + ("\"hello\"" + (", " + rest)));
    MemberPiece("\"string\"" + (" : " + ("\"hello\"" + (", " + rest))), "string", " : ", 1,
                "\"hello\"" + (", " + rest), ", " + rest, String("hello"));
  }

  lemma MixedMembers(rest: seq<char>)
    ensures MembersAt("\"string\"" + (" : " + ("\"hello\"" + (", " + ("\"array\"" + (" : " + ListText(" }" + rest)))))))
         == Done("}" + rest, [("string", String("hello")), ("array", List())])
  {
    var x := "\"array\"" + (" : " + ListText(" }" + rest));
    ArrayLast(rest);
    StringMember(x);
    MembersCons("\"string\"" + (" : " + ("\"hello\"" + (", " + x))), ", " + x, "}" + rest,
                ("string", String("hello")), [("array", List())]);
    assert [("string", String("hello"))] + [("array", List())] == [("string", String("hello")), ("array", List())];
  }

  lemma MixedObject(rest: seq<char>)
    ensures ValueAt(MixedText(rest)) == Done(rest, Mixed())
  {
    MixedMembers(rest);
    ObjectPiece("{ ", "\"string\"" + (" : " + ("\"hello\"" + (", " + ("\"array\"" + (" : " + ListText(" }" + rest)))))),
                [("string", String("hello")), ("array", List())], rest);
    ToMapTwo("string", String("hello"), "array", List());
  }

  lemma MixedTextIs()
    ensures MixedText([]) == "{ \"string\" : \"hello\", " + ("\"array\" : [1, " + "\"two\", [true, null]] }")
  {
  }

  /** `parseJSON` on the second document of the test suite, written as the
      concatenation of three parts of it. */
  lemma ParseMixed()
    ensures ParseJSON("{ \"string\" : \"hello\", " + ("\"array\" : [1, " + "\"two\", [true, null]] }")) == Success(Mixed())
  {
    MixedObject([]);
    MixedTextIs();
    ParseJSONOfValue(MixedText([]), Mixed());
  }

  /** The accessors of the second test on its document. */
  lemma MixedAccessors()
    ensures KeyOf(Some(Mixed()), "string").Then((j: JSON) => j.RawString()) == Some("hello")
    ensures AtOf(KeyOf(Some(Mixed()), "array"), 0).Then((j: JSON) => j.RawNumber()) == Some(1.0)
    ensures AtOf(KeyOf(Some(Mixed()), "array"), 1).Then((j: JSON) => j.RawString()) == Some("two")
    ensures AtOf(AtOf(KeyOf(Some(Mixed()), "array"), 2), 0).Then((j: JSON) => j.RawBool()) == Some(true)
    ensures AtOf(AtOf(KeyOf(Some(Mixed()), "array"), 2), 1).Then((j: JSON) => j.RawNull()) == Some(())
  {
  }

  // ---------------------------------------------------------------------------
  // decode: [1, 2, 3] and { "value": 5 }

  /** `[1, 2, 3]`, then `rest`. */
  function NumbersText(rest: seq<char>): seq<char>
  {
    "[" + ("1" + (", " + ("2" + (", " + ("3" + ("]" + rest))))))
  }

  lemma OneThenComma(rest: seq<char>)
    ensures ElementAt("1" + (", " + rest)) == Done(", " + rest, Number(1.0))
  {
    DigitThenComma('1', rest);
    assert DigitValue('1') == 1;
  }

  lemma TwoThenComma(rest: seq<char>)
    ensures ElementAt("2" + (", " + rest)) == Done(", " + rest, Number(2.0))
  {
    DigitThenComma('2', rest);
    assert DigitValue('2') == 2;
  }

  lemma ThreeThenClose(rest: seq<char>)
    ensures ElementAt("3" + ("]" + rest)) == Done("]" + rest, Number(3.0))
  {
    DigitThenClose('3', "]", ']', rest);
    assert DigitValue('3') == 3;
  }

  lemma ThreeLast(rest: seq<char>)
    ensures MoreElementsAt(", " + ("3" + ("]" + rest))) == Done("]" + rest, [Number(3.0)])
  {
    ThreeThenClose(rest);
    MoreElementsLast(", ", "3" + ("]" + rest), "]" + rest, Number(3.0));
  }

  lemma TwoThreeMore(rest: seq<char>)
    ensures MoreElementsAt(", " + ("2" + (", " + ("3" + ("]" + rest))))) == Done("]" + rest, [Number(2.0), Number(3.0)])
  {
    ThreeLast(rest);
    TwoThenComma("3" + ("]" + rest));
    MoreElementsNext(", ", "2" + (", " + ("3" + ("]" + rest))), ", " + ("3" + ("]" + rest)), "]" + rest,
                     Number(2.0), [Number(3.0)]);
    assert [Number(2.0)] + [Number(3.0)] == [Number(2.0), Number(3.0)];
  }

  lemma NumbersElements(rest: seq<char>)
    ensures ElementsAt("1" + (", " + ("2" + (", " + ("3" + ("]" + rest))))))
         == Done("]" + rest, [Number(1.0), Number(2.0), Number(3.0)])
  {
    var x := ", " + ("2" + (", " + ("3" + ("]" + rest))));
    TwoThreeMore(rest);
    OneThenComma("2" + (", " + ("3" + ("]" + rest))));
    ElementsCons("1" + x, x, "]" + rest, Number(1.0), [Number(2.0), Number(3.0)]);
    assert [Number(1.0)] + [Number(2.0), Number(3.0)] == [Number(1.0), Number(2.0), Number(3.0)];
  }

  lemma NumbersArray(rest: seq<char>)
    ensures ValueAt(NumbersText(rest)) == Done(rest, Array([Number(1.0), Number(2.0), Number(3.0)]))
  {
    NumbersElements(rest);
    ArrayPiece("[", "1" + (", " + ("2" + (", " + ("3" + ("]" + rest))))), [Number(1.0), Number(2.0), Number(3.0)], rest);
  }

  lemma NumbersTextIs()
    ensures NumbersText([]) == "[1, 2, 3]"
  {
  }

  lemma ParseNumbers()
    ensures ParseJSON("[1, 2, 3]") == Success(Array([Number(1.0), Number(2.0), Number(3.0)]))
  {
    NumbersArray([]);
    NumbersTextIs();
    ParseJSONOfValue(NumbersText([]), Array([Number(1.0), Number(2.0), Number(3.0)]));
  }

  /** `decode` into `[Double]` on `[1, 2, 3]`. */
  lemma DecodeNumbersExample()
    ensures DecodeNumbers("[1, 2, 3]") == Success([1.0, 2.0, 3.0])
  {
    ParseNumbers();
    var r := DecodeArrayOf(AsNumber, Array([Number(1.0), Number(2.0), Number(3.0)]));
    assert r.Success?;
    assert r.value == [1.0, 2.0, 3.0];
  }

  /** `{ "value": 5 }`, then `rest`. */
  function ValueText(rest: seq<char>): seq<char>
  {
    "{ " + ("\"value\"" + (": " + ("5" + (" }" + rest))))
  }

  lemma ValueKey(rest: seq<char>)
    ensures QuotedAt("\"value\"" + rest) == Done(rest, "value")
  {
    QuotedPiece("\"value\"", "value", rest);
  }

  lemma FiveThenClose(rest: seq<char>)
    ensures ElementAt("5" + (" }" + rest)) == Done("}" + rest, Number(5.0))
  {
    DigitThenClose('5', " }", '}', rest);
    assert DigitValue('5') == 5;
  }

  lemma ValueMember(rest: seq<char>)
    ensures MemberAt("\"value\"" + (": " + ("5" + (" }" + rest)))) == Done("}" + rest, ("value", Number(5.0)))
  {
    FiveThenClose(rest);
    ValueKey(": " + ("5" + (" }" + rest)));
    MemberPiece("\"value\"" + (": " + ("5" + (" }" + rest))), "value", ": ", 0, "5" + (" }" + rest),
                "}" + rest, Number(5.0));
  }

  lemma ValueObject(rest: seq<char>)
    ensures ValueAt(ValueText(rest)) == Done(rest, Object(map["value" := Number(5.0)]))
  {
    var x := "\"value\"" + (": " + ("5" + (" }" + rest)));
    ValueMember(rest);
    MembersLast(x, "}" + rest, ("value", Number(5.0)));
    ObjectPiece("{ ", x, [("value", Number(5.0))], rest);
    ToMapOne("value", Number(5.0));
  }

  lemma ValueTextIs()
    ensures ValueText([]) == "{ \"value\": 5 }"
  {
  }

  lemma ParseValue()
    ensures ParseJSON("{ \"value\": 5 }") == Success(Object(map["value" := Number(5.0)]))
  {
    ValueObject([]);
    ValueTextIs();
    ParseJSONOfValue(ValueText([]), Object(map["value" := Number(5.0)]));
  }

  /** `decode` into `[String: Double]` on `{ "value": 5 }`. */
  lemma DecodeNumberDictExample()
    ensures DecodeNumberDict("{ \"value\": 5 }") == Success(map["value" := 5.0])
  {
    ParseValue();
    FiveDict();
  }

  lemma FiveDict()
    ensures DecodeDictOf(AsNumber, Object(map["value" := Number(5.0)])) == Success(map["value" := 5.0])
  {
    var r := DecodeDictOf(AsNumber, Object(map["value" := Number(5.0)]));
    assert AsNumber(Number(5.0)) == Success(5.0);
    assert r.Success?;
    assert r.value == map["value" := 5.0];
  }
}
