/** The behaviour of the JSON grammar, the accessors and `decode` on the
    inputs of the repository's test suite, one lemma per test case. */
module JsonExamples {
  import opened Wrappers
  import opened Parsers
  import opened JsonAst
  import opened JsonParser
  import opened JsonGrammar
  import opened JsonProperties
  import opened JsonDecode

  // ---------------------------------------------------------------------------
  // jsonString

  lemma StringWholeAt()
    ensures StringAt("\"123\"") == Done("", String("123"))
  {
    PlainStringAt("123", "");
    assert ['"'] + "123" + ['"'] + "" == "\"123\"";
  }

  lemma StringWhole()
    ensures Parse(JsonString(), "\"123\"") == Done("", String("123"))
  {
    StringAtSpec("\"123\"");
    StringWholeAt();
  }

  lemma StringPartialAt()
    ensures StringAt("\"123\nabc\"other") == Done("other", String("123\nabc"))
  {
    PlainStringAt("123\nabc", "other");
    assert ['"'] + "123\nabc" + ['"'] + "other" == "\"123\nabc\"other";
  }

  lemma StringPartial()
    ensures Parse(JsonString(), "\"123\nabc\"other") == Done("other", String("123\nabc"))
  {
    StringAtSpec("\"123\nabc\"other");
    StringPartialAt();
  }

  lemma StringRejectsNull()
    ensures Parse(JsonString(), "null") == Fail("null", [], "satisfy")
  {
    StringAtSpec("null");
    StringFirstChar("null");
  }

  // ---------------------------------------------------------------------------
  // jsonNumber

  lemma DecimalParts()
    ensures NumberPartsAt("1.2") == Done("", (((None, "1"), Some("2")), None))
  {
    assert MinusAt("1.2") == Done("1.2", None);
    DigitsOf("1", ".2");
    assert "1" + ".2" == "1.2";
    DigitsOf("2", "");
    assert "2" + "" == "2";
    assert FractionAt(".2") == Done("", "2");
    assert ExponentAt("") == Fail("", [], "satisfy");
  }

  lemma NumberDecimal()
    ensures Parse(JsonNumber(), "1.2") == Done("", Number(1.2))
  {
    NumberAtSpec("1.2");
    NumberDecimalAt();
  }

  lemma NumberDecimalAt()
    ensures NumberAt("1.2") == Done("", Number(1.2))
  {
    DecimalParts();
    assert "1" + "2" == "12";
    assert DigitsValue("12") == 12;
    assert Scale(12.0, -1) == 1.2;
  }

  /** The fraction and exponent of `1.2e3` and `-1.2E3`. */
  lemma ScientificTail(marker: char)
    requires IsExponentMarker(marker)
    ensures Opt(".2" + [marker] + "3", FractionAt(".2" + [marker] + "3")) == Done([marker] + "3", Some("2"))
    ensures Opt([marker] + "3", ExponentAt([marker] + "3")) == Done("", Some((None, "3")))
  {
    DigitsOf("2", [marker] + "3");
    assert ".2" + [marker] + "3" == ['.'] + ("2" + ([marker] + "3"));
    DigitsOf("3", "");
    assert "3" + "" == "3";
    assert ([marker] + "3")[1..] == "3";
    assert SignAt("3") == Done("3", None);
  }

  lemma ScientificValue(negative: bool)
    ensures NumberValue((((if negative then Some('-') else None, "1"), Some("2")), Some((None, "3"))))
         == if negative then -1200.0 else 1200.0
  {
    assert "1" + "2" == "12";
    assert DigitsValue("12") == 12;
    assert DigitsValue("3") == 3;
    assert Scale(12.0, 2) == 1200.0;
  }

  lemma NumberSmallE()
    ensures Parse(JsonNumber(), "1.2e3") == Done("", Number(1200.0))
  {
    NumberAtSpec("1.2e3");
    NumberSmallEAt();
  }

  lemma NumberSmallEAt()
    ensures NumberAt("1.2e3") == Done("", Number(1200.0))
  {
    assert MinusAt("1.2e3") == Done("1.2e3", None);
    DigitsOf("1", ".2e3");
    assert "1" + ".2e3" == "1.2e3";
    ScientificTail('e');
    assert ".2" + ['e'] + "3" == ".2e3";
    assert ['e'] + "3" == "e3";
    assert NumberPartsAt("1.2e3") == Done("", (((None, "1"), Some("2")), Some((None, "3"))));
    ScientificValue(false);
  }

  lemma NumberLargeE()
    ensures Parse(JsonNumber(), "-1.2E3") == Done("", Number(-1200.0))
  {
    NumberAtSpec("-1.2E3");
    NumberLargeEAt();
  }

  lemma NumberLargeEAt()
    ensures NumberAt("-1.2E3") == Done("", Number(-1200.0))
  {
    assert MinusAt("-1.2E3") == Done("1.2E3", Some('-'));
    DigitsOf("1", ".2E3");
    assert "1" + ".2E3" == "1.2E3";
    ScientificTail('E');
    assert ".2" + ['E'] + "3" == ".2E3";
    assert ['E'] + "3" == "E3";
    assert NumberPartsAt("-1.2E3") == Done("", (((Some('-'), "1"), Some("2")), Some((None, "3"))));
    ScientificValue(true);
  }

  lemma NumberRejectsNull()
    ensures Parse(JsonNumber(), "null") == Fail("null", [], "satisfy")
  {
    NumberAtSpec("null");
    NumberFirstChar("null");
  }

  // ---------------------------------------------------------------------------
  // jsonBool

  lemma BoolTrue()
    ensures Parse(JsonBool(), "true") == Done("", Bool(true))
  {
    BoolAtSpec("true");
    StrSpec("true", "true");
  }

  lemma BoolFalse()
    ensures Parse(JsonBool(), "false") == Done("", Bool(false))
  {
    BoolAtSpec("false");
    StrSpec("true", "false");
    StrSpec("false", "false");
  }

  lemma BoolRejectsNull()
    ensures Parse(JsonBool(), "null") == Fail("null", [], "satisfy")
  {
    BoolAtSpec("null");
    BoolFirstChar("null");
  }

  lemma BoolIsCaseSensitive()
    ensures Parse(JsonBool(), "True") == Fail("True", [], "satisfy")
  {
    BoolAtSpec("True");
    BoolFirstChar("True");
  }

  // ---------------------------------------------------------------------------
  // jsonArray

  lemma FalseLast(rest: seq<char>)
    ensures MoreElementsAt(", " + ("false" + (" ]" + rest))) == Done("]" + rest, [Bool(false)])
  {
    FalseThenClose(" ]", ']', rest);
    MoreElementsLast(", ", "false" + (" ]" + rest), "]" + rest, Bool(false));
  }

  lemma TrueFalseElements(rest: seq<char>)
    ensures ElementsAt("true" + (", " + ("false" + (" ]" + rest)))) == Done("]" + rest, [Bool(true), Bool(false)])
  {
    FalseLast(rest);
    TrueThenComma("false" + (" ]" + rest));
    ElementsCons("true" + (", " + ("false" + (" ]" + rest))), ", " + ("false" + (" ]" + rest)), "]" + rest,
                 Bool(true), [Bool(false)]);
    assert [Bool(true)] + [Bool(false)] == [Bool(true), Bool(false)];
  }

  /** `[ true, false ]` followed by any text. */
  lemma TrueFalseArray(rest: seq<char>)
    ensures ArrayAt("[ " + ("true" + (", " + ("false" + (" ]" + rest)))))
         == Done(rest, Array([Bool(true), Bool(false)]))
  {
    TrueFalseElements(rest);
    ArrayPiece("[ ", "true" + (", " + ("false" + (" ]" + rest))), [Bool(true), Bool(false)], rest);
  }

  lemma ArrayTrueFalse()
    ensures Parse(JsonArray(), "[ true, false ]") == Done("", Array([Bool(true), Bool(false)]))
  {
    TrueFalseArray([]);
    assert "[ " + ("true" + (", " + ("false" + (" ]" + [])))) == "[ true, false ]";
  }

  lemma ArrayRejectsNull()
    ensures Parse(JsonArray(), "null") == Fail("null", [], "satisfy")
  {
    ArrayFirstChar("null");
  }

  // ---------------------------------------------------------------------------
  // jsonObject

  lemma TestKey(rest: seq<char>)
    ensures QuotedAt("\"test\"" + rest) == Done(rest, "test")
  {
    QuotedPiece("\"test\"", "test", rest);
  }

  lemma TestMember(rest: seq<char>)
    ensures MemberAt("\"test\"" + (" : " + ("true" + (" }" + rest)))) == Done("}" + rest, ("test", Bool(true)))
  {
    TrueThenClose(" }", '}', rest);
    TestKey(" : " + ("true" + (" }" + rest)));
    MemberPiece("\"test\"" + (" : " + ("true" + (" }" + rest))), "test", " : ", 1, "true" + (" }" + rest),
                "}" + rest, Bool(true));
  }

  lemma TestMembers(rest: seq<char>)
    ensures MembersAt("\"test\"" + (" : " + ("true" + (" }" + rest)))) == Done("}" + rest, [("test", Bool(true))])
  {
    TestMember(rest);
    MembersLast("\"test\"" + (" : " + ("true" + (" }" + rest))), "}" + rest, ("test", Bool(true)));
  }

  /** `{ "test" : true }` followed by any text. */
  lemma TestObject(rest: seq<char>)
    ensures ObjectAt("{ " + ("\"test\"" + (" : " + ("true" + (" }" + rest)))))
         == Done(rest, Object(map["test" := Bool(true)]))
  {
    TestMembers(rest);
    ObjectPiece("{ ", "\"test\"" + (" : " + ("true" + (" }" + rest))), [("test", Bool(true))], rest);
    ToMapOne("test", Bool(true));
  }

  lemma ObjectTest()
    ensures Parse(JsonObject(), "{ \"test\" : true }") == Done("", Object(map["test" := Bool(true)]))
  {
    TestObject([]);
    TestText();
  }

  lemma TestText()
    ensures "{ " + ("\"test\"" + (" : " + ("true" + (" }" + [])))) == "{ \"test\" : true }"
  {
  }

  lemma ObjectRejectsNull()
    ensures Parse(JsonObject(), "null") == Fail("null", [], "satisfy")
  {
    ObjectFirstChar("null");
  }
}
