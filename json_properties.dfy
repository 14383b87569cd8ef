/** Properties of the JSON grammar on all inputs: what each production does
    on a wrong first character, how strings and integers written out read
    back, and how `jsonValue` chooses its alternative. */
module JsonProperties {
  import opened Wrappers
  import opened Parsers
  import opened JsonAst
  import opened JsonParser

  // ---------------------------------------------------------------------------
  // Failing on the first character

  /** A string starts with `"`; on anything else it fails, consuming nothing. */
  lemma StringFirstChar(s: seq<char>)
    ensures StringAt(s).Fail? && StringAt(s).remaining == s <==> !(|s| > 0 && s[0] == '"')
    ensures !(|s| > 0 && s[0] == '"') ==> StringAt(s) == Fail(s, [], "satisfy")
  {
  }

  /** A number starts with `-` or a digit. */
  lemma NumberFirstChar(s: seq<char>)
    ensures NumberAt(s).Fail? && NumberAt(s).remaining == s <==> !(|s| > 0 && (s[0] == '-' || IsDigit(s[0])))
    ensures !(|s| > 0 && (s[0] == '-' || IsDigit(s[0]))) ==> NumberAt(s) == Fail(s, [], "satisfy")
  {
    if |s| > 0 && s[0] == '-' {
      assert MinusAt(s).remaining == s[1..];
    }
  }

  /** `true` and `false` are told apart by their first letter, case-sensitively. */
  lemma BoolFirstChar(s: seq<char>)
    ensures BoolAt(s).Fail? && BoolAt(s).remaining == s <==> !(|s| > 0 && (s[0] == 't' || s[0] == 'f'))
    ensures !(|s| > 0 && (s[0] == 't' || s[0] == 'f')) ==> BoolAt(s) == Fail(s, [], "satisfy")
  {
    StrSpec("true", s);
    StrSpec("false", s);
    if |s| > 0 && (s[0] == 't' || s[0] == 'f') {
      assert CommonPrefix(if s[0] == 't' then "true" else "false", s) > 0 by {
        if s[0] == 't' { assert CommonPrefix("true", s) != 0; } else { assert CommonPrefix("false", s) != 0; }
      }
    }
  }

  lemma NullFirstChar(s: seq<char>)
    ensures NullAt(s).Fail? && NullAt(s).remaining == s <==> !(|s| > 0 && s[0] == 'n')
    ensures !(|s| > 0 && s[0] == 'n') ==> NullAt(s) == Fail(s, [], "satisfy")
  {
    StrSpec("null", s);
    if |s| > 0 && s[0] == 'n' {
      assert CommonPrefix("null", s) != 0;
    }
  }

  lemma ArrayFirstChar(s: seq<char>)
    ensures ArrayAt(s).Fail? && ArrayAt(s).remaining == s <==> !(|s| > 0 && s[0] == '[')
    ensures !(|s| > 0 && s[0] == '[') ==> ArrayAt(s) == Fail(s, [], "satisfy")
  {
  }

  lemma ObjectFirstChar(s: seq<char>)
    ensures ObjectAt(s).Fail? && ObjectAt(s).remaining == s <==> !(|s| > 0 && s[0] == '{')
    ensures !(|s| > 0 && s[0] == '{') ==> ObjectAt(s) == Fail(s, [], "satisfy")
  {
  }

  lemma ScalarOfString(s: seq<char>)
    requires |s| > 0 && s[0] == '"'
    ensures ScalarAt(s) == StringAt(s)
  {
    StringFirstChar(s);
  }

  lemma ScalarOfNumber(s: seq<char>)
    requires |s| > 0 && (s[0] == '-' || IsDigit(s[0]))
    ensures ScalarAt(s) == NumberAt(s)
  {
    StringFirstChar(s);
    NumberFirstChar(s);
  }

  lemma ScalarOfBool(s: seq<char>)
    requires |s| > 0 && (s[0] == 't' || s[0] == 'f')
    ensures ScalarAt(s) == BoolAt(s)
  {
    StringFirstChar(s);
    NumberFirstChar(s);
    BoolFirstChar(s);
  }

  lemma ScalarOfNull(s: seq<char>)
    requires |s| > 0 && s[0] == 'n'
    ensures ScalarAt(s) == NullAt(s)
  {
    StringFirstChar(s);
    NumberFirstChar(s);
    BoolFirstChar(s);
  }

  lemma ScalarOfOther(s: seq<char>)
    requires |s| > 0 && !(s[0] == '"' || s[0] == '-' || IsDigit(s[0]) || s[0] == 't' || s[0] == 'f' || s[0] == 'n')
    ensures ScalarAt(s) == Fail(s, [], "satisfy")
  {
    StringFirstChar(s);
    NumberFirstChar(s);
    BoolFirstChar(s);
    NullFirstChar(s);
  }

  /** Among the alternatives of `jsonValue` that hold no other value, the
      first character decides which one replies. */
  lemma ScalarDispatch(s: seq<char>)
    requires |s| > 0
    ensures s[0] == '"' ==> ScalarAt(s) == StringAt(s)
    ensures s[0] == '-' || IsDigit(s[0]) ==> ScalarAt(s) == NumberAt(s)
    ensures s[0] == 't' || s[0] == 'f' ==> ScalarAt(s) == BoolAt(s)
    ensures s[0] == 'n' ==> ScalarAt(s) == NullAt(s)
    ensures !(s[0] == '"' || s[0] == '-' || IsDigit(s[0]) || s[0] == 't' || s[0] == 'f' || s[0] == 'n') ==> ScalarAt(s) == Fail(s, [], "satisfy")
  {
    if s[0] == '"' {
      ScalarOfString(s);
    } else if s[0] == '-' || IsDigit(s[0]) {
      ScalarOfNumber(s);
    } else if s[0] == 't' || s[0] == 'f' {
      ScalarOfBool(s);
    } else if s[0] == 'n' {
      ScalarOfNull(s);
    } else {
      ScalarOfOther(s);
    }
  }

  /** The first character decides which alternative of `jsonValue` replies;
      no alternative is tried after one that consumed input. */
  lemma ValueDispatch(s: seq<char>)
    requires |s| > 0
    ensures s[0] == '{' ==> ValueAt(s) == ObjectAt(s)
    ensures s[0] == '[' ==> ValueAt(s) == ArrayAt(s)
    ensures s[0] != '{' && s[0] != '[' ==> ValueAt(s) == ScalarAt(s)
  {
    ObjectFirstChar(s);
    if s[0] != '{' {
      ArrayFirstChar(s);
    }
  }

  // ---------------------------------------------------------------------------
  // Strings read back

  /** The escaped form of one character inside a string literal. */
  function EscapeChar(c: char): (e: string)
    ensures |e| > 0 && e[|e| - 1] == c
  {
    if c == '"' || c == '\\' then ['\\', c] else [c]
  }

  /** The body of a string literal for `t`: quotes and backslashes escaped,
      every other character as it is. */
  function Escape(t: string): string
    decreases |t|
  {
    if t == [] then [] else EscapeChar(t[0]) + Escape(t[1..])
  }

  /** The string literal for `t`. */
  function Quote(t: string): string
  {
    ['"'] + Escape(t) + ['"']
  }

  /** The escaped form of a character is read back as that character. */
  lemma StringCharOfEscape(c: char, tail: seq<char>)
    ensures StringCharAt(EscapeChar(c) + tail) == Done(tail, c)
  {
    var s := EscapeChar(c) + tail;
    if c == '"' || c == '\\' {
      assert s[0] == '\\' && s[1] == c;
      assert s[2..] == tail;
    } else {
      assert s[0] == c;
      assert s[1..] == tail;
    }
  }

  /** The characters of an escaped body are read back up to the closing quote. */
  lemma {:induction false} CharsOfEscape(t: string, rest: seq<char>)
    requires |rest| > 0 && rest[0] == '"'
    ensures CharsAt(Escape(t) + rest) == Done(rest, t)
    decreases |t|
  {
    if t == [] {
      assert Escape(t) + rest == rest;
    } else {
      var s := Escape(t) + rest;
      var tail := Escape(t[1..]) + rest;
      assert s == EscapeChar(t[0]) + tail;
      StringCharOfEscape(t[0], tail);
      CharsOfEscape(t[1..], rest);
      assert [t[0]] + t[1..] == t;
    }
  }

  /** `jsonString` reads back the literal of any text, whatever follows it. */
  lemma QuoteRoundTrip(t: string, rest: seq<char>)
    ensures StringAt(Quote(t) + rest) == Done(rest, String(t))
  {
    var s := Quote(t) + rest;
    assert s == ['"'] + (Escape(t) + (['"'] + rest));
    assert s[1..] == Escape(t) + (['"'] + rest);
    CharsOfEscape(t, ['"'] + rest);
  }

  /** A text without quotes and backslashes is its own literal body. */
  lemma {:induction false} EscapePlain(t: string)
    requires forall i :: 0 <= i < |t| ==> IsPlainChar(t[i])
    ensures Escape(t) == t
    decreases |t|
  {
    if t != [] {
      EscapePlain(t[1..]);
      assert [t[0]] + t[1..] == t;
    }
  }

  /** A text without quotes and backslashes is read back from itself between quotes. */
  lemma PlainStringAt(t: string, rest: seq<char>)
    requires forall i :: 0 <= i < |t| ==> IsPlainChar(t[i])
    ensures StringAt(['"'] + t + ['"'] + rest) == Done(rest, String(t))
  {
    EscapePlain(t);
    QuoteRoundTrip(t, rest);
  }

  // ---------------------------------------------------------------------------
  // Integers read back

  /** The decimal digits of `n`, most significant first, without leading zeros. */
  function NatDigits(n: nat): (ds: seq<char>)
    ensures |ds| > 0
    ensures forall i :: 0 <= i < |ds| ==> IsDigit(ds[i])
    decreases n
  {
    (if n < 10 then [] else NatDigits(n / 10)) + [('0' as int + n % 10) as char]
  }

  /** The literal of an integer, with a leading `-` when it is negative. */
  function IntText(n: int): string
  {
    if n < 0 then ['-'] + NatDigits(-n) else NatDigits(n)
  }

  lemma {:induction false} NatDigitsValue(n: nat)
    ensures DigitsValue(NatDigits(n)) == n
    decreases n
  {
    var ds := NatDigits(n);
    assert ds[..|ds| - 1] == if n < 10 then [] else NatDigits(n / 10);
    if n >= 10 {
      NatDigitsValue(n / 10);
    }
  }

  /** A run of digits is read up to the first character that is not one. */
  lemma {:induction false} DigitRunOf(ds: seq<char>, rest: seq<char>)
    requires forall i :: 0 <= i < |ds| ==> IsDigit(ds[i])
    requires rest == [] || !IsDigit(rest[0])
    ensures DigitRunAt(ds + rest) == Done(rest, ds)
    decreases |ds|
  {
    if ds == [] {
      assert ds + rest == rest;
    } else {
      assert (ds + rest)[1..] == ds[1..] + rest;
      DigitRunOf(ds[1..], rest);
      assert [ds[0]] + ds[1..] == ds;
    }
  }

  /** What may follow a number literal without being read as part of it. */
  predicate EndsNumber(rest: seq<char>)
  {
    rest == [] || !(IsDigit(rest[0]) || rest[0] == '.' || IsExponentMarker(rest[0]))
  }

  /** A non-empty run of digits is read up to the first character that is not one. */
  lemma DigitsOf(ds: seq<char>, rest: seq<char>)
    requires |ds| > 0 && forall i :: 0 <= i < |ds| ==> IsDigit(ds[i])
    requires rest == [] || !IsDigit(rest[0])
    ensures DigitsAt(ds + rest) == Done(rest, ds)
  {
    assert (ds + rest)[1..] == ds[1..] + rest;
    DigitRunOf(ds[1..], rest);
    assert [ds[0]] + ds[1..] == ds;
  }

  function Abs(n: int): nat
  {
    if n < 0 then -n else n
  }

  /** The parts of an integer literal: its sign and its digits. */
  function IntParts(n: int): NumberParts
  {
    (((if n < 0 then Some('-') else None, NatDigits(Abs(n))), None), None)
  }

  /** The optional minus sign of an integer literal. */
  lemma IntSign(n: int, rest: seq<char>)
    ensures MinusAt(IntText(n) + rest) == Done(NatDigits(Abs(n)) + rest, if n < 0 then Some('-') else None)
  {
    var s := IntText(n) + rest;
    var s1 := NatDigits(Abs(n)) + rest;
    if n < 0 {
      assert s == ['-'] + s1;
    } else {
      assert s == s1;
    }
  }

  /** Neither a fraction nor an exponent starts where a number may end. */
  lemma NoFractionNoExponent(rest: seq<char>)
    requires EndsNumber(rest)
    ensures Opt(rest, FractionAt(rest)) == Done(rest, None)
    ensures Opt(rest, ExponentAt(rest)) == Done(rest, None)
  {
  }

  lemma IntPartsAt(n: int, rest: seq<char>)
    requires EndsNumber(rest)
    ensures NumberPartsAt(IntText(n) + rest) == Done(rest, IntParts(n))
  {
    IntSign(n, rest);
    DigitsOf(NatDigits(Abs(n)), rest);
    NoFractionNoExponent(rest);
  }

  lemma IntPartsValue(n: int)
    ensures NumberValue(IntParts(n)) == n as real
  {
    var ds := NatDigits(Abs(n));
    assert ds + [] == ds;
    NatDigitsValue(Abs(n));
  }

  /** `jsonNumber` reads back the literal of any integer. */
  lemma IntRoundTrip(n: int, rest: seq<char>)
    requires EndsNumber(rest)
    ensures NumberAt(IntText(n) + rest) == Done(rest, Number(n as real))
  {
    IntPartsAt(n, rest);
    IntPartsValue(n);
  }

  // ---------------------------------------------------------------------------
  // Values read back

  /** The literal of a boolean. */
  function BoolText(b: bool): string
  {
    if b then "true" else "false"
  }

  /** `jsonBool` reads back the literal of either boolean, whatever follows it. */
  lemma BoolRoundTrip(b: bool, rest: seq<char>)
    ensures BoolAt(BoolText(b) + rest) == Done(rest, Bool(b))
  {
    var s := BoolText(b) + rest;
    StrSpec("true", s);
    StrSpec("false", s);
    assert BoolText(b) <= s;
    assert s[|BoolText(b)|..] == rest;
    if !b {
      assert s[0] == 'f';
      assert CommonPrefix("true", s) == 0;
    }
  }

  /** `jsonNull` reads back `null`, whatever follows it. */
  lemma NullRoundTrip(rest: seq<char>)
    ensures NullAt("null" + rest) == Done(rest, Null)
  {
    var s := "null" + rest;
    StrSpec("null", s);
    assert "null" <= s;
    assert s[4..] == rest;
  }

  /** `true` and `false` as values, whatever follows them. */
  lemma ValueOfTrue(rest: seq<char>)
    ensures ValueAt("true" + rest) == Done(rest, Bool(true))
  {
    ValueOfBool(true, rest);
  }

  lemma ValueOfFalse(rest: seq<char>)
    ensures ValueAt("false" + rest) == Done(rest, Bool(false))
  {
    ValueOfBool(false, rest);
  }

  /** `jsonValue` reads a string literal as `jsonString` does. */
  lemma ValueOfString(t: string, rest: seq<char>)
    ensures ValueAt(Quote(t) + rest) == Done(rest, String(t))
  {
    var s := Quote(t) + rest;
    assert s[0] == '"';
    ValueDispatch(s);
    ScalarDispatch(s);
    QuoteRoundTrip(t, rest);
  }

  /** `jsonValue` reads an integer literal as `jsonNumber` does. */
  lemma ValueOfInt(n: int, rest: seq<char>)
    requires EndsNumber(rest)
    ensures ValueAt(IntText(n) + rest) == Done(rest, Number(n as real))
  {
    var s := IntText(n) + rest;
    assert s[0] == '-' || IsDigit(s[0]);
    ValueDispatch(s);
    ScalarDispatch(s);
    IntRoundTrip(n, rest);
  }

  lemma ValueOfBool(b: bool, rest: seq<char>)
    ensures ValueAt(BoolText(b) + rest) == Done(rest, Bool(b))
  {
    var s := BoolText(b) + rest;
    assert s[0] == 't' || s[0] == 'f';
    ValueDispatch(s);
    ScalarDispatch(s);
    BoolRoundTrip(b, rest);
  }

  lemma ValueOfNull(rest: seq<char>)
    ensures ValueAt("null" + rest) == Done(rest, Null)
  {
    var s := "null" + rest;
    assert s[0] == 'n';
    ValueDispatch(s);
    ScalarDispatch(s);
    NullRoundTrip(rest);
  }

  // ---------------------------------------------------------------------------
  // Pieces of a document
  //
  // A document is read as a sequence of short pieces, each followed by the
  // rest of the text; these lemmas say what each production does with a
  // piece whatever the rest is.

  /** Only white space. */
  predicate Blank(w: seq<char>)
  {
    forall i :: 0 <= i < |w| ==> IsSpace(w[i])
  }

  /** Not starting with white space. */
  predicate NoLeadingSpace(s: seq<char>)
  {
    s == [] || !IsSpace(s[0])
  }

  /** White space ahead of text that does not start with any is dropped. */
  lemma {:induction false} DropBlank(w: seq<char>, rest: seq<char>)
    requires Blank(w) && NoLeadingSpace(rest)
    ensures DropSpaces(w + rest) == rest
    decreases |w|
  {
    if w == [] {
      assert w + rest == rest;
    } else {
      assert (w + rest)[1..] == w[1..] + rest;
      DropBlank(w[1..], rest);
    }
  }

  /** An opening bracket `c` and the white space after it. */
  lemma OpenPiece(p: seq<char>, c: char, rest: seq<char>)
    requires |p| > 0 && p[0] == c && Blank(p[1..]) && NoLeadingSpace(rest)
    ensures |p + rest| > 0 && (p + rest)[0] == c && DropSpaces((p + rest)[1..]) == rest
  {
    assert (p + rest)[1..] == p[1..] + rest;
    DropBlank(p[1..], rest);
  }

  /** White space and then a closing bracket `c`. */
  lemma ClosePiece(p: seq<char>, c: char, rest: seq<char>)
    requires |p| > 0 && p[|p| - 1] == c && !IsSpace(c) && Blank(p[..|p| - 1])
    ensures DropSpaces(p + rest) == [c] + rest
  {
    assert p + rest == p[..|p| - 1] + ([c] + rest);
    DropBlank(p[..|p| - 1], [c] + rest);
  }

  /** A comma and the white space after it. */
  lemma CommaPiece(p: seq<char>, rest: seq<char>)
    requires |p| > 0 && p[0] == ',' && Blank(p[1..]) && NoLeadingSpace(rest)
    ensures CommaAt(p + rest) == Done(rest, ',')
  {
    assert (p + rest)[1..] == p[1..] + rest;
    DropBlank(p[1..], rest);
  }

  /** A colon with white space on either side of it. */
  lemma ColonPiece(p: seq<char>, i: nat, rest: seq<char>)
    requires i < |p| && p[i] == ':' && Blank(p[..i]) && Blank(p[i + 1..]) && NoLeadingSpace(rest)
    ensures ColonAt(p + rest) == Done(rest, ':')
  {
    var t := p[i..] + rest;
    assert p + rest == p[..i] + t;
    DropBlank(p[..i], t);
    assert t[1..] == p[i + 1..] + rest;
    DropBlank(p[i + 1..], rest);
  }

  /** A literal `p` of a text `t` without quotes and backslashes is read as `t`. */
  lemma QuotedPiece(p: seq<char>, t: string, rest: seq<char>)
    requires |p| == |t| + 2 && p[0] == '"' && p[|t| + 1] == '"'
    requires forall i :: 0 <= i < |t| ==> p[i + 1] == t[i] && IsPlainChar(t[i])
    ensures QuotedAt(p + rest) == Done(rest, t)
    ensures ValueAt(p + rest) == Done(rest, String(t))
  {
    assert p == ['"'] + t + ['"'];
    PlainStringAt(t, rest);
    ValueDispatch(p + rest);
    ScalarDispatch(p + rest);
  }

  /** A single digit is read as that number. */
  lemma DigitPiece(d: char, rest: seq<char>)
    requires IsDigit(d) && EndsNumber(rest)
    ensures ValueAt([d] + rest) == Done(rest, Number(DigitValue(d) as real))
  {
    var n := DigitValue(d);
    assert NatDigits(n) == [d] by {
      assert n / 10 == 0 && n % 10 == n;
    }
    ValueOfInt(n, rest);
  }

  // ---------------------------------------------------------------------------
  // Steps through arrays and objects

  /** A list of elements goes on after a comma. */
  lemma MoreElementsCons(s: seq<char>, s1: seq<char>, s2: seq<char>, s3: seq<char>, e: JSON, es: seq<JSON>)
    requires CommaAt(s) == Done(s1, ',')
    requires ElementAt(s1) == Done(s2, e)
    requires MoreElementsAt(s2) == Done(s3, es)
    ensures MoreElementsAt(s) == Done(s3, [e] + es)
  {
  }

  /** A list of elements ends where no comma follows. */
  lemma MoreElementsEnd(s: seq<char>)
    requires |s| > 0 && s[0] != ','
    ensures MoreElementsAt(s) == Done(s, [])
  {
  }

  /** A list of members ends where no comma follows. */
  lemma MoreMembersEnd(s: seq<char>)
    requires |s| > 0 && s[0] != ','
    ensures MoreMembersAt(s) == Done(s, [])
  {
  }

  /** An element is a value and the white space after it. */
  lemma ElementOfValue(s: seq<char>, r: seq<char>, v: JSON)
    requires ValueAt(s) == Done(r, v)
    ensures ElementAt(s) == Done(DropSpaces(r), v)
  {
  }

  lemma ElementsCons(s: seq<char>, s1: seq<char>, s2: seq<char>, e: JSON, es: seq<JSON>)
    requires ElementAt(s) == Done(s1, e)
    requires MoreElementsAt(s1) == Done(s2, es)
    ensures ElementsAt(s) == Done(s2, [e] + es)
  {
  }

  /** An array is `[`, white space, its elements and `]`. */
  lemma ArrayOf(s: seq<char>, es: seq<JSON>, t: seq<char>)
    requires |s| > 0 && s[0] == '[' && ElementsAt(DropSpaces(s[1..])) == Done(t, es)
    requires |t| > 0 && t[0] == ']'
    ensures ArrayAt(s) == Done(t[1..], Array(es))
  {
  }

  lemma MemberOf(s: seq<char>, s1: seq<char>, s2: seq<char>, s3: seq<char>, k: string, v: JSON)
    requires QuotedAt(s) == Done(s1, k)
    requires ColonAt(s1) == Done(s2, ':')
    requires ElementAt(s2) == Done(s3, v)
    ensures MemberAt(s) == Done(s3, (k, v))
  {
  }

  lemma MoreMembersCons(s: seq<char>, s1: seq<char>, s2: seq<char>, s3: seq<char>,
                        m: (string, JSON), ms: seq<(string, JSON)>)
    requires CommaAt(s) == Done(s1, ',')
    requires MemberAt(s1) == Done(s2, m)
    requires MoreMembersAt(s2) == Done(s3, ms)
    ensures MoreMembersAt(s) == Done(s3, [m] + ms)
  {
  }

  lemma MembersCons(s: seq<char>, s1: seq<char>, s2: seq<char>, m: (string, JSON), ms: seq<(string, JSON)>)
    requires MemberAt(s) == Done(s1, m)
    requires MoreMembersAt(s1) == Done(s2, ms)
    ensures MembersAt(s) == Done(s2, [m] + ms)
  {
  }

  /** An object is `{`, white space, its members and `}`. */
  lemma ObjectOf(s: seq<char>, ms: seq<(string, JSON)>, t: seq<char>)
    requires |s| > 0 && s[0] == '{' && MembersAt(DropSpaces(s[1..])) == Done(t, ms)
    requires |t| > 0 && t[0] == '}'
    ensures ObjectAt(s) == Done(t[1..], Object(ToMap(ms)))
  {
  }

  /** White space ahead of anything else is nothing to drop. */
  lemma NoSpaceAhead(s: seq<char>)
    requires |s| > 0 && !IsSpace(s[0])
    ensures DropSpaces(s) == s
  {
  }

  // ---------------------------------------------------------------------------
  // Steps through arrays and objects, piece by piece

  /** A value followed by white space and a closing bracket `c`. */
  lemma ElementThenClose(s: seq<char>, v: JSON, p: seq<char>, c: char, rest: seq<char>)
    requires ValueAt(s) == Done(p + rest, v)
    requires |p| > 0 && p[|p| - 1] == c && !IsSpace(c) && Blank(p[..|p| - 1])
    ensures ElementAt(s) == Done([c] + rest, v)
  {
    ElementOfValue(s, p + rest, v);
    ClosePiece(p, c, rest);
  }

  /** A value followed directly by a comma. */
  lemma ElementThenComma(s: seq<char>, v: JSON, r: seq<char>)
    requires ValueAt(s) == Done(r, v) && |r| > 0 && r[0] == ','
    ensures ElementAt(s) == Done(r, v)
  {
    ElementOfValue(s, r, v);
    NoSpaceAhead(r);
  }

  /** The elements of an array whose last element is read from `s`. */
  lemma ElementsLast(s: seq<char>, t: seq<char>, e: JSON)
    requires ElementAt(s) == Done(t, e) && |t| > 0 && t[0] != ','
    ensures ElementsAt(s) == Done(t, [e])
  {
    MoreElementsEnd(t);
    ElementsCons(s, t, t, e, []);
    assert [e] + [] == [e];
  }

  /** A comma piece `p` and the last element of an array. */
  lemma MoreElementsLast(p: seq<char>, s: seq<char>, t: seq<char>, e: JSON)
    requires |p| > 0 && p[0] == ',' && Blank(p[1..]) && NoLeadingSpace(s)
    requires ElementAt(s) == Done(t, e) && |t| > 0 && t[0] != ','
    ensures MoreElementsAt(p + s) == Done(t, [e])
  {
    CommaPiece(p, s);
    MoreElementsEnd(t);
    MoreElementsCons(p + s, s, t, t, e, []);
    assert [e] + [] == [e];
  }

  /** A comma piece `p`, an element and the elements after it. */
  lemma MoreElementsNext(p: seq<char>, s: seq<char>, t: seq<char>, u: seq<char>, e: JSON, es: seq<JSON>)
    requires |p| > 0 && p[0] == ',' && Blank(p[1..]) && NoLeadingSpace(s)
    requires ElementAt(s) == Done(t, e) && MoreElementsAt(t) == Done(u, es)
    ensures MoreElementsAt(p + s) == Done(u, [e] + es)
  {
    CommaPiece(p, s);
    MoreElementsCons(p + s, s, t, u, e, es);
  }

  /** An opening piece `p` for `[`, the elements and `]`. */
  lemma ArrayPiece(p: seq<char>, x: seq<char>, es: seq<JSON>, rest: seq<char>)
    requires |p| > 0 && p[0] == '[' && Blank(p[1..]) && NoLeadingSpace(x)
    requires ElementsAt(x) == Done([']'] + rest, es)
    ensures ArrayAt(p + x) == Done(rest, Array(es))
    ensures ValueAt(p + x) == Done(rest, Array(es))
  {
    OpenPiece(p, '[', x);
    ArrayOf(p + x, es, [']'] + rest);
    ValueDispatch(p + x);
  }

  /** A key, a colon piece `cp` and an element. */
  lemma MemberPiece(s: seq<char>, k: string, cp: seq<char>, i: nat, x: seq<char>, t: seq<char>, v: JSON)
    requires QuotedAt(s) == Done(cp + x, k)
    requires i < |cp| && cp[i] == ':' && Blank(cp[..i]) && Blank(cp[i + 1..]) && NoLeadingSpace(x)
    requires ElementAt(x) == Done(t, v)
    ensures MemberAt(s) == Done(t, (k, v))
  {
    ColonPiece(cp, i, x);
    MemberOf(s, cp + x, x, t, k, v);
  }

  /** The members of an object whose last member is read from `s`. */
  lemma MembersLast(s: seq<char>, t: seq<char>, m: (string, JSON))
    requires MemberAt(s) == Done(t, m) && |t| > 0 && t[0] != ','
    ensures MembersAt(s) == Done(t, [m])
  {
    MoreMembersEnd(t);
    MembersCons(s, t, t, m, []);
    assert [m] + [] == [m];
  }

  /** A comma piece `p` and the last member of an object. */
  lemma MoreMembersLast(p: seq<char>, s: seq<char>, t: seq<char>, m: (string, JSON))
    requires |p| > 0 && p[0] == ',' && Blank(p[1..]) && NoLeadingSpace(s)
    requires MemberAt(s) == Done(t, m) && |t| > 0 && t[0] != ','
    ensures MoreMembersAt(p + s) == Done(t, [m])
  {
    CommaPiece(p, s);
    MoreMembersEnd(t);
    MoreMembersCons(p + s, s, t, t, m, []);
    assert [m] + [] == [m];
  }

  /** An opening piece `p` for `{`, the members and `}`. */
  lemma ObjectPiece(p: seq<char>, x: seq<char>, ms: seq<(string, JSON)>, rest: seq<char>)
    requires |p| > 0 && p[0] == '{' && Blank(p[1..]) && NoLeadingSpace(x)
    requires MembersAt(x) == Done(['}'] + rest, ms)
    ensures ObjectAt(p + x) == Done(rest, Object(ToMap(ms)))
    ensures ValueAt(p + x) == Done(rest, Object(ToMap(ms)))
  {
    OpenPiece(p, '{', x);
    ObjectOf(p + x, ms, ['}'] + rest);
    ValueDispatch(p + x);
  }

  // ---------------------------------------------------------------------------
  // Elements written out

  /** `true` followed by white space and a closing bracket `c`. */
  lemma TrueThenClose(p: seq<char>, c: char, rest: seq<char>)
    requires |p| > 0 && p[|p| - 1] == c && !IsSpace(c) && Blank(p[..|p| - 1])
    ensures ElementAt("true" + (p + rest)) == Done([c] + rest, Bool(true))
  {
    ValueOfTrue(p + rest);
    ElementThenClose("true" + (p + rest), Bool(true), p, c, rest);
  }

  /** `true` followed by a comma. */
  lemma TrueThenComma(rest: seq<char>)
    ensures ElementAt("true" + (", " + rest)) == Done(", " + rest, Bool(true))
  {
    ValueOfTrue(", " + rest);
    ElementThenComma("true" + (", " + rest), Bool(true), ", " + rest);
  }

  /** `false` followed by white space and a closing bracket `c`. */
  lemma FalseThenClose(p: seq<char>, c: char, rest: seq<char>)
    requires |p| > 0 && p[|p| - 1] == c && !IsSpace(c) && Blank(p[..|p| - 1])
    ensures ElementAt("false" + (p + rest)) == Done([c] + rest, Bool(false))
  {
    ValueOfFalse(p + rest);
    ElementThenClose("false" + (p + rest), Bool(false), p, c, rest);
  }

  /** `null` followed by white space and a closing bracket `c`. */
  lemma NullThenClose(p: seq<char>, c: char, rest: seq<char>)
    requires |p| > 0 && p[|p| - 1] == c && !IsSpace(c) && Blank(p[..|p| - 1])
    ensures ElementAt("null" + (p + rest)) == Done([c] + rest, Null)
  {
    ValueOfNull(p + rest);
    ElementThenClose("null" + (p + rest), Null, p, c, rest);
  }

  /** A digit followed by white space and a closing bracket `c`. */
  lemma DigitThenClose(d: char, p: seq<char>, c: char, rest: seq<char>)
    requires IsDigit(d)
    requires |p| > 0 && p[|p| - 1] == c && !IsSpace(c) && Blank(p[..|p| - 1])
    requires !(IsDigit(p[0]) || p[0] == '.' || IsExponentMarker(p[0]))
    ensures ElementAt([d] + (p + rest)) == Done([c] + rest, Number(DigitValue(d) as real))
  {
    DigitPiece(d, p + rest);
    ElementThenClose([d] + (p + rest), Number(DigitValue(d) as real), p, c, rest);
  }

  /** A digit followed by a comma. */
  lemma DigitThenComma(d: char, rest: seq<char>)
    requires IsDigit(d)
    ensures ElementAt([d] + (", " + rest)) == Done(", " + rest, Number(DigitValue(d) as real))
  {
    DigitPiece(d, ", " + rest);
    ElementThenComma([d] + (", " + rest), Number(DigitValue(d) as real), ", " + rest);
  }

  /** A string literal `q` of `t` followed by a comma. */
  lemma QuotedThenComma(q: seq<char>, t: string, rest: seq<char>)
    requires |q| == |t| + 2 && q[0] == '"' && q[|t| + 1] == '"'
    requires forall i :: 0 <= i < |t| ==> q[i + 1] == t[i] && IsPlainChar(t[i])
    ensures ElementAt(q + (", " + rest)) == Done(", " + rest, String(t))
  {
    QuotedPiece(q, t, ", " + rest);
    ElementThenComma(q + (", " + rest), String(t), ", " + rest);
  }
}
