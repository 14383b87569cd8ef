/** Number literals in general: the text of any sign, integer digits,
    fraction and exponent is read back as exactly those parts, and the value
    of the parts depends only on the digits and on where the decimal point
    ends up, not on how the literal writes it. */
module JsonNumbers {
  import opened Wrappers
  import opened Parsers
  import opened JsonAst
  import opened JsonParser
  import opened JsonGrammar
  import opened JsonProperties

  // ---------------------------------------------------------------------------
  // Literals

  /** A non-empty run of decimal digits. */
  predicate IsDigits(ds: seq<char>)
  {
    |ds| > 0 && forall i :: 0 <= i < |ds| ==> IsDigit(ds[i])
  }

  /** The parts a number literal is read as: an optional `-`, digits, an
      optional fraction of digits, and an optional exponent with an optional
      `+` or `-` and digits. */
  predicate WellFormed(t: NumberParts)
  {
    (t.0.0.0 == None || t.0.0.0 == Some('-'))
    && IsDigits(t.0.0.1)
    && (t.0.1.Some? ==> IsDigits(t.0.1.value))
    && (t.1.Some? ==> (t.1.value.0 == None || (t.1.value.0.Some? && IsSign(t.1.value.0.value)))
                      && IsDigits(t.1.value.1))
  }

  function SignText(sign: Option<char>): string
  {
    if sign.Some? then [sign.value] else []
  }

  function FractionText(fraction: Option<seq<char>>): string
  {
    if fraction.Some? then ['.'] + fraction.value else []
  }

  function ExponentText(marker: char, exponent: Option<(Option<char>, seq<char>)>): string
  {
    if exponent.Some? then [marker] + (SignText(exponent.value.0) + exponent.value.1) else []
  }

  /** The literal of `t`, with `marker` (`e` or `E`) before its exponent. */
  function NumberText(t: NumberParts, marker: char): string
  {
    SignText(t.0.0.0) + (t.0.0.1 + (FractionText(t.0.1) + ExponentText(marker, t.1)))
  }

  // ---------------------------------------------------------------------------
  // Literals read back

  /** The optional sign of an exponent is read back before its digits. */
  lemma SignTextAt(sign: Option<char>, tail: seq<char>)
    requires sign == None || (sign.Some? && IsSign(sign.value))
    requires tail == [] || !IsSign(tail[0])
    ensures SignAt(SignText(sign) + tail) == Done(tail, sign)
  {
    if sign.Some? {
      assert SignText(sign) + tail == [sign.value] + tail;
      assert ([sign.value] + tail)[1..] == tail;
    } else {
      assert SignText(sign) + tail == tail;
    }
  }

  /** An exponent is read back up to where a number may end. */
  lemma SomeExponentTextAt(marker: char, sign: Option<char>, ds: seq<char>, rest: seq<char>)
    requires IsExponentMarker(marker) && EndsNumber(rest)
    requires sign == None || (sign.Some? && IsSign(sign.value))
    requires IsDigits(ds)
    ensures ExponentAt(ExponentText(marker, Some((sign, ds))) + rest) == Done(rest, (sign, ds))
  {
    var s := ExponentText(marker, Some((sign, ds))) + rest;
    var s1 := SignText(sign) + (ds + rest);
    assert s == [marker] + s1;
    assert s[1..] == s1;
    SignTextAt(sign, ds + rest);
    DigitsOf(ds, rest);
  }

  /** An exponent, or none, is read back up to where a number may end. */
  lemma ExponentTextAt(marker: char, exponent: Option<(Option<char>, seq<char>)>, rest: seq<char>)
    requires IsExponentMarker(marker) && EndsNumber(rest)
    requires exponent.Some? ==> (exponent.value.0 == None || (exponent.value.0.Some? && IsSign(exponent.value.0.value)))
                                && IsDigits(exponent.value.1)
    ensures Opt(ExponentText(marker, exponent) + rest, ExponentAt(ExponentText(marker, exponent) + rest))
         == Done(rest, exponent)
  {
    if exponent.Some? {
      SomeExponentTextAt(marker, exponent.value.0, exponent.value.1, rest);
    } else {
      assert ExponentText(marker, exponent) + rest == rest;
    }
  }

  /** What follows the fraction starts with an exponent marker or may end a number. */
  lemma ExponentTextStart(marker: char, exponent: Option<(Option<char>, seq<char>)>, rest: seq<char>)
    requires IsExponentMarker(marker) && EndsNumber(rest)
    ensures var tail := ExponentText(marker, exponent) + rest;
            tail == [] || !(IsDigit(tail[0]) || tail[0] == '.')
  {
  }

  /** A fraction, or none, is read back up to something that is neither a
      digit nor a point. */
  lemma FractionTextAt(fraction: Option<seq<char>>, tail: seq<char>)
    requires fraction.Some? ==> IsDigits(fraction.value)
    requires tail == [] || !(IsDigit(tail[0]) || tail[0] == '.')
    ensures Opt(FractionText(fraction) + tail, FractionAt(FractionText(fraction) + tail)) == Done(tail, fraction)
  {
    var s := FractionText(fraction) + tail;
    if fraction.Some? {
      assert s == ['.'] + (fraction.value + tail);
      assert s[1..] == fraction.value + tail;
      DigitsOf(fraction.value, tail);
    } else {
      assert s == tail;
    }
  }

  /** The optional minus and the integer digits are read back up to
      something that is not a digit. */
  lemma SignedDigitsTextAt(minus: Option<char>, whole: seq<char>, tail: seq<char>)
    requires minus == None || minus == Some('-')
    requires IsDigits(whole)
    requires tail == [] || !IsDigit(tail[0])
    ensures SignedDigitsAt(SignText(minus) + (whole + tail)) == Done(tail, (minus, whole))
  {
    var s := SignText(minus) + (whole + tail);
    if minus.Some? {
      assert s == ['-'] + (whole + tail);
      assert MinusAt(s) == Done(whole + tail, minus);
    } else {
      assert s == whole + tail;
      assert MinusAt(s) == Done(whole + tail, None);
    }
    DigitsOf(whole, tail);
  }

  lemma MantissaTextAt(t: NumberParts, marker: char, rest: seq<char>)
    requires WellFormed(t) && IsExponentMarker(marker) && EndsNumber(rest)
    ensures MantissaAt(NumberText(t, marker) + rest) == Done(ExponentText(marker, t.1) + rest, t.0)
  {
    var tail := ExponentText(marker, t.1) + rest;
    var tail2 := FractionText(t.0.1) + tail;
    assert NumberText(t, marker) + rest == SignText(t.0.0.0) + (t.0.0.1 + tail2);
    ExponentTextStart(marker, t.1, rest);
    SignedDigitsTextAt(t.0.0.0, t.0.0.1, tail2);
    FractionTextAt(t.0.1, tail);
  }

  /** The literal of any well-formed parts, followed by something that
      cannot continue a number, is read as exactly those parts. */
  lemma NumberTextAt(t: NumberParts, marker: char, rest: seq<char>)
    requires WellFormed(t) && IsExponentMarker(marker) && EndsNumber(rest)
    ensures NumberPartsAt(NumberText(t, marker) + rest) == Done(rest, t)
  {
    MantissaTextAt(t, marker, rest);
    ExponentTextAt(marker, t.1, rest);
  }

  /** `jsonNumber` reads the literal of any well-formed parts back as their value. */
  lemma NumberRoundTrip(t: NumberParts, marker: char, rest: seq<char>)
    requires WellFormed(t) && IsExponentMarker(marker) && EndsNumber(rest)
    ensures NumberAt(NumberText(t, marker) + rest) == Done(rest, Number(NumberValue(t)))
    ensures JsonNumber()(NumberText(t, marker) + rest) == Done(rest, Number(NumberValue(t)))
  {
    NumberTextAt(t, marker, rest);
    NumberAtSpec(NumberText(t, marker) + rest);
  }

  // ---------------------------------------------------------------------------
  // Values

  function Pow10(n: nat): (p: nat)
    ensures p > 0
  {
    if n == 0 then 1 else 10 * Pow10(n - 1)
  }

  /** Moving the decimal point of a whole number `k` places to the right
      multiplies it by ten to the `k`. */
  lemma {:induction false} ScaleWhole(x: int, k: nat)
    ensures Scale(x as real, k) == (x * Pow10(k)) as real
    decreases k
  {
    if k > 0 {
      ScaleWhole(x, k - 1);
      assert x * Pow10(k) == x * Pow10(k - 1) * 10;
    }
  }

  lemma ShiftStep(a: int, p: int, b: int, d: int)
    ensures (a * p + b) * 10 + d == a * (p * 10) + (b * 10 + d)
  {
  }

  /** Digits written after other digits shift them left. */
  lemma {:induction false} DigitsValueAppend(a: seq<char>, b: seq<char>)
    ensures DigitsValue(a + b) == DigitsValue(a) * Pow10(|b|) + DigitsValue(b)
    decreases |b|
  {
    if b == [] {
      assert a + b == a;
    } else {
      var n := |b| - 1;
      assert (a + b)[..|a + b| - 1] == a + b[..n];
      assert (a + b)[|a + b| - 1] == b[n];
      DigitsValueAppend(a, b[..n]);
      ShiftStep(DigitsValue(a), Pow10(n), DigitsValue(b[..n]), DigitValue(b[n]));
      calc {
        DigitsValue(a + b);
        DigitsValue(a + b[..n]) * 10 + DigitValue(b[n]);
        (DigitsValue(a) * Pow10(n) + DigitsValue(b[..n])) * 10 + DigitValue(b[n]);
        DigitsValue(a) * (Pow10(n) * 10) + (DigitsValue(b[..n]) * 10 + DigitValue(b[n]));
        DigitsValue(a) * Pow10(|b|) + DigitsValue(b);
      }
    }
  }

  /** `k` zero digits. */
  function Zeros(k: nat): (ds: seq<char>)
    ensures |ds| == k && forall i :: 0 <= i < k ==> ds[i] == '0'
  {
    seq(k, _ => '0')
  }

  lemma {:induction false} ZerosValue(k: nat)
    ensures DigitsValue(Zeros(k)) == 0
    decreases k
  {
    if k > 0 {
      assert Zeros(k)[..k - 1] == Zeros(k - 1);
      ZerosValue(k - 1);
    }
  }

  /** The value of parts with significand `n` whose written exponent less
      the number of fraction digits is `e`. */
  lemma ValueOfParts(t: NumberParts, n: int, e: int)
    requires Significand(t) == n && WrittenExponent(t) - |FractionDigits(t)| == e
    ensures var magnitude := Scale(n as real, e);
            NumberValue(t) == if t.0.0.0.Some? then -magnitude else magnitude
  {
  }

  /** The value of `w.f` with exponent `|f| + k`. */
  lemma ScientificValue(minus: Option<char>, w: seq<char>, f: seq<char>, k: nat)
    ensures var magnitude := Scale(DigitsValue(w + f) as real, k);
            NumberValue((((minus, w), Some(f)), Some((None, NatDigits(|f| + k)))))
              == if minus.Some? then -magnitude else magnitude
  {
    var scientific := (((minus, w), Some(f)), Some((None, NatDigits(|f| + k))));
    NatDigitsValue(|f| + k);
    assert WrittenExponent(scientific) == |f| + k;
    assert FractionDigits(scientific) == f;
    ValueOfParts(scientific, DigitsValue(w + f), k);
  }

  /** The value of the digits `w`, `f` and `k` zeros, without fraction or exponent. */
  lemma PlainValue(minus: Option<char>, w: seq<char>, f: seq<char>, k: nat)
    ensures var magnitude := (DigitsValue(w + f) * Pow10(k)) as real;
            NumberValue((((minus, w + f + Zeros(k)), None), None))
              == if minus.Some? then -magnitude else magnitude
  {
    var plain := (((minus, w + f + Zeros(k)), None), None);
    assert w + f + Zeros(k) + [] == w + f + Zeros(k);
    DigitsValueAppend(w + f, Zeros(k));
    ZerosValue(k);
    ValueOfParts(plain, DigitsValue(w + f) * Pow10(k), 0);
  }

  /** An exponent of `|f| + k` moves the decimal point past the fraction
      digits `f` and `k` zeros more: `1.2e3` denotes `1200`. */
  lemma PointShift(minus: Option<char>, w: seq<char>, f: seq<char>, k: nat)
    ensures NumberValue((((minus, w), Some(f)), Some((None, NatDigits(|f| + k)))))
         == NumberValue((((minus, w + f + Zeros(k)), None), None))
  {
    ScientificValue(minus, w, f, k);
    PlainValue(minus, w, f, k);
    ScaleWhole(DigitsValue(w + f), k);
  }

  /** The value of `w.f`. */
  lemma DecimalValue(minus: Option<char>, w: seq<char>, f: seq<char>)
    ensures var magnitude := Scale(DigitsValue(w + f) as real, -|f|);
            NumberValue((((minus, w), Some(f)), None))
              == if minus.Some? then -magnitude else magnitude
  {
    var decimal := (((minus, w), Some(f)), None);
    assert FractionDigits(decimal) == f;
    ValueOfParts(decimal, DigitsValue(w + f), -|f|);
  }

  /** The value of the digits `w` and `f` with exponent minus the length of `f`. */
  lemma NegativeExponentValue(minus: Option<char>, w: seq<char>, f: seq<char>)
    ensures var magnitude := Scale(DigitsValue(w + f) as real, -|f|);
            NumberValue((((minus, w + f), None), Some((Some('-'), NatDigits(|f|)))))
              == if minus.Some? then -magnitude else magnitude
  {
    var scientific := (((minus, w + f), None), Some((Some('-'), NatDigits(|f|))));
    NatDigitsValue(|f|);
    assert WrittenExponent(scientific) == -|f|;
    assert w + f + [] == w + f;
    ValueOfParts(scientific, DigitsValue(w + f), -|f|);
  }

  /** A fraction is a negative exponent: `1.25` denotes `125e-2`. */
  lemma FractionAsExponent(minus: Option<char>, w: seq<char>, f: seq<char>)
    ensures NumberValue((((minus, w), Some(f)), None))
         == NumberValue((((minus, w + f), None), Some((Some('-'), NatDigits(|f|)))))
  {
    DecimalValue(minus, w, f);
    NegativeExponentValue(minus, w, f);
  }

  /** Scientific and plain notation read as the same number: the literal
      `w.f` with exponent `|f| + k` and the literal of `w`, `f` and `k`
      zeros written out are both read as one value. */
  lemma NotationsAgree(minus: Option<char>, w: seq<char>, f: seq<char>, k: nat, marker: char, rest: seq<char>)
    requires minus == None || minus == Some('-')
    requires IsDigits(w) && IsDigits(f) && IsExponentMarker(marker) && EndsNumber(rest)
    ensures var scientific := (((minus, w), Some(f)), Some((None, NatDigits(|f| + k))));
            var plain := (((minus, w + f + Zeros(k)), None), None);
            NumberAt(NumberText(scientific, marker) + rest) == NumberAt(NumberText(plain, marker) + rest)
            == Done(rest, Number(NumberValue(plain)))
  {
    var scientific := (((minus, w), Some(f)), Some((None, NatDigits(|f| + k))));
    var plain := (((minus, w + f + Zeros(k)), None), None);
    assert IsDigits(w + f + Zeros(k)) by {
      var ds := w + f + Zeros(k);
      forall i | 0 <= i < |ds|
        ensures IsDigit(ds[i])
      {
        if i >= |w| + |f| {
          assert ds[i] == Zeros(k)[i - |w| - |f|];
        }
      }
    }
    NumberRoundTrip(scientific, marker, rest);
    NumberRoundTrip(plain, marker, rest);
    PointShift(minus, w, f, k);
  }
}
