/** `decode`: `parseJSON` followed by a conversion of the syntax tree into a
    native value. A conversion is a function from `JSON` to a result; the
    ones here are the built-in conversions of numbers, ordered sequences
    and string-keyed dictionaries. */
module JsonDecode {
  import opened Wrappers
  import opened JsonAst
  import opened JsonParser

  /** A conversion of a syntax tree into a native value of type `T`. */
  type Decoder<!T> = JSON -> Result<T, ParseError>

  /** `Double.fromJSON`: a number, or a type mismatch naming the tag found. */
  function AsNumber(j: JSON): (r: Result<real, ParseError>)
    ensures r.Success? <==> j.Number?
    ensures r.Success? ==> j == Number(r.value)
    ensures r.Failure? ==> r.error == TypeMismatch(NumberTag, TagOf(j))
  {
    match j
    case Number(n) => Success(n)
    case _ => Failure(TypeMismatch(NumberTag, TagOf(j)))
  }

  /** Converts every element with `elem`; the first failure, in order, is the result. */
  function DecodeEach<T>(elem: Decoder<T>, js: seq<JSON>): (r: Result<seq<T>, ParseError>)
    ensures r.Success? <==> forall i :: 0 <= i < |js| ==> elem(js[i]).Success?
    ensures r.Success? ==> |r.value| == |js| && forall i :: 0 <= i < |js| ==> r.value[i] == elem(js[i]).value
    ensures r.Failure? ==> exists i :: 0 <= i < |js| && elem(js[i]) == Failure(r.error)
                              && forall k :: 0 <= k < i ==> elem(js[k]).Success?
    decreases |js|
  {
    if js == [] then Success([])
    else
      match elem(js[0])
      case Failure(e) => Failure(e)
      case Success(x) =>
        match DecodeEach(elem, js[1..])
        case Failure(e) =>
          assert exists i :: 0 <= i < |js| - 1 && elem(js[1..][i]) == Failure(e)
                   && forall k :: 0 <= k < i ==> elem(js[1..][k]).Success?;
          var i :| 0 <= i < |js| - 1 && elem(js[1..][i]) == Failure(e)
                   && forall k :: 0 <= k < i ==> elem(js[1..][k]).Success?;
          assert forall k :: 0 <= k < i + 1 ==> elem(js[k]).Success? by {
            forall k | 0 <= k < i + 1 ensures elem(js[k]).Success? {
              if k > 0 { assert js[k] == js[1..][k - 1]; }
            }
          }
          assert elem(js[i + 1]) == Failure(e);
          Failure(e)
        case Success(xs) =>
          assert forall i :: 1 <= i < |js| ==> js[i] == js[1..][i - 1];
          Success([x] + xs)
  }

  /** `[T].fromJSON`: an array whose elements all convert. */
  function DecodeArrayOf<T>(elem: Decoder<T>, j: JSON): (r: Result<seq<T>, ParseError>)
    ensures r.Success? <==> j.Array? && forall i :: 0 <= i < |j.elements| ==> elem(j.elements[i]).Success?
    ensures r.Success? ==> |r.value| == |j.elements|
                           && forall i :: 0 <= i < |j.elements| ==> r.value[i] == elem(j.elements[i]).value
    ensures !j.Array? ==> r == Failure(TypeMismatch(ArrayTag, TagOf(j)))
  {
    match j
    case Array(js) => DecodeEach(elem, js)
    case _ => Failure(TypeMismatch(ArrayTag, TagOf(j)))
  }

  /** `[String: T].fromJSON`: an object whose values all convert, keeping its
      keys. Dictionaries are unordered, so when several values fail to
      convert, which of their errors is reported is left open. */
  ghost function DecodeDictOf<T>(elem: Decoder<T>, j: JSON): (r: Result<map<string, T>, ParseError>)
    ensures r.Success? <==> j.Object? && forall k :: k in j.fields ==> elem(j.fields[k]).Success?
    ensures r.Success? ==> r.value.Keys == j.fields.Keys
                           && forall k :: k in j.fields ==> r.value[k] == elem(j.fields[k]).value
    ensures r.Failure? && j.Object? ==> exists k :: k in j.fields && elem(j.fields[k]) == Failure(r.error)
    ensures !j.Object? ==> r == Failure(TypeMismatch(ObjectTag, TagOf(j)))
  {
    match j
    case Object(fields) =>
      if forall k :: k in fields ==> elem(fields[k]).Success? then
        Success(map k | k in fields :: elem(fields[k]).value)
      else
        var k :| k in fields && elem(fields[k]).Failure?;
        Failure(elem(fields[k]).error)
    case _ => Failure(TypeMismatch(ObjectTag, TagOf(j)))
  }

  /** `decode(text)`: a syntax error from `parseJSON`, or the result of the conversion. */
  ghost function Decode<T>(decoder: Decoder<T>, text: string): (r: Result<T, ParseError>)
    ensures ParseJSON(text).Failure? ==> r == Failure(ParseJSON(text).error)
    ensures ParseJSON(text).Success? ==> r == decoder(ParseJSON(text).value)
  {
    match ParseJSON(text)
    case Failure(e) => Failure(e)
    case Success(j) => decoder(j)
  }

  /** `decode` into `[Double]`. */
  ghost function DecodeNumbers(text: string): (r: Result<seq<real>, ParseError>)
  {
    Decode((j: JSON) => DecodeArrayOf(AsNumber, j), text)
  }

  /** `decode` into `[String: Double]`. */
  ghost function DecodeNumberDict(text: string): (r: Result<map<string, real>, ParseError>)
  {
    Decode((j: JSON) => DecodeDictOf(AsNumber, j), text)
  }

  // ---------------------------------------------------------------------------
  // Back to the syntax tree

  /** `[Double].toJSON`: the array of the numbers, in order. */
  function NumbersToJSON(xs: seq<real>): (j: JSON)
    ensures j.Array? && |j.elements| == |xs|
    ensures forall i :: 0 <= i < |xs| ==> j.elements[i] == Number(xs[i])
  {
    Array(seq(|xs|, i requires 0 <= i < |xs| => Number(xs[i])))
  }

  /** `[String: Double].toJSON`: the object with the same keys. */
  function NumberDictToJSON(d: map<string, real>): (j: JSON)
    ensures j.Object? && j.fields.Keys == d.Keys
    ensures forall k :: k in d ==> j.fields[k] == Number(d[k])
  {
    Object(map k | k in d :: Number(d[k]))
  }

  /** Converting a list of numbers to a syntax tree and back gives the list. */
  lemma NumbersRoundTrip(xs: seq<real>)
    ensures DecodeArrayOf(AsNumber, NumbersToJSON(xs)) == Success(xs)
  {
    var r := DecodeArrayOf(AsNumber, NumbersToJSON(xs));
    assert r.Success?;
    assert r.value == xs;
  }

  /** Converting a dictionary of numbers to a syntax tree and back gives the dictionary. */
  lemma NumberDictRoundTrip(d: map<string, real>)
    ensures DecodeDictOf(AsNumber, NumberDictToJSON(d)) == Success(d)
  {
    var r := DecodeDictOf(AsNumber, NumberDictToJSON(d));
    assert r.Success?;
    assert r.value == d;
  }
}
