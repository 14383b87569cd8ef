/** The JSON syntax tree produced by the grammar, with its safe accessors. */
module JsonAst {
  import opened Wrappers

  /** A JSON value. Numbers are exact rationals (the source stores them as
      doubles); objects map keys to values, like a Swift dictionary. */
  datatype JSON =
    | Null
    | Bool(boolean: bool)
    | Number(number: real)
    | String(text: string)
    | Array(elements: seq<JSON>)
    | Object(fields: map<string, JSON>)
  {
    /** `json[key]`: the value under `key` when this is an object holding it. */
    function Key(key: string): (r: Option<JSON>)
      ensures r.Some? <==> Object? && key in fields
      ensures r.Some? ==> r.value == fields[key]
    {
      if Object? && key in fields then Some(fields[key]) else None
    }

    /** `json[index]`: the element at `index` when this is an array long enough. */
    function At(index: int): (r: Option<JSON>)
      ensures r.Some? <==> Array? && 0 <= index < |elements|
      ensures r.Some? ==> r.value == elements[index]
    {
      if Array? && 0 <= index < |elements| then Some(elements[index]) else None
    }

    function RawBool(): (r: Option<bool>)
      ensures r.Some? <==> Bool?
      ensures r.Some? ==> this == Bool(r.value)
    {
      if Bool? then Some(boolean) else None
    }

    function RawNumber(): (r: Option<real>)
      ensures r.Some? <==> Number?
      ensures r.Some? ==> this == Number(r.value)
    {
      if Number? then Some(number) else None
    }

    function RawString(): (r: Option<string>)
      ensures r.Some? <==> String?
      ensures r.Some? ==> this == String(r.value)
    {
      if String? then Some(text) else None
    }

    function RawNull(): (r: Option<()>)
      ensures r.Some? <==> Null?
    {
      if Null? then Some(()) else None
    }
  }

  /** The tag of a JSON value, as named by a type mismatch. */
  datatype Tag = NullTag | BoolTag | NumberTag | StringTag | ArrayTag | ObjectTag

  function TagOf(j: JSON): Tag
  {
    match j
    case Null => NullTag
    case Bool(_) => BoolTag
    case Number(_) => NumberTag
    case String(_) => StringTag
    case Array(_) => ArrayTag
    case Object(_) => ObjectTag
  }

  /** `JSON.ParseError`: what `parseJSON` and `decode` report. A syntax error
      carries the parser failure (remaining input, contexts, message); a type
      mismatch is a conversion error of `decode`. */
  datatype ParseError =
    | SyntaxError(remaining: seq<char>, contexts: seq<string>, message: string)
    | TypeMismatch(expected: Tag, actual: Tag)

  /** The raw accessors never coerce across tags: at most one of them yields a value. */
  lemma RawAccessorsExclusive(j: JSON)
    ensures (if j.RawBool().Some? then 1 else 0) + (if j.RawNumber().Some? then 1 else 0)
          + (if j.RawString().Some? then 1 else 0) + (if j.RawNull().Some? then 1 else 0) <= 1
  {
  }

  /** `o?[key]`: the value under `key` when `o` is present and is an object
      holding it; missing otherwise, and always missing when `o` is. */
  function KeyOf(o: Option<JSON>, key: string): (r: Option<JSON>)
    ensures o == None ==> r == None
    ensures r.Some? <==> o.Some? && o.value.Object? && key in o.value.fields
    ensures r.Some? ==> r.value == o.value.fields[key]
  {
    o.Then((j: JSON) => j.Key(key))
  }

  /** `o?[index]`: the element at `index` when `o` is present and is an array
      long enough; missing otherwise, and always missing when `o` is. */
  function AtOf(o: Option<JSON>, index: int): (r: Option<JSON>)
    ensures o == None ==> r == None
    ensures r.Some? <==> o.Some? && o.value.Array? && 0 <= index < |o.value.elements|
    ensures r.Some? ==> r.value == o.value.elements[index]
  {
    o.Then((j: JSON) => j.At(index))
  }

  /** One step of an access path: a key into an object or an index into an array. */
  datatype Step = KeyStep(key: string) | IndexStep(index: int)

  /** `o?[s0]?[s1]…`: the steps of `path` applied in order with optional chaining. */
  function Follow(o: Option<JSON>, path: seq<Step>): Option<JSON>
    decreases |path|
  {
    if path == [] then o
    else
      var next := match path[0]
        case KeyStep(k) => KeyOf(o, k)
        case IndexStep(i) => AtOf(o, i);
      Follow(next, path[1..])
  }

  /** A missing value stays missing along any path. */
  lemma {:induction false} FollowNone(path: seq<Step>)
    ensures Follow(None, path) == None
    decreases |path|
  {
    if path != [] {
      FollowNone(path[1..]);
    }
  }

  /** Following a path in two parts is following the whole path. */
  lemma {:induction false} FollowAppend(o: Option<JSON>, p: seq<Step>, q: seq<Step>)
    ensures Follow(Follow(o, p), q) == Follow(o, p + q)
    decreases |p|
  {
    if p == [] {
      assert p + q == q;
    } else {
      assert (p + q)[0] == p[0];
      assert (p + q)[1..] == p[1..] + q;
      var next := match p[0]
        case KeyStep(k) => KeyOf(o, k)
        case IndexStep(i) => AtOf(o, i);
      FollowAppend(next, p[1..], q);
    }
  }

  /** The object built from the key/value pairs of `members`, in order; a key
      that occurs more than once keeps its last value. */
  function ToMap(members: seq<(string, JSON)>): map<string, JSON>
    decreases |members|
  {
    if members == [] then map[]
    else
      var last := members[|members| - 1];
      ToMap(members[..|members| - 1])[last.0 := last.1]
  }

  /** The keys of the built object are exactly the keys of the members. */
  lemma {:induction false} ToMapKeys(members: seq<(string, JSON)>)
    ensures ToMap(members).Keys == set i | 0 <= i < |members| :: members[i].0
    decreases |members|
  {
    if members != [] {
      var n := |members| - 1;
      ToMapKeys(members[..n]);
      assert forall i :: 0 <= i < n ==> members[..n][i] == members[i];
      assert (set i | 0 <= i < |members| :: members[i].0)
          == (set i | 0 <= i < n :: members[..n][i].0) + {members[n].0};
    }
  }

  /** A key maps to the value of its last occurrence among the members. */
  lemma {:induction false} ToMapLast(members: seq<(string, JSON)>, i: nat)
    requires i < |members|
    requires forall j :: i < j < |members| ==> members[j].0 != members[i].0
    ensures members[i].0 in ToMap(members)
    ensures ToMap(members)[members[i].0] == members[i].1
    decreases |members|
  {
    var n := |members| - 1;
    if i < n {
      assert members[..n][i] == members[i];
      ToMapLast(members[..n], i);
    }
  }

  /** One member gives an object with one key. */
  lemma ToMapOne(k: string, v: JSON)
    ensures ToMap([(k, v)]) == map[k := v]
  {
    assert [(k, v)][..0] == [];
  }

  /** Two members give an object with both keys, the second winning a tie. */
  lemma ToMapTwo(k1: string, v1: JSON, k2: string, v2: JSON)
    ensures ToMap([(k1, v1), (k2, v2)]) == map[k1 := v1][k2 := v2]
  {
    assert [(k1, v1), (k2, v2)][..1] == [(k1, v1)];
    ToMapOne(k1, v1);
  }
}
