/**
  Python's view of a decoded JSON document: the objects json.loads builds
  (None, bool, int, float, str, list, dict), the truthiness test of an `if`,
  `dict.get(key)` with its default of None, and `d[key] = value` on a dict.
 */
module PyJson {

  /** A decoded JSON value, as the Python object json.loads returns for it. */
  datatype Json =
    | JNull
    | JBool(b: bool)
    | JInt(i: int)
    | JFloat(f: real)
    | JStr(s: string)
    | JArr(elems: seq<Json>)
    | JObj(fields: Dict)

  /** A Python dict, as its entries in insertion order. */
  type Dict = seq<(string, Json)>

  /** The one exception the modelled code can raise and not catch. */
  datatype PyError = AttributeError(typeName: string)

  /** A computation that either returns a value or raises. */
  datatype Result<T> = Success(value: T) | Failure(error: PyError)

  /** `type(j).__name__`, which names the type in an AttributeError. */
  function TypeName(j: Json): string {
    match j
    case JNull => "NoneType"
    case JBool(_) => "bool"
    case JInt(_) => "int"
    case JFloat(_) => "float"
    case JStr(_) => "str"
    case JArr(_) => "list"
    case JObj(_) => "dict"
  }

  /** `bool(j)`: None, False, zero and empty containers are false. */
  predicate Truthy(j: Json) {
    match j
    case JNull => false
    case JBool(b) => b
    case JInt(i) => i != 0
    case JFloat(f) => f != 0.0
    case JStr(s) => s != ""
    case JArr(elems) => elems != []
    case JObj(fields) => fields != []
  }

  /** `list(d.keys())`, in insertion order. */
  function Keys(d: Dict): seq<string> {
    seq(|d|, i requires 0 <= i < |d| => d[i].0)
  }

  /** No key occurs twice; every dict json.loads builds, or the code builds, is so. */
  predicate DistinctKeys(d: Dict) {
    forall i, j :: 0 <= i < j < |d| ==> d[i].0 != d[j].0
  }

  /** `d.get(key)`: the value stored under key, or None when key is absent. */
  function Get(d: Dict, key: string): Json {
    if d == [] then JNull
    else if d[0].0 == key then d[0].1
    else Get(d[1..], key)
  }

  /** A key missing from `d.keys()` reads as None. */
  lemma {:induction false} GetAbsent(d: Dict, key: string)
    ensures key !in Keys(d) ==> Get(d, key) == JNull
  {
    if d != [] && key !in Keys(d) {
      assert Keys(d)[0] == d[0].0;
      assert Keys(d[1..]) == Keys(d)[1..];
      GetAbsent(d[1..], key);
    }
  }

  /** `d.get(key)` finds the first entry carrying key. */
  lemma {:induction false} GetFirst(d: Dict, i: nat)
    requires i < |d|
    requires forall j :: 0 <= j < i ==> d[j].0 != d[i].0
    ensures Get(d, d[i].0) == d[i].1
  {
    if i > 0 {
      assert d[1..][i - 1] == d[i];
      assert forall j :: 0 <= j < i - 1 ==> d[1..][j].0 != d[i].0 by {
        forall j | 0 <= j < i - 1 ensures d[1..][j].0 != d[i].0 { assert d[1..][j] == d[j + 1]; }
      }
      GetFirst(d[1..], i - 1);
    }
  }

  /**
    `d[key] = value`: an existing key keeps its place and takes the new value;
    a new key is appended at the end.
   */
  function Set(d: Dict, key: string, value: Json): Dict {
    if d == [] then [(key, value)]
    else if d[0].0 == key then [(key, value)] + d[1..]
    else [d[0]] + Set(d[1..], key, value)
  }

  /** After `d[key] = value`, `d.get(key)` is value and every other key reads as before. */
  lemma {:induction false} SetThenGet(d: Dict, key: string, value: Json, other: string)
    ensures Get(Set(d, key, value), key) == value
    ensures other != key ==> Get(Set(d, key, value), other) == Get(d, other)
  {
    if d != [] && d[0].0 != key {
      SetThenGet(d[1..], key, value, other);
    }
  }

  /** Assigning to a key that is absent appends one entry at the end. */
  lemma {:induction false} SetNewKey(d: Dict, key: string, value: Json)
    requires key !in Keys(d)
    ensures Set(d, key, value) == d + [(key, value)]
  {
    if d != [] {
      assert d[0].0 == Keys(d)[0];
      assert Keys(d[1..]) == Keys(d)[1..];
      SetNewKey(d[1..], key, value);
      assert [d[0]] + (d[1..] + [(key, value)]) == d + [(key, value)];
    }
  }

  /** Assigning to a key that is already present replaces that one entry in place. */
  lemma {:induction false} SetExisting(d: Dict, i: nat, value: Json)
    requires i < |d|
    requires forall j :: 0 <= j < i ==> d[j].0 != d[i].0
    ensures Set(d, d[i].0, value) == d[i := (d[i].0, value)]
  {
    var key := d[i].0;
    if i > 0 {
      var tail := d[1..];
      assert tail[i - 1].0 == key;
      assert forall j :: 0 <= j < i - 1 ==> tail[j].0 != key by {
        forall j | 0 <= j < i - 1 ensures tail[j].0 != key { assert tail[j] == d[j + 1]; }
      }
      SetExisting(tail, i - 1, value);
      assert Set(d, key, value) == [d[0]] + Set(tail, key, value) by { assert d[0].0 != key; }
      assert [d[0]] + tail[i - 1 := (key, value)] == d[i := (key, value)];
    }
  }
}
