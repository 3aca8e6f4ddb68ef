/** The Python values a NASA CMR record is made of once its JSON is decoded (None, bool,
    numbers, str, list, dict), with the operations the dispatcher applies to them:
    truthiness, `key in value`, `value[key]`, iteration and `str(value)`. Each operation
    fails the way Python does when the value has the wrong type. */
module PyJson {
  import opened Wrappers
  import opened Text

  /** A decoded JSON value. A number keeps its value (for truthiness) and the text
      `str()` prints for it; a dict keeps its entries in insertion order. */
  datatype Json =
    | JNull
    | JBool(b: bool)
    | JNum(value: real, text: string)
    | JStr(s: string)
    | JList(items: seq<Json>)
    | JObj(fields: seq<(string, Json)>)

  /** The exceptions these operations raise. */
  datatype PyError = TypeError | KeyError

  /** `bool(v)`: None, False, zero and empty containers are false. */
  predicate Truthy(v: Json) {
    match v
    case JNull => false
    case JBool(b) => b
    case JNum(x, _) => x != 0.0
    case JStr(s) => s != ""
    case JList(items) => items != []
    case JObj(fields) => fields != []
  }

  function Keys(fields: seq<(string, Json)>): (r: seq<string>)
    ensures |r| == |fields| && forall i :: 0 <= i < |fields| ==> r[i] == fields[i].0
  {
    seq(|fields|, i requires 0 <= i < |fields| => fields[i].0)
  }

  /** The value of the first entry with key `k`. */
  function Lookup(fields: seq<(string, Json)>, k: string): (r: Option<Json>)
    ensures r.None? <==> k !in Keys(fields)
    ensures r.Some? ==> exists i :: 0 <= i < |fields| && fields[i] == (k, r.value)
  {
    if fields == [] then None
    else if fields[0].0 == k then Some(fields[0].1)
    else
      var r := Lookup(fields[1..], k);
      assert Keys(fields) == [fields[0].0] + Keys(fields[1..]);
      assert r.Some? ==> exists i :: 0 <= i < |fields| - 1 && fields[1..][i] == (k, r.value);
      r
  }

  /** `key in v` with a str key: a key test on a dict, a substring test on a str, an
      element test on a list; any other value raises TypeError. */
  function In(key: string, v: Json): (r: Result<bool, PyError>)
    ensures r.Err? <==> !(v.JObj? || v.JStr? || v.JList?)
    ensures v.JObj? ==> r == Ok(key in Keys(v.fields))
    ensures v.JStr? ==> r == Ok(Contains(v.s, key))
  {
    match v
    case JObj(fields) => Ok(key in Keys(fields))
    case JStr(s) => Ok(Contains(s, key))
    case JList(items) => Ok(JStr(key) in items)
    case _ => Err(TypeError)
  }

  /** `v[key]` with a str key: only a dict can be indexed by a str. */
  function GetItem(v: Json, key: string): (r: Result<Json, PyError>)
    ensures r.Ok? <==> v.JObj? && key in Keys(v.fields)
  {
    match v
    case JObj(fields) =>
      (match Lookup(fields, key)
       case Some(x) => Ok(x)
       case None => Err(KeyError))
    case _ => Err(TypeError)
  }

  /** `for x in v`: a list yields its items, a dict its keys, a str its characters;
      None, bools and numbers are not iterable. */
  function Iterate(v: Json): (r: Result<seq<Json>, PyError>)
    ensures r.Ok? <==> v.JList? || v.JObj? || v.JStr?
    ensures v.JList? ==> r == Ok(v.items)
  {
    match v
    case JList(items) => Ok(items)
    case JObj(fields) => Ok(seq(|fields|, i requires 0 <= i < |fields| => JStr(fields[i].0)))
    case JStr(s) => Ok(seq(|s|, i requires 0 <= i < |s| => JStr([s[i]])))
    case _ => Err(TypeError)
  }

  /** `repr(v)`, with strings in single quotes and no escaping. */
  function Repr(v: Json): string
    decreases v
  {
    match v
    case JNull => "None"
    case JBool(b) => if b then "True" else "False"
    case JNum(_, text) => text
    case JStr(s) => "'" + s + "'"
    case JList(items) => "[" + Join(", ", seq(|items|, i requires 0 <= i < |items| => Repr(items[i]))) + "]"
    case JObj(fields) =>
      "{" + Join(", ", seq(|fields|, i requires 0 <= i < |fields| => "'" + fields[i].0 + "': " + Repr(fields[i].1))) + "}"
  }

  /** `str(v)`: a str is itself, anything else its repr. */
  function Str(v: Json): (r: string)
    ensures v.JStr? ==> r == v.s
    ensures v.JNull? ==> r == "None"
  {
    if v.JStr? then v.s else Repr(v)
  }
}
