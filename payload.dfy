/** The decoded JSON payload the library listing returns, and the few Python
    operations the exporter applies to it: `dict.get` with a default, and
    iteration with a `for` loop. */
module Payload {

  datatype Option<T> = None | Some(value: T)

  datatype Result<T, E> = Success(value: T) | Failure(error: E)

  /** A value produced by decoding JSON. An object keeps its members in
      insertion order, as a Python dict does; decoded objects have distinct
      keys. JSON numbers with a fraction are not modelled. */
  datatype Json =
    | JNull
    | JBool(b: bool)
    | JInt(i: int)
    | JString(s: string)
    | JArray(elems: seq<Json>)
    | JObject(fields: seq<(string, Json)>)

  /** The object has a member named `key`. */
  predicate HasKey(fields: seq<(string, Json)>, key: string) {
    exists i :: 0 <= i < |fields| && fields[i].0 == key
  }

  /** `d[key]` on a dict: the value of the first member named `key`, or
      None for a KeyError. */
  function Lookup(fields: seq<(string, Json)>, key: string): Option<Json> {
    if |fields| == 0 then None
    else if fields[0].0 == key then Some(fields[0].1)
    else Lookup(fields[1..], key)
  }

  /** A lookup succeeds exactly when the key is present, and then yields the
      value of a member with that key. */
  lemma {:induction false} LookupFindsKey(fields: seq<(string, Json)>, key: string)
    ensures Lookup(fields, key).Some? <==> HasKey(fields, key)
    ensures Lookup(fields, key).Some? ==>
      exists i :: 0 <= i < |fields| && fields[i] == (key, Lookup(fields, key).value)
  {
    if |fields| > 0 && fields[0].0 != key {
      var rest := fields[1..];
      LookupFindsKey(rest, key);
      if HasKey(rest, key) {
        var i :| 0 <= i < |rest| && rest[i].0 == key;
        assert fields[i + 1].0 == key;
      }
      if HasKey(fields, key) {
        var i :| 0 <= i < |fields| && fields[i].0 == key;
        assert i != 0 && rest[i - 1].0 == key;
      }
      if Lookup(rest, key).Some? {
        var i :| 0 <= i < |rest| && rest[i] == (key, Lookup(rest, key).value);
        assert fields[i + 1] == rest[i];
      }
    } else if |fields| > 0 {
      assert fields[0] == (key, fields[0].1);
    }
  }

  /** `d.get(key, default)` on a dict: the member's value when the key is
      present, the default otherwise. */
  function Get(fields: seq<(string, Json)>, key: string, default: Json): Json {
    match Lookup(fields, key)
    case Some(v) => v
    case None => default
  }

  /** What `for x in v` runs over: the elements of a list, the one-character
      strings of a str, the keys of a dict (as strings). None, a bool and an
      int are not iterable: the loop raises TypeError, given here as None. */
  function Iterate(v: Json): Option<seq<Json>>
  {
    match v
    case JArray(elems) => Some(elems)
    case JString(s) => Some(seq(|s|, k requires 0 <= k < |s| => JString([s[k]])))
    case JObject(fields) => Some(seq(|fields|, k requires 0 <= k < |fields| => JString(fields[k].0)))
    case _ => None
  }
}
