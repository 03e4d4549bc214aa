/**
 * JSON values as Python's `json` module hands them to the modelled code, the
 * Python exceptions that code raises or catches, and the few dynamic-typing
 * rules it relies on: truthiness, `key in value`, `value[key]`, `value.get(...)`,
 * item assignment on a dict, and `str(value)`.
 */
module PyJson {
  import opened Wrappers
  import opened Text

  /**
   * A decoded JSON value; an object keeps its members in insertion order, as a
   * Python dict does, and the modem's replies are taken to name each key once.
   */
  datatype Json =
    | JNull
    | JBool(b: bool)
    | JInt(i: int)
    | JStr(s: string)
    | JArr(items: seq<Json>)
    | JObj(members: seq<(string, Json)>)

  datatype ExceptionKind =
    | ValueError
    | TypeError
    | AttributeError
    | KeyError
    | OverflowError
    | HttpError
    | JsonDecodeError
    | Timeout
    | ConnectionError
    | OtherError

  /** A raised Python exception; `message` is what `str(e)` gives. */
  datatype Exception = Exception(kind: ExceptionKind, message: string)

  /** `type(value).__name__`. */
  function TypeName(j: Json): string {
    match j
    case JNull => "NoneType"
    case JBool(_) => "bool"
    case JInt(_) => "int"
    case JStr(_) => "str"
    case JArr(_) => "list"
    case JObj(_) => "dict"
  }

  /** `bool(value)`. */
  predicate Truthy(j: Json) {
    match j
    case JNull => false
    case JBool(b) => b
    case JInt(i) => i != 0
    case JStr(s) => s != ""
    case JArr(items) => items != []
    case JObj(members) => members != []
  }

  function Keys(members: seq<(string, Json)>): (ks: seq<string>)
    ensures |ks| == |members| && forall i :: 0 <= i < |members| ==> ks[i] == members[i].0
  {
    seq(|members|, i requires 0 <= i < |members| => members[i].0)
  }

  /** The value stored under `key`, if any: the first member with that key. */
  function Lookup(members: seq<(string, Json)>, key: string): (r: Option<Json>)
    ensures r.Some? <==> key in Keys(members)
  {
    if |members| == 0 then None
    else if members[0].0 == key then Some(members[0].1)
    else
      assert Keys(members) == [members[0].0] + Keys(members[1..]);
      Lookup(members[1..], key)
  }

  /** `d.get(key, default)` on a dict. */
  function Get(members: seq<(string, Json)>, key: string, default: Json): Json {
    match Lookup(members, key)
    case Some(v) => v
    case None => default
  }

  /** `d[key] = value` on a dict: an existing key keeps its place, a new one is appended. */
  function SetItem(members: seq<(string, Json)>, key: string, value: Json): seq<(string, Json)> {
    if |members| == 0 then [(key, value)]
    else if members[0].0 == key then [(key, value)] + members[1..]
    else [members[0]] + SetItem(members[1..], key, value)
  }

  lemma KeysCons(e: (string, Json), rest: seq<(string, Json)>)
    ensures Keys([e] + rest) == [e.0] + Keys(rest)
  {
    var ks := Keys([e] + rest);
    forall i | 0 <= i < |ks| ensures ks[i] == ([e.0] + Keys(rest))[i] {
      if i > 0 {
        assert ([e] + rest)[i] == rest[i - 1];
      }
    }
  }

  /** Assignment keeps the key order, appending a key the dict did not have. */
  lemma {:induction false} SetItemKeys(members: seq<(string, Json)>, key: string, value: Json)
    ensures Keys(SetItem(members, key, value)) == if key in Keys(members) then Keys(members) else Keys(members) + [key]
  {
    if |members| == 0 {
      assert Keys([(key, value)]) == [key];
    } else {
      var rest := members[1..];
      assert members == [members[0]] + rest;
      KeysCons(members[0], rest);
      if members[0].0 == key {
        KeysCons((key, value), rest);
      } else {
        var tail := SetItem(rest, key, value);
        assert SetItem(members, key, value) == [members[0]] + tail;
        KeysCons(members[0], tail);
        SetItemKeys(rest, key, value);
        assert key in Keys(members) <==> key in Keys(rest);
        if key !in Keys(rest) {
          assert [members[0].0] + (Keys(rest) + [key]) == ([members[0].0] + Keys(rest)) + [key];
        }
      }
    }
  }

  /** After `d[key] = value`, `d[key]` is `value`. */
  lemma {:induction false} SetItemLookup(members: seq<(string, Json)>, key: string, value: Json)
    ensures Lookup(SetItem(members, key, value), key) == Some(value)
  {
    if |members| > 0 && members[0].0 != key {
      SetItemLookup(members[1..], key, value);
      assert SetItem(members, key, value)[1..] == SetItem(members[1..], key, value);
    }
  }

  /** `d[key] = value` leaves every other key's value alone. */
  lemma {:induction false} SetItemOthers(members: seq<(string, Json)>, key: string, value: Json, other: string)
    requires other != key
    ensures Lookup(SetItem(members, key, value), other) == Lookup(members, other)
  {
    if |members| > 0 {
      var r := SetItem(members, key, value);
      if members[0].0 == key {
        assert r[1..] == members[1..];
      } else if members[0].0 != other {
        SetItemOthers(members[1..], key, value, other);
        assert r[1..] == SetItem(members[1..], key, value);
      }
    }
  }

  /** Every entry after `d[key] = value` is the new one or was there before. */
  lemma {:induction false} SetItemEntries(members: seq<(string, Json)>, key: string, value: Json)
    ensures forall e :: e in SetItem(members, key, value) ==> e == (key, value) || e in members
  {
    if |members| > 0 && members[0].0 != key {
      SetItemEntries(members[1..], key, value);
    }
  }

  /** No key occurs twice, as in every Python dict. */
  predicate Distinct(keys: seq<string>) {
    forall i, j :: 0 <= i < j < |keys| ==> keys[i] != keys[j]
  }

  lemma SetItemDistinct(members: seq<(string, Json)>, key: string, value: Json)
    requires Distinct(Keys(members))
    ensures Distinct(Keys(SetItem(members, key, value)))
  {
    SetItemKeys(members, key, value);
  }

  /** `key in container` for a string key. */
  function In(key: string, container: Json): Result<bool, Exception> {
    match container
    case JObj(members) => Success(key in Keys(members))
    case JArr(items) => Success(JStr(key) in items)
    case JStr(s) => Success(Contains(s, key))
    case _ => Failure(Exception(TypeError, "argument of type '" + TypeName(container) + "' is not iterable"))
  }

  /** `container[key]` for a string key. */
  function GetItem(container: Json, key: string): Result<Json, Exception> {
    match container
    case JObj(members) =>
      if key in Keys(members) then Success(Get(members, key, JNull))
      else Failure(Exception(KeyError, "'" + key + "'"))
    case JArr(_) => Failure(Exception(TypeError, "list indices must be integers or slices, not str"))
    case JStr(_) => Failure(Exception(TypeError, "string indices must be integers, not 'str'"))
    case _ => Failure(Exception(TypeError, "'" + TypeName(container) + "' object is not subscriptable"))
  }

  /** `container.get(key, default)`: only a dict has the method. */
  function GetMethod(container: Json, key: string, default: Json): Result<Json, Exception> {
    match container
    case JObj(members) => Success(Get(members, key, default))
    case _ => Failure(NoAttribute(container, "get"))
  }

  /** The AttributeError raised by `value.name` when the value's type lacks that attribute. */
  function NoAttribute(j: Json, name: string): Exception {
    Exception(AttributeError, "'" + TypeName(j) + "' object has no attribute '" + name + "'")
  }

  /** Python's `str(n)` for any integer. */
  function IntText(n: int): string {
    if n < 0 then "-" + Decimal(-n) else Decimal(n)
  }

  /** Python's `repr(value)`. */
  function Repr(j: Json): string {
    match j
    case JNull => "None"
    case JBool(b) => if b then "True" else "False"
    case JInt(i) => IntText(i)
    case JStr(s) => "'" + s + "'"
    case JArr(items) =>
      "[" + Join(seq(|items|, i requires 0 <= i < |items| => Repr(items[i])), ", ") + "]"
    case JObj(members) =>
      "{" + Join(seq(|members|, i requires 0 <= i < |members| =>
                    "'" + members[i].0 + "': " + Repr(members[i].1)), ", ") + "}"
  }

  /** Python's `str(value)`, which is what an f-string inserts. */
  function Str(j: Json): string {
    match j
    case JStr(s) => s
    case _ => Repr(j)
  }
}
