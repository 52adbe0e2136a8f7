/** JSON trees as Gson builds them, and the parts of Gson's JsonElement and
    JsonObject API that the render-controller parser relies on: member lookup
    and the casts and coercions that throw when an element has the wrong shape. */
module JsonTree {

  /** A JSON value. An object keeps its members in source order, as Gson's
      JsonObject does. A number keeps the text it was written with, as Gson's
      lazily parsed numbers do. */
  datatype Json =
    | JNull
    | JBool(b: bool)
    | JNum(literal: string)
    | JStr(s: string)
    | JArr(elems: seq<Json>)
    | JObj(members: seq<(string, Json)>)

  /** The members of a JSON object, in source order. */
  type Members = seq<(string, Json)>

  /** What Gson signals by throwing when an element has the wrong shape. */
  datatype Error =
    | NotAnObject   // ClassCastException from getAsJsonObject
    | NotAnArray    // ClassCastException from getAsJsonArray
    | NotCoercible  // the exceptions of getAsString, getAsBoolean and getAsFloat

  datatype Option<+T> = None | Some(value: T)

  /** The outcome of a computation that may throw one of the errors above. */
  datatype Result<+T> = Ok(value: T) | Err(error: Error) {
    predicate IsFailure() { Err? }

    function PropagateFailure<U>(): Result<U>
      requires Err?
    {
      Err(error)
    }

    function Extract(): T
      requires Ok?
    {
      value
    }
  }

  /** A successful list prefixed with `prefix`; a failure left as it is. */
  function Prepend<T>(prefix: seq<T>, r: Result<seq<T>>): Result<seq<T>> {
    match r
    case Ok(s) => Ok(prefix + s)
    case Err(e) => Err(e)
  }

  lemma PrependNothing<T>(r: Result<seq<T>>)
    ensures Prepend([], r) == r
  {
    if r.Ok? {
      assert [] + r.value == r.value;
    }
  }

  /** Prepending an element and then a list is prepending the longer list. */
  lemma PrependOne<T>(prefix: seq<T>, x: T, r: Result<seq<T>>)
    ensures Prepend(prefix, (var rest :- r; Ok([x] + rest))) == Prepend(prefix + [x], r)
  {
    if r.Ok? {
      assert prefix + ([x] + r.value) == (prefix + [x]) + r.value;
    }
  }

  /** A float read from a JSON element. The text is kept; its conversion to a
      32-bit float is not part of this model. */
  datatype FloatValue = FloatOf(literal: string)

  /** JsonObject.keySet() is a set: no key occurs twice. */
  predicate DistinctKeys(members: Members) {
    forall i, j :: 0 <= i < j < |members| ==> members[i].0 != members[j].0
  }

  /** JsonObject.get: the value stored under `key`, or None (Java's null) when
      the object has no such member; JsonObject.has is `Lookup(..).Some?`. */
  function Lookup(members: Members, key: string): (r: Option<Json>)
    ensures r.Some? <==> exists i :: 0 <= i < |members| && members[i].0 == key
    ensures r.Some? ==> exists i :: 0 <= i < |members| && members[i] == (key, r.value)
  {
    if members == [] then None
    else if members[0].0 == key then Some(members[0].1)
    else Lookup(members[1..], key)
  }

  predicate Has(members: Members, key: string) {
    Lookup(members, key).Some?
  }

  /** In an object without repeated keys, looking up the key of a member finds
      that member's value: iterating the members is iterating keySet() and
      calling get on each key. */
  lemma {:induction false} LookupMember(members: Members, i: int)
    requires DistinctKeys(members)
    requires 0 <= i < |members|
    ensures Lookup(members, members[i].0) == Some(members[i].1)
  {
    if i > 0 {
      assert members[0].0 != members[i].0;
      var rest := members[1..];
      assert DistinctKeys(rest) by {
        forall a, b | 0 <= a < b < |rest| ensures rest[a].0 != rest[b].0 {
          assert rest[a] == members[a + 1] && rest[b] == members[b + 1];
        }
      }
      assert rest[i - 1] == members[i];
      LookupMember(rest, i - 1);
    }
  }

  /** JsonElement.isJsonPrimitive: a boolean, a number or a string (JSON null
      is not a primitive). */
  predicate IsPrimitive(j: Json) {
    j.JBool? || j.JNum? || j.JStr?
  }

  /** JsonElement.getAsString: the text of a primitive; an array holding
      exactly one element defers to that element; anything else throws. */
  function AsString(j: Json): (r: Result<string>)
    ensures IsPrimitive(j) ==> r.Ok?
    ensures j.JNull? || j.JObj? ==> r == Err(NotCoercible)
  {
    match j
    case JStr(s) => Ok(s)
    case JNum(literal) => Ok(literal)
    case JBool(b) => Ok(if b then "true" else "false")
    case JArr(elems) => if |elems| == 1 then AsString(elems[0]) else Err(NotCoercible)
    case _ => Err(NotCoercible)
  }

  /** Boolean.parseBoolean: "true" in any mix of (ASCII) letter cases. */
  predicate IsTrueIgnoringCase(s: string) {
    |s| == 4 && s[0] in "tT" && s[1] in "rR" && s[2] in "uU" && s[3] in "eE"
  }

  /** Character.toLowerCase on the ASCII letters. */
  function LowerAscii(c: char): char {
    if 'A' <= c <= 'Z' then (c as int - 'A' as int + 'a' as int) as char else c
  }

  /** parseBoolean is "equalsIgnoreCase(\"true\")": four characters that
      lower-case to t, r, u, e. */
  lemma ParseBooleanSpec(s: string)
    ensures IsTrueIgnoringCase(s) <==>
              |s| == 4 && forall i :: 0 <= i < 4 ==> LowerAscii(s[i]) == "true"[i]
  {
  }

  /** JsonElement.getAsBoolean: a boolean as it is; any other primitive is
      parsed from its text with Boolean.parseBoolean, which never throws; an
      array holding exactly one element defers to it; anything else throws. */
  function AsBoolean(j: Json): (r: Result<bool>)
    ensures j.JBool? ==> r == Ok(j.b)
    ensures j.JNull? || j.JObj? ==> r == Err(NotCoercible)
  {
    match j
    case JBool(b) => Ok(b)
    case JStr(s) => Ok(IsTrueIgnoringCase(s))
    case JNum(literal) => Ok(IsTrueIgnoringCase(literal))
    case JArr(elems) => if |elems| == 1 then AsBoolean(elems[0]) else Err(NotCoercible)
    case _ => Err(NotCoercible)
  }

  /** JsonElement.getAsFloat: a number or a string is read as a float; a
      boolean throws (Float.parseFloat rejects "true" and "false"); an array
      holding exactly one element defers to it; anything else throws. */
  function AsFloat(j: Json): (r: Result<FloatValue>)
    ensures j.JNum? ==> r == Ok(FloatOf(j.literal))
    ensures j.JBool? || j.JNull? || j.JObj? ==> r == Err(NotCoercible)
  {
    match j
    case JNum(literal) => Ok(FloatOf(literal))
    case JStr(s) => Ok(FloatOf(s))
    case JArr(elems) => if |elems| == 1 then AsFloat(elems[0]) else Err(NotCoercible)
    case _ => Err(NotCoercible)
  }

  /** The cast `(JsonArray) element` of JsonObject.getAsJsonArray. */
  function AsArray(j: Json): (r: Result<seq<Json>>)
    ensures r.Ok? <==> j.JArr?
  {
    match j
    case JArr(elems) => Ok(elems)
    case _ => Err(NotAnArray)
  }

  /** JsonObject.getAsJsonObject: None (Java's null) when the member is
      absent, the member's members when it is an object, and a failed cast
      otherwise. */
  function ObjectMember(members: Members, key: string): (r: Result<Option<Members>>)
    ensures !Has(members, key) ==> r == Ok(None)
    ensures Has(members, key) ==> (r.Ok? <==> Lookup(members, key).value.JObj?)
    ensures r.Ok? && r.value.Some? ==> Lookup(members, key) == Some(JObj(r.value.value))
  {
    match Lookup(members, key)
    case None => Ok(None)
    case Some(JObj(inner)) => Ok(Some(inner))
    case Some(_) => Err(NotAnObject)
  }
}
