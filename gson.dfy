/** A parsed JSON document as Gson represents it, and the Gson accessors the
    extractor calls, with the exceptions they throw. */
module Gson {
  import opened JavaTypes

  /** A `JsonElement`. A `JNum` keeps the number's source text, as Gson's
      lazily parsed numbers do; an object keeps its members in insertion order. */
  datatype Json =
    | JNull
    | JBool(b: bool)
    | JNum(text: string)
    | JStr(s: string)
    | JArr(elems: seq<Json>)
    | JObj(members: seq<(string, Json)>)

  /** One member of a `JsonObject`: its name and its value. */
  type Member = (string, Json)

  /** Gson objects never hold two members with the same name. */
  predicate DistinctKeys(members: seq<Member>) {
    forall i, j :: 0 <= i < j < |members| ==> members[i].0 != members[j].0
  }

  /** `value instanceof JsonPrimitive`. */
  predicate IsPrimitive(j: Json) {
    j.JBool? || j.JNum? || j.JStr?
  }

  /** `JsonPrimitive.getAsString()`, which never throws. */
  function PrimitiveString(j: Json): string
    requires IsPrimitive(j)
  {
    match j
    case JBool(b) => if b then "true" else "false"
    case JNum(t) => t
    case JStr(s) => s
  }

  /** `JsonElement.getAsString()` on any element: a primitive gives its text,
      an array of exactly one element delegates to that element, a two-or-more
      or empty array throws `IllegalStateException`, and `JsonNull` and
      objects throw `UnsupportedOperationException`. */
  function GetAsString(j: Json): (r: Result<string>)
    ensures IsPrimitive(j) ==> r == Success(PrimitiveString(j))
    ensures j.JNull? || j.JObj? ==> r == Failure(UnsupportedOperation)
    ensures j.JArr? && |j.elems| != 1 ==> r == Failure(IllegalState)
  {
    match j
    case JNull => Failure(UnsupportedOperation)
    case JObj(_) => Failure(UnsupportedOperation)
    case JArr(xs) => if |xs| == 1 then GetAsString(xs[0]) else Failure(IllegalState)
    case _ => Success(PrimitiveString(j))
  }

  /** `JsonObject.get(key)`: the value of the member named `key`, or null. */
  function Get(members: seq<Member>, key: string): (r: Option<Json>)
    ensures r.None? <==> forall i :: 0 <= i < |members| ==> members[i].0 != key
    ensures r.Some? ==> exists i :: 0 <= i < |members| && members[i] == (key, r.value)
  {
    if members == [] then None
    else if members[0].0 == key then Some(members[0].1)
    else
      var r := Get(members[1..], key);
      assert r.Some? ==> members[1..][0] == members[1];
      r
  }

  /** `JsonObject.getAsJsonObject(key)` followed by the first use of its
      result: Gson casts the member, so a member of another kind (JSON null
      included) throws `ClassCastException`, and a missing member is a null
      that throws `NullPointerException` where it is first used. */
  function GetAsJsonObject(members: seq<Member>, key: string): (r: Result<seq<Member>>)
    ensures r.Success? <==> Get(members, key).Some? && Get(members, key).value.JObj?
    ensures r.Success? ==> Get(members, key) == Some(JObj(r.value))
    ensures Get(members, key).None? ==> r == Failure(NullPointer)
  {
    match Get(members, key)
    case None => Failure(NullPointer)
    case Some(JObj(m)) => Success(m)
    case Some(_) => Failure(ClassCast)
  }

  /** `JsonObject.getAsJsonArray(key)` followed by the first use of its
      result, on the same terms as `GetAsJsonObject`. */
  function GetAsJsonArray(members: seq<Member>, key: string): (r: Result<seq<Json>>)
    ensures r.Success? <==> Get(members, key).Some? && Get(members, key).value.JArr?
    ensures r.Success? ==> Get(members, key) == Some(JArr(r.value))
    ensures Get(members, key).None? ==> r == Failure(NullPointer)
  {
    match Get(members, key)
    case None => Failure(NullPointer)
    case Some(JArr(xs)) => Success(xs)
    case Some(_) => Failure(ClassCast)
  }

  /** `JsonElement.getAsJsonObject()`: anything but an object throws
      `IllegalStateException`. */
  function AsJsonObject(j: Json): (r: Result<seq<Member>>)
    ensures r.Success? <==> j.JObj?
    ensures r.Success? ==> j == JObj(r.value)
    ensures r.Failure? ==> r.error == IllegalState
  {
    if j.JObj? then Success(j.members) else Failure(IllegalState)
  }
}
