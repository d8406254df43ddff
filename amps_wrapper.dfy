/** The metric extractor of `AMPSWrapper`: it walks the parsed `/amps.json`
    status document and flattens seven fixed sub-trees into one map from
    `category|subcategory|[id|]metric` to a number.

    Each Java method becomes a method with the same loops, proved equal to a
    specification function; what the code promises is proved as lemmas about
    those functions. */
module AmpsWrapper {
  import opened JavaTypes
  import opened Gson

  const MetricSeparator := "|"
  const HostKey := "host"
  const InstanceKey := "instance"
  const AllKey := "all"
  const CpuKey := "cpus"
  const MemoryKey := "memory"
  const NetworkKey := "network"
  const CpuiKey := "cpu"
  const QueryKey := "queries"
  const CacheKey := "caches"
  const ProcessorKey := "processors"
  const AmpsKey := "amps"

  /** A Java `double`; its arithmetic is never used, values are only carried. */
  type Double(==)

  /** Commons-lang `NumberUtils.isNumber` and the text-to-double conversion
      behind `JsonPrimitive.getAsDouble`, both left uninterpreted. */
  datatype NumberSupport = NumberSupport(isNumber: string -> bool, toDouble: string -> Double)

  /** A `Map<String, Double>` the extractor builds. */
  type Metrics = map<string, Double>

  predicate StartsWith(s: string, prefix: string) {
    |prefix| <= |s| && s[..|prefix|] == prefix
  }

  /** The test `value instanceof JsonPrimitive && NumberUtils.isNumber(value.getAsString())`. */
  predicate IsNumeric(num: NumberSupport, v: Json) {
    IsPrimitive(v) && num.isNumber(PrimitiveString(v))
  }

  /** `value.getAsDouble()` on a primitive. */
  function ValueOf(num: NumberSupport, v: Json): Double
    requires IsPrimitive(v)
  {
    num.toDouble(PrimitiveString(v))
  }

  // ---------------------------------------------------------------------
  // populateMetricsMapHelper

  /** One step of `populateMetricsMapHelper`: put `prefix + name` when the
      member is a numeric primitive. */
  function AddIfNumeric(num: NumberSupport, metrics: Metrics, prefix: string, entry: Member): Metrics {
    if IsNumeric(num, entry.1) then metrics[prefix + entry.0 := ValueOf(num, entry.1)] else metrics
  }

  /** The map `populateMetricsMapHelper` leaves after consuming `entries`,
      starting from `metrics`. */
  function FlattenInto(num: NumberSupport, metrics: Metrics, prefix: string, entries: seq<Member>): Metrics
    decreases |entries|
  {
    if entries == [] then metrics
    else FlattenInto(num, AddIfNumeric(num, metrics, prefix, entries[0]), prefix, entries[1..])
  }

  /** `k` is the name `populateMetricsMapHelper` writes for some numeric
      direct member of `entries`. */
  predicate Written(num: NumberSupport, prefix: string, entries: seq<Member>, k: string) {
    exists i :: 0 <= i < |entries| && IsNumeric(num, entries[i].1) && k == prefix + entries[i].0
  }

  method PopulateMetricsMapHelper(num: NumberSupport, entries: seq<Member>, metrics: Metrics, prefix: string)
    returns (r: Metrics)
    ensures r == FlattenInto(num, metrics, prefix, entries)
  {
    r := metrics;
    var i := 0;
    while i < |entries|
      invariant 0 <= i <= |entries|
      invariant FlattenInto(num, r, prefix, entries[i..]) == FlattenInto(num, metrics, prefix, entries)
    {
      assert entries[i..][1..] == entries[i + 1..];
      var (metricName, value) := entries[i];
      if IsPrimitive(value) && num.isNumber(PrimitiveString(value)) {
        r := r[prefix + metricName := num.toDouble(PrimitiveString(value))];
      }
      i := i + 1;
    }
  }

  /** Exactly the names of numeric direct members are added; nothing is
      taken from nested objects or arrays. */
  lemma {:induction false} FlattenIntoKeys(num: NumberSupport, metrics: Metrics, prefix: string, entries: seq<Member>)
    ensures forall k :: k in FlattenInto(num, metrics, prefix, entries) <==> k in metrics || Written(num, prefix, entries, k)
    decreases |entries|
  {
    if entries != [] {
      var m1 := AddIfNumeric(num, metrics, prefix, entries[0]);
      FlattenIntoKeys(num, m1, prefix, entries[1..]);
      forall k | Written(num, prefix, entries[1..], k) ensures Written(num, prefix, entries, k) {
        var i :| 0 <= i < |entries[1..]| && IsNumeric(num, entries[1..][i].1) && k == prefix + entries[1..][i].0;
        assert entries[i + 1] == entries[1..][i];
      }
      forall k | Written(num, prefix, entries, k) ensures k in m1 || Written(num, prefix, entries[1..], k) {
        var i :| 0 <= i < |entries| && IsNumeric(num, entries[i].1) && k == prefix + entries[i].0;
        if i > 0 {
          assert entries[1..][i - 1] == entries[i];
        }
      }
    }
  }

  /** Keys the helper does not write keep their old values. */
  lemma {:induction false} FlattenIntoKeeps(num: NumberSupport, metrics: Metrics, prefix: string, entries: seq<Member>, k: string)
    requires k in metrics && !Written(num, prefix, entries, k)
    ensures k in FlattenInto(num, metrics, prefix, entries)
    ensures FlattenInto(num, metrics, prefix, entries)[k] == metrics[k]
    decreases |entries|
  {
    if entries != [] {
      assert !(IsNumeric(num, entries[0].1) && k == prefix + entries[0].0);
      var m1 := AddIfNumeric(num, metrics, prefix, entries[0]);
      forall i | 0 <= i < |entries[1..]|
        ensures !(IsNumeric(num, entries[1..][i].1) && k == prefix + entries[1..][i].0)
      {
        assert entries[1..][i] == entries[i + 1];
      }
      FlattenIntoKeeps(num, m1, prefix, entries[1..], k);
    }
  }

  lemma PrefixCancel(prefix: string, a: string, b: string)
    requires prefix + a == prefix + b
    ensures a == b
  {
    assert a == (prefix + a)[|prefix|..];
    assert b == (prefix + b)[|prefix|..];
  }

  /** Every numeric direct member is stored under `prefix + name` with its
      own value. */
  lemma {:induction false} FlattenIntoValues(num: NumberSupport, metrics: Metrics, prefix: string, entries: seq<Member>, i: int)
    requires DistinctKeys(entries)
    requires 0 <= i < |entries| && IsNumeric(num, entries[i].1)
    ensures prefix + entries[i].0 in FlattenInto(num, metrics, prefix, entries)
    ensures FlattenInto(num, metrics, prefix, entries)[prefix + entries[i].0] == ValueOf(num, entries[i].1)
    decreases |entries|
  {
    var m1 := AddIfNumeric(num, metrics, prefix, entries[0]);
    var rest := entries[1..];
    if i == 0 {
      var k := prefix + entries[0].0;
      if Written(num, prefix, rest, k) {
        var j :| 0 <= j < |rest| && IsNumeric(num, rest[j].1) && k == prefix + rest[j].0;
        assert rest[j] == entries[j + 1];
        PrefixCancel(prefix, entries[0].0, rest[j].0);
        assert false;
      }
      FlattenIntoKeeps(num, m1, prefix, rest, k);
    } else {
      assert rest[i - 1] == entries[i];
      assert DistinctKeys(rest) by {
        forall a, b | 0 <= a < b < |rest| ensures rest[a].0 != rest[b].0 {
          assert rest[a] == entries[a + 1] && rest[b] == entries[b + 1];
        }
      }
      FlattenIntoValues(num, m1, prefix, rest, i - 1);
    }
  }

  // ---------------------------------------------------------------------
  // getRootMetrics

  /** `getRootMetrics(obj, key)`: the numeric direct members of `obj[key]`,
      with no prefix. */
  function RootMetrics(num: NumberSupport, obj: seq<Member>, key: string): (r: Result<Metrics>)
    ensures Get(obj, key).None? ==> r == Failure(NullPointer)
    ensures r.Success? <==> Get(obj, key).Some? && Get(obj, key).value.JObj?
  {
    var root :- GetAsJsonObject(obj, key);
    Success(FlattenInto(num, map[], "", root))
  }

  method GetRootMetrics(num: NumberSupport, obj: seq<Member>, key: string) returns (r: Result<Metrics>)
    ensures r == RootMetrics(num, obj, key)
  {
    var rootJson := GetAsJsonObject(obj, key);
    if rootJson.Failure? {
      return Failure(rootJson.error);
    }
    var metrics := PopulateMetricsMapHelper(num, rootJson.value, map[], "");
    return Success(metrics);
  }

  /** On a present object, `getRootMetrics` yields exactly its numeric direct
      members, each under its own name and with its own value. */
  lemma RootMetricsExact(num: NumberSupport, obj: seq<Member>, key: string, root: seq<Member>)
    requires Get(obj, key) == Some(JObj(root))
    requires DistinctKeys(root)
    ensures RootMetrics(num, obj, key).Success?
    ensures forall k :: k in RootMetrics(num, obj, key).value <==> Written(num, "", root, k)
    ensures forall i :: 0 <= i < |root| && IsNumeric(num, root[i].1) ==>
              root[i].0 in RootMetrics(num, obj, key).value &&
              RootMetrics(num, obj, key).value[root[i].0] == ValueOf(num, root[i].1)
  {
    FlattenIntoKeys(num, map[], "", root);
    forall i | 0 <= i < |root| && IsNumeric(num, root[i].1)
      ensures root[i].0 in RootMetrics(num, obj, key).value
      ensures RootMetrics(num, obj, key).value[root[i].0] == ValueOf(num, root[i].1)
    {
      FlattenIntoValues(num, map[], "", root, i);
      assert "" + root[i].0 == root[i].0;
    }
  }

  // ---------------------------------------------------------------------
  // getArrayMetricsByID

  /** The member the inner loop of `getArrayMetricsByID` stops at: named
      `"id"`, a primitive, and with string form equal to the target. */
  predicate IsIdEntry(entry: Member, id: string) {
    entry.0 == "id" && IsPrimitive(entry.1) && PrimitiveString(entry.1) == id
  }

  predicate HasId(entries: seq<Member>, id: string) {
    exists j :: 0 <= j < |entries| && IsIdEntry(entries[j], id)
  }

  /** The outer loop of `getArrayMetricsByID` over the elements not yet
      visited: the first element carrying the id is flattened and the scan
      stops; a non-object element met before that throws. */
  function SelectById(num: NumberSupport, elems: seq<Json>, id: string): Result<Metrics>
    decreases |elems|
  {
    if elems == [] then Success(map[])
    else
      var o :- AsJsonObject(elems[0]);
      if HasId(o, id) then Success(FlattenInto(num, map[], "", o))
      else SelectById(num, elems[1..], id)
  }

  function ArrayMetricsById(num: NumberSupport, obj: seq<Member>, key: string, id: string): (r: Result<Metrics>)
    ensures Get(obj, key).None? ==> r == Failure(NullPointer)
  {
    var arr :- GetAsJsonArray(obj, key);
    SelectById(num, arr, id)
  }

  method GetArrayMetricsById(num: NumberSupport, obj: seq<Member>, key: string, id: string)
    returns (r: Result<Metrics>)
    ensures r == ArrayMetricsById(num, obj, key, id)
  {
    var arrayJson := GetAsJsonArray(obj, key);
    if arrayJson.Failure? {
      return Failure(arrayJson.error);
    }
    var elems := arrayJson.value;
    var metrics: Metrics := map[];
    var i := 0;
    var allFound := false;
    while i < |elems| && !allFound
      invariant 0 <= i <= |elems|
      invariant !allFound ==> metrics == map[] && SelectById(num, elems[i..], id) == SelectById(num, elems, id)
      invariant allFound ==> SelectById(num, elems, id) == Success(metrics)
    {
      assert elems[i..][1..] == elems[i + 1..];
      var elementJson := AsJsonObject(elems[i]);
      if elementJson.Failure? {
        return Failure(elementJson.error);
      }
      var oJson := elementJson.value;
      i := i + 1;
      var j := 0;
      while j < |oJson|
        invariant 0 <= j <= |oJson|
        invariant !allFound ==> metrics == map[] && forall k :: 0 <= k < j ==> !IsIdEntry(oJson[k], id)
        invariant allFound ==> j == |oJson| && HasId(oJson, id) && metrics == FlattenInto(num, map[], "", oJson)
      {
        var (metricName, value) := oJson[j];
        if metricName == "id" && IsPrimitive(value) && PrimitiveString(value) == id {
          assert IsIdEntry(oJson[j], id);
          // a fresh iterator over the same members, consumed by the helper
          metrics := PopulateMetricsMapHelper(num, oJson, metrics, "");
          allFound := true;
          j := |oJson|;
        } else {
          j := j + 1;
        }
      }
    }
    return Success(metrics);
  }

  /** The first element carrying the id is the one flattened, whatever comes
      after it. */
  lemma {:induction false} SelectByIdFirstMatch(num: NumberSupport, elems: seq<Json>, id: string, k: int)
    requires 0 <= k < |elems| && elems[k].JObj? && HasId(elems[k].members, id)
    requires forall i :: 0 <= i < k ==> elems[i].JObj? && !HasId(elems[i].members, id)
    ensures SelectById(num, elems, id) == Success(FlattenInto(num, map[], "", elems[k].members))
    decreases k
  {
    if k > 0 {
      forall i | 0 <= i < k - 1 ensures elems[1..][i].JObj? && !HasId(elems[1..][i].members, id) {
        assert elems[1..][i] == elems[i + 1];
      }
      SelectByIdFirstMatch(num, elems[1..], id, k - 1);
    }
  }

  /** Elements after the first match are never examined. */
  lemma SelectByIdIgnoresRest(num: NumberSupport, elems: seq<Json>, rest: seq<Json>, id: string, k: int)
    requires 0 <= k < |elems| && elems[k].JObj? && HasId(elems[k].members, id)
    requires forall i :: 0 <= i < k ==> elems[i].JObj? && !HasId(elems[i].members, id)
    ensures SelectById(num, elems[..k + 1] + rest, id) == SelectById(num, elems, id)
  {
    var e := elems[..k + 1] + rest;
    assert forall i :: 0 <= i <= k ==> e[i] == elems[i];
    SelectByIdFirstMatch(num, e, id, k);
    SelectByIdFirstMatch(num, elems, id, k);
  }

  /** No element carrying the id: an empty map, not a failure. */
  lemma {:induction false} SelectByIdNoMatch(num: NumberSupport, elems: seq<Json>, id: string)
    requires forall i :: 0 <= i < |elems| ==> elems[i].JObj? && !HasId(elems[i].members, id)
    ensures SelectById(num, elems, id) == Success(map[])
    decreases |elems|
  {
    if elems != [] {
      assert forall i :: 0 <= i < |elems| - 1 ==> elems[1..][i] == elems[i + 1];
      SelectByIdNoMatch(num, elems[1..], id);
    }
  }

  /** A non-object element reached before any match throws. */
  lemma {:induction false} SelectByIdNonObject(num: NumberSupport, elems: seq<Json>, id: string, k: int)
    requires 0 <= k < |elems| && !elems[k].JObj?
    requires forall i :: 0 <= i < k ==> elems[i].JObj? && !HasId(elems[i].members, id)
    ensures SelectById(num, elems, id) == Failure(IllegalState)
    decreases k
  {
    if k > 0 {
      forall i | 0 <= i < k - 1 ensures elems[1..][i].JObj? && !HasId(elems[1..][i].members, id) {
        assert elems[1..][i] == elems[i + 1];
      }
      SelectByIdNonObject(num, elems[1..], id, k - 1);
    }
  }

  // ---------------------------------------------------------------------
  // getArrayMetrics

  /** The inner loop of `getArrayMetrics` over one element's members: each
      member up to and including the first primitive one named `field` is
      converted with `getAsString` (which may throw); the result is that
      member's string form, or `None` when no such member exists. */
  function FindPrefixField(entries: seq<Member>, field: string): Result<Option<string>>
    decreases |entries|
  {
    if entries == [] then Success(None)
    else
      var value :- GetAsString(entries[0].1);
      if entries[0].0 == field && IsPrimitive(entries[0].1) then Success(Some(value))
      else FindPrefixField(entries[1..], field)
  }

  /** One pass of the outer loop of `getArrayMetrics`. */
  function AddElement(num: NumberSupport, metrics: Metrics, element: Json, field: string): Result<Metrics> {
    var o :- AsJsonObject(element);
    var found :- FindPrefixField(o, field);
    match found
    case None => Success(metrics)
    case Some(v) => Success(FlattenInto(num, metrics, v + MetricSeparator, o))
  }

  /** The outer loop of `getArrayMetrics` over the elements not yet visited. */
  function AddElements(num: NumberSupport, metrics: Metrics, elems: seq<Json>, field: string): Result<Metrics>
    decreases |elems|
  {
    if elems == [] then Success(metrics)
    else
      var next :- AddElement(num, metrics, elems[0], field);
      AddElements(num, next, elems[1..], field)
  }

  function ArrayMetrics(num: NumberSupport, obj: seq<Member>, key: string, field: string): (r: Result<Metrics>)
    ensures Get(obj, key).None? ==> r == Failure(NullPointer)
  {
    var arr :- GetAsJsonArray(obj, key);
    AddElements(num, map[], arr, field)
  }

  method GetArrayMetrics(num: NumberSupport, obj: seq<Member>, key: string, field: string)
    returns (r: Result<Metrics>)
    ensures r == ArrayMetrics(num, obj, key, field)
  {
    var arrayJson := GetAsJsonArray(obj, key);
    if arrayJson.Failure? {
      return Failure(arrayJson.error);
    }
    var elems := arrayJson.value;
    var metrics: Metrics := map[];
    var i := 0;
    while i < |elems|
      invariant 0 <= i <= |elems|
      invariant AddElements(num, metrics, elems[i..], field) == AddElements(num, map[], elems, field)
    {
      assert elems[i..][1..] == elems[i + 1..];
      var elementJson := AsJsonObject(elems[i]);
      if elementJson.Failure? {
        return Failure(elementJson.error);
      }
      var oJson := elementJson.value;
      ghost var before := metrics;
      ghost var populated := false;
      var j := 0;
      while j < |oJson|
        invariant 0 <= j <= |oJson|
        invariant !populated ==> metrics == before && FindPrefixField(oJson[j..], field) == FindPrefixField(oJson, field)
        invariant populated ==> j == |oJson| && AddElement(num, before, elems[i], field) == Success(metrics)
      {
        assert oJson[j..][0] == oJson[j] && oJson[j..][1..] == oJson[j + 1..];
        var (metricName, jsonValue) := oJson[j];
        var value := GetAsString(jsonValue);
        if value.Failure? {
          return Failure(value.error);
        }
        j := j + 1;
        if metricName == field && IsPrimitive(jsonValue) {
          // a fresh iterator over the same members, consumed by the helper
          metrics := PopulateMetricsMapHelper(num, oJson, metrics, value.value + MetricSeparator);
          populated := true;
          j := |oJson|;
        }
      }
      i := i + 1;
    }
    return Success(metrics);
  }

  /** The prefix comes from the first primitive member named `field`, when
      every member before it converts to a string. */
  lemma {:induction false} FindPrefixFieldFound(entries: seq<Member>, field: string, k: int)
    requires 0 <= k < |entries| && entries[k].0 == field && IsPrimitive(entries[k].1)
    requires forall i :: 0 <= i < k ==> GetAsString(entries[i].1).Success? && !(entries[i].0 == field && IsPrimitive(entries[i].1))
    ensures FindPrefixField(entries, field) == Success(Some(PrimitiveString(entries[k].1)))
    decreases k
  {
    if k > 0 {
      forall i | 0 <= i < k - 1
        ensures GetAsString(entries[1..][i].1).Success? && !(entries[1..][i].0 == field && IsPrimitive(entries[1..][i].1))
      {
        assert entries[1..][i] == entries[i + 1];
      }
      FindPrefixFieldFound(entries[1..], field, k - 1);
    }
  }

  /** A member whose `getAsString` throws, met before the prefix field,
      makes the inner loop throw (`AddElementsMemberThrows` carries this to
      the whole call). */
  lemma {:induction false} FindPrefixFieldThrows(entries: seq<Member>, field: string, k: int)
    requires 0 <= k < |entries| && GetAsString(entries[k].1).Failure?
    requires forall i :: 0 <= i < k ==> GetAsString(entries[i].1).Success? && !(entries[i].0 == field && IsPrimitive(entries[i].1))
    ensures FindPrefixField(entries, field) == Failure(GetAsString(entries[k].1).error)
    decreases k
  {
    if k > 0 {
      forall i | 0 <= i < k - 1
        ensures GetAsString(entries[1..][i].1).Success? && !(entries[1..][i].0 == field && IsPrimitive(entries[1..][i].1))
      {
        assert entries[1..][i] == entries[i + 1];
      }
      FindPrefixFieldThrows(entries[1..], field, k - 1);
    }
  }

  /** An element without a primitive `field` member contributes nothing. */
  lemma {:induction false} FindPrefixFieldAbsent(entries: seq<Member>, field: string)
    requires forall i :: 0 <= i < |entries| ==> GetAsString(entries[i].1).Success? && !(entries[i].0 == field && IsPrimitive(entries[i].1))
    ensures FindPrefixField(entries, field) == Success(None)
    decreases |entries|
  {
    if entries != [] {
      assert forall i :: 0 <= i < |entries| - 1 ==> entries[1..][i] == entries[i + 1];
      FindPrefixFieldAbsent(entries[1..], field);
    }
  }

  lemma AddElementWithoutField(num: NumberSupport, metrics: Metrics, element: Json, field: string)
    requires element.JObj?
    requires forall i :: 0 <= i < |element.members| ==>
               GetAsString(element.members[i].1).Success? &&
               !(element.members[i].0 == field && IsPrimitive(element.members[i].1))
    ensures AddElement(num, metrics, element, field) == Success(metrics)
  {
    FindPrefixFieldAbsent(element.members, field);
  }

  /** Appending an element runs one more pass on the map built so far. */
  lemma {:induction false} AddElementsAppend(num: NumberSupport, metrics: Metrics, elems: seq<Json>, e: Json, field: string)
    ensures AddElements(num, metrics, elems + [e], field) ==
            match AddElements(num, metrics, elems, field)
            case Success(m) => AddElement(num, m, e, field)
            case Failure(x) => Failure(x)
    decreases |elems|
  {
    if elems == [] {
      assert [e][1..] == [];
    } else {
      assert (elems + [e])[1..] == elems[1..] + [e];
      var next := AddElement(num, metrics, elems[0], field);
      if next.Success? {
        AddElementsAppend(num, next.value, elems[1..], e, field);
      }
    }
  }

  /** When names collide, the later element's value wins: every numeric
      member of the last element is stored under its prefix with its own
      value, whatever earlier elements wrote. */
  lemma AddElementsLastWins(num: NumberSupport, elems: seq<Json>, e: Json, field: string, v: string, i: int)
    requires e.JObj? && DistinctKeys(e.members)
    requires FindPrefixField(e.members, field) == Success(Some(v))
    requires AddElements(num, map[], elems, field).Success?
    requires 0 <= i < |e.members| && IsNumeric(num, e.members[i].1)
    ensures AddElements(num, map[], elems + [e], field).Success?
    ensures v + MetricSeparator + e.members[i].0 in AddElements(num, map[], elems + [e], field).value
    ensures AddElements(num, map[], elems + [e], field).value[v + MetricSeparator + e.members[i].0] == ValueOf(num, e.members[i].1)
  {
    AddElementsAppend(num, map[], elems, e, field);
    var m := AddElements(num, map[], elems, field).value;
    FlattenIntoValues(num, m, v + MetricSeparator, e.members, i);
  }

  /** `k` is a name the outer loop of `getArrayMetrics` writes for element
      `e`: a numeric direct member of it, under the element's prefix. */
  predicate ElementWrites(num: NumberSupport, e: Json, field: string, k: string) {
    e.JObj? &&
    var found := FindPrefixField(e.members, field);
    found.Success? && found.value.Some? && Written(num, found.value.value + MetricSeparator, e.members, k)
  }

  /** One pass of the outer loop adds exactly the names the element writes. */
  lemma AddElementKeys(num: NumberSupport, metrics: Metrics, e: Json, field: string)
    ensures AddElement(num, metrics, e, field).Success? ==>
              forall k :: k in AddElement(num, metrics, e, field).value <==> k in metrics || ElementWrites(num, e, field, k)
  {
    if AddElement(num, metrics, e, field).Success? {
      var found := FindPrefixField(e.members, field);
      if found.value.Some? {
        FlattenIntoKeys(num, metrics, found.value.value + MetricSeparator, e.members);
      }
    }
  }

  /** On success, the names are exactly the old ones plus those some element
      writes under its prefix: nothing is filed without a prefix. */
  lemma {:induction false} AddElementsKeys(num: NumberSupport, metrics: Metrics, elems: seq<Json>, field: string)
    ensures AddElements(num, metrics, elems, field).Success? ==>
              forall k :: k in AddElements(num, metrics, elems, field).value <==>
                k in metrics || exists i :: 0 <= i < |elems| && ElementWrites(num, elems[i], field, k)
    decreases |elems|
  {
    if elems != [] && AddElements(num, metrics, elems, field).Success? {
      var next := AddElement(num, metrics, elems[0], field).value;
      var rest := elems[1..];
      AddElementKeys(num, metrics, elems[0], field);
      AddElementsKeys(num, next, rest, field);
      forall k | exists i :: 0 <= i < |elems| && ElementWrites(num, elems[i], field, k)
        ensures ElementWrites(num, elems[0], field, k) || exists i :: 0 <= i < |rest| && ElementWrites(num, rest[i], field, k)
      {
        var i :| 0 <= i < |elems| && ElementWrites(num, elems[i], field, k);
        if i > 0 {
          assert rest[i - 1] == elems[i];
        }
      }
      forall i, k | 0 <= i < |rest| && ElementWrites(num, rest[i], field, k)
        ensures ElementWrites(num, elems[i + 1], field, k)
      {
        assert elems[i + 1] == rest[i];
      }
    }
  }

  /** A name no element writes keeps its previous value. */
  lemma {:induction false} AddElementsKeeps(num: NumberSupport, metrics: Metrics, elems: seq<Json>, field: string, k: string)
    requires k in metrics
    requires forall i :: 0 <= i < |elems| ==> !ElementWrites(num, elems[i], field, k)
    ensures AddElements(num, metrics, elems, field).Success? ==>
              k in AddElements(num, metrics, elems, field).value &&
              AddElements(num, metrics, elems, field).value[k] == metrics[k]
    decreases |elems|
  {
    if elems != [] && AddElements(num, metrics, elems, field).Success? {
      var next := AddElement(num, metrics, elems[0], field).value;
      var found := FindPrefixField(elems[0].members, field);
      assert !ElementWrites(num, elems[0], field, k);
      if found.value.Some? {
        FlattenIntoKeeps(num, metrics, found.value.value + MetricSeparator, elems[0].members, k);
      }
      forall i | 0 <= i < |elems[1..]| ensures !ElementWrites(num, elems[1..][i], field, k) {
        assert elems[1..][i] == elems[i + 1];
      }
      AddElementsKeeps(num, next, elems[1..], field, k);
    }
  }

  /** The value rule: a numeric member of element `i` is in the result under
      its element's prefix with its own value, unless a later element writes
      the same name; so the value under a name is the last writer's. */
  lemma {:induction false} AddElementsValues(num: NumberSupport, metrics: Metrics, elems: seq<Json>, field: string, i: int, v: string, j: int)
    requires 0 <= i < |elems| && elems[i].JObj? && DistinctKeys(elems[i].members)
    requires FindPrefixField(elems[i].members, field) == Success(Some(v))
    requires 0 <= j < |elems[i].members| && IsNumeric(num, elems[i].members[j].1)
    requires forall l :: i < l < |elems| ==> !ElementWrites(num, elems[l], field, v + MetricSeparator + elems[i].members[j].0)
    ensures AddElements(num, metrics, elems, field).Success? ==>
              v + MetricSeparator + elems[i].members[j].0 in AddElements(num, metrics, elems, field).value &&
              AddElements(num, metrics, elems, field).value[v + MetricSeparator + elems[i].members[j].0] == ValueOf(num, elems[i].members[j].1)
    decreases i
  {
    if AddElements(num, metrics, elems, field).Success? {
      var next := AddElement(num, metrics, elems[0], field).value;
      var rest := elems[1..];
      var k := v + MetricSeparator + elems[i].members[j].0;
      if i == 0 {
        FlattenIntoValues(num, metrics, v + MetricSeparator, elems[0].members, j);
        forall l | 0 <= l < |rest| ensures !ElementWrites(num, rest[l], field, k) {
          assert rest[l] == elems[l + 1];
        }
        AddElementsKeeps(num, next, rest, field, k);
      } else {
        assert rest[i - 1] == elems[i];
        forall l | i - 1 < l < |rest| ensures !ElementWrites(num, rest[l], field, k) {
          assert rest[l] == elems[l + 1];
        }
        AddElementsValues(num, next, rest, field, i - 1, v, j);
      }
    }
  }

  /** The first element whose pass throws ends the outer loop with that
      exception, whatever follows it. */
  lemma {:induction false} AddElementsFailsAt(num: NumberSupport, metrics: Metrics, elems: seq<Json>, field: string, k: int)
    requires 0 <= k < |elems|
    requires AddElements(num, metrics, elems[..k], field).Success?
    requires AddElement(num, AddElements(num, metrics, elems[..k], field).value, elems[k], field).Failure?
    ensures AddElements(num, metrics, elems, field) ==
            Failure(AddElement(num, AddElements(num, metrics, elems[..k], field).value, elems[k], field).error)
    decreases k
  {
    if k > 0 {
      var next := AddElement(num, metrics, elems[0], field);
      assert elems[..k][0] == elems[0] && elems[..k][1..] == elems[1..][..k - 1];
      assert elems[1..][k - 1] == elems[k];
      AddElementsFailsAt(num, next.value, elems[1..], field, k - 1);
    }
  }

  /** A non-object element reached by the outer loop throws `IllegalStateException`. */
  lemma AddElementsNonObject(num: NumberSupport, metrics: Metrics, elems: seq<Json>, field: string, k: int)
    requires 0 <= k < |elems| && !elems[k].JObj?
    requires AddElements(num, metrics, elems[..k], field).Success?
    ensures AddElements(num, metrics, elems, field) == Failure(IllegalState)
  {
    AddElementsFailsAt(num, metrics, elems, field, k);
  }

  /** A member of a reached element whose `getAsString` throws before the
      naming field is found ends the whole call with that exception. */
  lemma AddElementsMemberThrows(num: NumberSupport, metrics: Metrics, elems: seq<Json>, field: string, k: int, j: int)
    requires 0 <= k < |elems| && elems[k].JObj?
    requires AddElements(num, metrics, elems[..k], field).Success?
    requires 0 <= j < |elems[k].members| && GetAsString(elems[k].members[j].1).Failure?
    requires forall i :: 0 <= i < j ==>
               GetAsString(elems[k].members[i].1).Success? &&
               !(elems[k].members[i].0 == field && IsPrimitive(elems[k].members[i].1))
    ensures AddElements(num, metrics, elems, field) == Failure(GetAsString(elems[k].members[j].1).error)
  {
    FindPrefixFieldThrows(elems[k].members, field, j);
    AddElementsFailsAt(num, metrics, elems, field, k);
  }

  /** `getArrayMetrics` on a present array files exactly the names its
      elements write, each under the element's prefix. */
  lemma ArrayMetricsKeys(num: NumberSupport, obj: seq<Member>, key: string, field: string, arr: seq<Json>)
    requires Get(obj, key) == Some(JArr(arr))
    ensures ArrayMetrics(num, obj, key, field).Success? ==>
              forall k :: k in ArrayMetrics(num, obj, key, field).value <==>
                exists i :: 0 <= i < |arr| && ElementWrites(num, arr[i], field, k)
  {
    AddElementsKeys(num, map[], arr, field);
  }

  // ---------------------------------------------------------------------
  // populateMap

  /** The names of `metrics` under `category` and the separator. */
  function QualifiedNames(category: string, names: set<string>): set<string> {
    set n | n in names :: category + MetricSeparator + n
  }

  /** `metrics` re-keyed as `category|name`. */
  function Qualified(category: string, metrics: Metrics): Metrics {
    map k | k in QualifiedNames(category, metrics.Keys) :: metrics[k[|category| + 1..]]
  }

  /** Every name of `metrics` reappears under the category with its value,
      and the re-keyed map has no other names. */
  lemma QualifiedExact(category: string, metrics: Metrics)
    ensures forall n :: n in metrics ==>
              category + MetricSeparator + n in Qualified(category, metrics) &&
              Qualified(category, metrics)[category + MetricSeparator + n] == metrics[n]
    ensures forall k :: k in Qualified(category, metrics) ==>
              StartsWith(k, category + MetricSeparator) && k[|category| + 1..] in metrics
  {
    forall n | n in metrics
      ensures (category + MetricSeparator + n)[|category| + 1..] == n
    {
    }
    forall k | k in Qualified(category, metrics)
      ensures StartsWith(k, category + MetricSeparator)
    {
      var n :| n in metrics.Keys && k == category + MetricSeparator + n;
      assert k[..|category| + 1] == category + MetricSeparator;
    }
  }

  lemma QualifiedUpdate(category: string, metrics: Metrics, n: string, v: Double)
    ensures Qualified(category, metrics[n := v]) == Qualified(category, metrics)[category + MetricSeparator + n := v]
  {
    QualifiedExact(category, metrics);
    QualifiedExact(category, metrics[n := v]);
    var a := Qualified(category, metrics[n := v]);
    var b := Qualified(category, metrics)[category + MetricSeparator + n := v];
    forall k | k in a ensures k in b && a[k] == b[k] {
      if k != category + MetricSeparator + n {
        var m :| m in metrics[n := v].Keys && k == category + MetricSeparator + m;
        assert m != n;
        assert k[|category| + 1..] == m;
      }
    }
    forall k | k in b ensures k in a {
      if k != category + MetricSeparator + n {
        assert k[|category| + 1..] in metrics;
      }
    }
  }

  /** Writing one more pending name extends the re-keyed part by that name. */
  lemma PopulateMapStep(category: string, metrics: Metrics, acc: Metrics, pending: set<string>, name: string)
    requires name in pending && pending <= metrics.Keys
    ensures (acc + Qualified(category, metrics - pending))[category + MetricSeparator + name := metrics[name]] ==
            acc + Qualified(category, metrics - (pending - {name}))
  {
    var done := metrics - pending;
    assert metrics - (pending - {name}) == done[name := metrics[name]];
    QualifiedUpdate(category, done, name, metrics[name]);
  }

  method PopulateMap(category: string, metrics: Metrics, ampsMetrics: Metrics) returns (r: Metrics)
    ensures r == ampsMetrics + Qualified(category, metrics)
  {
    r := ampsMetrics;
    var pending := metrics.Keys;
    assert metrics - pending == map[];
    while pending != {}
      invariant pending <= metrics.Keys
      invariant r == ampsMetrics + Qualified(category, metrics - pending)
      decreases pending
    {
      var name :| name in pending;
      PopulateMapStep(category, metrics, ampsMetrics, pending, name);
      r := r[category + MetricSeparator + name := metrics[name]];
      pending := pending - {name};
    }
    assert metrics - pending == metrics;
  }

  /** `populateMap` writes `category|k` for every `k` of `metrics`, with
      its value, and leaves every other key of the accumulator as it was. */
  lemma PopulateMapExact(category: string, metrics: Metrics, acc: Metrics)
    ensures forall n :: n in metrics ==>
              (acc + Qualified(category, metrics))[category + MetricSeparator + n] == metrics[n]
    ensures forall k :: k in acc + Qualified(category, metrics) <==>
              k in acc || (StartsWith(k, category + MetricSeparator) && k[|category| + 1..] in metrics)
    ensures forall k :: k in acc && !(StartsWith(k, category + MetricSeparator) && k[|category| + 1..] in metrics) ==>
              (acc + Qualified(category, metrics))[k] == acc[k]
  {
    QualifiedExact(category, metrics);
    forall k | StartsWith(k, category + MetricSeparator) && k[|category| + 1..] in metrics
      ensures k in Qualified(category, metrics)
    {
      assert k == (category + MetricSeparator) + k[|category| + 1..];
    }
  }

  // ---------------------------------------------------------------------
  // getHostMetrics, getInstanceMetrics, gatherAMPSMetrics

  function HostMetrics(num: NumberSupport, amps: seq<Member>, acc: Metrics): Result<Metrics> {
    var host :- GetAsJsonObject(amps, HostKey);
    var cpus :- ArrayMetricsById(num, host, CpuKey, AllKey);
    var acc1 := acc + Qualified(HostKey + MetricSeparator + CpuKey, cpus);
    var memory :- RootMetrics(num, host, MemoryKey);
    var acc2 := acc1 + Qualified(HostKey + MetricSeparator + MemoryKey, memory);
    var network :- ArrayMetrics(num, host, NetworkKey, "id");
    Success(acc2 + Qualified(HostKey + MetricSeparator + NetworkKey, network))
  }

  method GetHostMetrics(num: NumberSupport, amps: seq<Member>, ampsMetrics: Metrics) returns (r: Result<Metrics>)
    ensures r == HostMetrics(num, amps, ampsMetrics)
  {
    var hostJson :- GetAsJsonObject(amps, HostKey);
    var acc := ampsMetrics;
    var metrics :- GetArrayMetricsById(num, hostJson, CpuKey, AllKey);
    acc := PopulateMap(HostKey + MetricSeparator + CpuKey, metrics, acc);
    metrics :- GetRootMetrics(num, hostJson, MemoryKey);
    acc := PopulateMap(HostKey + MetricSeparator + MemoryKey, metrics, acc);
    metrics :- GetArrayMetrics(num, hostJson, NetworkKey, "id");
    acc := PopulateMap(HostKey + MetricSeparator + NetworkKey, metrics, acc);
    return Success(acc);
  }

  function InstanceMetrics(num: NumberSupport, amps: seq<Member>, acc: Metrics): Result<Metrics> {
    var instance :- GetAsJsonObject(amps, InstanceKey);
    var cpu :- RootMetrics(num, instance, CpuiKey);
    var acc1 := acc + Qualified(InstanceKey + MetricSeparator + CpuiKey, cpu);
    var memory :- GetAsJsonObject(instance, MemoryKey);
    var caches :- GetAsJsonObject(memory, CacheKey);
    var cacheMetrics :- ArrayMetrics(num, caches, CacheKey, "description");
    var acc2 := acc1 + Qualified(InstanceKey + MetricSeparator + CacheKey, cacheMetrics);
    var queries :- RootMetrics(num, instance, QueryKey);
    var acc3 := acc2 + Qualified(InstanceKey + MetricSeparator + QueryKey, queries);
    var processors :- ArrayMetricsById(num, instance, ProcessorKey, AllKey);
    Success(acc3 + Qualified(InstanceKey + MetricSeparator + ProcessorKey, processors))
  }

  method GetInstanceMetrics(num: NumberSupport, amps: seq<Member>, ampsMetrics: Metrics) returns (r: Result<Metrics>)
    ensures r == InstanceMetrics(num, amps, ampsMetrics)
  {
    var instanceJson :- GetAsJsonObject(amps, InstanceKey);
    var acc := ampsMetrics;
    var metrics :- GetRootMetrics(num, instanceJson, CpuiKey);
    acc := PopulateMap(InstanceKey + MetricSeparator + CpuiKey, metrics, acc);
    var memoryJson :- GetAsJsonObject(instanceJson, MemoryKey);
    var cacheJson :- GetAsJsonObject(memoryJson, CacheKey);
    metrics :- GetArrayMetrics(num, cacheJson, CacheKey, "description");
    acc := PopulateMap(InstanceKey + MetricSeparator + CacheKey, metrics, acc);
    metrics :- GetRootMetrics(num, instanceJson, QueryKey);
    acc := PopulateMap(InstanceKey + MetricSeparator + QueryKey, metrics, acc);
    metrics :- GetArrayMetricsById(num, instanceJson, ProcessorKey, AllKey);
    acc := PopulateMap(InstanceKey + MetricSeparator + ProcessorKey, metrics, acc);
    return Success(acc);
  }

  /** `gatherAMPSMetrics` on the already-parsed response (`None` when the
      body did not parse): no object, no metrics; otherwise the host groups
      and then the instance groups of the `amps` root. */
  function AmpsMetrics(num: NumberSupport, response: Option<Json>): Result<Metrics> {
    if response.None? || !response.value.JObj? then Success(map[])
    else
      var amps :- GetAsJsonObject(response.value.members, AmpsKey);
      var acc :- HostMetrics(num, amps, map[]);
      InstanceMetrics(num, amps, acc)
  }

  method GatherAmpsMetrics(num: NumberSupport, response: Option<Json>) returns (r: Result<Metrics>)
    ensures r == AmpsMetrics(num, response)
  {
    var ampsMetrics: Metrics := map[];
    if response.Some? && response.value.JObj? {
      var ampsJson :- GetAsJsonObject(response.value.members, AmpsKey);
      ampsMetrics :- GetHostMetrics(num, ampsJson, ampsMetrics);
      ampsMetrics :- GetInstanceMetrics(num, ampsJson, ampsMetrics);
    }
    return Success(ampsMetrics);
  }

  /** A missing or non-object response is an empty result, not a failure. */
  lemma AmpsMetricsNoDocument(num: NumberSupport, response: Option<Json>)
    requires response.None? || !response.value.JObj?
    ensures AmpsMetrics(num, response) == Success(map[])
  {
  }

  /** An object response without the `amps` root throws. */
  lemma AmpsMetricsMissingRoot(num: NumberSupport, members: seq<Member>)
    requires Get(members, AmpsKey).None?
    ensures AmpsMetrics(num, Some(JObj(members))) == Failure(NullPointer)
  {
  }
}
