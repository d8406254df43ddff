/** The seven metric groups `gatherAMPSMetrics` extracts, written as a table
    (where each group lives under the `amps` root, how it is selected, and
    the category its names are filed under), and the proof that the
    extractor's result is exactly the disjoint union of the groups, or the
    exception of the first group that throws. */
module AmpsGroups {
  import opened JavaTypes
  import opened Gson
  import opened AmpsWrapper

  datatype Group =
    | HostCpus | HostMemory | HostNetwork
    | InstanceCpu | InstanceCaches | InstanceQueries | InstanceProcessors

  /** The groups in the order they are extracted: host first, then instance. */
  const Groups: seq<Group> :=
    [HostCpus, HostMemory, HostNetwork, InstanceCpu, InstanceCaches, InstanceQueries, InstanceProcessors]

  function Category(g: Group): string {
    match g
    case HostCpus => "host|cpus"
    case HostMemory => "host|memory"
    case HostNetwork => "host|network"
    case InstanceCpu => "instance|cpu"
    case InstanceCaches => "instance|caches"
    case InstanceQueries => "instance|queries"
    case InstanceProcessors => "instance|processors"
  }

  /** The group's own metrics, before they are filed under the category. */
  function GroupMetrics(num: NumberSupport, amps: seq<Member>, g: Group): Result<Metrics>
  {
    match g
    case HostCpus =>
      var host :- GetAsJsonObject(amps, HostKey);
      ArrayMetricsById(num, host, CpuKey, AllKey)
    case HostMemory =>
      var host :- GetAsJsonObject(amps, HostKey);
      RootMetrics(num, host, MemoryKey)
    case HostNetwork =>
      var host :- GetAsJsonObject(amps, HostKey);
      ArrayMetrics(num, host, NetworkKey, "id")
    case InstanceCpu =>
      var instance :- GetAsJsonObject(amps, InstanceKey);
      RootMetrics(num, instance, CpuiKey)
    case InstanceCaches =>
      var instance :- GetAsJsonObject(amps, InstanceKey);
      var memory :- GetAsJsonObject(instance, MemoryKey);
      var caches :- GetAsJsonObject(memory, CacheKey);
      ArrayMetrics(num, caches, CacheKey, "description")
    case InstanceQueries =>
      var instance :- GetAsJsonObject(amps, InstanceKey);
      RootMetrics(num, instance, QueryKey)
    case InstanceProcessors =>
      var instance :- GetAsJsonObject(amps, InstanceKey);
      ArrayMetricsById(num, instance, ProcessorKey, AllKey)
  }

  /** One row of the table: the category and what the group extracted. */
  datatype Row = Row(category: string, metrics: Result<Metrics>)

  /** The rows of `gs`, in order. */
  function Rows(num: NumberSupport, amps: seq<Member>, gs: seq<Group>): (r: seq<Row>)
    ensures |r| == |gs|
    ensures forall i :: 0 <= i < |gs| ==> r[i] == Row(Category(gs[i]), GroupMetrics(num, amps, gs[i]))
  {
    seq(|gs|, i requires 0 <= i < |gs| => Row(Category(gs[i]), GroupMetrics(num, amps, gs[i])))
  }

  /** The rows read in order, as the extractor reads them: each row's
      metrics are filed into `acc` under its category, and the first row
      that holds an exception ends the extraction with it. */
  function Extract(acc: Metrics, rows: seq<Row>): Result<Metrics>
    decreases |rows|
  {
    if rows == [] then Success(acc)
    else
      var m :- rows[0].metrics;
      Extract(acc + Qualified(rows[0].category, m), rows[1..])
  }

  /** `k` is one of the row's metrics filed under its category. */
  predicate Filed(row: Row, k: string) {
    row.metrics.Success? &&
    StartsWith(k, row.category + MetricSeparator) &&
    k[|row.category| + 1..] in row.metrics.value
  }

  /** No name can be filed under both categories. */
  ghost predicate Apart(c: string, d: string) {
    forall k :: !(StartsWith(k, c + MetricSeparator) && StartsWith(k, d + MetricSeparator))
  }

  lemma CategoryNames()
    ensures Category(HostCpus) == HostKey + MetricSeparator + CpuKey
    ensures Category(HostMemory) == HostKey + MetricSeparator + MemoryKey
    ensures Category(HostNetwork) == HostKey + MetricSeparator + NetworkKey
    ensures Category(InstanceCpu) == InstanceKey + MetricSeparator + CpuiKey
    ensures Category(InstanceCaches) == InstanceKey + MetricSeparator + CacheKey
    ensures Category(InstanceQueries) == InstanceKey + MetricSeparator + QueryKey
    ensures Category(InstanceProcessors) == InstanceKey + MetricSeparator + ProcessorKey
  {
  }

  lemma ExtractCons(acc: Metrics, r: Row, rest: seq<Row>)
    ensures r.metrics.Failure? ==> Extract(acc, [r] + rest) == Failure(r.metrics.error)
    ensures r.metrics.Success? ==> Extract(acc, [r] + rest) == Extract(acc + Qualified(r.category, r.metrics.value), rest)
  {
    assert ([r] + rest)[0] == r && ([r] + rest)[1..] == rest;
  }

  /** The host rows read straight off the `host` object. */
  lemma HostGroups(num: NumberSupport, amps: seq<Member>)
    ensures GetAsJsonObject(amps, HostKey).Failure? ==>
              var e := Failure(GetAsJsonObject(amps, HostKey).error);
              GroupMetrics(num, amps, HostCpus) == e && GroupMetrics(num, amps, HostMemory) == e &&
              GroupMetrics(num, amps, HostNetwork) == e
    ensures GetAsJsonObject(amps, HostKey).Success? ==>
              var host := GetAsJsonObject(amps, HostKey).value;
              GroupMetrics(num, amps, HostCpus) == ArrayMetricsById(num, host, CpuKey, AllKey) &&
              GroupMetrics(num, amps, HostMemory) == RootMetrics(num, host, MemoryKey) &&
              GroupMetrics(num, amps, HostNetwork) == ArrayMetrics(num, host, NetworkKey, "id")
  {
  }

  /** `getHostMetrics` is the three host rows of the table. */
  lemma HostMetricsByTable(num: NumberSupport, amps: seq<Member>, acc: Metrics)
    ensures HostMetrics(num, amps, acc) == Extract(acc, Rows(num, amps, Groups[..3]))
  {
    CategoryNames();
    HostGroups(num, amps);
    var r1, r2, r3 := Row(Category(HostCpus), GroupMetrics(num, amps, HostCpus)),
                      Row(Category(HostMemory), GroupMetrics(num, amps, HostMemory)),
                      Row(Category(HostNetwork), GroupMetrics(num, amps, HostNetwork));
    assert Rows(num, amps, Groups[..3]) == [r1] + ([r2] + ([r3] + []));
    ExtractCons(acc, r1, [r2] + ([r3] + []));
    if r1.metrics.Success? {
      var acc1 := acc + Qualified(r1.category, r1.metrics.value);
      ExtractCons(acc1, r2, [r3] + []);
      if r2.metrics.Success? {
        ExtractCons(acc1 + Qualified(r2.category, r2.metrics.value), r3, []);
      }
    }
  }

  lemma InstanceRows(num: NumberSupport, amps: seq<Member>)
    ensures Rows(num, amps, Groups[3..]) ==
            [Row(Category(InstanceCpu), GroupMetrics(num, amps, InstanceCpu))] +
            ([Row(Category(InstanceCaches), GroupMetrics(num, amps, InstanceCaches))] +
             ([Row(Category(InstanceQueries), GroupMetrics(num, amps, InstanceQueries))] +
              ([Row(Category(InstanceProcessors), GroupMetrics(num, amps, InstanceProcessors))] + [])))
  {
  }

  /** The instance rows read straight off the `instance` object. */
  lemma InstanceGroups(num: NumberSupport, amps: seq<Member>)
    ensures GetAsJsonObject(amps, InstanceKey).Failure? ==>
              var e := Failure(GetAsJsonObject(amps, InstanceKey).error);
              GroupMetrics(num, amps, InstanceCpu) == e && GroupMetrics(num, amps, InstanceCaches) == e &&
              GroupMetrics(num, amps, InstanceQueries) == e && GroupMetrics(num, amps, InstanceProcessors) == e
    ensures GetAsJsonObject(amps, InstanceKey).Success? ==>
              var instance := GetAsJsonObject(amps, InstanceKey).value;
              GroupMetrics(num, amps, InstanceCpu) == RootMetrics(num, instance, CpuiKey) &&
              GroupMetrics(num, amps, InstanceQueries) == RootMetrics(num, instance, QueryKey) &&
              GroupMetrics(num, amps, InstanceProcessors) == ArrayMetricsById(num, instance, ProcessorKey, AllKey) &&
              (GetAsJsonObject(instance, MemoryKey).Failure? ==>
                 GroupMetrics(num, amps, InstanceCaches) == Failure(GetAsJsonObject(instance, MemoryKey).error)) &&
              (GetAsJsonObject(instance, MemoryKey).Success? ==>
                 var memory := GetAsJsonObject(instance, MemoryKey).value;
                 (GetAsJsonObject(memory, CacheKey).Failure? ==>
                    GroupMetrics(num, amps, InstanceCaches) == Failure(GetAsJsonObject(memory, CacheKey).error)) &&
                 (GetAsJsonObject(memory, CacheKey).Success? ==>
                    GroupMetrics(num, amps, InstanceCaches) ==
                    ArrayMetrics(num, GetAsJsonObject(memory, CacheKey).value, CacheKey, "description")))
  {
  }

  /** `getInstanceMetrics` is the four instance rows of the table. */
  lemma InstanceMetricsByTable(num: NumberSupport, amps: seq<Member>, acc: Metrics)
    ensures InstanceMetrics(num, amps, acc) == Extract(acc, Rows(num, amps, Groups[3..]))
  {
    CategoryNames();
    InstanceRows(num, amps);
    InstanceGroups(num, amps);
    var r1, r2 := Row(Category(InstanceCpu), GroupMetrics(num, amps, InstanceCpu)),
                  Row(Category(InstanceCaches), GroupMetrics(num, amps, InstanceCaches));
    var r3, r4 := Row(Category(InstanceQueries), GroupMetrics(num, amps, InstanceQueries)),
                  Row(Category(InstanceProcessors), GroupMetrics(num, amps, InstanceProcessors));
    ExtractCons(acc, r1, [r2] + ([r3] + ([r4] + [])));
    if GetAsJsonObject(amps, InstanceKey).Success? && r1.metrics.Success? {
      InstanceMetricsCaches(num, amps, acc);
    }
  }

  /** The caches row, once cpu is filed. */
  lemma InstanceMetricsCaches(num: NumberSupport, amps: seq<Member>, acc: Metrics)
    requires GetAsJsonObject(amps, InstanceKey).Success?
    requires RootMetrics(num, GetAsJsonObject(amps, InstanceKey).value, CpuiKey).Success?
    ensures var instance := GetAsJsonObject(amps, InstanceKey).value;
            var acc1 := acc + Qualified(Category(InstanceCpu), RootMetrics(num, instance, CpuiKey).value);
            InstanceMetrics(num, amps, acc) ==
            Extract(acc1, [Row(Category(InstanceCaches), GroupMetrics(num, amps, InstanceCaches))] +
                          ([Row(Category(InstanceQueries), GroupMetrics(num, amps, InstanceQueries))] +
                           ([Row(Category(InstanceProcessors), GroupMetrics(num, amps, InstanceProcessors))] + [])))
  {
    CategoryNames();
    InstanceGroups(num, amps);
    var instance := GetAsJsonObject(amps, InstanceKey).value;
    var acc1 := acc + Qualified(Category(InstanceCpu), RootMetrics(num, instance, CpuiKey).value);
    var r2 := Row(Category(InstanceCaches), GroupMetrics(num, amps, InstanceCaches));
    var r3, r4 := Row(Category(InstanceQueries), GroupMetrics(num, amps, InstanceQueries)),
                  Row(Category(InstanceProcessors), GroupMetrics(num, amps, InstanceProcessors));
    ExtractCons(acc1, r2, [r3] + ([r4] + []));
    if r2.metrics.Success? {
      InstanceMetricsTail(num, amps, acc);
    }
  }

  /** The queries and processors rows, once cpu and caches are filed. */
  lemma InstanceMetricsTail(num: NumberSupport, amps: seq<Member>, acc: Metrics)
    requires GetAsJsonObject(amps, InstanceKey).Success?
    requires GetAsJsonObject(GetAsJsonObject(amps, InstanceKey).value, MemoryKey).Success?
    requires GetAsJsonObject(GetAsJsonObject(GetAsJsonObject(amps, InstanceKey).value, MemoryKey).value, CacheKey).Success?
    requires RootMetrics(num, GetAsJsonObject(amps, InstanceKey).value, CpuiKey).Success?
    requires ArrayMetrics(num, GetAsJsonObject(GetAsJsonObject(GetAsJsonObject(amps, InstanceKey).value, MemoryKey).value, CacheKey).value,
                          CacheKey, "description").Success?
    ensures var instance := GetAsJsonObject(amps, InstanceKey).value;
            var caches := GetAsJsonObject(GetAsJsonObject(instance, MemoryKey).value, CacheKey).value;
            var acc2 := acc + Qualified(Category(InstanceCpu), RootMetrics(num, instance, CpuiKey).value)
                            + Qualified(Category(InstanceCaches), ArrayMetrics(num, caches, CacheKey, "description").value);
            InstanceMetrics(num, amps, acc) ==
            Extract(acc2, [Row(Category(InstanceQueries), RootMetrics(num, instance, QueryKey))] +
                          ([Row(Category(InstanceProcessors), ArrayMetricsById(num, instance, ProcessorKey, AllKey))] + []))
  {
    CategoryNames();
    var instance := GetAsJsonObject(amps, InstanceKey).value;
    var caches := GetAsJsonObject(GetAsJsonObject(instance, MemoryKey).value, CacheKey).value;
    var acc2 := acc + Qualified(Category(InstanceCpu), RootMetrics(num, instance, CpuiKey).value)
                    + Qualified(Category(InstanceCaches), ArrayMetrics(num, caches, CacheKey, "description").value);
    var r3, r4 := Row(Category(InstanceQueries), RootMetrics(num, instance, QueryKey)),
                  Row(Category(InstanceProcessors), ArrayMetricsById(num, instance, ProcessorKey, AllKey));
    ExtractCons(acc2, r3, [r4] + []);
    if r3.metrics.Success? {
      ExtractCons(acc2 + Qualified(r3.category, r3.metrics.value), r4, []);
    }
  }

  lemma {:induction false} ExtractAppend(acc: Metrics, a: seq<Row>, b: seq<Row>)
    ensures Extract(acc, a).Failure? ==> Extract(acc, a + b) == Extract(acc, a)
    ensures Extract(acc, a).Success? ==> Extract(acc, a + b) == Extract(Extract(acc, a).value, b)
    decreases |a|
  {
    if a == [] {
      assert a + b == b;
    } else {
      assert (a + b)[0] == a[0] && (a + b)[1..] == a[1..] + b;
      if a[0].metrics.Success? {
        ExtractAppend(acc + Qualified(a[0].category, a[0].metrics.value), a[1..], b);
      }
    }
  }

  /** `gatherAMPSMetrics` on an object response is the `amps` root followed
      by the whole table, host rows first. */
  lemma AmpsMetricsByTable(num: NumberSupport, members: seq<Member>)
    ensures GetAsJsonObject(members, AmpsKey).Failure? ==>
              AmpsMetrics(num, Some(JObj(members))) == Failure(GetAsJsonObject(members, AmpsKey).error)
    ensures GetAsJsonObject(members, AmpsKey).Success? ==>
              AmpsMetrics(num, Some(JObj(members))) ==
              Extract(map[], Rows(num, GetAsJsonObject(members, AmpsKey).value, Groups))
  {
    if GetAsJsonObject(members, AmpsKey).Success? {
      var amps := GetAsJsonObject(members, AmpsKey).value;
      HostMetricsByTable(num, amps, map[]);
      if HostMetrics(num, amps, map[]).Success? {
        InstanceMetricsByTable(num, amps, HostMetrics(num, amps, map[]).value);
      }
      assert Rows(num, amps, Groups) == Rows(num, amps, Groups[..3]) + Rows(num, amps, Groups[3..]);
      ExtractAppend(map[], Rows(num, amps, Groups[..3]), Rows(num, amps, Groups[3..]));
    }
  }

  /** The extraction fails exactly when some row holds an exception, and
      then with the exception of the first such row: no partial result. */
  lemma {:induction false} ExtractFailure(acc: Metrics, rows: seq<Row>)
    ensures Extract(acc, rows).Failure? <==> exists i :: 0 <= i < |rows| && rows[i].metrics.Failure?
    ensures Extract(acc, rows).Failure? ==>
            exists i :: 0 <= i < |rows| && rows[i].metrics.Failure? &&
                        Extract(acc, rows) == Failure(rows[i].metrics.error) &&
                        forall j :: 0 <= j < i ==> rows[j].metrics.Success?
    decreases |rows|
  {
    if rows != [] && rows[0].metrics.Success? {
      var acc' := acc + Qualified(rows[0].category, rows[0].metrics.value);
      var rest := rows[1..];
      ExtractFailure(acc', rest);
      assert forall i :: 0 < i < |rows| ==> rest[i - 1] == rows[i];
      if Extract(acc, rows).Failure? {
        var i :| 0 <= i < |rest| && rest[i].metrics.Failure? &&
                 Extract(acc', rest) == Failure(rest[i].metrics.error) &&
                 forall j :: 0 <= j < i ==> rest[j].metrics.Success?;
        assert rows[i + 1] == rest[i];
        forall j | 0 < j < i + 1 ensures rows[j].metrics.Success? {
          assert rest[j - 1] == rows[j];
        }
      }
    }
  }

  /** On success, the result holds `acc` and exactly the metrics the rows
      filed under their categories. */
  lemma {:induction false} ExtractKeys(acc: Metrics, rows: seq<Row>, k: string)
    requires Extract(acc, rows).Success?
    ensures k in Extract(acc, rows).value <==> k in acc || exists i :: 0 <= i < |rows| && Filed(rows[i], k)
    decreases |rows|
  {
    if rows != [] {
      var m := rows[0].metrics.value;
      var rest := rows[1..];
      ExtractKeys(acc + Qualified(rows[0].category, m), rest, k);
      QualifiedExact(rows[0].category, m);
      assert forall i :: 0 < i < |rows| ==> rest[i - 1] == rows[i];
      if Filed(rows[0], k) {
        assert k == rows[0].category + MetricSeparator + k[|rows[0].category| + 1..];
      }
    }
  }

  /** A name no row files keeps its value from `acc`. */
  lemma {:induction false} ExtractKeeps(acc: Metrics, rows: seq<Row>, k: string)
    requires Extract(acc, rows).Success?
    requires k in acc
    requires forall i :: 0 <= i < |rows| ==> !Filed(rows[i], k)
    ensures k in Extract(acc, rows).value && Extract(acc, rows).value[k] == acc[k]
    decreases |rows|
  {
    if rows != [] {
      var m := rows[0].metrics.value;
      QualifiedExact(rows[0].category, m);
      assert !Filed(rows[0], k);
      assert forall i :: 0 <= i < |rows[1..]| ==> rows[1..][i] == rows[i + 1];
      ExtractKeeps(acc + Qualified(rows[0].category, m), rows[1..], k);
    }
  }

  /** On success, every metric of every row is in the result under the
      row's category with its own value, provided the categories are
      pairwise apart: later rows never overwrite earlier ones. */
  lemma {:induction false} ExtractValues(acc: Metrics, rows: seq<Row>, i: int, n: string)
    requires Extract(acc, rows).Success?
    requires forall a, b :: 0 <= a < b < |rows| ==> Apart(rows[a].category, rows[b].category)
    requires 0 <= i < |rows|
    ensures rows[i].metrics.Success?
    ensures n in rows[i].metrics.value ==>
              var k := rows[i].category + MetricSeparator + n;
              k in Extract(acc, rows).value && Extract(acc, rows).value[k] == rows[i].metrics.value[n]
    decreases |rows|
  {
    ExtractFailure(acc, rows);
    var m := rows[0].metrics.value;
    var acc' := acc + Qualified(rows[0].category, m);
    var rest := rows[1..];
    if i == 0 {
      if n in m {
        var k := rows[0].category + MetricSeparator + n;
        QualifiedExact(rows[0].category, m);
        QualifiedStartsWith(rows[0].category, n);
        forall j | 0 <= j < |rest| ensures !Filed(rest[j], k) {
          assert rest[j] == rows[j + 1];
          assert Apart(rows[0].category, rows[j + 1].category);
        }
        ExtractKeeps(acc', rest, k);
      }
    } else {
      assert rest[i - 1] == rows[i];
      assert forall a, b :: 0 <= a < b < |rest| ==> rest[a] == rows[a + 1] && rest[b] == rows[b + 1];
      ExtractValues(acc', rest, i - 1, n);
    }
  }

  /** The seven categories are pairwise apart. */
  lemma TableApart(num: NumberSupport, amps: seq<Member>)
    ensures forall a, b :: 0 <= a < b < |Groups| ==>
              Apart(Rows(num, amps, Groups)[a].category, Rows(num, amps, Groups)[b].category)
  {
    forall a, b | 0 <= a < b < |Groups|
      ensures Apart(Category(Groups[a]), Category(Groups[b]))
    {
      forall k ensures !(StartsWith(k, Category(Groups[a]) + MetricSeparator) &&
                         StartsWith(k, Category(Groups[b]) + MetricSeparator))
      {
        CategoriesDisjoint(Groups[a], Groups[b], k);
      }
    }
  }

  /** Once the `amps` root is an object, the extraction fails exactly when
      some group throws. */
  lemma AmpsMetricsFails(num: NumberSupport, members: seq<Member>)
    requires GetAsJsonObject(members, AmpsKey).Success?
    ensures AmpsMetrics(num, Some(JObj(members))).Failure? <==>
            exists g :: g in Groups && GroupMetrics(num, GetAsJsonObject(members, AmpsKey).value, g).Failure?
  {
    var amps := GetAsJsonObject(members, AmpsKey).value;
    var rows := Rows(num, amps, Groups);
    AmpsMetricsByTable(num, members);
    ExtractFailure(map[], rows);
    if AmpsMetrics(num, Some(JObj(members))).Failure? {
      var i :| 0 <= i < |rows| && rows[i].metrics.Failure?;
      assert Groups[i] in Groups;
    }
  }

  /** A successful extraction holds every metric of every group under
      `category|name` with the group's value, and nothing else. */
  lemma AmpsMetricsUnion(num: NumberSupport, members: seq<Member>)
    requires GetAsJsonObject(members, AmpsKey).Success?
    requires AmpsMetrics(num, Some(JObj(members))).Success?
    ensures var amps := GetAsJsonObject(members, AmpsKey).value;
            forall g, n :: g in Groups && GroupMetrics(num, amps, g).Success? && n in GroupMetrics(num, amps, g).value ==>
              Category(g) + MetricSeparator + n in AmpsMetrics(num, Some(JObj(members))).value &&
              AmpsMetrics(num, Some(JObj(members))).value[Category(g) + MetricSeparator + n] == GroupMetrics(num, amps, g).value[n]
    ensures var amps := GetAsJsonObject(members, AmpsKey).value;
            forall k :: k in AmpsMetrics(num, Some(JObj(members))).value ==>
              exists g :: g in Groups && Filed(Row(Category(g), GroupMetrics(num, amps, g)), k)
  {
    var amps := GetAsJsonObject(members, AmpsKey).value;
    var rows := Rows(num, amps, Groups);
    AmpsMetricsByTable(num, members);
    TableApart(num, amps);
    forall g, n | g in Groups && GroupMetrics(num, amps, g).Success? && n in GroupMetrics(num, amps, g).value
      ensures Category(g) + MetricSeparator + n in Extract(map[], rows).value &&
              Extract(map[], rows).value[Category(g) + MetricSeparator + n] == GroupMetrics(num, amps, g).value[n]
    {
      var i :| 0 <= i < |Groups| && Groups[i] == g;
      ExtractValues(map[], rows, i, n);
    }
    forall k | k in Extract(map[], rows).value
      ensures exists g :: g in Groups && Filed(Row(Category(g), GroupMetrics(num, amps, g)), k)
    {
      ExtractKeys(map[], rows, k);
      var i :| 0 <= i < |rows| && Filed(rows[i], k);
      assert Groups[i] in Groups;
    }
  }

  /** One metric of one group, end to end. */
  lemma GroupMetricReported(num: NumberSupport, members: seq<Member>, g: Group, n: string)
    requires GetAsJsonObject(members, AmpsKey).Success?
    requires AmpsMetrics(num, Some(JObj(members))).Success?
    requires var m := GroupMetrics(num, GetAsJsonObject(members, AmpsKey).value, g); m.Success? && n in m.value
    ensures Category(g) + MetricSeparator + n in AmpsMetrics(num, Some(JObj(members))).value
    ensures AmpsMetrics(num, Some(JObj(members))).value[Category(g) + MetricSeparator + n] ==
            GroupMetrics(num, GetAsJsonObject(members, AmpsKey).value, g).value[n]
  {
    AmpsMetricsUnion(num, members);
    assert g in Groups by { assert g == Groups[0] || g == Groups[1] || g == Groups[2] || g == Groups[3] || g == Groups[4] || g == Groups[5] || g == Groups[6]; }
  }

  /** A failing extraction reports the exception of the first group, in
      table order, that throws. */
  lemma AmpsMetricsFirstFailure(num: NumberSupport, members: seq<Member>)
    requires GetAsJsonObject(members, AmpsKey).Success?
    requires AmpsMetrics(num, Some(JObj(members))).Failure?
    ensures var amps := GetAsJsonObject(members, AmpsKey).value;
            exists i :: 0 <= i < |Groups| && GroupMetrics(num, amps, Groups[i]).Failure? &&
                        AmpsMetrics(num, Some(JObj(members))) == Failure(GroupMetrics(num, amps, Groups[i]).error) &&
                        forall j :: 0 <= j < i ==> GroupMetrics(num, amps, Groups[j]).Success?
  {
    var amps := GetAsJsonObject(members, AmpsKey).value;
    AmpsMetricsByTable(num, members);
    ExtractFailure(map[], Rows(num, amps, Groups));
  }

  lemma PrefixAt(k: string, a: string, i: int)
    requires StartsWith(k, a) && 0 <= i < |a|
    ensures k[i] == a[i]
  {
    assert k[..|a|][i] == k[i];
  }

  /** No name is filed under two categories. */
  lemma CategoriesDisjoint(g: Group, h: Group, k: string)
    requires g != h
    ensures !(StartsWith(k, Category(g) + MetricSeparator) && StartsWith(k, Category(h) + MetricSeparator))
  {
    var a, b := Category(g) + MetricSeparator, Category(h) + MetricSeparator;
    if StartsWith(k, a) && StartsWith(k, b) {
      PrefixAt(k, a, 0);
      PrefixAt(k, b, 0);
      PrefixAt(k, a, 5);
      PrefixAt(k, b, 5);
      PrefixAt(k, a, 9);
      PrefixAt(k, b, 9);
      PrefixAt(k, a, 10);
      PrefixAt(k, b, 10);
      assert false;
    }
  }

  lemma QualifiedStartsWith(category: string, n: string)
    ensures StartsWith(category + MetricSeparator + n, category + MetricSeparator)
  {
    assert (category + MetricSeparator + n)[..|category| + 1] == category + MetricSeparator;
  }
}
