/** Worked examples: small `host` sub-trees in the shape an AMPS admin
    endpoint returns, and what the extractor makes of them. The number
    parser is left abstract; each example says which texts it accepts. */
module AmpsExamples {
  import opened JavaTypes
  import opened Gson
  import opened AmpsWrapper
  import opened AmpsGroups

  const CpuAll: seq<Member> := [("id", JStr("all")), ("usage", JNum("42.5"))]
  const Cpu0: seq<Member> := [("id", JStr("cpu0")), ("usage", JNum("10"))]

  /** Of the per-cpu entries, only the aggregate one with id `all` is
      reported, and its id is not (it is not a number). */
  lemma CpusSelectsAllEntry(num: NumberSupport, host: seq<Member>)
    requires Get(host, CpuKey) == Some(JArr([JObj(CpuAll), JObj(Cpu0)]))
    requires num.isNumber("42.5") && !num.isNumber("all")
    ensures ArrayMetricsById(num, host, CpuKey, AllKey) == Success(map["usage" := num.toDouble("42.5")])
  {
    var o1 := CpuAll;
    assert HasId(o1, AllKey) by { assert IsIdEntry(o1[0], AllKey); }
    assert o1[1..] == [("usage", JNum("42.5"))] && o1[1..][1..] == [];
    assert AddIfNumeric(num, map[], "", o1[0]) == map[];
    assert "" + "usage" == "usage";
    assert FlattenInto(num, map[], "", o1[1..]) == map["usage" := num.toDouble("42.5")];
  }

  /** The host cpus row of a document whose cpus are the two entries above. */
  lemma CpusRow(num: NumberSupport, amps: seq<Member>, host: seq<Member>)
    requires GetAsJsonObject(amps, HostKey) == Success(host)
    requires Get(host, CpuKey) == Some(JArr([JObj(CpuAll), JObj(Cpu0)]))
    requires num.isNumber("42.5") && !num.isNumber("all")
    ensures GroupMetrics(num, amps, HostCpus) == Success(map["usage" := num.toDouble("42.5")])
  {
    CpusSelectsAllEntry(num, host);
    HostGroups(num, amps);
  }

  /** End to end: when the whole extraction succeeds on a document whose
      host cpus are the two entries above, the aggregate usage is reported
      as `host|cpus|usage`. */
  lemma AggregateCpuUsageReported(num: NumberSupport, members: seq<Member>, amps: seq<Member>, host: seq<Member>)
    requires GetAsJsonObject(members, AmpsKey) == Success(amps)
    requires GetAsJsonObject(amps, HostKey) == Success(host)
    requires Get(host, CpuKey) == Some(JArr([JObj(CpuAll), JObj(Cpu0)]))
    requires num.isNumber("42.5") && !num.isNumber("all")
    requires AmpsMetrics(num, Some(JObj(members))).Success?
    ensures "host|cpus|usage" in AmpsMetrics(num, Some(JObj(members))).value
    ensures AmpsMetrics(num, Some(JObj(members))).value["host|cpus|usage"] == num.toDouble("42.5")
  {
    CpusRow(num, amps, host);
    GroupMetricReported(num, members, HostCpus, "usage");
    UsageName();
  }

  lemma UsageName()
    ensures Category(HostCpus) + MetricSeparator + "usage" == "host|cpus|usage"
  {
  }

  /** Each network interface's numbers are prefixed with its id. */
  lemma NetworkPrefixedById(num: NumberSupport, host: seq<Member>)
    requires Get(host, NetworkKey) == Some(JArr([JObj([("id", JStr("eth0")), ("rx", JNum("100")), ("tx", JNum("50"))])]))
    requires num.isNumber("100") && num.isNumber("50") && !num.isNumber("eth0")
    ensures ArrayMetrics(num, host, NetworkKey, "id") ==
            Success(map["eth0|rx" := num.toDouble("100"), "eth0|tx" := num.toDouble("50")])
  {
    var o: seq<Member> := [("id", JStr("eth0")), ("rx", JNum("100")), ("tx", JNum("50"))];
    assert FindPrefixField(o, "id") == Success(Some("eth0"));
    assert o[1..] == [("rx", JNum("100")), ("tx", JNum("50"))] && o[1..][1..] == [("tx", JNum("50"))] && o[1..][1..][1..] == [];
    assert AddIfNumeric(num, map[], "eth0|", o[0]) == map[];
    assert "eth0|" + "rx" == "eth0|rx" && "eth0|" + "tx" == "eth0|tx" && "eth0" + MetricSeparator == "eth0|";
    var m1 := map["eth0|rx" := num.toDouble("100")];
    assert AddIfNumeric(num, map[], "eth0|", o[1]) == m1;
    assert FlattenInto(num, m1, "eth0|", o[1..][1..]) == m1["eth0|tx" := num.toDouble("50")];
    assert FlattenInto(num, map[], "eth0|", o[1..]) == FlattenInto(num, m1, "eth0|", o[1..][1..]);
    assert FlattenInto(num, map[], "eth0|", o) == m1["eth0|tx" := num.toDouble("50")];
    assert AddElement(num, map[], JObj(o), "id") == Success(m1["eth0|tx" := num.toDouble("50")]);
    assert [JObj(o)][1..] == [];
  }

  /** An id that is itself a number is reported too, under its own value:
      the element's members are flattened whole, id included. */
  lemma NumericIdAlsoReported(num: NumberSupport, host: seq<Member>)
    requires Get(host, NetworkKey) == Some(JArr([JObj([("id", JNum("7")), ("rx", JNum("1"))])]))
    requires num.isNumber("7") && num.isNumber("1")
    ensures ArrayMetrics(num, host, NetworkKey, "id") ==
            Success(map["7|id" := num.toDouble("7"), "7|rx" := num.toDouble("1")])
  {
    var o: seq<Member> := [("id", JNum("7")), ("rx", JNum("1"))];
    assert FindPrefixField(o, "id") == Success(Some("7"));
    assert o[1..] == [("rx", JNum("1"))] && o[1..][1..] == [];
    assert "7|" + "id" == "7|id" && "7|" + "rx" == "7|rx" && "7" + MetricSeparator == "7|";
    var m1 := map["7|id" := num.toDouble("7")];
    assert AddIfNumeric(num, map[], "7|", o[0]) == m1;
    assert FlattenInto(num, m1, "7|", o[1..]) == m1["7|rx" := num.toDouble("1")];
    assert FlattenInto(num, map[], "7|", o) == m1["7|rx" := num.toDouble("1")];
    assert AddElement(num, map[], JObj(o), "id") == Success(m1["7|rx" := num.toDouble("1")]);
    assert [JObj(o)][1..] == [];
  }
}
