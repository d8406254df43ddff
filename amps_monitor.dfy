/** The monitor task of `AMPSMonitor`: the exclusion filter built from the
    configured patterns, the emission of every metric that survives it under
    the global prefix, the choice of password, and the outcome of one run. */
module AmpsMonitor {
  import opened JavaTypes
  import opened Gson
  import opened AmpsWrapper

  const TaskSucceeded := "Task successfully..."
  const TaskFailed := "Task failed with errors"
  const EncryptionKeyMessage := "Encryption Key not specified. Please set the value in config.yaml."

  /** `java.util.regex`, uninterpreted: `compiles(p)` holds when
      `Pattern.compile(p)` does not throw, and `fullMatch(p, s)` is
      `Pattern.compile(p).matcher(s).matches()`. */
  datatype Regex = Regex(compiles: string -> bool, fullMatch: (string, string) -> bool)

  /** A compiled `Pattern`, known by its source text. */
  datatype Pattern = Pattern(source: string)

  /** One `MetricWriter.printMetric` call: the full metric name and its value. */
  datatype Report = Report(name: string, value: Double)

  /** The configuration fields the modelled code reads; `None` is a null
      field, and a `None` in `disabledMetrics` a null element of the set. */
  datatype Configuration = Configuration(
    password: Option<string>,
    passwordEncrypted: Option<string>,
    encryptionKey: Option<string>,
    metricPrefix: Option<string>,
    disabledMetrics: Option<set<Option<string>>>)

  /** Java string concatenation writes a null reference as `"null"`. */
  function JavaString(s: Option<string>): string {
    if s.None? then "null" else s.value
  }

  // ---------------------------------------------------------------------
  // buildPatterns, isMatched

  /** The set holds a null element, on which `Pattern.compile` throws a
      `NullPointerException` that the `PatternSyntaxException` handler does
      not catch. */
  predicate HasNullPattern(patterns: Option<set<Option<string>>>) {
    patterns.Some? && None in patterns.value
  }

  method BuildPatterns(rx: Regex, patterns: Option<set<Option<string>>>) returns (r: Result<seq<Pattern>>)
    ensures patterns.None? || patterns.value == {} ==> r == Success([])
    ensures r.Failure? <==> HasNullPattern(patterns)
    ensures r.Failure? ==> r.error == NullPointer
    ensures r.Success? ==> forall i :: 0 <= i < |r.value| ==>
              patterns.Some? && Some(r.value[i].source) in patterns.value && rx.compiles(r.value[i].source)
    ensures r.Success? ==> forall p :: patterns.Some? && Some(p) in patterns.value && rx.compiles(p) ==> Pattern(p) in r.value
    ensures r.Success? ==> forall i, j :: 0 <= i < j < |r.value| ==> r.value[i] != r.value[j]
    ensures r.Success? && patterns.Some? ==> |r.value| <= |patterns.value|
  {
    if patterns.None? || |patterns.value| <= 0 {
      return Success([]);
    }
    var all := patterns.value;
    var excludePatterns: seq<Pattern> := [];
    var rest := all;
    while rest != {}
      invariant rest <= all
      invariant None !in all - rest
      invariant forall i :: 0 <= i < |excludePatterns| ==>
                  Some(excludePatterns[i].source) in all - rest && rx.compiles(excludePatterns[i].source)
      invariant forall p :: Some(p) in all - rest && rx.compiles(p) ==> Pattern(p) in excludePatterns
      invariant forall i, j :: 0 <= i < j < |excludePatterns| ==> excludePatterns[i] != excludePatterns[j]
      invariant |excludePatterns| + |rest| <= |all|
      decreases rest
    {
      var pattern :| pattern in rest;
      if pattern.None? {
        return Failure(NullPointer);
      }
      if rx.compiles(pattern.value) {
        excludePatterns := excludePatterns + [Pattern(pattern.value)];
      }
      rest := rest - {pattern};
    }
    return Success(excludePatterns);
  }

  method IsMatched(rx: Regex, patterns: seq<Pattern>, input: string) returns (matched: bool)
    ensures matched <==> exists i :: 0 <= i < |patterns| && rx.fullMatch(patterns[i].source, input)
  {
    matched := false;
    var i := 0;
    while i < |patterns|
      invariant 0 <= i <= |patterns|
      invariant forall k :: 0 <= k < i ==> !rx.fullMatch(patterns[k].source, input)
    {
      if rx.fullMatch(patterns[i].source, input) {
        matched := true;
        break;
      }
      i := i + 1;
    }
  }

  /** A metric name is excluded when some configured pattern that compiles
      fully matches it. */
  predicate Excluded(rx: Regex, disabled: Option<set<Option<string>>>, name: string) {
    disabled.Some? && exists q :: q in disabled.value && q.Some? && rx.compiles(q.value) && rx.fullMatch(q.value, name)
  }

  /** Patterns that do not compile never exclude anything. */
  lemma InvalidPatternsIgnored(rx: Regex, valid: set<Option<string>>, invalid: set<Option<string>>, name: string)
    requires forall p :: Some(p) in invalid ==> !rx.compiles(p)
    ensures Excluded(rx, Some(valid + invalid), name) <==> Excluded(rx, Some(valid), name)
  {
  }

  // ---------------------------------------------------------------------
  // printMetric, printMetricsHelper

  /** `printMetric`: the writes it makes, none for a null value. */
  function PrintMetric(metricName: string, metricValue: Option<Double>): (writes: seq<Report>)
    ensures |writes| <= 1
    ensures writes == [] <==> metricValue.None?
    ensures forall w :: w in writes ==> w == Report(metricName, metricValue.value)
  {
    if metricValue.Some? then [Report(metricName, metricValue.value)] else []
  }

  /** What `printMetricsHelper` writes, in whatever order the map is
      iterated: one report under `prefix + name` for each non-null metric
      whose name, before the prefix is added, is not excluded; nothing else;
      no name twice. */
  ghost predicate EmissionOf(rx: Regex, metricPrefix: Option<string>, disabled: Option<set<Option<string>>>,
                             metricsMap: map<string, Option<Double>>, written: seq<Report>)
  {
    var prefix := JavaString(metricPrefix);
    && (forall k :: k in metricsMap && metricsMap[k].Some? && !Excluded(rx, disabled, k) ==>
          Report(prefix + k, metricsMap[k].value) in written)
    && (forall i :: 0 <= i < |written| ==>
          && StartsWith(written[i].name, prefix)
          && written[i].name[|prefix|..] in metricsMap
          && metricsMap[written[i].name[|prefix|..]] == Some(written[i].value)
          && !Excluded(rx, disabled, written[i].name[|prefix|..]))
    && (forall i, j :: 0 <= i < j < |written| ==> written[i].name != written[j].name)
  }

  /** The writes `printMetricsHelper` makes, or the exception it throws;
      building the patterns comes first, so a failure writes nothing. */
  method PrintMetricsHelper(rx: Regex, metricPrefix: Option<string>, disabledMetrics: Option<set<Option<string>>>,
                            metricsMap: map<string, Option<Double>>) returns (r: Result<seq<Report>>)
    ensures r.Failure? <==> HasNullPattern(disabledMetrics)
    ensures r.Failure? ==> r.error == NullPointer
    ensures r.Success? ==> EmissionOf(rx, metricPrefix, disabledMetrics, metricsMap, r.value)
  {
    var prefix := JavaString(metricPrefix);
    var built := BuildPatterns(rx, disabledMetrics);
    if built.Failure? {
      return Failure(built.error);
    }
    var disabledMetricsPatterns := built.value;
    var written := [];
    var pending := metricsMap.Keys;
    while pending != {}
      invariant pending <= metricsMap.Keys
      invariant forall k :: k in metricsMap && k !in pending && metricsMap[k].Some? && !Excluded(rx, disabledMetrics, k) ==>
                  Report(prefix + k, metricsMap[k].value) in written
      invariant forall i :: 0 <= i < |written| ==>
                  && StartsWith(written[i].name, prefix)
                  && written[i].name[|prefix|..] in metricsMap
                  && written[i].name[|prefix|..] !in pending
                  && metricsMap[written[i].name[|prefix|..]] == Some(written[i].value)
                  && !Excluded(rx, disabledMetrics, written[i].name[|prefix|..])
      invariant forall i, j :: 0 <= i < j < |written| ==> written[i].name != written[j].name
      decreases pending
    {
      var metricName :| metricName in pending;
      var metric := metricsMap[metricName];
      var matched := IsMatched(rx, disabledMetricsPatterns, metricName);
      assert matched <==> Excluded(rx, disabledMetrics, metricName) by {
        if Excluded(rx, disabledMetrics, metricName) {
          var q :| q in disabledMetrics.value && q.Some? && rx.compiles(q.value) && rx.fullMatch(q.value, metricName);
          var i :| 0 <= i < |disabledMetricsPatterns| && disabledMetricsPatterns[i] == Pattern(q.value);
        }
      }
      if !matched {
        var name := prefix + metricName;
        assert name[|prefix|..] == metricName && name[..|prefix|] == prefix;
        written := written + PrintMetric(name, metric);
      }
      pending := pending - {metricName};
    }
    return Success(written);
  }

  /** The order of the writes is all that two runs of `printMetricsHelper`
      on the same map can differ in. */
  lemma EmissionUnique(rx: Regex, metricPrefix: Option<string>, disabled: Option<set<Option<string>>>,
                       metricsMap: map<string, Option<Double>>, w1: seq<Report>, w2: seq<Report>)
    requires EmissionOf(rx, metricPrefix, disabled, metricsMap, w1)
    requires EmissionOf(rx, metricPrefix, disabled, metricsMap, w2)
    ensures forall r :: r in w1 <==> r in w2
    ensures |w1| == |w2|
  {
    var prefix := JavaString(metricPrefix);
    forall r | r in w1 ensures r in w2 {
      var i :| 0 <= i < |w1| && w1[i] == r;
      assert r.name == prefix + r.name[|prefix|..];
    }
    forall r | r in w2 ensures r in w1 {
      var i :| 0 <= i < |w2| && w2[i] == r;
      assert r.name == prefix + r.name[|prefix|..];
    }
    DistinctCard(w1);
    DistinctCard(w2);
    assert (set r | r in w1) == (set r | r in w2);
  }

  lemma {:induction false} DistinctCard(w: seq<Report>)
    requires forall i, j :: 0 <= i < j < |w| ==> w[i].name != w[j].name
    ensures |set r | r in w| == |w|
    decreases |w|
  {
    if w != [] {
      var last := w[|w| - 1];
      var init := w[..|w| - 1];
      DistinctCard(init);
      assert (set r | r in w) == (set r | r in init) + {last};
      assert last !in (set r | r in init);
    }
  }

  // ---------------------------------------------------------------------
  // getPassword

  /** The only case in which `getPassword` decrypts: no plaintext password
      and a non-empty encrypted one. */
  predicate UsesDecryption(config: Configuration) {
    (config.password.None? || |config.password.value| <= 0) &&
    (config.passwordEncrypted.Some? && |config.passwordEncrypted.value| > 0)
  }

  /** `getPassword`, with `CryptoUtil.getPassword` as the parameter
      `decrypt`, given the encrypted password and the (possibly null) key. */
  function GetPassword(config: Configuration, decrypt: (string, Option<string>) -> Result<string>): (r: Result<Option<string>>)
    ensures !UsesDecryption(config) ==> r == Success(config.password)
    ensures UsesDecryption(config) && decrypt(config.passwordEncrypted.value, config.encryptionKey).Success? ==>
              r == Success(Some(decrypt(config.passwordEncrypted.value, config.encryptionKey).value))
    ensures UsesDecryption(config) && decrypt(config.passwordEncrypted.value, config.encryptionKey).Failure? ==>
              && r.Failure?
              && (r.error.IllegalArgument? <==> decrypt(config.passwordEncrypted.value, config.encryptionKey).error.IllegalArgument?)
              && (r.error.IllegalArgument? ==> r.error.message == EncryptionKeyMessage)
              && (!r.error.IllegalArgument? ==> r.error == decrypt(config.passwordEncrypted.value, config.encryptionKey).error)
  {
    var password := config.password;
    var encryptedPassword := config.passwordEncrypted;
    if (password.None? || |password.value| <= 0) && (encryptedPassword.Some? && |encryptedPassword.value| > 0) then
      match decrypt(encryptedPassword.value, config.encryptionKey)
      case Success(p) => Success(Some(p))
      case Failure(IllegalArgument(_)) => Failure(IllegalArgument(EncryptionKeyMessage))
      case Failure(e) => Failure(e)
    else
      Success(password)
  }

  // ---------------------------------------------------------------------
  // execute

  /** The extracted map as the `Map<String, Double>` handed to the printer. */
  function Boxed(metrics: Metrics): (r: map<string, Option<Double>>)
    ensures r.Keys == metrics.Keys
    ensures forall k :: k in metrics ==> r[k] == Some(metrics[k])
  {
    map k | k in metrics :: Some(metrics[k])
  }

  /** Every stage of one run completes without an exception. */
  predicate CycleSucceeds(num: NumberSupport, config: Result<Configuration>,
                          decrypt: (string, Option<string>) -> Result<string>,
                          clientFailure: Option<Exception>, response: Result<Option<Json>>)
  {
    && config.Success?
    && GetPassword(config.value, decrypt).Success?
    && clientFailure.None?
    && response.Success?
    && AmpsMetrics(num, response.value).Success?
    && !HasNullPattern(config.value.disabledMetrics)
  }

  /** One run of `execute`. The stages outside the model are parameters:
      `config` is the outcome of validating the arguments and reading the
      configuration file, `clientFailure` what building the HTTP client
      throws, and `response` the outcome of the HTTP request (a failure) and
      of parsing its body (`None` when it is not JSON); a failed request is
      `Failure(Runtime)`, since `getResponseString` wraps whatever it catches
      in a `RuntimeException`. `fetched` says
      whether the request was made. */
  method Execute(rx: Regex, num: NumberSupport, config: Result<Configuration>,
                 decrypt: (string, Option<string>) -> Result<string>,
                 clientFailure: Option<Exception>, response: Result<Option<Json>>)
    returns (output: string, fetched: bool, written: seq<Report>)
    ensures output == TaskSucceeded <==> CycleSucceeds(num, config, decrypt, clientFailure, response)
    ensures output != TaskSucceeded ==> output == TaskFailed && written == []
    ensures fetched <==> config.Success? && GetPassword(config.value, decrypt).Success? && clientFailure.None?
    ensures output == TaskSucceeded ==>
              EmissionOf(rx, config.value.metricPrefix, config.value.disabledMetrics,
                         Boxed(AmpsMetrics(num, response.value).value), written)
  {
    output, fetched, written := TaskFailed, false, [];
    if config.Failure? {
      return;
    }
    var password := GetPassword(config.value, decrypt);
    if password.Failure? || clientFailure.Some? {
      return;
    }
    fetched := true;
    if response.Failure? {
      return;
    }
    var ampsMetrics := GatherAmpsMetrics(num, response.value);
    if ampsMetrics.Failure? {
      return;
    }
    var printed := PrintMetricsHelper(rx, config.value.metricPrefix, config.value.disabledMetrics, Boxed(ampsMetrics.value));
    if printed.Failure? {
      return;
    }
    written := printed.value;
    output := TaskSucceeded;
  }
}
