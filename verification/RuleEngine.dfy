/**
 * The rule engine: one duration timer per rule, machine and dimension, advanced by every
 * metric sample in the order in which samples are evaluated.
 */
module RuleEngine {
  import opened Common
  import opened Alerts

  datatype Operator = GT | LT | GE | LE | EQ | NE {
    predicate Holds(value: real, threshold: real) {
      match this
      case GT => value > threshold
      case LT => value < threshold
      case GE => value >= threshold
      case LE => value <= threshold
      case EQ => value == threshold
      case NE => value != threshold
    }
  }

  datatype Rule = Rule(
    pk: nat,
    customer: nat,
    metric: string,
    operator: Operator,
    threshold: real,
    duration: nat,
    severity: Severity,
    enabled: bool,
    environment: Option<nat>,
    machine: Option<nat>,
    cooldown: nat)

  /** A stored sample; a metadata entry without text stands for null. */
  datatype Metric = Metric(
    timestamp: int,
    machine: Machine,
    environment: nat,
    name: string,
    value: Option<real>,
    metadata: map<string, Option<string>>)

  datatype RuleState = RuleState(firstTrue: Option<int>, lastAt: Option<int>, lastValue: Option<real>, active: bool)

  const FRESH := RuleState(None, None, None, false)

  datatype Key = Key(rule: nat, machine: Machine, dimension: string)

  type States = map<Key, RuleState>

  function Lookup(states: States, key: Key): RuleState {
    if key in states then states[key] else FRESH
  }

  // ----- Dimensions -----

  const DIMENSION_FIELDS := ["service_name", "mountpoint", "device", "gpu_index", "datastore"]

  predicate HasField(m: Metric, field: string) {
    field in m.metadata && m.metadata[field].Some? && m.metadata[field].value != ""
  }

  /** The first dimension found from field number i on. */
  function DimensionFrom(m: Metric, i: nat): string
    requires i <= |DIMENSION_FIELDS|
    decreases |DIMENSION_FIELDS| - i
  {
    if i == |DIMENSION_FIELDS| then ""
    else if HasField(m, DIMENSION_FIELDS[i]) then DIMENSION_FIELDS[i] + ":" + m.metadata[DIMENSION_FIELDS[i]].value
    else DimensionFrom(m, i + 1)
  }

  function Dimension(m: Metric): string { DimensionFrom(m, 0) }

  /** Field number i is the first one that carries a value. */
  predicate Leads(m: Metric, i: nat) {
    && i < |DIMENSION_FIELDS| && HasField(m, DIMENSION_FIELDS[i])
    && forall j :: 0 <= j < i ==> !HasField(m, DIMENSION_FIELDS[j])
  }

  lemma {:induction false} DimensionNamesLeader(m: Metric, i: nat, leader: nat)
    requires i <= leader && Leads(m, leader)
    ensures DimensionFrom(m, i) == DIMENSION_FIELDS[leader] + ":" + m.metadata[DIMENSION_FIELDS[leader]].value
    decreases leader - i
  {
    if i < leader {
      DimensionNamesLeader(m, i + 1, leader);
    }
  }

  lemma FirstColonSplits(f: string, v: string, g: string, w: string)
    requires ':' !in f && ':' !in g && f + ":" + v == g + ":" + w
    ensures f == g && v == w
  {
    var s := f + ":" + v;
    assert s[|f|] == ':' && s[|g|] == ':';
    assert forall i :: 0 <= i < |f| ==> s[i] == f[i];
    assert forall i :: 0 <= i < |g| ==> s[i] == g[i];
    assert |f| == |g|;
    assert f == s[..|f|] && g == s[..|g|];
    assert v == s[|f| + 1..] && w == s[|g| + 1..];
  }

  lemma LeadersSeparate(m: Metric, n: Metric, i: nat, j: nat)
    requires Leads(m, i) && Leads(n, j)
    ensures Dimension(m) == Dimension(n)
       <==> i == j && m.metadata[DIMENSION_FIELDS[i]] == n.metadata[DIMENSION_FIELDS[j]]
    ensures Dimension(m) != ""
  {
    DimensionNamesLeader(m, 0, i);
    DimensionNamesLeader(n, 0, j);
    var f, g := DIMENSION_FIELDS[i], DIMENSION_FIELDS[j];
    assert ':' !in f && ':' !in g;
    if Dimension(m) == Dimension(n) {
      FirstColonSplits(f, m.metadata[f].value, g, n.metadata[g].value);
      assert |"service_name"| == 12 && |"mountpoint"| == 10 && |"device"| == 6;
      assert "gpu_index"[0] != "datastore"[0];
    }
  }

  /** The metadata give the field a text that is not empty. */
  predicate Gives(m: Metric, field: string, text: string) {
    text != "" && field in m.metadata && m.metadata[field] == Some(text)
  }

  predicate Lacks(m: Metric, fields: seq<string>) {
    forall i :: 0 <= i < |fields| ==> !(fields[i] in m.metadata && m.metadata[fields[i]] !in {None, Some("")})
  }

  /** The dimension is the first of five fields that has a text, with that text; without any it is empty. */
  lemma DimensionIsTheFirstField(m: Metric, text: string)
    ensures var a, b, c, d, e := "service_name", "mountpoint", "device", "gpu_index", "datastore";
            && (Gives(m, a, text) ==> Dimension(m) == "service_name:" + text)
            && (Gives(m, b, text) && Lacks(m, [a]) ==> Dimension(m) == "mountpoint:" + text)
            && (Gives(m, c, text) && Lacks(m, [a, b]) ==> Dimension(m) == "device:" + text)
            && (Gives(m, d, text) && Lacks(m, [a, b, c]) ==> Dimension(m) == "gpu_index:" + text)
            && (Gives(m, e, text) && Lacks(m, [a, b, c, d]) ==> Dimension(m) == "datastore:" + text)
            && (Lacks(m, [a, b, c, d, e]) ==> Dimension(m) == "")
  {
    var a, b, c, d, e := "service_name", "mountpoint", "device", "gpu_index", "datastore";
    FieldsInOrder(m);
    LacksOne(m, [a], 0);
    LacksOne(m, [a, b], 1);
    LacksOne(m, [a, b, c], 2);
    LacksOne(m, [a, b, c, d], 3);
    LacksOne(m, [a, b, c, d, e], 4);
  }

  lemma LacksOne(m: Metric, fields: seq<string>, i: nat)
    requires i < |fields|
    ensures Lacks(m, fields) ==> !HasField(m, fields[i]) && Lacks(m, fields[..i])
  {
  }

  lemma FieldsInOrder(m: Metric)
    ensures DimensionFrom(m, 5) == ""
    ensures DimensionFrom(m, 4)
         == if HasField(m, "datastore") then "datastore:" + m.metadata["datastore"].value else DimensionFrom(m, 5)
    ensures DimensionFrom(m, 3)
         == if HasField(m, "gpu_index") then "gpu_index:" + m.metadata["gpu_index"].value else DimensionFrom(m, 4)
    ensures DimensionFrom(m, 2)
         == if HasField(m, "device") then "device:" + m.metadata["device"].value else DimensionFrom(m, 3)
    ensures DimensionFrom(m, 1)
         == if HasField(m, "mountpoint") then "mountpoint:" + m.metadata["mountpoint"].value else DimensionFrom(m, 2)
    ensures Dimension(m)
         == if HasField(m, "service_name") then "service_name:" + m.metadata["service_name"].value
            else DimensionFrom(m, 1)
  {
    assert "service_name" + ":" == "service_name:" && "mountpoint" + ":" == "mountpoint:";
    assert "device" + ":" == "device:" && "gpu_index" + ":" == "gpu_index:" && "datastore" + ":" == "datastore:";
  }

  /** The sample carries none of the dimension fields. */
  predicate IsPlain(m: Metric) {
    forall i :: 0 <= i < |DIMENSION_FIELDS| ==> !HasField(m, DIMENSION_FIELDS[i])
  }

  lemma {:induction false} PlainOrLed(m: Metric, i: nat) returns (leader: nat)
    requires i <= |DIMENSION_FIELDS| && forall j :: 0 <= j < i ==> !HasField(m, DIMENSION_FIELDS[j])
    ensures IsPlain(m) ==> DimensionFrom(m, i) == ""
    ensures !IsPlain(m) ==> Leads(m, leader)
    decreases |DIMENSION_FIELDS| - i
  {
    leader := i;
    if i < |DIMENSION_FIELDS| && !HasField(m, DIMENSION_FIELDS[i]) {
      leader := PlainOrLed(m, i + 1);
    }
  }

  /** The same field leads in both samples, with the same value. */
  ghost predicate LedAlike(m: Metric, n: Metric) {
    exists i: nat :: Leads(m, i) && Leads(n, i) && m.metadata[DIMENSION_FIELDS[i]] == n.metadata[DIMENSION_FIELDS[i]]
  }

  /** Two samples share a dimension exactly when neither has one, or the same field leads with the same value. */
  lemma DimensionsSeparateSeries(m: Metric, n: Metric)
    ensures Dimension(m) == Dimension(n) <==> (IsPlain(m) && IsPlain(n)) || LedAlike(m, n)
  {
    var i := PlainOrLed(m, 0);
    var j := PlainOrLed(n, 0);
    if !IsPlain(m) && !IsPlain(n) {
      LeadersSeparate(m, n, i, j);
    } else if !IsPlain(m) {
      LeadersSeparate(m, m, i, i);
    } else if !IsPlain(n) {
      LeadersSeparate(n, n, j, j);
    }
  }

  // ----- One rule, one sample -----

  predicate Replayed(st: RuleState, at: int) {
    st.lastAt.Some? && at <= st.lastAt.value
  }

  function Since(st: RuleState, at: int): int {
    if st.firstTrue.Some? then st.firstTrue.value else at
  }

  predicate Fires(rule: Rule, st: RuleState, at: int, value: real) {
    && !Replayed(st, at) && rule.operator.Holds(value, rule.threshold)
    && Max(0, at - Since(st, at)) >= rule.duration
  }

  predicate Clears(rule: Rule, st: RuleState, at: int, value: real) {
    !Replayed(st, at) && !rule.operator.Holds(value, rule.threshold) && st.active
  }

  function Advance(rule: Rule, st: RuleState, at: int, value: real): RuleState {
    if Replayed(st, at) then st
    else if !rule.operator.Holds(value, rule.threshold) then RuleState(None, Some(at), Some(value), false)
    else RuleState(Some(Since(st, at)), Some(at), Some(value), st.active || Fires(rule, st, at, value))
  }

  // ----- One metric, all rules -----

  predicate Applies(rule: Rule, m: Metric) {
    && rule.customer == m.machine.customer && rule.metric == m.name && rule.enabled
    && (rule.environment.None? || rule.environment.value == m.environment)
    && (rule.machine.None? || rule.machine.value == m.machine.pk)
  }

  /** A rule that is off, of another customer, metric, environment or machine never applies; any other does. */
  lemma AppliesExactlyWhenMeant(rule: Rule, m: Metric)
    ensures !Applies(rule, m) <==>
              || !rule.enabled || rule.customer != m.machine.customer || rule.metric != m.name
              || rule.environment !in {None, Some(m.environment)} || rule.machine !in {None, Some(m.machine.pk)}
  {
  }

  /** The operators compare the value with the threshold. */
  lemma OperatorsCompare(value: real, threshold: real, d: real)
    requires d > 0.0
    ensures GT.Holds(threshold + d, threshold) && !GT.Holds(threshold, threshold) && !GT.Holds(threshold - d, threshold)
    ensures LT.Holds(value, threshold) <==> GT.Holds(threshold, value)
    ensures GE.Holds(value, threshold) <==> !LT.Holds(value, threshold)
    ensures LE.Holds(value, threshold) <==> !GT.Holds(value, threshold)
    ensures NE.Holds(value, threshold) <==> GT.Holds(value, threshold) || LT.Holds(value, threshold)
    ensures EQ.Holds(value, threshold) <==> !NE.Holds(value, threshold)
  {
  }

  function KeyOf(rule: Rule, m: Metric): Key { Key(rule.pk, m.machine, Dimension(m)) }

  /** The states after one metric has been shown to the rules. */
  function Shown(rules: seq<Rule>, m: Metric, states: States): States {
    if m.value.None? || rules == [] then states
    else
      var last := rules[|rules| - 1];
      var before := Shown(rules[..|rules| - 1], m, states);
      if !Applies(last, m) then before
      else before[KeyOf(last, m) := Advance(last, Lookup(before, KeyOf(last, m)), m.timestamp, m.value.value)]
  }

  function ShownAll(rules: seq<Rule>, ms: seq<Metric>, states: States): States {
    if ms == [] then states
    else Shown(rules, ms[|ms| - 1], ShownAll(rules, ms[..|ms| - 1], states))
  }

  ghost predicate DistinctRules(rules: seq<Rule>) {
    forall i, j :: 0 <= i < j < |rules| ==> rules[i].pk != rules[j].pk
  }

  predicate Feeds(rule: Rule, m: Metric, key: Key) {
    m.value.Some? && Applies(rule, m) && KeyOf(rule, m) == key
  }

  /** A metric advances exactly the timers it feeds, by their own rule. */
  lemma {:induction false} ShownAdvancesOwnTimer(rules: seq<Rule>, m: Metric, states: States, i: nat, key: Key)
    requires DistinctRules(rules) && i < |rules| && key.rule == rules[i].pk
    ensures Lookup(Shown(rules, m, states), key)
         == if Feeds(rules[i], m, key) then Advance(rules[i], Lookup(states, key), m.timestamp, m.value.value)
            else Lookup(states, key)
  {
    if m.value.Some? {
      var init := rules[..|rules| - 1];
      if i == |init| {
        ShownLeavesOthers(init, m, states, key);
      } else {
        ShownAdvancesOwnTimer(init, m, states, i, key);
        assert rules[|init|].pk != rules[i].pk;
      }
    }
  }

  lemma {:induction false} ShownLeavesOthers(rules: seq<Rule>, m: Metric, states: States, key: Key)
    requires forall i :: 0 <= i < |rules| ==> rules[i].pk != key.rule
    ensures Lookup(Shown(rules, m, states), key) == Lookup(states, key)
    ensures key in Shown(rules, m, states) <==> key in states
  {
    if m.value.Some? && rules != [] {
      ShownLeavesOthers(rules[..|rules| - 1], m, states, key);
      assert rules[|rules| - 1].pk != key.rule;
    }
  }

  // ----- The declarative meaning of a timer -----

  datatype Sample = Sample(at: int, value: real)

  /** The samples of one timer, in evaluation order. */
  function Series(rule: Rule, ms: seq<Metric>, key: Key): seq<Sample> {
    if ms == [] then []
    else
      var last := ms[|ms| - 1];
      Series(rule, ms[..|ms| - 1], key)
      + if Feeds(rule, last, key) then [Sample(last.timestamp, last.value.value)] else []
  }

  /** Sample i is later than every sample before it. */
  predicate IsRecord(series: seq<Sample>, i: nat)
    requires i < |series|
  {
    forall j :: 0 <= j < i ==> series[j].at < series[i].at
  }

  /** The strict left-to-right maxima of a series. */
  function Accepted(series: seq<Sample>): seq<Sample> {
    if series == [] then []
    else
      var before := Accepted(series[..|series| - 1]);
      if IsRecord(series, |series| - 1) then before + [series[|series| - 1]] else before
  }

  predicate Matches(rule: Rule, s: Sample) { rule.operator.Holds(s.value, rule.threshold) }

  /** Where the longest matching suffix begins. */
  function RunStart(rule: Rule, accepted: seq<Sample>): (k: nat)
    ensures k <= |accepted|
    ensures forall i :: k <= i < |accepted| ==> Matches(rule, accepted[i])
    ensures k > 0 ==> !Matches(rule, accepted[k - 1])
  {
    if accepted == [] then 0
    else if Matches(rule, accepted[|accepted| - 1]) then RunStart(rule, accepted[..|accepted| - 1])
    else |accepted|
  }

  /** The timer that accepted samples deserve: when their trailing run of matches began, and whether it has lasted. */
  function TrailingRun(rule: Rule, accepted: seq<Sample>): RuleState {
    var n := |accepted|;
    var k := RunStart(rule, accepted);
    if n == 0 then FRESH
    else RuleState(if k < n then Some(accepted[k].at) else None,
                   Some(accepted[n - 1].at),
                   Some(accepted[n - 1].value),
                   k < n && accepted[n - 1].at - accepted[k].at >= rule.duration)
  }

  function Meaning(rule: Rule, series: seq<Sample>): RuleState { TrailingRun(rule, Accepted(series)) }

  /** No sample is later than the last accepted one. */
  lemma {:induction false} AcceptedCovers(series: seq<Sample>)
    ensures var r := Accepted(series); forall j :: 0 <= j < |series| ==> r != [] && series[j].at <= r[|r| - 1].at
  {
    if series != [] {
      AcceptedCovers(series[..|series| - 1]);
      if !IsRecord(series, |series| - 1) {
        var j :| 0 <= j < |series| - 1 && series[j].at >= series[|series| - 1].at;
        assert series[..|series| - 1][j] == series[j];
      }
    }
  }

  lemma {:induction false} AcceptedIncreases(series: seq<Sample>)
    ensures forall i, j :: 0 <= i < j < |Accepted(series)| ==> Accepted(series)[i].at < Accepted(series)[j].at
    ensures forall i :: 0 <= i < |Accepted(series)| ==> Accepted(series)[i] in series
  {
    if series != [] {
      AcceptedIncreases(series[..|series| - 1]);
      var before := Accepted(series[..|series| - 1]);
      forall i | 0 <= i < |before| && IsRecord(series, |series| - 1)
        ensures before[i].at < series[|series| - 1].at
      {
        var j :| 0 <= j < |series| - 1 && series[j] == before[i];
      }
    }
  }

  lemma AcceptedGrows(series: seq<Sample>, s: Sample)
    ensures Accepted(series + [s]) ==
            if Accepted(series) == [] || Accepted(series)[|Accepted(series)| - 1].at < s.at
            then Accepted(series) + [s] else Accepted(series)
  {
    var longer := series + [s];
    assert longer[..|series|] == series;
    AcceptedCovers(series);
    AcceptedIncreases(series);
    var accepted := Accepted(series);
    if accepted != [] {
      var newest := accepted[|accepted| - 1];
      var j :| 0 <= j < |series| && series[j] == newest;
      assert longer[j] == newest;
    }
  }

  lemma AdvanceExtendsTrailingRun(rule: Rule, accepted: seq<Sample>, s: Sample)
    requires forall i :: 0 <= i < |accepted| ==> accepted[i].at < s.at
    requires forall i, j :: 0 <= i < j < |accepted| ==> accepted[i].at < accepted[j].at
    ensures Advance(rule, TrailingRun(rule, accepted), s.at, s.value) == TrailingRun(rule, accepted + [s])
  {
    assert (accepted + [s])[..|accepted|] == accepted;
  }

  /** One step of the timer keeps its meaning. */
  lemma AdvanceKeepsMeaning(rule: Rule, series: seq<Sample>, s: Sample)
    ensures Advance(rule, Meaning(rule, series), s.at, s.value) == Meaning(rule, series + [s])
  {
    AcceptedGrows(series, s);
    AcceptedIncreases(series);
    var accepted := Accepted(series);
    if accepted == [] || accepted[|accepted| - 1].at < s.at {
      AdvanceExtendsTrailingRun(rule, accepted, s);
    }
  }

  /** Every stored timer is the meaning of the samples that fed it, whatever the order they came in. */
  lemma {:induction false} EveryTimerIsItsTrailingRun(rules: seq<Rule>, ms: seq<Metric>, i: nat, key: Key)
    requires DistinctRules(rules) && i < |rules| && key.rule == rules[i].pk
    ensures Lookup(ShownAll(rules, ms, map[]), key) == Meaning(rules[i], Series(rules[i], ms, key))
  {
    if ms != [] {
      var init, last := ms[..|ms| - 1], ms[|ms| - 1];
      EveryTimerIsItsTrailingRun(rules, init, i, key);
      ShownAdvancesOwnTimer(rules, last, ShownAll(rules, init, map[]), i, key);
      if Feeds(rules[i], last, key) {
        AdvanceKeepsMeaning(rules[i], Series(rules[i], init, key), Sample(last.timestamp, last.value.value));
      } else {
        assert Series(rules[i], ms, key) == Series(rules[i], init, key);
      }
    }
  }

  // ----- Timers and alerts together -----

  datatype EngineDb = EngineDb(states: States, alerts: Alerts.Db)

  function SourceOf(rule: Rule, m: Metric): Source { RuleSeries(rule.pk, Dimension(m)) }

  /** The alert a firing rule raises; its context is named by the metric only. */
  function RaiseFor(rule: Rule, m: Metric): Raise {
    Raise(m.machine, RuleThreshold, rule.severity, SourceOf(rule, m),
          map["metric_name" := m.name, "dimension" := Dimension(m)], None, rule.cooldown)
  }

  /** One applicable rule of evaluate_metric. */
  function Evaluated1(rule: Rule, m: Metric, db: EngineDb, now: int): EngineDb
    requires m.value.Some?
  {
    var st, at, value := Lookup(db.states, KeyOf(rule, m)), m.timestamp, m.value.value;
    EngineDb(
      db.states[KeyOf(rule, m) := Advance(rule, st, at, value)],
      if Fires(rule, st, at, value) then Raised(db.alerts, RaiseFor(rule, m), now)
      else if Clears(rule, st, at, value)
      then ResolvedOpen(db.alerts, m.machine, RuleThreshold, SourceOf(rule, m), "condition_cleared", now)
      else db.alerts)
  }

  /** evaluate_metric with the given rules. */
  function Evaluated(rules: seq<Rule>, m: Metric, db: EngineDb, now: int): EngineDb {
    if m.value.None? || rules == [] then db
    else
      var before := Evaluated(rules[..|rules| - 1], m, db, now);
      var last := rules[|rules| - 1];
      if Applies(last, m) then Evaluated1(last, m, before, now) else before
  }

  function EvaluatedAll(rules: seq<Rule>, ms: seq<Metric>, db: EngineDb, nows: seq<int>): EngineDb
    requires |nows| == |ms|
  {
    if ms == [] then db
    else
      var n := |ms| - 1;
      Evaluated(rules, ms[n], EvaluatedAll(rules, ms[..n], db, nows[..n]), nows[n])
  }

  /** How many rules one metric triggers. */
  function Triggered(rules: seq<Rule>, m: Metric, db: EngineDb, now: int): nat {
    if m.value.None? || rules == [] then 0
    else
      var init, last := rules[..|rules| - 1], rules[|rules| - 1];
      var st := Lookup(Evaluated(init, m, db, now).states, KeyOf(last, m));
      Triggered(init, m, db, now) + if Applies(last, m) && Fires(last, st, m.timestamp, m.value.value) then 1 else 0
  }

  /** Rule number i applies to the metric and fires, after the rules before it were evaluated. */
  predicate FiresAt(rules: seq<Rule>, i: nat, m: Metric, db: EngineDb, now: int) {
    && i < |rules| && Applies(rules[i], m) && m.value.Some?
    && var st := Lookup(Evaluated(rules[..i], m, db, now).states, KeyOf(rules[i], m));
       Fires(rules[i], st, m.timestamp, m.value.value)
  }

  function FiringRules(rules: seq<Rule>, m: Metric, db: EngineDb, now: int): set<nat> {
    set i: nat | i < |rules| && FiresAt(rules, i, m, db, now)
  }

  lemma FiresInLonger(rules: seq<Rule>, i: nat, m: Metric, db: EngineDb, now: int)
    requires i + 1 < |rules|
    ensures FiresAt(rules[..|rules| - 1], i, m, db, now) == FiresAt(rules, i, m, db, now)
  {
    assert rules[..|rules| - 1][..i] == rules[..i];
  }

  lemma FiringRulesOfLonger(rules: seq<Rule>, m: Metric, db: EngineDb, now: int)
    requires rules != []
    ensures FiringRules(rules[..|rules| - 1], m, db, now) == FiringRules(rules, m, db, now) - {|rules| - 1}
  {
    forall i: nat | i + 1 < |rules|
      ensures FiresAt(rules[..|rules| - 1], i, m, db, now) == FiresAt(rules, i, m, db, now)
    {
      FiresInLonger(rules, i, m, db, now);
    }
  }

  /** The count is that of the rules that fire. */
  lemma {:induction false} TriggeredCounts(rules: seq<Rule>, m: Metric, db: EngineDb, now: int)
    ensures Triggered(rules, m, db, now) == |FiringRules(rules, m, db, now)|
  {
    if m.value.Some? && rules != [] {
      TriggeredCounts(rules[..|rules| - 1], m, db, now);
      FiringRulesOfLonger(rules, m, db, now);
      CountOneMore(FiringRules(rules, m, db, now), |rules| - 1);
    } else {
      assert FiringRules(rules, m, db, now) == {};
    }
  }

  function TriggeredAll(rules: seq<Rule>, ms: seq<Metric>, db: EngineDb, nows: seq<int>): nat
    requires |nows| == |ms|
  {
    if ms == [] then 0
    else
      var n := |ms| - 1;
      TriggeredAll(rules, ms[..n], db, nows[..n])
      + Triggered(rules, ms[n], EvaluatedAll(rules, ms[..n], db, nows[..n]), nows[n])
  }

  lemma {:induction false} EvaluatedStates(rules: seq<Rule>, m: Metric, db: EngineDb, now: int)
    ensures Evaluated(rules, m, db, now).states == Shown(rules, m, db.states)
  {
    if m.value.Some? && rules != [] {
      EvaluatedStates(rules[..|rules| - 1], m, db, now);
    }
  }

  /** Timers do not depend on the alerts or on the wall clock. */
  lemma {:induction false} EvaluatedAllStates(rules: seq<Rule>, ms: seq<Metric>, db: EngineDb, nows: seq<int>)
    requires |nows| == |ms|
    ensures EvaluatedAll(rules, ms, db, nows).states == ShownAll(rules, ms, db.states)
  {
    if ms != [] {
      var n := |ms| - 1;
      EvaluatedAllStates(rules, ms[..n], db, nows[..n]);
      EvaluatedStates(rules, ms[n], EvaluatedAll(rules, ms[..n], db, nows[..n]), nows[n]);
    }
  }

  /** The engine: its rules, its timers and the alert service it drives. */
  class Engine {
    var rules: seq<Rule>
    var states: States
    const service: AlertService

    constructor (rules: seq<Rule>, service: AlertService)
      ensures this.rules == rules && states == map[] && this.service == service
    {
      this.rules, states, this.service := rules, map[], service;
    }

    function State(): EngineDb
      reads this, service
    {
      EngineDb(states, service.State())
    }

    /** Shows one metric to every rule that applies to it. */
    method EvaluateMetric(m: Metric, now: int) returns (triggered: seq<nat>)
      requires UniqueOpen(service.alerts)
      modifies this`states, service
      ensures State() == Evaluated(rules, m, old(State()), now) && UniqueOpen(service.alerts)
      ensures |triggered| == Triggered(rules, m, old(State()), now)
    {
      triggered := [];
      if m.value.None? {
        return;
      }
      ghost var start := State();
      var value := m.value.value;
      for i := 0 to |rules|
        invariant UniqueOpen(service.alerts)
        invariant State() == Evaluated(rules[..i], m, start, now)
        invariant |triggered| == Triggered(rules[..i], m, start, now)
      {
        assert rules[..i + 1][..i] == rules[..i];
        if Applies(rules[i], m) {
          var fired := EvaluateRule(rules[i], m, now);
          triggered := triggered + fired;
        }
      }
      assert rules[..|rules|] == rules;
    }

    /** The body of the loop: one applicable rule. */
    method EvaluateRule(rule: Rule, m: Metric, now: int) returns (fired: seq<nat>)
      requires UniqueOpen(service.alerts) && m.value.Some?
      modifies this`states, service
      ensures State() == Evaluated1(rule, m, old(State()), now) && UniqueOpen(service.alerts)
      ensures |fired| == if Fires(rule, Lookup(old(states), KeyOf(rule, m)), m.timestamp, m.value.value) then 1 else 0
    {
      fired := [];
      var key, at, value := KeyOf(rule, m), m.timestamp, m.value.value;
      var state := if key in states then states[key] else FRESH;
      if state.lastAt.Some? && at <= state.lastAt.value {
        states := states[key := state];
        return;
      }
      var matches := rule.operator.Holds(value, rule.threshold);
      state := state.(lastAt := Some(at), lastValue := Some(value));
      if !matches {
        var wasActive := state.active;
        states := states[key := state.(firstTrue := None, active := false)];
        if wasActive {
          var _ := service.ResolveOpenAlert(m.machine, RuleThreshold, SourceOf(rule, m), "condition_cleared", now);
        }
        return;
      }
      if state.firstTrue.None? {
        state := state.(firstTrue := Some(at));
      }
      var elapsed := Max(0, at - state.firstTrue.value);
      if elapsed >= rule.duration {
        var pk, _ := service.CreateOrUpdateAlert(RaiseFor(rule, m), now);
        state := state.(active := true);
        fired := [pk];
      }
      states := states[key := state];
    }

    /** The metric part of evaluate_all_rules: the window in time order, each sample once. */
    method EvaluateWindow(window: seq<Metric>, nows: seq<int>) returns (count: nat)
      requires UniqueOpen(service.alerts) && |nows| == |window|
      modifies this`states, service
      ensures State() == EvaluatedAll(rules, window, old(State()), nows) && UniqueOpen(service.alerts)
      ensures states == ShownAll(rules, window, old(states))
      ensures count == TriggeredAll(rules, window, old(State()), nows)
    {
      ghost var start := State();
      count := 0;
      for i := 0 to |window|
        invariant UniqueOpen(service.alerts)
        invariant State() == EvaluatedAll(rules, window[..i], start, nows[..i])
        invariant count == TriggeredAll(rules, window[..i], start, nows[..i])
      {
        assert window[..i + 1][..i] == window[..i] && nows[..i + 1][..i] == nows[..i];
        var triggered := EvaluateMetric(window[i], nows[i]);
        count := count + |triggered|;
      }
      assert window[..|window|] == window && nows[..|nows|] == nows;
      EvaluatedAllStates(rules, window, start, nows);
    }
  }
}
