/**
 * Trend analysis: a straight line through the recent samples of each metric, and how soon the
 * rolling average, moving along that line, reaches the threshold of the metric's rule.
 *
 * The two queries are parameters: the rows come sorted by metric and time, without missing
 * values, and rules gives the rule each metric is measured against.
 */
module Trend {
  import opened Common
  import opened LeastSquares

  datatype Sample = Sample(metric: string, timestamp: real, value: real, unit: string)

  datatype Bound = Gt | Ge | Lt | Le

  datatype Rule = Rule(bound: Bound, threshold: real)

  datatype Direction = Increasing | Decreasing | Stable

  datatype Confidence = High | Medium | Low

  datatype Report = Report(
    metric: string,
    unit: string,
    count: nat,
    last: real,
    average: real,
    perHour: real,
    direction: Direction,
    risk: nat,
    rule: Option<Rule>,
    breachIn: Option<real>,
    breached: bool,
    confidence: Confidence)

  datatype Group = Group(metric: string, samples: seq<Sample>)

  const HOUR := 3600.0
  const DAY := 86400.0
  const HORIZON := 3650.0 * DAY

  // ----- One metric -----

  function Span(samples: seq<Sample>): real
    requires samples != []
  {
    samples[|samples| - 1].timestamp - samples[0].timestamp
  }

  /** Seconds since the first sample against values. */
  function PointsOf(samples: seq<Sample>): (r: seq<Point>)
    ensures |r| == |samples|
    ensures forall i :: 0 <= i < |r| ==> r[i] == Point(samples[i].timestamp - samples[0].timestamp, samples[i].value)
  {
    seq(|samples|, i requires 0 <= i < |samples| => Point(samples[i].timestamp - samples[0].timestamp,
        samples[i].value))
  }

  function Total(samples: seq<Sample>): real {
    if samples == [] then 0.0 else Total(samples[..|samples| - 1]) + samples[|samples| - 1].value
  }

  /** The mean of the last five samples, or of all when there are fewer. */
  function Rolling(samples: seq<Sample>): real
    requires samples != []
  {
    var n := Min(5, |samples|);
    Total(samples[|samples| - n..]) / n as real
  }

  function Epsilon(average: real): (e: real)
    ensures e > 0.0
  {
    var scaled := (if average < 0.0 then -average else average) * 0.001;
    if scaled > 0.000000001 then scaled else 0.000000001
  }

  function DirectionOf(perHour: real, average: real): Direction {
    if perHour > Epsilon(average) then Increasing
    else if perHour < -Epsilon(average) then Decreasing
    else Stable
  }

  function ConfidenceOf(count: nat, span: real): Confidence {
    if count >= 30 && span >= 6.0 * HOUR then Confidence.High
    else if count >= 10 && span >= HOUR then Confidence.Medium
    else Confidence.Low
  }

  predicate Breached(rule: Rule, value: real) {
    if rule.bound.Gt? || rule.bound.Ge? then value >= rule.threshold else value <= rule.threshold
  }

  predicate Toward(rule: Rule, slope: real) {
    if rule.bound.Gt? || rule.bound.Ge? then slope > 0.0 else slope < 0.0
  }

  function RiskIn(seconds: real): nat {
    if seconds <= HOUR then 90
    else if seconds <= DAY then 70
    else if seconds <= 7.0 * DAY then 50
    else 20
  }

  /** The risk and the seconds until the predicted breach. */
  function Estimate(rule: Rule, average: real, slope: real): (nat, Option<real>) {
    if Breached(rule, average) then (100, None)
    else if !Toward(rule, slope) then (0, None)
    else
      var seconds := (rule.threshold - average) / slope;
      if 0.0 < seconds <= HORIZON then (RiskIn(seconds), Some(seconds)) else (0, None)
  }

  /** The report on one metric; None when the metric is skipped. */
  function Analyzed(g: Group, rule: Option<Rule>): Option<Report>
    requires g.samples != []
  {
    if |g.samples| < 3 || Span(g.samples) <= 0.0 then None
    else
      SpanMakesALine(g.samples);
      var slope := Fit(SumsOf(PointsOf(g.samples))).slope;
      var average := Rolling(g.samples);
      var last := g.samples[|g.samples| - 1];
      var (risk, breachIn) := if rule.None? then (0, None) else Estimate(rule.value, average, slope);
      Some(Report(g.metric, last.unit, |g.samples|, last.value, average,
                  slope * 3600.0, DirectionOf(slope * 3600.0, average),
                  risk, rule, breachIn, rule.Some? && Breached(rule.value, average),
                  ConfidenceOf(|g.samples|, Span(g.samples))))
  }

  /** A positive span is all the fit needs. */
  lemma SpanMakesALine(samples: seq<Sample>)
    requires |samples| >= 2 && Span(samples) > 0.0
    ensures var s := SumsOf(PointsOf(samples)); s.n > 0.0 && Determinant(s) > 0.0
  {
    DeterminantIsPositive(PointsOf(samples), 0, |samples| - 1);
  }

  // ----- All metrics -----

  /** The place of the metric's group, or of a new one. */
  function GroupIndex(groups: seq<Group>, metric: string): (i: nat)
    ensures i <= |groups|
    ensures i < |groups| ==> groups[i].metric == metric
    ensures forall k :: 0 <= k < i ==> groups[k].metric != metric
  {
    if groups == [] || groups[0].metric == metric then 0 else 1 + GroupIndex(groups[1..], metric)
  }

  function Grouped(groups: seq<Group>, row: Sample): seq<Group> {
    var i := GroupIndex(groups, row.metric);
    if i < |groups| then groups[i := Group(row.metric, groups[i].samples + [row])]
    else groups + [Group(row.metric, [row])]
  }

  function GroupsOf(rows: seq<Sample>): seq<Group> {
    if rows == [] then [] else Grouped(GroupsOf(rows[..|rows| - 1]), rows[|rows| - 1])
  }

  function Named(rows: seq<Sample>, metric: string): seq<Sample> {
    if rows == [] then []
    else Named(rows[..|rows| - 1], metric) + if rows[|rows| - 1].metric == metric then [rows[|rows| - 1]] else []
  }

  /** The groups are the rows of each metric, in order, each metric once. */
  ghost predicate Partitions(groups: seq<Group>, rows: seq<Sample>) {
    && (forall i :: 0 <= i < |groups| ==> groups[i].samples == Named(rows, groups[i].metric) != [])
    && (forall i, j :: 0 <= i < j < |groups| ==> groups[i].metric != groups[j].metric)
    && (forall metric :: Named(rows, metric) != [] ==> GroupIndex(groups, metric) < |groups|)
  }

  /** Appending a row changes the one group of its metric, or makes it. */
  lemma GroupedRows(groups: seq<Group>, row: Sample)
    ensures var after, at := Grouped(groups, row), GroupIndex(groups, row.metric);
            && |groups| <= |after| && at < |after|
            && after[at] == Group(row.metric, (if at < |groups| then groups[at].samples else []) + [row])
            && (forall i :: 0 <= i < |after| && i != at ==> i < |groups| && after[i] == groups[i])
            && (forall i :: 0 <= i < |groups| ==> after[i].metric == groups[i].metric)
  {
  }

  lemma NamedLonger(rows: seq<Sample>, row: Sample, metric: string)
    ensures Named(rows + [row], metric) == Named(rows, metric) + if row.metric == metric then [row] else []
  {
    assert (rows + [row])[..|rows + [row]| - 1] == rows;
  }

  lemma IndexFinds(groups: seq<Group>, i: nat)
    requires i < |groups|
    ensures GroupIndex(groups, groups[i].metric) < |groups|
  {
  }

  lemma GroupedMetrics(groups: seq<Group>, row: Sample, metric: string)
    requires metric == row.metric || GroupIndex(groups, metric) < |groups|
    ensures GroupIndex(Grouped(groups, row), metric) < |Grouped(groups, row)|
  {
    GroupedRows(groups, row);
    IndexFinds(Grouped(groups, row), GroupIndex(groups, metric));
  }

  lemma GroupedSamples(groups: seq<Group>, rows: seq<Sample>, row: Sample, i: nat)
    requires Partitions(groups, rows) && i < |Grouped(groups, row)|
    ensures var g := Grouped(groups, row)[i]; g.samples == Named(rows + [row], g.metric) != []
  {
    GroupedRows(groups, row);
    NamedLonger(rows, row, Grouped(groups, row)[i].metric);
  }

  lemma GroupingStep(groups: seq<Group>, rows: seq<Sample>, row: Sample)
    requires Partitions(groups, rows)
    ensures Partitions(Grouped(groups, row), rows + [row])
  {
    var after := Grouped(groups, row);
    GroupedRows(groups, row);
    forall i | 0 <= i < |after|
      ensures after[i].samples == Named(rows + [row], after[i].metric) != []
    {
      GroupedSamples(groups, rows, row, i);
    }
    forall metric | Named(rows + [row], metric) != []
      ensures GroupIndex(after, metric) < |after|
    {
      NamedLonger(rows, row, metric);
      GroupedMetrics(groups, row, metric);
    }
  }

  lemma {:induction false} GroupsPartitionTheRows(rows: seq<Sample>)
    ensures Partitions(GroupsOf(rows), rows)
  {
    if rows != [] {
      GroupsPartitionTheRows(rows[..|rows| - 1]);
      GroupingStep(GroupsOf(rows[..|rows| - 1]), rows[..|rows| - 1], rows[|rows| - 1]);
      assert rows[..|rows| - 1] + [rows[|rows| - 1]] == rows;
    }
  }

  function RuleFor(rules: map<string, Rule>, metric: string): Option<Rule> {
    if metric in rules then Some(rules[metric]) else None
  }

  function ReportsOf(groups: seq<Group>, rules: map<string, Rule>): seq<Report>
    requires NoneEmpty(groups)
  {
    if groups == [] then []
    else
      var g := groups[|groups| - 1];
      var report := Analyzed(g, RuleFor(rules, g.metric));
      ReportsOf(groups[..|groups| - 1], rules) + if report.Some? then [report.value] else []
  }

  /** The metric is reported on: at least three samples, not all at one time. */
  predicate Reportable(g: Group)
    requires g.samples != []
  {
    |g.samples| >= 3 && Span(g.samples) > 0.0
  }

  ghost predicate NoneEmpty(groups: seq<Group>) {
    forall i :: 0 <= i < |groups| ==> groups[i].samples != []
  }

  /** How many of the first n groups are reported on. */
  function Rank(groups: seq<Group>, n: nat): nat
    requires n <= |groups| && NoneEmpty(groups)
  {
    if n == 0 then 0 else Rank(groups, n - 1) + if Reportable(groups[n - 1]) then 1 else 0
  }

  lemma {:induction false} RankInPrefix(groups: seq<Group>, m: nat, n: nat)
    requires n <= m <= |groups| && NoneEmpty(groups)
    ensures NoneEmpty(groups[..m]) && Rank(groups[..m], n) == Rank(groups, n)
  {
    if n > 0 {
      RankInPrefix(groups, m, n - 1);
    }
  }

  lemma {:induction false} ReportCount(groups: seq<Group>, rules: map<string, Rule>)
    requires NoneEmpty(groups)
    ensures |ReportsOf(groups, rules)| == Rank(groups, |groups|)
  {
    if groups != [] {
      ReportCount(groups[..|groups| - 1], rules);
      RankInPrefix(groups, |groups| - 1, |groups| - 1);
    }
  }

  /** Each metric with enough samples has its report, at its rank among them. */
  lemma {:induction false} ReportAt(groups: seq<Group>, rules: map<string, Rule>, i: nat)
    requires NoneEmpty(groups) && i < |groups| && Reportable(groups[i])
    ensures var reports := ReportsOf(groups, rules);
            && Rank(groups, i) < |reports|
            && Some(reports[Rank(groups, i)]) == Analyzed(groups[i], RuleFor(rules, groups[i].metric))
  {
    var m := |groups| - 1;
    RankInPrefix(groups, m, i);
    if i < m {
      ReportAt(groups[..m], rules, i);
    } else {
      ReportCount(groups[..m], rules);
    }
  }

  /** And every report is one of those. */
  lemma {:induction false} ReportComesFrom(groups: seq<Group>, rules: map<string, Rule>, k: nat) returns (i: nat)
    requires NoneEmpty(groups) && k < |ReportsOf(groups, rules)|
    ensures i < |groups| && Reportable(groups[i]) && Rank(groups, i) == k
  {
    var m := |groups| - 1;
    if k < |ReportsOf(groups[..m], rules)| {
      i := ReportComesFrom(groups[..m], rules, k);
      RankInPrefix(groups, m, i);
    } else {
      i := m;
      ReportCount(groups[..m], rules);
      RankInPrefix(groups, m, m);
    }
  }

  // ----- Sorting by risk -----

  /** The report goes behind all of its own risk. */
  function Placed(sorted: seq<Report>, r: Report): seq<Report> {
    if sorted == [] then [r]
    else
      var last := sorted[|sorted| - 1];
      if last.risk >= r.risk then sorted + [r] else Placed(sorted[..|sorted| - 1], r) + [last]
  }

  function ByRisk(reports: seq<Report>): seq<Report> {
    if reports == [] then [] else Placed(ByRisk(reports[..|reports| - 1]), reports[|reports| - 1])
  }

  function Only(r: Report, risk: nat): seq<Report> {
    if r.risk == risk then [r] else []
  }

  function WithRisk(reports: seq<Report>, risk: nat): seq<Report> {
    if reports == [] then []
    else WithRisk(reports[..|reports| - 1], risk) + Only(reports[|reports| - 1], risk)
  }

  predicate Falling(reports: seq<Report>) {
    forall i, j :: 0 <= i < j < |reports| ==> reports[i].risk >= reports[j].risk
  }

  lemma {:induction false} PlacedFalls(sorted: seq<Report>, r: Report)
    requires Falling(sorted)
    ensures Falling(Placed(sorted, r)) && |Placed(sorted, r)| == |sorted| + 1
    ensures forall x :: x in Placed(sorted, r) ==> x == r || x in sorted
  {
    if sorted != [] {
      var init, last := sorted[..|sorted| - 1], sorted[|sorted| - 1];
      assert sorted == init + [last];
      if last.risk < r.risk {
        PlacedFalls(init, r);
        LowestLast(Placed(init, r), last);
      } else {
        LowestLast(sorted, r);
      }
    }
  }

  lemma LowestLast(reports: seq<Report>, last: Report)
    requires Falling(reports) && forall x :: x in reports ==> x.risk >= last.risk
    ensures Falling(reports + [last])
  {
  }

  lemma WithRiskLonger(reports: seq<Report>, r: Report, risk: nat)
    ensures WithRisk(reports + [r], risk) == WithRisk(reports, risk) + Only(r, risk)
  {
    assert (reports + [r])[..|reports|] == reports;
  }

  lemma OneOfTwo(w: seq<Report>, a: seq<Report>, b: seq<Report>)
    requires a == [] || b == []
    ensures (w + a) + b == (w + b) + a
  {
  }

  lemma {:induction false} PlacedIsStable(sorted: seq<Report>, r: Report, risk: nat)
    ensures WithRisk(Placed(sorted, r), risk) == WithRisk(sorted, risk) + Only(r, risk)
  {
    WithRiskLonger(sorted, r, risk);
    if sorted == [] {
      assert sorted + [r] == [r];
    } else {
      var init, last := sorted[..|sorted| - 1], sorted[|sorted| - 1];
      if last.risk < r.risk {
        PlacedIsStable(init, r, risk);
        WithRiskLonger(Placed(init, r), last, risk);
        OneOfTwo(WithRisk(init, risk), Only(r, risk), Only(last, risk));
      }
    }
  }

  /** The result is in falling order of risk, and reports of one risk keep their order; so it is a permutation. */
  lemma {:induction false} ByRiskSortsStably(reports: seq<Report>, risk: nat)
    ensures Falling(ByRisk(reports)) && |ByRisk(reports)| == |reports|
    ensures WithRisk(ByRisk(reports), risk) == WithRisk(reports, risk)
  {
    if reports != [] {
      ByRiskSortsStably(reports[..|reports| - 1], risk);
      PlacedFalls(ByRisk(reports[..|reports| - 1]), reports[|reports| - 1]);
      PlacedIsStable(ByRisk(reports[..|reports| - 1]), reports[|reports| - 1], risk);
    }
  }

  /** analyze_machine_trends over the queried rows. */
  method AnalyzeMachineTrends(rows: seq<Sample>, rules: map<string, Rule>, maxMetrics: nat)
    returns (results: seq<Report>)
    ensures forall i :: 0 <= i < |GroupsOf(rows)| ==> GroupsOf(rows)[i].samples != []
    ensures results == ByRisk(ReportsOf(GroupsOf(rows)[..Min(maxMetrics, |GroupsOf(rows)|)], rules))
  {
    GroupsPartitionTheRows(rows);
    var groups := [];
    for i := 0 to |rows|
      invariant groups == GroupsOf(rows[..i])
    {
      assert rows[..i + 1][..i] == rows[..i];
      groups := Grouped(groups, rows[i]);
    }
    assert rows[..|rows|] == rows;
    results := Analyze(groups[..Min(maxMetrics, |groups|)], rules);
    results := ByRisk(results);
  }

  /** The analysis loop. */
  method Analyze(groups: seq<Group>, rules: map<string, Rule>) returns (results: seq<Report>)
    requires forall i :: 0 <= i < |groups| ==> groups[i].samples != []
    ensures results == ReportsOf(groups, rules)
  {
    results := [];
    for i := 0 to |groups|
      invariant results == ReportsOf(groups[..i], rules)
    {
      assert groups[..i + 1][..i] == groups[..i];
      var report := Analyzed(groups[i], RuleFor(rules, groups[i].metric));
      if report.None? {
        continue;
      }
      results := results + [report.value];
    }
    assert groups[..|groups|] == groups;
  }

  // ----- What the estimates mean -----

  lemma QuotientIsPositive(a: real, b: real)
    requires (a > 0.0 && b > 0.0) || (a < 0.0 && b < 0.0)
    ensures a / b > 0.0 && b * (a / b) == a
  {
  }

  /** The rolling average after some seconds on the line. */
  function Moved(average: real, slope: real, seconds: real): real {
    average + slope * seconds
  }

  /** A metric not yet breached and moving toward its threshold gets there at a positive time, exactly. */
  lemma TowardCrossesLater(rule: Rule, average: real, slope: real)
    requires !Breached(rule, average) && Toward(rule, slope)
    ensures var seconds := (rule.threshold - average) / slope;
            seconds > 0.0 && Moved(average, slope, seconds) == rule.threshold
  {
    QuotientIsPositive(rule.threshold - average, slope);
  }

  /** The rolling average, moved along the slope, breaches the rule at the time and not before. */
  ghost predicate FirstBreach(rule: Rule, average: real, slope: real, seconds: real) {
    && seconds >= 0.0 && Breached(rule, Moved(average, slope, seconds))
    && forall t: real :: 0.0 <= t < seconds ==> !Breached(rule, Moved(average, slope, t))
  }

  lemma ScaledOrder(slope: real, a: real, b: real)
    requires a < b
    ensures slope > 0.0 ==> slope * a < slope * b
    ensures slope < 0.0 ==> slope * a > slope * b
  {
    assert slope * b - slope * a == slope * (b - a);
    if slope > 0.0 {
      assert slope * (b - a) > 0.0;
    } else if slope < 0.0 {
      assert -slope * (b - a) > 0.0;
    }
  }

  lemma ScaledSign(slope: real, t: real)
    requires t >= 0.0
    ensures slope >= 0.0 ==> slope * t >= 0.0
    ensures slope <= 0.0 ==> slope * t <= 0.0
  {
    if t > 0.0 {
      ScaledOrder(slope, 0.0, t);
    }
  }

  lemma StaysClear(rule: Rule, average: real, slope: real, t: real)
    requires !Breached(rule, average) && t >= 0.0
    requires Toward(rule, slope) ==> t < (rule.threshold - average) / slope
    ensures !Breached(rule, Moved(average, slope, t))
  {
    if Toward(rule, slope) {
      TowardCrossesLater(rule, average, slope);
      ScaledOrder(slope, t, (rule.threshold - average) / slope);
    } else {
      ScaledSign(slope, t);
    }
  }

  lemma OneFirstBreach(rule: Rule, average: real, slope: real, a: real, b: real)
    requires FirstBreach(rule, average, slope, a) && FirstBreach(rule, average, slope, b)
    ensures a == b
  {
  }

  /** A breach is predicted exactly when the extrapolation breaches within ten years, and for the first such moment. */
  lemma PredictionIsTheFirstBreach(rule: Rule, average: real, slope: real, seconds: real)
    requires !Breached(rule, average)
    ensures Estimate(rule, average, slope).1 == Some(seconds) <==>
              FirstBreach(rule, average, slope, seconds) && seconds <= 3650.0 * 86400.0
  {
    if Toward(rule, slope) {
      TowardCrossesLater(rule, average, slope);
      var crossing := (rule.threshold - average) / slope;
      forall t: real | 0.0 <= t < crossing
        ensures !Breached(rule, Moved(average, slope, t))
      {
        StaysClear(rule, average, slope, t);
      }
      assert FirstBreach(rule, average, slope, crossing);
      if FirstBreach(rule, average, slope, seconds) {
        OneFirstBreach(rule, average, slope, seconds, crossing);
      }
    } else if seconds >= 0.0 {
      StaysClear(rule, average, slope, seconds);
    }
  }

  /** Risk is full exactly when the rule is breached, and nothing exactly when no breach is in sight. */
  lemma RiskLevels(rule: Rule, average: real, slope: real)
    ensures var (risk, breachIn) := Estimate(rule, average, slope);
            && (risk == 100 <==> Breached(rule, average))
            && (risk == 0 <==> !Breached(rule, average) && breachIn.None?)
            && risk in {0, 20, 50, 70, 90, 100}
  {
  }

  /** A breach that comes later is never rated higher; one out of sight is rated lowest. */
  lemma RiskFallsWithTime(rule: Rule, average: real, slope: real, other: Rule, value: real, rate: real)
    requires !Breached(rule, average) && !Breached(other, value)
    requires var s, t := Estimate(rule, average, slope).1, Estimate(other, value, rate).1;
             s.Some? && (t.Some? ==> s.value <= t.value)
    ensures Estimate(rule, average, slope).0 >= Estimate(other, value, rate).0
  {
  }

  /** Samples on a straight line give back its rate, whatever the time of the first sample. */
  lemma StraightSamplesGiveTheirRate(g: Group, rule: Option<Rule>, rate: real, offset: real)
    requires |g.samples| >= 3 && Span(g.samples) > 0.0
    requires forall i :: 0 <= i < |g.samples| ==> g.samples[i].value == rate * g.samples[i].timestamp + offset
    ensures Analyzed(g, rule).Some? && Analyzed(g, rule).value.perHour == rate * 3600.0
  {
    var points, origin := PointsOf(g.samples), g.samples[0].timestamp;
    var line := Line(rate, rate * origin + offset);
    forall k | 0 <= k < |points|
      ensures points[k].y == line.slope * points[k].x + line.intercept
    {
      assert rate * (g.samples[k].timestamp - origin) == rate * g.samples[k].timestamp - rate * origin;
    }
    ExactDataGiveTheirLine(points, 0, |points| - 1, line);
  }

  lemma {:induction false} TotalOfConstants(samples: seq<Sample>, v: real)
    requires forall i :: 0 <= i < |samples| ==> samples[i].value == v
    ensures Total(samples) == |samples| as real * v
  {
    if samples != [] {
      TotalOfConstants(samples[..|samples| - 1], v);
      assert (|samples| - 1) as real * v + v == |samples| as real * v;
    }
  }

  lemma RollingOfConstants(samples: seq<Sample>, v: real)
    requires samples != [] && forall i :: 0 <= i < |samples| ==> samples[i].value == v
    ensures Rolling(samples) == v
  {
    var n := Min(5, |samples|);
    TotalOfConstants(samples[|samples| - n..], v);
    assert (n as real * v) / n as real == v;
  }

  /** Constant samples are stable, average to their value, and are at risk only if they breach. */
  lemma ConstantSamplesAreStable(g: Group, rule: Option<Rule>, v: real)
    requires |g.samples| >= 3 && Span(g.samples) > 0.0
    requires forall i :: 0 <= i < |g.samples| ==> g.samples[i].value == v
    ensures var r := Analyzed(g, rule);
            && r.Some? && r.value.direction.Stable? && r.value.average == v && r.value.breachIn.None?
            && r.value.risk == if rule.Some? && Breached(rule.value, v) then 100 else 0
  {
    StraightSamplesGiveTheirRate(g, rule, 0.0, v);
    RollingOfConstants(g.samples, v);
  }

  // ----- The rolling average and the direction -----

  /** Older samples than the last five do not matter to the rolling average. */
  lemma RollingForgets(older: seq<Sample>, newer: seq<Sample>)
    requires |newer| >= 5
    ensures Rolling(older + newer) == Rolling(newer)
  {
    var all := older + newer;
    assert all[|all| - 5..] == newer[|newer| - 5..];
  }

  /** The samples with their values mapped to a * value + c. */
  predicate Mapped(samples: seq<Sample>, mapped: seq<Sample>, a: real, c: real) {
    && |mapped| == |samples|
    && forall i :: 0 <= i < |samples| ==> mapped[i] == samples[i].(value := Affine(samples[i].value, 1.0, a, c))
  }

  function Affine(x: real, n: real, a: real, c: real): real { a * x + n * c }

  lemma AffineStep(x: real, n: real, v: real, a: real, c: real)
    ensures Affine(x, n, a, c) + Affine(v, 1.0, a, c) == Affine(x + v, n + 1.0, a, c)
  {
  }

  lemma {:induction false} TotalOfMapped(samples: seq<Sample>, mapped: seq<Sample>, a: real, c: real)
    requires Mapped(samples, mapped, a, c)
    ensures Total(mapped) == Affine(Total(samples), |samples| as real, a, c)
  {
    if samples != [] {
      var init, last := samples[..|samples| - 1], samples[|samples| - 1];
      TotalOfMapped(init, mapped[..|mapped| - 1], a, c);
      AffineStep(Total(init), |init| as real, last.value, a, c);
    }
  }

  lemma AffineQuotient(total: real, n: real, a: real, c: real)
    requires n != 0.0
    ensures Affine(total, n, a, c) / n == Affine(total / n, 1.0, a, c)
  {
    assert n * (a * (total / n) + c) == a * (n * (total / n)) + n * c;
  }

  function Newest(samples: seq<Sample>): seq<Sample> {
    samples[|samples| - Min(5, |samples|)..]
  }

  lemma RollingOfNewest(samples: seq<Sample>)
    requires samples != []
    ensures |Newest(samples)| > 0 && Rolling(samples) == Total(Newest(samples)) / |Newest(samples)| as real
  {
  }

  /** The rolling average follows a change of unit. */
  lemma RollingFollowsUnits(samples: seq<Sample>, mapped: seq<Sample>, a: real, c: real)
    requires samples != [] && Mapped(samples, mapped, a, c)
    ensures Rolling(mapped) == Affine(Rolling(samples), 1.0, a, c)
  {
    RollingOfNewest(samples);
    RollingOfNewest(mapped);
    TotalOfMapped(Newest(samples), Newest(mapped), a, c);
    AffineQuotient(Total(Newest(samples)), |Newest(samples)| as real, a, c);
  }

  /** The point with its value negated, and what becomes of the sums. */
  function Flipped(p: Point): Point { Point(p.x, -p.y) }

  function Mirror(s: Sums): Sums { Sums(s.n, s.x, -s.y, s.xx, -s.xy) }

  lemma NegatedProduct(a: real, b: real)
    ensures a * -b == -(a * b)
  {
  }

  lemma FlippedProducts(p: Point, q: Point)
    requires q == Flipped(p)
    ensures q.x * q.x == p.x * p.x && q.x * q.y == -(p.x * p.y)
  {
    NegatedProduct(p.x, p.y);
  }

  lemma PlusOfProducts(s: Sums, p: Point, xx: real, xy: real)
    requires xx == p.x * p.x && xy == p.x * p.y
    ensures Plus(s, p) == Sums(s.n + 1.0, s.x + p.x, s.y + p.y, s.xx + xx, s.xy + xy)
  {
  }

  lemma MirroredSums(s: Sums, x: real, y: real, xx: real, xy: real)
    ensures Mirror(Sums(s.n + 1.0, s.x + x, s.y + y, s.xx + xx, s.xy + xy))
         == Sums(s.n + 1.0, s.x + x, -s.y + -y, s.xx + xx, -s.xy + -xy)
  {
  }

  lemma MirrorStep(s: Sums, p: Point)
    ensures Plus(Mirror(s), Flipped(p)) == Mirror(Plus(s, p))
  {
    var q, xx, xy := Flipped(p), p.x * p.x, p.x * p.y;
    FlippedProducts(p, q);
    PlusOfProducts(s, p, xx, xy);
    PlusOfProducts(Mirror(s), q, xx, -xy);
    MirroredSums(s, p.x, p.y, xx, xy);
  }

  predicate AllFlipped(points: seq<Point>, mirrored: seq<Point>) {
    |mirrored| == |points| && forall i :: 0 <= i < |points| ==> mirrored[i] == Flipped(points[i])
  }

  lemma {:induction false} SumsOfMirrored(points: seq<Point>, mirrored: seq<Point>)
    requires AllFlipped(points, mirrored)
    ensures SumsOf(mirrored) == Mirror(SumsOf(points))
  {
    if points != [] {
      var init, p := points[..|points| - 1], points[|points| - 1];
      assert mirrored[|points| - 1] == Flipped(p);
      SumsOfMirrored(init, mirrored[..|points| - 1]);
      MirrorStep(SumsOf(init), p);
    }
  }

  lemma FitOfMirrored(s: Sums)
    requires s.n != 0.0 && Determinant(s) != 0.0
    ensures Determinant(Mirror(s)) == Determinant(s) && Fit(Mirror(s)).slope == -Fit(s).slope
  {
    var d := Determinant(s);
    assert s.n * -s.xy - s.x * -s.y == -(s.n * s.xy - s.x * s.y);
    assert (-(s.n * s.xy - s.x * s.y)) / d == -((s.n * s.xy - s.x * s.y) / d);
  }

  function Opposite(d: Direction): Direction {
    match d
    case Increasing => Decreasing
    case Decreasing => Increasing
    case Stable => Stable
  }

  lemma DirectionOfMirrored(perHour: real, average: real)
    ensures DirectionOf(-perHour, -average) == Opposite(DirectionOf(perHour, average))
  {
  }

  /** The mirrored samples have the mirrored line, rolling average and last value, and the same span. */
  lemma MeasuresOfMirrored(samples: seq<Sample>, mirrored: seq<Sample>)
    requires |samples| >= 3 && Span(samples) > 0.0 && Mapped(samples, mirrored, -1.0, 0.0)
    ensures Span(mirrored) == Span(samples) && mirrored[|samples| - 1].value == -samples[|samples| - 1].value
    ensures Determinant(SumsOf(PointsOf(samples))) != 0.0 && Determinant(SumsOf(PointsOf(mirrored))) != 0.0
    ensures Fit(SumsOf(PointsOf(mirrored))).slope == -Fit(SumsOf(PointsOf(samples))).slope
    ensures Rolling(mirrored) == -Rolling(samples)
  {
    SpanMakesALine(samples);
    SumsOfMirrored(PointsOf(samples), PointsOf(mirrored));
    FitOfMirrored(SumsOf(PointsOf(samples)));
    RollingFollowsUnits(samples, mirrored, -1.0, 0.0);
  }

  /** Turning every value upside down turns the rate, the average and the direction, and nothing else. */
  lemma MirroredSamplesMirrorTheTrend(g: Group, h: Group)
    requires g.samples != [] && Mapped(g.samples, h.samples, -1.0, 0.0)
    ensures Analyzed(g, None).Some? <==> Analyzed(h, None).Some?
    ensures Analyzed(g, None).Some? ==>
              var r, m := Analyzed(g, None).value, Analyzed(h, None).value;
              && m.perHour == -r.perHour && m.average == -r.average && m.direction == Opposite(r.direction)
              && m.count == r.count && m.confidence == r.confidence && m.last == -r.last
  {
    if Analyzed(g, None).Some? {
      MeasuresOfMirrored(g.samples, h.samples);
      var perHour := Analyzed(g, None).value.perHour;
      DirectionOfMirrored(perHour, Rolling(g.samples));
    }
  }

  // ----- What a report shows -----

  /** A rate of this size counts as no change: a thousandth of the average, or a billionth if that is more. */
  predicate IsTolerance(epsilon: real, average: real) {
    && epsilon >= 0.000000001 && 1000.0 * epsilon >= average && 1000.0 * epsilon >= -average
    && (epsilon == 0.000000001 || 1000.0 * epsilon == average || 1000.0 * epsilon == -average)
  }

  /**
   * The report names the metric and its unit, its newest value and how many samples there were; the direction
   * is that of the rate beyond the tolerance, and the confidence needs both samples and hours.
   */
  lemma ReportShows(g: Group, rule: Option<Rule>)
    requires |g.samples| >= 3 && Span(g.samples) > 0.0
    ensures var r, n := Analyzed(g, rule).value, |g.samples|;
            var span := g.samples[n - 1].timestamp - g.samples[0].timestamp;
            && Analyzed(g, rule).Some? && r.metric == g.metric && r.unit == g.samples[n - 1].unit && r.count == n
            && r.last == g.samples[n - 1].value && r.average == Rolling(g.samples) && r.rule == rule
            && (forall e :: IsTolerance(e, r.average) ==>
                  && (r.direction.Increasing? <==> r.perHour > e)
                  && (r.direction.Decreasing? <==> -r.perHour > e))
            && (r.confidence.High? <==> n >= 30 && span >= 21600.0)
            && (r.confidence.Low? <==> n < 10 || span < 3600.0)
            && (r.breached <==>
                  && rule.Some?
                  && (rule.value.bound in {Gt, Ge} ==> r.average >= rule.value.threshold)
                  && (rule.value.bound in {Lt, Le} ==> r.average <= rule.value.threshold))
            && (rule.None? ==> r.risk == 0 && r.breachIn.None?)
            && (rule.Some? ==> (r.risk, r.breachIn) == Estimate(rule.value, r.average, r.perHour / 3600.0))
  {
    SpanMakesALine(g.samples);
    var slope := Fit(SumsOf(PointsOf(g.samples))).slope;
    assert slope * 3600.0 / 3600.0 == slope;
  }

  /** There is one tolerance for an average. */
  lemma ToleranceExists(average: real) returns (epsilon: real)
    ensures IsTolerance(epsilon, average)
    ensures forall e :: IsTolerance(e, average) ==> e == epsilon
  {
    epsilon := Epsilon(average);
  }

  lemma TotalOfSlice(samples: seq<Sample>, lo: nat, hi: nat)
    requires lo < hi <= |samples|
    ensures Total(samples[lo..hi]) == Total(samples[lo..hi - 1]) + samples[hi - 1].value
    ensures Total(samples[lo..lo]) == 0.0
  {
    assert samples[lo..hi][..hi - lo - 1] == samples[lo..hi - 1];
  }

  lemma TotalOfThree(samples: seq<Sample>, lo: nat)
    requires lo + 3 <= |samples|
    ensures Total(samples[lo..lo + 3]) == samples[lo].value + samples[lo + 1].value + samples[lo + 2].value
  {
    TotalOfSlice(samples, lo, lo + 1);
    TotalOfSlice(samples, lo, lo + 2);
    TotalOfSlice(samples, lo, lo + 3);
  }

  lemma TotalOfNewest(samples: seq<Sample>, n: nat)
    requires 3 <= n <= 5 && n <= |samples|
    ensures var lo := |samples| - n;
            var three := samples[lo].value + samples[lo + 1].value + samples[lo + 2].value;
            && (n == 3 ==> Total(samples[lo..]) == three)
            && (n == 4 ==> Total(samples[lo..]) == three + samples[lo + 3].value)
            && (n == 5 ==> Total(samples[lo..]) == three + samples[lo + 3].value + samples[lo + 4].value)
  {
    var lo := |samples| - n;
    TotalOfThree(samples, lo);
    assert samples[lo..] == samples[lo..lo + n];
    if n >= 4 {
      TotalOfSlice(samples, lo, lo + 4);
    }
    if n == 5 {
      TotalOfSlice(samples, lo, lo + 5);
    }
  }

  lemma ShareTimesCount(total: real, n: real)
    requires n != 0.0
    ensures total / n * n == total
  {
  }

  /** The rolling average is the mean of the last five values, or of all when there are fewer. */
  lemma RollingIsTheMean(samples: seq<Sample>)
    requires |samples| >= 3
    ensures var n := |samples|;
            && (n == 3 ==> Rolling(samples) * 3.0 == samples[0].value + samples[1].value + samples[2].value)
            && (n == 4 ==>
                  Rolling(samples) * 4.0 == samples[0].value + samples[1].value + samples[2].value + samples[3].value)
            && (n >= 5 ==>
                  Rolling(samples) * 5.0 == samples[n - 5].value + samples[n - 4].value + samples[n - 3].value
                                            + samples[n - 2].value + samples[n - 1].value)
  {
    var n := Min(5, |samples|);
    TotalOfNewest(samples, n);
    ShareTimesCount(Total(samples[|samples| - n..]), n as real);
  }

  /** The risk of a breach that is predicted goes by the hour, the day and the week. */
  lemma RiskByTime(rule: Rule, average: real, slope: real)
    requires Estimate(rule, average, slope).1.Some?
    ensures var (risk, seconds) := Estimate(rule, average, slope);
            && (risk == 90 <==> seconds.value <= 3600.0) && (risk >= 70 <==> seconds.value <= 24.0 * 3600.0)
            && (risk >= 50 <==> seconds.value <= 168.0 * 3600.0) && risk in {20, 50, 70, 90}
  {
  }
}
