/**
 * The periodic scan. Every minute the engine reads the last ten minutes of samples in time
 * order, so most samples are read many times; the timers end as if the whole history had
 * been read once.
 */
module RuleScans {
  import opened Common
  import opened Alerts
  import opened RuleEngine

  // ----- Replays -----

  /** No timer the sample feeds can still be moved by it. */
  ghost predicate Seen(rules: seq<Rule>, m: Metric, states: States) {
    m.value.Some? ==>
      forall i :: 0 <= i < |rules| && Applies(rules[i], m) ==> Replayed(Lookup(states, KeyOf(rules[i], m)), m.timestamp)
  }

  lemma ShownIsSeen(rules: seq<Rule>, m: Metric, states: States)
    requires DistinctRules(rules)
    ensures Seen(rules, m, Shown(rules, m, states))
  {
    forall i | 0 <= i < |rules| && Applies(rules[i], m) && m.value.Some?
      ensures Replayed(Lookup(Shown(rules, m, states), KeyOf(rules[i], m)), m.timestamp)
    {
      ShownAdvancesOwnTimer(rules, m, states, i, KeyOf(rules[i], m));
    }
  }

  lemma SeenStaysSeen(rules: seq<Rule>, m: Metric, other: Metric, states: States)
    requires DistinctRules(rules) && Seen(rules, m, states)
    ensures Seen(rules, m, Shown(rules, other, states))
  {
    forall i | 0 <= i < |rules| && Applies(rules[i], m) && m.value.Some?
      ensures Replayed(Lookup(Shown(rules, other, states), KeyOf(rules[i], m)), m.timestamp)
    {
      ShownAdvancesOwnTimer(rules, other, states, i, KeyOf(rules[i], m));
    }
  }

  lemma {:induction false} ShownAllAreSeen(rules: seq<Rule>, ms: seq<Metric>, states: States, m: Metric)
    requires DistinctRules(rules) && m in ms
    ensures Seen(rules, m, ShownAll(rules, ms, states))
  {
    var n := |ms| - 1;
    if m == ms[n] {
      ShownIsSeen(rules, m, ShownAll(rules, ms[..n], states));
    } else {
      ShownAllAreSeen(rules, ms[..n], states, m);
      SeenStaysSeen(rules, m, ms[n], ShownAll(rules, ms[..n], states));
    }
  }

  lemma {:induction false} SeenSampleIsNoOp(rules: seq<Rule>, m: Metric, db: EngineDb, now: int)
    requires Seen(rules, m, db.states)
    ensures Evaluated(rules, m, db, now) == db
  {
    if m.value.Some? && rules != [] {
      var init, last := rules[..|rules| - 1], rules[|rules| - 1];
      forall i | 0 <= i < |init| && Applies(init[i], m)
        ensures Replayed(Lookup(db.states, KeyOf(init[i], m)), m.timestamp)
      {
        assert init[i] == rules[i];
      }
      SeenSampleIsNoOp(init, m, db, now);
      if Applies(last, m) {
        assert Replayed(Lookup(db.states, KeyOf(rules[|rules| - 1], m)), m.timestamp);
        assert db.states[KeyOf(last, m) := db.states[KeyOf(last, m)]] == db.states;
      }
    }
  }

  /** Reading again samples that were already shown, in any order, changes neither timers nor alerts. */
  lemma {:induction false} ReplayIsNoOp(rules: seq<Rule>, earlier: seq<Metric>, again: seq<Metric>, db: EngineDb,
                                        nows: seq<int>, laters: seq<int>)
    requires DistinctRules(rules) && |nows| == |earlier| && |laters| == |again|
    requires forall m <- again :: m in earlier
    ensures var after := EvaluatedAll(rules, earlier, db, nows); EvaluatedAll(rules, again, after, laters) == after
  {
    if again != [] {
      var n := |again| - 1;
      ReplayIsNoOp(rules, earlier, again[..n], db, nows, laters[..n]);
      EvaluatedAllStates(rules, earlier, db, nows);
      ShownAllAreSeen(rules, earlier, db.states, again[n]);
      SeenSampleIsNoOp(rules, again[n], EvaluatedAll(rules, earlier, db, nows), laters[n]);
    }
  }

  // ----- Series as sets -----

  predicate SortedByTime(ms: seq<Metric>) {
    forall i, j :: 0 <= i < j < |ms| ==> ms[i].timestamp <= ms[j].timestamp
  }

  lemma {:induction false} SeriesConcat(rule: Rule, a: seq<Metric>, b: seq<Metric>, key: Key)
    ensures Series(rule, a + b, key) == Series(rule, a, key) + Series(rule, b, key)
  {
    if b == [] {
      assert a + b == a;
    } else {
      assert (a + b)[..|a + b| - 1] == a + b[..|b| - 1];
      SeriesConcat(rule, a, b[..|b| - 1], key);
    }
  }

  lemma {:induction false} SeriesMembers(rule: Rule, ms: seq<Metric>, key: Key)
    ensures forall m :: m in ms && Feeds(rule, m, key) ==> Sample(m.timestamp, m.value.value) in Series(rule, ms, key)
    ensures forall s :: s in Series(rule, ms, key) ==>
              exists m :: m in ms && Feeds(rule, m, key) && s == Sample(m.timestamp, m.value.value)
  {
    if ms != [] {
      SeriesMembers(rule, ms[..|ms| - 1], key);
      assert ms == ms[..|ms| - 1] + [ms[|ms| - 1]];
    }
  }

  predicate InOrder(s: seq<Sample>) {
    forall i, j :: 0 <= i < j < |s| ==> s[i].at <= s[j].at
  }

  lemma {:induction false} SeriesSorted(rule: Rule, ms: seq<Metric>, key: Key)
    requires SortedByTime(ms)
    ensures InOrder(Series(rule, ms, key))
  {
    if ms != [] {
      var init := ms[..|ms| - 1];
      SeriesSorted(rule, init, key);
      SeriesMembers(rule, init, key);
      var before := Series(rule, init, key);
      forall k | 0 <= k < |before|
        ensures before[k].at <= ms[|ms| - 1].timestamp
      {
        var s := before[k];
        assert s in before;
        var m :| m in init && Feeds(rule, m, key) && s == Sample(m.timestamp, m.value.value);
        var i :| 0 <= i < |init| && init[i] == m;
        assert ms[i] == m;
      }
    }
  }

  function Elements(s: seq<Sample>): set<Sample> { set x | x in s }

  ghost predicate OneSamplePerTime(s: set<Sample>) {
    forall x, y :: x in s && y in s && x.at == y.at ==> x == y
  }

  /** Samples that are not known yet are later than every known one. */
  ghost predicate NoneBehind(known: set<Sample>, more: set<Sample>) {
    forall x, t :: x in more && t in known ==> x in known || t.at < x.at
  }

  /** The newest of the samples so far tells whether the next one is among them. */
  lemma NewestDecides(known: set<Sample>, init: seq<Sample>, last: Sample, newest: Sample)
    requires InOrder(init + [last]) && OneSamplePerTime(Elements(init + [last]))
    requires NoneBehind(known, Elements(init + [last]))
    requires newest in known + Elements(init) && newest.at >= last.at
    ensures last in known + Elements(init)
  {
    var more := init + [last];
    assert last in more && forall x :: x in init ==> x in more;
    if newest in init {
      var i :| 0 <= i < |init| && init[i] == newest;
      assert more[i] == newest && more[|init|] == last;
    }
  }

  lemma MoreElements(a: seq<Sample>, x: Sample)
    ensures Elements(a + [x]) == Elements(a) + {x}
  {
  }

  lemma NextIsTaken(known: set<Sample>, init: seq<Sample>, last: Sample, accepted: seq<Sample>)
    requires InOrder(init + [last]) && OneSamplePerTime(Elements(init + [last]))
    requires NoneBehind(known, Elements(init + [last]))
    requires Elements(accepted) == known + Elements(init)
    ensures Elements(if accepted == [] || accepted[|accepted| - 1].at < last.at then accepted + [last] else accepted)
         == known + Elements(init + [last])
  {
    MoreElements(init, last);
    if accepted == [] || accepted[|accepted| - 1].at < last.at {
      MoreElements(accepted, last);
    } else {
      assert accepted[|accepted| - 1] in Elements(accepted);
      NewestDecides(known, init, last, accepted[|accepted| - 1]);
    }
  }

  ghost predicate Continues(known: set<Sample>, more: seq<Sample>) {
    InOrder(more) && OneSamplePerTime(Elements(more)) && NoneBehind(known, Elements(more))
  }

  lemma ShorterContinues(known: set<Sample>, init: seq<Sample>, last: Sample)
    requires Continues(known, init + [last])
    ensures Continues(known, init)
  {
    MoreElements(init, last);
    assert (init + [last])[..|init|] == init;
  }

  lemma UnionStep(seen: seq<Sample>, init: seq<Sample>, last: Sample, known: set<Sample>)
    requires Continues(known, init + [last]) && Elements(Accepted(seen + init)) == known + Elements(init)
    ensures Elements(Accepted(seen + (init + [last]))) == known + Elements(init + [last])
  {
    var longer := seen + init;
    assert seen + (init + [last]) == longer + [last];
    AcceptedGrows(longer, last);
    NextIsTaken(known, init, last, Accepted(longer));
  }

  /** What a sorted continuation adds: its old samples are refused, its new ones all accepted. */
  lemma {:induction false} AcceptedUnion(seen: seq<Sample>, more: seq<Sample>, known: set<Sample>)
    requires known == Elements(Accepted(seen)) && Continues(known, more)
    ensures Elements(Accepted(seen + more)) == known + Elements(more)
  {
    if more == [] {
      assert seen + more == seen;
    } else {
      var init, last := more[..|more| - 1], more[|more| - 1];
      assert more == init + [last];
      ShorterContinues(known, init, last);
      AcceptedUnion(seen, init, known);
      UnionStep(seen, init, last, known);
    }
  }

  ghost predicate Rising(s: seq<Sample>) {
    forall i, j :: 0 <= i < j < |s| ==> s[i].at < s[j].at
  }

  lemma NoElements(a: seq<Sample>)
    ensures a == [] <==> Elements(a) == {}
  {
    assert a != [] ==> a[0] in Elements(a);
  }

  lemma WithoutLast(a: seq<Sample>)
    requires Rising(a) && a != []
    ensures Elements(a[..|a| - 1]) == Elements(a) - {a[|a| - 1]}
    ensures forall x :: x in a ==> x.at <= a[|a| - 1].at
  {
    var init, last := a[..|a| - 1], a[|a| - 1];
    assert a == init + [last];
    MoreElements(init, last);
    assert last !in init;
  }

  /** A set of samples can be listed in rising order in one way only. */
  lemma {:induction false} StrictlySortedUnique(a: seq<Sample>, b: seq<Sample>)
    requires Rising(a) && Rising(b) && Elements(a) == Elements(b)
    ensures a == b
  {
    if a == [] || b == [] {
      NoElements(a);
      NoElements(b);
    } else {
      var x, y := a[|a| - 1], b[|b| - 1];
      WithoutLast(a);
      WithoutLast(b);
      assert x in Elements(b) && y in Elements(a);
      assert x == y by {
        SameLast(b, x);
      }
      StrictlySortedUnique(a[..|a| - 1], b[..|b| - 1]);
      assert a == a[..|a| - 1] + [x] && b == b[..|b| - 1] + [y];
    }
  }

  lemma SameLast(b: seq<Sample>, x: Sample)
    requires Rising(b) && x in b && x.at >= b[|b| - 1].at
    ensures x == b[|b| - 1]
  {
    var i :| 0 <= i < |b| && b[i] == x;
  }

  // ----- Overlapping windows -----

  /** One scan: the rows stored by then, the oldest time it reads, and the query's answer. */
  datatype Scan = Scan(visible: set<Metric>, cutoff: int, window: seq<Metric>)

  /** The window lists the stored rows from the cutoff on, in time order. */
  ghost predicate IsWindow(scan: Scan) {
    && SortedByTime(scan.window)
    && forall m :: m in scan.window <==> m in scan.visible && m.timestamp >= scan.cutoff
  }

  /** Samples of one machine, metric and dimension. */
  predicate SameSeries(a: Metric, b: Metric) {
    a.value.Some? && b.value.Some? && a.machine == b.machine && a.name == b.name && Dimension(a) == Dimension(b)
  }

  function VisibleBefore(scans: seq<Scan>): set<Metric> {
    if scans == [] then {} else scans[|scans| - 1].visible
  }

  /**
   * The next scan reaches back over everything that arrived since the previous one, and
   * nothing arrived behind a sample of its own series that the previous scan could see.
   */
  ghost predicate Follows(before: set<Metric>, scan: Scan) {
    && before <= scan.visible
    && (forall m :: m in scan.visible - before ==> m.timestamp >= scan.cutoff)
    && forall m, o :: m in scan.visible - before && o in before && SameSeries(m, o) ==> o.timestamp < m.timestamp
  }

  ghost predicate Covering(scans: seq<Scan>) {
    scans == [] ||
    (Covering(scans[..|scans| - 1])
     && IsWindow(scans[|scans| - 1]) && Follows(VisibleBefore(scans[..|scans| - 1]), scans[|scans| - 1]))
  }

  /** A series has one value at one time. */
  ghost predicate OneValuePerTime(rows: set<Metric>) {
    forall a, b :: a in rows && b in rows && SameSeries(a, b) && a.timestamp == b.timestamp ==> a.value == b.value
  }

  function Read(scans: seq<Scan>): seq<Metric> {
    if scans == [] then [] else Read(scans[..|scans| - 1]) + scans[|scans| - 1].window
  }

  function Scanned(rules: seq<Rule>, scans: seq<Scan>, states: States): States {
    if scans == [] then states
    else ShownAll(rules, scans[|scans| - 1].window, Scanned(rules, scans[..|scans| - 1], states))
  }

  lemma {:induction false} ShownAllConcat(rules: seq<Rule>, a: seq<Metric>, b: seq<Metric>, states: States)
    ensures ShownAll(rules, a + b, states) == ShownAll(rules, b, ShownAll(rules, a, states))
  {
    if b == [] {
      assert a + b == a;
    } else {
      assert (a + b)[..|a + b| - 1] == a + b[..|b| - 1];
      ShownAllConcat(rules, a, b[..|b| - 1], states);
    }
  }

  lemma {:induction false} ScannedIsRead(rules: seq<Rule>, scans: seq<Scan>, states: States)
    ensures Scanned(rules, scans, states) == ShownAll(rules, Read(scans), states)
  {
    if scans != [] {
      var init := scans[..|scans| - 1];
      ScannedIsRead(rules, init, states);
      ShownAllConcat(rules, Read(init), scans[|scans| - 1].window, states);
    }
  }

  /** The samples that the stored rows hold for a timer. */
  function SamplesOf(rule: Rule, rows: set<Metric>, key: Key): set<Sample> {
    set m | m in rows && Feeds(rule, m, key) :: Sample(m.timestamp, m.value.value)
  }

  lemma OneSample(rule: Rule, rows: set<Metric>, key: Key)
    requires OneValuePerTime(rows)
    ensures OneSamplePerTime(SamplesOf(rule, rows, key))
  {
    forall x, y | x in SamplesOf(rule, rows, key) && y in SamplesOf(rule, rows, key) && x.at == y.at
      ensures x == y
    {
      var m :| m in rows && Feeds(rule, m, key) && x == Sample(m.timestamp, m.value.value);
      var n :| n in rows && Feeds(rule, n, key) && y == Sample(n.timestamp, n.value.value);
      assert SameSeries(m, n);
    }
  }

  lemma ListedSamples(rule: Rule, ms: seq<Metric>, rows: set<Metric>, key: Key)
    requires forall m :: m in ms <==> m in rows
    ensures Elements(Series(rule, ms, key)) == SamplesOf(rule, rows, key)
  {
    SeriesMembers(rule, ms, key);
  }

  /** The rows a scan reads. */
  function Reads(scan: Scan): set<Metric> {
    set m | m in scan.visible && m.timestamp >= scan.cutoff
  }

  lemma WindowSeries(rule: Rule, scan: Scan, key: Key)
    requires IsWindow(scan) && OneValuePerTime(scan.visible)
    ensures var s := Series(rule, scan.window, key);
            InOrder(s) && OneSamplePerTime(Elements(s)) && Elements(s) == SamplesOf(rule, Reads(scan), key)
  {
    SeriesSorted(rule, scan.window, key);
    ListedSamples(rule, scan.window, Reads(scan), key);
    OneSample(rule, Reads(scan), key);
  }

  /** What the next scan reads is known or later, and completes what was known. */
  lemma NextScanContinues(rule: Rule, before: set<Metric>, scan: Scan, key: Key)
    requires Follows(before, scan)
    ensures NoneBehind(SamplesOf(rule, before, key), SamplesOf(rule, Reads(scan), key))
    ensures SamplesOf(rule, before, key) + SamplesOf(rule, Reads(scan), key) == SamplesOf(rule, scan.visible, key)
  {
    forall x, t | x in SamplesOf(rule, Reads(scan), key) && t in SamplesOf(rule, before, key)
      ensures x in SamplesOf(rule, before, key) || t.at < x.at
    {
      var m :| m in scan.visible && Feeds(rule, m, key) && x == Sample(m.timestamp, m.value.value);
      var o :| o in before && Feeds(rule, o, key) && t == Sample(o.timestamp, o.value.value);
      assert SameSeries(m, o);
    }
    assert scan.visible == before + Reads(scan);
  }

  /** After covering scans, a timer has accepted exactly the samples of its series. */
  lemma {:induction false} ScansAcceptEverySample(rule: Rule, scans: seq<Scan>, key: Key)
    requires Covering(scans) && OneValuePerTime(VisibleBefore(scans))
    ensures Elements(Accepted(Series(rule, Read(scans), key))) == SamplesOf(rule, VisibleBefore(scans), key)
  {
    if scans != [] {
      var init, scan := scans[..|scans| - 1], scans[|scans| - 1];
      ScansAcceptEverySample(rule, init, key);
      WindowSeries(rule, scan, key);
      SeriesConcat(rule, Read(init), scan.window, key);
      NextScanContinues(rule, VisibleBefore(init), scan, key);
      AcceptedUnion(Series(rule, Read(init), key), Series(rule, scan.window, key),
          SamplesOf(rule, VisibleBefore(init), key));
    }
  }

  /** A single pass over the stored rows. */
  ghost predicate IsPass(pass: seq<Metric>, rows: set<Metric>) {
    SortedByTime(pass) && forall m :: m in pass <==> m in rows
  }

  lemma PassAcceptsEverySample(rule: Rule, pass: seq<Metric>, rows: set<Metric>, key: Key)
    requires IsPass(pass, rows) && OneValuePerTime(rows)
    ensures Elements(Accepted(Series(rule, pass, key))) == SamplesOf(rule, rows, key)
  {
    SeriesSorted(rule, pass, key);
    ListedSamples(rule, pass, rows, key);
    OneSample(rule, rows, key);
    AcceptedUnion([], Series(rule, pass, key), {});
    assert [] + Series(rule, pass, key) == Series(rule, pass, key);
  }

  lemma TimersAgree(rules: seq<Rule>, scans: seq<Scan>, pass: seq<Metric>, i: nat, key: Key)
    requires DistinctRules(rules) && i < |rules| && key.rule == rules[i].pk
    requires Covering(scans) && OneValuePerTime(VisibleBefore(scans)) && IsPass(pass, VisibleBefore(scans))
    ensures Lookup(ShownAll(rules, Read(scans), map[]), key) == Lookup(ShownAll(rules, pass, map[]), key)
  {
    var a, b := Series(rules[i], Read(scans), key), Series(rules[i], pass, key);
    EveryTimerIsItsTrailingRun(rules, Read(scans), i, key);
    EveryTimerIsItsTrailingRun(rules, pass, i, key);
    ScansAcceptEverySample(rules[i], scans, key);
    PassAcceptsEverySample(rules[i], pass, VisibleBefore(scans), key);
    AcceptedIncreases(a);
    AcceptedIncreases(b);
    StrictlySortedUnique(Accepted(a), Accepted(b));
  }

  /** Every stored timer belongs to a rule and has accepted a sample. */
  ghost predicate Proper(rules: seq<Rule>, states: States) {
    forall key :: key in states ==> states[key].lastAt.Some? && exists i :: 0 <= i < |rules| && rules[i].pk == key.rule
  }

  lemma {:induction false} ShownKeepsProper(rules: seq<Rule>, n: nat, m: Metric, states: States)
    requires n <= |rules| && Proper(rules, states)
    ensures Proper(rules, Shown(rules[..n], m, states))
  {
    if n > 0 && m.value.Some? {
      ShownKeepsProper(rules, n - 1, m, states);
      assert rules[..n][..n - 1] == rules[..n - 1];
    }
  }

  lemma {:induction false} ShownAllProper(rules: seq<Rule>, ms: seq<Metric>)
    ensures Proper(rules, ShownAll(rules, ms, map[]))
  {
    if ms != [] {
      ShownAllProper(rules, ms[..|ms| - 1]);
      assert rules[..|rules|] == rules;
      ShownKeepsProper(rules, |rules|, ms[|ms| - 1], ShownAll(rules, ms[..|ms| - 1], map[]));
    }
  }

  lemma SameTimersSameStates(rules: seq<Rule>, x: States, y: States)
    requires Proper(rules, x) && Proper(rules, y)
    requires forall key: Key, i :: 0 <= i < |rules| && rules[i].pk == key.rule ==> Lookup(x, key) == Lookup(y, key)
    ensures x == y
  {
    forall key | key in x || key in y
      ensures key in x && key in y && x[key] == y[key]
    {
      var i :| 0 <= i < |rules| && rules[i].pk == key.rule;
      assert Lookup(x, key) == Lookup(y, key);
    }
  }

  /** Overlapping scans that cover the history leave the timers of one pass over it. */
  lemma OverlappingScansEqualOnePass(rules: seq<Rule>, scans: seq<Scan>, pass: seq<Metric>)
    requires DistinctRules(rules)
    requires Covering(scans) && OneValuePerTime(VisibleBefore(scans)) && IsPass(pass, VisibleBefore(scans))
    ensures Scanned(rules, scans, map[]) == ShownAll(rules, pass, map[])
  {
    ScannedIsRead(rules, scans, map[]);
    ShownAllProper(rules, Read(scans));
    ShownAllProper(rules, pass);
    forall key: Key, i: nat | i < |rules| && rules[i].pk == key.rule
      ensures Lookup(ShownAll(rules, Read(scans), map[]), key) == Lookup(ShownAll(rules, pass, map[]), key)
    {
      TimersAgree(rules, scans, pass, i, key);
    }
    SameTimersSameStates(rules, ShownAll(rules, Read(scans), map[]), ShownAll(rules, pass, map[]));
  }
}
