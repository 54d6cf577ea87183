/**
 * The sanitiser of audit metadata: a bounded copy of a tree in which the values under
 * sensitive keys are replaced by a marker.
 */
module Sanitize {
  import opened Common

  datatype Entry = Entry(key: string, value: Json)

  /**
   * A mapping in insertion order, keys as text; a list, tuple or set; text; a plain number,
   * boolean or null; a date, identifier or decimal, by its text; anything else, by its text.
   */
  datatype Json =
    | Obj(entries: seq<Entry>)
    | Arr(items: seq<Json>)
    | Str(text: string)
    | Number(value: real)
    | Boolean(truth: bool)
    | Null
    | Stamp(text: string)
    | Other(text: string)

  const MAX_DEPTH := 8
  const MAX_ENTRIES := 100
  const MAX_KEY := 120
  const MAX_TEXT := 2000

  const TRUNCATED := Str("[TRUNCATED]")
  const REDACTED := Str("[REDACTED]")

  // ----- Sensitive keys -----

  /** Case folding as far as the letters of the pattern go. */
  function Fold(c: char): char {
    if 'A' <= c <= 'Z' then (c as int + 32) as char
    else if c == '\U{017F}' then 's'
    else if c == '\U{212A}' then 'k'
    else if c == '\U{0130}' || c == '\U{0131}' then 'i'
    else c
  }

  predicate At(key: string, i: nat, word: string) {
    i + |word| <= |key| && forall k :: 0 <= k < |word| ==> Fold(key[i + k]) == word[k]
  }

  const WORDS := ["password", "passwd", "secret", "token", "authorization", "cookie", "credential"]

  /** "api", at most one character other than a line feed, "key". */
  predicate ApiKeyAt(key: string, i: nat) {
    At(key, i, "api") && (At(key, i + 3, "key") || (At(key, i + 4, "key") && key[i + 3] != '\n'))
  }

  predicate WordAt(key: string, i: nat) {
    exists w :: 0 <= w < |WORDS| && At(key, i, WORDS[w])
  }

  /** The pattern is found somewhere in the key. */
  predicate Sensitive(key: string) {
    exists i: nat :: i < |key| && (ApiKeyAt(key, i) || WordAt(key, i))
  }

  function Cut(s: string, n: nat): (r: string)
    ensures |r| <= n
  {
    s[..Min(n, |s|)]
  }

  /** What makes a shortened key sensitive made the whole key sensitive. */
  lemma CutKeepsInnocence(key: string, n: nat)
    requires Sensitive(Cut(key, n))
    ensures Sensitive(key)
  {
    var short := Cut(key, n);
    var i: nat :| i < |short| && (ApiKeyAt(short, i) || WordAt(short, i));
    if WordAt(short, i) {
      var w :| 0 <= w < |WORDS| && At(short, i, WORDS[w]);
      assert At(key, i, WORDS[w]);
    }
    assert ApiKeyAt(key, i) || WordAt(key, i);
  }

  // ----- The sanitiser -----

  /** Assignment to a key of a mapping: a known key keeps its place. */
  function Put(entries: seq<Entry>, e: Entry): seq<Entry> {
    if entries == [] then [e]
    else if entries[0].key == e.key then [e] + entries[1..]
    else [entries[0]] + Put(entries[1..], e)
  }

  /** A mapping built from pairs in order. */
  function Dict(pairs: seq<Entry>): seq<Entry> {
    if pairs == [] then [] else Put(Dict(pairs[..|pairs| - 1]), pairs[|pairs| - 1])
  }

  function Sanitized(v: Json, depth: nat): Json
    decreases v, 1
  {
    if depth > MAX_DEPTH then TRUNCATED
    else
      match v
      case Obj(entries) => Obj(Dict(Pairs(v, Min(MAX_ENTRIES, |entries|), depth)))
      case Arr(items) => Arr(Elements(v, Min(MAX_ENTRIES, |items|), depth))
      case Str(text) => Str(Cut(text, MAX_TEXT))
      case Number(_) => v
      case Boolean(_) => v
      case Null => v
      case Stamp(text) => Str(text)
      case Other(text) => Str(Cut(text, MAX_TEXT))
  }

  /** The first n entries of a mapping, sanitised, before equal keys meet. */
  function Pairs(v: Json, n: nat, depth: nat): (r: seq<Entry>)
    requires v.Obj? && n <= |v.entries|
    ensures |r| == n
    decreases v, 0, n
  {
    if n == 0 then []
    else
      var e := v.entries[n - 1];
      Pairs(v, n - 1, depth)
      + [Entry(Cut(e.key, MAX_KEY), if Sensitive(e.key) then REDACTED else Sanitized(e.value, depth + 1))]
  }

  function Elements(v: Json, n: nat, depth: nat): (r: seq<Json>)
    requires v.Arr? && n <= |v.items|
    ensures |r| == n
    decreases v, 0, n
  {
    if n == 0 then [] else Elements(v, n - 1, depth) + [Sanitized(v.items[n - 1], depth + 1)]
  }

  lemma {:induction false} PairsAt(v: Json, n: nat, depth: nat, i: nat)
    requires v.Obj? && i < n <= |v.entries|
    ensures Pairs(v, n, depth)[i].key == Cut(v.entries[i].key, MAX_KEY)
    ensures Pairs(v, n, depth)[i].value
         == if Sensitive(v.entries[i].key) then REDACTED else Sanitized(v.entries[i].value, depth + 1)
  {
    if i < n - 1 {
      PairsAt(v, n - 1, depth, i);
    }
  }

  lemma {:induction false} ElementsAt(v: Json, n: nat, depth: nat, i: nat)
    requires v.Arr? && i < n <= |v.items|
    ensures Elements(v, n, depth)[i] == Sanitized(v.items[i], depth + 1)
  {
    if i < n - 1 {
      ElementsAt(v, n - 1, depth, i);
    }
  }

  // ----- Building a mapping -----

  ghost predicate DistinctKeys(entries: seq<Entry>) {
    forall i, j :: 0 <= i < j < |entries| ==> entries[i].key != entries[j].key
  }

  predicate LastOfKey(pairs: seq<Entry>, j: nat)
    requires j < |pairs|
  {
    forall k :: j < k < |pairs| ==> pairs[k].key != pairs[j].key
  }

  lemma {:induction false} PutNew(entries: seq<Entry>, e: Entry)
    requires forall i :: 0 <= i < |entries| ==> entries[i].key != e.key
    ensures Put(entries, e) == entries + [e]
  {
    if entries != [] {
      PutNew(entries[1..], e);
      assert entries == [entries[0]] + entries[1..];
    }
  }

  lemma {:induction false} PutOld(entries: seq<Entry>, e: Entry, i: nat)
    requires DistinctKeys(entries) && i < |entries| && entries[i].key == e.key
    ensures Put(entries, e) == entries[i := e]
  {
    if i > 0 {
      PutOld(entries[1..], e, i - 1);
      assert entries[i := e] == [entries[0]] + entries[1..][i - 1 := e];
    } else {
      assert entries[0 := e] == [e] + entries[1..];
    }
  }

  lemma PutAssigns(entries: seq<Entry>, e: Entry)
    requires DistinctKeys(entries)
    ensures DistinctKeys(Put(entries, e)) && |Put(entries, e)| <= |entries| + 1
    ensures forall x :: x in Put(entries, e) <==> x == e || (x in entries && x.key != e.key)
  {
    if i: nat :| i < |entries| && entries[i].key == e.key {
      PutOld(entries, e, i);
      var put := entries[i := e];
      assert put[i] == e;
      forall x
        ensures x in put <==> x == e || (x in entries && x.key != e.key)
      {
        if x in entries && x.key != e.key {
          var k :| 0 <= k < |entries| && entries[k] == x;
          assert put[k] == x;
        }
      }
    } else {
      PutNew(entries, e);
    }
  }

  ghost predicate Survives(pairs: seq<Entry>, x: Entry) {
    exists j: nat :: j < |pairs| && pairs[j] == x && LastOfKey(pairs, j)
  }

  /** A mapping holds, for each key, the last of its pairs. */
  lemma {:induction false} DictKeepsTheLast(pairs: seq<Entry>)
    ensures DistinctKeys(Dict(pairs)) && |Dict(pairs)| <= |pairs|
    ensures forall x :: x in Dict(pairs) <==> Survives(pairs, x)
  {
    if pairs != [] {
      var init, e := pairs[..|pairs| - 1], pairs[|pairs| - 1];
      DictKeepsTheLast(init);
      PutAssigns(Dict(init), e);
      LastOfLonger(init, e);
      assert init + [e] == pairs;
    }
  }

  lemma {:induction false} DictOfDistinct(pairs: seq<Entry>)
    requires DistinctKeys(pairs)
    ensures Dict(pairs) == pairs
  {
    if pairs != [] {
      var init := pairs[..|pairs| - 1];
      DictOfDistinct(init);
      PutNew(init, pairs[|pairs| - 1]);
    }
  }

  lemma LastOfLonger(init: seq<Entry>, e: Entry)
    ensures forall x :: Survives(init + [e], x) <==> x == e || (Survives(init, x) && x.key != e.key)
  {
    var pairs := init + [e];
    assert LastOfKey(pairs, |init|);
    forall x
      ensures Survives(pairs, x) <==> x == e || (Survives(init, x) && x.key != e.key)
    {
      if Survives(pairs, x) && x != e {
        var j: nat :| j < |pairs| && pairs[j] == x && LastOfKey(pairs, j);
        assert j < |init| && init[j] == x && pairs[|init|] == e;
        forall k | j < k < |init|
          ensures init[k].key != x.key
        {
          assert pairs[k] == init[k];
        }
        assert LastOfKey(init, j);
      }
      if Survives(init, x) && x.key != e.key {
        var j: nat :| j < |init| && init[j] == x && LastOfKey(init, j);
        assert LastOfKey(pairs, j) && pairs[j] == x;
      }
    }
  }

  // ----- What every result looks like -----

  /** At most the given number of nested containers, each of at most 100 entries, and no value under a sensitive key. */
  ghost predicate Bounded(v: Json, levels: nat)
    decreases v
  {
    match v
    case Obj(entries) =>
      && levels > 0 && |entries| <= MAX_ENTRIES && DistinctKeys(entries)
      && (forall i :: 0 <= i < |entries| ==> |entries[i].key| <= MAX_KEY)
      && (forall i :: 0 <= i < |entries| && Sensitive(entries[i].key) ==> entries[i].value == REDACTED)
      && forall i :: 0 <= i < |entries| ==> Bounded(entries[i].value, levels - 1)
    case Arr(items) =>
      && levels > 0 && |items| <= MAX_ENTRIES
      && forall i :: 0 <= i < |items| ==> Bounded(items[i], levels - 1)
    case Stamp(_) => false
    case Other(_) => false
    case _ => true
  }

  /** Every entry of the result was made from an entry of the mapping. */
  lemma EntryComesFrom(v: Json, n: nat, depth: nat, x: Entry) returns (j: nat)
    requires v.Obj? && n <= |v.entries| && x in Dict(Pairs(v, n, depth))
    ensures j < n && x.key == Cut(v.entries[j].key, MAX_KEY)
    ensures x.value == if Sensitive(v.entries[j].key) then REDACTED else Sanitized(v.entries[j].value, depth + 1)
    ensures Sensitive(x.key) ==> x.value == REDACTED
  {
    var pairs := Pairs(v, n, depth);
    DictKeepsTheLast(pairs);
    j :| 0 <= j < |pairs| && pairs[j] == x && LastOfKey(pairs, j);
    PairsAt(v, n, depth, j);
    if Sensitive(x.key) {
      CutKeepsInnocence(v.entries[j].key, MAX_KEY);
    }
  }

  ghost predicate BoundedEntry(e: Entry, levels: nat) {
    |e.key| <= MAX_KEY && (Sensitive(e.key) ==> e.value == REDACTED) && Bounded(e.value, levels)
  }

  lemma BoundedMapping(entries: seq<Entry>, levels: nat)
    requires levels > 0 && |entries| <= MAX_ENTRIES && DistinctKeys(entries)
    requires forall x :: x in entries ==> BoundedEntry(x, levels - 1)
    ensures Bounded(Obj(entries), levels)
  {
    assert forall i :: 0 <= i < |entries| ==> entries[i] in entries;
  }

  lemma {:induction false} EntryIsBounded(v: Json, depth: nat, x: Entry)
    requires v.Obj? && depth <= MAX_DEPTH && x in Dict(Pairs(v, Min(MAX_ENTRIES, |v.entries|), depth))
    ensures BoundedEntry(x, MAX_DEPTH - depth)
    decreases v, 0
  {
    var j := EntryComesFrom(v, Min(MAX_ENTRIES, |v.entries|), depth, x);
    ResultIsBounded(v.entries[j].value, depth + 1);
  }

  /** Whatever goes in, at most nine levels come out, and no secret does. */
  lemma {:induction false} ResultIsBounded(v: Json, depth: nat)
    requires depth <= MAX_DEPTH + 1
    ensures Bounded(Sanitized(v, depth), MAX_DEPTH + 1 - depth)
    decreases v, 1
  {
    if depth <= MAX_DEPTH {
      match v
      case Obj(entries) =>
        var pairs := Pairs(v, Min(MAX_ENTRIES, |entries|), depth);
        DictKeepsTheLast(pairs);
        forall x | x in Dict(pairs)
          ensures BoundedEntry(x, MAX_DEPTH - depth)
        {
          EntryIsBounded(v, depth, x);
        }
        BoundedMapping(Dict(pairs), MAX_DEPTH + 1 - depth);
      case Arr(items) =>
        var n := Min(MAX_ENTRIES, |items|);
        forall i | 0 <= i < n
          ensures Bounded(Elements(v, n, depth)[i], MAX_DEPTH - depth)
        {
          ElementsAt(v, n, depth, i);
          ResultIsBounded(items[i], depth + 1);
        }
      case _ =>
    }
  }

  /** The values differ at most under sensitive keys. */
  ghost predicate Alike(v: Json, w: Json)
    decreases v
  {
    match v
    case Obj(entries) =>
      && w.Obj? && |w.entries| == |entries|
      && forall i :: 0 <= i < |entries| ==>
           && entries[i].key == w.entries[i].key
           && (Sensitive(entries[i].key) || Alike(entries[i].value, w.entries[i].value))
    case Arr(items) => w.Arr? && |w.items| == |items| && forall i :: 0 <= i < |items| ==> Alike(items[i], w.items[i])
    case _ => v == w
  }

  /** Nothing of a value under a sensitive key shows in the result, at any level, not even under a shortened key. */
  lemma {:induction false} SecretsDoNotShow(v: Json, w: Json, depth: nat)
    requires Alike(v, w)
    ensures Sanitized(v, depth) == Sanitized(w, depth)
    decreases v
  {
    if depth <= MAX_DEPTH {
      match v
      case Obj(entries) =>
        var n := Min(MAX_ENTRIES, |entries|);
        forall i | 0 <= i < n
          ensures Pairs(v, n, depth)[i] == Pairs(w, n, depth)[i]
        {
          PairsAt(v, n, depth, i);
          PairsAt(w, n, depth, i);
          if !Sensitive(entries[i].key) {
            SecretsDoNotShow(entries[i].value, w.entries[i].value, depth + 1);
          }
        }
        assert Pairs(v, n, depth) == Pairs(w, n, depth);
      case Arr(items) =>
        var n := Min(MAX_ENTRIES, |items|);
        forall i | 0 <= i < n
          ensures Elements(v, n, depth)[i] == Elements(w, n, depth)[i]
        {
          ElementsAt(v, n, depth, i);
          ElementsAt(w, n, depth, i);
          SecretsDoNotShow(items[i], w.items[i], depth + 1);
        }
        assert Elements(v, n, depth) == Elements(w, n, depth);
      case _ =>
    }
  }

  // ----- What a result shows -----

  /** No later one of the first n keys is shortened to the same key. */
  predicate KeyWins(entries: seq<Entry>, n: nat, j: nat)
    requires j < n <= |entries|
  {
    forall k :: j < k < n ==> Cut(entries[k].key, MAX_KEY) != Cut(entries[j].key, MAX_KEY)
  }

  lemma WinningKeysAreLast(v: Json, n: nat, depth: nat, j: nat)
    requires v.Obj? && j < n <= |v.entries|
    ensures LastOfKey(Pairs(v, n, depth), j) <==> KeyWins(v.entries, n, j)
  {
    forall k | 0 <= k < n
      ensures Pairs(v, n, depth)[k].key == Cut(v.entries[k].key, MAX_KEY)
    {
      PairsAt(v, n, depth, k);
    }
  }

  /** The entry shows what becomes of the given one: its key shortened, its value abridged or hidden. */
  ghost predicate Shows(e: Entry, x: Entry, depth: nat)
    decreases e
  {
    && x.key == Cut(e.key, MAX_KEY)
    && if Sensitive(e.key) then x.value == REDACTED else Abridges(e.value, x.value, depth + 1)
  }

  /**
   * One value is what the other looks like within the bounds: containers by their first hundred
   * entries, the last entry of a key winning, and long texts by their beginning.
   */
  ghost predicate Abridges(v: Json, w: Json, depth: nat)
    decreases v
  {
    if depth > MAX_DEPTH then w == TRUNCATED
    else
      match v
      case Obj(entries) =>
        var n := Min(MAX_ENTRIES, |entries|);
        && w.Obj? && DistinctKeys(w.entries)
        && (forall j: nat :: j < n && KeyWins(entries, n, j) ==>
             exists x :: x in w.entries && Shows(entries[j], x, depth))
        && forall x :: x in w.entries ==>
             exists j: nat :: j < n && KeyWins(entries, n, j) && Shows(entries[j], x, depth)
      case Arr(items) =>
        && w.Arr? && |w.items| == Min(MAX_ENTRIES, |items|)
        && forall i :: 0 <= i < |w.items| ==> Abridges(items[i], w.items[i], depth + 1)
      case Stamp(text) => w == Str(text)
      case Str(text) => w.Str? && w.text <= text && |w.text| == Min(MAX_TEXT, |text|)
      case Other(text) => w.Str? && w.text <= text && |w.text| == Min(MAX_TEXT, |text|)
      case _ => w == v
  }

  lemma {:induction false} PairShows(v: Json, n: nat, depth: nat, j: nat)
    requires v.Obj? && j < n <= |v.entries|
    ensures Shows(v.entries[j], Pairs(v, n, depth)[j], depth)
    decreases v, 0
  {
    PairsAt(v, n, depth, j);
    if !Sensitive(v.entries[j].key) {
      ResultAbridges(v.entries[j].value, depth + 1);
    }
  }

  lemma {:induction false} MappingShows(v: Json, n: nat, depth: nat)
    requires v.Obj? && n == Min(MAX_ENTRIES, |v.entries|) && depth <= MAX_DEPTH
    ensures Abridges(v, Obj(Dict(Pairs(v, n, depth))), depth)
    decreases v, 1
  {
    var pairs := Pairs(v, n, depth);
    DictKeepsTheLast(pairs);
    forall j: nat | j < n
      ensures LastOfKey(pairs, j) <==> KeyWins(v.entries, n, j)
      ensures Shows(v.entries[j], pairs[j], depth)
    {
      WinningKeysAreLast(v, n, depth, j);
      PairShows(v, n, depth, j);
    }
    forall j: nat | j < n && KeyWins(v.entries, n, j)
      ensures exists x :: x in Dict(pairs) && Shows(v.entries[j], x, depth)
    {
      assert Survives(pairs, pairs[j]);
    }
    forall x | x in Dict(pairs)
      ensures exists j: nat :: j < n && KeyWins(v.entries, n, j) && Shows(v.entries[j], x, depth)
    {
      var j: nat :| j < |pairs| && pairs[j] == x && LastOfKey(pairs, j);
      assert KeyWins(v.entries, n, j);
    }
  }

  /** The result is the abridged value. */
  lemma {:induction false} ResultAbridges(v: Json, depth: nat)
    ensures Abridges(v, Sanitized(v, depth), depth)
    decreases v, 2
  {
    if depth <= MAX_DEPTH {
      match v
      case Obj(entries) => MappingShows(v, Min(MAX_ENTRIES, |entries|), depth);
      case Arr(items) =>
        var n := Min(MAX_ENTRIES, |items|);
        forall i | 0 <= i < n
          ensures Abridges(items[i], Elements(v, n, depth)[i], depth + 1)
        {
          ElementsAt(v, n, depth, i);
          ResultAbridges(items[i], depth + 1);
        }
      case _ =>
    }
  }

  // ----- What the sanitiser leaves alone -----

  /** Within all bounds, with markers in all the right places. */
  ghost predicate Clean(v: Json, depth: nat)
    decreases v
  {
    if depth > MAX_DEPTH then v == TRUNCATED
    else
      match v
      case Obj(entries) =>
        && |entries| <= MAX_ENTRIES && DistinctKeys(entries)
        && (forall i :: 0 <= i < |entries| ==> |entries[i].key| <= MAX_KEY)
        && forall i :: 0 <= i < |entries| ==>
             if Sensitive(entries[i].key) then entries[i].value == REDACTED else Clean(entries[i].value, depth + 1)
      case Arr(items) => |items| <= MAX_ENTRIES && forall i :: 0 <= i < |items| ==> Clean(items[i], depth + 1)
      case Str(text) => |text| <= MAX_TEXT
      case Stamp(_) => false
      case Other(_) => false
      case _ => true
  }

  lemma {:induction false} CleanIsUnchanged(v: Json, depth: nat)
    requires Clean(v, depth)
    ensures Sanitized(v, depth) == v
    decreases v
  {
    if depth <= MAX_DEPTH {
      match v
      case Obj(entries) =>
        var pairs := Pairs(v, |entries|, depth);
        forall i | 0 <= i < |entries|
          ensures pairs[i] == entries[i]
        {
          PairsAt(v, |entries|, depth, i);
          if !Sensitive(entries[i].key) {
            CleanIsUnchanged(entries[i].value, depth + 1);
          }
        }
        assert pairs == entries;
        DictOfDistinct(entries);
      case Arr(items) =>
        var elements := Elements(v, |items|, depth);
        forall i | 0 <= i < |items|
          ensures elements[i] == items[i]
        {
          ElementsAt(v, |items|, depth, i);
          CleanIsUnchanged(items[i], depth + 1);
        }
        assert elements == items;
      case _ =>
    }
  }

  /** A mapping that comes out as it went in had short, distinct keys. */
  lemma UnchangedKeys(v: Json, depth: nat)
    requires v.Obj? && depth <= MAX_DEPTH && Sanitized(v, depth) == v
    ensures |v.entries| <= MAX_ENTRIES && DistinctKeys(v.entries) && Pairs(v, |v.entries|, depth) == v.entries
    ensures forall i :: 0 <= i < |v.entries| ==> |v.entries[i].key| <= MAX_KEY
  {
    var n := Min(MAX_ENTRIES, |v.entries|);
    var pairs := Pairs(v, n, depth);
    DictKeepsTheLast(pairs);
    forall i | 0 <= i < |v.entries|
      ensures |v.entries[i].key| <= MAX_KEY
    {
      assert v.entries[i] in Dict(pairs);
      var j: nat :| j < |pairs| && pairs[j] == v.entries[i];
      PairsAt(v, n, depth, j);
    }
    forall i | 0 <= i < n
      ensures pairs[i].key == v.entries[i].key
    {
      PairsAt(v, n, depth, i);
    }
    DictOfDistinct(pairs);
  }

  lemma {:induction false} UnchangedIsClean(v: Json, depth: nat)
    requires Sanitized(v, depth) == v
    ensures Clean(v, depth)
    decreases v
  {
    if depth <= MAX_DEPTH {
      match v
      case Obj(entries) =>
        UnchangedKeys(v, depth);
        forall i | 0 <= i < |entries|
          ensures if Sensitive(entries[i].key) then entries[i].value == REDACTED else Clean(entries[i].value, depth + 1)
        {
          PairsAt(v, |entries|, depth, i);
          if !Sensitive(entries[i].key) {
            UnchangedIsClean(entries[i].value, depth + 1);
          }
        }
      case Arr(items) =>
        forall i | 0 <= i < |items|
          ensures Clean(items[i], depth + 1)
        {
          ElementsAt(v, |items|, depth, i);
          UnchangedIsClean(items[i], depth + 1);
        }
      case _ =>
    }
  }

  // ----- Sanitising twice -----

  /**
   * What a caller can check for the result to be final: no date, identifier or decimal of more than
   * 2000 characters, and at the deepest level no key that is sensitive only beyond its first 120.
   */
  ghost predicate Stays(v: Json, depth: nat)
    decreases v
  {
    if depth > MAX_DEPTH then true
    else
      match v
      case Obj(entries) =>
        var n := Min(MAX_ENTRIES, |entries|);
        forall j :: 0 <= j < n && KeyWins(entries, n, j) ==>
          if Sensitive(entries[j].key) then depth < MAX_DEPTH || Sensitive(Cut(entries[j].key, MAX_KEY))
          else Stays(entries[j].value, depth + 1)
      case Arr(items) =>
        var n := Min(MAX_ENTRIES, |items|);
        forall j :: 0 <= j < n ==> Stays(items[j], depth + 1)
      case Stamp(text) => |text| <= MAX_TEXT
      case _ => true
  }

  ghost predicate CleanEntry(e: Entry, depth: nat) {
    if Sensitive(e.key) then e.value == REDACTED else Clean(e.value, depth + 1)
  }

  lemma DictIsClean(pairs: seq<Entry>, depth: nat)
    ensures (forall x :: x in Dict(pairs) ==> CleanEntry(x, depth)) <==>
              forall j: nat :: j < |pairs| && LastOfKey(pairs, j) ==> CleanEntry(pairs[j], depth)
  {
    DictKeepsTheLast(pairs);
    forall j: nat | j < |pairs| && LastOfKey(pairs, j)
      ensures pairs[j] in Dict(pairs)
    {
      assert Survives(pairs, pairs[j]);
    }
    forall x | x in Dict(pairs) && forall j: nat :: j < |pairs| && LastOfKey(pairs, j) ==> CleanEntry(pairs[j], depth)
      ensures CleanEntry(x, depth)
    {
      var j: nat :| j < |pairs| && pairs[j] == x && LastOfKey(pairs, j);
    }
  }

  lemma CleanMapping(entries: seq<Entry>, depth: nat)
    requires |entries| <= MAX_ENTRIES && DistinctKeys(entries) && depth <= MAX_DEPTH
    requires forall x :: x in entries ==> |x.key| <= MAX_KEY
    ensures Clean(Obj(entries), depth) <==> forall x :: x in entries ==> CleanEntry(x, depth)
  {
    assert forall i :: 0 <= i < |entries| ==> entries[i] in entries;
  }

  lemma MappingIsClean(v: Json, n: nat, depth: nat)
    requires v.Obj? && n == Min(MAX_ENTRIES, |v.entries|) && depth <= MAX_DEPTH
    ensures Clean(Sanitized(v, depth), depth) <==>
              forall j: nat :: j < n && KeyWins(v.entries, n, j) ==> CleanEntry(Pairs(v, n, depth)[j], depth)
  {
    var pairs := Pairs(v, n, depth);
    DictKeepsTheLast(pairs);
    forall x | x in Dict(pairs)
      ensures |x.key| <= MAX_KEY
    {
      var _ := EntryComesFrom(v, n, depth, x);
    }
    CleanMapping(Dict(pairs), depth);
    DictIsClean(pairs, depth);
    forall j: nat | j < n
      ensures LastOfKey(pairs, j) <==> KeyWins(v.entries, n, j)
    {
      WinningKeysAreLast(v, n, depth, j);
    }
  }

  /** The entry stays when it survives. */
  ghost predicate EntryStays(e: Entry, depth: nat) {
    if Sensitive(e.key) then depth < MAX_DEPTH || Sensitive(Cut(e.key, MAX_KEY)) else Stays(e.value, depth + 1)
  }

  lemma {:induction false} EntryCleanExactlyWhenItStays(v: Json, n: nat, depth: nat, j: nat)
    requires v.Obj? && j < n <= |v.entries| && depth <= MAX_DEPTH
    ensures CleanEntry(Pairs(v, n, depth)[j], depth) <==> EntryStays(v.entries[j], depth)
    decreases v, 0
  {
    var e := v.entries[j];
    PairsAt(v, n, depth, j);
    if !Sensitive(e.key) {
      if Sensitive(Cut(e.key, MAX_KEY)) {
        CutKeepsInnocence(e.key, MAX_KEY);
      }
      CleanExactlyWhenItStays(e.value, depth + 1);
    }
  }

  lemma {:induction false} CleanExactlyWhenItStays(v: Json, depth: nat)
    ensures Clean(Sanitized(v, depth), depth) <==> Stays(v, depth)
    decreases v, 1
  {
    if depth <= MAX_DEPTH {
      match v
      case Obj(entries) =>
        var n := Min(MAX_ENTRIES, |entries|);
        MappingIsClean(v, n, depth);
        forall j: nat | j < n
          ensures CleanEntry(Pairs(v, n, depth)[j], depth) <==> EntryStays(entries[j], depth)
        {
          EntryCleanExactlyWhenItStays(v, n, depth, j);
        }
      case Arr(items) =>
        var n := Min(MAX_ENTRIES, |items|);
        forall j | 0 <= j < n
          ensures Clean(Elements(v, n, depth)[j], depth + 1) <==> Stays(items[j], depth + 1)
        {
          ElementsAt(v, n, depth, j);
          CleanExactlyWhenItStays(items[j], depth + 1);
        }
      case _ =>
    }
  }

  /** Sanitising a second time changes nothing exactly when the value stays. */
  lemma SecondTimeIsNoOpExactlyWhenItStays(v: Json)
    ensures Sanitized(Sanitized(v, 0), 0) == Sanitized(v, 0) <==> Stays(v, 0)
  {
    var once := Sanitized(v, 0);
    CleanExactlyWhenItStays(v, 0);
    if Clean(once, 0) {
      CleanIsUnchanged(once, 0);
    }
    if Sanitized(once, 0) == once {
      UnchangedIsClean(once, 0);
    }
  }

  /** Keys of at most 120 characters, dates and the like of at most 2000. */
  ghost predicate Ordinary(v: Json)
    decreases v
  {
    match v
    case Obj(entries) => forall i :: 0 <= i < |entries| ==> |entries[i].key| <= MAX_KEY && Ordinary(entries[i].value)
    case Arr(items) => forall i :: 0 <= i < |items| ==> Ordinary(items[i])
    case Stamp(text) => |text| <= MAX_TEXT
    case _ => true
  }

  lemma {:induction false} OrdinaryStays(v: Json, depth: nat)
    requires Ordinary(v)
    ensures Stays(v, depth)
    decreases v
  {
    if depth <= MAX_DEPTH {
      match v
      case Obj(entries) =>
        forall j | 0 <= j < |entries|
          ensures Cut(entries[j].key, MAX_KEY) == entries[j].key && Stays(entries[j].value, depth + 1)
        {
          OrdinaryStays(entries[j].value, depth + 1);
        }
      case Arr(items) =>
        forall j | 0 <= j < |items|
          ensures Stays(items[j], depth + 1)
        {
          OrdinaryStays(items[j], depth + 1);
        }
      case _ =>
    }
  }

  /** So sanitising is idempotent on ordinary values, JSON in particular. */
  lemma SanitizingIsIdempotent(v: Json)
    requires Ordinary(v)
    ensures Sanitized(Sanitized(v, 0), 0) == Sanitized(v, 0)
  {
    OrdinaryStays(v, 0);
    SecondTimeIsNoOpExactlyWhenItStays(v);
  }

  // ----- Two values that change the second time -----

  /** A decimal of 2001 digits is kept whole the first time. */
  lemma LongDecimalIsCutLater()
    ensures var v := Stamp(seq(MAX_TEXT + 1, _ => '9')); Sanitized(Sanitized(v, 0), 0) != Sanitized(v, 0)
  {
    SecondTimeIsNoOpExactlyWhenItStays(Stamp(seq(MAX_TEXT + 1, _ => '9')));
  }

  function Wrapped(v: Json, n: nat): Json {
    if n == 0 then v else Arr([Wrapped(v, n - 1)])
  }

  lemma {:induction false} WrappedStays(v: Json, n: nat, depth: nat)
    requires depth + n <= MAX_DEPTH
    ensures Stays(Wrapped(v, n), depth) <==> Stays(v, depth + n)
  {
    if n > 0 {
      WrappedStays(v, n - 1, depth + 1);
      assert Wrapped(v, n).items[0] == Wrapped(v, n - 1);
    }
  }

  const LONG_KEY := seq(MAX_KEY, _ => 'x') + "password"

  lemma NothingStartsWithX(key: string, i: nat)
    requires i < |key| && Fold(key[i]) == 'x'
    ensures !ApiKeyAt(key, i) && !WordAt(key, i)
  {
    forall w | 0 <= w < |WORDS|
      ensures !At(key, i, WORDS[w])
    {
      assert WORDS[w][0] != 'x' && key[i + 0] == key[i];
    }
    assert "api"[0] == 'a' && key[i + 0] == key[i];
  }

  lemma LongKeyIsSensitiveOnlyWhole()
    ensures Sensitive(LONG_KEY) && !Sensitive(Cut(LONG_KEY, MAX_KEY))
  {
    assert At(LONG_KEY, MAX_KEY, WORDS[0]);
    assert WordAt(LONG_KEY, MAX_KEY);
    var short := Cut(LONG_KEY, MAX_KEY);
    assert forall i :: 0 <= i < |short| ==> Fold(short[i]) == 'x';
    forall i: nat | i < |short|
      ensures !ApiKeyAt(short, i) && !WordAt(short, i)
    {
      NothingStartsWithX(short, i);
    }
  }

  /** Eight levels down, the marker under a shortened key becomes a truncation marker. */
  lemma DeepMarkerIsLost()
    ensures var v := Wrapped(Obj([Entry(LONG_KEY, Null)]), MAX_DEPTH);
            Sanitized(Sanitized(v, 0), 0) != Sanitized(v, 0)
  {
    var inner := Obj([Entry(LONG_KEY, Null)]);
    LongKeyIsSensitiveOnlyWhole();
    assert KeyWins(inner.entries, 1, 0) && inner.entries[0].key == LONG_KEY;
    assert Min(MAX_ENTRIES, |inner.entries|) == 1;
    assert !Stays(inner, MAX_DEPTH);
    WrappedStays(inner, MAX_DEPTH, 0);
    SecondTimeIsNoOpExactlyWhenItStays(Wrapped(inner, MAX_DEPTH));
  }

  // ----- Which keys are sensitive -----

  /** The character reads as the small letter, whatever its case. */
  predicate Reads(c: char, letter: char) {
    || c == letter
    || ('a' <= letter <= 'z' && c as int == letter as int - 32)
    || (letter == 's' && c == '\U{017F}') || (letter == 'k' && c == '\U{212A}')
    || (letter == 'i' && (c == '\U{0130}' || c == '\U{0131}'))
  }

  /** The word is in the key at the position, in any case. */
  predicate ReadsAt(key: string, i: nat, word: string) {
    i + |word| <= |key| && forall k :: 0 <= k < |word| ==> Reads(key[i + k], word[k])
  }

  /** A word for a secret begins at the position; "api key" may be joined by one character, but not by a line break. */
  predicate NamesSecretAt(key: string, i: nat) {
    || ReadsAt(key, i, "password") || ReadsAt(key, i, "passwd") || ReadsAt(key, i, "secret") || ReadsAt(key, i, "token")
    || ReadsAt(key, i, "authorization") || ReadsAt(key, i, "cookie") || ReadsAt(key, i, "credential")
    || (ReadsAt(key, i, "api") && ReadsAt(key, i + 3, "key"))
    || (ReadsAt(key, i, "api") && ReadsAt(key, i + 4, "key") && key[i + 3] != '\n')
  }

  lemma AtReads(key: string, i: nat, word: string)
    requires forall k :: 0 <= k < |word| ==> 'a' <= word[k] <= 'z'
    ensures At(key, i, word) <==> ReadsAt(key, i, word)
  {
    assert forall c: char, letter: char :: 'a' <= letter <= 'z' ==> (Fold(c) == letter <==> Reads(c, letter));
  }

  lemma WordAtReads(key: string, i: nat)
    ensures WordAt(key, i) <==>
              || ReadsAt(key, i, "password") || ReadsAt(key, i, "passwd") || ReadsAt(key, i, "secret")
              || ReadsAt(key, i, "token") || ReadsAt(key, i, "authorization") || ReadsAt(key, i, "cookie")
              || ReadsAt(key, i, "credential")
  {
    assert WORDS[0] == "password" && WORDS[1] == "passwd" && WORDS[2] == "secret" && WORDS[3] == "token";
    assert WORDS[4] == "authorization" && WORDS[5] == "cookie" && WORDS[6] == "credential" && |WORDS| == 7;
    forall w | 0 <= w < |WORDS|
      ensures At(key, i, WORDS[w]) <==> ReadsAt(key, i, WORDS[w])
    {
      AtReads(key, i, WORDS[w]);
    }
  }

  /** A key is sensitive exactly when it contains one of the words, in any case. */
  lemma SensitiveExactlyWithAWord(key: string)
    ensures Sensitive(key) <==> exists i: nat :: i < |key| && NamesSecretAt(key, i)
  {
    forall i: nat
      ensures ApiKeyAt(key, i) || WordAt(key, i) <==> NamesSecretAt(key, i)
    {
      WordAtReads(key, i);
      AtReads(key, i, "api");
      AtReads(key, i + 3, "key");
      AtReads(key, i + 4, "key");
    }
  }

  /** The limits in numbers: nine levels, 100 entries, keys of 120 characters and texts of 2000. */
  lemma LimitsInNumbers(text: string, items: seq<Json>, key: string, v: Json, depth: nat)
    ensures Sanitized(v, 9 + depth) == Str("[TRUNCATED]") && Sanitized(Null, 8) == Null
    ensures Sanitized(Str(text), 0) == Str(if |text| <= 2000 then text else text[..2000])
    ensures |Sanitized(Arr(items), 0).items| == Min(100, |items|)
    ensures Sanitized(Obj([Entry(key, v)]), 0)
         == Obj([Entry(if |key| <= 120 then key else key[..120],
                       if Sensitive(key) then Str("[REDACTED]") else Sanitized(v, 1))])
  {
    var o := Obj([Entry(key, v)]);
    var pairs := Pairs(o, 1, 0);
    PairsAt(o, 1, 0, 0);
    assert Sanitized(o, 0) == Obj(Dict(pairs)) by { assert Min(MAX_ENTRIES, |o.entries|) == 1; }
    assert pairs[..0] == [] && Dict(pairs) == [pairs[0]];
    assert key[..|key|] == key && text[..|text|] == text;
    assert pairs[0] == Entry(Cut(key, 120), pairs[0].value);
  }
}
