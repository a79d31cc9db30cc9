// Helpers behind the trends charts: the moving average that smooths a
// series, the weekly waist means, the date-range filter applied to the
// plotted entries, and the labels chosen from the combo boxes.

module Trends {
  import opened Common
  import opened Text
  import opened Models
  import opened Aggregation

  // ---------------------------------------------------------------------
  // Moving average

  /** The mean of the `window` values that start at index `i`. */
  function WindowMean(values: seq<real>, i: int, window: int): real
    requires 1 <= window && 0 <= i && i + window <= |values|
  {
    Sum(values[i..i + window]) / (window as real)
  }

  /** How many full windows fit in `n` values: max(0, n - window + 1). */
  function WindowCount(n: int, window: int): nat
  {
    if n - window + 1 > 0 then n - window + 1 else 0
  }

  /**
   * `_moving_average`: a copy of the input for a window of at most one,
   * otherwise one mean per full window, the i-th over values[i..i+window].
   */
  method MovingAverage(values: seq<real>, window: int) returns (result: seq<real>)
    ensures window <= 1 ==> result == values
    ensures window > 1 ==> |result| == WindowCount(|values|, window)
    ensures window > 1 ==> forall i :: 0 <= i < |result| ==> i + window <= |values| && result[i] == WindowMean(values, i, window)
  {
    if window <= 1 {
      return values;
    }
    result := [];
    var idx := window - 1;
    while idx < |values|
      invariant window - 1 <= idx
      invariant idx <= |values| || idx == window - 1
      invariant |result| == idx - (window - 1)
      invariant forall i :: 0 <= i < |result| ==> i + window <= |values| && result[i] == WindowMean(values, i, window)
    {
      var subset := values[idx - window + 1..idx + 1];
      result := result + [Sum(subset) / (window as real)];
      idx := idx + 1;
    }
  }

  /** A smoothed point lies between the smallest and the largest value of its window. */
  lemma WindowMeanBounds(values: seq<real>, i: int, window: int, lo: real, hi: real)
    requires 1 <= window && 0 <= i && i + window <= |values|
    requires forall k :: i <= k < i + window ==> lo <= values[k] <= hi
    ensures lo <= WindowMean(values, i, window) <= hi
  {
    var xs := values[i..i + window];
    assert forall k :: 0 <= k < |xs| ==> xs[k] == values[i + k];
    SumBounds(xs, lo, hi);
    MeanBetween(Sum(xs), window as real, lo, hi);
  }

  /** With a window of one the general formula gives the values back, as the early copy does. */
  lemma {:induction false} UnitWindow(values: seq<real>, i: int)
    requires 0 <= i < |values|
    ensures WindowMean(values, i, 1) == values[i]
  {
    var xs := values[i..i + 1];
    assert xs[..0] == [];
    assert Sum(xs) == Sum(xs[..0]) + xs[0];
  }

  // ---------------------------------------------------------------------
  // Weekly waist means

  /** An entry contributes a waist to the weekly chart. */
  predicate HasWaistWeek(e: MeasurementEntry)
  {
    !e.isDeleted && e.dateLocal.Some? && e.waistCm.Some?
  }

  function WaistWeek(e: MeasurementEntry): int
    requires HasWaistWeek(e)
  {
    WeekStartDate(e.dateLocal.value)
  }

  /** The waists, in order, of the contributing entries whose week starts on `w`. */
  ghost function WaistBucket(es: seq<MeasurementEntry>, w: int): seq<real>
  {
    if es == [] then []
    else
      var e := es[|es| - 1];
      WaistBucket(es[..|es| - 1], w) + (if HasWaistWeek(e) && WaistWeek(e) == w then [e.waistCm.value] else [])
  }

  ghost predicate AscendingStarts(ps: seq<(int, real)>)
  {
    forall i, j :: 0 <= i < j < |ps| ==> ps[i].0 < ps[j].0
  }

  ghost predicate DistinctStarts(ps: seq<(int, real)>)
  {
    forall i, j :: 0 <= i < j < |ps| ==> ps[i].0 != ps[j].0
  }

  /** `summaries.sort(key=lambda item: item[0])` over pairs with distinct weeks. */
  function SortByStart(ps: seq<(int, real)>): (r: seq<(int, real)>)
    requires DistinctStarts(ps)
    ensures |r| == |ps| && AscendingStarts(r)
    ensures forall x :: x in r <==> x in ps
  {
    if ps == [] then []
    else
      assert DistinctStarts(ps[..|ps| - 1]);
      var last := ps[|ps| - 1];
      var rest := SortByStart(ps[..|ps| - 1]);
      assert forall x :: x in rest ==> x.0 != last.0 by {
        forall x | x in rest ensures x.0 != last.0 {
          var i :| 0 <= i < |ps| - 1 && ps[i] == x;
        }
      }
      InsertByStart(last, rest)
  }

  function InsertByStart(x: (int, real), t: seq<(int, real)>): (r: seq<(int, real)>)
    requires AscendingStarts(t)
    requires forall y :: y in t ==> y.0 != x.0
    ensures |r| == |t| + 1 && AscendingStarts(r)
    ensures forall y :: y in r <==> y == x || y in t
  {
    if t == [] then [x]
    else if x.0 < t[0].0 then [x] + t
    else
      var rest := InsertByStart(x, t[1..]);
      assert forall y :: y in t <==> y == t[0] || y in t[1..];
      assert forall y :: y in rest ==> t[0].0 < y.0 by {
        forall y | y in rest ensures t[0].0 < y.0 {
          if y != x {
            var j :| 0 <= j < |t[1..]| && t[1..][j] == y;
            assert t[j + 1] == y;
          }
        }
      }
      [t[0]] + rest
  }

  /** The dict the first loop of `_weekly_waist_summaries` builds. */
  ghost function WaistMap(es: seq<MeasurementEntry>): map<int, seq<real>>
  {
    if es == [] then map[]
    else
      var e := es[|es| - 1];
      var m := WaistMap(es[..|es| - 1]);
      if HasWaistWeek(e) then
        var w := WaistWeek(e);
        m[w := (if w in m then m[w] else []) + [e.waistCm.value]]
      else m
  }

  /** The dict's keys in insertion order. */
  ghost function WaistOrder(es: seq<MeasurementEntry>): seq<int>
  {
    if es == [] then []
    else
      var e := es[|es| - 1];
      var prefix := es[..|es| - 1];
      WaistOrder(prefix) + (if HasWaistWeek(e) && WaistWeek(e) !in WaistMap(prefix) then [WaistWeek(e)] else [])
  }

  lemma WaistMapSnoc(es: seq<MeasurementEntry>, e: MeasurementEntry)
    ensures !HasWaistWeek(e) ==> WaistMap(es + [e]) == WaistMap(es) && WaistOrder(es + [e]) == WaistOrder(es)
    ensures HasWaistWeek(e) ==> var m := WaistMap(es); var w := WaistWeek(e);
      && WaistMap(es + [e]) == m[w := (if w in m then m[w] else []) + [e.waistCm.value]]
      && WaistOrder(es + [e]) == WaistOrder(es) + (if w in m then [] else [w])
  {
    assert (es + [e])[..|es|] == es;
  }

  lemma {:induction false} WaistMapSpec(es: seq<MeasurementEntry>, w: int)
    ensures w in WaistMap(es) <==> WaistBucket(es, w) != []
    ensures w in WaistMap(es) ==> WaistMap(es)[w] == WaistBucket(es, w)
  {
    if es != [] {
      WaistMapSpec(es[..|es| - 1], w);
    }
  }

  lemma {:induction false} WaistOrderSpec(es: seq<MeasurementEntry>)
    ensures forall w :: w in WaistOrder(es) <==> w in WaistMap(es)
    ensures forall a, b :: 0 <= a < b < |WaistOrder(es)| ==> WaistOrder(es)[a] != WaistOrder(es)[b]
  {
    if es != [] {
      WaistOrderSpec(es[..|es| - 1]);
    }
  }

  /** The first loop of `_weekly_waist_summaries`: `setdefault(start, []).append(waist)`. */
  method GroupWaists(entries: seq<MeasurementEntry>) returns (buckets: map<int, seq<real>>, order: seq<int>)
    ensures buckets == WaistMap(entries) && order == WaistOrder(entries)
  {
    buckets := map[];
    order := [];
    var i := 0;
    while i < |entries|
      invariant 0 <= i <= |entries|
      invariant buckets == WaistMap(entries[..i]) && order == WaistOrder(entries[..i])
    {
      var e := entries[i];
      assert entries[..i + 1] == entries[..i] + [e];
      WaistMapSnoc(entries[..i], e);
      if HasWaistWeek(e) {
        var start := WeekStartDate(e.dateLocal.value);
        if start in buckets {
          buckets := buckets[start := buckets[start] + [e.waistCm.value]];
        } else {
          assert [] + [e.waistCm.value] == [e.waistCm.value];
          buckets := buckets[start := [e.waistCm.value]];
          order := order + [start];
        }
      }
      i := i + 1;
    }
    assert entries[..i] == entries;
  }

  /** What the grouping gives: each key once, holding exactly its week's waists. */
  lemma GroupWaistsSpec(es: seq<MeasurementEntry>)
    ensures forall j :: 0 <= j < |WaistOrder(es)| ==> var w := WaistOrder(es)[j];
              w in WaistMap(es) && WaistMap(es)[w] == WaistBucket(es, w) != []
    ensures forall w :: WaistBucket(es, w) != [] ==> w in WaistOrder(es)
    ensures forall a, b :: 0 <= a < b < |WaistOrder(es)| ==> WaistOrder(es)[a] != WaistOrder(es)[b]
  {
    WaistOrderSpec(es);
    forall w ensures w in WaistMap(es) <==> WaistBucket(es, w) != []
      ensures w in WaistMap(es) ==> WaistMap(es)[w] == WaistBucket(es, w)
    {
      WaistMapSpec(es, w);
    }
  }

  /** The second loop: one (week start, mean) pair per key, in insertion order. */
  method SummarizeWaists(buckets: map<int, seq<real>>, order: seq<int>) returns (summaries: seq<(int, real)>)
    requires forall j :: 0 <= j < |order| ==> order[j] in buckets && buckets[order[j]] != []
    ensures |summaries| == |order|
    ensures forall j :: 0 <= j < |order| ==> summaries[j] == (order[j], Mean(buckets[order[j]]))
  {
    summaries := [];
    var k := 0;
    while k < |order|
      invariant 0 <= k <= |order|
      invariant |summaries| == k
      invariant forall j :: 0 <= j < k ==> summaries[j] == (order[j], Mean(buckets[order[j]]))
    {
      var start := order[k];
      var values := buckets[start];
      summaries := summaries + [(start, Sum(values) / (|values| as real))];
      k := k + 1;
    }
  }

  /**
   * `_weekly_waist_summaries`: entries that are deleted, undated or without
   * a waist are skipped; one (week start, mean waist) pair per remaining
   * week, ascending by week.
   */
  method WeeklyWaistSummaries(entries: seq<MeasurementEntry>) returns (r: seq<(int, real)>)
    ensures AscendingStarts(r)
    ensures forall k :: 0 <= k < |r| ==>
              WaistBucket(entries, r[k].0) != [] && r[k].1 == Mean(WaistBucket(entries, r[k].0))
    ensures forall w :: WaistBucket(entries, w) != [] ==> exists k :: 0 <= k < |r| && r[k].0 == w
  {
    var buckets, order := GroupWaists(entries);
    GroupWaistsSpec(entries);
    var summaries := SummarizeWaists(buckets, order);
    forall w | WaistBucket(entries, w) != []
      ensures exists j :: 0 <= j < |summaries| && summaries[j].0 == w
    {
      var j :| 0 <= j < |order| && order[j] == w;
      assert summaries[j].0 == w;
    }
    r := SortByStart(summaries);
    SortedSummaries(entries, summaries);
  }

  /** Sorting the per-week pairs by week keeps one pair for every week that has waists. */
  lemma SortedSummaries(entries: seq<MeasurementEntry>, summaries: seq<(int, real)>)
    requires DistinctStarts(summaries)
    requires forall j :: 0 <= j < |summaries| ==>
               WaistBucket(entries, summaries[j].0) != [] && summaries[j].1 == Mean(WaistBucket(entries, summaries[j].0))
    requires forall w :: WaistBucket(entries, w) != [] ==> exists j :: 0 <= j < |summaries| && summaries[j].0 == w
    ensures var r := SortByStart(summaries);
      && (forall k :: 0 <= k < |r| ==>
            WaistBucket(entries, r[k].0) != [] && r[k].1 == Mean(WaistBucket(entries, r[k].0)))
      && (forall w :: WaistBucket(entries, w) != [] ==> exists k :: 0 <= k < |r| && r[k].0 == w)
  {
    var r := SortByStart(summaries);
    forall w | WaistBucket(entries, w) != []
      ensures exists k :: 0 <= k < |r| && r[k].0 == w
    {
      var j :| 0 <= j < |summaries| && summaries[j].0 == w;
      assert summaries[j] in r;
    }
    forall k | 0 <= k < |r|
      ensures WaistBucket(entries, r[k].0) != [] && r[k].1 == Mean(WaistBucket(entries, r[k].0))
    {
      assert r[k] in summaries;
    }
  }

  /**
   * When every live entry is dated, the chart's weekly waist for a week is
   * the list of waists that `compute_weekly_summaries` averages for it.
   */
  lemma {:induction false} WaistBucketAgrees(es: seq<MeasurementEntry>, w: int)
    requires AllDated(es)
    ensures WaistBucket(es, w) == Waists(Bucket(es, w))
  {
    if es != [] {
      var prefix := es[..|es| - 1];
      var e := es[|es| - 1];
      assert AllDated(prefix);
      WaistBucketAgrees(prefix, w);
      var b := Bucket(prefix, w);
      if !e.isDeleted && WeekOf(e) == w {
        assert (b + [e])[..|b|] == b;
      } else {
        assert b + [] == b;
      }
    }
  }

  /** So the two agree on the mean waist of every week that has one. */
  lemma WeeklyWaistMatchesSummary(es: seq<MeasurementEntry>, w: int)
    requires AllDated(es) && WaistBucket(es, w) != []
    ensures Bucket(es, w) != []
    ensures SummaryOf(w, Bucket(es, w)).avgWaistCm == Some(Mean(WaistBucket(es, w)))
  {
    WaistBucketAgrees(es, w);
  }

  // ---------------------------------------------------------------------
  // Date range

  /** The day ordinal of 1 January of year `y`, as `date(y, 1, 1).toordinal()`. */
  function YearStart(y: int): int
  {
    var p := y - 1;
    365 * p + p / 4 - p / 100 + p / 400 + 1
  }

  lemma DivStep(p: int, k: int)
    requires k == 4 || k == 100 || k == 400
    ensures 0 <= (p + 1) / k - p / k <= 1
  {
    var q := p / k;
    var r := p % k;
    assert p == k * q + r && 0 <= r < k;
    if r == k - 1 {
      assert p + 1 == k * (q + 1) + 0;
    } else {
      assert p + 1 == k * q + (r + 1);
    }
  }

  /** A year has 365 or 366 days (the bound below is all termination needs). */
  lemma YearLength(y: int)
    ensures 364 <= YearStart(y + 1) - YearStart(y) <= 366
  {
    var p := y - 1;
    DivStep(p, 4);
    DivStep(p, 100);
    DivStep(p, 400);
    var d4, d100, d400 := (p + 1) / 4 - p / 4, (p + 1) / 100 - p / 100, (p + 1) / 400 - p / 400;
    assert YearStart(y) == 365 * p + p / 4 - p / 100 + p / 400 + 1;
    assert YearStart(y + 1) == 365 * p + 365 + (p + 1) / 4 - (p + 1) / 100 + (p + 1) / 400 + 1;
    assert YearStart(y + 1) - YearStart(y) == 365 + d4 - d100 + d400;
  }

  /** The year containing day `d`: the `year` field of `date.fromordinal(d)`. */
  function YearOf(d: int): (y: int)
    requires d >= 1
    ensures y >= 1 && YearStart(y) <= d < YearStart(y + 1)
  {
    YearFrom(1, d)
  }

  function YearFrom(y: int, d: int): (r: int)
    requires y >= 1 && YearStart(y) <= d
    ensures r >= y && YearStart(r) <= d < YearStart(r + 1)
    decreases d - YearStart(y)
  {
    YearLength(y);
    if d < YearStart(y + 1) then y else YearFrom(y + 1, d)
  }

  /** The first day shown for a range other than "All". */
  function RangeStart(selection: string, today: int): int
    requires today >= 1
  {
    if selection == "4 weeks" then today - 28
    else if selection == "12 weeks" then today - 84
    else YearStart(YearOf(today))
  }

  /** The year-to-date range starts less than a year back and never after today. */
  lemma YearToDateStart(selection: string, today: int)
    requires today >= 1 && selection != "4 weeks" && selection != "12 weeks"
    ensures today - 366 < RangeStart(selection, today) <= today
  {
    YearLength(YearOf(today));
  }

  predicate MeasuredBy(a: MeasurementEntry, b: MeasurementEntry)
  {
    a.measuredAt.Instant() <= b.measuredAt.Instant()
  }

  ghost predicate SortedByMeasured(es: seq<MeasurementEntry>)
  {
    forall i, j :: 0 <= i < j < |es| ==> MeasuredBy(es[i], es[j])
  }

  /** `sorted(..., key=measured_at)`: an insertion sort by instant, stable (`SortByMeasuredStable`). */
  function SortByMeasured(es: seq<MeasurementEntry>): (r: seq<MeasurementEntry>)
    ensures SortedByMeasured(r)
    ensures multiset(r) == multiset(es)
  {
    if es == [] then []
    else
      assert es == es[..|es| - 1] + [es[|es| - 1]];
      InsertByMeasured(es[|es| - 1], SortByMeasured(es[..|es| - 1]))
  }

  /** Inserts `x` after every entry measured no later than it. */
  function InsertByMeasured(x: MeasurementEntry, t: seq<MeasurementEntry>): (r: seq<MeasurementEntry>)
    requires SortedByMeasured(t)
    ensures SortedByMeasured(r)
    ensures multiset(r) == multiset(t) + multiset{x}
    ensures forall k :: 0 <= k < |r| ==> r[k] == x || r[k] in t
  {
    if t == [] then [x]
    else if x.measuredAt.Instant() < t[0].measuredAt.Instant() then
      assert forall k :: 0 <= k < |t| ==> MeasuredBy(t[0], t[k]);
      ConsByMeasured(x, t);
      [x] + t
    else
      var rest := InsertByMeasured(x, t[1..]);
      assert t == [t[0]] + t[1..];
      FirstMeasuredFirst(x, t, rest);
      ConsByMeasured(t[0], rest);
      [t[0]] + rest
  }

  /** An entry measured no later than every entry of a sorted list can go in front of it. */
  lemma ConsByMeasured(h: MeasurementEntry, rest: seq<MeasurementEntry>)
    requires SortedByMeasured(rest)
    requires forall k :: 0 <= k < |rest| ==> MeasuredBy(h, rest[k])
    ensures SortedByMeasured([h] + rest)
  {
    var r := [h] + rest;
    forall i, j | 0 <= i < j < |r|
      ensures MeasuredBy(r[i], r[j])
    {
      assert r[j] == rest[j - 1];
      if i > 0 {
        assert r[i] == rest[i - 1];
      }
    }
  }

  /** Entries measured at the same instant keep their input order. */
  lemma {:induction false} SortByMeasuredStable(es: seq<MeasurementEntry>, t: int)
    ensures AtInstant(SortByMeasured(es), t) == AtInstant(es, t)
  {
    if es != [] {
      var init, x := es[..|es| - 1], es[|es| - 1];
      SortByMeasuredStable(init, t);
      InsertByMeasuredStable(x, SortByMeasured(init), t);
      SortByMeasuredLast(es);
      AtInstantSnoc(es, t);
      AtInstantCons(x, [], t);
    }
  }

  lemma SortByMeasuredLast(es: seq<MeasurementEntry>)
    requires es != []
    ensures SortByMeasured(es) == InsertByMeasured(es[|es| - 1], SortByMeasured(es[..|es| - 1]))
  {
  }

  /** The inserted entry goes after every entry measured at its instant. */
  lemma {:induction false} InsertByMeasuredStable(x: MeasurementEntry, s: seq<MeasurementEntry>, t: int)
    requires SortedByMeasured(s)
    ensures AtInstant(InsertByMeasured(x, s), t)
            == AtInstant(s, t) + (if x.measuredAt.Instant() == t then [x] else [])
    decreases |s|
  {
    if s == [] {
      AtInstantCons(x, [], t);
    } else if x.measuredAt.Instant() < s[0].measuredAt.Instant() {
      assert InsertByMeasured(x, s) == [x] + s;
      AtInstantCons(x, s, t);
      if x.measuredAt.Instant() == t {
        assert forall k :: 0 <= k < |s| ==> MeasuredBy(s[0], s[k]);
        AtInstantNone(s, t);
      }
    } else {
      var rest := InsertByMeasured(x, s[1..]);
      assert InsertByMeasured(x, s) == [s[0]] + rest;
      InsertByMeasuredStable(x, s[1..], t);
      AtInstantAppendAfterHead(s, rest, if x.measuredAt.Instant() == t then [x] else [], t);
    }
  }

  lemma FirstMeasuredFirst(x: MeasurementEntry, t: seq<MeasurementEntry>, rest: seq<MeasurementEntry>)
    requires SortedByMeasured(t) && t != [] && MeasuredBy(t[0], x)
    requires forall k :: 0 <= k < |rest| ==> rest[k] == x || rest[k] in t[1..]
    ensures forall k :: 0 <= k < |rest| ==> MeasuredBy(t[0], rest[k])
  {
    forall k | 0 <= k < |rest| ensures MeasuredBy(t[0], rest[k]) {
      if rest[k] != x {
        var j :| 0 <= j < |t[1..]| && t[1..][j] == rest[k];
        assert t[j + 1] == rest[k];
      }
    }
  }

  /** The entries measured on or after day `start`, in their order. */
  function MeasuredSince(es: seq<MeasurementEntry>, start: int): (r: seq<MeasurementEntry>)
    ensures forall e :: e in r <==> e in es && e.measuredAt.Date() >= start
    ensures forall e :: e in es && e.measuredAt.Date() >= start ==> multiset(r)[e] == multiset(es)[e]
    ensures multiset(r) <= multiset(es)
  {
    if es == [] then []
    else
      var e := es[|es| - 1];
      assert es == es[..|es| - 1] + [e];
      MeasuredSince(es[..|es| - 1], start) + (if e.measuredAt.Date() >= start then [e] else [])
  }

  /**
   * `_apply_range`: "All" sorts every entry by measurement time; any other
   * selection keeps the entries measured on or after its start day first.
   */
  function ApplyRange(selection: string, today: int, entries: seq<MeasurementEntry>): (r: seq<MeasurementEntry>)
    requires today >= 1
    ensures SortedByMeasured(r)
    ensures selection == "All" ==> multiset(r) == multiset(entries)
    ensures selection != "All" ==> forall e :: e in r <==> e in entries && e.measuredAt.Date() >= RangeStart(selection, today)
    ensures selection != "All" ==> forall e :: e in r ==> multiset(r)[e] == multiset(entries)[e]
  {
    if selection == "All" then SortByMeasured(entries)
    else SortByMeasured(MeasuredSince(entries, RangeStart(selection, today)))
  }

  /** Every entry shown for "4 weeks" is also shown for "12 weeks" and for "All". */
  lemma RangesNest(today: int, entries: seq<MeasurementEntry>, e: MeasurementEntry)
    requires today >= 1 && e in ApplyRange("4 weeks", today, entries)
    ensures e in ApplyRange("12 weeks", today, entries)
    ensures e in ApplyRange("All", today, entries)
  {
    assert e in entries;
    assert e in multiset(entries);
  }

  // ---------------------------------------------------------------------
  // Combo-box and legend labels

  /** `_smoothing_window_points`: the leading digits of the label choose 7, 14 or 28 points. */
  function SmoothingWindowPoints(selection: string): (points: int)
    ensures points == 7 <==> StartsWith(selection, "7")
    ensures points == 14 <==> !StartsWith(selection, "7") && StartsWith(selection, "14")
    ensures points == 28 <==> !StartsWith(selection, "7") && !StartsWith(selection, "14")
  {
    if StartsWith(selection, "7") then 7
    else if StartsWith(selection, "14") then 14
    else 28
  }

  /** The three labels offered choose three different windows, each wider than one point. */
  lemma OfferedWindows()
    ensures SmoothingWindowPoints("7 points") == 7
    ensures SmoothingWindowPoints("14 points") == 14
    ensures SmoothingWindowPoints("28 points") == 28
  {
    assert "7 points"[..1] == "7";
    assert "14 points"[..1][0] == '1' && "14 points"[..2] == "14";
    assert "28 points"[..1][0] == '2' && "28 points"[..2][0] == '2';
  }

  /**
   * `_friend_share_suffix`: the legend note after a friend's name, by which
   * of weight and waist the friend shares.
   */
  function FriendShareSuffix(sharesWeight: bool, sharesWaist: bool): (suffix: string)
    ensures suffix == "" <==> sharesWeight && sharesWaist
    ensures suffix == " (weight only)" <==> sharesWeight && !sharesWaist
    ensures suffix == " (waist only)" <==> !sharesWeight && sharesWaist
    ensures suffix == " (not sharing)" <==> !sharesWeight && !sharesWaist
  {
    if sharesWeight || sharesWaist then
      if sharesWeight && sharesWaist then ""
      else if sharesWeight then " (weight only)"
      else " (waist only)"
    else " (not sharing)"
  }
}
