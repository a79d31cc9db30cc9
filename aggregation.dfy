// Weekly aggregation of measurement entries: the Sunday that starts an entry's
// week, one summary per week with the mean weight and waist, and the
// week-over-week deltas between consecutive summaries.

module Aggregation {
  import opened Common
  import opened Models

  datatype WeeklySummary = WeeklySummary(weekStart: int, avgWeightKg: real, avgWaistCm: Option<real>, countEntries: int)

  datatype WeeklyDelta = WeeklyDelta(weekStart: int, deltaWeightKg: Option<real>, deltaWaistCm: Option<real>)

  /** The Sunday on or before the day ordinal `d`. */
  function WeekStartDate(d: int): (s: int)
    ensures Weekday(s) == 6
    ensures s <= d < s + 7
  {
    var back := (Weekday(d) + 1) % 7;
    WeekdayShift(d, back);
    d - back
  }

  lemma WeekdayShift(d: int, back: int)
    requires back == (Weekday(d) + 1) % 7
    ensures Weekday(d - back) == 6 && 0 <= back < 7
  {
    var w := Weekday(d);
    assert d + 6 == 7 * ((d + 6) / 7) + w;
    if w == 6 {
      assert back == 0;
    } else {
      assert back == w + 1;
      assert d - back + 6 == 7 * ((d + 6) / 7) - 1;
      assert d - back + 6 == 7 * ((d + 6) / 7 - 1) + 6;
    }
  }

  /** The only Sunday `s` with `s <= d < s + 7` is the week start of `d`. */
  lemma {:induction false} SundayUnique(s: int, d: int)
    requires Weekday(s) == 6 && s <= d < s + 7
    ensures WeekStartDate(d) == s
  {
    var t := WeekStartDate(d);
    SundaysApart(s, t);
  }

  lemma SundaysApart(s: int, t: int)
    requires Weekday(s) == 6 && Weekday(t) == 6
    ensures (s - t) % 7 == 0
  {
    assert s + 6 == 7 * ((s + 6) / 7) + 6;
    assert t + 6 == 7 * ((t + 6) / 7) + 6;
    assert s - t == 7 * ((s + 6) / 7 - (t + 6) / 7);
  }

  lemma WeekStartIdempotent(d: int)
    ensures WeekStartDate(WeekStartDate(d)) == WeekStartDate(d)
  {
    SundayUnique(WeekStartDate(d), WeekStartDate(d));
  }

  /** Every non-deleted entry carries a local date. */
  ghost predicate AllDated(es: seq<MeasurementEntry>)
  {
    forall i :: 0 <= i < |es| && !es[i].isDeleted ==> es[i].dateLocal.Some?
  }

  function WeekOf(e: MeasurementEntry): int
    requires e.dateLocal.Some?
  {
    WeekStartDate(e.dateLocal.value)
  }

  /** The non-deleted entries of `es` whose week starts on `w`, in their order in `es`. */
  ghost function Bucket(es: seq<MeasurementEntry>, w: int): (b: seq<MeasurementEntry>)
    requires AllDated(es)
    ensures forall i :: 0 <= i < |b| ==> !b[i].isDeleted && b[i].dateLocal.Some? && WeekOf(b[i]) == w
    ensures |b| <= |es|
  {
    if es == [] then []
    else
      var e := es[|es| - 1];
      assert AllDated(es[..|es| - 1]);
      Bucket(es[..|es| - 1], w) + (if !e.isDeleted && WeekOf(e) == w then [e] else [])
  }

  function Sum(xs: seq<real>): real
  {
    if xs == [] then 0.0 else Sum(xs[..|xs| - 1]) + xs[|xs| - 1]
  }

  /** `statistics.fmean`, over the reals. */
  function Mean(xs: seq<real>): real
    requires xs != []
  {
    Sum(xs) / (|xs| as real)
  }

  function Weights(b: seq<MeasurementEntry>): (ws: seq<real>)
    ensures |ws| == |b|
    ensures forall i :: 0 <= i < |b| ==> ws[i] == b[i].weightKg
  {
    if b == [] then [] else Weights(b[..|b| - 1]) + [b[|b| - 1].weightKg]
  }

  /** The waists that are present, in order. */
  function Waists(b: seq<MeasurementEntry>): (ws: seq<real>)
    ensures ws == [] <==> forall i :: 0 <= i < |b| ==> b[i].waistCm.None?
  {
    if b == [] then []
    else
      var e := b[|b| - 1];
      Waists(b[..|b| - 1]) + (if e.waistCm.Some? then [e.waistCm.value] else [])
  }

  function SummaryOf(w: int, b: seq<MeasurementEntry>): WeeklySummary
    requires b != []
  {
    var waists := Waists(b);
    WeeklySummary(w, Mean(Weights(b)), if waists == [] then None else Some(Mean(waists)), |b|)
  }

  ghost predicate StrictlyAscending(ss: seq<WeeklySummary>)
  {
    forall i, j :: 0 <= i < j < |ss| ==> ss[i].weekStart < ss[j].weekStart
  }

  ghost predicate DistinctWeeks(ss: seq<WeeklySummary>)
  {
    forall i, j :: 0 <= i < j < |ss| ==> ss[i].weekStart != ss[j].weekStart
  }

  /** `list.sort` keyed by week start; with distinct keys the sorted order is unique. */
  function SortByWeek(ss: seq<WeeklySummary>): (r: seq<WeeklySummary>)
    requires DistinctWeeks(ss)
    ensures |r| == |ss| && StrictlyAscending(r)
    ensures forall x :: x in r <==> x in ss
  {
    if ss == [] then []
    else
      assert DistinctWeeks(ss[..|ss| - 1]);
      var last := ss[|ss| - 1];
      var rest := SortByWeek(ss[..|ss| - 1]);
      assert forall x :: x in rest ==> x.weekStart != last.weekStart by {
        forall x | x in rest ensures x.weekStart != last.weekStart {
          var i :| 0 <= i < |ss| - 1 && ss[i] == x;
        }
      }
      InsertByWeek(last, rest)
  }

  function InsertByWeek(x: WeeklySummary, t: seq<WeeklySummary>): (r: seq<WeeklySummary>)
    requires StrictlyAscending(t)
    requires forall y :: y in t ==> y.weekStart != x.weekStart
    ensures |r| == |t| + 1 && StrictlyAscending(r)
    ensures forall y :: y in r <==> y == x || y in t
  {
    if t == [] then [x]
    else if x.weekStart < t[0].weekStart then [x] + t
    else
      var rest := InsertByWeek(x, t[1..]);
      assert forall y :: y in t <==> y == t[0] || y in t[1..];
      assert forall y :: y in rest ==> t[0].weekStart < y.weekStart by {
        forall y | y in rest ensures t[0].weekStart < y.weekStart {
          if y != x {
            var j :| 0 <= j < |t[1..]| && t[1..][j] == y;
            assert t[j + 1] == y;
          }
        }
      }
      [t[0]] + rest
  }

  /** The non-deleted entries of `es` grouped by week, the dict the source builds. */
  ghost function BucketMap(es: seq<MeasurementEntry>): map<int, seq<MeasurementEntry>>
    requires AllDated(es)
  {
    if es == [] then map[]
    else
      var e := es[|es| - 1];
      assert AllDated(es[..|es| - 1]);
      var m := BucketMap(es[..|es| - 1]);
      if e.isDeleted then m
      else
        var w := WeekOf(e);
        m[w := (if w in m then m[w] else []) + [e]]
  }

  /** The week starts in order of first appearance: the dict's insertion order. */
  ghost function FirstSeen(es: seq<MeasurementEntry>): seq<int>
    requires AllDated(es)
  {
    if es == [] then []
    else
      var e := es[|es| - 1];
      assert AllDated(es[..|es| - 1]);
      var m := BucketMap(es[..|es| - 1]);
      if !e.isDeleted && WeekOf(e) !in m then FirstSeen(es[..|es| - 1]) + [WeekOf(e)]
      else FirstSeen(es[..|es| - 1])
  }

  lemma BucketMapSnoc(es: seq<MeasurementEntry>, e: MeasurementEntry)
    requires AllDated(es) && (!e.isDeleted ==> e.dateLocal.Some?)
    ensures AllDated(es + [e])
    ensures e.isDeleted ==> BucketMap(es + [e]) == BucketMap(es) && FirstSeen(es + [e]) == FirstSeen(es)
    ensures !e.isDeleted ==> var m := BucketMap(es); var w := WeekOf(e);
      && BucketMap(es + [e]) == m[w := (if w in m then m[w] else []) + [e]]
      && FirstSeen(es + [e]) == FirstSeen(es) + (if w in m then [] else [w])
  {
    assert (es + [e])[..|es|] == es;
  }

  lemma {:induction false} BucketMapSpec(es: seq<MeasurementEntry>, w: int)
    requires AllDated(es)
    ensures w in BucketMap(es) <==> Bucket(es, w) != []
    ensures w in BucketMap(es) ==> BucketMap(es)[w] == Bucket(es, w)
  {
    if es != [] {
      assert AllDated(es[..|es| - 1]);
      BucketMapSpec(es[..|es| - 1], w);
    }
  }

  lemma {:induction false} FirstSeenSpec(es: seq<MeasurementEntry>)
    requires AllDated(es)
    ensures forall w :: w in FirstSeen(es) <==> w in BucketMap(es)
    ensures forall a, b :: 0 <= a < b < |FirstSeen(es)| ==> FirstSeen(es)[a] != FirstSeen(es)[b]
  {
    if es != [] {
      assert AllDated(es[..|es| - 1]);
      FirstSeenSpec(es[..|es| - 1]);
    }
  }

  /** The first loop of `compute_weekly_summaries`: `setdefault(start, []).append(entry)`. */
  method GroupByWeek(entries: seq<MeasurementEntry>)
    returns (dated: bool, buckets: map<int, seq<MeasurementEntry>>, order: seq<int>)
    ensures dated <==> AllDated(entries)
    ensures dated ==> buckets == BucketMap(entries) && order == FirstSeen(entries)
  {
    buckets := map[];
    order := [];
    var i := 0;
    while i < |entries|
      invariant 0 <= i <= |entries|
      invariant AllDated(entries[..i])
      invariant buckets == BucketMap(entries[..i])
      invariant order == FirstSeen(entries[..i])
    {
      var e := entries[i];
      assert entries[..i + 1] == entries[..i] + [e];
      if !e.isDeleted && e.dateLocal.None? {
        assert !AllDated(entries) by {
          assert entries[i] == e;
        }
        return false, buckets, order;
      }
      BucketMapSnoc(entries[..i], e);
      if !e.isDeleted {
        var start := WeekStartDate(e.dateLocal.value);
        assert start == WeekOf(e);
        if start in buckets {
          buckets := buckets[start := buckets[start] + [e]];
        } else {
          assert [] + [e] == [e];
          buckets := buckets[start := [e]];
          order := order + [start];
        }
      }
      assert buckets == BucketMap(entries[..i] + [e]);
      i := i + 1;
    }
    assert entries[..i] == entries;
    dated := true;
  }

  /** The second loop: one summary per bucket, in the dict's insertion order. */
  method SummarizeBuckets(buckets: map<int, seq<MeasurementEntry>>, order: seq<int>)
    returns (summaries: seq<WeeklySummary>)
    requires forall w :: w in order ==> w in buckets && buckets[w] != []
    ensures |summaries| == |order|
    ensures forall j :: 0 <= j < |order| ==> summaries[j] == SummaryOf(order[j], buckets[order[j]])
  {
    summaries := [];
    var k := 0;
    while k < |order|
      invariant 0 <= k <= |order|
      invariant |summaries| == k
      invariant forall j :: 0 <= j < k ==> summaries[j] == SummaryOf(order[j], buckets[order[j]])
    {
      var start := order[k];
      summaries := summaries + [SummaryOf(start, buckets[start])];
      k := k + 1;
    }
  }

  /**
   * `compute_weekly_summaries`: deleted entries are skipped, an undated live
   * entry raises, and the result holds one summary per week, ascending.
   */
  method ComputeWeeklySummaries(entries: seq<MeasurementEntry>) returns (r: Result<seq<WeeklySummary>>)
    ensures r.Err? <==> !AllDated(entries)
    ensures r.Err? ==> r.error == "entry.date_local must be set"
    ensures r.Ok? ==> AllDated(entries) && StrictlyAscending(r.value)
    ensures r.Ok? ==> forall k :: 0 <= k < |r.value| ==>
              Bucket(entries, r.value[k].weekStart) != []
              && r.value[k] == SummaryOf(r.value[k].weekStart, Bucket(entries, r.value[k].weekStart))
    ensures r.Ok? ==> forall w :: Bucket(entries, w) != [] ==>
              exists k :: 0 <= k < |r.value| && r.value[k].weekStart == w
  {
    var dated, buckets, order := GroupByWeek(entries);
    if !dated {
      return Err("entry.date_local must be set");
    }
    GroupSpec(entries);
    var summaries := SummarizeBuckets(buckets, order);
    SummariesSpec(entries, summaries);
    var sorted := SortByWeek(summaries);
    forall w | Bucket(entries, w) != []
      ensures exists k :: 0 <= k < |sorted| && sorted[k].weekStart == w
    {
      var x :| x in summaries && x.weekStart == w;
      assert x in sorted;
    }
    r := Ok(sorted);
  }

  lemma GroupSpec(es: seq<MeasurementEntry>)
    requires AllDated(es)
    ensures forall w :: w in FirstSeen(es) ==> w in BucketMap(es) && BucketMap(es)[w] == Bucket(es, w) != []
    ensures forall w :: Bucket(es, w) != [] ==> w in FirstSeen(es)
    ensures forall a, b :: 0 <= a < b < |FirstSeen(es)| ==> FirstSeen(es)[a] != FirstSeen(es)[b]
  {
    FirstSeenSpec(es);
    forall w ensures w in BucketMap(es) <==> Bucket(es, w) != []
      ensures w in BucketMap(es) ==> BucketMap(es)[w] == Bucket(es, w)
    {
      BucketMapSpec(es, w);
    }
  }

  /** The summaries built in insertion order describe exactly the non-empty weeks. */
  lemma SummariesSpec(es: seq<MeasurementEntry>, summaries: seq<WeeklySummary>)
    requires AllDated(es)
    requires forall w :: w in FirstSeen(es) ==> w in BucketMap(es) && BucketMap(es)[w] == Bucket(es, w) != []
    requires forall w :: Bucket(es, w) != [] ==> w in FirstSeen(es)
    requires forall a, b :: 0 <= a < b < |FirstSeen(es)| ==> FirstSeen(es)[a] != FirstSeen(es)[b]
    requires |summaries| == |FirstSeen(es)|
    requires forall j :: 0 <= j < |summaries| ==>
               summaries[j] == SummaryOf(FirstSeen(es)[j], BucketMap(es)[FirstSeen(es)[j]])
    ensures DistinctWeeks(summaries)
    ensures forall x :: x in summaries ==> Bucket(es, x.weekStart) != [] && x == SummaryOf(x.weekStart, Bucket(es, x.weekStart))
    ensures forall w :: Bucket(es, w) != [] ==> exists x :: x in summaries && x.weekStart == w
  {
    var order := FirstSeen(es);
    var buckets := BucketMap(es);
    SummaryWeeks(order, buckets, summaries);
    forall x | x in summaries
      ensures Bucket(es, x.weekStart) != [] && x == SummaryOf(x.weekStart, Bucket(es, x.weekStart))
    {
      var j :| 0 <= j < |summaries| && summaries[j] == x;
    }
    forall w | Bucket(es, w) != [] ensures exists x :: x in summaries && x.weekStart == w {
      var j :| 0 <= j < |order| && order[j] == w;
      assert summaries[j] in summaries;
    }
  }

  lemma SummaryWeeks(order: seq<int>, buckets: map<int, seq<MeasurementEntry>>, summaries: seq<WeeklySummary>)
    requires forall w :: w in order ==> w in buckets && buckets[w] != []
    requires forall a, b :: 0 <= a < b < |order| ==> order[a] != order[b]
    requires |summaries| == |order|
    requires forall j :: 0 <= j < |summaries| ==> summaries[j] == SummaryOf(order[j], buckets[order[j]])
    ensures forall j :: 0 <= j < |summaries| ==> summaries[j].weekStart == order[j]
    ensures DistinctWeeks(summaries)
  {
  }

  function LiveCount(es: seq<MeasurementEntry>): nat
  {
    if es == [] then 0 else LiveCount(es[..|es| - 1]) + (if es[|es| - 1].isDeleted then 0 else 1)
  }

  function CountSum(ss: seq<WeeklySummary>): int
  {
    if ss == [] then 0 else ss[0].countEntries + CountSum(ss[1..])
  }

  /** The total size of the buckets of the weeks `ws`. */
  ghost function BucketSizes(ws: seq<int>, es: seq<MeasurementEntry>): int
    requires AllDated(es)
  {
    if ws == [] then 0 else |Bucket(es, ws[0])| + BucketSizes(ws[1..], es)
  }

  lemma {:induction false} BucketSizesEmpty(ws: seq<int>)
    ensures BucketSizes(ws, []) == 0
  {
    if ws != [] {
      BucketSizesEmpty(ws[1..]);
    }
  }

  lemma {:induction false} BucketSizesSnoc(ws: seq<int>, es: seq<MeasurementEntry>, e: MeasurementEntry)
    requires AllDated(es + [e]) && (!e.isDeleted ==> e.dateLocal.Some?)
    requires forall a, b :: 0 <= a < b < |ws| ==> ws[a] != ws[b]
    ensures AllDated(es)
    ensures BucketSizes(ws, es + [e]) == BucketSizes(ws, es) + (if !e.isDeleted && WeekOf(e) in ws then 1 else 0)
  {
    assert (es + [e])[..|es|] == es;
    assert forall i :: 0 <= i < |es| ==> es[i] == (es + [e])[i];
    if ws != [] {
      BucketSizesSnoc(ws[1..], es, e);
      if !e.isDeleted && WeekOf(e) == ws[0] {
        assert WeekOf(e) !in ws[1..];
      }
    }
  }

  /** Summing the bucket sizes over distinct weeks that cover every live entry counts the live entries. */
  lemma {:induction false} BucketSizesCover(ws: seq<int>, es: seq<MeasurementEntry>)
    requires AllDated(es)
    requires forall a, b :: 0 <= a < b < |ws| ==> ws[a] != ws[b]
    requires forall w :: Bucket(es, w) != [] ==> w in ws
    ensures BucketSizes(ws, es) == LiveCount(es)
  {
    if es == [] {
      BucketSizesEmpty(ws);
    } else {
      var init := es[..|es| - 1];
      var e := es[|es| - 1];
      assert init + [e] == es;
      BucketSizesSnoc(ws, init, e);
      forall w | Bucket(init, w) != [] ensures w in ws {
        assert Bucket(es, w)[..|Bucket(init, w)|] == Bucket(init, w);
      }
      BucketSizesCover(ws, init);
      if !e.isDeleted {
        assert Bucket(es, WeekOf(e)) != [];
      }
    }
  }

  function WeeksOf(ss: seq<WeeklySummary>): (ws: seq<int>)
    ensures |ws| == |ss| && forall k :: 0 <= k < |ss| ==> ws[k] == ss[k].weekStart
  {
    if ss == [] then [] else [ss[0].weekStart] + WeeksOf(ss[1..])
  }

  lemma {:induction false} CountSumBuckets(es: seq<MeasurementEntry>, ss: seq<WeeklySummary>)
    requires AllDated(es)
    requires forall k :: 0 <= k < |ss| ==> ss[k].countEntries == |Bucket(es, ss[k].weekStart)|
    ensures CountSum(ss) == BucketSizes(WeeksOf(ss), es)
  {
    if ss != [] {
      CountSumBuckets(es, ss[1..]);
      assert WeeksOf(ss)[1..] == WeeksOf(ss[1..]);
    }
  }

  /** The weekly counts add up to the number of non-deleted entries. */
  lemma CountsSumToLive(entries: seq<MeasurementEntry>, ss: seq<WeeklySummary>)
    requires AllDated(entries) && StrictlyAscending(ss)
    requires forall k :: 0 <= k < |ss| ==>
               Bucket(entries, ss[k].weekStart) != []
               && ss[k] == SummaryOf(ss[k].weekStart, Bucket(entries, ss[k].weekStart))
    requires forall w :: Bucket(entries, w) != [] ==> exists k :: 0 <= k < |ss| && ss[k].weekStart == w
    ensures CountSum(ss) == LiveCount(entries)
  {
    CountSumBuckets(entries, ss);
    var ws := WeeksOf(ss);
    forall w | Bucket(entries, w) != [] ensures w in ws {
      var k :| 0 <= k < |ss| && ss[k].weekStart == w;
      assert ws[k] == w;
    }
    BucketSizesCover(ws, entries);
  }

  lemma {:induction false} SumBounds(xs: seq<real>, lo: real, hi: real)
    requires forall i :: 0 <= i < |xs| ==> lo <= xs[i] <= hi
    ensures (|xs| as real) * lo <= Sum(xs) <= (|xs| as real) * hi
  {
    if xs != [] {
      SumBounds(xs[..|xs| - 1], lo, hi);
    }
  }

  /** A week's average weight lies between the lightest and the heaviest of its entries. */
  lemma AverageWithinBounds(w: int, b: seq<MeasurementEntry>, lo: real, hi: real)
    requires b != []
    requires forall i :: 0 <= i < |b| ==> lo <= b[i].weightKg <= hi
    ensures lo <= SummaryOf(w, b).avgWeightKg <= hi
    ensures SummaryOf(w, b).countEntries == |b|
    ensures SummaryOf(w, b).avgWaistCm.None? <==> forall i :: 0 <= i < |b| ==> b[i].waistCm.None?
  {
    var ws := Weights(b);
    SumBounds(ws, lo, hi);
    var n := |ws| as real;
    assert n > 0.0;
    MeanBetween(Sum(ws), n, lo, hi);
  }

  lemma MeanBetween(total: real, n: real, lo: real, hi: real)
    requires n > 0.0 && n * lo <= total <= n * hi
    ensures lo <= total / n <= hi
  {
  }

  /** The rule `compute_weekly_deltas` follows at index `k`. */
  ghost predicate DeltaAt(ss: seq<WeeklySummary>, k: int, d: WeeklyDelta)
    requires 0 <= k < |ss|
  {
    d.weekStart == ss[k].weekStart
    && if k == 0 || ss[k - 1].weekStart != ss[k].weekStart - 7 then
         d.deltaWeightKg.None? && d.deltaWaistCm.None?
       else
         d.deltaWeightKg == Some(ss[k].avgWeightKg - ss[k - 1].avgWeightKg)
         && d.deltaWaistCm ==
              (if ss[k].avgWaistCm.None? || ss[k - 1].avgWaistCm.None? then None
               else Some(ss[k].avgWaistCm.value - ss[k - 1].avgWaistCm.value))
  }

  ghost predicate DeltaRules(ss: seq<WeeklySummary>, ds: seq<WeeklyDelta>)
  {
    |ds| == |ss| && forall k :: 0 <= k < |ss| ==> DeltaAt(ss, k, ds[k])
  }

  /** `compute_weekly_deltas`: one delta per summary, present only after a week exactly 7 days earlier. */
  method ComputeWeeklyDeltas(summaries: seq<WeeklySummary>) returns (deltas: seq<WeeklyDelta>)
    ensures DeltaRules(summaries, deltas)
  {
    deltas := [];
    var index := 0;
    while index < |summaries|
      invariant 0 <= index <= |summaries| && |deltas| == index
      invariant forall k :: 0 <= k < index ==> DeltaAt(summaries, k, deltas[k])
    {
      var summary := summaries[index];
      var delta: WeeklyDelta;
      if index == 0 {
        delta := WeeklyDelta(summary.weekStart, None, None);
      } else {
        var prev := summaries[index - 1];
        var expectedPrev := summary.weekStart - 7;
        if prev.weekStart != expectedPrev {
          delta := WeeklyDelta(summary.weekStart, None, None);
        } else {
          var waist := if summary.avgWaistCm.None? || prev.avgWaistCm.None? then None
                       else Some(summary.avgWaistCm.value - prev.avgWaistCm.value);
          delta := WeeklyDelta(summary.weekStart, Some(summary.avgWeightKg - prev.avgWeightKg), waist);
        }
      }
      assert DeltaAt(summaries, index, delta);
      deltas := deltas + [delta];
      index := index + 1;
    }
  }

  /** The weight deltas of indexes `i+1 .. j`, summed. */
  function WeightDeltaSum(ds: seq<WeeklyDelta>, i: int, j: int): real
    requires 0 <= i <= j < |ds|
    requires forall k :: i < k <= j ==> ds[k].deltaWeightKg.Some?
    decreases j - i
  {
    if i == j then 0.0 else WeightDeltaSum(ds, i, j - 1) + ds[j].deltaWeightKg.value
  }

  /**
   * A run of present deltas spans consecutive weeks, and its weight deltas
   * add up to the change in average weight across the run.
   */
  lemma {:induction false} DeltasTelescope(ss: seq<WeeklySummary>, ds: seq<WeeklyDelta>, i: int, j: int)
    requires DeltaRules(ss, ds) && 0 <= i <= j < |ss|
    requires forall k :: i < k <= j ==> ds[k].deltaWeightKg.Some?
    ensures WeightDeltaSum(ds, i, j) == ss[j].avgWeightKg - ss[i].avgWeightKg
    ensures ss[j].weekStart == ss[i].weekStart + 7 * (j - i)
    decreases j - i
  {
    if i < j {
      DeltasTelescope(ss, ds, i, j - 1);
      assert DeltaAt(ss, j, ds[j]);
    }
  }
}
