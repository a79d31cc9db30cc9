// The history table: which entries it lists (live ones, matching the
// search text and the optional date bounds, newest first), its columns, and
// the rows of the CSV export.

module History {
  import opened Common
  import opened Text
  import opened Models
  import opened Units
  import opened Primitives

  /** A date bound of the filter: the day when its box is checked, none otherwise. */
  type Bound = Option<int>

  /** The note as the table shows it: `entry.note or ""`. */
  function NoteText(e: MeasurementEntry): string
  {
    if e.note.Some? then e.note.value else ""
  }

  /** The search box matches the lower-cased note or the ISO measured date, ignoring case. */
  predicate Matches(p: Prims, e: MeasurementEntry, search: string)
  {
    Contains(Lower(NoteText(e)), search) || Contains(p.dateIsoFormat(e.measuredAt.Date()), search)
  }

  /** Every condition the table applies to one entry; `searchText` is the box's raw text. */
  predicate Listed(p: Prims, e: MeasurementEntry, searchText: string, from: Bound, to: Bound)
  {
    var search := Lower(Strip(searchText));
    && !e.isDeleted
    && (search == "" || Matches(p, e, search))
    && (from.Some? ==> e.measuredAt.Date() >= from.value)
    && (to.Some? ==> e.measuredAt.Date() <= to.value)
  }

  /**
   * The entries of `entries` the table keeps, in their original order; the
   * source filters in stages (live, search, from, to), which together keep
   * exactly the entries satisfying `Listed`.
   */
  function ListedOnly(p: Prims, entries: seq<MeasurementEntry>, searchText: string, from: Bound, to: Bound)
    : (r: seq<MeasurementEntry>)
    ensures forall e :: e in r <==> e in entries && Listed(p, e, searchText, from, to)
    ensures forall e :: e in r ==> multiset(r)[e] == multiset(entries)[e]
  {
    if entries == [] then []
    else
      var e := entries[|entries| - 1];
      assert entries == entries[..|entries| - 1] + [e];
      ListedOnly(p, entries[..|entries| - 1], searchText, from, to) + (if Listed(p, e, searchText, from, to) then [e] else [])
  }

  ghost predicate NewestFirst(es: seq<MeasurementEntry>)
  {
    forall i, j :: 0 <= i < j < |es| ==> es[i].measuredAt.Instant() >= es[j].measuredAt.Instant()
  }

  /** `sorted(..., key=measured_at, reverse=True)`: newest first, ties kept in input order (`SortNewestFirstStable`). */
  function SortNewestFirst(es: seq<MeasurementEntry>): (r: seq<MeasurementEntry>)
    ensures NewestFirst(r)
    ensures multiset(r) == multiset(es)
  {
    if es == [] then []
    else
      assert es == es[..|es| - 1] + [es[|es| - 1]];
      InsertNewestFirst(es[|es| - 1], SortNewestFirst(es[..|es| - 1]))
  }

  /** Inserts `x` after every entry measured no earlier than it. */
  function InsertNewestFirst(x: MeasurementEntry, t: seq<MeasurementEntry>): (r: seq<MeasurementEntry>)
    requires NewestFirst(t)
    ensures NewestFirst(r)
    ensures multiset(r) == multiset(t) + multiset{x}
    ensures forall k :: 0 <= k < |r| ==> r[k] == x || r[k] in t
  {
    if t == [] then [x]
    else if x.measuredAt.Instant() > t[0].measuredAt.Instant() then
      assert forall k :: 0 <= k < |t| ==> t[k].measuredAt.Instant() <= t[0].measuredAt.Instant();
      ConsNewestFirst(x, t);
      [x] + t
    else
      var rest := InsertNewestFirst(x, t[1..]);
      assert t == [t[0]] + t[1..];
      FirstIsNewest(x, t, rest);
      ConsNewestFirst(t[0], rest);
      [t[0]] + rest
  }

  /** Entries measured at the same instant keep their input order. */
  lemma {:induction false} SortNewestFirstStable(es: seq<MeasurementEntry>, t: int)
    ensures AtInstant(SortNewestFirst(es), t) == AtInstant(es, t)
  {
    if es != [] {
      var init, x := es[..|es| - 1], es[|es| - 1];
      SortNewestFirstStable(init, t);
      InsertNewestFirstStable(x, SortNewestFirst(init), t);
      SortNewestFirstLast(es);
      AtInstantSnoc(es, t);
      AtInstantCons(x, [], t);
    }
  }

  lemma SortNewestFirstLast(es: seq<MeasurementEntry>)
    requires es != []
    ensures SortNewestFirst(es) == InsertNewestFirst(es[|es| - 1], SortNewestFirst(es[..|es| - 1]))
  {
  }

  /** The inserted entry goes after every entry measured at its instant. */
  lemma {:induction false} InsertNewestFirstStable(x: MeasurementEntry, s: seq<MeasurementEntry>, t: int)
    requires NewestFirst(s)
    ensures AtInstant(InsertNewestFirst(x, s), t)
            == AtInstant(s, t) + (if x.measuredAt.Instant() == t then [x] else [])
    decreases |s|
  {
    if s == [] {
      AtInstantCons(x, [], t);
    } else if x.measuredAt.Instant() > s[0].measuredAt.Instant() {
      InsertFrontStable(x, s, t);
    } else {
      var rest := InsertNewestFirst(x, s[1..]);
      assert InsertNewestFirst(x, s) == [s[0]] + rest;
      InsertNewestFirstStable(x, s[1..], t);
      AtInstantAppendAfterHead(s, rest, if x.measuredAt.Instant() == t then [x] else [], t);
    }
  }

  lemma InsertFrontStable(x: MeasurementEntry, s: seq<MeasurementEntry>, t: int)
    requires NewestFirst(s) && s != [] && x.measuredAt.Instant() > s[0].measuredAt.Instant()
    ensures AtInstant(InsertNewestFirst(x, s), t)
            == AtInstant(s, t) + (if x.measuredAt.Instant() == t then [x] else [])
  {
    assert InsertNewestFirst(x, s) == [x] + s;
    AtInstantCons(x, s, t);
    if x.measuredAt.Instant() == t {
      AtInstantNone(s, t);
    }
  }

  /** An entry no earlier than every entry of a newest-first list can go in front of it. */
  lemma ConsNewestFirst(h: MeasurementEntry, rest: seq<MeasurementEntry>)
    requires NewestFirst(rest)
    requires forall k :: 0 <= k < |rest| ==> rest[k].measuredAt.Instant() <= h.measuredAt.Instant()
    ensures NewestFirst([h] + rest)
  {
    var r := [h] + rest;
    forall i, j | 0 <= i < j < |r|
      ensures r[i].measuredAt.Instant() >= r[j].measuredAt.Instant()
    {
      assert r[j] == rest[j - 1];
      if i > 0 {
        assert r[i] == rest[i - 1];
      }
    }
  }

  lemma FirstIsNewest(x: MeasurementEntry, t: seq<MeasurementEntry>, rest: seq<MeasurementEntry>)
    requires NewestFirst(t) && t != [] && x.measuredAt.Instant() <= t[0].measuredAt.Instant()
    requires forall k :: 0 <= k < |rest| ==> rest[k] == x || rest[k] in t[1..]
    ensures forall k :: 0 <= k < |rest| ==> rest[k].measuredAt.Instant() <= t[0].measuredAt.Instant()
  {
    forall k | 0 <= k < |rest| ensures rest[k].measuredAt.Instant() <= t[0].measuredAt.Instant() {
      if rest[k] != x {
        var j :| 0 <= j < |t[1..]| && t[1..][j] == rest[k];
        assert t[j + 1] == rest[k];
      }
    }
  }

  /**
   * `_filtered_entries`: live entries, then the search, then the checked
   * date bounds, newest first.
   */
  function FilteredEntries(p: Prims, entries: seq<MeasurementEntry>, searchText: string, from: Bound, to: Bound)
    : (r: seq<MeasurementEntry>)
    ensures NewestFirst(r)
    ensures forall e :: e in r <==> e in entries && Listed(p, e, searchText, from, to)
    ensures forall e :: e in r ==> multiset(r)[e] == multiset(entries)[e]
  {
    var kept := ListedOnly(p, entries, searchText, from, to);
    var r := SortNewestFirst(kept);
    assert forall e :: e in r <==> e in kept by {
      forall e ensures e in r <==> e in kept {
        assert e in r <==> multiset(r)[e] > 0;
        assert e in kept <==> multiset(kept)[e] > 0;
      }
    }
    r
  }

  /** With the search empty and both boxes unchecked, the table lists every live entry. */
  lemma ClearedFiltersListLive(p: Prims, entries: seq<MeasurementEntry>, e: MeasurementEntry)
    requires e in entries && !e.isDeleted
    ensures e in FilteredEntries(p, entries, "", None, None)
  {
    assert Strip("") == "";
  }

  /** Checking a date bound never adds rows. */
  lemma BoundNarrows(p: Prims, entries: seq<MeasurementEntry>, searchText: string, from: int, to: Bound,
                     e: MeasurementEntry)
    requires e in FilteredEntries(p, entries, searchText, Some(from), to)
    ensures e in FilteredEntries(p, entries, searchText, None, to)
  {
  }

  // ---------------------------------------------------------------------
  // Table columns

  /** `_configure_columns`: the table's header labels; the column count is their number. */
  function ColumnLabels(showWaist: bool): (labels: seq<string>)
    ensures |labels| == (if showWaist then 6 else 5)
    ensures labels[0] == "Date" && labels[1] == "Weight" && labels[|labels| - 1] == "Actions"
    ensures showWaist <==> "Waist" in labels
  {
    if showWaist then ["Date", "Weight", "Waist", "Note", "Updated", "Actions"]
    else ["Date", "Weight", "Note", "Updated", "Actions"]
  }

  /** The column `_populate_row` puts the edit and delete buttons in: the "Actions" column. */
  function ActionColumn(showWaist: bool): (k: nat)
    ensures k < |ColumnLabels(showWaist)| && ColumnLabels(showWaist)[k] == "Actions"
  {
    if showWaist then 5 else 4
  }

  // ---------------------------------------------------------------------
  // CSV export

  const NothingToExport := "No entries to export."

  /** The export's header: ten columns with the waist pair, eight without. */
  function CsvHeader(showWaist: bool): (h: seq<string>)
    ensures |h| == (if showWaist then 10 else 8)
    ensures h[0] == "measured_at" && h[1] == "date_local" && h[2] == "weight" && h[3] == "weight_unit"
    ensures showWaist <==> h[4] == "waist"
    ensures showWaist ==> h[5] == "waist_unit"
    ensures h[|h| - 4] == "note" && h[|h| - 1] == "version"
  {
    if showWaist then
      ["measured_at", "date_local", "weight", "weight_unit", "waist", "waist_unit", "note", "created_at", "updated_at", "version"]
    else
      ["measured_at", "date_local", "weight", "weight_unit", "note", "created_at", "updated_at", "version"]
  }

  /**
   * One CSV row, column for column under `CsvHeader`; `fixed2` is the `:.2f`
   * number formatting, and the version is written as its decimal text.
   */
  function CsvRow(p: Prims, e: MeasurementEntry, showWaist: bool, weightUnit: WeightUnit, waistUnit: LengthUnit,
                  fixed2: real -> string): (row: seq<string>)
    ensures |row| == (if showWaist then 10 else 8)
    ensures row[0] == p.isoFormat(e.measuredAt)
    ensures row[1] == (if e.dateLocal.Some? then p.dateIsoFormat(e.dateLocal.value) else "")
    ensures row[2] == fixed2(WeightFromKg(e.weightKg, weightUnit)) && row[3] == weightUnit.Value()
    ensures showWaist ==> row[4] == (if e.waistCm.Some? then fixed2(WaistFromCm(e.waistCm.value, waistUnit)) else "")
    ensures showWaist ==> row[5] == waistUnit.Value()
    ensures row[|row| - 4] == NoteText(e) && row[|row| - 1] == IntText(e.version)
  {
    var measured := p.isoFormat(e.measuredAt);
    var date := if e.dateLocal.Some? then p.dateIsoFormat(e.dateLocal.value) else "";
    var weight := fixed2(WeightFromKg(e.weightKg, weightUnit));
    var unit := weightUnit.Value();
    var tail := [NoteText(e), p.isoFormat(e.createdAt), p.isoFormat(e.updatedAt), IntText(e.version)];
    if showWaist then
      var waist := if e.waistCm.Some? then fixed2(WaistFromCm(e.waistCm.value, waistUnit)) else "";
      [measured, date, weight, unit, waist, waistUnit.Value()] + tail
    else
      [measured, date, weight, unit] + tail
  }

  /**
   * `_on_export_csv`: nothing is written when the table is empty; otherwise
   * the header and one row per listed entry, in the table's order.
   */
  function ExportRows(p: Prims, listed: seq<MeasurementEntry>, showWaist: bool, weightUnit: WeightUnit,
                      waistUnit: LengthUnit, fixed2: real -> string): (r: Result<seq<seq<string>>>)
    ensures r.Err? <==> listed == []
    ensures r.Err? ==> r.error == NothingToExport
    ensures r.Ok? ==> |r.value| == |listed| + 1 && r.value[0] == CsvHeader(showWaist)
    ensures r.Ok? ==> forall i :: 0 < i < |r.value| ==> |r.value[i]| == |r.value[0]|
    ensures r.Ok? ==> forall i :: 0 <= i < |listed| ==> r.value[i + 1] == CsvRow(p, listed[i], showWaist, weightUnit, waistUnit, fixed2)
  {
    if listed == [] then Err(NothingToExport)
    else Ok([CsvHeader(showWaist)] + CsvRows(p, listed, showWaist, weightUnit, waistUnit, fixed2))
  }

  /** One CSV row per listed entry, in order. */
  function CsvRows(p: Prims, listed: seq<MeasurementEntry>, showWaist: bool, weightUnit: WeightUnit,
                   waistUnit: LengthUnit, fixed2: real -> string): (rows: seq<seq<string>>)
    ensures |rows| == |listed|
    ensures forall i :: 0 <= i < |listed| ==> rows[i] == CsvRow(p, listed[i], showWaist, weightUnit, waistUnit, fixed2)
  {
    seq(|listed|, i requires 0 <= i < |listed| => CsvRow(p, listed[i], showWaist, weightUnit, waistUnit, fixed2))
  }
}
