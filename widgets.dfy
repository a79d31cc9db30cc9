// The entry form on the dashboard: the values a saved entry is built from,
// the warnings shown before saving (implausible values, dates out of range,
// a likely duplicate), the week reported as "last completed", and the
// accent colour of the week-over-week line.

module Widgets {
  import opened Common
  import opened Text
  import opened Models
  import opened Units
  import opened Aggregation
  import opened Primitives

  /** The warnings shown before saving, in the order they are listed. */
  datatype Warning = UnusualWeightValue | UnusualWaistValue | FutureDate | StaleDate | PossibleDuplicate
  {
    /** The message text shown for the warning. */
    function Message(): string
    {
      match this
      case UnusualWeightValue => "Weight value looks unusual."
      case UnusualWaistValue => "Waist value looks unusual."
      case FutureDate => "Date is in the future."
      case StaleDate => "Date is more than 1 year in the past."
      case PossibleDuplicate => "Possible duplicate entry (similar values within 5 minutes)."
    }

    /** Position in the listing order. */
    function Rank(): nat
    {
      match this
      case UnusualWeightValue => 0
      case UnusualWaistValue => 1
      case FutureDate => 2
      case StaleDate => 3
      case PossibleDuplicate => 4
    }
  }

  const DuplicateSeconds := 5 * 60
  const WeightTolerance := 0.1
  const WaistTolerance := 0.1

  function Abs(x: real): real
  {
    if x < 0.0 then -x else x
  }

  function Distance(a: int, b: int): nat
  {
    if a < b then b - a else a - b
  }

  // ---------------------------------------------------------------------
  // Dates

  /**
   * `datetime.combine(day, t.time(), tzinfo=t.tzinfo)`: the clock time and
   * UTC offset of `t` on the calendar day `day`.
   */
  function OnDate(day: int, t: DateTime): (r: DateTime)
    ensures r.Date() == day && r.TimeOfDay() == t.TimeOfDay() && r.offset == t.offset
  {
    DateTime((day - 1) * SecondsPerDay + t.TimeOfDay(), t.offset)
  }

  /** Moving a datetime to its own day changes nothing; only the date is ever replaced. */
  lemma OnOwnDate(t: DateTime)
    ensures OnDate(t.Date(), t) == t
  {
    assert t.wall == SecondsPerDay * (t.wall / SecondsPerDay) + t.wall % SecondsPerDay;
  }

  // ---------------------------------------------------------------------
  // Duplicate detection

  /**
   * A live entry measured within five minutes of `measuredAt` whose weight
   * is within 0.1 kg, and whose waist is within 0.1 cm unless either waist
   * is missing.
   */
  predicate Duplicates(e: MeasurementEntry, weightKg: real, waistCm: Option<real>, measuredAt: DateTime)
  {
    && !e.isDeleted
    && Distance(e.measuredAt.Instant(), measuredAt.Instant()) <= DuplicateSeconds
    && Abs(e.weightKg - weightKg) <= WeightTolerance
    && (waistCm.None? || e.waistCm.None? || Abs(e.waistCm.value - waistCm.value) <= WaistTolerance)
  }

  /** `_is_duplicate_entry`: scans the entries and stops at the first near match. */
  method IsDuplicateEntry(entries: seq<MeasurementEntry>, weightKg: real, waistCm: Option<real>, measuredAt: DateTime)
    returns (duplicate: bool)
    ensures duplicate <==> exists i :: 0 <= i < |entries| && Duplicates(entries[i], weightKg, waistCm, measuredAt)
  {
    var i := 0;
    while i < |entries|
      invariant 0 <= i <= |entries|
      invariant forall k :: 0 <= k < i ==> !Duplicates(entries[k], weightKg, waistCm, measuredAt)
    {
      var entry := entries[i];
      if !entry.isDeleted {
        var delta := Distance(entry.measuredAt.Instant(), measuredAt.Instant());
        if delta <= DuplicateSeconds && Abs(entry.weightKg - weightKg) <= WeightTolerance {
          if waistCm.None? || entry.waistCm.None? {
            assert Duplicates(entries[i], weightKg, waistCm, measuredAt);
            return true;
          }
          if Abs(entry.waistCm.value - waistCm.value) <= WaistTolerance {
            assert Duplicates(entries[i], weightKg, waistCm, measuredAt);
            return true;
          }
        }
      }
      i := i + 1;
    }
    return false;
  }

  /** Re-entering the values of a live entry is always reported as a duplicate of it. */
  lemma SameValuesDuplicate(entries: seq<MeasurementEntry>, k: int)
    requires 0 <= k < |entries| && !entries[k].isDeleted
    ensures exists i :: 0 <= i < |entries| && Duplicates(entries[i], entries[k].weightKg, entries[k].waistCm, entries[k].measuredAt)
  {
    assert Duplicates(entries[k], entries[k].weightKg, entries[k].waistCm, entries[k].measuredAt);
  }

  /** Being a near match does not depend on which of the two measurements is the new one. */
  lemma DuplicatesSymmetric(a: MeasurementEntry, b: MeasurementEntry)
    requires !a.isDeleted && !b.isDeleted
    ensures Duplicates(a, b.weightKg, b.waistCm, b.measuredAt) <==> Duplicates(b, a.weightKg, a.waistCm, a.measuredAt)
  {
    assert Abs(a.weightKg - b.weightKg) == Abs(b.weightKg - a.weightKg);
    if a.waistCm.Some? && b.waistCm.Some? {
      assert Abs(a.waistCm.value - b.waistCm.value) == Abs(b.waistCm.value - a.waistCm.value);
    }
  }

  // ---------------------------------------------------------------------
  // Warnings

  predicate UnusualWeight(weightKg: real)
  {
    !(35.0 <= weightKg <= 220.0)
  }

  predicate UnusualWaist(waistCm: Option<real>)
  {
    waistCm.Some? && !(50.0 <= waistCm.value <= 180.0)
  }

  /** Known warnings, each at most once, in the listing order. */
  ghost predicate Listed(warnings: seq<Warning>)
  {
    forall i, j :: 0 <= i < j < |warnings| ==> warnings[i].Rank() < warnings[j].Rank()
  }

  ghost predicate RanksBelow(warnings: seq<Warning>, bound: nat)
  {
    forall i :: 0 <= i < |warnings| ==> warnings[i].Rank() < bound
  }

  /** The first two checks: weight outside 35-220 kg, waist outside 50-180 cm. */
  method MeasureWarnings(weightKg: real, waistCm: Option<real>) returns (warnings: seq<Warning>)
    ensures Listed(warnings) && RanksBelow(warnings, 2)
    ensures UnusualWeightValue in warnings <==> UnusualWeight(weightKg)
    ensures UnusualWaistValue in warnings <==> UnusualWaist(waistCm)
  {
    warnings := [];
    if weightKg < 35.0 || weightKg > 220.0 {
      warnings := warnings + [UnusualWeightValue];
    }
    if waistCm.Some? && (waistCm.value < 50.0 || waistCm.value > 180.0) {
      warnings := warnings + [UnusualWaistValue];
    }
  }

  /** The date checks: after today, or more than 365 days before today. */
  method DateWarnings(measuredDate: int, today: int) returns (warnings: seq<Warning>)
    ensures Listed(warnings) && forall i :: 0 <= i < |warnings| ==> 2 <= warnings[i].Rank() < 4
    ensures FutureDate in warnings <==> measuredDate > today
    ensures StaleDate in warnings <==> measuredDate < today - 365
  {
    warnings := [];
    if measuredDate > today {
      warnings := warnings + [FutureDate];
    }
    if measuredDate < today - 365 {
      warnings := warnings + [StaleDate];
    }
  }

  /**
   * The four value checks shared by the dashboard form and the edit dialog
   * (weight outside 35-220 kg, waist outside 50-180 cm, a date after today,
   * a date more than 365 days before today), in that order.
   */
  method ValueWarnings(weightKg: real, waistCm: Option<real>, measuredDate: int, today: int)
    returns (warnings: seq<Warning>)
    ensures Listed(warnings) && RanksBelow(warnings, 4)
    ensures UnusualWeightValue in warnings <==> UnusualWeight(weightKg)
    ensures UnusualWaistValue in warnings <==> UnusualWaist(waistCm)
    ensures FutureDate in warnings <==> measuredDate > today
    ensures StaleDate in warnings <==> measuredDate < today - 365
  {
    var measures := MeasureWarnings(weightKg, waistCm);
    var dates := DateWarnings(measuredDate, today);
    warnings := measures + dates;
    assert forall w :: w in warnings <==> w in measures || w in dates;
  }

  /** `_validation_warnings` on the dashboard: the value checks, then the duplicate check. */
  method EntryWarnings(entries: seq<MeasurementEntry>, weightKg: real, waistCm: Option<real>, measuredAt: DateTime, today: int)
    returns (warnings: seq<Warning>)
    ensures Listed(warnings)
    ensures UnusualWeightValue in warnings <==> UnusualWeight(weightKg)
    ensures UnusualWaistValue in warnings <==> UnusualWaist(waistCm)
    ensures FutureDate in warnings <==> measuredAt.Date() > today
    ensures StaleDate in warnings <==> measuredAt.Date() < today - 365
    ensures PossibleDuplicate in warnings <==>
              exists i :: 0 <= i < |entries| && Duplicates(entries[i], weightKg, waistCm, measuredAt)
  {
    var values := ValueWarnings(weightKg, waistCm, measuredAt.Date(), today);
    var duplicate := IsDuplicateEntry(entries, weightKg, waistCm, measuredAt);
    warnings := values;
    if duplicate {
      warnings := warnings + [PossibleDuplicate];
    }
    assert PossibleDuplicate !in values;
  }

  // ---------------------------------------------------------------------
  // Saving an entry

  /**
   * The entry `_on_save_entry` builds: the weight converted from the chosen
   * unit to kilograms, a waist only when the profile tracks it, the note
   * stripped (an empty note is none), version 1.
   */
  function SavedEntry(userId: Uuid, trackWaist: bool, weightDisplay: real, weightUnit: WeightUnit,
                      waistDisplay: real, waistUnit: LengthUnit, measuredAt: DateTime, noteText: string,
                      entryId: Uuid, now: DateTime): (e: MeasurementEntry)
    ensures e.userId == userId && e.entryId == entryId && e.measuredAt == measuredAt
    ensures e.waistCm.Some? <==> trackWaist
    ensures WeightFromKg(e.weightKg, weightUnit) == weightDisplay
    ensures e.waistCm.Some? ==> WaistFromCm(e.waistCm.value, waistUnit) == waistDisplay
    ensures e.note.Some? <==> Strip(noteText) != ""
    ensures e.note.Some? ==> e.note.value == Strip(noteText)
    ensures e.version == 1 && !e.isDeleted && e.deletedAt.None?
    ensures e.createdAt == now && e.updatedAt == now && e.dateLocal == Some(measuredAt.Date())
  {
    var note := Strip(noteText);
    var waist := if trackWaist then Some(NormalizeWaist(waistDisplay, waistUnit)) else None;
    WeightRoundTrips(weightDisplay, weightUnit);
    WaistRoundTrips(waistDisplay, waistUnit);
    var r := NewEntry(userId, ParsedTime(measuredAt.wall, Some(measuredAt.offset)), NormalizeWeight(weightDisplay, weightUnit),
                      waist, entryId, if note != "" then Some(note) else None, now, now, false, None, 1, None);
    r.value
  }

  // ---------------------------------------------------------------------
  // Weekly summary line

  /** The latest week start strictly before `current`, if any (`max` of the earlier weeks). */
  function LastCompletedWeek(weeks: seq<int>, current: int): (r: Option<int>)
    ensures r.None? <==> forall i :: 0 <= i < |weeks| ==> weeks[i] >= current
    ensures r.Some? ==> r.value in weeks && r.value < current
    ensures r.Some? ==> forall i :: 0 <= i < |weeks| && weeks[i] < current ==> weeks[i] <= r.value
  {
    if weeks == [] then None
    else
      var w := weeks[|weeks| - 1];
      var earlier := LastCompletedWeek(weeks[..|weeks| - 1], current);
      assert forall i :: 0 <= i < |weeks| - 1 ==> weeks[..|weeks| - 1][i] == weeks[i];
      if w >= current then
        assert forall x :: x in weeks[..|weeks| - 1] ==> x in weeks;
        earlier
      else if earlier.None? || earlier.value < w then Some(w)
      else
        assert earlier.value in weeks[..|weeks| - 1];
        earlier
  }

  /**
   * The week the "Last completed week" line reports: the latest summary
   * week before the week containing `today`, or none (shown as "--").
   */
  function ReportedWeek(summaries: seq<WeeklySummary>, today: int): (r: Option<int>)
    ensures r.Some? ==> r.value < WeekStartDate(today) && exists i :: 0 <= i < |summaries| && summaries[i].weekStart == r.value
    ensures r.None? <==> forall i :: 0 <= i < |summaries| ==> summaries[i].weekStart >= WeekStartDate(today)
  {
    var weeks := WeeksOf(summaries);
    var r := LastCompletedWeek(weeks, WeekStartDate(today));
    if r.Some? then
      var i :| 0 <= i < |weeks| && weeks[i] == r.value;
      r
    else r
  }

  /**
   * When the summaries start on Sundays, as the weekly aggregation makes
   * them, the reported week ends before the current week begins.
   */
  lemma ReportedWeekEnded(summaries: seq<WeeklySummary>, today: int)
    requires forall i :: 0 <= i < |summaries| ==> Weekday(summaries[i].weekStart) == 6
    requires ReportedWeek(summaries, today).Some?
    ensures ReportedWeek(summaries, today).value + 7 <= WeekStartDate(today) <= today
  {
    var w := ReportedWeek(summaries, today).value;
    var i :| 0 <= i < |summaries| && summaries[i].weekStart == w;
    var current := WeekStartDate(today);
    SundaysApart(current, w);
    assert current - w == 7 * ((current - w) / 7);
  }

  // ---------------------------------------------------------------------
  // Goal accent

  const MutedAccent := "font-size: 13px; color: #6b7785;"
  const GoodAccent := "font-size: 13px; color: #2fbf71;"

  /**
   * `_apply_goal_accent`: the week-over-week line is green when the weight
   * moved towards a goal that is at least 0.1 kg away, and muted otherwise
   * (also when the delta or the goal is missing).
   */
  function GoalAccent(deltaWeightKg: Option<real>, goalWeightKg: Option<real>, currentAvgKg: real): (style: string)
    ensures style == GoodAccent || style == MutedAccent
    ensures style == GoodAccent <==>
              && deltaWeightKg.Some? && goalWeightKg.Some?
              && Abs(goalWeightKg.value - currentAvgKg) >= 0.1
              && deltaWeightKg.value * (goalWeightKg.value - currentAvgKg) > 0.0
  {
    if deltaWeightKg.None? || goalWeightKg.None? then MutedAccent
    else
      var diff := goalWeightKg.value - currentAvgKg;
      if Abs(diff) < 0.1 then MutedAccent
      else
        var desired := if diff > 0.0 then 1 else -1;
        var delta := deltaWeightKg.value;
        var good := (desired > 0 && delta > 0.0) || (desired < 0 && delta < 0.0);
        if good then GoodAccent else MutedAccent
  }

  /** Losing towards a lower goal is judged like gaining towards a higher one. */
  lemma GoalAccentMirrors(delta: real, goal: real, avg: real)
    ensures GoalAccent(Some(-delta), Some(2.0 * avg - goal), avg) == GoalAccent(Some(delta), Some(goal), avg)
  {
    assert (2.0 * avg - goal) - avg == -(goal - avg);
    assert -delta * -(goal - avg) == delta * (goal - avg);
    assert Abs(-(goal - avg)) == Abs(goal - avg);
  }
}
