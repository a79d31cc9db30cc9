// The modal dialogs: the passphrase prompt that unlocks or creates the
// encrypted store, the editor for one measurement, and the new-profile
// prompt. Each keeps its result in a field that is set only when its checks
// pass.

module Dialogs {
  import opened Common
  import opened Text
  import opened Models
  import opened Units
  import opened Widgets
  import Lww

  // ---------------------------------------------------------------------
  // Passphrase prompt

  datatype PassphraseMode = Unlock | Create

  const BadMode := "mode must be 'unlock' or 'create'"
  const EmptyPassphrase := "Passphrase cannot be empty."
  const PassphraseMismatch := "Passphrases do not match."

  /** The mode argument of the dialog: only "unlock" and "create" are accepted. */
  function ParseMode(mode: string): (r: Result<PassphraseMode>)
    ensures r.Ok? <==> mode == "unlock" || mode == "create"
    ensures r.Ok? ==> (r.value == Unlock <==> mode == "unlock")
    ensures r.Err? ==> r.error == BadMode
  {
    if mode == "unlock" then Ok(Unlock)
    else if mode == "create" then Ok(Create)
    else Err(BadMode)
  }

  /**
   * The checks of the passphrase prompt's OK button: the stripped
   * passphrase must be non-empty and, when creating, equal to the stripped
   * confirmation.
   */
  function CheckPassphrase(mode: PassphraseMode, passphraseText: string, confirmText: string): (r: Result<string>)
    ensures r.Ok? <==> Strip(passphraseText) != "" && (mode == Create ==> Strip(passphraseText) == Strip(confirmText))
    ensures r.Ok? ==> r.value == Strip(passphraseText)
    ensures r.Err? && Strip(passphraseText) == "" ==> r.error == EmptyPassphrase
    ensures r.Err? && Strip(passphraseText) != "" ==> mode == Create && r.error == PassphraseMismatch
  {
    var passphrase := Strip(passphraseText);
    if passphrase == "" then Err(EmptyPassphrase)
    else if mode == Create && passphrase != Strip(confirmText) then Err(PassphraseMismatch)
    else Ok(passphrase)
  }

  /** An accepted passphrase has no surrounding whitespace, so accepting it again gives it back. */
  lemma AcceptedPassphraseStable(mode: PassphraseMode, passphraseText: string, confirmText: string)
    requires CheckPassphrase(mode, passphraseText, confirmText).Ok?
    ensures var p := CheckPassphrase(mode, passphraseText, confirmText).value;
      CheckPassphrase(mode, p, p) == Ok(p)
  {
    var p := Strip(passphraseText);
    StripEnds(p);
  }

  class PassphraseDialog {
    const mode: PassphraseMode
    var passphrase: Option<string>
    var error: string
    var accepted: bool

    constructor(mode: PassphraseMode)
      ensures this.mode == mode && passphrase.None? && error == "" && !accepted
    {
      this.mode := mode;
      passphrase := None;
      error := "";
      accepted := false;
    }

    /** `_on_accept`: stores the passphrase and closes, or shows why it was refused. */
    method OnAccept(passphraseText: string, confirmText: string)
      modifies this
      ensures var r := CheckPassphrase(mode, passphraseText, confirmText);
        && (r.Ok? ==> passphrase == Some(r.value) && accepted && error == old(error))
        && (r.Err? ==> passphrase == old(passphrase) && accepted == old(accepted) && error == r.error)
    {
      var r := CheckPassphrase(mode, passphraseText, confirmText);
      error, passphrase, accepted :=
        if r.Err? then r.error else error,
        if r.Ok? then Some(r.value) else passphrase,
        r.Ok? || accepted;
    }
  }

  // ---------------------------------------------------------------------
  // Entry editor

  /** The lower end of the waist spin box, 30 cm in the display unit. */
  function WaistMinimum(unit: LengthUnit): real
  {
    WaistFromCm(30.0, unit)
  }

  /**
   * The waist of the edited entry: the old one when the profile does not
   * track waists; none when it was missing and the box was left untouched
   * at its minimum; otherwise the box's value converted to centimetres.
   */
  function EditedWaist(trackWaist: bool, waistMissing: bool, waistDisplay: real, unit: LengthUnit, old_waist: Option<real>)
    : (w: Option<real>)
    ensures !trackWaist ==> w == old_waist
    ensures trackWaist && waistMissing && waistDisplay == WaistMinimum(unit) ==> w.None?
    ensures trackWaist && !(waistMissing && waistDisplay == WaistMinimum(unit)) ==>
              w.Some? && WaistFromCm(w.value, unit) == waistDisplay
  {
    WaistRoundTrips(waistDisplay, unit);
    if trackWaist then
      if waistMissing && waistDisplay == WaistMinimum(unit) then None
      else Some(NormalizeWaist(waistDisplay, unit))
    else old_waist
  }

  /**
   * The entry the editor saves: same id, owner and creation time, the new
   * values, live again, its local date the new measured date, and the
   * version one above the old one, so it supersedes the old copy.
   */
  function EditedEntry(entry: MeasurementEntry, measuredAt: DateTime, weightKg: real, waistCm: Option<real>,
                       noteText: string, now: DateTime): (e: MeasurementEntry)
    ensures e.entryId == entry.entryId && e.userId == entry.userId && e.createdAt == entry.createdAt
    ensures e.measuredAt == measuredAt && e.dateLocal == Some(measuredAt.Date())
    ensures e.weightKg == weightKg && e.waistCm == waistCm && e.updatedAt == now
    ensures e.note.Some? <==> Strip(noteText) != ""
    ensures e.note.Some? ==> e.note.value == Strip(noteText)
    ensures e.version == entry.version + 1 && !e.isDeleted && e.deletedAt.None?
    ensures Lww.Newer(Lww.Stamp(e.version, e.updatedAt), Lww.Stamp(entry.version, entry.updatedAt))
  {
    var note := Strip(noteText);
    MeasurementEntry(entry.userId, measuredAt, weightKg, waistCm, entry.entryId,
                     if note != "" then Some(note) else None, entry.createdAt, now,
                     false, None, entry.version + 1, Some(measuredAt.Date()))
  }

  /** The values the editor's fields are loaded with. */
  datatype EntryForm = EntryForm(weight: real, waist: real, date: int, note: string)

  function LoadedForm(entry: MeasurementEntry, weightUnit: WeightUnit, waistUnit: LengthUnit, trackWaist: bool): (f: EntryForm)
    ensures NormalizeWeight(f.weight, weightUnit) == entry.weightKg
    ensures f.date == entry.measuredAt.Date()
    ensures trackWaist && entry.waistCm.Some? ==> NormalizeWaist(f.waist, waistUnit) == entry.waistCm.value
    ensures trackWaist && entry.waistCm.None? ==> f.waist == WaistMinimum(waistUnit)
  {
    WeightRoundTrips(entry.weightKg, weightUnit);
    WaistRoundTrips(if entry.waistCm.Some? then entry.waistCm.value else 0.0, waistUnit);
    var waist := if trackWaist && entry.waistCm.Some? then WaistFromCm(entry.waistCm.value, waistUnit)
                 else WaistMinimum(waistUnit);
    EntryForm(WeightFromKg(entry.weightKg, weightUnit), waist, entry.measuredAt.Date(),
              if entry.note.Some? then entry.note.value else "")
  }

  predicate Warned(weightKg: real, waistCm: Option<real>, measuredDate: int, today: int)
  {
    UnusualWeight(weightKg) || UnusualWaist(waistCm) || measuredDate > today || measuredDate < today - 365
  }

  class EntryDialog {
    const entry: MeasurementEntry
    const weightUnit: WeightUnit
    const waistUnit: LengthUnit
    const trackWaist: bool
    const form: EntryForm
    var updatedEntry: Option<MeasurementEntry>
    var waistMissing: bool

    /** The dialog with its fields loaded from `entry`. */
    constructor(entry: MeasurementEntry, weightUnit: WeightUnit, waistUnit: LengthUnit, trackWaist: bool)
      ensures this.entry == entry && this.weightUnit == weightUnit && this.waistUnit == waistUnit
      ensures this.trackWaist == trackWaist && form == LoadedForm(entry, weightUnit, waistUnit, trackWaist)
      ensures updatedEntry.None? && waistMissing == (trackWaist && entry.waistCm.None?)
    {
      this.entry := entry;
      this.weightUnit := weightUnit;
      this.waistUnit := waistUnit;
      this.trackWaist := trackWaist;
      form := LoadedForm(entry, weightUnit, waistUnit, trackWaist);
      updatedEntry := None;
      waistMissing := trackWaist && entry.waistCm.None?;
    }

    /** `_on_waist_changed`: once the user touches the waist box, its value counts. */
    method OnWaistChanged()
      modifies this
      ensures !waistMissing && updatedEntry == old(updatedEntry)
    {
      waistMissing := false;
    }

    /**
     * `_on_accept` with the fields' current values: the measurement moves to
     * `selectedDate` at its old time of day and offset; when a warning is
     * shown and `confirmed` is false the dialog stays open unchanged.
     */
    method OnAccept(weightDisplay: real, waistDisplay: real, selectedDate: int, noteText: string,
                    today: int, confirmed: bool, now: DateTime)
      modifies this
      ensures waistMissing == old(waistMissing)
      ensures var measuredAt := OnDate(selectedDate, entry.measuredAt);
        var weightKg := NormalizeWeight(weightDisplay, weightUnit);
        var waistCm := EditedWaist(trackWaist, old(waistMissing), waistDisplay, waistUnit, entry.waistCm);
        && (Warned(weightKg, waistCm, selectedDate, today) && !confirmed ==> updatedEntry == old(updatedEntry))
        && (!Warned(weightKg, waistCm, selectedDate, today) || confirmed ==>
              updatedEntry == Some(EditedEntry(entry, measuredAt, weightKg, waistCm, noteText, now)))
    {
      var measuredAt := OnDate(selectedDate, entry.measuredAt);
      var weightKg := NormalizeWeight(weightDisplay, weightUnit);
      var waistCm := EditedWaist(trackWaist, waistMissing, waistDisplay, waistUnit, entry.waistCm);
      var warnings := ValueWarnings(weightKg, waistCm, measuredAt.Date(), today);
      if warnings != [] {
        assert warnings[0] in warnings && warnings[0].Rank() < 4;
        assert Warned(weightKg, waistCm, selectedDate, today);
        if !confirmed {
          return;
        }
      }
      updatedEntry := Some(EditedEntry(entry, measuredAt, weightKg, waistCm, noteText, now));
    }
  }

  /**
   * Saving the editor without touching it gives back the entry's weight,
   * waist and measurement time; only the bookkeeping fields change.
   */
  lemma UntouchedEditKeepsValues(entry: MeasurementEntry, weightUnit: WeightUnit, waistUnit: LengthUnit,
                                 trackWaist: bool, now: DateTime)
    ensures var f := LoadedForm(entry, weightUnit, waistUnit, trackWaist);
      var e := EditedEntry(entry, OnDate(f.date, entry.measuredAt), NormalizeWeight(f.weight, weightUnit),
                           EditedWaist(trackWaist, trackWaist && entry.waistCm.None?, f.waist, waistUnit, entry.waistCm),
                           f.note, now);
      e.measuredAt == entry.measuredAt && e.weightKg == entry.weightKg && e.waistCm == entry.waistCm
  {
    OnOwnDate(entry.measuredAt);
    var f := LoadedForm(entry, weightUnit, waistUnit, trackWaist);
    if trackWaist && entry.waistCm.Some? {
      WaistRoundTrips(entry.waistCm.value, waistUnit);
    }
  }

  // ---------------------------------------------------------------------
  // New profile prompt

  const NameRequired := "Name is required."
  const NameTaken := "A profile with this name already exists."

  /** The lower-cased names of the existing profiles. */
  function LoweredNames(names: set<string>): (r: set<string>)
    ensures forall n :: n in names ==> Lower(n) in r
    ensures forall m :: m in r ==> exists n :: n in names && Lower(n) == m
  {
    set n | n in names :: Lower(n)
  }

  /**
   * The new-profile checks: the stripped name must be non-empty and differ,
   * ignoring case, from every existing profile name.
   */
  function CheckProfileName(existing: set<string>, nameText: string): (r: Result<string>)
    ensures r.Ok? <==> Strip(nameText) != "" && forall n :: n in existing ==> Lower(n) != Lower(Strip(nameText))
    ensures r.Ok? ==> r.value == Strip(nameText)
    ensures r.Err? ==> r.error == (if Strip(nameText) == "" then NameRequired else NameTaken)
  {
    var name := Strip(nameText);
    if name == "" then Err(NameRequired)
    else if Lower(name) in LoweredNames(existing) then Err(NameTaken)
    else Ok(name)
  }

  /** An existing name is refused whatever its case. */
  lemma ExistingNameRefused(existing: set<string>, n: string, nameText: string)
    requires n in existing && Lower(n) == Lower(Strip(nameText))
    ensures CheckProfileName(existing, nameText).Err?
  {
  }

  class NewProfileDialog {
    const existingNames: set<string>
    var profileName: Option<string>
    var weightUnit: WeightUnit
    var waistUnit: LengthUnit
    var error: string

    constructor(existing: set<string>)
      ensures existingNames == existing && profileName.None? && weightUnit == LB && waistUnit == IN && error == ""
    {
      existingNames := existing;
      profileName := None;
      weightUnit := LB;
      waistUnit := IN;
      error := "";
    }

    /** `_on_accept`: keeps the name and the chosen units, or shows why the name was refused. */
    method OnAccept(nameText: string, weightChoice: WeightUnit, waistChoice: LengthUnit)
      modifies this
      ensures var r := CheckProfileName(existingNames, nameText);
        && (r.Ok? ==> profileName == Some(r.value) && weightUnit == weightChoice && waistUnit == waistChoice && error == old(error))
        && (r.Err? ==> profileName == old(profileName) && weightUnit == old(weightUnit) && waistUnit == old(waistUnit)
                       && error == r.error)
    {
      var r := CheckProfileName(existingNames, nameText);
      if r.Ok? {
        profileName, weightUnit, waistUnit := Some(r.value), weightChoice, waistChoice;
      } else {
        error := r.error;
      }
    }
  }
}
