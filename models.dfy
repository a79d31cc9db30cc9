// The record types of the tracker: units, user profiles with their sync
// settings and friend links, and measurement entries.

module Models {
  import opened Common
  import opened Primitives

  datatype WeightUnit = KG | LB
  {
    /** The enum's string value. */
    function Value(): string
    {
      match this
      case KG => "kg"
      case LB => "lb"
    }
  }

  datatype LengthUnit = CM | IN
  {
    function Value(): string
    {
      match this
      case CM => "cm"
      case IN => "in"
    }
  }

  /** `WeightUnit(s)`: the member whose value is `s`, or None where Python raises ValueError. */
  function WeightUnitOf(s: string): (r: Option<WeightUnit>)
    ensures r.Some? <==> s == "kg" || s == "lb"
    ensures r.Some? ==> r.value.Value() == s
  {
    if s == "kg" then Some(KG) else if s == "lb" then Some(LB) else None
  }

  function LengthUnitOf(s: string): (r: Option<LengthUnit>)
    ensures r.Some? <==> s == "cm" || s == "in"
    ensures r.Some? ==> r.value.Value() == s
  {
    if s == "cm" then Some(CM) else if s == "in" then Some(IN) else None
  }

  lemma UnitValuesRoundTrip(w: WeightUnit, l: LengthUnit)
    ensures WeightUnitOf(w.Value()) == Some(w)
    ensures LengthUnitOf(l.Value()) == Some(l)
  {
  }

  datatype FriendLink = FriendLink(friendId: Uuid, displayName: string, status: string, createdAt: DateTime)

  /** A friend link built with the dataclass defaults; `now` stands for `utc_now()`. */
  function NewFriendLink(friendId: Uuid, displayName: string, now: DateTime): (f: FriendLink)
    ensures f.friendId == friendId && f.displayName == displayName
    ensures f.status == "invited" && f.createdAt == now
  {
    FriendLink(friendId, displayName, "invited", now)
  }

  /** The per-profile vault sync settings, with the fields the codec reads and writes. */
  datatype SyncSettings = SyncSettings(
    enabled: bool,
    vaultUrl: Option<string>,
    userToken: Option<string>,
    deviceId: Option<string>,
    deviceName: Option<string>,
    vaultCertPath: Option<string>,
    allowInsecureHttp: bool,
    autoSyncEnabled: bool,
    autoSyncIntervalMinutes: int,
    lastSyncAt: Option<DateTime>)

  /** The settings of a profile that never configured sync. */
  const DefaultSyncSettings: SyncSettings :=
    SyncSettings(false, None, None, None, None, None, false, false, 15, None)

  datatype UserProfile = UserProfile(
    userId: Uuid,
    displayName: string,
    weightUnit: WeightUnit,
    waistUnit: LengthUnit,
    waistConventionLabel: string,
    timezone: string,
    trackWaist: bool,
    accentColor: string,
    darkMode: bool,
    goalWeightKg: Option<real>,
    goalWeightBandKg: Option<real>,
    goalWaistCm: Option<real>,
    goalWaistBandCm: Option<real>,
    friends: seq<FriendLink>,
    syncSettings: SyncSettings)

  /** A profile built with the dataclass defaults; `userId` stands for `uuid4()`. */
  function NewProfile(userId: Uuid): (p: UserProfile)
    ensures p.userId == userId && p.displayName == "User"
    ensures p.weightUnit == LB && p.waistUnit == IN && !p.trackWaist && !p.darkMode
    ensures p.waistConventionLabel == "smallest point" && p.timezone == "local"
    ensures p.accentColor == "#4f8cf7"
    ensures p.goalWeightKg.None? && p.goalWeightBandKg.None? && p.goalWaistCm.None? && p.goalWaistBandCm.None?
    ensures p.friends == [] && p.syncSettings == DefaultSyncSettings
  {
    UserProfile(userId, "User", LB, IN, "smallest point", "local", false, "#4f8cf7", false,
                None, None, None, None, [], DefaultSyncSettings)
  }

  datatype MeasurementEntry = MeasurementEntry(
    userId: Uuid,
    measuredAt: DateTime,
    weightKg: real,
    waistCm: Option<real>,
    entryId: Uuid,
    note: Option<string>,
    createdAt: DateTime,
    updatedAt: DateTime,
    isDeleted: bool,
    deletedAt: Option<DateTime>,
    version: int,
    dateLocal: Option<int>)

  /**
   * The dataclass constructor with its `__post_init__`: `measuredAt` may be
   * naive, which raises; a missing `dateLocal` becomes the measured date.
   */
  function NewEntry(userId: Uuid, measuredAt: ParsedTime, weightKg: real, waistCm: Option<real>,
                    entryId: Uuid, note: Option<string>, createdAt: DateTime, updatedAt: DateTime,
                    isDeleted: bool, deletedAt: Option<DateTime>, version: int, dateLocal: Option<int>)
    : (r: Result<MeasurementEntry>)
    ensures r.Ok? <==> measuredAt.offset.Some?
    ensures r.Err? ==> r.error == "measured_at must be timezone-aware"
    ensures r.Ok? ==> r.value.measuredAt == DateTime(measuredAt.wall, measuredAt.offset.value)
    ensures r.Ok? ==> r.value.dateLocal.Some?
    ensures r.Ok? && dateLocal.Some? ==> r.value.dateLocal == dateLocal
    ensures r.Ok? && dateLocal.None? ==> r.value.dateLocal == Some(r.value.measuredAt.Date())
    ensures r.Ok? ==> r.value.userId == userId && r.value.entryId == entryId && r.value.weightKg == weightKg
    ensures r.Ok? ==> r.value.waistCm == waistCm && r.value.note == note && r.value.version == version
    ensures r.Ok? ==> r.value.createdAt == createdAt && r.value.updatedAt == updatedAt
    ensures r.Ok? ==> r.value.isDeleted == isDeleted && r.value.deletedAt == deletedAt
  {
    match measuredAt.offset
    case None => Err("measured_at must be timezone-aware")
    case Some(offset) =>
      var measured := DateTime(measuredAt.wall, offset);
      var date := if dateLocal.Some? then dateLocal.value else measured.Date();
      Ok(MeasurementEntry(userId, measured, weightKg, waistCm, entryId, note, createdAt, updatedAt,
                          isDeleted, deletedAt, version, Some(date)))
  }

  /** An entry built with the remaining dataclass defaults; ids and clocks are parameters. */
  function NewEntryWithDefaults(userId: Uuid, measuredAt: ParsedTime, weightKg: real, waistCm: Option<real>,
                                entryId: Uuid, now: DateTime): (r: Result<MeasurementEntry>)
    ensures r.Ok? <==> measuredAt.offset.Some?
    ensures r.Ok? ==> r.value.version == 1 && !r.value.isDeleted && r.value.deletedAt.None?
    ensures r.Ok? ==> r.value.note.None? && r.value.createdAt == now && r.value.updatedAt == now
    ensures r.Ok? ==> r.value.dateLocal == Some(r.value.measuredAt.Date())
  {
    NewEntry(userId, measuredAt, weightKg, waistCm, entryId, None, now, now, false, None, 1, None)
  }

  /** The entries measured at instant `t`, in their order: what a stable sort by time keeps. */
  function AtInstant(es: seq<MeasurementEntry>, t: int): (r: seq<MeasurementEntry>)
    ensures |r| <= |es|
    ensures forall k :: 0 <= k < |r| ==> r[k].measuredAt.Instant() == t
  {
    if es == [] then []
    else (if es[0].measuredAt.Instant() == t then [es[0]] else []) + AtInstant(es[1..], t)
  }

  lemma {:induction false} AtInstantConcat(a: seq<MeasurementEntry>, b: seq<MeasurementEntry>, t: int)
    ensures AtInstant(a + b, t) == AtInstant(a, t) + AtInstant(b, t)
  {
    if a != [] {
      assert (a + b)[0] == a[0] && (a + b)[1..] == a[1..] + b;
      AtInstantConcat(a[1..], b, t);
    } else {
      assert a + b == b;
    }
  }

  /** The entries at `t` of a non-empty list: those of its front, then its last one if it is at `t`. */
  lemma AtInstantSnoc(es: seq<MeasurementEntry>, t: int)
    requires es != []
    ensures AtInstant(es, t) == AtInstant(es[..|es| - 1], t) + AtInstant([es[|es| - 1]], t)
  {
    assert es == es[..|es| - 1] + [es[|es| - 1]];
    AtInstantConcat(es[..|es| - 1], [es[|es| - 1]], t);
  }

  lemma AtInstantCons(e: MeasurementEntry, es: seq<MeasurementEntry>, t: int)
    ensures AtInstant([e] + es, t) == (if e.measuredAt.Instant() == t then [e] else []) + AtInstant(es, t)
  {
    assert ([e] + es)[1..] == es;
  }

  lemma AtInstantFront(es: seq<MeasurementEntry>, t: int)
    requires es != []
    ensures AtInstant(es, t) == (if es[0].measuredAt.Instant() == t then [es[0]] else []) + AtInstant(es[1..], t)
  {
  }

  /** Replacing the tail of a non-empty list by one whose entries at `t` gain `extra` at the end adds `extra` at the end. */
  lemma AtInstantAppendAfterHead(s: seq<MeasurementEntry>, rest: seq<MeasurementEntry>, extra: seq<MeasurementEntry>, t: int)
    requires s != [] && AtInstant(rest, t) == AtInstant(s[1..], t) + extra
    ensures AtInstant([s[0]] + rest, t) == AtInstant(s, t) + extra
  {
    var h := if s[0].measuredAt.Instant() == t then [s[0]] else [];
    AtInstantCons(s[0], rest, t);
    AtInstantFront(s, t);
    assert h + (AtInstant(s[1..], t) + extra) == (h + AtInstant(s[1..], t)) + extra;
  }

  lemma {:induction false} AtInstantNone(es: seq<MeasurementEntry>, t: int)
    requires forall k :: 0 <= k < |es| ==> es[k].measuredAt.Instant() != t
    ensures AtInstant(es, t) == []
  {
    if es != [] {
      AtInstantNone(es[1..], t);
    }
  }
}
