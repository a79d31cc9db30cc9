// The dict codec of the local store: entries, profiles, friend links and sync
// settings to and from decoded JSON values, with defaults for missing fields
// and rejection of timezone-naive timestamps.

module Codec {
  import opened Common
  import opened Primitives
  import opened Models
  import UuidText

  /** The value stored under `key` in a dict payload; None when absent. */
  function Field(payload: Json, key: string): (r: Option<Json>)
    ensures r.Some? <==> payload.JObj? && key in payload.fields
    ensures r.Some? ==> r.value == payload.fields[key]
  {
    if payload.JObj? && key in payload.fields then Some(payload.fields[key]) else None
  }

  /** `payload[key]`: an absent key raises. */
  function Required(field: Option<Json>): (r: Result<Json>)
    ensures r.Ok? <==> field.Some?
  {
    if field.Some? then Ok(field.value) else Err("KeyError")
  }

  /** `payload.get(key)`: an absent key reads as None. */
  function Optional(field: Option<Json>): Json
  {
    if field.Some? then field.value else JNull
  }

  /** `payload.get(key, default)`: the default only when the key is absent. */
  function OrDefault(field: Option<Json>, default: Json): Json
  {
    if field.Some? then field.value else default
  }

  /**
   * The items a list comprehension iterates over. A list yields its items and
   * an empty dict or string yields nothing. A non-empty dict or string yields
   * keys or characters, and every element decoder here fails on text with an
   * AttributeError, so that outcome is returned directly. Anything else is not
   * iterable.
   */
  function IterItems(j: Json): (r: Result<seq<Json>>)
    ensures j.JArr? ==> r == Ok(j.items)
    ensures r.Ok? <==> j.JArr? || j == JObj(map[]) || j == JStr("")
    ensures r.Ok? && !j.JArr? ==> r.value == []
  {
    match j
    case JArr(items) => Ok(items)
    case JObj(fields) =>
      if fields == map[] then Ok([]) else Err("AttributeError: 'str' object has no attribute 'get'")
    case JStr(s) =>
      if s == "" then Ok([]) else Err("AttributeError: 'str' object has no attribute 'get'")
    case _ => Err("TypeError: object is not iterable")
  }

  function EncodeDateTime(p: Prims, t: DateTime): Json
  {
    JStr(p.isoFormat(t))
  }

  /** `_decode_datetime`: ISO text that carries a UTC offset, or an error. */
  function DecodeDateTime(p: Prims, value: Json): (r: Result<DateTime>)
    ensures r.Ok? ==> value.JStr? && p.fromIsoFormat(value.s).Some?
    ensures value.JStr? && p.fromIsoFormat(value.s).Some? ==>
              (r.Ok? <==> p.fromIsoFormat(value.s).value.offset.Some?)
    ensures value.JStr? && p.fromIsoFormat(value.s).Some? && p.fromIsoFormat(value.s).value.offset.None? ==>
              r == Err("Timestamp must be timezone-aware")
  {
    if !value.JStr? then Err("fromisoformat: argument must be str")
    else match p.fromIsoFormat(value.s)
      case None => Err("Invalid isoformat string")
      case Some(parsed) =>
        if parsed.offset.None? then Err("Timestamp must be timezone-aware")
        else Ok(DateTime(parsed.wall, parsed.offset.value))
  }

  lemma DateTimeRoundTrip(p: Prims, t: DateTime)
    requires p.TimeLaws()
    ensures DecodeDateTime(p, EncodeDateTime(p, t)) == Ok(t)
  {
  }

  /** `_encode_datetime(t) if t else None`; a datetime is always truthy. */
  function EncodeOptDateTime(p: Prims, t: Option<DateTime>): Json
  {
    if t.Some? then EncodeDateTime(p, t.value) else JNull
  }

  /** `_decode_datetime(value) if value else None`. */
  function DecodeOptDateTime(p: Prims, value: Json): (r: Result<Option<DateTime>>)
    ensures !Truthy(value) ==> r == Ok(None)
    ensures Truthy(value) ==> (r.Ok? <==> DecodeDateTime(p, value).Ok?)
  {
    if Truthy(value) then (var t :- DecodeDateTime(p, value); Ok(Some(t))) else Ok(None)
  }

  lemma OptDateTimeRoundTrip(p: Prims, t: Option<DateTime>)
    requires p.TimeLaws()
    ensures DecodeOptDateTime(p, EncodeOptDateTime(p, t)) == Ok(t)
  {
    if t.Some? {
      DateTimeRoundTrip(p, t.value);
    }
  }

  function EncodeDate(p: Prims, d: Option<int>): Json
  {
    if d.Some? then JStr(p.dateIsoFormat(d.value)) else JNull
  }

  /** `_decode_date`: null stays None, anything else must be ISO date text. */
  function DecodeDate(p: Prims, value: Json): (r: Result<Option<int>>)
    ensures value.JNull? ==> r == Ok(None)
    ensures r.Ok? && r.value.Some? ==> value.JStr? && p.dateFromIsoFormat(value.s) == r.value
  {
    if value.JNull? then Ok(None)
    else if !value.JStr? then Err("fromisoformat: argument must be str")
    else match p.dateFromIsoFormat(value.s)
      case None => Err("Invalid isoformat string")
      case Some(d) => Ok(Some(d))
  }

  lemma DateRoundTrip(p: Prims, d: Option<int>)
    requires p.TimeLaws()
    ensures DecodeDate(p, EncodeDate(p, d)) == Ok(d)
  {
    if d.Some? {
      var day := d.value;
      assert p.dateFromIsoFormat(p.dateIsoFormat(day)) == Some(day);
    }
  }

  function EncodeUuid(u: Uuid): Json
  {
    JStr(UuidText.Format(u))
  }

  /** `UUID(value)` on a decoded JSON value. */
  function DecodeUuid(value: Json): (r: Result<Uuid>)
    ensures r.Ok? <==> value.JStr? && UuidText.Parse(value.s).Some?
  {
    if !value.JStr? then Err("TypeError")
    else match UuidText.Parse(value.s)
      case None => Err("badly formed hexadecimal UUID string")
      case Some(u) => Ok(u)
  }

  lemma UuidRoundTrip(u: Uuid)
    ensures DecodeUuid(EncodeUuid(u)) == Ok(u)
  {
    UuidText.ParseFormat(u);
  }

  function EncodeOptStr(s: Option<string>): Json
  {
    if s.Some? then JStr(s.value) else JNull
  }

  /** An optional text field: null is None and a string is kept. */
  function DecodeOptStr(value: Json): (r: Result<Option<string>>)
    ensures value.JNull? ==> r == Ok(None)
    ensures value.JStr? ==> r == Ok(Some(value.s))
  {
    if value.JNull? then Ok(None)
    else if value.JStr? then Ok(Some(value.s))
    else Err("TypeError")
  }

  function EncodeOptReal(x: Option<real>): Json
  {
    if x.Some? then JFloat(x.value) else JNull
  }

  /** An optional number field: null is None and a number is kept as a real. */
  function DecodeOptReal(value: Json): (r: Result<Option<real>>)
    ensures value.JNull? ==> r == Ok(None)
    ensures value.JFloat? ==> r == Ok(Some(value.r))
  {
    if value.JNull? then Ok(None)
    else
      var x :- AsFloat(value);
      Ok(Some(x))
  }

  // ---------------------------------------------------------------- sync settings

  /** The keys of an encoded sync-settings dict, each read as present or absent. */
  datatype SyncDict = SyncDict(
    enabled: Option<Json>, vaultUrl: Option<Json>, userToken: Option<Json>, deviceId: Option<Json>,
    deviceName: Option<Json>, vaultCertPath: Option<Json>, allowInsecureHttp: Option<Json>,
    autoSyncEnabled: Option<Json>, autoSyncIntervalMinutes: Option<Json>, lastSyncAt: Option<Json>)
  {
    ghost predicate Complete()
    {
      enabled.Some? && vaultUrl.Some? && userToken.Some? && deviceId.Some? && deviceName.Some?
      && vaultCertPath.Some? && allowInsecureHttp.Some? && autoSyncEnabled.Some?
      && autoSyncIntervalMinutes.Some? && lastSyncAt.Some?
    }

    function ToJson(): Json
      requires Complete()
    {
      JObj(map[
        "enabled" := enabled.value,
        "vault_url" := vaultUrl.value,
        "user_token" := userToken.value,
        "device_id" := deviceId.value,
        "device_name" := deviceName.value,
        "vault_cert_path" := vaultCertPath.value,
        "allow_insecure_http" := allowInsecureHttp.value,
        "auto_sync_enabled" := autoSyncEnabled.value,
        "auto_sync_interval_minutes" := autoSyncIntervalMinutes.value,
        "last_sync_at" := lastSyncAt.value
      ])
    }
  }

  function ReadSyncDict(payload: Json): SyncDict
  {
    SyncDict(
      Field(payload, "enabled"), Field(payload, "vault_url"), Field(payload, "user_token"),
      Field(payload, "device_id"), Field(payload, "device_name"), Field(payload, "vault_cert_path"),
      Field(payload, "allow_insecure_http"), Field(payload, "auto_sync_enabled"),
      Field(payload, "auto_sync_interval_minutes"), Field(payload, "last_sync_at"))
  }

  /** Reading back the keys of an encoded dict finds exactly what was written. */
  lemma ReadSyncDictToJson(d: SyncDict)
    requires d.Complete()
    ensures ReadSyncDict(d.ToJson()) == d
  {
  }

  function SyncDictOf(p: Prims, s: SyncSettings): (d: SyncDict)
    ensures d.Complete()
  {
    SyncDict(
      Some(JBool(s.enabled)), Some(EncodeOptStr(s.vaultUrl)), Some(EncodeOptStr(s.userToken)),
      Some(EncodeOptStr(s.deviceId)), Some(EncodeOptStr(s.deviceName)), Some(EncodeOptStr(s.vaultCertPath)),
      Some(JBool(s.allowInsecureHttp)), Some(JBool(s.autoSyncEnabled)),
      Some(JInt(s.autoSyncIntervalMinutes)),
      Some(EncodeOptDateTime(p, s.lastSyncAt)))
  }

  /** `encode_sync_settings`. */
  function EncodeSyncSettings(p: Prims, s: SyncSettings): Json
  {
    SyncDictOf(p, s).ToJson()
  }

  /**
   * `decode_sync_settings`: missing booleans are False, a missing or zero
   * interval is 15 and a missing or empty `last_sync_at` is None.
   */
  function DecodeSyncSettings(p: Prims, payload: Json): (r: Result<SyncSettings>)
    ensures !payload.JObj? ==> r.Err?
  {
    if !payload.JObj? then Err("AttributeError: 'get'")
    else DecodeSyncDict(p, ReadSyncDict(payload))
  }

  function DecodeSyncDict(p: Prims, d: SyncDict): (r: Result<SyncSettings>)
    ensures r.Ok? ==> r.value.enabled == Truthy(Optional(d.enabled))
    ensures r.Ok? ==> r.value.allowInsecureHttp == Truthy(Optional(d.allowInsecureHttp))
    ensures r.Ok? ==> r.value.autoSyncEnabled == Truthy(Optional(d.autoSyncEnabled))
    ensures r.Ok? && !Truthy(Optional(d.autoSyncIntervalMinutes)) ==> r.value.autoSyncIntervalMinutes == 15
    ensures r.Ok? && !Truthy(Optional(d.lastSyncAt)) ==> r.value.lastSyncAt.None?
  {
    var texts :- DecodeSyncTexts(d);
    var minutes :- DecodeInterval(Optional(d.autoSyncIntervalMinutes));
    var last :- DecodeOptDateTime(p, Optional(d.lastSyncAt));
    Ok(SyncSettings(
      Truthy(Optional(d.enabled)), texts.0, texts.1, texts.2, texts.3, texts.4,
      Truthy(Optional(d.allowInsecureHttp)), Truthy(Optional(d.autoSyncEnabled)), minutes, last))
  }

  function DecodeSyncTexts(d: SyncDict)
    : Result<(Option<string>, Option<string>, Option<string>, Option<string>, Option<string>)>
  {
    var vaultUrl :- DecodeOptStr(Optional(d.vaultUrl));
    var userToken :- DecodeOptStr(Optional(d.userToken));
    var deviceId :- DecodeOptStr(Optional(d.deviceId));
    var deviceName :- DecodeOptStr(Optional(d.deviceName));
    var certPath :- DecodeOptStr(Optional(d.vaultCertPath));
    Ok((vaultUrl, userToken, deviceId, deviceName, certPath))
  }

  /** `int(interval) if interval else 15`. */
  function DecodeInterval(interval: Json): (r: Result<int>)
    ensures !Truthy(interval) ==> r == Ok(15)
    ensures interval.JInt? && interval.i != 0 ==> r == Ok(interval.i)
  {
    if Truthy(interval) then AsInt(interval) else Ok(15)
  }

  /** Settings round-trip, except that a zero interval comes back as 15. */
  lemma SyncSettingsRoundTrip(p: Prims, s: SyncSettings)
    requires p.TimeLaws()
    ensures s.autoSyncIntervalMinutes != 0 ==> DecodeSyncSettings(p, EncodeSyncSettings(p, s)) == Ok(s)
    ensures s.autoSyncIntervalMinutes == 0 ==>
              DecodeSyncSettings(p, EncodeSyncSettings(p, s)) == Ok(s.(autoSyncIntervalMinutes := 15))
  {
    var d := SyncDictOf(p, s);
    ReadSyncDictToJson(d);
    assert DecodeSyncTexts(d) == Ok((s.vaultUrl, s.userToken, s.deviceId, s.deviceName, s.vaultCertPath));
    OptDateTimeRoundTrip(p, s.lastSyncAt);
  }

  /** An empty dict decodes to the settings of a profile that never configured sync. */
  lemma EmptySyncSettings(p: Prims)
    ensures DecodeSyncSettings(p, JObj(map[])) == Ok(DefaultSyncSettings)
  {
  }

  // ---------------------------------------------------------------- friends

  datatype FriendDict = FriendDict(friendId: Option<Json>, displayName: Option<Json>, status: Option<Json>,
                                   createdAt: Option<Json>)

  function ReadFriendDict(payload: Json): FriendDict
  {
    FriendDict(Field(payload, "friend_id"), Field(payload, "display_name"), Field(payload, "status"),
               Field(payload, "created_at"))
  }

  /** `encode_friend`. */
  function EncodeFriend(p: Prims, f: FriendLink): Json
  {
    JObj(map[
      "friend_id" := EncodeUuid(f.friendId),
      "display_name" := JStr(f.displayName),
      "status" := JStr(f.status),
      "created_at" := EncodeDateTime(p, f.createdAt)
    ])
  }

  lemma ReadEncodedFriend(p: Prims, f: FriendLink)
    ensures ReadFriendDict(EncodeFriend(p, f))
            == FriendDict(Some(EncodeUuid(f.friendId)), Some(JStr(f.displayName)), Some(JStr(f.status)),
                          Some(EncodeDateTime(p, f.createdAt)))
  {
  }

  /** `decode_friend`; `now` stands for `utc_now()`, used when `created_at` is missing or empty. */
  function DecodeFriend(p: Prims, payload: Json, now: DateTime): (r: Result<FriendLink>)
    ensures r.Ok? ==> payload.JObj? && "friend_id" in payload.fields
  {
    DecodeFriendDict(p, ReadFriendDict(payload), now)
  }

  function DecodeFriendDict(p: Prims, d: FriendDict, now: DateTime): (r: Result<FriendLink>)
    ensures r.Ok? ==> d.friendId.Some?
    ensures r.Ok? && d.displayName.None? ==> r.value.displayName == "Friend"
    ensures r.Ok? && d.status.None? ==> r.value.status == "invited"
    ensures r.Ok? && !Truthy(Optional(d.createdAt)) ==> r.value.createdAt == now
  {
    var created := Optional(d.createdAt);
    var idText :- Required(d.friendId);
    var friendId :- DecodeUuid(idText);
    var name :- AsStr(OrDefault(d.displayName, JStr("Friend")));
    var status :- AsStr(OrDefault(d.status, JStr("invited")));
    var createdAt :- if Truthy(created) then DecodeDateTime(p, created) else Ok(now);
    Ok(FriendLink(friendId, name, status, createdAt))
  }

  lemma FriendRoundTrip(p: Prims, f: FriendLink, now: DateTime)
    requires p.TimeLaws()
    ensures DecodeFriend(p, EncodeFriend(p, f), now) == Ok(f)
  {
    ReadEncodedFriend(p, f);
    UuidRoundTrip(f.friendId);
    DateTimeRoundTrip(p, f.createdAt);
  }

  /** A friend payload holding only the id gets the default name, status and creation time. */
  lemma FriendDefaults(p: Prims, u: Uuid, now: DateTime)
    ensures DecodeFriend(p, JObj(map["friend_id" := EncodeUuid(u)]), now)
            == Ok(FriendLink(u, "Friend", "invited", now))
  {
    UuidRoundTrip(u);
  }

  function EncodeFriends(p: Prims, fs: seq<FriendLink>): (r: seq<Json>)
  {
    seq(|fs|, i requires 0 <= i < |fs| => EncodeFriend(p, fs[i]))
  }

  /** The comprehension over friend items: all of them in order, or the first failure. */
  function DecodeFriends(p: Prims, items: seq<Json>, now: DateTime): (r: Result<seq<FriendLink>>)
  {
    MapResult(item => DecodeFriend(p, item, now), items)
  }

  lemma FriendsRoundTrip(p: Prims, fs: seq<FriendLink>, now: DateTime)
    requires p.TimeLaws()
    ensures DecodeFriends(p, EncodeFriends(p, fs), now) == Ok(fs)
  {
    var items := EncodeFriends(p, fs);
    forall i | 0 <= i < |items|
      ensures DecodeFriend(p, items[i], now) == Ok(fs[i])
    {
      FriendRoundTrip(p, fs[i], now);
    }
    MapResultEach(item => DecodeFriend(p, item, now), items, fs);
  }

  // ---------------------------------------------------------------- profiles

  datatype ProfileDict = ProfileDict(
    userId: Option<Json>, displayName: Option<Json>, weightUnit: Option<Json>, waistUnit: Option<Json>,
    waistConventionLabel: Option<Json>, timezone: Option<Json>, trackWaist: Option<Json>,
    accentColor: Option<Json>, darkMode: Option<Json>, goalWeightKg: Option<Json>,
    goalWeightBandKg: Option<Json>, goalWaistCm: Option<Json>, goalWaistBandCm: Option<Json>,
    syncSettings: Option<Json>, friends: Option<Json>)
  {
    ghost predicate Complete()
    {
      userId.Some? && displayName.Some? && weightUnit.Some? && waistUnit.Some?
      && waistConventionLabel.Some? && timezone.Some? && trackWaist.Some? && accentColor.Some?
      && darkMode.Some? && goalWeightKg.Some? && goalWeightBandKg.Some? && goalWaistCm.Some?
      && goalWaistBandCm.Some? && syncSettings.Some? && friends.Some?
    }

    function ToJson(): Json
      requires Complete()
    {
      JObj(map[
        "user_id" := userId.value,
        "display_name" := displayName.value,
        "weight_unit" := weightUnit.value,
        "waist_unit" := waistUnit.value,
        "waist_convention_label" := waistConventionLabel.value,
        "timezone" := timezone.value,
        "track_waist" := trackWaist.value,
        "accent_color" := accentColor.value,
        "dark_mode" := darkMode.value,
        "goal_weight_kg" := goalWeightKg.value,
        "goal_weight_band_kg" := goalWeightBandKg.value,
        "goal_waist_cm" := goalWaistCm.value,
        "goal_waist_band_cm" := goalWaistBandCm.value,
        "sync_settings" := syncSettings.value,
        "friends" := friends.value
      ])
    }
  }

  function ReadProfileDict(payload: Json): ProfileDict
  {
    ProfileDict(
      Field(payload, "user_id"), Field(payload, "display_name"), Field(payload, "weight_unit"),
      Field(payload, "waist_unit"), Field(payload, "waist_convention_label"), Field(payload, "timezone"),
      Field(payload, "track_waist"), Field(payload, "accent_color"), Field(payload, "dark_mode"),
      Field(payload, "goal_weight_kg"), Field(payload, "goal_weight_band_kg"), Field(payload, "goal_waist_cm"),
      Field(payload, "goal_waist_band_cm"), Field(payload, "sync_settings"), Field(payload, "friends"))
  }

  /**
   * Reading back the keys of an encoded profile dict finds exactly what was
   * written; the early keys are looked up one lemma at a time, which keeps
   * each lookup through the fifteen-key display cheap.
   */
  lemma ReadProfileDictToJson(d: ProfileDict)
    requires d.Complete()
    ensures ReadProfileDict(d.ToJson()) == d
  {
    ProfileKeyUserId(d);
    ProfileKeyDisplayName(d);
    ProfileKeyWeightUnit(d);
    ProfileKeyWaistUnit(d);
    ProfileKeyWaistConventionLabel(d);
    ProfileKeyTimezone(d);
    ProfileKeyTrackWaist(d);
    ProfileKeyAccentColor(d);
    ProfileKeyDarkMode(d);
    ReadProfileGoals(d);
  }

  lemma ProfileKeyUserId(d: ProfileDict)
    requires d.Complete()
    ensures Field(d.ToJson(), "user_id") == d.userId
  {
  }

  lemma ProfileKeyDisplayName(d: ProfileDict)
    requires d.Complete()
    ensures Field(d.ToJson(), "display_name") == d.displayName
  {
  }

  lemma ProfileKeyWeightUnit(d: ProfileDict)
    requires d.Complete()
    ensures Field(d.ToJson(), "weight_unit") == d.weightUnit
  {
  }

  lemma ProfileKeyWaistUnit(d: ProfileDict)
    requires d.Complete()
    ensures Field(d.ToJson(), "waist_unit") == d.waistUnit
  {
  }

  lemma ProfileKeyWaistConventionLabel(d: ProfileDict)
    requires d.Complete()
    ensures Field(d.ToJson(), "waist_convention_label") == d.waistConventionLabel
  {
  }

  lemma ProfileKeyTimezone(d: ProfileDict)
    requires d.Complete()
    ensures Field(d.ToJson(), "timezone") == d.timezone
  {
  }

  lemma ProfileKeyTrackWaist(d: ProfileDict)
    requires d.Complete()
    ensures Field(d.ToJson(), "track_waist") == d.trackWaist
  {
  }

  lemma ProfileKeyAccentColor(d: ProfileDict)
    requires d.Complete()
    ensures Field(d.ToJson(), "accent_color") == d.accentColor
  {
  }

  lemma ProfileKeyDarkMode(d: ProfileDict)
    requires d.Complete()
    ensures Field(d.ToJson(), "dark_mode") == d.darkMode
  {
  }

  lemma ReadProfileGoals(d: ProfileDict)
    requires d.Complete()
    ensures var r := ReadProfileDict(d.ToJson());
            r.goalWeightKg == d.goalWeightKg
            && r.goalWeightBandKg == d.goalWeightBandKg && r.goalWaistCm == d.goalWaistCm
            && r.goalWaistBandCm == d.goalWaistBandCm && r.syncSettings == d.syncSettings
            && r.friends == d.friends
  {
  }

  /** The dict of a profile whose nested settings and friend list are already encoded. */
  function ProfileDictOf(u: UserProfile, settings: Json, friends: Json): (d: ProfileDict)
    ensures d.Complete()
  {
    ProfileDict(
      Some(EncodeUuid(u.userId)), Some(JStr(u.displayName)), Some(JStr(u.weightUnit.Value())),
      Some(JStr(u.waistUnit.Value())), Some(JStr(u.waistConventionLabel)), Some(JStr(u.timezone)),
      Some(JBool(u.trackWaist)), Some(JStr(u.accentColor)), Some(JBool(u.darkMode)),
      Some(EncodeOptReal(u.goalWeightKg)), Some(EncodeOptReal(u.goalWeightBandKg)),
      Some(EncodeOptReal(u.goalWaistCm)), Some(EncodeOptReal(u.goalWaistBandCm)),
      Some(settings), Some(friends))
  }

  /** `encode_profile`; the unit fields are always enum members here, so no coercion is needed. */
  function EncodeProfile(p: Prims, u: UserProfile): Json
  {
    ProfileDictOf(u, EncodeSyncSettings(p, u.syncSettings), JArr(EncodeFriends(p, u.friends))).ToJson()
  }

  /** `WeightUnit(...)` and `LengthUnit(...)` of the unit fields, with their defaults. */
  function DecodeUnits(d: ProfileDict): (r: Result<(WeightUnit, LengthUnit)>)
    ensures r.Ok? && d.weightUnit.None? ==> r.value.0 == LB
    ensures r.Ok? && d.waistUnit.None? ==> r.value.1 == IN
    ensures r.Ok? && d.weightUnit.Some? ==> d.weightUnit.value == JStr(r.value.0.Value())
    ensures r.Ok? && d.waistUnit.Some? ==> d.waistUnit.value == JStr(r.value.1.Value())
  {
    var weightText :- AsStr(OrDefault(d.weightUnit, JStr(LB.Value())));
    var waistText :- AsStr(OrDefault(d.waistUnit, JStr(IN.Value())));
    var weight :- if WeightUnitOf(weightText).Some? then Ok(WeightUnitOf(weightText).value)
                  else Err("ValueError: not a valid WeightUnit");
    var waist :- if LengthUnitOf(waistText).Some? then Ok(LengthUnitOf(waistText).value)
                 else Err("ValueError: not a valid LengthUnit");
    Ok((weight, waist))
  }

  /** `decode_profile`: only `user_id` is required; `now` stands for `utc_now()` in the friends. */
  function DecodeProfile(p: Prims, payload: Json, now: DateTime): (r: Result<UserProfile>)
    ensures r.Ok? ==> payload.JObj? && "user_id" in payload.fields
  {
    DecodeProfileDict(p, ReadProfileDict(payload), now)
  }

  function DecodeProfileDict(p: Prims, d: ProfileDict, now: DateTime): (r: Result<UserProfile>)
    ensures r.Ok? ==> d.userId.Some?
  {
    var head :- DecodeProfileHead(d);
    var goals :- DecodeGoals(d);
    var settings :- DecodeSyncSettings(p, OrDefault(d.syncSettings, JObj(map[])));
    var friends :- DecodeFriendList(p, OrDefault(d.friends, JArr([])), now);
    Ok(UserProfile(head.0, head.1, head.2.0, head.2.1, head.3, head.4,
                   Truthy(Optional(d.trackWaist)), head.5, Truthy(Optional(d.darkMode)),
                   goals.0, goals.1, goals.2, goals.3, friends, settings))
  }

  /** The id, the name, the units and the display texts, read in that order. */
  function DecodeProfileHead(d: ProfileDict)
    : (r: Result<(Uuid, string, (WeightUnit, LengthUnit), string, string, string)>)
    ensures r.Ok? ==> d.userId.Some?
  {
    var idText :- Required(d.userId);
    var userId :- DecodeUuid(idText);
    var displayName :- AsStr(OrDefault(d.displayName, JStr("User")));
    var units :- DecodeUnits(d);
    var convention :- AsStr(OrDefault(d.waistConventionLabel, JStr("smallest point")));
    var timezone :- AsStr(OrDefault(d.timezone, JStr("local")));
    var accent :- AsStr(OrDefault(d.accentColor, JStr("#4f8cf7")));
    Ok((userId, displayName, units, convention, timezone, accent))
  }

  /** The comprehension over `friends`. */
  function DecodeFriendList(p: Prims, items: Json, now: DateTime): (r: Result<seq<FriendLink>>)
    ensures items == JArr([]) ==> r == Ok([])
    ensures items.JArr? ==> r == DecodeFriends(p, items.items, now)
  {
    var list :- IterItems(items);
    DecodeFriends(p, list, now)
  }

  function DecodeGoals(d: ProfileDict): (r: Result<(Option<real>, Option<real>, Option<real>, Option<real>)>)
    ensures r.Ok? && d.goalWeightKg.None? ==> r.value.0.None?
  {
    var goalWeight :- DecodeOptReal(Optional(d.goalWeightKg));
    var goalWeightBand :- DecodeOptReal(Optional(d.goalWeightBandKg));
    var goalWaist :- DecodeOptReal(Optional(d.goalWaistCm));
    var goalWaistBand :- DecodeOptReal(Optional(d.goalWaistBandCm));
    Ok((goalWeight, goalWeightBand, goalWaist, goalWaistBand))
  }

  /** A payload holding only the user id decodes to the dataclass defaults. */
  lemma ProfileDefaults(p: Prims, u: Uuid, now: DateTime)
    ensures DecodeProfile(p, JObj(map["user_id" := EncodeUuid(u)]), now) == Ok(NewProfile(u))
  {
    var d := ReadProfileDict(JObj(map["user_id" := EncodeUuid(u)]));
    assert d == ProfileDict(Some(EncodeUuid(u)), None, None, None, None, None, None, None, None,
                            None, None, None, None, None, None);
    UuidRoundTrip(u);
    EmptySyncSettings(p);
  }

  lemma ProfileRoundTrip(p: Prims, u: UserProfile, now: DateTime)
    requires p.TimeLaws()
    requires u.syncSettings.autoSyncIntervalMinutes != 0
    ensures DecodeProfile(p, EncodeProfile(p, u), now) == Ok(u)
  {
    var settings := EncodeSyncSettings(p, u.syncSettings);
    var friends := JArr(EncodeFriends(p, u.friends));
    ReadProfileDictToJson(ProfileDictOf(u, settings, friends));
    SyncSettingsRoundTrip(p, u.syncSettings);
    FriendsRoundTrip(p, u.friends, now);
    ProfileDictRoundTrip(p, u, now, settings, friends);
  }

  /** Given nested parts that decode to the profile's own, the whole dict decodes to the profile. */
  lemma ProfileDictRoundTrip(p: Prims, u: UserProfile, now: DateTime, settings: Json, friends: Json)
    requires DecodeSyncSettings(p, settings) == Ok(u.syncSettings)
    requires DecodeFriendList(p, friends, now) == Ok(u.friends)
    ensures DecodeProfileDict(p, ProfileDictOf(u, settings, friends), now) == Ok(u)
  {
    var d := ProfileDictOf(u, settings, friends);
    ProfileHeadRoundTrip(u, settings, friends);
    ProfileGoalsStage(u, settings, friends);
    DecodeProfileStages(p, d, now, u);
  }

  lemma ProfileGoalsStage(u: UserProfile, settings: Json, friends: Json)
    ensures DecodeGoals(ProfileDictOf(u, settings, friends))
            == Ok((u.goalWeightKg, u.goalWeightBandKg, u.goalWaistCm, u.goalWaistBandCm))
  {
    var d := ProfileDictOf(u, settings, friends);
    var goals := (u.goalWeightKg, u.goalWeightBandKg, u.goalWaistCm, u.goalWaistBandCm);
    GoalsRoundTrip(goals);
    assert d.goalWeightKg == Some(EncodeOptReal(goals.0)) && d.goalWeightBandKg == Some(EncodeOptReal(goals.1))
           && d.goalWaistCm == Some(EncodeOptReal(goals.2)) && d.goalWaistBandCm == Some(EncodeOptReal(goals.3));
  }

  lemma GoalsRoundTrip(goals: (Option<real>, Option<real>, Option<real>, Option<real>))
    ensures forall d: ProfileDict ::
              d.goalWeightKg == Some(EncodeOptReal(goals.0)) && d.goalWeightBandKg == Some(EncodeOptReal(goals.1))
              && d.goalWaistCm == Some(EncodeOptReal(goals.2)) && d.goalWaistBandCm == Some(EncodeOptReal(goals.3))
              ==> DecodeGoals(d) == Ok(goals)
  {
  }

  /** The profile decoder assembles its stages' results. */
  lemma DecodeProfileStages(p: Prims, d: ProfileDict, now: DateTime, u: UserProfile)
    requires DecodeProfileHead(d)
             == Ok((u.userId, u.displayName, (u.weightUnit, u.waistUnit), u.waistConventionLabel, u.timezone,
                    u.accentColor))
    requires DecodeGoals(d) == Ok((u.goalWeightKg, u.goalWeightBandKg, u.goalWaistCm, u.goalWaistBandCm))
    requires DecodeSyncSettings(p, OrDefault(d.syncSettings, JObj(map[]))) == Ok(u.syncSettings)
    requires DecodeFriendList(p, OrDefault(d.friends, JArr([])), now) == Ok(u.friends)
    requires Truthy(Optional(d.trackWaist)) == u.trackWaist && Truthy(Optional(d.darkMode)) == u.darkMode
    ensures DecodeProfileDict(p, d, now) == Ok(u)
  {
  }

  lemma ProfileHeadRoundTrip(u: UserProfile, settings: Json, friends: Json)
    ensures DecodeProfileHead(ProfileDictOf(u, settings, friends))
            == Ok((u.userId, u.displayName, (u.weightUnit, u.waistUnit), u.waistConventionLabel, u.timezone,
                   u.accentColor))
  {
    UuidRoundTrip(u.userId);
    UnitValuesRoundTrip(u.weightUnit, u.waistUnit);
  }

  // ---------------------------------------------------------------- entries

  datatype EntryDict = EntryDict(
    entryId: Option<Json>, userId: Option<Json>, measuredAt: Option<Json>, dateLocal: Option<Json>,
    weightKg: Option<Json>, waistCm: Option<Json>, note: Option<Json>, createdAt: Option<Json>,
    updatedAt: Option<Json>, isDeleted: Option<Json>, deletedAt: Option<Json>, version: Option<Json>)
  {
    ghost predicate Complete()
    {
      entryId.Some? && userId.Some? && measuredAt.Some? && dateLocal.Some? && weightKg.Some?
      && waistCm.Some? && note.Some? && createdAt.Some? && updatedAt.Some? && isDeleted.Some?
      && deletedAt.Some? && version.Some?
    }

    function ToJson(): Json
      requires Complete()
    {
      JObj(map[
        "entry_id" := entryId.value,
        "user_id" := userId.value,
        "measured_at" := measuredAt.value,
        "date_local" := dateLocal.value,
        "weight_kg" := weightKg.value,
        "waist_cm" := waistCm.value,
        "note" := note.value,
        "created_at" := createdAt.value,
        "updated_at" := updatedAt.value,
        "is_deleted" := isDeleted.value,
        "deleted_at" := deletedAt.value,
        "version" := version.value
      ])
    }
  }

  function ReadEntryDict(payload: Json): EntryDict
  {
    EntryDict(
      Field(payload, "entry_id"), Field(payload, "user_id"), Field(payload, "measured_at"),
      Field(payload, "date_local"), Field(payload, "weight_kg"), Field(payload, "waist_cm"),
      Field(payload, "note"), Field(payload, "created_at"), Field(payload, "updated_at"),
      Field(payload, "is_deleted"), Field(payload, "deleted_at"), Field(payload, "version"))
  }

  lemma ReadEntryDictToJson(d: EntryDict)
    requires d.Complete()
    ensures ReadEntryDict(d.ToJson()) == d
  {
  }

  function EntryDictOf(p: Prims, e: MeasurementEntry): (d: EntryDict)
    ensures d.Complete()
  {
    EntryDict(
      Some(EncodeUuid(e.entryId)), Some(EncodeUuid(e.userId)), Some(EncodeDateTime(p, e.measuredAt)),
      Some(EncodeDate(p, e.dateLocal)), Some(JFloat(e.weightKg)), Some(EncodeOptReal(e.waistCm)),
      Some(EncodeOptStr(e.note)), Some(EncodeDateTime(p, e.createdAt)), Some(EncodeDateTime(p, e.updatedAt)),
      Some(JBool(e.isDeleted)),
      Some(EncodeOptDateTime(p, e.deletedAt)),
      Some(JInt(e.version)))
  }

  /** `encode_entry`. */
  function EncodeEntry(p: Prims, e: MeasurementEntry): Json
  {
    EntryDictOf(p, e).ToJson()
  }

  /**
   * `decode_entry`: the ids, `measured_at`, `weight_kg`, `created_at` and
   * `updated_at` are required; the other fields have defaults.
   */
  function DecodeEntry(p: Prims, payload: Json): (r: Result<MeasurementEntry>)
  {
    DecodeEntryDict(p, ReadEntryDict(payload))
  }

  function DecodeEntryDict(p: Prims, d: EntryDict): (r: Result<MeasurementEntry>)
    ensures r.Ok? ==> d.entryId.Some? && d.userId.Some? && d.measuredAt.Some? && d.weightKg.Some?
                      && d.createdAt.Some? && d.updatedAt.Some?
    ensures r.Ok? ==> r.value.isDeleted == Truthy(Optional(d.isDeleted))
    ensures r.Ok? && Optional(d.waistCm).JNull? ==> r.value.waistCm.None?
    ensures r.Ok? && !Truthy(Optional(d.deletedAt)) ==> r.value.deletedAt.None?
    ensures r.Ok? && d.version.None? ==> r.value.version == 1
    ensures r.Ok? ==> r.value.dateLocal.Some?
    ensures (d.measuredAt.Some? && d.measuredAt.value.JStr?
             && p.fromIsoFormat(d.measuredAt.value.s).Some?
             && p.fromIsoFormat(d.measuredAt.value.s).value.offset.None?) ==> r.Err?
  {
    var head :- DecodeEntryHead(p, d);
    var body :- DecodeEntryBody(p, d);
    var tail :- DecodeEntryTail(p, d);
    var measuredAt := head.2;
    NewEntry(head.1, ParsedTime(measuredAt.wall, Some(measuredAt.offset)), body.1, body.2, head.0, body.3,
             tail.0, tail.1, Truthy(Optional(d.isDeleted)), tail.2, tail.3, body.0)
  }

  /** `entry_id`, `user_id` and `measured_at`, read in that order. */
  function DecodeEntryHead(p: Prims, d: EntryDict): (r: Result<(Uuid, Uuid, DateTime)>)
    ensures r.Ok? ==> d.entryId.Some? && d.userId.Some? && d.measuredAt.Some?
    ensures (d.measuredAt.Some? && d.measuredAt.value.JStr?
             && p.fromIsoFormat(d.measuredAt.value.s).Some?
             && p.fromIsoFormat(d.measuredAt.value.s).value.offset.None?) ==> r.Err?
  {
    var entryIdText :- Required(d.entryId);
    var entryId :- DecodeUuid(entryIdText);
    var userIdText :- Required(d.userId);
    var userId :- DecodeUuid(userIdText);
    var measuredText :- Required(d.measuredAt);
    var measuredAt :- DecodeDateTime(p, measuredText);
    Ok((entryId, userId, measuredAt))
  }

  /** `date_local`, `weight_kg`, `waist_cm` and `note`. */
  function DecodeEntryBody(p: Prims, d: EntryDict): (r: Result<(Option<int>, real, Option<real>, Option<string>)>)
    ensures r.Ok? ==> d.weightKg.Some?
    ensures r.Ok? && Optional(d.waistCm).JNull? ==> r.value.2.None?
  {
    var dateLocal :- DecodeDate(p, Optional(d.dateLocal));
    var weightJson :- Required(d.weightKg);
    var weight :- AsFloat(weightJson);
    var waist :- if Optional(d.waistCm).JNull? then Ok(None)
                 else (var w :- AsFloat(Optional(d.waistCm)); Ok(Some(w)));
    var note :- DecodeOptStr(Optional(d.note));
    Ok((dateLocal, weight, waist, note))
  }

  /** `created_at`, `updated_at`, `deleted_at` and `version`. */
  function DecodeEntryTail(p: Prims, d: EntryDict): (r: Result<(DateTime, DateTime, Option<DateTime>, int)>)
    ensures r.Ok? ==> d.createdAt.Some? && d.updatedAt.Some?
    ensures r.Ok? && !Truthy(Optional(d.deletedAt)) ==> r.value.2.None?
    ensures r.Ok? && d.version.None? ==> r.value.3 == 1
  {
    var createdText :- Required(d.createdAt);
    var createdAt :- DecodeDateTime(p, createdText);
    var updatedText :- Required(d.updatedAt);
    var updatedAt :- DecodeDateTime(p, updatedText);
    var deletedAt :- DecodeOptDateTime(p, Optional(d.deletedAt));
    var version :- AsInt(OrDefault(d.version, JInt(1)));
    Ok((createdAt, updatedAt, deletedAt, version))
  }

  lemma EntryHeadRoundTrip(p: Prims, e: MeasurementEntry)
    requires p.TimeLaws()
    ensures DecodeEntryHead(p, EntryDictOf(p, e)) == Ok((e.entryId, e.userId, e.measuredAt))
  {
    UuidRoundTrip(e.entryId);
    UuidRoundTrip(e.userId);
    DateTimeRoundTrip(p, e.measuredAt);
  }

  lemma EntryBodyRoundTrip(p: Prims, e: MeasurementEntry)
    requires p.TimeLaws()
    ensures DecodeEntryBody(p, EntryDictOf(p, e)) == Ok((e.dateLocal, e.weightKg, e.waistCm, e.note))
  {
    DateRoundTrip(p, e.dateLocal);
  }

  lemma EntryTailRoundTrip(p: Prims, e: MeasurementEntry)
    requires p.TimeLaws()
    ensures DecodeEntryTail(p, EntryDictOf(p, e)) == Ok((e.createdAt, e.updatedAt, e.deletedAt, e.version))
  {
    DateTimeRoundTrip(p, e.createdAt);
    DateTimeRoundTrip(p, e.updatedAt);
    OptDateTimeRoundTrip(p, e.deletedAt);
  }

  /** Every entry whose local date is set, as every constructed entry's is, survives the codec. */
  lemma EntryRoundTrip(p: Prims, e: MeasurementEntry)
    requires p.TimeLaws()
    requires e.dateLocal.Some?
    ensures DecodeEntry(p, EncodeEntry(p, e)) == Ok(e)
  {
    var d := EntryDictOf(p, e);
    ReadEntryDictToJson(d);
    EntryHeadRoundTrip(p, e);
    EntryBodyRoundTrip(p, e);
    EntryTailRoundTrip(p, e);
  }
}
