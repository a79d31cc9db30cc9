// The desktop client's local store: the in-memory record of profiles and
// measurements with its edit operations, the versioned JSON document it is
// saved as, and the checks made when the encrypted file is loaded. The file
// itself is a parameter (its text, or None when it does not exist); clocks
// and random salts and nonces are parameters too.

module LocalStore {
  import opened Common
  import opened Primitives
  import opened Text
  import opened Models
  import Lww
  import Codec
  import StorageCrypto

  const SchemaVersion := 1

  const NotFound := "Encrypted store not found"
  const NotJsonFile := "Encrypted store is not valid JSON"
  const NotJsonPayload := "Decrypted payload is not valid JSON"
  const BadSchema := "Missing or invalid schema version"
  const BadLastModified := "Missing or invalid last_modified"

  function Unsupported(version: int): string
  {
    "Unsupported schema version: " + IntText(version)
  }

  /** An aware datetime as the result of parsing its ISO text. */
  function Aware(t: DateTime): ParsedTime
  {
    ParsedTime(t.wall, Some(t.offset))
  }

  /** `datetime.isoformat()` of a datetime that may be naive, as a loaded `last_modified` can be. */
  function FormatParsed(p: Prims, t: ParsedTime): string
  {
    match t.offset
    case Some(offset) => p.isoFormat(DateTime(t.wall, offset))
    case None => p.isoFormatNaive(t.wall)
  }

  lemma FormatParsedRoundTrip(p: Prims, t: ParsedTime)
    requires p.TimeLaws() && p.NaiveTimeLaw()
    ensures p.fromIsoFormat(FormatParsed(p, t)) == Some(t)
  {
    if t.offset.Some? {
      var d := DateTime(t.wall, t.offset.value);
      assert p.fromIsoFormat(p.isoFormat(d)) == Some(ParsedTime(d.wall, Some(d.offset)));
    } else {
      assert p.fromIsoFormat(p.isoFormatNaive(t.wall)) == Some(ParsedTime(t.wall, None));
    }
  }

  /**
   * The administrator settings record is not part of this model: a decoded
   * record is held as an opaque JSON value and its encoder and decoder are
   * parameters.
   */
  datatype AdminCodec = AdminCodec(encode: Json -> Json, decode: Json -> Result<Json>)
  {
    /** `encode_admin_config` yields a dict that `decode_admin_config` reads back. */
    ghost predicate RoundTrips()
    {
      forall a :: encode(a).JObj? && decode(encode(a)) == Ok(a)
    }
  }

  // ---------------------------------------------------------------------
  // Python `int(x)` on the stored schema version
  // ---------------------------------------------------------------------

  predicate AllDigits(s: string)
  {
    forall i :: 0 <= i < |s| ==> '0' <= s[i] <= '9'
  }

  function DigitsValue(s: string): nat
    requires AllDigits(s)
  {
    if s == [] then 0 else DigitsValue(s[..|s| - 1]) * 10 + (s[|s| - 1] as int - '0' as int)
  }

  /** `int(text)`: surrounding blanks, an optional sign and one or more decimal digits. */
  function IntOfText(s: string): (r: Option<int>)
  {
    ParseSigned(Strip(s))
  }

  function ParseSigned(t: string): (r: Option<int>)
    ensures r.Some? ==> t != []
  {
    if |t| >= 2 && (t[0] == '-' || t[0] == '+') && AllDigits(t[1..])
    then (var v := DigitsValue(t[1..]) as int; Some(if t[0] == '-' then -v else v))
    else if |t| >= 1 && AllDigits(t) then Some(DigitsValue(t))
    else None
  }

  lemma {:induction false} DigitsOfNatText(n: nat)
    ensures AllDigits(NatText(n)) && DigitsValue(NatText(n)) == n
  {
    if n >= 10 {
      DigitsOfNatText(n / 10);
      var s := NatText(n);
      assert s[..|s| - 1] == NatText(n / 10);
    }
  }

  lemma ParseNatText(n: nat)
    ensures ParseSigned(NatText(n)) == Some(n)
  {
    DigitsOfNatText(n);
  }

  lemma ParseNegatedText(n: nat)
    ensures ParseSigned("-" + NatText(n)) == Some(-(n as int))
  {
    DigitsOfNatText(n);
    var t := "-" + NatText(n);
    assert t[1..] == NatText(n);
  }

  /** The text `str(n)` reads back as `n`. */
  lemma IntOfIntText(n: int)
    ensures IntOfText(IntText(n)) == Some(n)
  {
    if n < 0 {
      NegatedTextReads(n);
    } else {
      NatTextReads(n);
    }
  }

  lemma NatTextReads(n: int)
    requires n >= 0
    ensures IntOfText(IntText(n)) == Some(n)
  {
    var t := NatText(n);
    assert IntText(n) == t;
    StripEnds(t);
    ParseNatText(n);
  }

  lemma NegatedTextReads(n: int)
    requires n < 0
    ensures IntOfText(IntText(n)) == Some(n)
  {
    var t := "-" + NatText(-n);
    assert IntText(n) == t;
    assert t[|t| - 1] == NatText(-n)[|NatText(-n)| - 1];
    StripEnds(t);
    ParseNegatedText(-n);
  }

  /** `int(payload["schema_version"])`; any failure is reported as an invalid version. */
  function ReadSchemaVersion(payload: Json): (r: Result<int>)
    ensures r.Ok? ==> payload.JObj? && "schema_version" in payload.fields
    ensures payload.JObj? && "schema_version" in payload.fields && payload.fields["schema_version"].JInt?
            ==> r == Ok(payload.fields["schema_version"].i)
  {
    var raw :- Index(payload, "schema_version");
    if raw.JStr? then
      (match IntOfText(raw.s)
       case Some(n) => Ok(n)
       case None => Err("ValueError"))
    else AsInt(raw)
  }

  /** `datetime.fromisoformat(payload["last_modified"])`: a naive value is accepted here. */
  function ReadLastModified(p: Prims, payload: Json): (r: Result<ParsedTime>)
    ensures r.Ok? <==> payload.JObj? && "last_modified" in payload.fields
                       && payload.fields["last_modified"].JStr?
                       && p.fromIsoFormat(payload.fields["last_modified"].s).Some?
    ensures r.Ok? ==> Some(r.value) == p.fromIsoFormat(payload.fields["last_modified"].s)
  {
    var raw :- Index(payload, "last_modified");
    if !raw.JStr? then Err("TypeError")
    else match p.fromIsoFormat(raw.s)
      case None => Err("ValueError")
      case Some(t) => Ok(t)
  }

  // ---------------------------------------------------------------------
  // The store document
  // ---------------------------------------------------------------------

  /** The contents of a `LocalStoreData`, as a value. */
  datatype StoreData = StoreData(
    schemaVersion: int,
    profiles: seq<UserProfile>,
    entries: seq<MeasurementEntry>,
    lastModified: ParsedTime,
    activeProfileId: Option<Uuid>,
    adminConfig: Option<Json>)

  function EncodeProfiles(p: Prims, us: seq<UserProfile>): seq<Json>
  {
    seq(|us|, i requires 0 <= i < |us| => Codec.EncodeProfile(p, us[i]))
  }

  function EncodeEntries(p: Prims, es: seq<MeasurementEntry>): seq<Json>
  {
    seq(|es|, i requires 0 <= i < |es| => Codec.EncodeEntry(p, es[i]))
  }

  /** `_serialize_store`: a UUID and a dataclass instance are always truthy. */
  function SerializeStore(p: Prims, admin: AdminCodec, d: StoreData): Json
  {
    JObj(map[
      "schema_version" := JInt(d.schemaVersion),
      "last_modified" := JStr(FormatParsed(p, d.lastModified)),
      "profiles" := JArr(EncodeProfiles(p, d.profiles)),
      "entries" := JArr(EncodeEntries(p, d.entries)),
      "active_profile_id" := if d.activeProfileId.Some? then Codec.EncodeUuid(d.activeProfileId.value) else JNull,
      "admin_config" := if d.adminConfig.Some? then admin.encode(d.adminConfig.value) else JNull])
  }

  /** The admin record of a payload: only a dict that decodes; any decoding error gives None. */
  function AdminOf(admin: AdminCodec, raw: Json): (r: Option<Json>)
    ensures r.Some? <==> raw.JObj? && admin.decode(raw).Ok?
    ensures r.Some? ==> admin.decode(raw) == Ok(r.value)
  {
    if raw.JObj? && admin.decode(raw).Ok? then Some(admin.decode(raw).value) else None
  }

  /** `UUID(value) if value else None`. */
  function DecodeOptUuid(value: Json): (r: Result<Option<Uuid>>)
    ensures !Truthy(value) ==> r == Ok(None)
    ensures r.Ok? && r.value.Some? ==> Codec.DecodeUuid(value) == Ok(r.value.value)
  {
    if Truthy(value) then (var u :- Codec.DecodeUuid(value); Ok(Some(u))) else Ok(None)
  }

  /** The active id after loading: a missing one falls back to the first profile's. */
  function DefaultActive(active: Option<Uuid>, profiles: seq<UserProfile>): (r: Option<Uuid>)
    ensures r.None? <==> active.None? && profiles == []
    ensures active.Some? ==> r == active
    ensures active.None? && profiles != [] ==> r == Some(profiles[0].userId)
  {
    if active.None? && profiles != [] then Some(profiles[0].userId) else active
  }

  /**
   * `_deserialize_store`. The version and `last_modified` failures are
   * reported as storage errors; a profile, entry or id that fails to decode
   * raises its own error. `now` stands for `utc_now()` in friend defaults.
   */
  function DeserializeStore(p: Prims, admin: AdminCodec, payload: Json, now: DateTime): (r: Result<StoreData>)
    ensures ReadSchemaVersion(payload).Err? ==> r == Err(BadSchema)
    ensures ReadSchemaVersion(payload).Ok? && ReadSchemaVersion(payload).value != SchemaVersion
            ==> r == Err(Unsupported(ReadSchemaVersion(payload).value))
    ensures ReadSchemaVersion(payload) == Ok(SchemaVersion) && ReadLastModified(p, payload).Err?
            ==> r == Err(BadLastModified)
    ensures r.Ok? ==> ReadSchemaVersion(payload) == Ok(SchemaVersion) && r.value.schemaVersion == SchemaVersion
    ensures r.Ok? ==> ReadLastModified(p, payload) == Ok(r.value.lastModified)
    ensures r.Ok? ==> (r.value.activeProfileId.None? <==> r.value.profiles == [] && !Truthy(Get(payload, "active_profile_id")))
    ensures r.Ok? ==> r.value.adminConfig == AdminOf(admin, Get(payload, "admin_config"))
  {
    match ReadSchemaVersion(payload)
    case Err(_) => Err(BadSchema)
    case Ok(version) =>
      if version != SchemaVersion then Err(Unsupported(version))
      else match ReadLastModified(p, payload)
        case Err(_) => Err(BadLastModified)
        case Ok(lastModified) =>
          var profileItems :- Codec.IterItems(Codec.OrDefault(Codec.Field(payload, "profiles"), JArr([])));
          var profiles :- MapResult(item => Codec.DecodeProfile(p, item, now), profileItems);
          var entryItems :- Codec.IterItems(Codec.OrDefault(Codec.Field(payload, "entries"), JArr([])));
          var entries :- MapResult(item => Codec.DecodeEntry(p, item), entryItems);
          var active :- DecodeOptUuid(Get(payload, "active_profile_id"));
          Ok(StoreData(version, profiles, entries, lastModified, DefaultActive(active, profiles),
                       AdminOf(admin, Get(payload, "admin_config"))))
  }

  /** What the codecs can carry: every entry has its local date and no auto-sync interval is 0. */
  predicate Storable(d: StoreData)
  {
    (forall i :: 0 <= i < |d.entries| ==> d.entries[i].dateLocal.Some?)
    && (forall i :: 0 <= i < |d.profiles| ==> d.profiles[i].syncSettings.autoSyncIntervalMinutes != 0)
  }

  /** The store as it reads back: the only change is the active-id default. */
  function Reloaded(d: StoreData): (r: StoreData)
    ensures r.profiles == d.profiles && r.entries == d.entries && r.schemaVersion == d.schemaVersion
    ensures r.lastModified == d.lastModified && r.adminConfig == d.adminConfig
  {
    d.(activeProfileId := DefaultActive(d.activeProfileId, d.profiles))
  }

  lemma ProfilesRoundTrip(p: Prims, us: seq<UserProfile>, now: DateTime)
    requires p.TimeLaws()
    requires forall i :: 0 <= i < |us| ==> us[i].syncSettings.autoSyncIntervalMinutes != 0
    ensures MapResult(item => Codec.DecodeProfile(p, item, now), EncodeProfiles(p, us)) == Ok(us)
  {
    var items := EncodeProfiles(p, us);
    forall i | 0 <= i < |items|
      ensures Codec.DecodeProfile(p, items[i], now) == Ok(us[i])
    {
      Codec.ProfileRoundTrip(p, us[i], now);
    }
    MapResultEach(item => Codec.DecodeProfile(p, item, now), items, us);
  }

  lemma EntriesRoundTrip(p: Prims, es: seq<MeasurementEntry>)
    requires p.TimeLaws()
    requires forall i :: 0 <= i < |es| ==> es[i].dateLocal.Some?
    ensures MapResult(item => Codec.DecodeEntry(p, item), EncodeEntries(p, es)) == Ok(es)
  {
    var items := EncodeEntries(p, es);
    forall i | 0 <= i < |items|
      ensures Codec.DecodeEntry(p, items[i]) == Ok(es[i])
    {
      Codec.EntryRoundTrip(p, es[i]);
    }
    MapResultEach(item => Codec.DecodeEntry(p, item), items, es);
  }

  /**
   * `_deserialize_store(_serialize_store(d))` gives back the version, the
   * profiles, the entries, the modification time and the admin record, and the
   * active id with its first-profile default applied.
   */
  lemma StoreRoundTrip(p: Prims, admin: AdminCodec, d: StoreData, now: DateTime)
    requires p.TimeLaws() && p.NaiveTimeLaw() && admin.RoundTrips()
    requires d.schemaVersion == SchemaVersion && Storable(d)
    ensures DeserializeStore(p, admin, SerializeStore(p, admin, d), now) == Ok(Reloaded(d))
  {
    var payload := SerializeStore(p, admin, d);
    SerializedHead(p, admin, d);
    SerializedLists(p, admin, d);
    ProfilesRoundTrip(p, d.profiles, now);
    EntriesRoundTrip(p, d.entries);
    SerializedTail(p, admin, d);
  }

  lemma SerializedHead(p: Prims, admin: AdminCodec, d: StoreData)
    requires p.TimeLaws() && p.NaiveTimeLaw()
    ensures ReadSchemaVersion(SerializeStore(p, admin, d)) == Ok(d.schemaVersion)
    ensures ReadLastModified(p, SerializeStore(p, admin, d)) == Ok(d.lastModified)
  {
    FormatParsedRoundTrip(p, d.lastModified);
  }

  lemma SerializedLists(p: Prims, admin: AdminCodec, d: StoreData)
    ensures Codec.Field(SerializeStore(p, admin, d), "profiles") == Some(JArr(EncodeProfiles(p, d.profiles)))
    ensures Codec.Field(SerializeStore(p, admin, d), "entries") == Some(JArr(EncodeEntries(p, d.entries)))
  {
  }

  lemma SerializedTail(p: Prims, admin: AdminCodec, d: StoreData)
    requires admin.RoundTrips()
    ensures DecodeOptUuid(Get(SerializeStore(p, admin, d), "active_profile_id")) == Ok(d.activeProfileId)
    ensures AdminOf(admin, Get(SerializeStore(p, admin, d), "admin_config")) == d.adminConfig
  {
    assert Get(SerializeStore(p, admin, d), "active_profile_id")
      == if d.activeProfileId.Some? then Codec.EncodeUuid(d.activeProfileId.value) else JNull;
    OptUuidRoundTrip(d.activeProfileId);
  }

  lemma OptUuidRoundTrip(u: Option<Uuid>)
    ensures DecodeOptUuid(if u.Some? then Codec.EncodeUuid(u.value) else JNull) == Ok(u)
  {
    if u.Some? {
      Codec.UuidRoundTrip(u.value);
    }
  }

  // ---------------------------------------------------------------------
  // The encrypted file
  // ---------------------------------------------------------------------

  /**
   * `LocalStore.save`: the store document as JSON text in UTF-8, sealed under
   * the passphrase with the given salt and nonce; the result is the file text.
   */
  function Save(p: Prims, admin: AdminCodec, d: StoreData, passphrase: string, salt: seq<Byte>, nonce: seq<Byte>)
    : (r: Result<string>)
    requires |salt| == StorageCrypto.SaltBytes && |nonce| == StorageCrypto.NonceBytes
    ensures r.Err? <==> passphrase == ""
  {
    var plaintext := p.utf8Encode(p.jsonDumps(SerializeStore(p, admin, d)));
    var container :- StorageCrypto.EncryptBytes(p, plaintext, passphrase, StorageCrypto.DefaultKdfIterations,
                                                salt, nonce);
    Ok(p.jsonDumps(container))
  }

  /**
   * `LocalStore.load`: `file` is the file's text, None when there is no file.
   * A missing file, a file that is not JSON and a payload that is not JSON
   * are storage errors; container and document errors are passed through.
   */
  function Load(p: Prims, admin: AdminCodec, file: Option<string>, passphrase: string, now: DateTime)
    : (r: Result<StoreData>)
    ensures file.None? ==> r == Err(NotFound)
    ensures file.Some? && p.jsonLoads(file.value).None? ==> r == Err(NotJsonFile)
    ensures r.Ok? ==> file.Some? && p.jsonLoads(file.value).Some?
                      && StorageCrypto.DecryptBytes(p, p.jsonLoads(file.value).value, passphrase).Ok?
  {
    match file
    case None => Err(NotFound)
    case Some(text) =>
      match p.jsonLoads(text)
      case None => Err(NotJsonFile)
      case Some(container) =>
        var plaintext :- StorageCrypto.DecryptBytes(p, container, passphrase);
        match p.utf8Decode(plaintext)
        case None => Err("UnicodeDecodeError")
        case Some(s) =>
          match p.jsonLoads(s)
          case None => Err(NotJsonPayload)
          case Some(payload) => DeserializeStore(p, admin, payload, now)
  }

  /** A store saved under a passphrase loads back under the same passphrase. */
  lemma LoadSave(p: Prims, admin: AdminCodec, d: StoreData, passphrase: string, salt: seq<Byte>,
                 nonce: seq<Byte>, now: DateTime)
    requires p.Lawful() && p.NaiveTimeLaw() && admin.RoundTrips()
    requires d.schemaVersion == SchemaVersion && Storable(d)
    requires |salt| == StorageCrypto.SaltBytes && |nonce| == StorageCrypto.NonceBytes && passphrase != ""
    ensures Load(p, admin, Some(Save(p, admin, d, passphrase, salt, nonce).value), passphrase, now) == Ok(Reloaded(d))
  {
    var payload := SerializeStore(p, admin, d);
    var plaintext := p.utf8Encode(p.jsonDumps(payload));
    var container := StorageCrypto.EncryptBytes(p, plaintext, passphrase, StorageCrypto.DefaultKdfIterations,
                                                salt, nonce).value;
    assert p.jsonLoads(p.jsonDumps(container)) == Some(container);
    StorageCrypto.DecryptEncrypt(p, plaintext, passphrase, StorageCrypto.DefaultKdfIterations, salt, nonce);
    assert p.utf8Decode(plaintext) == Some(p.jsonDumps(payload));
    assert p.jsonLoads(p.jsonDumps(payload)) == Some(payload);
    StoreRoundTrip(p, admin, d, now);
  }

  // ---------------------------------------------------------------------
  // Edits
  // ---------------------------------------------------------------------

  /** The index of the first entry with the id, as the loops over the list find it. */
  function FirstWithId(es: seq<MeasurementEntry>, id: Uuid): (r: Option<nat>)
    ensures r.None? <==> forall j :: 0 <= j < |es| ==> es[j].entryId != id
    ensures r.Some? ==> r.value < |es| && es[r.value].entryId == id
                        && forall j :: 0 <= j < r.value ==> es[j].entryId != id
  {
    if es == [] then None
    else if es[0].entryId == id then Some(0)
    else match FirstWithId(es[1..], id)
      case None => None
      case Some(k) => Some(k + 1)
  }

  function StampOf(e: MeasurementEntry): Lww.Stamp
  {
    Lww.Stamp(e.version, e.updatedAt)
  }

  /**
   * The entry after `soft_delete_entry`: marked deleted, stamped with its
   * deletion time (the given one, else now) and a bumped version, so that it
   * supersedes the copy it replaces wherever the two meet.
   */
  function Tombstone(e: MeasurementEntry, deletedAt: Option<DateTime>, now: DateTime): (r: MeasurementEntry)
    ensures r.entryId == e.entryId && r.userId == e.userId && r.isDeleted
    ensures r.deletedAt == Some(if deletedAt.Some? then deletedAt.value else now)
    ensures r.updatedAt == now
    ensures Lww.Newer(StampOf(r), StampOf(e))
    ensures r.(isDeleted := e.isDeleted, deletedAt := e.deletedAt, updatedAt := e.updatedAt, version := e.version) == e
  {
    e.(isDeleted := true, deletedAt := Some(if deletedAt.Some? then deletedAt.value else now),
       updatedAt := now, version := e.version + 1)
  }

  /** `LocalStoreData`: the lists and fields the application edits in place. */
  class LocalStoreData {
    var schemaVersion: int
    var profiles: seq<UserProfile>
    var entries: seq<MeasurementEntry>
    var lastModified: ParsedTime
    var activeProfileId: Option<Uuid>
    var adminConfig: Option<Json>

    ghost function Snapshot(): StoreData
      reads this
    {
      StoreData(schemaVersion, profiles, entries, lastModified, activeProfileId, adminConfig)
    }

    /** `LocalStoreData.new`: no entries, and the first profile, if any, is active. */
    constructor New(initial: seq<UserProfile>, now: DateTime)
      ensures schemaVersion == SchemaVersion && profiles == initial && entries == []
      ensures lastModified == Aware(now) && adminConfig.None?
      ensures activeProfileId == if initial == [] then None else Some(initial[0].userId)
    {
      schemaVersion := SchemaVersion;
      profiles := initial;
      entries := [];
      lastModified := Aware(now);
      activeProfileId := if initial == [] then None else Some(initial[0].userId);
      adminConfig := None;
    }

    /** The object `_deserialize_store` builds from a decoded document. */
    constructor FromData(d: StoreData)
      ensures Snapshot() == d
    {
      schemaVersion := d.schemaVersion;
      profiles := d.profiles;
      entries := d.entries;
      lastModified := d.lastModified;
      activeProfileId := d.activeProfileId;
      adminConfig := d.adminConfig;
    }

    /** `add_entry`: appended at the end. */
    method AddEntry(entry: MeasurementEntry, now: DateTime)
      modifies this
      ensures entries == old(entries) + [entry] && lastModified == Aware(now)
      ensures schemaVersion == old(schemaVersion) && profiles == old(profiles)
      ensures activeProfileId == old(activeProfileId) && adminConfig == old(adminConfig)
    {
      entries := entries + [entry];
      lastModified := Aware(now);
    }

    /**
     * `update_entry`: the first entry with the same id is replaced and True is
     * returned; without a match nothing changes and False is returned.
     */
    method UpdateEntry(entry: MeasurementEntry, now: DateTime) returns (updated: bool)
      modifies this
      ensures updated <==> FirstWithId(old(entries), entry.entryId).Some?
      ensures updated ==> entries == old(entries)[FirstWithId(old(entries), entry.entryId).value := entry]
                          && lastModified == Aware(now)
      ensures !updated ==> entries == old(entries) && lastModified == old(lastModified)
      ensures schemaVersion == old(schemaVersion) && profiles == old(profiles)
      ensures activeProfileId == old(activeProfileId) && adminConfig == old(adminConfig)
    {
      var i := 0;
      while i < |entries|
        invariant 0 <= i <= |entries|
        invariant forall j :: 0 <= j < i ==> entries[j].entryId != entry.entryId
      {
        if entries[i].entryId == entry.entryId {
          entries := entries[i := entry];
          lastModified := Aware(now);
          return true;
        }
        i := i + 1;
      }
      return false;
    }

    /**
     * `soft_delete_entry`: the first entry with the id becomes its tombstone
     * in place; nothing is ever removed. `now` stands for both `utc_now()` calls.
     */
    method SoftDeleteEntry(entryId: Uuid, deletedAt: Option<DateTime>, now: DateTime) returns (deleted: bool)
      modifies this
      ensures deleted <==> FirstWithId(old(entries), entryId).Some?
      ensures deleted ==>
                var k := FirstWithId(old(entries), entryId).value;
                entries == old(entries)[k := Tombstone(old(entries)[k], deletedAt, now)]
                && lastModified == Aware(now)
      ensures !deleted ==> entries == old(entries) && lastModified == old(lastModified)
      ensures schemaVersion == old(schemaVersion) && profiles == old(profiles)
      ensures activeProfileId == old(activeProfileId) && adminConfig == old(adminConfig)
    {
      var i := 0;
      while i < |entries|
        invariant 0 <= i <= |entries|
        invariant forall j :: 0 <= j < i ==> entries[j].entryId != entryId
      {
        if entries[i].entryId == entryId {
          entries := entries[i := Tombstone(entries[i], deletedAt, now)];
          lastModified := Aware(now);
          return true;
        }
        i := i + 1;
      }
      return false;
    }
  }
}
