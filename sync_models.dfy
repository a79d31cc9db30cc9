// The wire messages of vault sync: invite, push and pull requests and
// responses, and the entry change they carry. A change has exactly the dict
// layout of a stored entry, so its codec reuses the entry codec's stages.

module SyncModels {
  import opened Common
  import opened Primitives
  import opened Models
  import opened Codec

  // ---------------------------------------------------------------- invites

  datatype InviteRequest = InviteRequest(
    inviteToken: string, deviceName: string, userId: Option<Uuid>, deviceId: Option<string>)

  /** `InviteRequest.to_dict`: a missing user id is written as null. */
  function EncodeInviteRequest(r: InviteRequest): Json
  {
    JObj(map[
      "invite_token" := JStr(r.inviteToken),
      "device_name" := JStr(r.deviceName),
      "user_id" := if r.userId.Some? then EncodeUuid(r.userId.value) else JNull,
      "device_id" := EncodeOptStr(r.deviceId)
    ])
  }

  /** `UUID(value) if value else None`. */
  function DecodeOptUuid(value: Json): (r: Result<Option<Uuid>>)
    ensures !Truthy(value) ==> r == Ok(None)
    ensures Truthy(value) ==> (r.Ok? <==> DecodeUuid(value).Ok?)
  {
    if Truthy(value) then (var u :- DecodeUuid(value); Ok(Some(u))) else Ok(None)
  }

  /** `InviteRequest.from_dict`: token and device name are required; an empty or missing user id is None. */
  function DecodeInviteRequest(p: Prims, payload: Json): (r: Result<InviteRequest>)
    ensures r.Ok? ==> payload.JObj? && "invite_token" in payload.fields && "device_name" in payload.fields
    ensures r.Ok? && !Truthy(Get(payload, "user_id")) ==> r.value.userId.None?
    ensures r.Ok? && Get(payload, "device_id").JNull? ==> r.value.deviceId.None?
  {
    var token :- Index(payload, "invite_token");
    var name :- Index(payload, "device_name");
    var userId :- DecodeOptUuid(Get(payload, "user_id"));
    var deviceId :- DecodeOptStr(Get(payload, "device_id"));
    Ok(InviteRequest(PyStr(p, token), PyStr(p, name), userId, deviceId))
  }

  lemma OptUuidRoundTrip(u: Option<Uuid>)
    ensures DecodeOptUuid(if u.Some? then EncodeUuid(u.value) else JNull) == Ok(u)
  {
    if u.Some? {
      UuidRoundTrip(u.value);
    }
  }

  lemma InviteRequestRoundTrip(p: Prims, r: InviteRequest)
    ensures DecodeInviteRequest(p, EncodeInviteRequest(r)) == Ok(r)
  {
    OptUuidRoundTrip(r.userId);
  }

  datatype InviteResponse = InviteResponse(userId: Uuid, userToken: string, expiresAt: Option<DateTime>)

  function EncodeInviteResponse(p: Prims, r: InviteResponse): Json
  {
    JObj(map[
      "user_id" := EncodeUuid(r.userId),
      "user_token" := JStr(r.userToken),
      "expires_at" := EncodeOptDateTime(p, r.expiresAt)
    ])
  }

  /** `InviteResponse.from_dict`: an empty or missing `expires_at` is None. */
  function DecodeInviteResponse(p: Prims, payload: Json): (r: Result<InviteResponse>)
    ensures r.Ok? ==> payload.JObj? && "user_id" in payload.fields && "user_token" in payload.fields
    ensures r.Ok? && !Truthy(Get(payload, "expires_at")) ==> r.value.expiresAt.None?
  {
    var userJson :- Index(payload, "user_id");
    var userId :- DecodeUuid(userJson);
    var token :- Index(payload, "user_token");
    var expiresAt :- DecodeOptDateTime(p, Get(payload, "expires_at"));
    Ok(InviteResponse(userId, PyStr(p, token), expiresAt))
  }

  lemma InviteResponseRoundTrip(p: Prims, r: InviteResponse)
    requires p.TimeLaws()
    ensures DecodeInviteResponse(p, EncodeInviteResponse(p, r)) == Ok(r)
  {
    UuidRoundTrip(r.userId);
    OptDateTimeRoundTrip(p, r.expiresAt);
  }

  // ---------------------------------------------------------------- entry changes

  /** One entry as it travels; unlike an entry, its local date may be unset. */
  datatype SyncEntryChange = SyncEntryChange(
    entryId: Uuid,
    userId: Uuid,
    measuredAt: DateTime,
    dateLocal: Option<int>,
    weightKg: real,
    waistCm: Option<real>,
    note: Option<string>,
    createdAt: DateTime,
    updatedAt: DateTime,
    isDeleted: bool,
    deletedAt: Option<DateTime>,
    version: int)

  /** `SyncEntryChange.from_entry`: a field-for-field copy. */
  function FromEntry(e: MeasurementEntry): SyncEntryChange
  {
    SyncEntryChange(e.entryId, e.userId, e.measuredAt, e.dateLocal, e.weightKg, e.waistCm, e.note,
                    e.createdAt, e.updatedAt, e.isDeleted, e.deletedAt, e.version)
  }

  /**
   * `SyncEntryChange.to_entry`: the entry constructor runs `__post_init__`,
   * which cannot fail on an aware timestamp and fills a missing local date.
   */
  function ToEntry(c: SyncEntryChange): (e: MeasurementEntry)
    ensures e.dateLocal.Some?
    ensures c.dateLocal.None? ==> e.dateLocal == Some(c.measuredAt.Date())
  {
    var r := NewEntry(c.userId, ParsedTime(c.measuredAt.wall, Some(c.measuredAt.offset)), c.weightKg, c.waistCm,
                      c.entryId, c.note, c.createdAt, c.updatedAt, c.isDeleted, c.deletedAt, c.version,
                      c.dateLocal);
    r.value
  }

  /** Every entry, whose local date is always set, survives the trip through a change. */
  lemma EntryChangeEntry(e: MeasurementEntry)
    requires e.dateLocal.Some?
    ensures ToEntry(FromEntry(e)) == e
  {
  }

  /** A change with its local date set survives the trip through an entry. */
  lemma ChangeEntryChange(c: SyncEntryChange)
    ensures c.dateLocal.Some? <==> FromEntry(ToEntry(c)) == c
  {
  }

  /** The change's fields laid out as an entry record, for the shared dict codec. */
  function Layout(c: SyncEntryChange): MeasurementEntry
  {
    MeasurementEntry(c.userId, c.measuredAt, c.weightKg, c.waistCm, c.entryId, c.note, c.createdAt,
                     c.updatedAt, c.isDeleted, c.deletedAt, c.version, c.dateLocal)
  }

  /** `SyncEntryChange.to_dict`: the same keys and encodings as a stored entry. */
  function EncodeChange(p: Prims, c: SyncEntryChange): Json
  {
    EncodeEntry(p, Layout(c))
  }

  /**
   * `SyncEntryChange.from_dict`: the entry decoder's field order and defaults,
   * without the entry constructor, so an unset local date stays unset.
   */
  function DecodeChange(p: Prims, payload: Json): (r: Result<SyncEntryChange>)
    ensures r.Ok? ==> payload.JObj?
    ensures r.Ok? ==> r.value.isDeleted == Truthy(Get(payload, "is_deleted"))
    ensures r.Ok? && !(payload.JObj? && "version" in payload.fields) ==> r.value.version == 1
    ensures r.Ok? && !Truthy(Get(payload, "deleted_at")) ==> r.value.deletedAt.None?
    ensures r.Ok? && Get(payload, "waist_cm").JNull? ==> r.value.waistCm.None?
    ensures r.Ok? && Get(payload, "date_local").JNull? ==> r.value.dateLocal.None?
  {
    var d := ReadEntryDict(payload);
    var head :- DecodeEntryHead(p, d);
    var body :- DecodeEntryBody(p, d);
    var tail :- DecodeEntryTail(p, d);
    Ok(SyncEntryChange(head.0, head.1, head.2, body.0, body.1, body.2, body.3,
                       tail.0, tail.1, Truthy(Optional(d.isDeleted)), tail.2, tail.3))
  }

  lemma ChangeRoundTrip(p: Prims, c: SyncEntryChange)
    requires p.TimeLaws()
    ensures DecodeChange(p, EncodeChange(p, c)) == Ok(c)
  {
    var e := Layout(c);
    ReadEntryDictToJson(EntryDictOf(p, e));
    EntryHeadRoundTrip(p, e);
    EntryBodyRoundTrip(p, e);
    EntryTailRoundTrip(p, e);
  }

  /** A change whose measured time is naive never decodes. */
  lemma NaiveChangeRejected(p: Prims, payload: Json)
    requires payload.JObj? && "measured_at" in payload.fields
    requires payload.fields["measured_at"].JStr?
    requires p.fromIsoFormat(payload.fields["measured_at"].s).Some?
    requires p.fromIsoFormat(payload.fields["measured_at"].s).value.offset.None?
    ensures DecodeChange(p, payload).Err?
  {
    var d := ReadEntryDict(payload);
    assert d.measuredAt == Some(payload.fields["measured_at"]);
  }

  function EncodeChanges(p: Prims, cs: seq<SyncEntryChange>): (r: seq<Json>)
  {
    seq(|cs|, i requires 0 <= i < |cs| => EncodeChange(p, cs[i]))
  }

  /** The comprehension over change items: all of them in order, or the first failure. */
  function DecodeChanges(p: Prims, items: seq<Json>): (r: Result<seq<SyncEntryChange>>)
  {
    MapResult(item => DecodeChange(p, item), items)
  }

  lemma ChangesRoundTrip(p: Prims, cs: seq<SyncEntryChange>)
    requires p.TimeLaws()
    ensures DecodeChanges(p, EncodeChanges(p, cs)) == Ok(cs)
  {
    var items := EncodeChanges(p, cs);
    forall i | 0 <= i < |items|
      ensures DecodeChange(p, items[i]) == Ok(cs[i])
    {
      ChangeRoundTrip(p, cs[i]);
    }
    MapResultEach(item => DecodeChange(p, item), items, cs);
  }

  /** `[SyncEntryChange.from_dict(item) for item in payload.get("changes", [])]`. */
  function DecodeChangeList(p: Prims, payload: Json): (r: Result<seq<SyncEntryChange>>)
    ensures Field(payload, "changes").None? ==> r == Ok([])
  {
    var items :- IterItems(OrDefault(Field(payload, "changes"), JArr([])));
    DecodeChanges(p, items)
  }

  // ---------------------------------------------------------------- push and pull

  datatype SyncPushRequest = SyncPushRequest(
    userId: Uuid, deviceId: string, since: Option<DateTime>, changes: seq<SyncEntryChange>)

  function EncodePushRequest(p: Prims, r: SyncPushRequest): Json
  {
    JObj(map[
      "user_id" := EncodeUuid(r.userId),
      "device_id" := JStr(r.deviceId),
      "since" := EncodeOptDateTime(p, r.since),
      "changes" := JArr(EncodeChanges(p, r.changes))
    ])
  }

  /** `SyncPushRequest.from_dict`: user and device are required; `since` and `changes` are optional. */
  function DecodePushRequest(p: Prims, payload: Json): (r: Result<SyncPushRequest>)
    ensures r.Ok? ==> payload.JObj? && "user_id" in payload.fields && "device_id" in payload.fields
    ensures r.Ok? && !Truthy(Get(payload, "since")) ==> r.value.since.None?
    ensures r.Ok? && Field(payload, "changes").None? ==> r.value.changes == []
  {
    var userJson :- Index(payload, "user_id");
    var userId :- DecodeUuid(userJson);
    var device :- Index(payload, "device_id");
    var since :- DecodeOptDateTime(p, Get(payload, "since"));
    var changes :- DecodeChangeList(p, payload);
    Ok(SyncPushRequest(userId, PyStr(p, device), since, changes))
  }

  lemma PushRequestRoundTrip(p: Prims, r: SyncPushRequest)
    requires p.TimeLaws()
    ensures DecodePushRequest(p, EncodePushRequest(p, r)) == Ok(r)
  {
    var j := EncodePushRequest(p, r);
    assert Index(j, "user_id") == Ok(EncodeUuid(r.userId));
    assert Index(j, "device_id") == Ok(JStr(r.deviceId));
    assert Get(j, "since") == EncodeOptDateTime(p, r.since);
    assert Field(j, "changes") == Some(JArr(EncodeChanges(p, r.changes)));
    UuidRoundTrip(r.userId);
    OptDateTimeRoundTrip(p, r.since);
    ChangesRoundTrip(p, r.changes);
    assert DecodeChangeList(p, j) == Ok(r.changes);
  }

  datatype SyncPushResponse = SyncPushResponse(serverTime: DateTime, acceptedCount: int, nextSince: DateTime)

  function EncodePushResponse(p: Prims, r: SyncPushResponse): Json
  {
    JObj(map[
      "server_time" := EncodeDateTime(p, r.serverTime),
      "accepted_count" := JInt(r.acceptedCount),
      "next_since" := EncodeDateTime(p, r.nextSince)
    ])
  }

  /** `SyncPushResponse.from_dict`: a missing `accepted_count` is 0. */
  function DecodePushResponse(p: Prims, payload: Json): (r: Result<SyncPushResponse>)
    ensures r.Ok? ==> payload.JObj? && "server_time" in payload.fields && "next_since" in payload.fields
    ensures r.Ok? && Field(payload, "accepted_count").None? ==> r.value.acceptedCount == 0
  {
    var serverJson :- Index(payload, "server_time");
    var serverTime :- DecodeDateTime(p, serverJson);
    var accepted :- AsInt(OrDefault(Field(payload, "accepted_count"), JInt(0)));
    var nextJson :- Index(payload, "next_since");
    var nextSince :- DecodeDateTime(p, nextJson);
    Ok(SyncPushResponse(serverTime, accepted, nextSince))
  }

  lemma PushResponseRoundTrip(p: Prims, r: SyncPushResponse)
    requires p.TimeLaws()
    ensures DecodePushResponse(p, EncodePushResponse(p, r)) == Ok(r)
  {
    DateTimeRoundTrip(p, r.serverTime);
    DateTimeRoundTrip(p, r.nextSince);
  }

  datatype SyncPullRequest = SyncPullRequest(userId: Uuid, deviceId: string, since: Option<DateTime>)

  function EncodePullRequest(p: Prims, r: SyncPullRequest): Json
  {
    JObj(map[
      "user_id" := EncodeUuid(r.userId),
      "device_id" := JStr(r.deviceId),
      "since" := EncodeOptDateTime(p, r.since)
    ])
  }

  function DecodePullRequest(p: Prims, payload: Json): (r: Result<SyncPullRequest>)
    ensures r.Ok? ==> payload.JObj? && "user_id" in payload.fields && "device_id" in payload.fields
    ensures r.Ok? && !Truthy(Get(payload, "since")) ==> r.value.since.None?
  {
    var userJson :- Index(payload, "user_id");
    var userId :- DecodeUuid(userJson);
    var device :- Index(payload, "device_id");
    var since :- DecodeOptDateTime(p, Get(payload, "since"));
    Ok(SyncPullRequest(userId, PyStr(p, device), since))
  }

  lemma PullRequestRoundTrip(p: Prims, r: SyncPullRequest)
    requires p.TimeLaws()
    ensures DecodePullRequest(p, EncodePullRequest(p, r)) == Ok(r)
  {
    var payload := EncodePullRequest(p, r);
    PullRequestFields(p, r);
    UuidRoundTrip(r.userId);
    OptDateTimeRoundTrip(p, r.since);
    assert DecodePullRequest(p, payload)
        == Ok(SyncPullRequest(r.userId, PyStr(p, JStr(r.deviceId)), r.since));
  }

  lemma PullRequestFields(p: Prims, r: SyncPullRequest)
    ensures Index(EncodePullRequest(p, r), "user_id") == Ok(EncodeUuid(r.userId))
    ensures Index(EncodePullRequest(p, r), "device_id") == Ok(JStr(r.deviceId))
    ensures Get(EncodePullRequest(p, r), "since") == EncodeOptDateTime(p, r.since)
  {
  }

  datatype SyncPullResponse = SyncPullResponse(serverTime: DateTime, changes: seq<SyncEntryChange>,
                                               nextSince: DateTime)

  function EncodePullResponse(p: Prims, r: SyncPullResponse): Json
  {
    JObj(map[
      "server_time" := EncodeDateTime(p, r.serverTime),
      "changes" := JArr(EncodeChanges(p, r.changes)),
      "next_since" := EncodeDateTime(p, r.nextSince)
    ])
  }

  function DecodePullResponse(p: Prims, payload: Json): (r: Result<SyncPullResponse>)
    ensures r.Ok? ==> payload.JObj? && "server_time" in payload.fields && "next_since" in payload.fields
    ensures r.Ok? && Field(payload, "changes").None? ==> r.value.changes == []
  {
    var serverJson :- Index(payload, "server_time");
    var serverTime :- DecodeDateTime(p, serverJson);
    var changes :- DecodeChangeList(p, payload);
    var nextJson :- Index(payload, "next_since");
    var nextSince :- DecodeDateTime(p, nextJson);
    Ok(SyncPullResponse(serverTime, changes, nextSince))
  }

  lemma PullResponseRoundTrip(p: Prims, r: SyncPullResponse)
    requires p.TimeLaws()
    ensures DecodePullResponse(p, EncodePullResponse(p, r)) == Ok(r)
  {
    DateTimeRoundTrip(p, r.serverTime);
    ChangesRoundTrip(p, r.changes);
    DateTimeRoundTrip(p, r.nextSince);
  }
}
