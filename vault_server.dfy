// The vault's HTTP handlers as operations on the in-memory record store: the
// request is decoded, the caller authenticated, and the store updated in the
// order the handlers call it. A handler either answers with a JSON body or
// fails with an HTTP status and a detail message; a decoding error that the
// handler does not catch surfaces as status 500.

module VaultServer {
  import opened Common
  import opened Primitives
  import opened SyncModels
  import opened VaultStore
  import Codec
  import UuidText
  import Text

  datatype Reply = Done(body: Json) | Failure(status: int, detail: string)

  const UserMismatch := "User mismatch"
  const NaiveSince := "since must be timezone-aware"
  const AdminUnset := "Admin token not configured"
  const BadAdminToken := "Invalid admin token"

  /**
   * `_require_admin`: without a configured admin token every admin request
   * gets 503, whatever it sends; otherwise only the exact token passes.
   */
  function RequireAdmin(adminToken: Option<string>, header: Option<string>): (r: Option<Reply>)
    ensures (adminToken.None? || adminToken.value == "") ==> r == Some(Failure(503, AdminUnset))
    ensures adminToken.Some? && adminToken.value != "" ==>
      (r.None? <==> header == adminToken) && (r.Some? ==> r == Some(Failure(401, BadAdminToken)))
  {
    if adminToken.None? || adminToken.value == "" then Some(Failure(503, AdminUnset))
    else if header.None? || header.value == "" || header.value != adminToken.value then Some(Failure(401, BadAdminToken))
    else None
  }

  /** The `since` query text of `GET /sync/pull`: empty means none; naive text is refused. */
  function ParseSince(p: Prims, since: Option<string>): (r: Result<Option<DateTime>>)
    ensures since.None? || since.value == "" ==> r == Ok(None)
    ensures r.Ok? && r.value.Some? ==>
      since.Some? && p.fromIsoFormat(since.value) == Some(ParsedTime(r.value.value.wall, Some(r.value.value.offset)))
  {
    if since.None? || since.value == "" then Ok(None)
    else match p.fromIsoFormat(since.value)
      case None => Err("ValueError")
      case Some(t) => if t.offset.None? then Err(NaiveSince) else Ok(Some(DateTime(t.wall, t.offset.value)))
  }

  /** The body of `/admin/invites`: an expiry `expires_in_days` days from now when that field is truthy. */
  function InviteExpiry(payload: Option<Json>, now: DateTime): (r: Result<Option<DateTime>>)
    ensures payload.None? || !Truthy(Get(payload.value, "expires_in_days")) ==> r == Ok(None)
    ensures r.Ok? && r.value.Some? ==>
      Truthy(Get(payload.value, "expires_in_days"))
      && AsInt(Get(payload.value, "expires_in_days")).Ok?
      && r.value.value == AddSeconds(now, AsInt(Get(payload.value, "expires_in_days")).value * SecondsPerDay)
  {
    if payload.None? || !Truthy(payload.value) || !Truthy(Get(payload.value, "expires_in_days")) then Ok(None)
    else
      var days :- AsInt(Get(payload.value, "expires_in_days"));
      Ok(Some(AddSeconds(now, days * SecondsPerDay)))
  }

  /** The server process: one backend with the invites of the environment, and the admin token. */
  class VaultApp {
    const backend: InMemoryVaultStore
    const adminToken: Option<string>

    /** Module start-up: select the backend, load the invite tokens, read the admin token. */
    constructor(p: Prims, inviteTokens: string, adminToken: Option<string>, now: DateTime)
      ensures fresh(backend) && backend.Valid()
      ensures backend.invites == Registered(p, map[], InviteTokens(inviteTokens), now)
      ensures backend.userTokens == map[] && backend.entries == map[]
      ensures backend.users == map[] && backend.devices == map[]
      ensures this.adminToken == adminToken
    {
      backend := new InMemoryVaultStore();
      this.adminToken := adminToken;
      new;
      backend.LoadInvitesFromEnv(p, inviteTokens, now);
    }

    /**
     * `POST /auth/invite`: redeems the invite, registers the user (the
     * request's id, else `freshId`) and the device when one is named, and
     * issues a new user token made of `random`. A refused invite is 403 and
     * creates nothing.
     */
    method AuthInvite(p: Prims, payload: Json, freshId: Uuid, random: seq<Byte>, now: DateTime) returns (reply: Reply)
      requires |random| == 32 && backend.Valid()
      modifies backend
      ensures backend.Valid()
      ensures DecodeInviteRequest(p, payload).Err? ==>
        reply == Failure(500, DecodeInviteRequest(p, payload).error) && backend.Tables() == old(backend.Tables())
      ensures DecodeInviteRequest(p, payload).Ok? ==>
        var request := DecodeInviteRequest(p, payload).value;
        var check := InviteCheck(old(backend.invites), HashToken(p, request.inviteToken), now);
        var userId := if request.userId.Some? then request.userId.value else freshId;
        var token := UuidText.BytesHex(random);
        (check.Err? ==> reply == Failure(403, check.error) && backend.Tables() == old(backend.Tables()))
        && (check.Ok? ==>
          reply == Done(EncodeInviteResponse(p, InviteResponse(userId, token, None)))
          && backend.invites == Redeemed(old(backend.invites), HashToken(p, request.inviteToken), now)
          && backend.Authenticate(p, token) == Ok(userId)
          && backend.userTokens == old(backend.userTokens)[HashToken(p, token) := userId]
          && userId in backend.users
          && backend.entries == old(backend.entries)
          && (request.deviceId.None? || request.deviceId.value == "" ==>
                backend.users == WithUser(old(backend.users), userId, now) && backend.devices == old(backend.devices))
          && (request.deviceId.Some? && request.deviceId.value != "" ==>
                backend.users == Seen(WithUser(old(backend.users), userId, now), userId, now)
                && backend.devices == WithDevice(old(backend.devices), userId, request.deviceId.value,
                                                 Some(request.deviceName), now)))
    {
      var decoded := DecodeInviteRequest(p, payload);
      if decoded.Err? {
        return Failure(500, decoded.error);
      }
      var request := decoded.value;
      var consumed := backend.ConsumeInvite(p, request.inviteToken, now);
      if consumed.Err? {
        return Failure(403, consumed.error);
      }
      var userId := if request.userId.Some? then request.userId.value else freshId;
      backend.EnsureUser(userId, now);
      if request.deviceId.Some? && request.deviceId.value != "" {
        backend.RecordDevice(userId, request.deviceId.value, Some(request.deviceName), now);
      }
      var token := backend.IssueUserToken(p, userId, random);
      reply := Done(EncodeInviteResponse(p, InviteResponse(userId, token, None)));
    }

    /** The checks shared by push and pull: a bad token is 401, another user's id is 403. */
    function Authorize(p: Prims, userToken: string, claimed: Uuid): (r: Result<Uuid>)
      reads backend
      ensures r.Ok? <==> backend.Authenticate(p, userToken) == Ok(claimed)
      ensures r.Ok? ==> r.value == claimed
    {
      var auth := backend.Authenticate(p, userToken);
      if auth.Err? then Err(auth.error)
      else if claimed != auth.value then Err(UserMismatch)
      else Ok(auth.value)
    }

    /** The status of a failed `Authorize`. */
    static function AuthStatus(error: string): int
    {
      if error == UserMismatch then 403 else 401
    }

    /**
     * `POST /sync/push`: after authentication, touches the device and merges
     * the changes; the reply counts the changes written and hands back the
     * server time as the next cursor. A refused caller changes nothing.
     */
    method SyncPush(p: Prims, payload: Json, userToken: string, now: DateTime) returns (reply: Reply)
      requires backend.Valid()
      modifies backend
      ensures backend.Valid()
      ensures DecodePushRequest(p, payload).Err? ==>
        reply == Failure(500, DecodePushRequest(p, payload).error) && backend.Tables() == old(backend.Tables())
      ensures DecodePushRequest(p, payload).Ok? ==>
        var request := DecodePushRequest(p, payload).value;
        var auth := old(Authorize(p, userToken, request.userId));
        var u := request.userId;
        (auth.Err? ==> reply == Failure(AuthStatus(auth.error), auth.error) && backend.Tables() == old(backend.Tables()))
        && (auth.Ok? ==>
          reply == Done(EncodePushResponse(p, SyncPushResponse(now, Accepted(UserEntries(old(backend.entries), u), request.changes), now)))
          && backend.entries == old(backend.entries)[u := Merge(UserEntries(old(backend.entries), u), request.changes)]
          && u in WithUser(old(backend.users), u, now) && backend.users == Seen(WithUser(old(backend.users), u, now), u, now)
          && backend.devices == WithDevice(old(backend.devices), u, request.deviceId, None, now)
          && backend.invites == old(backend.invites) && backend.userTokens == old(backend.userTokens))
    {
      var decoded := DecodePushRequest(p, payload);
      if decoded.Err? {
        return Failure(500, decoded.error);
      }
      var request := decoded.value;
      var auth := Authorize(p, userToken, request.userId);
      if auth.Err? {
        return Failure(AuthStatus(auth.error), auth.error);
      }
      var u := auth.value;
      backend.TouchDevice(u, request.deviceId, now);
      ghost var before := backend.entries;
      var accepted := backend.ApplyChanges(u, request.changes, request.deviceId, now);
      assert UserEntries(before, u) == UserEntries(old(backend.entries), u);
      TouchTwice(old(backend.users), old(backend.devices), u, request.deviceId, now);
      reply := Done(EncodePushResponse(p, SyncPushResponse(now, accepted, now)));
    }

    /**
     * `POST /sync/pull`: after authentication, touches the device and
     * returns the user's changes after `since`, with the server time as the
     * next cursor.
     */
    method SyncPull(p: Prims, payload: Json, userToken: string, now: DateTime) returns (reply: Reply)
      requires backend.Valid()
      modifies backend
      ensures backend.Valid()
      ensures DecodePullRequest(p, payload).Err? ==>
        reply == Failure(500, DecodePullRequest(p, payload).error) && backend.Tables() == old(backend.Tables())
      ensures DecodePullRequest(p, payload).Ok? ==>
        var request := DecodePullRequest(p, payload).value;
        var auth := old(Authorize(p, userToken, request.userId));
        (auth.Err? ==> reply == Failure(AuthStatus(auth.error), auth.error) && backend.Tables() == old(backend.Tables()))
        && (auth.Ok? ==> PullReply(p, reply, old(backend.entries), request.userId, request.since, now)
                         && Touched(old(backend.Tables()), backend.Tables(), request.userId, request.deviceId, now))
    {
      var decoded := DecodePullRequest(p, payload);
      if decoded.Err? {
        return Failure(500, decoded.error);
      }
      var request := decoded.value;
      var auth := Authorize(p, userToken, request.userId);
      if auth.Err? {
        return Failure(AuthStatus(auth.error), auth.error);
      }
      reply := Pull(p, auth.value, request.deviceId, request.since, now);
    }

    /**
     * `GET /sync/pull`: the same pull with its parameters in the query. An
     * unparsable user id fails first; a naive `since` is 400, but only once
     * the caller is authenticated and matched.
     */
    method SyncPullQuery(p: Prims, userId: string, deviceId: string, since: Option<string>, userToken: string,
                         now: DateTime) returns (reply: Reply)
      requires backend.Valid()
      modifies backend
      ensures backend.Valid()
      ensures Codec.DecodeUuid(JStr(userId)).Err? ==>
        reply == Failure(500, Codec.DecodeUuid(JStr(userId)).error) && backend.Tables() == old(backend.Tables())
      ensures Codec.DecodeUuid(JStr(userId)).Ok? ==>
        var u := Codec.DecodeUuid(JStr(userId)).value;
        var auth := old(Authorize(p, userToken, u));
        var cursor := ParseSince(p, since);
        (auth.Err? ==> reply == Failure(AuthStatus(auth.error), auth.error) && backend.Tables() == old(backend.Tables()))
        && (auth.Ok? && cursor.Err? ==>
              reply == Failure(if cursor.error == NaiveSince then 400 else 500, cursor.error) && backend.Tables() == old(backend.Tables()))
        && (auth.Ok? && cursor.Ok? ==> PullReply(p, reply, old(backend.entries), u, cursor.value, now)
                                       && Touched(old(backend.Tables()), backend.Tables(), u, deviceId, now))
    {
      var parsed := Codec.DecodeUuid(JStr(userId));
      if parsed.Err? {
        return Failure(500, parsed.error);
      }
      var auth := Authorize(p, userToken, parsed.value);
      if auth.Err? {
        return Failure(AuthStatus(auth.error), auth.error);
      }
      var cursor := ParseSince(p, since);
      if cursor.Err? {
        return Failure(if cursor.error == NaiveSince then 400 else 500, cursor.error);
      }
      reply := Pull(p, auth.value, deviceId, cursor.value, now);
    }

    /** The part of both pulls after the checks. */
    method Pull(p: Prims, u: Uuid, deviceId: string, since: Option<DateTime>, now: DateTime) returns (reply: Reply)
      requires backend.Valid()
      modifies backend
      ensures backend.Valid()
      ensures PullReply(p, reply, old(backend.entries), u, since, now)
      ensures Touched(old(backend.Tables()), backend.Tables(), u, deviceId, now)
    {
      backend.TouchDevice(u, deviceId, now);
      var changes := backend.ChangesSince(u, since);
      reply := Done(EncodePullResponse(p, SyncPullResponse(now, changes, now)));
    }

    /** The overview object: the three listings and the entry count under their keys. */
    static function Overview(users: seq<Json>, devices: seq<Json>, invites: seq<Json>, total: int): (j: Json)
      ensures j.JObj? && j.fields.Keys == {"users", "devices", "invites", "total_entries"}
      ensures j.fields["users"] == JArr(users) && j.fields["devices"] == JArr(devices)
      ensures j.fields["invites"] == JArr(invites) && j.fields["total_entries"] == JInt(total)
    {
      JObj(map["users" := JArr(users), "devices" := JArr(devices), "invites" := JArr(invites), "total_entries" := JInt(total)])
    }

    /** `GET /admin/overview`: for an admin, the user, device and invite listings and the entry count. */
    method AdminOverview(p: Prims, header: Option<string>)
      returns (reply: Reply, ghost userIds: seq<Uuid>, ghost deviceIds: seq<string>, ghost inviteHashes: seq<string>)
      ensures RequireAdmin(adminToken, header).Some? ==> reply == RequireAdmin(adminToken, header).value
      ensures RequireAdmin(adminToken, header).None? ==>
        reply.Done? && reply.body.JObj? && reply.body.fields.Keys == {"users", "devices", "invites", "total_entries"}
        && reply.body.fields["users"].JArr? && backend.UserListing(p, reply.body.fields["users"].items, userIds)
        && reply.body.fields["devices"].JArr? && backend.DeviceListing(p, reply.body.fields["devices"].items, deviceIds)
        && reply.body.fields["invites"].JArr? && backend.InviteListing(p, reply.body.fields["invites"].items, inviteHashes)
        && reply.body.fields["total_entries"] == JInt(|StoredPairs(backend.entries, backend.entries.Keys)|)
    {
      var denied := RequireAdmin(adminToken, header);
      if denied.Some? {
        return denied.value, [], [], [];
      }
      var users, devices, invites;
      users, userIds := backend.ListUsers(p);
      devices, deviceIds := backend.ListDevices(p);
      invites, inviteHashes := backend.ListInvites(p);
      var total := backend.CountEntries();
      reply := Done(Overview(users, devices, invites, total));
    }

    /**
     * `POST /admin/invites`: an admin creates an invite token from `random`,
     * expiring `expires_in_days` days from now when that field is given.
     */
    method AdminInvites(p: Prims, payload: Option<Json>, header: Option<string>, random: seq<Byte>, now: DateTime)
      returns (reply: Reply)
      requires |random| == 16
      modifies backend
      ensures RequireAdmin(adminToken, header).Some? ==>
        reply == RequireAdmin(adminToken, header).value && backend.Tables() == old(backend.Tables())
      ensures RequireAdmin(adminToken, header).None? && InviteExpiry(payload, now).Err? ==>
        reply == Failure(500, InviteExpiry(payload, now).error) && backend.Tables() == old(backend.Tables())
      ensures RequireAdmin(adminToken, header).None? && InviteExpiry(payload, now).Ok? ==>
        var expiresAt := InviteExpiry(payload, now).value;
        var token := RStripPadding(p, random);
        reply == Done(JObj(map["invite_token" := JStr(token), "expires_at" := Codec.EncodeOptDateTime(p, expiresAt)]))
        && backend.invites == old(backend.invites)[HashToken(p, token) := InviteRecord(now, None, expiresAt)]
        && backend.entries == old(backend.entries) && backend.users == old(backend.users)
        && backend.devices == old(backend.devices) && backend.userTokens == old(backend.userTokens)
    {
      var denied := RequireAdmin(adminToken, header);
      if denied.Some? {
        return denied.value;
      }
      var expiry := InviteExpiry(payload, now);
      if expiry.Err? {
        return Failure(500, expiry.error);
      }
      var token := backend.CreateInviteToken(p, random, expiry.value, now);
      reply := Done(JObj(map["invite_token" := JStr(token), "expires_at" := Codec.EncodeOptDateTime(p, expiry.value)]));
    }
  }

  /** The invite token `create_invite_token` makes of its random bytes. */
  function RStripPadding(p: Prims, random: seq<Byte>): string
  {
    Text.RStripChar(p.b64UrlEncode(random), '=')
  }

  /** A pull answers with the user's changes after `since`, each once, and the server time as both times. */
  ghost predicate PullReply(p: Prims, reply: Reply, entries: map<Uuid, map<Uuid, SyncEntryChange>>, u: Uuid,
                            since: Option<DateTime>, now: DateTime)
  {
    exists changes: seq<SyncEntryChange> ::
      && reply == Done(EncodePullResponse(p, SyncPullResponse(now, changes, now)))
      && (forall c :: c in changes <==> c in UserEntries(entries, u).Values && UpdatedAfter(c, since))
      && (forall i, j :: 0 <= i < j < |changes| ==> changes[i].entryId != changes[j].entryId)
  }
}
