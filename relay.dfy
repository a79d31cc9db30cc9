// The relay worker: a small HTTP service through which two users of the
// desktop app find each other by friend code, exchange invites, choose what
// they share and read each other's measurement history. Its tables are maps
// keyed by their primary keys and each handler is a transition of those
// maps; the database class at the end applies them in place. The random
// token and invite id, the clock and JavaScript's `Date.parse` followed by
// `toISOString` are parameters.

module Relay {
  import opened Common
  import opened Text
  import opened Primitives
  import VaultStore

  const MaxAvatarLength := 60000
  const DefaultDisplayName := "User"

  const BadRequest := 400
  const Unauthorized := 401
  const NotFound := 404

  /** What a handler gives back: a value, or the status and message of the error it throws. */
  datatype Answer<+T> = Done(value: T) | Fail(status: int, message: string)
  {
    predicate IsFailure() { Fail? }

    function PropagateFailure<U>(): Answer<U>
      requires Fail?
    {
      Fail(status, message)
    }

    function Extract(): T
      requires Done?
    {
      value
    }
  }

  /** The `{status: ...}` bodies most handlers answer with. */
  function Status(text: string): Json
  {
    JObj(map["status" := JStr(text)])
  }

  /** JavaScript truthiness of a parsed JSON value: empty arrays and objects are truthy. */
  predicate JsTruthy(v: Json)
  {
    match v
    case JNull => false
    case JBool(b) => b
    case JInt(i) => i != 0
    case JFloat(x) => x != 0.0
    case JStr(s) => s != ""
    case _ => true
  }

  // ---------------------------------------------------------------------
  // Input helpers
  // ---------------------------------------------------------------------

  /** A string trimmed of surrounding whitespace; anything else is the empty text. */
  function ToText(v: Json): (r: string)
    ensures !v.JStr? ==> r == ""
    ensures v.JStr? && Trim(v.s) == v.s ==> r == v.s
    ensures r == [] || (!IsJsSpace(r[0]) && !IsJsSpace(r[|r| - 1]))
    ensures |r| <= (if v.JStr? then |v.s| else 0)
  {
    if v.JStr? then Trim(v.s) else ""
  }

  /** Trimming twice is trimming once. */
  lemma ToTextIdempotent(v: Json)
    ensures ToText(JStr(ToText(v))) == ToText(v)
  {
    if ToText(v) != [] {
      TrimEnds(ToText(v));
    }
  }

  /** An avatar is optional, but one longer than the limit is refused. */
  function NormalizeAvatar(v: Json): (r: Answer<Option<string>>)
    ensures r.Fail? <==> |ToText(v)| > MaxAvatarLength
    ensures r.Fail? ==> r == Fail(BadRequest, "avatar too large")
    ensures r == Done(None) <==> ToText(v) == ""
    ensures r.Done? && r.value.Some? ==> r.value.value == ToText(v) && 0 < |r.value.value| <= MaxAvatarLength
  {
    var text := ToText(v);
    if text == "" then Done(None)
    else if |text| > MaxAvatarLength then Fail(BadRequest, "avatar too large")
    else Done(Some(text))
  }

  /**
   * `dateIso` is `Date.parse` followed by `toISOString`: None where the parse
   * gives NaN. Its output is canonical, so parsing it again gives it back.
   */
  ghost predicate CanonicalIso(dateIso: string -> Option<string>)
  {
    forall s :: dateIso(s).Some? ==> dateIso(dateIso(s).value) == dateIso(s)
  }

  /**
   * A timestamp in canonical form. A missing or unparsable value is an error
   * when the timestamp is required and no timestamp otherwise.
   */
  function NormalizeTimestamp(dateIso: string -> Option<string>, v: Json, required: bool): (r: Answer<Option<string>>)
    ensures r.Fail? <==> required && !(v.JStr? && dateIso(v.s).Some?)
    ensures r.Fail? ==> r.status == BadRequest
    ensures r.Fail? ==> r.message == (if v.JStr? then "invalid timestamp" else "timestamp required")
    ensures r.Done? && r.value.Some? <==> v.JStr? && dateIso(v.s).Some?
    ensures r.Done? && r.value.Some? ==> r.value == dateIso(v.s)
  {
    if !v.JStr? then
      if required then Fail(BadRequest, "timestamp required") else Done(None)
    else if dateIso(v.s).None? then
      if required then Fail(BadRequest, "invalid timestamp") else Done(None)
    else Done(dateIso(v.s))
  }

  /** Whether a timestamp is required decides only between an error and no timestamp. */
  lemma RequiredOnlyRefuses(dateIso: string -> Option<string>, v: Json)
    ensures NormalizeTimestamp(dateIso, v, true).Done? ==>
      NormalizeTimestamp(dateIso, v, true) == NormalizeTimestamp(dateIso, v, false)
    ensures NormalizeTimestamp(dateIso, v, true).Fail? ==> NormalizeTimestamp(dateIso, v, false) == Done(None)
  {
  }

  /** A normalized timestamp normalizes to itself. */
  lemma NormalizeTimestampTwice(dateIso: string -> Option<string>, v: Json, required: bool, t: string)
    requires CanonicalIso(dateIso)
    requires NormalizeTimestamp(dateIso, v, required) == Done(Some(t))
    ensures NormalizeTimestamp(dateIso, JStr(t), true) == Done(Some(t))
  {
    assert dateIso(v.s).Some?;
  }

  /** The token after "Bearer " in an Authorization header, or "" when there is none. */
  function BearerToken(header: string): (r: string)
    ensures r != "" ==> header == "Bearer " + r
    ensures !StartsWith(header, "Bearer ") ==> r == ""
  {
    if StartsWith(header, "Bearer ") then header[7..] else ""
  }

  lemma BearerTokenOf(token: string)
    ensures BearerToken("Bearer " + token) == token
  {
    assert ("Bearer " + token)[..7] == "Bearer ";
    assert ("Bearer " + token)[7..] == token;
  }

  // ---------------------------------------------------------------------
  // The tables
  // ---------------------------------------------------------------------

  datatype UserRow = UserRow(friendCode: string, displayName: string, avatar: Option<string>,
                             tokenHash: string, createdAt: string)

  datatype InviteRow = InviteRow(fromUser: string, toUser: string, createdAt: string,
                                 status: string, acceptedAt: Option<string>)

  datatype ShareRow = ShareRow(shareWeight: int, shareWaist: int, updatedAt: string)

  datatype EntryRow = EntryRow(measuredAt: string, dateLocal: string, weightKg: Json, waistCm: Json,
                               updatedAt: string, isDeleted: int)

  /**
   * users by user id, invites by id, friendships (with the time they were
   * made) and share settings by (user, friend), shared entries by (user, entry id).
   */
  datatype Tables = Tables(users: map<string, UserRow>,
                           invites: map<string, InviteRow>,
                           friendships: map<(string, string), string>,
                           shareSettings: map<(string, string), ShareRow>,
                           sharedEntries: map<(string, string), EntryRow>)

  predicate Owns(users: map<string, UserRow>, u: string, code: string)
  {
    u in users && users[u].friendCode == code
  }

  /** No two users share a friend code. */
  predicate CodesUnique(users: map<string, UserRow>)
  {
    forall a, b :: a in users && b in users && users[a].friendCode == users[b].friendCode ==> a == b
  }

  /** Friendship goes both ways. */
  predicate Symmetric(friendships: map<(string, string), string>)
  {
    forall k :: k in friendships ==> (k.1, k.0) in friendships
  }

  /** Friendships link registered users. */
  predicate Linked(t: Tables)
  {
    forall k :: k in t.friendships ==> k.0 in t.users && k.1 in t.users
  }

  predicate Valid(t: Tables)
  {
    CodesUnique(t.users) && Symmetric(t.friendships) && Linked(t)
  }

  /** The user a friend code belongs to. */
  function OwnerOf(users: map<string, UserRow>, code: string): (r: Option<string>)
    requires CodesUnique(users)
    ensures r.Some? ==> Owns(users, r.value, code)
    ensures r.None? ==> forall u :: !Owns(users, u, code)
  {
    if exists u :: u in users && Owns(users, u, code) then
      var u :| u in users && Owns(users, u, code);
      Some(u)
    else None
  }

  /** Two users hold the same friend code only if they are the same user. */
  lemma OwnerUnique(users: map<string, UserRow>, code: string, u: string)
    requires CodesUnique(users) && Owns(users, u, code)
    ensures OwnerOf(users, code) == Some(u)
  {
    assert Owns(users, OwnerOf(users, code).value, users[u].friendCode);
  }

  // ---------------------------------------------------------------------
  // Registration
  // ---------------------------------------------------------------------

  function UserIdOf(body: Json): string { ToText(Get(body, "user_id")) }
  function CodeOf(body: Json): string { ToText(Get(body, "friend_code")) }

  function DisplayNameOf(body: Json): (r: string)
    ensures r != ""
  {
    var name := ToText(Get(body, "display_name"));
    if name == "" then DefaultDisplayName else name
  }

  /** The row a successful registration leaves under the user id: new, or the old one with a new token. */
  function RegisteredRow(p: Prims, users: map<string, UserRow>, body: Json, avatar: Option<string>,
                         token: string, now: string): (row: UserRow)
    ensures row.friendCode == (if UserIdOf(body) in users then users[UserIdOf(body)].friendCode else CodeOf(body))
    ensures row.tokenHash == VaultStore.HashToken(p, token)
    ensures row.displayName == DisplayNameOf(body) && row.avatar == avatar
    ensures row.createdAt == (if UserIdOf(body) in users then users[UserIdOf(body)].createdAt else now)
  {
    var userId := UserIdOf(body);
    if userId in users then
      users[userId].(displayName := DisplayNameOf(body), avatar := avatar, tokenHash := VaultStore.HashToken(p, token))
    else UserRow(CodeOf(body), DisplayNameOf(body), avatar, VaultStore.HashToken(p, token), now)
  }

  /** The answer to a registration: the new token, with `reissued` when the user was known. */
  function TokenReply(token: string, code: string, userId: string, reissued: bool): Json
  {
    var fields := map["token" := JStr(token), "friend_code" := JStr(code), "user_id" := JStr(userId)];
    JObj(if reissued then fields["reissued" := JBool(true)] else fields)
  }

  /**
   * Registering a user id with a friend code. A code already held by the same
   * user issues that user a new token; anything else already taken is refused.
   */
  function Registration(p: Prims, t: Tables, body: Json, token: string, now: string): (r: (Answer<Json>, Tables))
    requires CodesUnique(t.users)
    ensures r.0.Fail? ==> r.1 == t && r.0.status == BadRequest
    ensures r.0.Done? ==> UserIdOf(body) != "" && CodeOf(body) != "" && NormalizeAvatar(Get(body, "avatar_b64")).Done?
    ensures r.0.Done? ==>
      r.1 == t.(users := t.users[UserIdOf(body) := RegisteredRow(p, t.users, body, NormalizeAvatar(Get(body, "avatar_b64")).value, token, now)])
    ensures r.0.Done? ==> (UserIdOf(body) in t.users <==> Owns(t.users, UserIdOf(body), CodeOf(body)))
    ensures r.0.Done? ==> forall u :: Owns(t.users, u, CodeOf(body)) ==> u == UserIdOf(body)
    ensures r.0.Done? ==> Owns(r.1.users, UserIdOf(body), CodeOf(body)) && CodesUnique(r.1.users)
    ensures r.0.Done? <==> NormalizeAvatar(Get(body, "avatar_b64")).Done? && RegisterCheck(t.users, UserIdOf(body), CodeOf(body)).Done?
    ensures r.0.Done? && UserIdOf(body) !in t.users ==>
      r.1.users[UserIdOf(body)] == UserRow(CodeOf(body), DisplayNameOf(body), NormalizeAvatar(Get(body, "avatar_b64")).value,
                                           VaultStore.HashToken(p, token), now)
    ensures Valid(t) ==> Valid(r.1)
  {
    match NormalizeAvatar(Get(body, "avatar_b64"))
    case Fail(status, message) => (Fail(status, message), t)
    case Done(avatar) => RegistrationWith(p, t, body, avatar, token, now)
  }

  /**
   * The checks a registration passes or fails on before writing: both ids
   * given, the code free or already the user's own, the user id not taken
   * under another code. The value says whether the user is re-registering.
   */
  function RegisterCheck(users: map<string, UserRow>, userId: string, code: string): (r: Answer<bool>)
    requires CodesUnique(users)
    ensures r.Fail? ==> r.status == BadRequest
    ensures r.Done? ==> userId != "" && code != ""
    ensures r.Done? ==> (r.value <==> userId in users) && (r.value <==> Owns(users, userId, code))
    ensures r.Done? ==> forall u :: Owns(users, u, code) ==> u == userId
    ensures r.Done? <==> userId != "" && code != "" && (forall u :: Owns(users, u, code) ==> u == userId)
                         && (userId in users ==> Owns(users, userId, code))
  {
    if userId == "" || code == "" then Fail(BadRequest, "user_id and friend_code are required")
    else
      match OwnerOf(users, code)
      case Some(owner) =>
        if owner != userId then Fail(BadRequest, "friend_code already registered")
        else Done(true)
      case None =>
        if userId in users then Fail(BadRequest, "user_id already registered")
        else Done(false)
  }

  /** Registration once the avatar is accepted. */
  function RegistrationWith(p: Prims, t: Tables, body: Json, avatar: Option<string>, token: string, now: string)
    : (r: (Answer<Json>, Tables))
    requires CodesUnique(t.users)
    ensures r.0.Fail? ==> r.1 == t && r.0.status == BadRequest
    ensures r.0.Done? ==> UserIdOf(body) != "" && CodeOf(body) != ""
    ensures r.0.Done? ==> r.1 == t.(users := t.users[UserIdOf(body) := RegisteredRow(p, t.users, body, avatar, token, now)])
    ensures r.0.Done? ==> (UserIdOf(body) in t.users <==> Owns(t.users, UserIdOf(body), CodeOf(body)))
    ensures r.0.Done? ==> forall u :: Owns(t.users, u, CodeOf(body)) ==> u == UserIdOf(body)
    ensures r.0.Done? ==> Owns(r.1.users, UserIdOf(body), CodeOf(body)) && CodesUnique(r.1.users)
    ensures r.0.Done? <==> RegisterCheck(t.users, UserIdOf(body), CodeOf(body)).Done?
    ensures r.0.Done? ==> r.0.value == TokenReply(token, CodeOf(body), UserIdOf(body), UserIdOf(body) in t.users)
    ensures Valid(t) ==> Valid(r.1)
  {
    var userId := UserIdOf(body);
    var code := CodeOf(body);
    match RegisterCheck(t.users, userId, code)
    case Fail(status, message) => (Fail(status, message), t)
    case Done(reissued) =>
      var row := RegisteredRow(p, t.users, body, avatar, token, now);
      CodesStayUnique(t.users, userId, row);
      (Done(TokenReply(token, code, userId, reissued)), t.(users := t.users[userId := row]))
  }

  /** Storing a row under `me` keeps codes unique when nobody else holds its code. */
  lemma CodesStayUnique(users: map<string, UserRow>, me: string, row: UserRow)
    requires CodesUnique(users)
    requires forall u :: Owns(users, u, row.friendCode) ==> u == me
    ensures CodesUnique(users[me := row])
  {
    var after := users[me := row];
    forall a, b | a in after && b in after && after[a].friendCode == after[b].friendCode
      ensures a == b
    {
      if a != me && b != me {
        assert users[a].friendCode == users[b].friendCode;
      } else if a != me {
        assert Owns(users, a, row.friendCode);
      } else if b != me {
        assert Owns(users, b, row.friendCode);
      }
    }
  }

  /** Registration with a code someone else holds, or with a known id under a free code, is refused. */
  lemma RegistrationRefusals(p: Prims, t: Tables, body: Json, token: string, now: string)
    requires CodesUnique(t.users)
    requires |ToText(Get(body, "avatar_b64"))| <= MaxAvatarLength
    ensures UserIdOf(body) == "" || CodeOf(body) == "" ==>
      Registration(p, t, body, token, now).0 == Fail(BadRequest, "user_id and friend_code are required")
    ensures UserIdOf(body) != "" && CodeOf(body) != "" && (exists u :: Owns(t.users, u, CodeOf(body)) && u != UserIdOf(body)) ==>
      Registration(p, t, body, token, now).0 == Fail(BadRequest, "friend_code already registered")
    ensures UserIdOf(body) != "" && CodeOf(body) != "" && UserIdOf(body) in t.users && (forall u :: !Owns(t.users, u, CodeOf(body))) ==>
      Registration(p, t, body, token, now).0 == Fail(BadRequest, "user_id already registered")
  {
    var code := CodeOf(body);
    var avatar := NormalizeAvatar(Get(body, "avatar_b64")).value;
    assert Registration(p, t, body, token, now) == RegistrationWith(p, t, body, avatar, token, now);
    if UserIdOf(body) != "" && code != "" {
      if u :| Owns(t.users, u, code) && u != UserIdOf(body) {
        OwnerUnique(t.users, code, u);
      }
    }
  }

  /** The same user registering its own code again gets a fresh token, marked reissued. */
  lemma RegistrationReissues(p: Prims, t: Tables, body: Json, token: string, now: string)
    requires CodesUnique(t.users)
    requires |ToText(Get(body, "avatar_b64"))| <= MaxAvatarLength
    requires UserIdOf(body) != "" && CodeOf(body) != "" && Owns(t.users, UserIdOf(body), CodeOf(body))
    ensures Registration(p, t, body, token, now).0 == Done(TokenReply(token, CodeOf(body), UserIdOf(body), true))
    ensures Registration(p, t, body, token, now).1.users[UserIdOf(body)].tokenHash == VaultStore.HashToken(p, token)
  {
    var avatar := NormalizeAvatar(Get(body, "avatar_b64")).value;
    OwnerUnique(t.users, CodeOf(body), UserIdOf(body));
    assert Registration(p, t, body, token, now) == RegistrationWith(p, t, body, avatar, token, now);
  }

  /**
   * A new user id with a friend code nobody holds is registered: the answer
   * carries the token without `reissued`, and the inserted row holds the
   * code, the display name, the avatar, the token's hash and `now`.
   */
  lemma RegistrationInserts(p: Prims, t: Tables, body: Json, token: string, now: string)
    requires CodesUnique(t.users)
    requires |ToText(Get(body, "avatar_b64"))| <= MaxAvatarLength
    requires UserIdOf(body) != "" && CodeOf(body) != "" && UserIdOf(body) !in t.users
    requires forall u :: !Owns(t.users, u, CodeOf(body))
    ensures Registration(p, t, body, token, now).0 == Done(TokenReply(token, CodeOf(body), UserIdOf(body), false))
    ensures Registration(p, t, body, token, now).1.users
            == t.users[UserIdOf(body) := UserRow(CodeOf(body), DisplayNameOf(body), NormalizeAvatar(Get(body, "avatar_b64")).value,
                                                 VaultStore.HashToken(p, token), now)]
  {
    var avatar := NormalizeAvatar(Get(body, "avatar_b64")).value;
    assert Registration(p, t, body, token, now) == RegistrationWith(p, t, body, avatar, token, now);
  }

  // ---------------------------------------------------------------------
  // Invites
  // ---------------------------------------------------------------------

  predicate Pending(invites: map<string, InviteRow>, id: string, from: string, to: string)
  {
    id in invites && invites[id].fromUser == from && invites[id].toUser == to && invites[id].status == "pending"
  }

  /**
   * Sending an invite to the owner of a friend code: not to an unknown code,
   * not to oneself, and not to someone already a friend. An invite id already
   * in use is left as it is. The answer is the `status` the handler reports.
   */
  function InviteSent(t: Tables, userId: string, body: Json, inviteId: string, now: string): (r: (Answer<string>, Tables))
    requires CodesUnique(t.users)
    ensures r.1 == t.(invites := r.1.invites)
    ensures r.0 != Done("sent") ==> r.1 == t
    ensures ToText(Get(body, "to_code")) == "" ==> r.0 == Fail(BadRequest, "to_code is required")
    ensures ToText(Get(body, "to_code")) != "" && OwnerOf(t.users, ToText(Get(body, "to_code"))).None? ==>
      r.0 == Fail(NotFound, "friend code not found")
    ensures ToText(Get(body, "to_code")) != "" && OwnerOf(t.users, ToText(Get(body, "to_code"))) == Some(userId) ==>
      r.0 == Fail(BadRequest, "cannot invite yourself")
    ensures r.0.Done? <==> ToText(Get(body, "to_code")) != "" && OwnerOf(t.users, ToText(Get(body, "to_code"))).Some?
                           && OwnerOf(t.users, ToText(Get(body, "to_code"))).value != userId
    ensures r.0.Done? ==> r.0.value in {"sent", "already_connected"}
    ensures r.0.Done? ==>
      var to := OwnerOf(t.users, ToText(Get(body, "to_code"))).value;
      to != userId && (r.0 == Done("already_connected") <==> (userId, to) in t.friendships)
    ensures r.0 == Done("sent") ==>
      var to := OwnerOf(t.users, ToText(Get(body, "to_code"))).value;
      r.1.invites == (if inviteId in t.invites then t.invites
                      else t.invites[inviteId := InviteRow(userId, to, now, "pending", None)])
  {
    var code := ToText(Get(body, "to_code"));
    if code == "" then (Fail(BadRequest, "to_code is required"), t)
    else
      match OwnerOf(t.users, code)
      case None => (Fail(NotFound, "friend code not found"), t)
      case Some(to) =>
        if to == userId then (Fail(BadRequest, "cannot invite yourself"), t)
        else if (userId, to) in t.friendships then (Done("already_connected"), t)
        else if inviteId in t.invites then (Done("sent"), t)
        else (Done("sent"), t.(invites := t.invites[inviteId := InviteRow(userId, to, now, "pending", None)]))
  }

  /**
   * Whose invite accepting `body` would accept, or why it is refused: the
   * code must name a user who has a pending invite to `userId`.
   */
  function Inviter(t: Tables, userId: string, body: Json): (r: Answer<string>)
    requires CodesUnique(t.users)
    ensures ToText(Get(body, "from_code")) == "" ==> r == Fail(BadRequest, "from_code is required")
    ensures r.Done? <==>
      ToText(Get(body, "from_code")) != "" &&
      exists from, id :: Owns(t.users, from, ToText(Get(body, "from_code"))) && Pending(t.invites, id, from, userId)
    ensures r.Done? ==> Owns(t.users, r.value, ToText(Get(body, "from_code")))
    ensures r.Fail? && ToText(Get(body, "from_code")) != "" ==>
      r == Fail(NotFound, if OwnerOf(t.users, ToText(Get(body, "from_code"))).None? then "friend code not found"
                          else "invite not found")
  {
    var code := ToText(Get(body, "from_code"));
    if code == "" then Fail(BadRequest, "from_code is required")
    else
      match OwnerOf(t.users, code)
      case None => Fail(NotFound, "friend code not found")
      case Some(from) =>
        if exists id :: id in t.invites && Pending(t.invites, id, from, userId) then Done(from)
        else
          assert forall f, id :: Owns(t.users, f, code) && Pending(t.invites, id, f, userId) ==> f == from by {
            forall f, id | Owns(t.users, f, code) && Pending(t.invites, id, f, userId)
              ensures f == from
            {
              OwnerUnique(t.users, code, f);
            }
          }
          Fail(NotFound, "invite not found")
  }

  /** An invite just sent can be accepted by its recipient with the sender's friend code. */
  lemma SentInviteAcceptable(t: Tables, userId: string, body: Json, inviteId: string, now: string, acceptBody: Json)
    requires CodesUnique(t.users) && userId in t.users
    requires InviteSent(t, userId, body, inviteId, now).0 == Done("sent") && inviteId !in t.invites
    requires ToText(Get(acceptBody, "from_code")) == t.users[userId].friendCode != ""
    ensures var to := OwnerOf(t.users, ToText(Get(body, "to_code"))).value;
      Inviter(InviteSent(t, userId, body, inviteId, now).1, to, acceptBody) == Done(userId)
  {
    var after := InviteSent(t, userId, body, inviteId, now).1;
    var to := OwnerOf(t.users, ToText(Get(body, "to_code"))).value;
    assert after.users == t.users;
    assert Pending(after.invites, inviteId, userId, to);
    OwnerUnique(t.users, t.users[userId].friendCode, userId);
  }

  /** INSERT OR IGNORE: an existing friendship keeps the time it was made. */
  function Link(fs: map<(string, string), string>, k: (string, string), now: string): (r: map<(string, string), string>)
    ensures r.Keys == fs.Keys + {k}
    ensures forall j :: j in fs ==> r[j] == fs[j]
  {
    if k in fs then fs else fs[k := now]
  }

  /** Accepting invite `id` from `from`: the invite is marked accepted and both directions of the friendship exist. */
  function Connected(t: Tables, userId: string, from: string, id: string, now: string): (r: Tables)
    requires id in t.invites
    ensures r == t.(invites := r.invites, friendships := r.friendships)
    ensures r.invites == t.invites[id := t.invites[id].(status := "accepted", acceptedAt := Some(now))]
    ensures r.friendships.Keys == t.friendships.Keys + {(userId, from), (from, userId)}
    ensures forall k :: k in t.friendships ==> r.friendships[k] == t.friendships[k]
  {
    var invites := t.invites[id := t.invites[id].(status := "accepted", acceptedAt := Some(now))];
    t.(invites := invites, friendships := Link(Link(t.friendships, (userId, from), now), (from, userId), now))
  }

  /** Accepting keeps friendship symmetric and between registered users. */
  lemma ConnectedValid(t: Tables, userId: string, from: string, id: string, now: string)
    requires Valid(t) && id in t.invites && userId in t.users && from in t.users
    ensures Valid(Connected(t, userId, from, id, now))
  {
    var r := Connected(t, userId, from, id, now);
    forall k | k in r.friendships
      ensures (k.1, k.0) in r.friendships && k.0 in r.users && k.1 in r.users
    {
      if k in t.friendships {
        assert (k.1, k.0) in t.friendships;
      }
    }
  }

  // ---------------------------------------------------------------------
  // Share settings and removal
  // ---------------------------------------------------------------------

  /** Setting what `userId` shares with the owner of a friend code. */
  function ShareUpdated(t: Tables, userId: string, body: Json, now: string): (r: (Answer<string>, Tables))
    requires CodesUnique(t.users)
    ensures r.1 == t.(shareSettings := r.1.shareSettings)
    ensures r.0.Fail? ==> r.1 == t
    ensures ToText(Get(body, "friend_code")) == "" ==> r.0 == Fail(BadRequest, "friend_code is required")
    ensures r.0.Done? <==> ToText(Get(body, "friend_code")) != "" && OwnerOf(t.users, ToText(Get(body, "friend_code"))).Some?
    ensures r.0.Done? ==>
      var friend := OwnerOf(t.users, ToText(Get(body, "friend_code"))).value;
      r.0 == Done("ok") &&
      r.1.shareSettings == t.shareSettings[(userId, friend) :=
        ShareRow(if JsTruthy(Get(body, "share_weight")) then 1 else 0,
                 if JsTruthy(Get(body, "share_waist")) then 1 else 0, now)]
  {
    var code := ToText(Get(body, "friend_code"));
    if code == "" then (Fail(BadRequest, "friend_code is required"), t)
    else
      match OwnerOf(t.users, code)
      case None => (Fail(NotFound, "friend code not found"), t)
      case Some(friend) =>
        var row := ShareRow(if JsTruthy(Get(body, "share_weight")) then 1 else 0,
                            if JsTruthy(Get(body, "share_waist")) then 1 else 0, now);
        (Done("ok"), t.(shareSettings := t.shareSettings[(userId, friend) := row]))
  }

  /** Whether a pair of users is `a` and `b` in one order or the other. */
  predicate Between(k: (string, string), a: string, b: string)
  {
    k == (a, b) || k == (b, a)
  }

  /** Everything linking `a` and `b` deleted: friendships, share settings and invites, in both directions. */
  function Unlinked(t: Tables, a: string, b: string): Tables
  {
    t.(friendships := map k | k in t.friendships && !Between(k, a, b) :: t.friendships[k],
       shareSettings := map k | k in t.shareSettings && !Between(k, a, b) :: t.shareSettings[k],
       invites := map id | id in t.invites && !Between((t.invites[id].fromUser, t.invites[id].toUser), a, b)
                          :: t.invites[id])
  }

  /** Removal deletes exactly the rows between the two users and keeps every other row as it was. */
  lemma UnlinkedRemoves(t: Tables, a: string, b: string)
    ensures var r := Unlinked(t, a, b);
      r.users == t.users && r.sharedEntries == t.sharedEntries &&
      (forall k :: k in r.friendships <==> k in t.friendships && !Between(k, a, b)) &&
      (forall k :: k in r.shareSettings <==> k in t.shareSettings && !Between(k, a, b)) &&
      (forall id :: id in r.invites <==>
        id in t.invites && !Between((t.invites[id].fromUser, t.invites[id].toUser), a, b)) &&
      (forall k :: k in r.friendships ==> r.friendships[k] == t.friendships[k]) &&
      (forall k :: k in r.shareSettings ==> r.shareSettings[k] == t.shareSettings[k]) &&
      (forall id :: id in r.invites ==> r.invites[id] == t.invites[id])
  {
  }

  /** Removing a friend keeps friendship symmetric and between registered users. */
  lemma UnlinkedValid(t: Tables, a: string, b: string)
    requires Valid(t)
    ensures Valid(Unlinked(t, a, b))
  {
    var r := Unlinked(t, a, b);
    forall k | k in r.friendships
      ensures (k.1, k.0) in r.friendships
    {
      assert (k.1, k.0) in t.friendships;
    }
  }

  /** Removing the owner of a friend code as a friend. */
  function Removal(t: Tables, userId: string, body: Json): (r: (Answer<string>, Tables))
    requires CodesUnique(t.users)
    ensures r.0.Fail? ==> r.1 == t
    ensures ToText(Get(body, "friend_code")) == "" ==> r.0 == Fail(BadRequest, "friend_code is required")
    ensures r.0.Done? <==> ToText(Get(body, "friend_code")) != "" && OwnerOf(t.users, ToText(Get(body, "friend_code"))).Some?
    ensures r.0.Fail? && ToText(Get(body, "friend_code")) != "" ==> r.0 == Fail(NotFound, "friend code not found")
    ensures r.0.Done? ==>
      r.0 == Done("removed") &&
      r.1 == Unlinked(t, userId, OwnerOf(t.users, ToText(Get(body, "friend_code"))).value)
  {
    var code := ToText(Get(body, "friend_code"));
    if code == "" then (Fail(BadRequest, "friend_code is required"), t)
    else
      match OwnerOf(t.users, code)
      case None => (Fail(NotFound, "friend code not found"), t)
      case Some(friend) => (Done("removed"), Unlinked(t, userId, friend))
  }

  /** After an accepted invite is undone by removal, nothing links the two users any more. */
  lemma RemoveAfterAccept(t: Tables, userId: string, from: string, id: string, now: string)
    requires id in t.invites && t.invites[id].fromUser == from && t.invites[id].toUser == userId
    ensures var r := Unlinked(Connected(t, userId, from, id, now), userId, from);
      (userId, from) !in r.friendships && (from, userId) !in r.friendships &&
      (userId, from) !in r.shareSettings && (from, userId) !in r.shareSettings &&
      id !in r.invites &&
      (forall k :: k in t.friendships && !Between(k, userId, from) ==> k in r.friendships)
  {
  }

  // ---------------------------------------------------------------------
  // Pushing history
  // ---------------------------------------------------------------------

  /** The text a member access on `null` throws. */
  const NullMemberError := "Cannot read properties of null (reading 'entry_id')"

  /** The pushed entries: the `entries` member when it is an array, else none. */
  function PushedEntries(body: Json): seq<Json>
  {
    var entries := Get(body, "entries");
    if entries.JArr? then entries.items else []
  }

  /** LWW on the stored `updated_at` text: a row is replaced unless the incoming one is older. */
  function Upsert(rows: map<(string, string), EntryRow>, k: (string, string), row: EntryRow): (r: map<(string, string), EntryRow>)
    ensures r.Keys == rows.Keys + {k}
    ensures forall j :: j in rows && j != k ==> r[j] == rows[j]
    ensures k !in rows ==> r[k] == row
    ensures k in rows && LexLess(row.updatedAt, rows[k].updatedAt) ==> r[k] == rows[k]
    ensures k in rows && !LexLess(row.updatedAt, rows[k].updatedAt) ==> r[k] == row
  {
    if k in rows && LexLess(row.updatedAt, rows[k].updatedAt) then rows else rows[k := row]
  }

  /** The row one pushed entry stands for, or None when its entry id is blank. */
  function EntryOf(dateIso: string -> Option<string>, entry: Json): (r: Answer<Option<(string, EntryRow)>>)
    ensures r.Fail? <==> !(Stamped(dateIso, entry, "measured_at") && Stamped(dateIso, entry, "updated_at"))
    ensures r.Done? && r.value.Some? ==> r.value.value.0 != "" && r.value.value.0 == ToText(Get(entry, "entry_id"))
    ensures r.Done? && r.value.Some? ==> Some(r.value.value.1.updatedAt) == dateIso(Get(entry, "updated_at").s)
    ensures r.Done? && r.value.None? ==> ToText(Get(entry, "entry_id")) == ""
    ensures r.Fail? ==> r.status == BadRequest
  {
    var entryId := ToText(Get(entry, "entry_id"));
    var measuredAt :- NormalizeTimestamp(dateIso, Get(entry, "measured_at"), true);
    var updatedAt :- NormalizeTimestamp(dateIso, Get(entry, "updated_at"), true);
    var dateLocal := ToText(Get(entry, "date_local"));
    if entryId == "" || measuredAt.None? || updatedAt.None? then Done(None)
    else
      Done(Some((entryId, EntryRow(measuredAt.value, dateLocal, Get(entry, "weight_kg"), Get(entry, "waist_cm"),
                                   updatedAt.value, if JsTruthy(Get(entry, "is_deleted")) then 1 else 0))))
  }

  /** A member of the entry holds a parsable timestamp. */
  predicate Stamped(dateIso: string -> Option<string>, entry: Json, key: string)
  {
    Get(entry, key).JStr? && dateIso(Get(entry, key).s).Some?
  }

  /**
   * One entry of a push: a null entry throws, an entry without both
   * timestamps aborts the push, a blank id is skipped, anything else is upserted.
   */
  function PushEntry(dateIso: string -> Option<string>, rows: map<(string, string), EntryRow>, userId: string, entry: Json)
    : (r: Answer<map<(string, string), EntryRow>>)
  {
    if entry.JNull? then Fail(BadRequest, NullMemberError)
    else
      match EntryOf(dateIso, entry)
      case Fail(status, message) => Fail(status, message)
      case Done(None) => Done(rows)
      case Done(Some((entryId, row))) => Done(Upsert(rows, (userId, entryId), row))
  }

  /** Pushing the same entry again changes nothing: the stored copy is no newer than itself. */
  lemma PushEntryTwice(dateIso: string -> Option<string>, rows: map<(string, string), EntryRow>, userId: string, entry: Json)
    requires PushEntry(dateIso, rows, userId, entry).Done?
    ensures PushEntry(dateIso, PushEntry(dateIso, rows, userId, entry).value, userId, entry) ==
            PushEntry(dateIso, rows, userId, entry)
  {
    var parsed := EntryOf(dateIso, entry).value;
    if parsed.Some? {
      var (entryId, row) := parsed.value;
      UpsertTwice(rows, (userId, entryId), row);
    }
  }

  /** Upserting the same row twice is upserting it once. */
  lemma UpsertTwice(rows: map<(string, string), EntryRow>, k: (string, string), row: EntryRow)
    ensures Upsert(Upsert(rows, k, row), k, row) == Upsert(rows, k, row)
  {
    var once := Upsert(rows, k, row);
    if once[k] == row {
      LexLessIrreflexive(row.updatedAt);
      assert once[k := row] == once;
    }
  }

  /**
   * The table after the entries before the first failing one, and that
   * failure if there is one: rows written before an abort stay written.
   */
  function PushAll(dateIso: string -> Option<string>, rows: map<(string, string), EntryRow>, userId: string, entries: seq<Json>)
    : (r: (map<(string, string), EntryRow>, Answer<()>))
    decreases |entries|
  {
    if entries == [] then (rows, Done(()))
    else
      var prev := PushAll(dateIso, rows, userId, entries[..|entries| - 1]);
      if prev.1.Fail? then prev
      else
        match PushEntry(dateIso, prev.0, userId, entries[|entries| - 1])
        case Fail(status, message) => (prev.0, Fail(status, message))
        case Done(next) => (next, Done(()))
  }

  /** Once a prefix of the entries aborts, the rest of them are never looked at. */
  lemma {:induction false} PushStops(dateIso: string -> Option<string>, rows: map<(string, string), EntryRow>, userId: string, entries: seq<Json>, i: nat)
    requires i <= |entries|
    requires PushAll(dateIso, rows, userId, entries[..i]).1.Fail?
    ensures PushAll(dateIso, rows, userId, entries) == PushAll(dateIso, rows, userId, entries[..i])
    decreases |entries| - i
  {
    if i < |entries| {
      var init := entries[..|entries| - 1];
      assert init[..i] == entries[..i];
      PushStops(dateIso, rows, userId, init, i);
    } else {
      assert entries[..i] == entries;
    }
  }

  /** A push fails exactly when one of its entries is null or lacks a valid timestamp, always with 400. */
  lemma {:induction false} PushAllFails(dateIso: string -> Option<string>, rows: map<(string, string), EntryRow>, userId: string, entries: seq<Json>)
    ensures PushAll(dateIso, rows, userId, entries).1.Fail? <==>
      exists i :: 0 <= i < |entries| && !Accepted(dateIso, entries[i])
    ensures PushAll(dateIso, rows, userId, entries).1.Fail? ==> PushAll(dateIso, rows, userId, entries).1.status == BadRequest
    decreases |entries|
  {
    if entries != [] {
      var init := entries[..|entries| - 1];
      PushAllFails(dateIso, rows, userId, init);
      assert forall i :: 0 <= i < |init| ==> init[i] == entries[i];
    }
  }

  /** An entry the push goes past without aborting. */
  predicate Accepted(dateIso: string -> Option<string>, entry: Json)
  {
    !entry.JNull? && Stamped(dateIso, entry, "measured_at") && Stamped(dateIso, entry, "updated_at")
  }

  /** A push writes only the pushing user's rows, and only under non-blank entry ids. */
  lemma {:induction false} PushAllOthersUntouched(dateIso: string -> Option<string>, rows: map<(string, string), EntryRow>, userId: string, entries: seq<Json>)
    ensures forall k :: k in rows ==> k in PushAll(dateIso, rows, userId, entries).0
    ensures forall k :: k in PushAll(dateIso, rows, userId, entries).0 && k !in rows ==> k.0 == userId && k.1 != ""
    ensures forall k :: k in rows && k.0 != userId ==> PushAll(dateIso, rows, userId, entries).0[k] == rows[k]
    decreases |entries|
  {
    if entries != [] {
      var prev := PushAll(dateIso, rows, userId, entries[..|entries| - 1]);
      PushAllOthersUntouched(dateIso, rows, userId, entries[..|entries| - 1]);
      if prev.1.Done? {
        PushEntryOthersUntouched(dateIso, prev.0, userId, entries[|entries| - 1]);
      }
    }
  }

  /** One pushed entry writes only a row of the pushing user under a non-blank entry id. */
  lemma PushEntryOthersUntouched(dateIso: string -> Option<string>, rows: map<(string, string), EntryRow>, userId: string, entry: Json)
    ensures PushEntry(dateIso, rows, userId, entry).Done? ==>
      var next := PushEntry(dateIso, rows, userId, entry).value;
      && (forall k :: k in rows ==> k in next)
      && (forall k :: k in next && k !in rows ==> k.0 == userId && k.1 != "")
      && (forall k :: k in rows && k.0 != userId ==> next[k] == rows[k])
  {
    var e := EntryOf(dateIso, entry);
    if !entry.JNull? && e.Done? && e.value.Some? {
      var (entryId, row) := e.value.value;
      assert PushEntry(dateIso, rows, userId, entry) == Done(Upsert(rows, (userId, entryId), row));
      UpsertOthersUntouched(rows, userId, entryId, row);
    }
  }

  lemma UpsertOthersUntouched(rows: map<(string, string), EntryRow>, userId: string, entryId: string, row: EntryRow)
    requires entryId != ""
    ensures var next := Upsert(rows, (userId, entryId), row);
      && (forall k :: k in rows ==> k in next)
      && (forall k :: k in next && k !in rows ==> k.0 == userId && k.1 != "")
      && (forall k :: k in rows && k.0 != userId ==> next[k] == rows[k])
  {
  }

  /** A stored row's `updated_at` never goes back in text order. */
  lemma {:induction false} PushAllNeverRegresses(dateIso: string -> Option<string>, rows: map<(string, string), EntryRow>, userId: string, entries: seq<Json>, k: (string, string))
    requires k in rows
    ensures k in PushAll(dateIso, rows, userId, entries).0
    ensures !LexLess(PushAll(dateIso, rows, userId, entries).0[k].updatedAt, rows[k].updatedAt)
    decreases |entries|
  {
    if entries == [] {
      LexLessIrreflexive(rows[k].updatedAt);
    } else {
      var init := entries[..|entries| - 1];
      PushAllNeverRegresses(dateIso, rows, userId, init, k);
      var prev := PushAll(dateIso, rows, userId, init);
      var now := PushAll(dateIso, rows, userId, entries).0;
      assert !LexLess(now[k].updatedAt, prev.0[k].updatedAt) by {
        if now[k] != prev.0[k] {
          LexLessIrreflexive(now[k].updatedAt);
        } else {
          LexLessIrreflexive(prev.0[k].updatedAt);
        }
      }
      LexNotLessTransitive(now[k].updatedAt, prev.0[k].updatedAt, rows[k].updatedAt);
    }
  }

  /** The answer to a push that did not abort: the count of entries sent, skipped ones included. */
  function Counted(n: nat): Json
  {
    JObj(map["status" := JStr("ok"), "count" := JInt(n)])
  }

  // ---------------------------------------------------------------------
  // Fetching friends' history
  // ---------------------------------------------------------------------

  /** A stored entry as a friend sees it: metrics not shared are null. */
  datatype EntryView = EntryView(measuredAt: string, dateLocal: string, weightKg: Json, waistCm: Json,
                                 updatedAt: string, isDeleted: bool)

  datatype FriendHistory = FriendHistory(friendCode: string, displayName: string, avatar: Option<string>,
                                         shareWeight: bool, shareWaist: bool, entries: map<string, EntryView>)

  /** The `since` query parameter: ignored when empty or unparsable. */
  function Since(dateIso: string -> Option<string>, sinceParam: Option<string>): (r: Option<string>)
    ensures r.Some? ==> sinceParam.Some? && r == dateIso(sinceParam.value)
    ensures sinceParam.Some? && sinceParam.value != "" && dateIso(sinceParam.value).Some? ==> r.Some?
  {
    if sinceParam.Some? && sinceParam.value != "" then
      NormalizeTimestamp(dateIso, JStr(sinceParam.value), false).value
    else None
  }

  /** What `friend` shares with `userId`: weight and waist flags, both off without a setting. */
  function SharedWith(t: Tables, friend: string, userId: string): (bool, bool)
  {
    if (friend, userId) in t.shareSettings then
      (t.shareSettings[(friend, userId)].shareWeight == 1, t.shareSettings[(friend, userId)].shareWaist == 1)
    else (false, false)
  }

  predicate After(row: EntryRow, since: Option<string>)
  {
    since.None? || !LexLess(row.updatedAt, since.value)
  }

  function View(row: EntryRow, shareWeight: bool, shareWaist: bool): EntryView
  {
    EntryView(row.measuredAt, row.dateLocal, if shareWeight then row.weightKg else JNull,
              if shareWaist then row.waistCm else JNull, row.updatedAt, row.isDeleted == 1)
  }

  /** One friend's entries updated at or after `since`, when the friend shares anything with `userId`. */
  function FriendEntries(t: Tables, friend: string, userId: string, since: Option<string>): (r: map<string, EntryView>)
    ensures var (w, c) := SharedWith(t, friend, userId);
      forall id :: id in r <==> (w || c) && (friend, id) in t.sharedEntries && After(t.sharedEntries[(friend, id)], since)
    ensures var (w, c) := SharedWith(t, friend, userId);
      forall id :: id in r ==> r[id] == View(t.sharedEntries[(friend, id)], w, c)
  {
    var (w, c) := SharedWith(t, friend, userId);
    if w || c then
      map k | k in t.sharedEntries && k.0 == friend && After(t.sharedEntries[k], since)
        :: k.1 := View(t.sharedEntries[k], w, c)
    else map[]
  }

  /** What `userId` sees of each friend, keyed by the friend's user id. */
  function History(t: Tables, userId: string, since: Option<string>): (r: map<string, FriendHistory>)
    ensures forall f :: f in r <==> (userId, f) in t.friendships && f in t.users
    ensures forall f :: f in r ==>
      r[f].friendCode == t.users[f].friendCode &&
      r[f].displayName == t.users[f].displayName && r[f].avatar == t.users[f].avatar &&
      (r[f].shareWeight, r[f].shareWaist) == SharedWith(t, f, userId) &&
      r[f].entries == FriendEntries(t, f, userId, since)
  {
    map k | k in t.friendships && k.0 == userId && k.1 in t.users
      :: k.1 := var u := t.users[k.1];
                var (w, c) := SharedWith(t, k.1, userId);
                FriendHistory(u.friendCode, u.displayName, u.avatar, w, c, FriendEntries(t, k.1, userId, since))
  }

  /** A friend's entries reach `userId` only when shared, with unshared metrics null, and all newer ones do. */
  lemma HistoryShowsOnlyShared(t: Tables, userId: string, since: Option<string>, f: string, id: string)
    requires f in History(t, userId, since)
    ensures var h := History(t, userId, since)[f];
      id in h.entries ==>
        (h.shareWeight || h.shareWaist) &&
        (!h.shareWeight ==> h.entries[id].weightKg == JNull) &&
        (!h.shareWaist ==> h.entries[id].waistCm == JNull) &&
        (since.Some? ==> !LexLess(h.entries[id].updatedAt, since.value))
    ensures var h := History(t, userId, since)[f];
      (h.shareWeight || h.shareWaist) && (f, id) in t.sharedEntries && After(t.sharedEntries[(f, id)], since) ==>
        id in h.entries && h.entries[id].measuredAt == t.sharedEntries[(f, id)].measuredAt
  {
  }

  /** A friend who turns weight sharing on for `userId` shows their weights to `userId`. */
  lemma ShareThenFetch(t: Tables, friend: string, userId: string, body: Json, now: string, since: Option<string>)
    requires Valid(t) && (friend, userId) in t.friendships
    requires ShareUpdated(t, friend, body, now).0.Done?
    requires OwnerOf(t.users, ToText(Get(body, "friend_code"))) == Some(userId)
    requires JsTruthy(Get(body, "share_weight"))
    ensures var h := History(ShareUpdated(t, friend, body, now).1, userId, since);
      friend in h && h[friend].shareWeight &&
      forall id :: id in h[friend].entries ==> h[friend].entries[id].weightKg == t.sharedEntries[(friend, id)].weightKg
  {
    assert (userId, friend) in t.friendships;
  }

  // ---------------------------------------------------------------------
  // The database the handlers change in place
  // ---------------------------------------------------------------------

  /** The relay's database: one field per table. The caller of a handler has passed `RequireAuth`. */
  class RelayDb {
    var users: map<string, UserRow>
    var invites: map<string, InviteRow>
    var friendships: map<(string, string), string>
    var shareSettings: map<(string, string), ShareRow>
    var sharedEntries: map<(string, string), EntryRow>

    function Snapshot(): Tables
      reads this
    {
      Tables(users, invites, friendships, shareSettings, sharedEntries)
    }

    /** Codes are unique and friendships symmetric, between registered users. */
    predicate Consistent()
      reads this
    {
      Valid(Snapshot())
    }

    constructor()
      ensures Consistent()
      ensures Snapshot() == Tables(map[], map[], map[], map[], map[])
    {
      users := map[];
      invites := map[];
      friendships := map[];
      shareSettings := map[];
      sharedEntries := map[];
    }

    /** `SELECT user_id FROM users WHERE friend_code = ?`. */
    method FindByCode(code: string) returns (owner: Option<string>)
      requires CodesUnique(users)
      ensures owner == OwnerOf(users, code)
    {
      if exists u :: u in users && Owns(users, u, code) {
        var u :| u in users && Owns(users, u, code);
        OwnerUnique(users, code, u);
        owner := Some(u);
      } else {
        owner := None;
      }
    }

    /** The user a bearer token belongs to: 401 without a token or when no stored hash matches it. */
    method RequireAuth(p: Prims, header: string) returns (r: Answer<string>)
      ensures r.Fail? <==>
        BearerToken(header) == "" ||
        forall u :: u in users ==> users[u].tokenHash != VaultStore.HashToken(p, BearerToken(header))
      ensures r.Fail? ==> r == Fail(Unauthorized, if BearerToken(header) == "" then "missing token" else "invalid token")
      ensures r.Done? ==> r.value in users && users[r.value].tokenHash == VaultStore.HashToken(p, BearerToken(header))
    {
      var token := BearerToken(header);
      if token == "" {
        return Fail(Unauthorized, "missing token");
      }
      var tokenHash := VaultStore.HashToken(p, token);
      if exists u :: u in users && users[u].tokenHash == tokenHash {
        var u :| u in users && users[u].tokenHash == tokenHash;
        r := Done(u);
      } else {
        r := Fail(Unauthorized, "invalid token");
      }
    }

    method Register(p: Prims, body: Json, token: string, now: string) returns (r: Answer<Json>)
      requires Consistent()
      modifies this
      ensures (r, Snapshot()) == Registration(p, old(Snapshot()), body, token, now)
      ensures Consistent()
    {
      var avatar := NormalizeAvatar(Get(body, "avatar_b64"));
      if avatar.Fail? {
        return Fail(avatar.status, avatar.message);
      }
      r := RegisterWith(p, body, avatar.value, token, now);
    }

    /** The rest of `Register`, once the avatar is accepted. */
    method RegisterWith(p: Prims, body: Json, avatar: Option<string>, token: string, now: string) returns (r: Answer<Json>)
      requires Consistent()
      modifies this
      ensures (r, Snapshot()) == RegistrationWith(p, old(Snapshot()), body, avatar, token, now)
      ensures Consistent()
    {
      var userId := UserIdOf(body);
      var code := CodeOf(body);
      if userId == "" || code == "" {
        return Fail(BadRequest, "user_id and friend_code are required");
      }
      var existing := FindByCode(code);
      if existing.Some? {
        if existing.value != userId {
          return Fail(BadRequest, "friend_code already registered");
        }
      } else if userId in users {
        return Fail(BadRequest, "user_id already registered");
      }
      assert RegisterCheck(users, userId, code) == Done(existing.Some?);
      users := users[userId := RegisteredRow(p, users, body, avatar, token, now)];
      r := Done(TokenReply(token, code, userId, existing.Some?));
    }

    method SendInvite(userId: string, body: Json, inviteId: string, now: string) returns (r: Answer<string>)
      requires Consistent()
      modifies this
      ensures (r, Snapshot()) == InviteSent(old(Snapshot()), userId, body, inviteId, now)
      ensures Consistent()
    {
      var code := ToText(Get(body, "to_code"));
      if code == "" {
        return Fail(BadRequest, "to_code is required");
      }
      var to := FindByCode(code);
      if to.None? {
        return Fail(NotFound, "friend code not found");
      }
      if to.value == userId {
        return Fail(BadRequest, "cannot invite yourself");
      }
      if (userId, to.value) in friendships {
        return Done("already_connected");
      }
      if inviteId !in invites {
        invites := invites[inviteId := InviteRow(userId, to.value, now, "pending", None)];
      }
      r := Done("sent");
    }

    /**
     * Accepts one pending invite from the owner of `from_code` (which one,
     * when there are several, the database decides) and links both users.
     */
    method AcceptInvite(userId: string, body: Json, now: string) returns (r: Answer<string>)
      requires Consistent() && userId in users
      modifies this
      ensures Consistent()
      ensures r.Fail? ==> r == Inviter(old(Snapshot()), userId, body) && Snapshot() == old(Snapshot())
      ensures r.Done? <==> Inviter(old(Snapshot()), userId, body).Done?
      ensures r.Done? ==>
        r.value == "connected" &&
        exists id :: Pending(old(invites), id, Inviter(old(Snapshot()), userId, body).value, userId) &&
                     Snapshot() == Connected(old(Snapshot()), userId, Inviter(old(Snapshot()), userId, body).value, id, now)
    {
      var code := ToText(Get(body, "from_code"));
      if code == "" {
        return Fail(BadRequest, "from_code is required");
      }
      var from := FindByCode(code);
      if from.None? {
        return Fail(NotFound, "friend code not found");
      }
      if !exists id :: id in invites && Pending(invites, id, from.value, userId) {
        return Fail(NotFound, "invite not found");
      }
      var id :| id in invites && Pending(invites, id, from.value, userId);
      ghost var before := Snapshot();
      ConnectedValid(before, userId, from.value, id, now);
      invites := invites[id := invites[id].(status := "accepted", acceptedAt := Some(now))];
      friendships := Link(friendships, (userId, from.value), now);
      friendships := Link(friendships, (from.value, userId), now);
      assert Snapshot() == Connected(before, userId, from.value, id, now);
      r := Done("connected");
    }

    method ShareSettings(userId: string, body: Json, now: string) returns (r: Answer<string>)
      requires Consistent()
      modifies this
      ensures (r, Snapshot()) == ShareUpdated(old(Snapshot()), userId, body, now)
      ensures Consistent()
    {
      var code := ToText(Get(body, "friend_code"));
      if code == "" {
        return Fail(BadRequest, "friend_code is required");
      }
      var friend := FindByCode(code);
      if friend.None? {
        return Fail(NotFound, "friend code not found");
      }
      var row := ShareRow(if JsTruthy(Get(body, "share_weight")) then 1 else 0,
                          if JsTruthy(Get(body, "share_waist")) then 1 else 0, now);
      shareSettings := shareSettings[(userId, friend.value) := row];
      r := Done("ok");
    }

    method RemoveFriend(userId: string, body: Json) returns (r: Answer<string>)
      requires Consistent()
      modifies this
      ensures (r, Snapshot()) == Removal(old(Snapshot()), userId, body)
      ensures Consistent()
    {
      var code := ToText(Get(body, "friend_code"));
      if code == "" {
        return Fail(BadRequest, "friend_code is required");
      }
      var friend := FindByCode(code);
      if friend.None? {
        return Fail(NotFound, "friend code not found");
      }
      var f := friend.value;
      UnlinkedValid(Snapshot(), userId, f);
      var after := Unlinked(Snapshot(), userId, f);
      friendships := after.friendships;
      shareSettings := after.shareSettings;
      invites := after.invites;
      r := Done("removed");
    }

    /**
     * Upserts the pushed entries one by one. An entry that aborts the push
     * leaves the rows written before it in place.
     */
    method HistoryPush(dateIso: string -> Option<string>, userId: string, body: Json) returns (r: Answer<Json>)
      requires Consistent()
      modifies this
      ensures Consistent()
      ensures Snapshot() == old(Snapshot()).(sharedEntries := sharedEntries)
      ensures var (rows, outcome) := PushAll(dateIso, old(sharedEntries), userId, PushedEntries(body));
        sharedEntries == rows &&
        r == (if outcome.Fail? then Fail(outcome.status, outcome.message) else Done(Counted(|PushedEntries(body)|)))
    {
      var entries := PushedEntries(body);
      if |entries| == 0 {
        return Done(Counted(0));
      }
      var i := 0;
      while i < |entries|
        invariant 0 <= i <= |entries|
        invariant PushAll(dateIso, old(sharedEntries), userId, entries[..i]) == (sharedEntries, Done(()))
        invariant Snapshot() == old(Snapshot()).(sharedEntries := sharedEntries)
      {
        assert entries[..i + 1][..i] == entries[..i];
        var step := PushEntry(dateIso, sharedEntries, userId, entries[i]);
        if step.Fail? {
          assert PushAll(dateIso, old(sharedEntries), userId, entries[..i + 1]) == (sharedEntries, step.PropagateFailure());
          PushStops(dateIso, old(sharedEntries), userId, entries, i + 1);
          return Fail(step.status, step.message);
        }
        sharedEntries := step.value;
        i := i + 1;
      }
      assert entries[..i] == entries;
      r := Done(Counted(|entries|));
    }
  }
}
