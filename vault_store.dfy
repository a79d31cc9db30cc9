// The vault's record store: invite tokens, user tokens, users, devices and
// each user's synced entries. The in-memory backend is a class whose fields
// are the dictionaries it mutates; the transitions it applies to them are
// pure functions below, so that the properties can be stated on their own.
// The clock and the random draws are parameters.

module VaultStore {
  import opened Common
  import opened Text
  import opened Primitives
  import opened Lww
  import opened SyncModels
  import Codec
  import UuidText

  const SchemaVersion := 1

  const InvalidInvite := "Invalid invite token"
  const UsedInvite := "Invite token already used"
  const ExpiredInvite := "Invite token expired"
  const InvalidUserToken := "Invalid user token"
  const RevokedUserToken := "User token revoked"

  /** Tokens are stored only as the SHA-256 hex digest of their UTF-8 text. */
  function HashToken(p: Prims, token: string): string
  {
    p.sha256Hex(p.utf8Encode(token))
  }

  /** Distinct tokens never share a stored hash. */
  lemma HashTokenInjective(p: Prims, a: string, b: string)
    requires p.TextLaws() && p.CryptoLaws()
    requires HashToken(p, a) == HashToken(p, b)
    ensures a == b
  {
    assert p.utf8Encode(a) == p.utf8Encode(b);
    assert p.utf8Decode(p.utf8Encode(a)) == Some(a);
    assert p.utf8Decode(p.utf8Encode(b)) == Some(b);
  }

  /** `parse_dt`: ISO text that carries a UTC offset. */
  function ParseDt(p: Prims, value: string): (r: Result<DateTime>)
    ensures r.Ok? <==> p.fromIsoFormat(value).Some? && p.fromIsoFormat(value).value.offset.Some?
    ensures p.fromIsoFormat(value).Some? && p.fromIsoFormat(value).value.offset.None? ==>
              r == Err("Timestamp must be timezone-aware")
  {
    Codec.DecodeDateTime(p, JStr(value))
  }

  /** Stored timestamps read back as the instants that were written. */
  lemma ParseDtRoundTrip(p: Prims, t: DateTime)
    requires p.TimeLaws()
    ensures ParseDt(p, p.isoFormat(t)) == Ok(t)
  {
    Codec.DateTimeRoundTrip(p, t);
  }

  function StampOf(c: SyncEntryChange): Stamp
  {
    Stamp(c.version, c.updatedAt)
  }

  /** `should_accept`: the incoming change replaces the stored one. */
  predicate ShouldAccept(existing: SyncEntryChange, incoming: SyncEntryChange)
    ensures ShouldAccept(existing, incoming) <==> Newer(StampOf(incoming), StampOf(existing))
  {
    if incoming.version > existing.version then true
    else if incoming.version < existing.version then false
    else Before(existing.updatedAt, incoming.updatedAt)
  }

  /** `should_accept_version`: the same rule with the stored version and time passed apart. */
  predicate ShouldAcceptVersion(existingVersion: int, existingUpdatedAt: DateTime, incoming: SyncEntryChange)
    ensures ShouldAcceptVersion(existingVersion, existingUpdatedAt, incoming) <==>
            Newer(StampOf(incoming), Stamp(existingVersion, existingUpdatedAt))
  {
    if incoming.version > existingVersion then true
    else if incoming.version < existingVersion then false
    else Before(existingUpdatedAt, incoming.updatedAt)
  }

  /** The two backends decide every conflict alike. */
  lemma ShouldAcceptVersionAgrees(existing: SyncEntryChange, incoming: SyncEntryChange)
    ensures ShouldAcceptVersion(existing.version, existing.updatedAt, incoming) == ShouldAccept(existing, incoming)
  {
  }

  // ---------------------------------------------------------------------
  // Merging a batch of changes into one user's entries
  // ---------------------------------------------------------------------

  /** Every stored change is filed under its own entry id. */
  predicate Filed(m: map<Uuid, SyncEntryChange>)
  {
    forall id :: id in m ==> m[id].entryId == id
  }

  /** The change is written: its entry is new, or it supersedes the stored copy. */
  predicate Writes(stored: map<Uuid, SyncEntryChange>, c: SyncEntryChange)
  {
    !(c.entryId in stored && !ShouldAccept(stored[c.entryId], c))
  }

  /** One iteration of the `apply_changes` loop. */
  function StoreChange(stored: map<Uuid, SyncEntryChange>, c: SyncEntryChange): (r: map<Uuid, SyncEntryChange>)
    ensures r.Keys == stored.Keys + {c.entryId}
    ensures c.entryId !in stored ==> r[c.entryId] == c
    ensures !Writes(stored, c) ==> r == stored
    ensures forall id :: id in stored && id != c.entryId ==> r[id] == stored[id]
    ensures Filed(stored) ==> Filed(r)
  {
    if Writes(stored, c) then stored[c.entryId := c] else stored
  }

  /** The entries after a batch, applied first to last. */
  function Merge(stored: map<Uuid, SyncEntryChange>, cs: seq<SyncEntryChange>): map<Uuid, SyncEntryChange>
  {
    if cs == [] then stored else StoreChange(Merge(stored, cs[..|cs| - 1]), cs[|cs| - 1])
  }

  /** How many changes of a batch were written. */
  function Accepted(stored: map<Uuid, SyncEntryChange>, cs: seq<SyncEntryChange>): (n: nat)
    ensures n <= |cs|
  {
    if cs == [] then 0
    else Accepted(stored, cs[..|cs| - 1]) + (if Writes(Merge(stored, cs[..|cs| - 1]), cs[|cs| - 1]) then 1 else 0)
  }

  /** The entry ids a batch mentions. */
  function EntryIds(cs: seq<SyncEntryChange>): set<Uuid>
  {
    set i | 0 <= i < |cs| :: cs[i].entryId
  }

  /** A batch adds exactly the entry ids it mentions. */
  lemma {:induction false} MergeKeys(stored: map<Uuid, SyncEntryChange>, cs: seq<SyncEntryChange>)
    ensures Merge(stored, cs).Keys == stored.Keys + EntryIds(cs)
  {
    if cs != [] {
      var init, last := cs[..|cs| - 1], cs[|cs| - 1];
      MergeKeys(stored, init);
      assert EntryIds(cs) == EntryIds(init) + {last.entryId} by {
        forall id | id in EntryIds(cs)
          ensures id in EntryIds(init) + {last.entryId}
        {
          var i :| 0 <= i < |cs| && cs[i].entryId == id;
          if i < |cs| - 1 {
            assert init[i] == cs[i];
          }
        }
        forall id | id in EntryIds(init)
          ensures id in EntryIds(cs)
        {
          var i :| 0 <= i < |init| && init[i].entryId == id;
          assert cs[i] == init[i];
        }
      }
    }
  }

  lemma {:induction false} MergeFiled(stored: map<Uuid, SyncEntryChange>, cs: seq<SyncEntryChange>)
    requires Filed(stored)
    ensures Filed(Merge(stored, cs))
  {
    if cs != [] {
      MergeFiled(stored, cs[..|cs| - 1]);
    }
  }

  /**
   * A stored copy is never replaced by an older one: after a batch, the old
   * copy of every entry does not supersede the new one, so in particular
   * the stored version never decreases.
   */
  lemma {:induction false} MergeNeverRegresses(stored: map<Uuid, SyncEntryChange>, cs: seq<SyncEntryChange>, id: Uuid)
    requires id in stored
    ensures id in Merge(stored, cs)
    ensures !Newer(StampOf(stored[id]), StampOf(Merge(stored, cs)[id]))
    ensures Merge(stored, cs)[id].version >= stored[id].version
  {
    if cs != [] {
      var init := cs[..|cs| - 1];
      var c := cs[|cs| - 1];
      MergeNeverRegresses(stored, init, id);
      var mid := Merge(stored, init);
      if Writes(mid, c) && c.entryId == id {
        NotNewerPreserved(StampOf(mid[id]), StampOf(c), StampOf(stored[id]));
      }
    }
  }

  /** After a batch, no change of the batch supersedes what is stored for its entry. */
  lemma {:induction false} MergeSettles(stored: map<Uuid, SyncEntryChange>, cs: seq<SyncEntryChange>)
    ensures forall c :: c in cs ==> c.entryId in Merge(stored, cs) && !ShouldAccept(Merge(stored, cs)[c.entryId], c)
  {
    if cs != [] {
      var init := cs[..|cs| - 1];
      var last := cs[|cs| - 1];
      MergeSettles(stored, init);
      var mid := Merge(stored, init);
      forall c | c in cs
        ensures c.entryId in Merge(stored, cs) && !ShouldAccept(Merge(stored, cs)[c.entryId], c)
      {
        if c == last {
          NewerIrreflexive(StampOf(c));
        } else {
          assert c in init;
          if Writes(mid, last) && last.entryId == c.entryId {
            NotNewerPreserved(StampOf(mid[c.entryId]), StampOf(last), StampOf(c));
          }
        }
      }
    }
  }

  /** A batch that supersedes nothing stored writes nothing. */
  lemma {:induction false} MergeStable(stored: map<Uuid, SyncEntryChange>, cs: seq<SyncEntryChange>)
    requires forall c :: c in cs ==> c.entryId in stored && !ShouldAccept(stored[c.entryId], c)
    ensures Merge(stored, cs) == stored && Accepted(stored, cs) == 0
  {
    if cs != [] {
      MergeStable(stored, cs[..|cs| - 1]);
    }
  }

  /** Applying the same batch twice: the second time writes nothing and changes nothing. */
  lemma MergeIdempotent(stored: map<Uuid, SyncEntryChange>, cs: seq<SyncEntryChange>)
    ensures Merge(Merge(stored, cs), cs) == Merge(stored, cs)
    ensures Accepted(Merge(stored, cs), cs) == 0
  {
    MergeSettles(stored, cs);
    MergeStable(Merge(stored, cs), cs);
  }

  // ---------------------------------------------------------------------
  // Records and the transitions applied to them
  // ---------------------------------------------------------------------

  datatype InviteRecord = InviteRecord(createdAt: DateTime, usedAt: Option<DateTime>, expiresAt: Option<DateTime>)
  datatype UserRecord = UserRecord(createdAt: DateTime, lastSeenAt: Option<DateTime>)
  datatype DeviceRecord = DeviceRecord(userId: Uuid, deviceName: Option<string>, createdAt: DateTime, lastSeenAt: DateTime)

  /** `ensure_user`: an unknown user is created; a known one is never reset. */
  function WithUser(users: map<Uuid, UserRecord>, u: Uuid, now: DateTime): (r: map<Uuid, UserRecord>)
    ensures r.Keys == users.Keys + {u}
    ensures forall v :: v in users ==> r[v] == users[v]
    ensures u !in users ==> r[u] == UserRecord(now, None)
  {
    if u in users then users else users[u := UserRecord(now, None)]
  }

  /** The user's `last_seen_at` is set. */
  function Seen(users: map<Uuid, UserRecord>, u: Uuid, now: DateTime): (r: map<Uuid, UserRecord>)
    requires u in users
    ensures r.Keys == users.Keys
    ensures r[u] == UserRecord(users[u].createdAt, Some(now))
    ensures forall v :: v in users && v != u ==> r[v] == users[v]
  {
    users[u := users[u].(lastSeenAt := Some(now))]
  }

  /** A device name replaces the stored one only when it is non-empty. */
  predicate NameGiven(name: Option<string>)
  {
    name.Some? && name.value != ""
  }

  /** The in-memory `record_device` on the device table: the owner of a known device is kept. */
  function WithDevice(devices: map<string, DeviceRecord>, u: Uuid, id: string, name: Option<string>, now: DateTime)
    : (r: map<string, DeviceRecord>)
    ensures r.Keys == devices.Keys + {id}
    ensures forall d :: d in devices && d != id ==> r[d] == devices[d]
    ensures id !in devices ==> r[id] == DeviceRecord(u, name, now, now)
    ensures id in devices ==>
      r[id] == DeviceRecord(devices[id].userId, if NameGiven(name) then name else devices[id].deviceName,
                            devices[id].createdAt, now)
  {
    if id in devices then
      var existing := devices[id];
      devices[id := existing.(deviceName := if NameGiven(name) then name else existing.deviceName, lastSeenAt := now)]
    else devices[id := DeviceRecord(u, name, now, now)]
  }

  /** The five tables of a store: invites, user tokens, entries, users and devices. */
  type Snapshot = (map<string, InviteRecord>, map<string, Uuid>, map<Uuid, map<Uuid, SyncEntryChange>>,
                   map<Uuid, UserRecord>, map<string, DeviceRecord>)

  /** What `touch_device` alone does to the tables: the device refreshed, its user seen, the rest kept. */
  predicate Touched(before: Snapshot, after: Snapshot, u: Uuid, id: string, now: DateTime)
  {
    after.0 == before.0 && after.1 == before.1 && after.2 == before.2
    && u in WithUser(before.3, u, now) && after.3 == Seen(WithUser(before.3, u, now), u, now)
    && after.4 == WithDevice(before.4, u, id, None, now)
  }

  /** Touching the same device twice at the same time leaves what touching it once leaves. */
  lemma TouchTwice(users: map<Uuid, UserRecord>, devices: map<string, DeviceRecord>, u: Uuid, id: string, now: DateTime)
    ensures u in WithUser(users, u, now)
    ensures var once := Seen(WithUser(users, u, now), u, now);
      u in once && WithUser(once, u, now) == once && Seen(once, u, now) == once
    ensures WithDevice(WithDevice(devices, u, id, None, now), u, id, None, now) == WithDevice(devices, u, id, None, now)
  {
  }

  /** The checks of `consume_invite`, in the order they are made. */
  function InviteCheck(invites: map<string, InviteRecord>, h: string, now: DateTime): (r: Result<()>)
    ensures h !in invites ==> r == Err(InvalidInvite)
    ensures h in invites && invites[h].usedAt.Some? ==> r == Err(UsedInvite)
    ensures r.Ok? <==>
      h in invites && invites[h].usedAt.None?
      && !(invites[h].expiresAt.Some? && Before(invites[h].expiresAt.value, now))
    ensures r.Err? ==> r.error in {InvalidInvite, UsedInvite, ExpiredInvite}
  {
    if h !in invites then Err(InvalidInvite)
    else
      var info := invites[h];
      if info.usedAt.Some? then Err(UsedInvite)
      else if info.expiresAt.Some? && Before(info.expiresAt.value, now) then Err(ExpiredInvite)
      else Ok(())
  }

  /** The invite table after a successful redemption. */
  function Redeemed(invites: map<string, InviteRecord>, h: string, now: DateTime): map<string, InviteRecord>
    requires h in invites
  {
    invites[h := invites[h].(usedAt := Some(now))]
  }

  /** A redeemed invite is refused from then on, at any time. */
  lemma RedeemedInviteRefused(invites: map<string, InviteRecord>, h: string, now: DateTime, later: DateTime)
    requires InviteCheck(invites, h, now).Ok?
    ensures InviteCheck(Redeemed(invites, h, now), h, later) == Err(UsedInvite)
  {
  }

  /** The invite tokens listed in `VAULT_INVITE_TOKENS`: comma-separated, blanks dropped. */
  function InviteTokens(raw: string): seq<string>
  {
    NonBlank(Split(raw, ','))
  }

  function NonBlank(pieces: seq<string>): seq<string>
  {
    if pieces == [] then []
    else (if Strip(pieces[0]) != "" then [Strip(pieces[0])] else []) + NonBlank(pieces[1..])
  }

  /** Every kept piece is a non-blank stripped piece. */
  lemma {:induction false} NonBlankSound(pieces: seq<string>)
    ensures forall t :: t in NonBlank(pieces) ==> t != "" && (exists piece :: piece in pieces && t == Strip(piece))
  {
    if pieces != [] {
      var rest := NonBlank(pieces[1..]);
      NonBlankSound(pieces[1..]);
      forall t | t in NonBlank(pieces)
        ensures t != "" && (exists piece :: piece in pieces && t == Strip(piece))
      {
        if t in rest {
          var piece :| piece in pieces[1..] && t == Strip(piece);
          assert piece in pieces;
        } else {
          assert t == Strip(pieces[0]);
        }
      }
    }
  }

  /** Every non-blank piece is kept, stripped. */
  lemma {:induction false} NonBlankComplete(pieces: seq<string>)
    ensures forall piece :: piece in pieces && Strip(piece) != "" ==> Strip(piece) in NonBlank(pieces)
  {
    if pieces != [] {
      NonBlankComplete(pieces[1..]);
      forall piece | piece in pieces && Strip(piece) != ""
        ensures Strip(piece) in NonBlank(pieces)
      {
        if piece != pieces[0] {
          assert piece in pieces[1..];
        }
      }
    }
  }

  /** Every invite token is a non-blank, stripped comma-separated piece, and every such piece is one. */
  lemma InviteTokensSpec(raw: string)
    ensures forall t :: t in InviteTokens(raw) ==> t != "" && (exists piece :: piece in Split(raw, ',') && t == Strip(piece))
    ensures forall piece :: piece in Split(raw, ',') && Strip(piece) != "" ==> Strip(piece) in InviteTokens(raw)
  {
    NonBlankSound(Split(raw, ','));
    NonBlankComplete(Split(raw, ','));
  }

  /** The invite table after registering the hashes of `tokens` in turn: known hashes are never reset. */
  function Registered(p: Prims, invites: map<string, InviteRecord>, tokens: seq<string>, now: DateTime)
    : map<string, InviteRecord>
  {
    if tokens == [] then invites
    else
      var before := Registered(p, invites, tokens[..|tokens| - 1], now);
      var h := HashToken(p, tokens[|tokens| - 1]);
      if h in before then before else before[h := InviteRecord(now, None, None)]
  }

  /**
   * Registering adds exactly the hashes of the tokens, as unused invites
   * without an expiry dated `now`, and leaves every known invite as it was.
   */
  lemma {:induction false} RegisteredSpec(p: Prims, invites: map<string, InviteRecord>, tokens: seq<string>, now: DateTime)
    ensures Registered(p, invites, tokens, now).Keys == invites.Keys + (set t | t in tokens :: HashToken(p, t))
    ensures forall h :: h in invites ==> Registered(p, invites, tokens, now)[h] == invites[h]
    ensures forall h :: h in Registered(p, invites, tokens, now) && h !in invites ==>
      Registered(p, invites, tokens, now)[h] == InviteRecord(now, None, None)
  {
    if tokens != [] {
      var init := tokens[..|tokens| - 1];
      RegisteredSpec(p, invites, init, now);
      assert tokens == init + [tokens[|tokens| - 1]];
      assert (set t | t in tokens :: HashToken(p, t))
        == (set t | t in init :: HashToken(p, t)) + {HashToken(p, tokens[|tokens| - 1])};
    }
  }

  /** The entries of one user, empty when the user has none. */
  function UserEntries(entries: map<Uuid, map<Uuid, SyncEntryChange>>, u: Uuid): map<Uuid, SyncEntryChange>
  {
    if u in entries then entries[u] else map[]
  }

  /** A change is pulled when no cursor is given or it was updated strictly after it. */
  predicate UpdatedAfter(c: SyncEntryChange, since: Option<DateTime>)
  {
    since.None? || Before(since.value, c.updatedAt)
  }

  // ---------------------------------------------------------------------
  // Administrative listings
  // ---------------------------------------------------------------------

  /** Optional timestamps are listed as ISO text, or null when unset. */
  function OptIso(p: Prims, t: Option<DateTime>): Json
  {
    if t.Some? then JStr(p.isoFormat(t.value)) else JNull
  }

  /** The number of devices registered to a user. */
  function DeviceCount(devices: map<string, DeviceRecord>, u: Uuid): nat
  {
    |set d | d in devices && devices[d].userId == u|
  }

  /** A row of `list_users`. */
  function UserRow(p: Prims, u: Uuid, info: UserRecord, deviceCount: int, entryCount: int): Json
  {
    JObj(map[
      "user_id" := JStr(UuidText.Format(u)),
      "created_at" := JStr(p.isoFormat(info.createdAt)),
      "last_seen_at" := OptIso(p, info.lastSeenAt),
      "device_count" := JInt(deviceCount),
      "entry_count" := JInt(entryCount)])
  }

  /** A row of `list_devices`. */
  function DeviceRow(p: Prims, id: string, info: DeviceRecord): Json
  {
    JObj(map[
      "device_id" := JStr(id),
      "user_id" := JStr(UuidText.Format(info.userId)),
      "device_name" := if info.deviceName.Some? then JStr(info.deviceName.value) else JNull,
      "created_at" := JStr(p.isoFormat(info.createdAt)),
      "last_seen_at" := JStr(p.isoFormat(info.lastSeenAt))])
  }

  /** A row of `list_invites`: the token itself is never listed, only its hash. */
  function InviteRow(p: Prims, h: string, info: InviteRecord): Json
  {
    JObj(map[
      "token_hash" := JStr(h),
      "created_at" := JStr(p.isoFormat(info.createdAt)),
      "used_at" := OptIso(p, info.usedAt),
      "expires_at" := OptIso(p, info.expiresAt)])
  }

  /** The (user, entry id) pairs stored for the users in `us`. */
  function StoredPairs(m: map<Uuid, map<Uuid, SyncEntryChange>>, us: set<Uuid>): set<(Uuid, Uuid)>
  {
    set u, id | u in m && u in us && id in m[u] :: (u, id)
  }

  lemma {:induction false} TaggedCard(u: Uuid, s: set<Uuid>)
    ensures |set id | id in s :: (u, id)| == |s|
    decreases |s|
  {
    if s != {} {
      var x :| x in s;
      TaggedCard(u, s - {x});
      assert (set id | id in s :: (u, id)) == (set id | id in s - {x} :: (u, id)) + {(u, x)};
    }
  }

  /** Counting one more user adds exactly that user's entries. */
  lemma StoredPairsAdd(m: map<Uuid, map<Uuid, SyncEntryChange>>, us: set<Uuid>, u: Uuid)
    requires u in m && u !in us
    ensures |StoredPairs(m, us + {u})| == |StoredPairs(m, us)| + |m[u]|
  {
    var tagged := set id | id in m[u] :: (u, id);
    assert StoredPairs(m, us + {u}) == StoredPairs(m, us) + tagged;
    assert StoredPairs(m, us) * tagged == {};
    TaggedCard(u, m[u].Keys);
  }

  /** Keys listed from the greatest text to the smallest. */
  predicate SortedDesc(xs: seq<string>, key: map<string, string>)
    requires forall x :: x in xs ==> x in key
  {
    forall i, j :: 0 <= i < j < |xs| ==> !LexLess(key[xs[i]], key[xs[j]])
  }

  /** Inserts `x` before the first key smaller than its own. */
  function InsertDesc(xs: seq<string>, x: string, key: map<string, string>): (r: seq<string>)
    requires x in key && forall y :: y in xs ==> y in key
    ensures multiset(r) == multiset(xs) + multiset{x}
    ensures forall y :: y in r ==> y == x || y in xs
  {
    if xs == [] then [x]
    else if !LexLess(key[x], key[xs[0]]) then [x] + xs
    else
      assert xs == [xs[0]] + xs[1..];
      [xs[0]] + InsertDesc(xs[1..], x, key)
  }

  /** Insertion keeps the keys in descending order. */
  lemma {:induction false} InsertDescSorted(xs: seq<string>, x: string, key: map<string, string>)
    requires x in key && forall y :: y in xs ==> y in key
    requires SortedDesc(xs, key)
    ensures SortedDesc(InsertDesc(xs, x, key), key)
  {
    if xs == [] {
    } else if !LexLess(key[x], key[xs[0]]) {
      forall j | 0 < j < |xs|
        ensures !LexLess(key[x], key[xs[j]])
      {
        LexNotLessTransitive(key[x], key[xs[0]], key[xs[j]]);
      }
    } else {
      var rest := InsertDesc(xs[1..], x, key);
      InsertDescSorted(xs[1..], x, key);
      LexLessAsymmetric(key[x], key[xs[0]]);
      assert forall y :: y in rest ==> !LexLess(key[xs[0]], key[y]);
    }
  }

  /** The sort key of `list_invites`: the row's `created_at`, or "" when it has none. */
  function CreatedKey(row: Json): string
  {
    var v := Get(row, "created_at");
    if v.JStr? then v.s else ""
  }

  /** The `created_at` text of an invite row, which is always present. */
  lemma CreatedKeyOfRow(p: Prims, h: string, info: InviteRecord)
    ensures CreatedKey(InviteRow(p, h, info)) == p.isoFormat(info.createdAt)
  {
  }

  /** A `for key, info in m.items()` loop collecting one row per key, in some order. */
  method ListRows<K, V, R>(m: map<K, V>, row: (K, V) -> R) returns (rows: seq<R>, ghost ids: seq<K>)
    ensures |rows| == |ids| == |m|
    ensures forall i :: 0 <= i < |ids| ==> ids[i] in m && rows[i] == row(ids[i], m[ids[i]])
    ensures forall k :: k in m ==> k in ids
    ensures forall i, j :: 0 <= i < j < |ids| ==> ids[i] != ids[j]
  {
    rows, ids := [], [];
    var remaining := m.Keys;
    while remaining != {}
      invariant remaining <= m.Keys
      invariant |rows| == |ids| && |ids| + |remaining| == |m|
      invariant forall i :: 0 <= i < |ids| ==> ids[i] in m && ids[i] !in remaining
      invariant forall i :: 0 <= i < |ids| ==> rows[i] == row(ids[i], m[ids[i]])
      invariant forall k :: k in m && k !in remaining ==> k in ids
      invariant forall i, j :: 0 <= i < j < |ids| ==> ids[i] != ids[j]
      decreases |remaining|
    {
      var k :| k in remaining;
      rows := rows + [row(k, m[k])];
      ids := ids + [k];
      remaining := remaining - {k};
    }
  }

  /** One row per key of `ks`, in the order of `ks`. */
  method MapSeq<K, R>(ks: seq<K>, row: K --> R) returns (rows: seq<R>)
    requires forall i :: 0 <= i < |ks| ==> row.requires(ks[i])
    ensures |rows| == |ks|
    ensures forall i :: 0 <= i < |ks| ==> rows[i] == row(ks[i])
  {
    rows := [];
    for i := 0 to |ks|
      invariant |rows| == i
      invariant forall j :: 0 <= j < i ==> rows[j] == row(ks[j])
    {
      rows := rows + [row(ks[i])];
    }
  }

  // ---------------------------------------------------------------------
  // The in-memory backend
  // ---------------------------------------------------------------------

  class InMemoryVaultStore {
    var invites: map<string, InviteRecord>
    var userTokens: map<string, Uuid>
    var entries: map<Uuid, map<Uuid, SyncEntryChange>>
    var users: map<Uuid, UserRecord>
    var devices: map<string, DeviceRecord>

    /** Every user's entries are filed under their own ids. */
    ghost predicate Valid()
      reads this
    {
      forall u :: u in entries ==> Filed(entries[u])
    }

    /** All five tables, for stating that an operation changed nothing. */
    ghost function Tables(): Snapshot
      reads this
    {
      (invites, userTokens, entries, users, devices)
    }

    constructor()
      ensures Valid()
      ensures invites == map[] && userTokens == map[] && entries == map[] && users == map[] && devices == map[]
    {
      invites := map[];
      userTokens := map[];
      entries := map[];
      users := map[];
      devices := map[];
    }

    /** Registers every listed invite token not yet known; known ones keep their record. */
    method LoadInvitesFromEnv(p: Prims, raw: string, now: DateTime)
      modifies this
      ensures invites == Registered(p, old(invites), InviteTokens(raw), now)
      ensures userTokens == old(userTokens) && entries == old(entries)
      ensures users == old(users) && devices == old(devices)
    {
      var tokens := InviteTokens(raw);
      RegisterTokens(p, tokens, now);
    }

    method RegisterTokens(p: Prims, tokens: seq<string>, now: DateTime)
      modifies this
      ensures invites == Registered(p, old(invites), tokens, now)
      ensures userTokens == old(userTokens) && entries == old(entries)
      ensures users == old(users) && devices == old(devices)
    {
      invites := RegisterAll(p, invites, tokens, now);
    }

    /** The loop of `load_invites_from_env` over the tokens. */
    static method RegisterAll(p: Prims, start: map<string, InviteRecord>, tokens: seq<string>, now: DateTime)
      returns (invites: map<string, InviteRecord>)
      ensures invites == Registered(p, start, tokens, now)
    {
      invites := start;
      var i := 0;
      while i < |tokens|
        invariant 0 <= i <= |tokens|
        invariant invites == Registered(p, start, tokens[..i], now)
      {
        assert tokens[..i + 1][..i] == tokens[..i];
        var h := HashToken(p, tokens[i]);
        if h !in invites {
          invites := invites[h := InviteRecord(now, None, None)];
        }
        i := i + 1;
      }
      assert tokens[..i] == tokens;
    }

    method EnsureUser(u: Uuid, now: DateTime)
      modifies this
      ensures users == WithUser(old(users), u, now)
      ensures invites == old(invites) && userTokens == old(userTokens)
      ensures entries == old(entries) && devices == old(devices)
    {
      if u !in users {
        users := users[u := UserRecord(now, None)];
      }
    }

    /** Creates the device or refreshes it, and marks the user as seen. */
    method RecordDevice(u: Uuid, deviceId: string, deviceName: Option<string>, now: DateTime)
      modifies this
      ensures devices == WithDevice(old(devices), u, deviceId, deviceName, now)
      ensures u in WithUser(old(users), u, now) && users == Seen(WithUser(old(users), u, now), u, now)
      ensures invites == old(invites) && userTokens == old(userTokens) && entries == old(entries)
    {
      EnsureUser(u, now);
      if deviceId in devices {
        var existing := devices[deviceId];
        if NameGiven(deviceName) {
          existing := existing.(deviceName := deviceName);
        }
        devices := devices[deviceId := existing.(lastSeenAt := now)];
      } else {
        devices := devices[deviceId := DeviceRecord(u, deviceName, now, now)];
      }
      users := users[u := users[u].(lastSeenAt := Some(now))];
    }

    /** Refreshes a device without ever renaming it. */
    method TouchDevice(u: Uuid, deviceId: string, now: DateTime)
      modifies this
      ensures devices == WithDevice(old(devices), u, deviceId, None, now)
      ensures deviceId in old(devices) ==> devices[deviceId].deviceName == old(devices)[deviceId].deviceName
      ensures u in WithUser(old(users), u, now) && users == Seen(WithUser(old(users), u, now), u, now)
      ensures invites == old(invites) && userTokens == old(userTokens) && entries == old(entries)
    {
      RecordDevice(u, deviceId, None, now);
    }

    /** Redeems an invite token: refused if unknown, used or expired; otherwise marked used. */
    method ConsumeInvite(p: Prims, inviteToken: string, now: DateTime) returns (r: Result<()>)
      modifies this
      ensures r == InviteCheck(old(invites), HashToken(p, inviteToken), now)
      ensures r.Ok? ==> invites == Redeemed(old(invites), HashToken(p, inviteToken), now)
      ensures r.Err? ==> invites == old(invites)
      ensures userTokens == old(userTokens) && entries == old(entries)
      ensures users == old(users) && devices == old(devices)
    {
      var h := HashToken(p, inviteToken);
      if h !in invites {
        return Err(InvalidInvite);
      }
      var info := invites[h];
      if info.usedAt.Some? {
        return Err(UsedInvite);
      }
      if info.expiresAt.Some? && Before(info.expiresAt.value, now) {
        return Err(ExpiredInvite);
      }
      invites := invites[h := info.(usedAt := Some(now))];
      r := Ok(());
    }

    /** The user a token was issued to. */
    function Authenticate(p: Prims, userToken: string): (r: Result<Uuid>)
      reads this
      ensures r.Ok? <==> HashToken(p, userToken) in userTokens
      ensures r.Ok? ==> r.value == userTokens[HashToken(p, userToken)]
      ensures r.Err? ==> r.error == InvalidUserToken
    {
      var h := HashToken(p, userToken);
      if h in userTokens then Ok(userTokens[h]) else Err(InvalidUserToken)
    }

    /** Issues a token made of 32 random bytes in hex; it authenticates as `u` from then on. */
    method IssueUserToken(p: Prims, u: Uuid, random: seq<Byte>) returns (token: string)
      requires |random| == 32
      modifies this
      ensures token == UuidText.BytesHex(random) && |token| == 64
      ensures userTokens == old(userTokens)[HashToken(p, token) := u]
      ensures Authenticate(p, token) == Ok(u)
      ensures invites == old(invites) && entries == old(entries)
      ensures users == old(users) && devices == old(devices)
    {
      token := UuidText.BytesHex(random);
      userTokens := userTokens[HashToken(p, token) := u];
    }

    /**
     * Registers the user and the source device, then merges the batch into
     * the user's entries, counting the changes written. Other users'
     * entries are untouched.
     */
    method ApplyChanges(u: Uuid, changes: seq<SyncEntryChange>, sourceDeviceId: string, now: DateTime)
      returns (accepted: int)
      requires Valid()
      modifies this
      ensures Valid()
      ensures entries == old(entries)[u := Merge(UserEntries(old(entries), u), changes)]
      ensures accepted == Accepted(UserEntries(old(entries), u), changes)
      ensures sourceDeviceId == "" ==> users == WithUser(old(users), u, now) && devices == old(devices)
      ensures sourceDeviceId != "" ==>
        u in WithUser(old(users), u, now) && users == Seen(WithUser(old(users), u, now), u, now)
        && devices == WithDevice(old(devices), u, sourceDeviceId, None, now)
      ensures invites == old(invites) && userTokens == old(userTokens)
    {
      EnsureUser(u, now);
      if sourceDeviceId != "" {
        TouchDevice(u, sourceDeviceId, now);
      }
      var start: map<Uuid, SyncEntryChange> := UserEntries(entries, u);
      var merged;
      merged, accepted := MergeBatch(start, changes);
      MergeFiled(start, changes);
      entries := entries[u := merged];
    }

    /** The `apply_changes` loop over one user's entries, with its `accepted` counter. */
    static method MergeBatch(start: map<Uuid, SyncEntryChange>, changes: seq<SyncEntryChange>)
      returns (merged: map<Uuid, SyncEntryChange>, accepted: int)
      ensures merged == Merge(start, changes)
      ensures accepted == Accepted(start, changes)
    {
      accepted := 0;
      merged := start;
      var i := 0;
      while i < |changes|
        invariant 0 <= i <= |changes|
        invariant merged == Merge(start, changes[..i])
        invariant accepted == Accepted(start, changes[..i])
      {
        var change := changes[i];
        assert changes[..i + 1][..i] == changes[..i];
        if Writes(merged, change) {
          merged := merged[change.entryId := change];
          accepted := accepted + 1;
        }
        i := i + 1;
      }
      assert changes[..i] == changes;
    }

    /** The user's entries updated after `since` (all of them without a cursor), each once. */
    method ChangesSince(u: Uuid, since: Option<DateTime>) returns (result: seq<SyncEntryChange>)
      requires Valid()
      ensures forall c :: c in result <==> c in UserEntries(entries, u).Values && UpdatedAfter(c, since)
      ensures forall i, j :: 0 <= i < j < |result| ==> result[i].entryId != result[j].entryId
    {
      var userEntries := UserEntries(entries, u);
      var remaining := userEntries.Keys;
      result := [];
      while remaining != {}
        invariant remaining <= userEntries.Keys
        invariant forall c :: c in result <==>
          c in userEntries.Values && c.entryId !in remaining && UpdatedAfter(c, since)
        invariant forall i, j :: 0 <= i < j < |result| ==> result[i].entryId != result[j].entryId
        invariant forall c :: c in result ==> c.entryId !in remaining
        decreases |remaining|
      {
        var id :| id in remaining;
        var c := userEntries[id];
        if UpdatedAfter(c, since) {
          result := result + [c];
        }
        remaining := remaining - {id};
      }
    }

    /** `create_invite_token`: a fresh URL-safe token from 16 random bytes, redeemable until it expires. */
    method CreateInviteToken(p: Prims, random: seq<Byte>, expiresAt: Option<DateTime>, now: DateTime)
      returns (token: string)
      requires |random| == 16
      modifies this
      ensures token == RStripChar(p.b64UrlEncode(random), '=')
      ensures invites == old(invites)[HashToken(p, token) := InviteRecord(now, None, expiresAt)]
      ensures InviteCheck(invites, HashToken(p, token), now).Ok? <==> !(expiresAt.Some? && Before(expiresAt.value, now))
      ensures p.TextLaws() ==> forall i :: 0 <= i < |token| ==> IsUrlSafeChar(token[i])
      ensures userTokens == old(userTokens) && entries == old(entries)
      ensures users == old(users) && devices == old(devices)
    {
      token := RStripChar(p.b64UrlEncode(random), '=');
      invites := invites[HashToken(p, token) := InviteRecord(now, None, expiresAt)];
    }

    /** `count_entries`: the number of (user, entry) pairs stored. */
    method CountEntries() returns (n: int)
      ensures n == |StoredPairs(entries, entries.Keys)|
    {
      n := 0;
      var remaining := entries.Keys;
      while remaining != {}
        invariant remaining <= entries.Keys
        invariant n == |StoredPairs(entries, entries.Keys - remaining)|
        decreases |remaining|
      {
        var u :| u in remaining;
        StoredPairsAdd(entries, entries.Keys - remaining, u);
        assert entries.Keys - (remaining - {u}) == (entries.Keys - remaining) + {u};
        n := n + |entries[u]|;
        remaining := remaining - {u};
      }
      assert entries.Keys - remaining == entries.Keys;
    }

    /** `rows` lists every user once, `ids[i]` in `rows[i]`, with its device and entry counts. */
    ghost predicate UserListing(p: Prims, rows: seq<Json>, ids: seq<Uuid>)
      reads this
    {
      && |rows| == |ids| == |users|
      && (forall i :: 0 <= i < |ids| ==> ids[i] in users)
      && (forall i :: 0 <= i < |ids| ==>
            rows[i] == UserRow(p, ids[i], users[ids[i]], DeviceCount(devices, ids[i]), |UserEntries(entries, ids[i])|))
      && (forall u :: u in users ==> u in ids)
      && (forall i, j :: 0 <= i < j < |ids| ==> ids[i] != ids[j])
    }

    /** `rows` lists every device once, `ids[i]` in `rows[i]`. */
    ghost predicate DeviceListing(p: Prims, rows: seq<Json>, ids: seq<string>)
      reads this
    {
      && |rows| == |ids| == |devices|
      && (forall i :: 0 <= i < |ids| ==> ids[i] in devices && rows[i] == DeviceRow(p, ids[i], devices[ids[i]]))
      && (forall id :: id in devices ==> id in ids)
      && (forall i, j :: 0 <= i < j < |ids| ==> ids[i] != ids[j])
    }

    /** `rows` lists every invite, `hashes[i]` in `rows[i]`, newest `created_at` text first. */
    ghost predicate InviteListing(p: Prims, rows: seq<Json>, hashes: seq<string>)
      reads this
    {
      && |rows| == |hashes| == |invites|
      && (forall i :: 0 <= i < |hashes| ==> hashes[i] in invites && rows[i] == InviteRow(p, hashes[i], invites[hashes[i]]))
      && (forall h :: h in invites ==> h in hashes)
      && (forall i, j :: 0 <= i < j < |rows| ==> !LexLess(CreatedKey(rows[i]), CreatedKey(rows[j])))
    }

    /**
     * `list_users`: one row per user with its device and entry counts;
     * `ids[i]` is the user listed in `rows[i]`, and every user is listed once.
     */
    method ListUsers(p: Prims) returns (rows: seq<Json>, ghost ids: seq<Uuid>)
      ensures UserListing(p, rows, ids)
    {
      var ds, es := devices, entries;
      rows, ids := ListRows(users, (u, info) => UserRow(p, u, info, DeviceCount(ds, u), |UserEntries(es, u)|));
    }

    /** `list_devices`: one row per device; `ids[i]` is the device listed in `rows[i]`. */
    method ListDevices(p: Prims) returns (rows: seq<Json>, ghost ids: seq<string>)
      ensures DeviceListing(p, rows, ids)
    {
      rows, ids := ListRows(devices, (id, info) => DeviceRow(p, id, info));
    }

    /**
     * `list_invites`: one row per invite, from the greatest `created_at` text
     * to the smallest; `hashes[i]` is the invite listed in `rows[i]`.
     */
    method ListInvites(p: Prims) returns (rows: seq<Json>, hashes: seq<string>)
      ensures InviteListing(p, rows, hashes)
    {
      var inv := invites;
      var key := map h | h in inv :: p.isoFormat(inv[h].createdAt);
      hashes := SortDesc(inv.Keys, key);
      rows := MapSeq(hashes, h requires h in inv => InviteRow(p, h, inv[h]));
      forall i, j | 0 <= i < j < |rows|
        ensures !LexLess(CreatedKey(rows[i]), CreatedKey(rows[j]))
      {
        CreatedKeyOfRow(p, hashes[i], inv[hashes[i]]);
        CreatedKeyOfRow(p, hashes[j], inv[hashes[j]]);
      }
    }

    /** The insertion sort of `list_invites`, over the invite hashes and their `created_at` texts. */
    static method SortDesc(keys: set<string>, key: map<string, string>) returns (sorted: seq<string>)
      requires keys <= key.Keys
      ensures multiset(sorted) == multiset(keys)
      ensures |sorted| == |keys| && forall k :: k in keys <==> k in sorted
      ensures forall h :: h in sorted ==> h in key
      ensures SortedDesc(sorted, key)
    {
      sorted := [];
      var remaining := keys;
      while remaining != {}
        invariant remaining <= keys
        invariant forall h :: h in sorted ==> h in key
        invariant SortedDesc(sorted, key)
        invariant multiset(sorted) == multiset(keys - remaining)
        decreases |remaining|
      {
        var h :| h in remaining;
        InsertDescSorted(sorted, h, key);
        sorted := InsertDesc(sorted, h, key);
        assert keys - (remaining - {h}) == (keys - remaining) + {h};
        remaining := remaining - {h};
      }
      assert keys - remaining == keys;
      assert |multiset(sorted)| == |multiset(keys)|;
      forall k
        ensures k in keys <==> k in sorted
      {
        assert k in keys <==> k in multiset(keys);
        assert k in sorted <==> k in multiset(sorted);
      }
    }
  }
}
