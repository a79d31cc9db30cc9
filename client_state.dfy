// The desktop application's state object: the active profile, the entry
// lists it hands out, profile edits and the merge of entries pulled from the
// vault. Saving to disk and notifying listeners are left out; a fresh id for
// a default profile and the current time are parameters.

module ClientState {
  import opened Common
  import opened Models
  import Lww
  import SyncModels
  import opened LocalStore

  /** `_should_accept`: the client's copy of the last-writer-wins rule. */
  predicate ShouldAccept(existing: MeasurementEntry, incoming: MeasurementEntry)
    ensures ShouldAccept(existing, incoming) <==> Lww.Newer(StampOf(incoming), StampOf(existing))
  {
    if incoming.version > existing.version then true
    else if incoming.version < existing.version then false
    else Before(existing.updatedAt, incoming.updatedAt)
  }

  // ---------------------------------------------------------------------
  // Queries
  // ---------------------------------------------------------------------

  /** `[entry for entry in entries if entry.user_id == u]`. */
  function EntriesOf(es: seq<MeasurementEntry>, u: Uuid): (r: seq<MeasurementEntry>)
    ensures forall e :: e in r <==> e in es && e.userId == u
    ensures multiset(r) <= multiset(es)
  {
    if es == [] then []
    else
      var rest := EntriesOf(es[..|es| - 1], u);
      assert es == es[..|es| - 1] + [es[|es| - 1]];
      if es[|es| - 1].userId == u then rest + [es[|es| - 1]] else rest
  }

  /** The entries of `entries_since`: the user's, updated strictly after `since` when it is given. */
  function ChangedSince(es: seq<MeasurementEntry>, u: Uuid, since: Option<DateTime>): (r: seq<MeasurementEntry>)
    ensures forall e :: e in r <==> e in es && e.userId == u && (since.None? || Before(since.value, e.updatedAt))
    ensures multiset(r) <= multiset(es)
  {
    if es == [] then []
    else
      var rest := ChangedSince(es[..|es| - 1], u, since);
      var e := es[|es| - 1];
      assert es == es[..|es| - 1] + [e];
      if e.userId == u && (since.None? || Before(since.value, e.updatedAt)) then rest + [e] else rest
  }

  /** Without a cursor, `entries_since` hands out exactly the user's entries, in the same order. */
  lemma {:induction false} ChangedSinceAll(es: seq<MeasurementEntry>, u: Uuid)
    ensures ChangedSince(es, u, None) == EntriesOf(es, u)
  {
    if es != [] {
      ChangedSinceAll(es[..|es| - 1], u);
    }
  }

  /** The index of the first profile with the id, where `update_profile` writes. */
  function FirstProfile(ps: seq<UserProfile>, id: Uuid): (r: Option<nat>)
    ensures r.None? <==> forall j :: 0 <= j < |ps| ==> ps[j].userId != id
    ensures r.Some? ==> r.value < |ps| && ps[r.value].userId == id
                        && forall j :: 0 <= j < r.value ==> ps[j].userId != id
  {
    if ps == [] then None
    else if ps[0].userId == id then Some(0)
    else match FirstProfile(ps[1..], id)
      case None => None
      case Some(k) => Some(k + 1)
  }

  /** `_profile_by_id`: the first profile with the id. */
  function ProfileById(ps: seq<UserProfile>, id: Uuid): (r: Option<UserProfile>)
    ensures r.None? <==> forall j :: 0 <= j < |ps| ==> ps[j].userId != id
    ensures r.Some? ==> r.value in ps && r.value.userId == id
  {
    match FirstProfile(ps, id)
    case Some(k) => Some(ps[k])
    case None => None
  }

  /** The profile list after `update_profile`: the first profile with the id replaced, or the profile appended. */
  function Upserted(ps: seq<UserProfile>, profile: UserProfile): (r: seq<UserProfile>)
  {
    match FirstProfile(ps, profile.userId)
    case Some(k) => ps[k := profile]
    case None => ps + [profile]
  }

  /**
   * After `update_profile` the id looks up the new profile, no other position
   * changes, and the list grows only when the id was new.
   */
  lemma UpsertedFinds(ps: seq<UserProfile>, profile: UserProfile)
    ensures ProfileById(Upserted(ps, profile), profile.userId) == Some(profile)
    ensures |Upserted(ps, profile)| == if ProfileById(ps, profile.userId).Some? then |ps| else |ps| + 1
    ensures forall j :: 0 <= j < |ps| && ps[j].userId != profile.userId ==> Upserted(ps, profile)[j] == ps[j]
  {
    var r := Upserted(ps, profile);
    match FirstProfile(ps, profile.userId)
    case Some(k) =>
      assert forall j :: 0 <= j < k ==> r[j].userId != profile.userId;
      ProfileByIdAt(r, k);
    case None =>
      assert forall j :: 0 <= j < |ps| ==> r[j].userId != profile.userId;
      ProfileByIdAt(r, |ps|);
  }

  /** The profile at the first position with its id is the one found. */
  lemma ProfileByIdAt(ps: seq<UserProfile>, k: nat)
    requires k < |ps| && forall j :: 0 <= j < k ==> ps[j].userId != ps[k].userId
    ensures ProfileById(ps, ps[k].userId) == Some(ps[k])
  {
    var i := FirstProfile(ps, ps[k].userId).value;
    assert !(i < k) && !(k < i);
  }

  // ---------------------------------------------------------------------
  // Merging pulled changes
  // ---------------------------------------------------------------------

  /**
   * One iteration of `apply_remote_changes` on the entry list: another user's
   * record is skipped; a known id is replaced where it stands when the
   * incoming copy is newer; an unknown id is appended. The flag says whether
   * the list was written.
   */
  function ApplyOne(es: seq<MeasurementEntry>, e: MeasurementEntry, u: Uuid): (r: (seq<MeasurementEntry>, bool))
    ensures !r.1 ==> r.0 == es
    ensures |r.0| == if r.1 && FirstWithId(es, e.entryId).None? then |es| + 1 else |es|
    ensures forall j :: 0 <= j < |es| ==> r.0[j].entryId == es[j].entryId
    ensures forall j :: 0 <= j < |es| ==> r.0[j] == es[j] || (r.1 && r.0[j] == e)
    ensures r.1 ==> e.userId == u
  {
    if e.userId != u then (es, false)
    else match FirstWithId(es, e.entryId)
      case Some(k) => if ShouldAccept(es[k], e) then (es[k := e], true) else (es, false)
      case None => (es + [e], true)
  }

  /** The entry list after a batch of changes, and how many of them were written. */
  function ApplyAll(es: seq<MeasurementEntry>, cs: seq<SyncModels.SyncEntryChange>, u: Uuid)
    : (r: (seq<MeasurementEntry>, nat))
    ensures r.1 <= |cs|
  {
    if cs == [] then (es, 0)
    else
      var prev := ApplyAll(es, cs[..|cs| - 1], u);
      var step := ApplyOne(prev.0, SyncModels.ToEntry(cs[|cs| - 1]), u);
      (step.0, prev.1 + if step.1 then 1 else 0)
  }

  /**
   * The list only grows: every stored position keeps its entry id, and each
   * position either keeps its record or holds a record of the merged user.
   */
  lemma {:induction false} ApplyAllKeepsPositions(es: seq<MeasurementEntry>, cs: seq<SyncModels.SyncEntryChange>, u: Uuid)
    ensures |ApplyAll(es, cs, u).0| >= |es|
    ensures forall j :: 0 <= j < |es| ==> ApplyAll(es, cs, u).0[j].entryId == es[j].entryId
    ensures forall j :: 0 <= j < |es| ==> ApplyAll(es, cs, u).0[j] == es[j] || ApplyAll(es, cs, u).0[j].userId == u
  {
    if cs != [] {
      ApplyAllKeepsPositions(es, cs[..|cs| - 1], u);
    }
  }

  /**
   * Appended records carry ids that were not stored before, no two the
   * same, so the list grows by at most the number of new ids.
   */
  lemma {:induction false} ApplyAllAppendsNewIds(es: seq<MeasurementEntry>, cs: seq<SyncModels.SyncEntryChange>, u: Uuid)
    ensures var r := ApplyAll(es, cs, u).0;
            |r| >= |es|
            && (forall j :: |es| <= j < |r| ==> FirstWithId(es, r[j].entryId).None? && r[j].userId == u)
            && (forall i, j :: |es| <= i < j < |r| ==> r[i].entryId != r[j].entryId)
  {
    if cs != [] {
      ApplyAllAppendsNewIds(es, cs[..|cs| - 1], u);
      ApplyAllKeepsPositions(es, cs[..|cs| - 1], u);
      var prev := ApplyAll(es, cs[..|cs| - 1], u).0;
      var e := SyncModels.ToEntry(cs[|cs| - 1]);
      var r := ApplyAll(es, cs, u).0;
      if |r| > |prev| {
        assert r == prev + [e] && FirstWithId(prev, e.entryId).None?;
        assert forall j :: 0 <= j < |es| ==> es[j].entryId == prev[j].entryId;
      }
    }
  }

  /** A change that a list has absorbed: another user's, or known and not newer than the stored copy. */
  predicate Absorbed(es: seq<MeasurementEntry>, e: MeasurementEntry, u: Uuid)
  {
    e.userId != u || (FirstWithId(es, e.entryId).Some? && !ShouldAccept(es[FirstWithId(es, e.entryId).value], e))
  }

  /** Lists with the same id at every position find the same first position for every id. */
  lemma FirstWithIdSameIds(xs: seq<MeasurementEntry>, ys: seq<MeasurementEntry>, id: Uuid)
    requires |xs| == |ys| && forall j :: 0 <= j < |xs| ==> xs[j].entryId == ys[j].entryId
    ensures FirstWithId(xs, id) == FirstWithId(ys, id)
  {
    var a := FirstWithId(xs, id);
    if a.Some? {
      assert ys[a.value].entryId == id;
      var b := FirstWithId(ys, id).value;
      assert xs[b].entryId == id;
      assert !(b < a.value) && !(a.value < b);
    }
  }

  lemma FirstWithIdAfterReplace(es: seq<MeasurementEntry>, k: nat, e: MeasurementEntry, id: Uuid)
    requires k < |es| && e.entryId == es[k].entryId
    ensures FirstWithId(es[k := e], id) == FirstWithId(es, id)
  {
    FirstWithIdSameIds(es[k := e], es, id);
  }

  lemma FirstWithIdAfterAppend(es: seq<MeasurementEntry>, e: MeasurementEntry, id: Uuid)
    requires FirstWithId(es, id).Some?
    ensures FirstWithId(es + [e], id) == FirstWithId(es, id)
  {
    var b := FirstWithId(es, id).value;
    assert (es + [e])[b].entryId == id;
    assert forall j :: 0 <= j < b ==> (es + [e])[j].entryId != id;
    var a := FirstWithId(es + [e], id).value;
    assert !(a < b) && !(b < a);
  }

  /** A record is absorbed by the list its own merge step produced. */
  lemma ApplyOneAbsorbs(es: seq<MeasurementEntry>, e: MeasurementEntry, u: Uuid)
    ensures Absorbed(ApplyOne(es, e, u).0, e, u)
  {
    if e.userId == u {
      match FirstWithId(es, e.entryId)
      case Some(k) =>
        if ShouldAccept(es[k], e) {
          FirstWithIdAfterReplace(es, k, e, e.entryId);
          Lww.NewerIrreflexive(StampOf(e));
        }
      case None =>
        var r := es + [e];
        assert r[|es|].entryId == e.entryId;
        assert forall j :: 0 <= j < |es| ==> r[j].entryId != e.entryId;
        Lww.NewerIrreflexive(StampOf(e));
    }
  }

  /** Later merge steps keep a record absorbed: a replacement is always by a newer copy. */
  lemma ApplyOneKeepsAbsorbed(es: seq<MeasurementEntry>, e: MeasurementEntry, c: MeasurementEntry, u: Uuid)
    requires Absorbed(es, c, u)
    ensures Absorbed(ApplyOne(es, e, u).0, c, u)
  {
    if c.userId == u && e.userId == u {
      var k := FirstWithId(es, c.entryId).value;
      match FirstWithId(es, e.entryId)
      case Some(i) =>
        if ShouldAccept(es[i], e) {
          FirstWithIdAfterReplace(es, i, e, c.entryId);
          if i == k {
            Lww.NotNewerPreserved(StampOf(es[k]), StampOf(e), StampOf(c));
          }
        }
      case None =>
        FirstWithIdAfterAppend(es, e, c.entryId);
        assert (es + [e])[k] == es[k];
    }
  }

  lemma {:induction false} ApplyAllAbsorbs(es: seq<MeasurementEntry>, cs: seq<SyncModels.SyncEntryChange>, u: Uuid)
    ensures forall i :: 0 <= i < |cs| ==> Absorbed(ApplyAll(es, cs, u).0, SyncModels.ToEntry(cs[i]), u)
  {
    if cs != [] {
      var init := cs[..|cs| - 1];
      ApplyAllAbsorbs(es, init, u);
      var prev := ApplyAll(es, init, u).0;
      var e := SyncModels.ToEntry(cs[|cs| - 1]);
      forall i | 0 <= i < |cs|
        ensures Absorbed(ApplyOne(prev, e, u).0, SyncModels.ToEntry(cs[i]), u)
      {
        if i < |cs| - 1 {
          assert cs[i] == init[i];
          ApplyOneKeepsAbsorbed(prev, e, SyncModels.ToEntry(cs[i]), u);
        } else {
          ApplyOneAbsorbs(prev, e, u);
        }
      }
    }
  }

  lemma {:induction false} ApplyAllAbsorbed(es: seq<MeasurementEntry>, cs: seq<SyncModels.SyncEntryChange>, u: Uuid)
    requires forall i :: 0 <= i < |cs| ==> Absorbed(es, SyncModels.ToEntry(cs[i]), u)
    ensures ApplyAll(es, cs, u) == (es, 0)
  {
    if cs != [] {
      var init := cs[..|cs| - 1];
      forall i | 0 <= i < |init|
        ensures Absorbed(es, SyncModels.ToEntry(init[i]), u)
      {
        assert init[i] == cs[i];
      }
      ApplyAllAbsorbed(es, init, u);
    }
  }

  /** Applying the same batch a second time writes nothing and reports 0. */
  lemma ApplyAllIdempotent(es: seq<MeasurementEntry>, cs: seq<SyncModels.SyncEntryChange>, u: Uuid)
    ensures ApplyAll(ApplyAll(es, cs, u).0, cs, u) == (ApplyAll(es, cs, u).0, 0)
  {
    ApplyAllAbsorbs(es, cs, u);
    ApplyAllAbsorbed(ApplyAll(es, cs, u).0, cs, u);
  }

  // ---------------------------------------------------------------------
  // The state object
  // ---------------------------------------------------------------------

  /** The active id names a stored profile, so the `profile` property returns it unchanged. */
  predicate ActiveResolves(d: LocalStoreData)
    reads d
  {
    d.activeProfileId.Some? && ProfileById(d.profiles, d.activeProfileId.value).Some?
  }

  /** `AppState`: the loaded store it edits in place. */
  class AppState {
    const data: LocalStoreData

    constructor(data: LocalStoreData)
      ensures this.data == data
    {
      this.data := data;
    }

    /** `_profile_by_id`, as the loop over the profiles. */
    method FindProfile(userId: Uuid) returns (r: Option<UserProfile>)
      ensures r == ProfileById(data.profiles, userId)
    {
      var i := 0;
      while i < |data.profiles|
        invariant 0 <= i <= |data.profiles|
        invariant forall j :: 0 <= j < i ==> data.profiles[j].userId != userId
      {
        if data.profiles[i].userId == userId {
          ProfileByIdAt(data.profiles, i);
          return Some(data.profiles[i]);
        }
        i := i + 1;
      }
      return None;
    }

    /**
     * The `profile` property: a default profile is created when there is
     * none; the active id then names the returned profile, which is the
     * active one when it exists and the first one otherwise.
     */
    method Profile(freshId: Uuid) returns (profile: UserProfile)
      modifies data
      ensures data.profiles == if old(data.profiles) == [] then [NewProfile(freshId)] else old(data.profiles)
      ensures profile in data.profiles && data.activeProfileId == Some(profile.userId)
      ensures profile == if old(data.activeProfileId).Some? && ProfileById(data.profiles, old(data.activeProfileId).value).Some?
                         then ProfileById(data.profiles, old(data.activeProfileId).value).value
                         else data.profiles[0]
      ensures data.entries == old(data.entries) && data.lastModified == old(data.lastModified)
      ensures ActiveResolves(data) && ProfileById(data.profiles, profile.userId) == Some(profile)
      ensures old(ActiveResolves(data)) ==> data.profiles == old(data.profiles)
                                            && data.activeProfileId == old(data.activeProfileId)
      ensures data.schemaVersion == old(data.schemaVersion) && data.adminConfig == old(data.adminConfig)
    {
      if data.profiles == [] {
        data.profiles := data.profiles + [NewProfile(freshId)];
      }
      if data.activeProfileId.None? {
        data.activeProfileId := Some(data.profiles[0].userId);
        ProfileByIdAt(data.profiles, 0);
      }
      var found := FindProfile(data.activeProfileId.value);
      profile := if found.Some? then found.value else data.profiles[0];
      if found.None? {
        ProfileByIdAt(data.profiles, 0);
      }
      if Some(profile.userId) != data.activeProfileId {
        data.activeProfileId := Some(profile.userId);
      }
    }

    /** The `entries` property: the active profile's entries, in stored order. */
    method Entries(freshId: Uuid) returns (es: seq<MeasurementEntry>)
      modifies data
      ensures data.activeProfileId.Some? && es == EntriesOf(data.entries, data.activeProfileId.value)
      ensures data.entries == old(data.entries)
    {
      var profile := Profile(freshId);
      es := EntriesOf(data.entries, profile.userId);
    }

    /** `add_profile`: appended and made active. */
    method AddProfile(profile: UserProfile, now: DateTime)
      modifies data
      ensures data.profiles == old(data.profiles) + [profile] && data.activeProfileId == Some(profile.userId)
      ensures data.lastModified == Aware(now) && data.entries == old(data.entries)
      ensures data.schemaVersion == old(data.schemaVersion) && data.adminConfig == old(data.adminConfig)
    {
      data.profiles := data.profiles + [profile];
      data.activeProfileId := Some(profile.userId);
      data.lastModified := Aware(now);
    }

    /** `set_active_profile`: a no-op for the current id and for an unknown id. */
    method SetActiveProfile(userId: Uuid, now: DateTime)
      modifies data
      ensures if old(data.activeProfileId) != Some(userId) && ProfileById(data.profiles, userId).Some?
              then data.activeProfileId == Some(userId) && data.lastModified == Aware(now)
              else data.activeProfileId == old(data.activeProfileId) && data.lastModified == old(data.lastModified)
      ensures data.profiles == old(data.profiles) && data.entries == old(data.entries)
      ensures data.schemaVersion == old(data.schemaVersion) && data.adminConfig == old(data.adminConfig)
    {
      if data.activeProfileId == Some(userId) {
        return;
      }
      var found := FindProfile(userId);
      if found.None? {
        return;
      }
      data.activeProfileId := Some(userId);
      data.lastModified := Aware(now);
    }

    /**
     * `update_profile`: the first profile with the same id is replaced in
     * place, or the profile is appended; it becomes active only when no
     * profile was.
     */
    method UpdateProfile(profile: UserProfile, now: DateTime)
      modifies data
      ensures data.profiles == Upserted(old(data.profiles), profile)
      ensures data.activeProfileId == if old(data.activeProfileId).None? then Some(profile.userId)
                                      else old(data.activeProfileId)
      ensures data.lastModified == Aware(now) && data.entries == old(data.entries)
      ensures data.schemaVersion == old(data.schemaVersion) && data.adminConfig == old(data.adminConfig)
    {
      var updated := false;
      var i := 0;
      while i < |data.profiles|
        invariant 0 <= i <= |data.profiles| && data.profiles == old(data.profiles)
        invariant forall j :: 0 <= j < i ==> data.profiles[j].userId != profile.userId
      {
        if data.profiles[i].userId == profile.userId {
          data.profiles := data.profiles[i := profile];
          updated := true;
          break;
        }
        i := i + 1;
      }
      if !updated {
        data.profiles := data.profiles + [profile];
      }
      data.lastModified := Aware(now);
      if data.activeProfileId.None? {
        data.activeProfileId := Some(profile.userId);
      }
    }

    /**
     * `entries_since`: the given user's entries, or the active profile's when
     * no user is given, changed after `since`.
     */
    method EntriesSince(since: Option<DateTime>, userId: Option<Uuid>, freshId: Uuid)
      returns (es: seq<MeasurementEntry>)
      modifies data
      ensures userId.Some? ==> es == ChangedSince(data.entries, userId.value, since)
      ensures userId.None? ==> data.activeProfileId.Some?
                               && es == ChangedSince(data.entries, data.activeProfileId.value, since)
      ensures data.entries == old(data.entries) && data.lastModified == old(data.lastModified)
      ensures userId.None? ==> ActiveResolves(data)
      ensures old(ActiveResolves(data)) ==> data.profiles == old(data.profiles)
                                            && data.activeProfileId == old(data.activeProfileId)
    {
      var u := ResolveUser(userId, freshId);
      es := ChangedSince(data.entries, u, since);
    }

    /** The user a call is about: the given one, else the active profile's. */
    method ResolveUser(userId: Option<Uuid>, freshId: Uuid) returns (u: Uuid)
      modifies data
      ensures userId.Some? ==> u == userId.value
      ensures userId.None? ==> data.activeProfileId == Some(u)
      ensures data.entries == old(data.entries) && data.lastModified == old(data.lastModified)
      ensures userId.None? ==> ActiveResolves(data)
      ensures old(ActiveResolves(data)) ==> data.profiles == old(data.profiles)
                                            && data.activeProfileId == old(data.activeProfileId)
    {
      if userId.Some? {
        u := userId.value;
      } else {
        var profile := Profile(freshId);
        u := profile.userId;
      }
    }

    /** The first stored entry with the id, as `next(...)` over the list finds it. */
    method FindEntry(entryId: Uuid) returns (k: Option<nat>)
      ensures k == FirstWithId(data.entries, entryId)
    {
      var i := 0;
      while i < |data.entries|
        invariant 0 <= i <= |data.entries|
        invariant forall j :: 0 <= j < i ==> data.entries[j].entryId != entryId
      {
        if data.entries[i].entryId == entryId {
          return Some(i);
        }
        i := i + 1;
      }
      return None;
    }

    /**
     * `apply_remote_changes`. The stored list becomes the merge of the batch
     * and the count is the number of changes written; the modification time
     * moves only when that count is positive. `entries.index(existing)` is
     * the first position equal to the first entry with the id, which is that
     * entry's own position, since any equal entry has the same id.
     */
    method ApplyRemoteChanges(changes: seq<SyncModels.SyncEntryChange>, userId: Option<Uuid>, freshId: Uuid,
                              now: DateTime)
      returns (updated: nat)
      modifies data
      ensures userId.None? ==> data.activeProfileId.Some?
      ensures (data.entries, updated)
              == ApplyAll(old(data.entries), changes, if userId.Some? then userId.value else data.activeProfileId.value)
      ensures data.lastModified == if updated > 0 then Aware(now) else old(data.lastModified)
      ensures userId.None? ==> ActiveResolves(data)
      ensures old(ActiveResolves(data)) ==> data.profiles == old(data.profiles)
                                            && data.activeProfileId == old(data.activeProfileId)
    {
      var u := ResolveUser(userId, freshId);
      updated := ApplyBatch(changes, u);
      if updated > 0 {
        data.lastModified := Aware(now);
      }
    }

    /** The loop of `apply_remote_changes`, for a resolved user. */
    method ApplyBatch(changes: seq<SyncModels.SyncEntryChange>, u: Uuid) returns (updated: nat)
      modifies data
      ensures (data.entries, updated) == ApplyAll(old(data.entries), changes, u)
      ensures data.lastModified == old(data.lastModified) && data.profiles == old(data.profiles)
      ensures data.activeProfileId == old(data.activeProfileId)
    {
      updated := 0;
      var i := 0;
      while i < |changes|
        invariant 0 <= i <= |changes|
        invariant (data.entries, updated) == ApplyAll(old(data.entries), changes[..i], u)
        invariant data.lastModified == old(data.lastModified) && data.profiles == old(data.profiles)
        invariant data.activeProfileId == old(data.activeProfileId)
      {
        assert changes[..i + 1][..i] == changes[..i];
        var wrote := ApplyChange(SyncModels.ToEntry(changes[i]), u);
        if wrote {
          updated := updated + 1;
        }
        i := i + 1;
      }
      assert changes[..|changes|] == changes;
    }

    /** One pass of the loop in `apply_remote_changes`. */
    method ApplyChange(entry: MeasurementEntry, u: Uuid) returns (wrote: bool)
      modifies data
      ensures (data.entries, wrote) == ApplyOne(old(data.entries), entry, u)
      ensures data.lastModified == old(data.lastModified) && data.activeProfileId == old(data.activeProfileId)
      ensures data.profiles == old(data.profiles)
    {
      if entry.userId != u {
        return false;
      }
      var existing := FindEntry(entry.entryId);
      if existing.Some? && !ShouldAccept(data.entries[existing.value], entry) {
        return false;
      }
      if existing.Some? {
        data.entries := data.entries[existing.value := entry];
      } else {
        data.entries := data.entries + [entry];
      }
      return true;
    }
  }
}
