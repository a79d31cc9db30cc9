// The sync tab of the desktop client: the settings form, one sync round
// (push the entries changed since the last sync, pull from the vault's
// cursor, merge, advance the cursor) and importing an invite file. The
// worker thread is modelled as a task value that `RunSync` evaluates; the
// widget's `workerActive` flag stands for `_active_worker is not None`.

module SyncRound {
  import opened Common
  import opened Primitives
  import opened Text
  import opened Models
  import opened SyncModels
  import opened SyncClient
  import opened ClientState
  import LocalStore

  const SyncDisabled := "Enable sync before running a sync."
  const MissingSyncInfo := "Vault URL, user token, and device ID are required."
  const SyncingStatus := "Syncing..."
  const InvalidInviteFile := "Invalid Invite File"
  const CertificateError := "Certificate Error"
  const InviteMissing := "Vault URL and invite token are required."
  const InviteLoaded := "Invite loaded. Click 'Join Vault' to finish setup."
  const BadCert := "Invite certificate is missing or invalid."
  const InvalidJson := "JSONDecodeError"

  /** What the widgets of the sync tab hold. */
  datatype Form = Form(
    enabled: bool,
    vaultUrl: string,
    deviceName: string,
    deviceId: string,
    inviteToken: string,
    userToken: string,
    certPath: string,
    allowInsecure: bool,
    autoSync: bool,
    intervalMinutes: int)

  /** `text.strip() or None`. */
  function OrNone(text: string): (r: Option<string>)
    ensures r.None? <==> Strip(text) == ""
    ensures r.Some? ==> r.value == Strip(text)
  {
    if Strip(text) == "" then None else Some(Strip(text))
  }

  /** `value or default` on an optional setting. */
  function OrText(value: Option<string>, default: string): (r: string)
    ensures value.Some? && value.value != "" ==> r == value.value
    ensures !(value.Some? && value.value != "") ==> r == default
  {
    if value.Some? && value.value != "" then value.value else default
  }

  /** `_default_device_name`: the host name, or "My Device" when it is blank. */
  function DefaultDeviceName(node: string): (r: string)
    ensures r != ""
    ensures Strip(node) != "" ==> r == Strip(node)
  {
    if Strip(node) != "" then Strip(node) else "My Device"
  }

  /**
   * The settings `_on_save_settings` writes from the form: every field but
   * the sync cursor. `_start_sync` writes the same values once its checks
   * have passed.
   */
  function SavedSettings(s: SyncSettings, f: Form): (r: SyncSettings)
    ensures r.lastSyncAt == s.lastSyncAt
    ensures r.enabled == f.enabled && r.allowInsecureHttp == f.allowInsecure
    ensures r.vaultUrl == OrNone(f.vaultUrl) && r.userToken == OrNone(f.userToken)
    ensures r.deviceId == OrNone(f.deviceId) && r.deviceName == OrNone(f.deviceName)
    ensures r.vaultCertPath == OrNone(f.certPath)
    ensures r.autoSyncEnabled == f.autoSync && r.autoSyncIntervalMinutes == f.intervalMinutes
  {
    s.(enabled := f.enabled, vaultUrl := OrNone(f.vaultUrl), deviceName := OrNone(f.deviceName),
       deviceId := OrNone(f.deviceId), userToken := OrNone(f.userToken), vaultCertPath := OrNone(f.certPath),
       allowInsecureHttp := f.allowInsecure, autoSyncEnabled := f.autoSync,
       autoSyncIntervalMinutes := f.intervalMinutes)
  }

  /** The interval spin box accepts 5 to 120 minutes and clamps what it is given. */
  function ClampInterval(minutes: int): (r: int)
    ensures 5 <= r <= 120
    ensures 5 <= minutes <= 120 ==> r == minutes
  {
    if minutes < 5 then 5 else if minutes > 120 then 120 else minutes
  }

  /**
   * `_load_settings`: the form shown for stored settings. A missing device
   * name shows the host's name and a missing device id a fresh one; the
   * invite token box is not touched.
   */
  function LoadedForm(s: SyncSettings, inviteToken: string, defaultName: string, freshDeviceId: string): (r: Form)
    ensures r.enabled == s.enabled && r.allowInsecure == s.allowInsecureHttp && r.autoSync == s.autoSyncEnabled
    ensures r.vaultUrl == OrText(s.vaultUrl, "") && r.userToken == OrText(s.userToken, "")
    ensures r.deviceName == OrText(s.deviceName, defaultName) && r.deviceId == OrText(s.deviceId, freshDeviceId)
    ensures r.certPath == OrText(s.vaultCertPath, "") && r.inviteToken == inviteToken
    ensures r.intervalMinutes == ClampInterval(s.autoSyncIntervalMinutes)
  {
    Form(s.enabled, OrText(s.vaultUrl, ""), OrText(s.deviceName, defaultName), OrText(s.deviceId, freshDeviceId),
         inviteToken, OrText(s.userToken, ""), OrText(s.vaultCertPath, ""), s.allowInsecureHttp,
         s.autoSyncEnabled, ClampInterval(s.autoSyncIntervalMinutes))
  }

  /** The form with every text box stripped, as saving and reloading shows it. */
  function Trimmed(f: Form): Form
  {
    f.(vaultUrl := Strip(f.vaultUrl), deviceName := Strip(f.deviceName), deviceId := Strip(f.deviceId),
       userToken := Strip(f.userToken), certPath := Strip(f.certPath))
  }

  /**
   * Saving the settings and loading them again gives back the form, with
   * its text stripped, as long as it named a device.
   */
  lemma SaveThenLoad(s: SyncSettings, f: Form, defaultName: string, freshDeviceId: string)
    requires 5 <= f.intervalMinutes <= 120
    requires Strip(f.deviceName) != "" && Strip(f.deviceId) != ""
    ensures LoadedForm(SavedSettings(s, f), f.inviteToken, defaultName, freshDeviceId) == Trimmed(f)
  {
  }

  /** `_refresh_status`; `formatLocal` stands for `astimezone().strftime(...)`. */
  function LastSyncStatus(s: SyncSettings, formatLocal: DateTime -> string): (r: string)
    ensures s.lastSyncAt.None? ==> r == "Last sync: never"
    ensures s.lastSyncAt.Some? ==> r == "Last sync: " + formatLocal(s.lastSyncAt.value)
  {
    if s.lastSyncAt.Some? then "Last sync: " + formatLocal(s.lastSyncAt.value) else "Last sync: never"
  }

  // ---------------------------------------------------------------------
  // The sync round
  // ---------------------------------------------------------------------

  /** The fields `_start_sync` needs: vault URL, user token and device id, none blank. */
  predicate Startable(f: Form)
  {
    Strip(f.vaultUrl) != "" && Strip(f.userToken) != "" && Strip(f.deviceId) != ""
  }

  /** `[SyncEntryChange.from_entry(entry) for entry in entries]`. */
  function Changes(es: seq<MeasurementEntry>): (r: seq<SyncEntryChange>)
    ensures |r| == |es| && forall i :: 0 <= i < |es| ==> r[i] == FromEntry(es[i])
  {
    seq(|es|, i requires 0 <= i < |es| => FromEntry(es[i]))
  }

  /** What the worker of `_start_sync` captures. */
  datatype SyncTask = SyncTask(
    vaultUrl: string,
    userToken: string,
    userId: Uuid,
    deviceId: string,
    changes: seq<SyncEntryChange>,
    since: Option<DateTime>,
    certPath: Option<string>,
    allowInsecure: bool)

  datatype SyncResult = SyncResult(push: SyncPushResponse, pull: SyncPullResponse)

  function PushRequestOf(t: SyncTask): SyncPushRequest
  {
    SyncPushRequest(t.userId, t.deviceId, t.since, t.changes)
  }

  /** The pull asks from the cursor the push returned, not from the last sync. */
  function PullRequestAfter(t: SyncTask, push: SyncPushResponse): SyncPullRequest
  {
    SyncPullRequest(t.userId, t.deviceId, Some(push.nextSince))
  }

  function Push(p: Prims, t: SyncTask, send: Call -> Outcome): Result<SyncPushResponse>
  {
    PushChanges(p, t.vaultUrl, t.userToken, PushRequestOf(t), t.certPath, t.allowInsecure, send)
  }

  function Pull(p: Prims, t: SyncTask, push: SyncPushResponse, send: Call -> Outcome): Result<SyncPullResponse>
  {
    PullChanges(p, t.vaultUrl, t.userToken, PullRequestAfter(t, push), t.certPath, t.allowInsecure, send)
  }

  /**
   * The worker's task: push, then pull from the push's cursor. A failed push
   * fails the round before anything is pulled.
   */
  function RunSync(p: Prims, t: SyncTask, send: Call -> Outcome): (r: Result<SyncResult>)
    ensures Push(p, t, send).Err? ==> r == Err(Push(p, t, send).error)
    ensures Push(p, t, send).Ok? ==>
              match Pull(p, t, Push(p, t, send).value, send)
              case Ok(pulled) => r == Ok(SyncResult(Push(p, t, send).value, pulled))
              case Err(e) => r == Err(e)
  {
    var push :- Push(p, t, send);
    var pull :- Pull(p, t, push, send);
    Ok(SyncResult(push, pull))
  }

  /** A vault that answers the push with `pushed` and the pull with `pulled`. */
  function VaultReplies(p: Prims, vaultUrl: string, pushed: SyncPushResponse, pulled: SyncPullResponse)
    : Call -> Outcome
  {
    (c: Call) => if c.url == Endpoint(vaultUrl, PushPath) then ReplyOf(p, EncodePushResponse(p, pushed))
         else ReplyOf(p, EncodePullResponse(p, pulled))
  }

  lemma PushPullEndpointsDiffer(vaultUrl: string)
    ensures Endpoint(vaultUrl, PushPath) != Endpoint(vaultUrl, PullPath)
  {
    var a, b := Endpoint(vaultUrl, PushPath), Endpoint(vaultUrl, PullPath);
    assert a[|a| - 2] == 's' && b[|b| - 2] == 'l';
  }

  /** Against a vault that answers, the round returns both answers. */
  lemma RoundWithVault(p: Prims, t: SyncTask, pushed: SyncPushResponse, pulled: SyncPullResponse)
    requires p.JsonLaw() && p.TextLaws() && p.TimeLaws()
    requires BuildSslContext(t.vaultUrl, t.certPath, t.allowInsecure).Ok?
    ensures RunSync(p, t, VaultReplies(p, t.vaultUrl, pushed, pulled)) == Ok(SyncResult(pushed, pulled))
  {
    PushToVault(p, t, pushed, pulled);
    PullFromVault(p, t, pushed, pulled);
  }

  lemma PushToVault(p: Prims, t: SyncTask, pushed: SyncPushResponse, pulled: SyncPullResponse)
    requires p.JsonLaw() && p.TextLaws() && p.TimeLaws()
    requires BuildSslContext(t.vaultUrl, t.certPath, t.allowInsecure).Ok?
    ensures Push(p, t, VaultReplies(p, t.vaultUrl, pushed, pulled)) == Ok(pushed)
  {
    var call := PushCall(p, t.vaultUrl, t.userToken, PushRequestOf(t), t.certPath, t.allowInsecure).value;
    assert VaultReplies(p, t.vaultUrl, pushed, pulled)(call) == ReplyOf(p, EncodePushResponse(p, pushed));
    ReadReply(p, EncodePushResponse(p, pushed));
    PushResponseRoundTrip(p, pushed);
  }

  lemma PullFromVault(p: Prims, t: SyncTask, pushed: SyncPushResponse, pulled: SyncPullResponse)
    requires p.JsonLaw() && p.TextLaws() && p.TimeLaws()
    requires BuildSslContext(t.vaultUrl, t.certPath, t.allowInsecure).Ok?
    ensures Pull(p, t, pushed, VaultReplies(p, t.vaultUrl, pushed, pulled)) == Ok(pulled)
  {
    var call := PullCall(p, t.vaultUrl, t.userToken, PullRequestAfter(t, pushed), t.certPath, t.allowInsecure).value;
    PushPullEndpointsDiffer(t.vaultUrl);
    assert VaultReplies(p, t.vaultUrl, pushed, pulled)(call) == ReplyOf(p, EncodePullResponse(p, pulled));
    ReadReply(p, EncodePullResponse(p, pulled));
    PullResponseRoundTrip(p, pulled);
  }

  // ---------------------------------------------------------------------
  // Invite files and certificates
  // ---------------------------------------------------------------------

  /** `str(payload.get(key, ""))`: a present key is printed even when it is null. */
  function TextField(p: Prims, payload: Json, key: string): (r: string)
    ensures !(payload.JObj? && key in payload.fields) ==> r == ""
  {
    if payload.JObj? && key in payload.fields then PyStr(p, payload.fields[key]) else ""
  }

  /** `str(payload.get(key, "")).strip()`. */
  function InviteText(p: Prims, payload: Json, key: string): string
  {
    Strip(TextField(p, payload, key))
  }

  /**
   * How an invite import ended: imported (with the certificate file
   * written, as path and text), stopped by a warning (title and text), or
   * stopped by an exception the handler does not catch.
   */
  datatype ImportOutcome =
    | Imported(certFile: Option<(string, string)>)
    | Warned(title: string, text: string)
    | Raised(message: string)

  /** The checks before an invite fills in the form: the file's outcome, or the invite it holds. */
  datatype InviteRead =
    | Refused(outcome: ImportOutcome)
    | Invite(vaultUrl: string, inviteToken: string, certPem: Json)

  /**
   * Reading an invite file, `file` being its bytes or the read error: a
   * read error is warned about, and bytes that are not UTF-8 make
   * `read_text` raise.
   */
  function ReadInvite(p: Prims, file: Result<seq<Byte>>): (r: InviteRead)
    ensures file.Err? ==> r == Refused(Warned(InvalidInviteFile, file.error))
    ensures file.Ok? && p.utf8Decode(file.value).None? ==> r == Refused(Raised("UnicodeDecodeError"))
    ensures file.Ok? && p.utf8Decode(file.value).Some? ==> r == ReadInviteText(p, p.utf8Decode(file.value).value)
  {
    if file.Err? then Refused(Warned(InvalidInviteFile, file.error))
    else match p.utf8Decode(file.value)
      case None => Refused(Raised("UnicodeDecodeError"))
      case Some(text) => ReadInviteText(p, text)
  }

  /**
   * The checks on the invite file's text: invalid JSON and a blank vault URL
   * or invite token are warned about; a JSON value other than an object
   * makes `payload.get` raise.
   */
  function ReadInviteText(p: Prims, text: string): (r: InviteRead)
    ensures p.jsonLoads(text).None? ==> r == Refused(Warned(InvalidInviteFile, InvalidJson))
    ensures r.Refused? && r.outcome.Raised? <==> p.jsonLoads(text).Some? && !p.jsonLoads(text).value.JObj?
    ensures r.Refused? ==> !r.outcome.Imported?
    ensures r.Invite? <==> p.jsonLoads(text).Some? && p.jsonLoads(text).value.JObj?
                           && InviteText(p, p.jsonLoads(text).value, "vault_url") != ""
                           && InviteText(p, p.jsonLoads(text).value, "invite_token") != ""
    ensures r.Invite? ==> var payload := p.jsonLoads(text).value;
                          r.vaultUrl == InviteText(p, payload, "vault_url")
                          && r.inviteToken == InviteText(p, payload, "invite_token")
                          && r.certPem == Get(payload, "vault_cert_pem")
  {
    match p.jsonLoads(text)
    case None => Refused(Warned(InvalidInviteFile, InvalidJson))
    case Some(payload) =>
      if !payload.JObj? then Refused(Raised("AttributeError"))
      else
        var vaultUrl := InviteText(p, payload, "vault_url");
        var inviteToken := InviteText(p, payload, "invite_token");
        if vaultUrl == "" || inviteToken == "" then Refused(Warned(InvalidInviteFile, InviteMissing))
        else Invite(vaultUrl, inviteToken, Get(payload, "vault_cert_pem"))
  }

  /**
   * `_on_import_invite_file` after the file dialog, on the form: `file` is
   * the file's bytes or the read error, `node` the host name. Refused files
   * leave the form alone; a certificate that cannot be stored stops the
   * import after the URL and token were already filled in; a completed
   * import names a device and switches insecure HTTP off.
   */
  function ImportInvite(p: Prims, f: Form, file: Result<seq<Byte>>, node: string, appData: string, home: string)
    : (r: (ImportOutcome, Form))
    ensures ReadInvite(p, file).Refused? ==> r == (ReadInvite(p, file).outcome, f)
    ensures ReadInvite(p, file).Invite? ==>
              r.1.vaultUrl == ReadInvite(p, file).vaultUrl && r.1.inviteToken == ReadInvite(p, file).inviteToken
    ensures ReadInvite(p, file).Invite? && r.0.Warned? ==>
              r.0 == Warned(CertificateError, BadCert)
              && r.1 == f.(vaultUrl := r.1.vaultUrl, inviteToken := r.1.inviteToken)
    ensures r.0.Imported? ==>
              ReadInvite(p, file).Invite? && !r.1.allowInsecure && r.1.deviceName != ""
              && (Strip(f.deviceName) != "" ==> r.1.deviceName == f.deviceName)
              && r.1.certPath == (if r.0.certFile.Some? then r.0.certFile.value.0 else f.certPath)
              && r.1 == f.(vaultUrl := r.1.vaultUrl, inviteToken := r.1.inviteToken,
                           certPath := r.1.certPath, deviceName := r.1.deviceName, allowInsecure := false)
    ensures r.0.Imported? && r.0.certFile.Some? ==> Contains(r.0.certFile.value.1, "BEGIN CERTIFICATE")
  {
    var read := ReadInvite(p, file);
    if read.Refused? then (read.outcome, f)
    else
      var filled := f.(vaultUrl := read.vaultUrl, inviteToken := read.inviteToken);
      var pem := PyStr(p, read.certPem);
      var stored := StoreCertPem(p, pem, appData, home);
      if Truthy(read.certPem) && stored.Err? then (Warned(CertificateError, stored.error), filled)
      else
        var certPath := if Truthy(read.certPem) then stored.value else filled.certPath;
        var deviceName := if Strip(filled.deviceName) == "" then DefaultDeviceName(node) else filled.deviceName;
        (Imported(if Truthy(read.certPem) then Some((stored.value, pem)) else None),
         filled.(certPath := certPath, deviceName := deviceName, allowInsecure := false))
  }

  /** `text[:n]`. */
  function Take(text: string, n: nat): (r: string)
    ensures |r| == if |text| < n then |text| else n
    ensures r == text[..|r|]
  {
    if |text| <= n then text else text[..n]
  }

  /** Where certificates live: the application data directory, else `~/.body_metrics_tracker`. */
  function CertRoot(appData: string, home: string): string
  {
    if appData != "" then appData else home + "/.body_metrics_tracker"
  }

  /**
   * `_store_cert_pem`: text without a certificate header is refused; a
   * certificate is stored under a name drawn from its SHA-256 digest.
   */
  function StoreCertPem(p: Prims, pem: string, appData: string, home: string): (r: Result<string>)
    ensures r.Err? <==> !Contains(pem, "BEGIN CERTIFICATE")
    ensures r.Err? ==> r.error == BadCert
    ensures r.Ok? ==> StartsWith(r.value, CertRoot(appData, home) + "/vault/vault_") && EndsWith(r.value, ".crt")
  {
    if !Contains(pem, "BEGIN CERTIFICATE") then Err(BadCert)
    else
      var path := CertRoot(appData, home) + "/vault/vault_" + Take(p.sha256Hex(p.utf8Encode(pem)), 12) + ".crt";
      assert path[..|CertRoot(appData, home) + "/vault/vault_"|] == CertRoot(appData, home) + "/vault/vault_";
      Ok(path)
  }

  /** Two certificates with different digest prefixes never share a file. */
  lemma CertNamesFollowDigest(p: Prims, a: string, b: string, appData: string, home: string)
    requires StoreCertPem(p, a, appData, home).Ok? && StoreCertPem(p, b, appData, home).Ok?
    requires Take(p.sha256Hex(p.utf8Encode(a)), 12) != Take(p.sha256Hex(p.utf8Encode(b)), 12)
    ensures StoreCertPem(p, a, appData, home).value != StoreCertPem(p, b, appData, home).value
  {
    var root := CertRoot(appData, home) + "/vault/vault_";
    var da, db := Take(p.sha256Hex(p.utf8Encode(a)), 12), Take(p.sha256Hex(p.utf8Encode(b)), 12);
    var x, y := root + da + ".crt", root + db + ".crt";
    assert x[|root|..|x| - 4] == da;
    assert y[|root|..|y| - 4] == db;
  }

  /**
   * What a started round has done: the form's settings are the active
   * profile's, and the task pushes exactly that profile's entries changed
   * since its last sync, from the form's vault with the form's credentials.
   */
  ghost predicate Started(profiles: seq<UserProfile>, active: Option<Uuid>, entries: seq<MeasurementEntry>,
                          f: Form, t: SyncTask)
  {
    active == Some(t.userId) && ProfileById(profiles, t.userId).Some?
    && var settings := ProfileById(profiles, t.userId).value.syncSettings;
       settings == SavedSettings(settings, f)
       && t.since == settings.lastSyncAt
       && t.changes == Changes(ChangedSince(entries, t.userId, t.since))
       && t.vaultUrl == Strip(f.vaultUrl) && t.userToken == Strip(f.userToken)
       && t.deviceId == Strip(f.deviceId) && t.certPath == OrNone(f.certPath)
       && t.allowInsecure == f.allowInsecure
  }

  /**
   * The outcome of the checks of `_start_sync`: disabled sync and blank
   * fields refuse the round without touching the store's modification
   * time, telling the user only when `showDialogs`.
   */
  predicate Checked(f: Form, before: ParsedTime, after: ParsedTime, showDialogs: bool, task: Option<SyncTask>,
                    notice: Option<string>)
  {
    && (!f.enabled ==> task.None? && notice == (if showDialogs then Some(SyncDisabled) else None) && after == before)
    && (f.enabled && !Startable(f) ==>
          task.None? && notice == (if showDialogs then Some(MissingSyncInfo) else None) && after == before)
    && (task.Some? ==> notice.None?)
  }

  // ---------------------------------------------------------------------
  // The widget
  // ---------------------------------------------------------------------

  class SyncWidget {
    const state: AppState
    var workerActive: bool
    var form: Form
    var status: string

    /** `__init__`: the form shows the active profile's settings. */
    constructor(state: AppState, defaultName: string, freshDeviceId: string, freshId: Uuid,
                formatLocal: DateTime -> string)
      modifies state.data
      ensures this.state == state && !workerActive
      ensures ActiveResolves(state.data)
      ensures var s := ProfileById(state.data.profiles, state.data.activeProfileId.value).value.syncSettings;
              form == LoadedForm(s, "", defaultName, freshDeviceId) && status == LastSyncStatus(s, formatLocal)
      ensures state.data.entries == old(state.data.entries)
    {
      this.state := state;
      workerActive := false;
      var profile := state.Profile(freshId);
      ProfileByIdAt(state.data.profiles, FirstProfile(state.data.profiles, profile.userId).value);
      form := LoadedForm(profile.syncSettings, "", defaultName, freshDeviceId);
      status := LastSyncStatus(profile.syncSettings, formatLocal);
    }

    /** The profile the `profile` property returns when the active id resolves. */
    ghost function Active(): UserProfile
      reads this, state.data
      requires ActiveResolves(state.data)
    {
      ProfileById(state.data.profiles, state.data.activeProfileId.value).value
    }

    /**
     * `_start_sync`. Nothing starts while a worker runs, while sync is
     * disabled, or while the URL, user token or device id is blank (the
     * last two tell the user only when `showDialogs`). Otherwise the form's
     * settings are saved into the active profile and the task pushes
     * exactly that profile's entries changed since its last sync.
     */
    method StartSync(showDialogs: bool, freshId: Uuid, now: DateTime)
      returns (task: Option<SyncTask>, notice: Option<string>)
      modifies this, state.data
      ensures form == old(form) && state.data.entries == old(state.data.entries)
      ensures old(workerActive) ==> task.None? && notice.None? && unchanged(this) && unchanged(state.data)
      ensures !old(workerActive) ==> Checked(form, old(state.data.lastModified), state.data.lastModified, showDialogs, task, notice)
      ensures task.Some? <==> !old(workerActive) && form.enabled && Startable(form)
      ensures task.None? ==> workerActive == old(workerActive) && status == old(status)
      ensures task.Some? ==> workerActive && status == SyncingStatus && Started(state.data.profiles, state.data.activeProfileId, state.data.entries, form, task.value)
    {
      if !workerActive {
        task, notice := Prepare(showDialogs, freshId, now);
        workerActive, status := task.Some?, if task.Some? then SyncingStatus else status;
      } else {
        task, notice := None, None;
      }
    }

    /** `_start_sync` once no worker is running. */
    method Prepare(showDialogs: bool, freshId: Uuid, now: DateTime)
      returns (task: Option<SyncTask>, notice: Option<string>)
      modifies state.data
      ensures state.data.entries == old(state.data.entries)
      ensures Checked(form, old(state.data.lastModified), state.data.lastModified, showDialogs, task, notice)
      ensures task.Some? <==> form.enabled && Startable(form)
      ensures task.Some? ==> Started(state.data.profiles, state.data.activeProfileId, state.data.entries, form, task.value)
    {
      var profile := state.Profile(freshId);
      if !form.enabled {
        return None, if showDialogs then Some(SyncDisabled) else None;
      }
      if !Startable(form) {
        return None, if showDialogs then Some(MissingSyncInfo) else None;
      }
      var t := Begin(profile, freshId, now);
      task, notice := Some(t), None;
    }

    /** The part of `_start_sync` after its checks: save the settings, collect the changes. */
    method Begin(profile: UserProfile, freshId: Uuid, now: DateTime) returns (t: SyncTask)
      requires ActiveResolves(state.data) && state.data.activeProfileId == Some(profile.userId)
      requires ProfileById(state.data.profiles, profile.userId) == Some(profile)
      requires Startable(form)
      modifies state.data
      ensures Started(state.data.profiles, state.data.activeProfileId, state.data.entries, form, t) && state.data.entries == old(state.data.entries)
    {
      var settings := SavedSettings(profile.syncSettings, form);
      ReplaceSettings(profile, settings, now);
      var entries := state.EntriesSince(settings.lastSyncAt, None, freshId);
      t := SyncTask(Strip(form.vaultUrl), Strip(form.userToken), profile.userId, Strip(form.deviceId),
                    Changes(entries), settings.lastSyncAt, OrNone(form.certPath), form.allowInsecure);
    }

    /** The sync settings of the active profile are replaced, and `update_profile` stores it. */
    method ReplaceSettings(profile: UserProfile, settings: SyncSettings, now: DateTime)
      requires ActiveResolves(state.data) && state.data.activeProfileId == Some(profile.userId)
      requires ProfileById(state.data.profiles, profile.userId) == Some(profile)
      modifies state.data
      ensures ActiveResolves(state.data) && state.data.activeProfileId == old(state.data.activeProfileId)
      ensures ProfileById(state.data.profiles, profile.userId) == Some(profile.(syncSettings := settings))
      ensures state.data.entries == old(state.data.entries) && state.data.lastModified == LocalStore.Aware(now)
    {
      var saved := profile.(syncSettings := settings);
      state.UpdateProfile(saved, now);
      UpsertedFinds(old(state.data.profiles), saved);
    }

    /**
     * `_on_sync_completed`: the pulled changes are merged into the active
     * profile's entries and its cursor moves to the pull's `next_since`,
     * whether or not anything was applied.
     */
    method OnSyncCompleted(result: SyncResult, freshId: Uuid, now: DateTime) returns (applied: nat)
      modifies this, state.data
      ensures !workerActive && form == old(form)
      ensures status == "Sync complete. Applied " + IntText(applied) + " change(s)."
      ensures ActiveResolves(state.data)
      ensures (state.data.entries, applied)
              == ApplyAll(old(state.data.entries), result.pull.changes, state.data.activeProfileId.value)
      ensures Active().syncSettings.lastSyncAt == Some(result.pull.nextSince)
      ensures state.data.lastModified == LocalStore.Aware(now)
    {
      workerActive := false;
      applied := state.ApplyRemoteChanges(result.pull.changes, None, freshId, now);
      MoveCursor(result.pull.nextSince, freshId, now);
      status := "Sync complete. Applied " + IntText(applied) + " change(s).";
    }

    /** `settings.last_sync_at = ...` on the active profile, then `update_profile`. */
    method MoveCursor(nextSince: DateTime, freshId: Uuid, now: DateTime)
      requires ActiveResolves(state.data)
      modifies state.data
      ensures ActiveResolves(state.data) && state.data.activeProfileId == old(state.data.activeProfileId)
      ensures Active().syncSettings == old(Active().syncSettings).(lastSyncAt := Some(nextSince))
      ensures state.data.entries == old(state.data.entries) && state.data.lastModified == LocalStore.Aware(now)
    {
      var profile := state.Profile(freshId);
      ReplaceSettings(profile, profile.syncSettings.(lastSyncAt := Some(nextSince)), now);
    }

    /** `_on_task_failed`: the error is shown; the store, and so the cursor, is untouched. */
    method OnTaskFailed(message: string)
      modifies this
      ensures !workerActive && form == old(form) && status == "Sync error: " + message
    {
      workerActive := false;
      status := "Sync error: " + message;
    }

    /**
     * `_on_import_invite_file` after the file dialog: the form becomes the
     * one `ImportInvite` describes, and a completed import says so.
     */
    method ImportInviteFile(p: Prims, file: Result<seq<Byte>>, node: string, appData: string, home: string)
      returns (outcome: ImportOutcome)
      modifies this
      ensures (outcome, form) == ImportInvite(p, old(form), file, node, appData, home)
      ensures workerActive == old(workerActive)
      ensures status == if outcome.Imported? then InviteLoaded else old(status)
    {
      var result := ImportInvite(p, form, file, node, appData, home);
      outcome, form := result.0, result.1;
      if outcome.Imported? {
        status := InviteLoaded;
      }
    }
  }
}
