// The desktop client's side of the vault protocol: which TLS context a vault
// URL gets, the endpoint URLs, the requests each call sends and how replies
// and failures become results or `SyncError` messages. The network is a
// parameter `send` that maps a request to what came back.

module SyncClient {
  import opened Common
  import opened Primitives
  import opened Text
  import opened SyncModels

  const TlsFailed := "TLS verification failed. Import the vault certificate and try again."
  const InsecureDisabled := "Insecure HTTP is disabled. Use HTTPS or allow insecure HTTP in settings."
  const BadScheme := "Vault URL must start with http:// or https://"

  const InvitePath := "/auth/invite"
  const PushPath := "/sync/push"
  const PullPath := "/sync/pull"
  const HealthPath := "/health"
  const AdminInvitesPath := "/admin/invites"
  const AdminOverviewPath := "/admin/overview"

  /** A TLS context: the system trust store, or one pinned to a certificate file. */
  datatype TlsContext = SystemDefault | Pinned(cafile: string)

  /**
   * `_build_ssl_context`: https always gets TLS, pinned when a certificate
   * path is set; plain http gets none, and only when insecure HTTP is allowed.
   */
  function BuildSslContext(vaultUrl: string, certPath: Option<string>, allowInsecure: bool)
    : (r: Result<Option<TlsContext>>)
    ensures r.Ok? <==> StartsWith(vaultUrl, "https://") || (StartsWith(vaultUrl, "http://") && allowInsecure)
    ensures r.Ok? && r.value.None? ==> StartsWith(vaultUrl, "http://") && allowInsecure
    ensures StartsWith(vaultUrl, "https://") ==>
              r == Ok(Some(if certPath.Some? && certPath.value != "" then Pinned(certPath.value) else SystemDefault))
    ensures r.Err? ==> r.error == if StartsWith(vaultUrl, "http://") then InsecureDisabled else BadScheme
  {
    if StartsWith(vaultUrl, "https://") then
      if certPath.Some? && certPath.value != "" then Ok(Some(Pinned(certPath.value))) else Ok(Some(SystemDefault))
    else if StartsWith(vaultUrl, "http://") then
      if allowInsecure then Ok(None) else Err(InsecureDisabled)
    else Err(BadScheme)
  }

  /** `f"{vault_url.rstrip('/')}{path}"`: never a slash just before the path. */
  function Endpoint(vaultUrl: string, path: string): (r: string)
    ensures EndsWith(r, path) && |r| >= |path|
    ensures |r| > |path| ==> r[|r| - |path| - 1] != '/'
    ensures StartsWith(vaultUrl, r[..|r| - |path|])
  {
    var base := RStripChar(vaultUrl, '/');
    assert (base + path)[..|base|] == base;
    assert (base + path)[|base + path| - |path|..] == path;
    base + path
  }

  /** A vault URL typed with or without trailing slashes reaches the same endpoint. */
  lemma EndpointTrailingSlash(vaultUrl: string, path: string)
    ensures Endpoint(vaultUrl + "/", path) == Endpoint(vaultUrl, path)
  {
    assert (vaultUrl + "/")[..|vaultUrl|] == vaultUrl;
  }

  datatype Verb = HttpGet | HttpPost

  /** One HTTP request as `urllib` sends it: the JSON body, the headers in order and the timeout in seconds. */
  datatype Call = Call(verb: Verb, url: string, body: Option<Json>, headers: seq<(string, string)>,
                       timeoutSeconds: int, tls: Option<TlsContext>)

  /** The request `_post_json` builds. */
  function PostCall(url: string, payload: Json, headers: seq<(string, string)>, tls: Option<TlsContext>): Call
  {
    Call(HttpPost, url, Some(payload), [("Content-Type", "application/json")] + headers, 15, tls)
  }

  /** The request `_get_json` builds. */
  function GetCall(url: string, headers: seq<(string, string)>, tls: Option<TlsContext>): Call
  {
    Call(HttpGet, url, None, headers, 10, tls)
  }

  /** What a request led to: a reply body, an HTTP error status with its body, a TLS failure or another failure. */
  datatype Outcome =
    | Reply(body: seq<Byte>)
    | HttpError(code: int, errorBody: seq<Byte>)
    | SslError
    | OtherError(message: string)

  /** `json.loads(exc.read().decode("utf-8")).get("detail")`, None when any step raises. */
  function ErrorDetail(p: Prims, body: seq<Byte>): Json
  {
    match p.utf8Decode(body)
    case None => JNull
    case Some(text) =>
      match p.jsonLoads(text)
      case None => JNull
      case Some(j) => if j.JObj? then Get(j, "detail") else JNull
  }

  /** `detail or f"HTTP error {exc.code}"`. */
  function HttpErrorMessage(p: Prims, code: int, body: seq<Byte>): (r: string)
    ensures Truthy(ErrorDetail(p, body)) ==> r == PyStr(p, ErrorDetail(p, body))
    ensures !Truthy(ErrorDetail(p, body)) ==> r == "HTTP error " + IntText(code)
  {
    var detail := ErrorDetail(p, body);
    if Truthy(detail) then PyStr(p, detail) else "HTTP error " + IntText(code)
  }

  /**
   * The reply of `_post_json` / `_get_json` as decoded JSON, or the
   * `SyncError` message. A body that is not UTF-8 JSON raises inside the
   * same `try`, so its message is the decoder's.
   */
  function ReadJson(p: Prims, o: Outcome): (r: Result<Json>)
    ensures r.Ok? ==> o.Reply? && p.utf8Decode(o.body).Some? && p.jsonLoads(p.utf8Decode(o.body).value) == Some(r.value)
    ensures o.HttpError? ==> r == Err(HttpErrorMessage(p, o.code, o.errorBody))
    ensures o.SslError? ==> r == Err(TlsFailed)
    ensures o.OtherError? ==> r == Err(o.message)
  {
    match o
    case Reply(body) =>
      (match p.utf8Decode(body)
       case None => Err("UnicodeDecodeError")
       case Some(text) =>
         match p.jsonLoads(text)
         case None => Err("JSONDecodeError")
         case Some(j) => Ok(j))
    case HttpError(code, body) => Err(HttpErrorMessage(p, code, body))
    case SslError => Err(TlsFailed)
    case OtherError(message) => Err(message)
  }

  /** The error body the vault sends with a refusal: `{"detail": ...}`. */
  function RefusalBody(p: Prims, detail: string): seq<Byte>
  {
    p.utf8Encode(p.jsonDumps(JObj(map["detail" := JStr(detail)])))
  }

  /** A vault refusal reaches the user as its own detail text; an empty one as the status code. */
  lemma RefusalMessage(p: Prims, code: int, detail: string)
    requires p.JsonLaw() && p.TextLaws()
    ensures ReadJson(p, HttpError(code, RefusalBody(p, detail)))
            == Err(if detail != "" then detail else "HTTP error " + IntText(code))
  {
    var j := JObj(map["detail" := JStr(detail)]);
    assert p.utf8Decode(p.utf8Encode(p.jsonDumps(j))) == Some(p.jsonDumps(j));
    assert p.jsonLoads(p.jsonDumps(j)) == Some(j);
    assert ErrorDetail(p, RefusalBody(p, detail)) == JStr(detail);
  }

  /** The reply body of a vault that answers with `payload`. */
  function ReplyOf(p: Prims, payload: Json): Outcome
  {
    Reply(p.utf8Encode(p.jsonDumps(payload)))
  }

  lemma ReadReply(p: Prims, payload: Json)
    requires p.JsonLaw() && p.TextLaws()
    ensures ReadJson(p, ReplyOf(p, payload)) == Ok(payload)
  {
    assert p.utf8Decode(p.utf8Encode(p.jsonDumps(payload))) == Some(p.jsonDumps(payload));
  }

  // ---------------------------------------------------------------------
  // The calls
  // ---------------------------------------------------------------------

  /** The request of `exchange_invite`: no token header; the device's user id is always sent. */
  function InviteCall(vaultUrl: string, request: InviteRequest, certPath: Option<string>, allowInsecure: bool)
    : (r: Result<Call>)
    ensures r.Ok? <==> BuildSslContext(vaultUrl, certPath, allowInsecure).Ok?
    ensures r.Ok? ==> r.value == PostCall(Endpoint(vaultUrl, InvitePath), EncodeInviteRequest(request), [],
                                          BuildSslContext(vaultUrl, certPath, allowInsecure).value)
  {
    var tls :- BuildSslContext(vaultUrl, certPath, allowInsecure);
    Ok(PostCall(Endpoint(vaultUrl, InvitePath), EncodeInviteRequest(request), [], tls))
  }

  function ExchangeInvite(p: Prims, vaultUrl: string, inviteToken: string, deviceName: string, userId: Uuid,
                          deviceId: Option<string>, certPath: Option<string>, allowInsecure: bool,
                          send: Call -> Outcome): (r: Result<InviteResponse>)
    ensures BuildSslContext(vaultUrl, certPath, allowInsecure).Err? ==>
              r == Err(BuildSslContext(vaultUrl, certPath, allowInsecure).error)
  {
    var call :- InviteCall(vaultUrl, InviteRequest(inviteToken, deviceName, Some(userId), deviceId), certPath,
                           allowInsecure);
    var reply :- ReadJson(p, send(call));
    DecodeInviteResponse(p, reply)
  }

  /** The request of `push_changes`, authenticated by the user token. */
  function PushCall(p: Prims, vaultUrl: string, userToken: string, request: SyncPushRequest,
                    certPath: Option<string>, allowInsecure: bool): (r: Result<Call>)
    ensures r.Ok? <==> BuildSslContext(vaultUrl, certPath, allowInsecure).Ok?
    ensures r.Ok? ==> r.value.verb == HttpPost && r.value.url == Endpoint(vaultUrl, PushPath)
                      && ("X-User-Token", userToken) in r.value.headers
                      && r.value.body == Some(EncodePushRequest(p, request))
  {
    var tls :- BuildSslContext(vaultUrl, certPath, allowInsecure);
    Ok(PostCall(Endpoint(vaultUrl, PushPath), EncodePushRequest(p, request), [("X-User-Token", userToken)], tls))
  }

  function PushChanges(p: Prims, vaultUrl: string, userToken: string, request: SyncPushRequest,
                       certPath: Option<string>, allowInsecure: bool, send: Call -> Outcome)
    : (r: Result<SyncPushResponse>)
    ensures BuildSslContext(vaultUrl, certPath, allowInsecure).Err? ==>
              r == Err(BuildSslContext(vaultUrl, certPath, allowInsecure).error)
  {
    var call :- PushCall(p, vaultUrl, userToken, request, certPath, allowInsecure);
    var reply :- ReadJson(p, send(call));
    DecodePushResponse(p, reply)
  }

  /** The request of `pull_changes`, authenticated by the user token. */
  function PullCall(p: Prims, vaultUrl: string, userToken: string, request: SyncPullRequest,
                    certPath: Option<string>, allowInsecure: bool): (r: Result<Call>)
    ensures r.Ok? <==> BuildSslContext(vaultUrl, certPath, allowInsecure).Ok?
    ensures r.Ok? ==> r.value.verb == HttpPost && r.value.url == Endpoint(vaultUrl, PullPath)
                      && ("X-User-Token", userToken) in r.value.headers
                      && r.value.body == Some(EncodePullRequest(p, request))
  {
    var tls :- BuildSslContext(vaultUrl, certPath, allowInsecure);
    Ok(PostCall(Endpoint(vaultUrl, PullPath), EncodePullRequest(p, request), [("X-User-Token", userToken)], tls))
  }

  function PullChanges(p: Prims, vaultUrl: string, userToken: string, request: SyncPullRequest,
                       certPath: Option<string>, allowInsecure: bool, send: Call -> Outcome)
    : (r: Result<SyncPullResponse>)
    ensures BuildSslContext(vaultUrl, certPath, allowInsecure).Err? ==>
              r == Err(BuildSslContext(vaultUrl, certPath, allowInsecure).error)
  {
    var call :- PullCall(p, vaultUrl, userToken, request, certPath, allowInsecure);
    var reply :- ReadJson(p, send(call));
    DecodePullResponse(p, reply)
  }

  /** What the client sends is what the vault reads: each request body decodes to the request. */
  lemma RequestsReachVault(p: Prims, vaultUrl: string, userToken: string, certPath: Option<string>,
                           allowInsecure: bool, invite: InviteRequest, push: SyncPushRequest, pull: SyncPullRequest)
    requires p.TimeLaws()
    requires BuildSslContext(vaultUrl, certPath, allowInsecure).Ok?
    ensures DecodeInviteRequest(p, InviteCall(vaultUrl, invite, certPath, allowInsecure).value.body.value)
            == Ok(invite)
    ensures DecodePushRequest(p, PushCall(p, vaultUrl, userToken, push, certPath, allowInsecure).value.body.value)
            == Ok(push)
    ensures DecodePullRequest(p, PullCall(p, vaultUrl, userToken, pull, certPath, allowInsecure).value.body.value)
            == Ok(pull)
  {
    InviteRequestRoundTrip(p, invite);
    PushRequestRoundTrip(p, push);
    PullRequestRoundTrip(p, pull);
  }

  /** A vault reply built from a response is read back as that response. */
  lemma RepliesReachClient(p: Prims, vaultUrl: string, userToken: string, certPath: Option<string>,
                           allowInsecure: bool, inviteToken: string, deviceName: string, userId: Uuid,
                           deviceId: Option<string>, invited: InviteResponse, push: SyncPushRequest,
                           pushed: SyncPushResponse, pull: SyncPullRequest, pulled: SyncPullResponse)
    requires p.JsonLaw() && p.TextLaws() && p.TimeLaws()
    requires BuildSslContext(vaultUrl, certPath, allowInsecure).Ok?
    ensures ExchangeInvite(p, vaultUrl, inviteToken, deviceName, userId, deviceId, certPath, allowInsecure,
                           _ => ReplyOf(p, EncodeInviteResponse(p, invited))) == Ok(invited)
    ensures PushChanges(p, vaultUrl, userToken, push, certPath, allowInsecure,
                        _ => ReplyOf(p, EncodePushResponse(p, pushed))) == Ok(pushed)
    ensures PullChanges(p, vaultUrl, userToken, pull, certPath, allowInsecure,
                        _ => ReplyOf(p, EncodePullResponse(p, pulled))) == Ok(pulled)
  {
    ReadReply(p, EncodeInviteResponse(p, invited));
    InviteResponseRoundTrip(p, invited);
    ReadReply(p, EncodePushResponse(p, pushed));
    PushResponseRoundTrip(p, pushed);
    ReadReply(p, EncodePullResponse(p, pulled));
    PullResponseRoundTrip(p, pulled);
  }

  /** A push the vault refuses fails with the vault's own detail text. */
  lemma PushRefusalReachesUser(p: Prims, vaultUrl: string, userToken: string, push: SyncPushRequest,
                               certPath: Option<string>, allowInsecure: bool, code: int, detail: string)
    requires p.JsonLaw() && p.TextLaws()
    requires BuildSslContext(vaultUrl, certPath, allowInsecure).Ok? && detail != ""
    ensures PushChanges(p, vaultUrl, userToken, push, certPath, allowInsecure,
                        _ => HttpError(code, RefusalBody(p, detail))) == Err(detail)
  {
    RefusalMessage(p, code, detail);
  }

  /** The request of `check_health`: a GET without credentials. */
  function HealthCall(vaultUrl: string, certPath: Option<string>, allowInsecure: bool): (r: Result<Call>)
    ensures r.Ok? <==> BuildSslContext(vaultUrl, certPath, allowInsecure).Ok?
    ensures r.Ok? ==> r.value.verb == HttpGet && r.value.url == Endpoint(vaultUrl, HealthPath) && r.value.headers == []
  {
    var tls :- BuildSslContext(vaultUrl, certPath, allowInsecure);
    Ok(GetCall(Endpoint(vaultUrl, HealthPath), [], tls))
  }

  function CheckHealth(p: Prims, vaultUrl: string, certPath: Option<string>, allowInsecure: bool,
                       send: Call -> Outcome): (r: Result<Json>)
    ensures BuildSslContext(vaultUrl, certPath, allowInsecure).Err? ==>
              r == Err(BuildSslContext(vaultUrl, certPath, allowInsecure).error)
  {
    var call :- HealthCall(vaultUrl, certPath, allowInsecure);
    ReadJson(p, send(call))
  }

  /** The body of `create_invite`: the expiry only when it is a non-zero number of days. */
  function CreateInviteBody(expiresInDays: Option<int>): (r: Json)
    ensures r.JObj? && ("expires_in_days" in r.fields <==> expiresInDays.Some? && expiresInDays.value != 0)
    ensures "expires_in_days" in r.fields ==> r.fields["expires_in_days"] == JInt(expiresInDays.value)
  {
    if expiresInDays.Some? && expiresInDays.value != 0 then JObj(map["expires_in_days" := JInt(expiresInDays.value)])
    else JObj(map[])
  }

  /** The request of `create_invite`, authenticated by the admin token. */
  function CreateInviteCall(vaultUrl: string, adminToken: string, certPath: Option<string>, allowInsecure: bool,
                            expiresInDays: Option<int>): (r: Result<Call>)
    ensures r.Ok? <==> BuildSslContext(vaultUrl, certPath, allowInsecure).Ok?
    ensures r.Ok? ==> r.value.verb == HttpPost && r.value.url == Endpoint(vaultUrl, AdminInvitesPath)
                      && ("X-Admin-Token", adminToken) in r.value.headers
                      && r.value.body == Some(CreateInviteBody(expiresInDays))
  {
    var tls :- BuildSslContext(vaultUrl, certPath, allowInsecure);
    Ok(PostCall(Endpoint(vaultUrl, AdminInvitesPath), CreateInviteBody(expiresInDays),
                [("X-Admin-Token", adminToken)], tls))
  }

  function CreateInvite(p: Prims, vaultUrl: string, adminToken: string, certPath: Option<string>,
                        allowInsecure: bool, expiresInDays: Option<int>, send: Call -> Outcome): (r: Result<Json>)
    ensures BuildSslContext(vaultUrl, certPath, allowInsecure).Err? ==>
              r == Err(BuildSslContext(vaultUrl, certPath, allowInsecure).error)
  {
    var call :- CreateInviteCall(vaultUrl, adminToken, certPath, allowInsecure, expiresInDays);
    ReadJson(p, send(call))
  }

  /** The request of `admin_overview`: a GET authenticated by the admin token. */
  function AdminOverviewCall(vaultUrl: string, adminToken: string, certPath: Option<string>, allowInsecure: bool)
    : (r: Result<Call>)
    ensures r.Ok? <==> BuildSslContext(vaultUrl, certPath, allowInsecure).Ok?
    ensures r.Ok? ==> r.value.verb == HttpGet && r.value.url == Endpoint(vaultUrl, AdminOverviewPath)
                      && r.value.headers == [("X-Admin-Token", adminToken)]
  {
    var tls :- BuildSslContext(vaultUrl, certPath, allowInsecure);
    Ok(GetCall(Endpoint(vaultUrl, AdminOverviewPath), [("X-Admin-Token", adminToken)], tls))
  }

  function AdminOverview(p: Prims, vaultUrl: string, adminToken: string, certPath: Option<string>,
                         allowInsecure: bool, send: Call -> Outcome): (r: Result<Json>)
    ensures BuildSslContext(vaultUrl, certPath, allowInsecure).Err? ==>
              r == Err(BuildSslContext(vaultUrl, certPath, allowInsecure).error)
  {
    var call :- AdminOverviewCall(vaultUrl, adminToken, certPath, allowInsecure);
    ReadJson(p, send(call))
  }
}
