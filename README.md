# body-metrics-tracker, modelled in Dafny

body-metrics-tracker is a desktop app for logging body weight and waist
measurements. It also includes a self-hosted sync vault, a relay for sharing with
friends, and a small browser app. This project models the parts of it that hold
the logic, and proves what they promise:

- **Records and units** (`models.dfy`, `units.dfy`, `common.dfy`, `text.dfy`,
  `uuid_text.dfy`). Covers profiles, friend links, measurement entries and their
  defaults. Timezone-aware timestamps are modelled as a wall time plus an offset,
  and dates as day ordinals. Unit conversion is done over the reals.
- **Library primitives** (`primitives.dfy`). JSON text, UTF-8, base64, ISO-8601
  text, SHA-256, PBKDF2, HKDF and AES-GCM are fields of a `Prims` record. Its
  `Lawful` predicate states the round-trip laws that the proofs rely on.
- **Encoders** (`friend_code.dfy`, `link_code.dfy`, `pwa_app.dfy`). Friend codes
  are base 58 in the Python client and in the browser app's own encoder. Link codes
  are base64url (section 5 of RFC 4648) of a small JSON object.
- **Aggregation** (`aggregation.dfy`, `trends.dfy`). Weeks start on Sunday. Each
  week gets a summary with mean weight and mean waist, and there are deltas from one
  week to the next. The trends screen adds a moving average, date ranges and weekly
  waist means.
- **Local store** (`codec.dfy`, `storage_crypto.dfy`, `local_store.dfy`). Covers the
  dict codec with its defaults, and the passphrase-encrypted container. It also
  covers the store's versioned document and the in-place edits of its entry list
  (add, update, soft delete with a tombstone).
- **Client state and sync** (`lww.dfy`, `client_state.dfy`, `sync_models.dfy`,
  `sync_client.dfy`, `sync_round.dfy`). Covers the last-writer-wins merge of pulled
  changes into the entry list and the wire messages. It also covers the client's
  TLS and URL decisions, and one sync round: push what changed since the cursor,
  pull from the push's `next_since`, merge, move the cursor.
- **Vault** (`vault_store.dfy`, `vault_server.dfy`, `vault_crypto.dfy`). The
  in-memory record store is a class whose map fields its methods update. The HTTP
  handlers are modelled as operations on the store, with status codes. The
  per-user encryption at rest is modelled too.
- **GUI logic** (`widgets.dfy`, `dialogs.dfy`, `history.dfy`, `friends.dfy`).
  Covers the entry form's warnings and duplicate test, and the edit, passphrase and
  new-profile dialogs. It also covers the history filter and CSV rows, and the
  friend-link status machine driven by invite, acceptance, share and reminder files.
- **Relay** (`relay.dfy`). The Cloudflare worker's tables are modelled as maps keyed
  by their primary keys. Registration, invites, acceptance, share settings, removal,
  history push (last writer wins on `updated_at`) and history fetch are modelled as
  transitions on those maps. The `RelayDb` class applies them in place.

Randomness (tokens, ids, salts, nonces) and the clock are parameters of the members
that use them. An operation with a loop in the source is a method with loop
invariants. Each such method is proved against a function, and the lemmas are
stated about that function.

## Model

| member | source | states |
|---|---|---|
| Units.LbToKg | src/body_metrics_tracker/core/units.py:9-10 | pounds are divided by 2.2046226218: the kilogram value times the constant gives back the pounds |
| Units.KgToLb | src/body_metrics_tracker/core/units.py:13-14 | the inverse of LbToKg: the pounds divided by the constant give back the kilograms |
| Units.InToCm | src/body_metrics_tracker/core/units.py:17-18 | inches times 2.54; dividing the centimetres by 2.54 gives back the inches |
| Units.CmToIn | src/body_metrics_tracker/core/units.py:21-22 | the inverse of InToCm |
| Units.NormalizeWeight | src/body_metrics_tracker/core/units.py:25-30 | kilograms are kept; pounds become the kilogram value whose pound equivalent is the input |
| Units.NormalizeWaist | src/body_metrics_tracker/core/units.py:33-38 | centimetres are kept; inches become the centimetre value whose inch equivalent is the input |
| Units.WeightFromKg | src/body_metrics_tracker/core/units.py:41-46 | kilograms are kept; for pounds the result converts back to the given kilograms |
| Units.WaistFromCm | src/body_metrics_tracker/core/units.py:49-54 | centimetres are kept; for inches the result converts back to the given centimetres |
| Units.WeightRoundTrips | src/body_metrics_tracker/core/units.py:25-46 | storing a weight in kg and displaying it in the same unit gives the value back, in both orders |
| Units.WaistRoundTrips | src/body_metrics_tracker/core/units.py:33-54 | the same round trip for waist measurements |
| Units.ConversionsMonotone | src/body_metrics_tracker/core/units.py:5-54 | every conversion keeps strict order, so a heavier or larger value stays heavier or larger in any unit |
| Models.WeightUnitOf | src/body_metrics_tracker/core/models.py:9-11 | `WeightUnit(s)` succeeds exactly for "kg" and "lb" and yields the member whose value is `s` |
| Models.LengthUnitOf | src/body_metrics_tracker/core/models.py:14-16 | `LengthUnit(s)` succeeds exactly for "cm" and "in" and yields the member whose value is `s` |
| Models.UnitValuesRoundTrip | src/body_metrics_tracker/core/models.py:9-16 | each unit's stored value reads back as the same unit |
| Models.NewFriendLink | src/body_metrics_tracker/core/models.py:42-47 | a new friend link carries the given id and name, status "invited" and the current time |
| Models.NewProfile | src/body_metrics_tracker/core/models.py:23-39 | every dataclass default of a new profile: name "User", lb and in, waist tracking and dark mode off, label, timezone, accent colour, no goals, no friends |
| Models.NewEntry | src/body_metrics_tracker/core/models.py:50-69 | construction fails exactly for a naive measured_at, with that message; otherwise every field is kept and a missing date_local becomes the measured date |
| Models.NewEntryWithDefaults | src/body_metrics_tracker/core/models.py:56-63 | the remaining defaults: version 1, not deleted, no note, created and updated now, date_local the measured date |
| Aggregation.WeekStartDate | src/body_metrics_tracker/core/aggregation.py:26-28 | the week start is a Sunday no later than the day and less than seven days before it |
| Aggregation.SundayUnique | src/body_metrics_tracker/core/aggregation.py:26-28 | any Sunday within the six days up to a date is that date's week start |
| Aggregation.WeekStartIdempotent | src/body_metrics_tracker/core/aggregation.py:26-28 | the week start of a week start is itself |
| Aggregation.Bucket | src/body_metrics_tracker/core/aggregation.py:32-39 | a week's bucket holds only live, dated entries of that week and is no longer than the input |
| Aggregation.Weights | src/body_metrics_tracker/core/aggregation.py:43 | one weight per bucket entry, in order |
| Aggregation.Waists | src/body_metrics_tracker/core/aggregation.py:44 | the waist list is empty exactly when no entry of the bucket has a waist |
| Aggregation.SortByWeek | src/body_metrics_tracker/core/aggregation.py:54 | the sort keeps exactly the same summaries and orders them by strictly ascending week start |
| Aggregation.InsertByWeek | src/body_metrics_tracker/core/aggregation.py:54 | one insertion step of that sort keeps the order strict and adds exactly the new summary |
| Aggregation.BucketMapSpec | src/body_metrics_tracker/core/aggregation.py:32-39 | the bucket dictionary has a key exactly for the non-empty weeks, holding that week's bucket |
| Aggregation.FirstSeenSpec | src/body_metrics_tracker/core/aggregation.py:32-39 | the dictionary's insertion order lists each key once and nothing else |
| Aggregation.GroupByWeek | src/body_metrics_tracker/core/aggregation.py:32-39 | the grouping loop fails exactly when a live entry has no date, and otherwise builds the bucket dictionary in first-seen order |
| Aggregation.SummarizeBuckets | src/body_metrics_tracker/core/aggregation.py:41-52 | the summary loop builds one summary per key, in insertion order, from that key's bucket |
| Aggregation.ComputeWeeklySummaries | src/body_metrics_tracker/core/aggregation.py:31-55 | fails with "entry.date_local must be set" exactly when a live entry is undated; otherwise one summary per non-empty week, ascending, each describing its week's bucket |
| Aggregation.GroupSpec | src/body_metrics_tracker/core/aggregation.py:32-39 | every first-seen week has a non-empty bucket, every non-empty week is seen, and no week is seen twice |
| Aggregation.SummariesSpec | src/body_metrics_tracker/core/aggregation.py:41-52 | the unsorted summaries cover exactly the non-empty weeks, once each |
| Aggregation.CountsSumToLive | src/body_metrics_tracker/core/aggregation.py:31-55 | the weekly entry counts add up to the number of non-deleted entries |
| Aggregation.BucketSizesCover | src/body_metrics_tracker/core/aggregation.py:32-39 | bucket sizes over distinct weeks that cover every live entry add up to the live count |
| Aggregation.AverageWithinBounds | src/body_metrics_tracker/core/aggregation.py:43-50 | a week's average weight lies between its lightest and heaviest entry; the count is the bucket size; the waist average is absent exactly when no entry has a waist |
| Aggregation.MeanBetween | src/body_metrics_tracker/core/aggregation.py:48 | a mean of values within bounds stays within those bounds |
| Aggregation.ComputeWeeklyDeltas | src/body_metrics_tracker/core/aggregation.py:58-95 | one delta per summary with the same week; the first week and weeks not exactly 7 days after the previous have no delta; otherwise the difference of averages, and the waist delta only when both waists exist |
| Aggregation.DeltasTelescope | src/body_metrics_tracker/core/aggregation.py:58-95 | across a run of present deltas, the weeks are consecutive and the weight deltas add up to the change in average weight |
| FriendCode.AlphabetIndex | src/body_metrics_tracker/core/friend_code.py:5-6 | the alphabet has 58 characters and looking up each character's index gives its position |
| FriendCode.AlphabetExcludesLookalikes | src/body_metrics_tracker/core/friend_code.py:5 | the alphabet leaves out 0, O, I and l |
| FriendCode.EncodeFriendCode | src/body_metrics_tracker/core/friend_code.py:9-19 | the division loop computes the base-58 text of the id's bytes, with one "1" per leading zero byte |
| FriendCode.DecodeFriendCode | src/body_metrics_tracker/core/friend_code.py:22-42 | the result is the decoding function: empty, invalid character and wrong length are errors, and text that `UUID()` accepts is taken first |
| FriendCode.DecodeBase58 | src/body_metrics_tracker/core/friend_code.py:30-42 | the digit loop returns the base58 decoding: an invalid character or a value that is not sixteen bytes is an error |
| FriendCode.ZeroEncoding | src/body_metrics_tracker/core/friend_code.py:12-13 | the all-zero id encodes as sixteen "1"s |
| FriendCode.NilEncoding | src/body_metrics_tracker/core/friend_code.py:12-19 | the zero shortcut and the general rule agree on the all-zero id |
| FriendCode.EncodingLength | src/body_metrics_tracker/core/friend_code.py:9-19 | a friend code is at most 31 characters long |
| FriendCode.EncodingChars | src/body_metrics_tracker/core/friend_code.py:14-19 | every character is in the alphabet and the digits read back as the id's big-endian value |
| FriendCode.EncodingLeadingOnes | src/body_metrics_tracker/core/friend_code.py:18-19 | the code starts with exactly as many "1"s as the id has leading zero bytes |
| FriendCode.EncodingIsPlain | src/body_metrics_tracker/core/friend_code.py:23-29 | a code is non-empty, has no surrounding space and never parses as UUID text, so decoding takes the base-58 path |
| FriendCode.DecodingBranches | src/body_metrics_tracker/core/friend_code.py:22-42 | non-empty stripped text that is not UUID text is decoded as base 58 |
| FriendCode.Base58DecodingOfEncoding | src/body_metrics_tracker/core/friend_code.py:30-42 | the base-58 path inverts the encoder |
| FriendCode.DecodeEncode | src/body_metrics_tracker/core/friend_code.py:9-42 | decoding a friend code gives back the user id |
| FriendCode.EncodeDecode | src/body_metrics_tracker/core/friend_code.py:9-42 | a base-58 code that decodes to an id is, once stripped, exactly the encoding of that id |
| FriendCode.MinimalBytesOfBigEndian | src/body_metrics_tracker/core/friend_code.py:37 | `to_bytes` of the minimal length inverts `from_bytes` on text without a leading zero byte |
| FriendCode.BigEndianOfMinimalBytes | src/body_metrics_tracker/core/friend_code.py:11-37 | `from_bytes` inverts the minimal `to_bytes` |
| FriendCode.CanonicalDigits | src/body_metrics_tracker/core/friend_code.py:14-36 | digits without a leading "1" are the canonical base-58 text of their value |
| LinkCode.Encode | src/body_metrics_tracker/core/link_code.py:10-14 | a link code starts with "bmtlink:v1:" |
| LinkCode.EncodedBody | src/body_metrics_tracker/core/link_code.py:13 | the part after the prefix is URL-safe base64 without "=" |
| LinkCode.Pad | src/body_metrics_tracker/core/link_code.py:26 | padding adds fewer than four "=" to reach a multiple of four and keeps the text |
| LinkCode.PadBody | src/body_metrics_tracker/core/link_code.py:13-27 | padding the stripped base64 restores the encoder's output exactly |
| LinkCode.Decode | src/body_metrics_tracker/core/link_code.py:17-32 | empty input fails with "Missing link code" |
| LinkCode.CodeText | src/body_metrics_tracker/core/link_code.py:20-22 | stripping and dropping the prefix never lengthens the text |
| LinkCode.PayloadOf | src/body_metrics_tracker/core/link_code.py:23-28 | text starting with "{" is read as raw JSON and fails exactly when it does not parse |
| LinkCode.UserIdOf | src/body_metrics_tracker/core/link_code.py:29-32 | a falsy user_id fails with "Link code missing user_id"; success means user_id was UUID text for the result |
| LinkCode.DecodeEncode | src/body_metrics_tracker/core/link_code.py:10-32 | decoding a link code gives back the user id |
| LinkCode.PrefixOptional | src/body_metrics_tracker/core/link_code.py:21-22 | a code decodes the same with or without the prefix |
| LinkCode.UrlSafeNotJson | src/body_metrics_tracker/core/link_code.py:23 | URL-safe base64 never starts with "{", so encoded codes never take the raw-JSON path |
| Lww.NewerIrreflexive | src/body_metrics_tracker/vault/store.py:520-525 | a change never supersedes an equal copy of itself, so a re-sent change is not applied again |
| Lww.NewerAsymmetric | src/body_metrics_tracker/vault/store.py:520-525 | two copies of an entry never supersede each other |
| Lww.NewerTransitive | src/body_metrics_tracker/vault/store.py:520-525 | the last-writer-wins order (version first, then updated_at) is transitive |
| Lww.NotNewerPreserved | src/body_metrics_tracker/vault/store.py:520-525 | a copy that lost against the stored one also loses against any copy that replaced it |
| SyncModels.DecodeOptUuid | src/body_metrics_tracker/sync/models.py:52-54 | a falsy optional id decodes as absent; otherwise decoding succeeds exactly when the id parses |
| SyncModels.DecodeInviteRequest | src/body_metrics_tracker/sync/models.py:47-55 | success needs invite_token and device_name; a falsy user_id and a missing device_id decode as absent |
| SyncModels.OptUuidRoundTrip | src/body_metrics_tracker/sync/models.py:39-55 | an optional id survives encoding and decoding |
| SyncModels.InviteRequestRoundTrip | src/body_metrics_tracker/sync/models.py:33-55 | `InviteRequest.from_dict(to_dict(r)) == r` |
| SyncModels.DecodeInviteResponse | src/body_metrics_tracker/sync/models.py:70-78 | success needs user_id and user_token; a falsy expires_at decodes as absent |
| SyncModels.InviteResponseRoundTrip | src/body_metrics_tracker/sync/models.py:58-78 | `InviteResponse.from_dict(to_dict(r)) == r` |
| SyncModels.ToEntry | src/body_metrics_tracker/sync/models.py:145-161 | the rebuilt entry always has a local date, the measured date when the change had none |
| SyncModels.EntryChangeEntry | src/body_metrics_tracker/sync/models.py:129-161 | turning an entry into a change and back gives the same entry |
| SyncModels.ChangeEntryChange | src/body_metrics_tracker/sync/models.py:129-161 | a change survives a trip through an entry exactly when it carries a local date |
| SyncModels.DecodeChange | src/body_metrics_tracker/sync/models.py:111-128 | the decoded change takes is_deleted from the payload's truthiness, defaults version to 1, and reads falsy deleted_at, waist_cm and date_local as absent |
| SyncModels.ChangeRoundTrip | src/body_metrics_tracker/sync/models.py:81-128 | `SyncEntryChange.from_dict(to_dict(c)) == c` for every aware change |
| SyncModels.NaiveChangeRejected | src/body_metrics_tracker/sync/models.py:111-161 | a change whose times carry no offset is refused |
| SyncModels.ChangesRoundTrip | src/body_metrics_tracker/sync/models.py:170-187 | a list of changes survives encoding and decoding, in order |
| SyncModels.DecodeChangeList | src/body_metrics_tracker/sync/models.py:183 | a missing changes list decodes as empty |
| SyncModels.DecodePushRequest | src/body_metrics_tracker/sync/models.py:178-187 | success needs user_id and device_id; a falsy since is absent and missing changes are empty |
| SyncModels.PushRequestRoundTrip | src/body_metrics_tracker/sync/models.py:164-187 | `SyncPushRequest.from_dict(to_dict(r)) == r` |
| SyncModels.DecodePushResponse | src/body_metrics_tracker/sync/models.py:202-209 | success needs server_time and next_since; a missing accepted_count is 0 |
| SyncModels.PushResponseRoundTrip | src/body_metrics_tracker/sync/models.py:190-209 | `SyncPushResponse.from_dict(to_dict(r)) == r` |
| SyncModels.DecodePullRequest | src/body_metrics_tracker/sync/models.py:224-232 | success needs user_id and device_id; a falsy since is absent |
| SyncModels.PullRequestRoundTrip | src/body_metrics_tracker/sync/models.py:212-232 | `SyncPullRequest.from_dict(to_dict(r)) == r` |
| SyncModels.DecodePullResponse | src/body_metrics_tracker/sync/models.py:247-254 | success needs server_time and next_since; missing changes are empty |
| SyncModels.PullResponseRoundTrip | src/body_metrics_tracker/sync/models.py:235-254 | `SyncPullResponse.from_dict(to_dict(r)) == r` |
| SyncClient.BuildSslContext | src/body_metrics_tracker/sync/client.py:171-184 | https always succeeds, pinned to the certificate when one is given; http succeeds only with insecure HTTP allowed and then has no TLS context; every other URL fails, each refusal with its own message |
| SyncClient.Endpoint | src/body_metrics_tracker/sync/client.py:102-166 | the URL ends with the path, the base has its trailing slashes removed and is a prefix of the vault URL |
| SyncClient.EndpointTrailingSlash | src/body_metrics_tracker/sync/client.py:102 | a trailing slash on the vault URL does not change any endpoint |
| SyncClient.HttpErrorMessage | src/body_metrics_tracker/sync/client.py:48-54 | an HTTP error reports the body's truthy detail, otherwise "HTTP error <code>" |
| SyncClient.ReadJson | src/body_metrics_tracker/sync/client.py:44-58 | a reply is decoded from UTF-8 JSON; HTTP errors, TLS errors and other failures become their messages |
| SyncClient.RefusalMessage | src/body_metrics_tracker/sync/client.py:48-54 | a vault refusal's detail reaches the user, or "HTTP error <code>" when it is empty |
| SyncClient.ReadReply | src/body_metrics_tracker/sync/client.py:44-47 | a JSON reply reads back as the payload that was sent |
| SyncClient.InviteCall | src/body_metrics_tracker/sync/client.py:87-105 | the invite call is built exactly when the TLS context is, as a POST of the encoded request to /auth/invite |
| SyncClient.ExchangeInvite | src/body_metrics_tracker/sync/client.py:87-105 | a refused TLS context fails the exchange with its message |
| SyncClient.PushCall | src/body_metrics_tracker/sync/client.py:108-122 | a POST of the encoded push request to /sync/push carrying the X-User-Token header |
| SyncClient.PushChanges | src/body_metrics_tracker/sync/client.py:108-122 | a refused TLS context fails the push with its message |
| SyncClient.PullCall | src/body_metrics_tracker/sync/client.py:125-138 | a POST of the encoded pull request to /sync/pull carrying the X-User-Token header |
| SyncClient.PullChanges | src/body_metrics_tracker/sync/client.py:125-138 | a refused TLS context fails the pull with its message |
| SyncClient.RequestsReachVault | src/body_metrics_tracker/sync/client.py:87-138 | the body each call sends decodes on the vault side to the request the client built |
| SyncClient.RepliesReachClient | src/body_metrics_tracker/sync/client.py:87-138 | a vault reply built from a response decodes on the client side to that response |
| SyncClient.PushRefusalReachesUser | src/body_metrics_tracker/sync/client.py:48-122 | a push refused with a detail fails with that detail |
| SyncClient.HealthCall | src/body_metrics_tracker/sync/client.py:141-144 | a GET of /health with no headers |
| SyncClient.CheckHealth | src/body_metrics_tracker/sync/client.py:141-144 | a refused TLS context fails the health check with its message |
| SyncClient.CreateInviteBody | src/body_metrics_tracker/sync/client.py:155 | expires_in_days is sent exactly when it is given and non-zero |
| SyncClient.CreateInviteCall | src/body_metrics_tracker/sync/client.py:147-157 | a POST to /admin/invites carrying the X-Admin-Token header and that body |
| SyncClient.CreateInvite | src/body_metrics_tracker/sync/client.py:147-157 | a refused TLS context fails the call with its message |
| SyncClient.AdminOverviewCall | src/body_metrics_tracker/sync/client.py:160-168 | a GET of /admin/overview carrying only the X-Admin-Token header |
| SyncClient.AdminOverview | src/body_metrics_tracker/sync/client.py:160-168 | a refused TLS context fails the call with its message |
| SyncRound.OrNone | src/body_metrics_tracker/gui/sync.py:257-261 | a field is saved as absent exactly when it is blank after stripping, otherwise as its stripped text |
| SyncRound.OrText | src/body_metrics_tracker/gui/sync.py:179-183 | a saved value fills the field when it is non-empty, otherwise the default does |
| SyncRound.DefaultDeviceName | src/body_metrics_tracker/gui/sync.py:424-426 | the default device name is never empty: the stripped host name, or "My Device" |
| SyncRound.SavedSettings | src/body_metrics_tracker/gui/sync.py:254-264 | saving keeps the last sync time and stores each field as the form shows it, blank text as absent |
| SyncRound.ClampInterval | src/body_metrics_tracker/gui/sync.py:127-186 | the interval box holds 5 to 120 minutes and keeps a value already in range |
| SyncRound.LoadedForm | src/body_metrics_tracker/gui/sync.py:175-186 | loading fills each field from the settings, with the default device name and a fresh device id for missing ones |
| SyncRound.SaveThenLoad | src/body_metrics_tracker/gui/sync.py:175-264 | saving the form and loading it again shows the form with its fields trimmed |
| SyncRound.LastSyncStatus | src/body_metrics_tracker/gui/sync.py:192-197 | "Last sync: never" without a sync time, otherwise the formatted local time |
| SyncRound.Changes | src/body_metrics_tracker/gui/sync.py:382 | one change per entry, built from that entry, in order |
| SyncRound.RunSync | src/body_metrics_tracker/gui/sync.py:384-404 | a failed push ends the round with its error; otherwise the pull starts at the push's next_since and the round yields both replies or the pull's error |
| SyncRound.PushPullEndpointsDiffer | src/body_metrics_tracker/sync/client.py:119-135 | push and pull go to different URLs |
| SyncRound.RoundWithVault | src/body_metrics_tracker/gui/sync.py:384-404 | with a vault that answers both calls, the round yields both answers |
| SyncRound.PushToVault | src/body_metrics_tracker/gui/sync.py:385-394 | the push half of the round returns the vault's push answer |
| SyncRound.PullFromVault | src/body_metrics_tracker/gui/sync.py:395-403 | the pull half of the round returns the vault's pull answer |
| SyncRound.TextField | src/body_metrics_tracker/gui/sync.py:217-218 | a missing invite-file field reads as empty text |
| SyncRound.ReadInvite | src/body_metrics_tracker/gui/sync.py:212-216 | an unreadable file warns "Invalid Invite File" with the error; bytes that are not UTF-8 raise UnicodeDecodeError, which the handler does not catch; decoded text is read as ReadInviteText reads it |
| SyncRound.ReadInviteText | src/body_metrics_tracker/gui/sync.py:213-222 | invalid JSON warns "Invalid Invite File"; a non-object raises; a blank URL or token warns; otherwise the stripped URL, token and certificate are read |
| SyncRound.ImportInvite | src/body_metrics_tracker/gui/sync.py:203-235 | a refused file leaves the form alone; otherwise URL and token are set, a bad certificate warns and stops there, and a complete import fills a blank device name and turns insecure HTTP off |
| SyncRound.Take | src/body_metrics_tracker/gui/sync.py:435 | a slice `[:n]` is the first n characters, or the whole text when it is shorter |
| SyncRound.StoreCertPem | src/body_metrics_tracker/gui/sync.py:428-438 | text without "BEGIN CERTIFICATE" is refused; otherwise the file is `vault/vault_<digest>.crt` under the app data root |
| SyncRound.CertNamesFollowDigest | src/body_metrics_tracker/gui/sync.py:435-436 | certificates with different digest prefixes are stored under different names |
| SyncRound.SyncWidget.constructor | src/body_metrics_tracker/gui/sync.py:175-197 | the widget starts idle, with the active profile's settings loaded into the form and the last-sync status shown |
| SyncRound.SyncWidget.StartSync | src/body_metrics_tracker/gui/sync.py:352-410 | nothing happens while a worker runs; otherwise a task starts exactly when sync is enabled and URL, token and device id are set, after the settings are saved |
| SyncRound.SyncWidget.Prepare | src/body_metrics_tracker/gui/sync.py:355-382 | the checks and the settings save before a sync, and the job's since and changes |
| SyncRound.SyncWidget.Begin | src/body_metrics_tracker/gui/sync.py:370-382 | the started task carries the saved settings and the entries changed since the last sync |
| SyncRound.SyncWidget.ReplaceSettings | src/body_metrics_tracker/gui/sync.py:370-417 | the active profile gets the new settings and nothing else changes but the modification time |
| SyncRound.SyncWidget.OnSyncCompleted | src/body_metrics_tracker/gui/sync.py:412-418 | the pulled changes are applied by last writer wins, the cursor moves to next_since and the status counts the applied changes |
| SyncRound.SyncWidget.MoveCursor | src/body_metrics_tracker/gui/sync.py:415-417 | only the active profile's last_sync_at changes, to the pull's next_since |
| SyncRound.SyncWidget.OnTaskFailed | src/body_metrics_tracker/gui/sync.py:420-422 | the worker is released and the status shows "Sync error: " and the message |
| SyncRound.SyncWidget.ImportInviteFile | src/body_metrics_tracker/gui/sync.py:203-235 | the form becomes what ImportInvite gives and the status changes only on a complete import |
| VaultStore.HashTokenInjective | src/body_metrics_tracker/vault/store.py:24-25 | different tokens are stored under different hashes, as long as SHA-256 and UTF-8 do not collide |
| VaultStore.ParseDt | src/body_metrics_tracker/vault/store.py:28-32 | parsing succeeds exactly for ISO text with an offset; naive text fails with "Timestamp must be timezone-aware" |
| VaultStore.ParseDtRoundTrip | src/body_metrics_tracker/vault/store.py:28-32 | an aware instant written with isoformat parses back to itself |
| VaultStore.ShouldAccept | src/body_metrics_tracker/vault/store.py:520-525 | `should_accept` is exactly the last-writer-wins order: higher version, or equal version and later updated_at |
| VaultStore.ShouldAcceptVersion | src/body_metrics_tracker/vault/store.py:528-533 | `should_accept_version` is the same order on a stored version and time |
| VaultStore.ShouldAcceptVersionAgrees | src/body_metrics_tracker/vault/store.py:520-533 | the two copies of the rule agree |
| VaultStore.StoreChange | src/body_metrics_tracker/vault/store.py:155-160 | one change is stored when it is new or supersedes the stored copy; every other entry is kept |
| VaultStore.Accepted | src/body_metrics_tracker/vault/store.py:153-161 | the accepted count never exceeds the number of changes |
| VaultStore.MergeKeys | src/body_metrics_tracker/vault/store.py:154-160 | after a push the user's entries are the old ones plus every pushed entry id |
| VaultStore.MergeFiled | src/body_metrics_tracker/vault/store.py:154-160 | every stored change is filed under its own entry id |
| VaultStore.MergeNeverRegresses | src/body_metrics_tracker/vault/store.py:155-160 | a push never replaces an entry with an older copy, and versions never drop |
| VaultStore.MergeSettles | src/body_metrics_tracker/vault/store.py:155-160 | after a push no pushed change would supersede what is stored |
| VaultStore.MergeStable | src/body_metrics_tracker/vault/store.py:155-160 | pushing changes none of which supersedes the stored copies changes nothing and accepts nothing |
| VaultStore.MergeIdempotent | src/body_metrics_tracker/vault/store.py:149-161 | pushing the same batch twice changes nothing the second time and accepts nothing |
| VaultStore.WithUser | src/body_metrics_tracker/vault/store.py:98-103 | an unknown user is added with created_at now and no last_seen_at; known users are kept |
| VaultStore.Seen | src/body_metrics_tracker/vault/store.py:120 | only the user's last_seen_at changes, to now |
| VaultStore.WithDevice | src/body_metrics_tracker/vault/store.py:105-119 | a new device is recorded for the user; a known one gets its name replaced only by a truthy name, and its last_seen_at set to now |
| VaultStore.InviteCheck | src/body_metrics_tracker/vault/store.py:125-134 | an unknown hash is "Invalid invite token", a used one "already used", an expired one "expired"; any other invite is accepted |
| VaultStore.RedeemedInviteRefused | src/body_metrics_tracker/vault/store.py:130-135 | an invite that was consumed is refused as already used |
| VaultStore.NonBlankSound | src/body_metrics_tracker/vault/store.py:89 | every token read from the list is a non-empty stripped piece |
| VaultStore.NonBlankComplete | src/body_metrics_tracker/vault/store.py:89 | every non-blank piece is read as a token |
| VaultStore.InviteTokensSpec | src/body_metrics_tracker/vault/store.py:88-89 | the tokens are exactly the non-blank stripped comma-separated pieces |
| VaultStore.RegisteredSpec | src/body_metrics_tracker/vault/store.py:87-96 | loading adds a fresh unused, unexpiring invite for each new token hash and keeps existing invites as they were |
| VaultStore.InsertDesc | src/body_metrics_tracker/vault/store.py:222 | one insertion step of the sort adds exactly the new row |
| VaultStore.InsertDescSorted | src/body_metrics_tracker/vault/store.py:222 | the insertion keeps rows in descending created_at order |
| VaultStore.CreatedKeyOfRow | src/body_metrics_tracker/vault/store.py:217-222 | an invite row sorts by its isoformat created_at |
| VaultStore.ListRows | src/body_metrics_tracker/vault/store.py:169-197 | one row per stored record, each id once, each row built from its record |
| VaultStore.InMemoryVaultStore.constructor | src/body_metrics_tracker/vault/store.py:80-85 | a new store is empty |
| VaultStore.InMemoryVaultStore.LoadInvitesFromEnv | src/body_metrics_tracker/vault/store.py:87-96 | the invite table becomes the registration of the configured tokens; nothing else changes |
| VaultStore.InMemoryVaultStore.RegisterTokens | src/body_metrics_tracker/vault/store.py:89-96 | the loop registers each token in turn |
| VaultStore.InMemoryVaultStore.RegisterAll | src/body_metrics_tracker/vault/store.py:89-96 | the loop's result is the registration of all tokens |
| VaultStore.InMemoryVaultStore.EnsureUser | src/body_metrics_tracker/vault/store.py:98-103 | the user table gains the user if missing; nothing else changes |
| VaultStore.InMemoryVaultStore.RecordDevice | src/body_metrics_tracker/vault/store.py:105-120 | the device is recorded, the user ensured and marked seen; invites, tokens and entries stay |
| VaultStore.InMemoryVaultStore.TouchDevice | src/body_metrics_tracker/vault/store.py:122-123 | recording without a name keeps a known device's name |
| VaultStore.InMemoryVaultStore.ConsumeInvite | src/body_metrics_tracker/vault/store.py:125-135 | the outcome is InviteCheck on the token's hash; a success marks the invite used, a refusal changes nothing |
| VaultStore.InMemoryVaultStore.Authenticate | src/body_metrics_tracker/vault/store.py:142-147 | succeeds exactly when the token's hash is registered, with its user; otherwise "Invalid user token" |
| VaultStore.InMemoryVaultStore.IssueUserToken | src/body_metrics_tracker/vault/store.py:137-140 | the token is 64 hex characters of the random bytes and authenticates as the user afterwards |
| VaultStore.InMemoryVaultStore.ApplyChanges | src/body_metrics_tracker/vault/store.py:149-161 | the user's entries become the last-writer-wins merge of the batch, the count is the number of accepted changes, the user is ensured and the device touched when given |
| VaultStore.InMemoryVaultStore.MergeBatch | src/body_metrics_tracker/vault/store.py:155-161 | the loop computes the merge and its accepted count |
| VaultStore.InMemoryVaultStore.ChangesSince | src/body_metrics_tracker/vault/store.py:163-167 | the result holds exactly the user's stored changes updated after `since` (all of them without one), each once |
| VaultStore.InMemoryVaultStore.CreateInviteToken | src/body_metrics_tracker/vault/store.py:202-209 | a URL-safe token is registered with the given expiry and is redeemable now unless already expired |
| VaultStore.InMemoryVaultStore.CountEntries | src/body_metrics_tracker/vault/store.py:199-200 | the count is the number of stored (user, entry) pairs |
| VaultStore.InMemoryVaultStore.ListUsers | src/body_metrics_tracker/vault/store.py:169-183 | one row per user, each user once, with that user's device and entry counts |
| VaultStore.InMemoryVaultStore.ListDevices | src/body_metrics_tracker/vault/store.py:185-197 | one row per device, each device once |
| VaultStore.InMemoryVaultStore.ListInvites | src/body_metrics_tracker/vault/store.py:211-223 | one row per invite, newest created_at first |
| VaultStore.InMemoryVaultStore.SortDesc | src/body_metrics_tracker/vault/store.py:222 | the sort is a permutation of the hashes into descending order |
| VaultServer.RequireAdmin | src/body_metrics_tracker/vault/server.py:129-133 | without a configured admin token every call is 503; otherwise only the matching header passes and anything else is 401 |
| VaultServer.ParseSince | src/body_metrics_tracker/vault/server.py:107-112 | an empty since means no cursor; a parsed cursor is the aware instant the text names |
| VaultServer.InviteExpiry | src/body_metrics_tracker/vault/server.py:150-152 | no payload or a falsy expires_in_days means no expiry; otherwise now plus that many days |
| VaultServer.VaultApp.constructor | src/body_metrics_tracker/vault/server.py:25-27 | the app starts with an in-memory store holding only the configured invites |
| VaultServer.VaultApp.AuthInvite | src/body_metrics_tracker/vault/server.py:37-50 | a refused invite is 403 and changes nothing; otherwise the invite is marked used, the user ensured (and marked seen with its device recorded when a device is named), the token table gains exactly the new token's hash for the returned user id, and entries are kept |
| VaultServer.VaultApp.Authorize | src/body_metrics_tracker/vault/server.py:56-61 | a token authorizes exactly the user it was issued for |
| VaultServer.VaultApp.SyncPush | src/body_metrics_tracker/vault/server.py:53-70 | a bad token is 401, a wrong user 403, both without change; otherwise the device is touched, the user ensured and seen, the batch merged into that user's entries only, invites and tokens kept, and the reply counts the writes with next_since the server time |
| VaultServer.VaultApp.SyncPull | src/body_metrics_tracker/vault/server.py:73-90 | the same authorization, then the changes since the cursor and next_since the server time; the device is touched and the user seen, and entries, invites and tokens are kept |
| VaultServer.VaultApp.SyncPullQuery | src/body_metrics_tracker/vault/server.py:93-126 | the query form parses the user id first, checks the token and user, refuses a naive since with 400 without change, then answers and touches the device like the pull |
| VaultServer.VaultApp.Pull | src/body_metrics_tracker/vault/server.py:82-90 | the pull reply lists the changes since the cursor; only touch_device's device refresh and user last-seen change the tables |
| VaultServer.VaultApp.AdminOverview | src/body_metrics_tracker/vault/server.py:136-144 | a refused admin token gets the refusal; otherwise the answer has exactly the keys users, devices, invites and total_entries, the three lists are the store's listings as ListUsers, ListDevices and ListInvites state them, and the total counts every stored entry |
| VaultServer.VaultApp.AdminInvites | src/body_metrics_tracker/vault/server.py:147-154 | an authorized call adds exactly one invite with the computed expiry and returns its token; every other table is kept; a refusal changes nothing |
| VaultCrypto.LoadMasterKey | src/body_metrics_tracker/vault/crypto.py:21-31 | empty text is missing; a key is 32 bytes decoded as base64 first and hex second; anything else is refused |
| VaultCrypto.LoadBase64Key | src/body_metrics_tracker/vault/crypto.py:21-31 | a 32-byte key written in base64 loads back |
| VaultCrypto.LoadHexKey | src/body_metrics_tracker/vault/crypto.py:21-31 | a 32-byte key written in hex loads back |
| VaultCrypto.UserInfoInjective | src/body_metrics_tracker/vault/crypto.py:34-41 | different users get different HKDF info strings |
| VaultCrypto.EncryptPayload | src/body_metrics_tracker/vault/crypto.py:44-48 | the blob is base64 of the nonce followed by the AES-GCM sealing of the canonical JSON under the vault AAD |
| VaultCrypto.DecryptPayload | src/body_metrics_tracker/vault/crypto.py:51-58 | bad base64 and blobs no longer than the nonce fail; a success opened the ciphertext after the nonce |
| VaultCrypto.DecryptEncrypt | src/body_metrics_tracker/vault/crypto.py:44-58 | decrypting an encrypted payload with the same key gives the payload back |
| Codec.Field | src/body_metrics_tracker/storage/codec.py:155-166 | `payload[key]` finds a value exactly when the payload is an object with that key |
| Codec.Required | src/body_metrics_tracker/storage/codec.py:155-163 | a required key that is missing raises |
| Codec.IterItems | src/body_metrics_tracker/storage/codec.py:113 | iterating a JSON value yields a list's items; an empty object or empty text yields nothing; anything else raises |
| Codec.DecodeDateTime | src/body_metrics_tracker/storage/codec.py:22-26 | only ISO text is read, and it must carry an offset, otherwise "Timestamp must be timezone-aware" |
| Codec.DateTimeRoundTrip | src/body_metrics_tracker/storage/codec.py:18-26 | an aware instant survives isoformat and fromisoformat |
| Codec.DecodeOptDateTime | src/body_metrics_tracker/storage/codec.py:50-67 | a falsy value is no time; otherwise it must decode as a time |
| Codec.OptDateTimeRoundTrip | src/body_metrics_tracker/storage/codec.py:50-67 | an optional instant survives encoding and decoding |
| Codec.DecodeDate | src/body_metrics_tracker/storage/codec.py:33-36 | null is no date; a date is read from its ISO text |
| Codec.DateRoundTrip | src/body_metrics_tracker/storage/codec.py:29-36 | an optional date survives encoding and decoding |
| Codec.DecodeUuid | src/body_metrics_tracker/storage/codec.py:99-156 | `UUID(x)` succeeds exactly on text that parses as a UUID |
| Codec.UuidRoundTrip | src/body_metrics_tracker/storage/codec.py:79-99 | `UUID(str(u)) == u` |
| Codec.DecodeOptStr | src/body_metrics_tracker/storage/codec.py:59-63 | an optional text field reads null as absent and text as itself |
| Codec.DecodeOptReal | src/body_metrics_tracker/storage/codec.py:108-111 | an optional number reads null as absent and a float as itself |
| Codec.DecodeSyncSettings | src/body_metrics_tracker/storage/codec.py:54-68 | a payload that is not an object is refused |
| Codec.DecodeSyncDict | src/body_metrics_tracker/storage/codec.py:54-68 | the flags are the truthiness of their fields, a falsy interval is 15 and a falsy last_sync_at is no time |
| Codec.DecodeInterval | src/body_metrics_tracker/storage/codec.py:66 | a falsy interval is 15, a non-zero integer is itself |
| Codec.SyncSettingsRoundTrip | src/body_metrics_tracker/storage/codec.py:39-68 | settings survive encoding and decoding, except that an interval of 0 comes back as 15 |
| Codec.EmptySyncSettings | src/body_metrics_tracker/storage/codec.py:54-68 | an empty object decodes to the default settings |
| Codec.DecodeFriend | src/body_metrics_tracker/storage/codec.py:126-133 | a friend needs a friend_id |
| Codec.DecodeFriendDict | src/body_metrics_tracker/storage/codec.py:126-133 | missing name and status default to "Friend" and "invited", a falsy created_at to now |
| Codec.FriendRoundTrip | src/body_metrics_tracker/storage/codec.py:117-133 | `decode_friend(encode_friend(f)) == f` |
| Codec.FriendDefaults | src/body_metrics_tracker/storage/codec.py:126-133 | an object holding only the friend_id decodes with every default |
| Codec.FriendsRoundTrip | src/body_metrics_tracker/storage/codec.py:93-113 | a friend list survives encoding and decoding, in order |
| Codec.DecodeUnits | src/body_metrics_tracker/storage/codec.py:101-102 | missing units default to lb and in; given units are read from their values |
| Codec.DecodeProfile | src/body_metrics_tracker/storage/codec.py:97-114 | a profile needs a user_id |
| Codec.DecodeFriendList | src/body_metrics_tracker/storage/codec.py:113 | an empty list decodes to no friends; a list decodes item by item |
| Codec.DecodeGoals | src/body_metrics_tracker/storage/codec.py:108-111 | a missing goal is absent |
| Codec.ProfileDefaults | src/body_metrics_tracker/storage/codec.py:97-114 | an object holding only the user_id decodes to the default profile of that id |
| Codec.ProfileRoundTrip | src/body_metrics_tracker/storage/codec.py:71-114 | `decode_profile(encode_profile(u)) == u` |
| Codec.DecodeEntryDict | src/body_metrics_tracker/storage/codec.py:153-167 | an entry needs its six required keys; is_deleted is the field's truthiness, a null waist and a falsy deleted_at are absent |
| Codec.DecodeEntryHead | src/body_metrics_tracker/storage/codec.py:155-157 | a naive measured_at is refused |
| Codec.DecodeEntryTail | src/body_metrics_tracker/storage/codec.py:162-166 | a missing version is 1 |
| Codec.EntryRoundTrip | src/body_metrics_tracker/storage/codec.py:136-167 | `decode_entry(encode_entry(e)) == e` |
| StorageCrypto.DeriveKey | src/body_metrics_tracker/storage/crypto.py:30-39 | an empty passphrase is refused; otherwise the key is PBKDF2 of the UTF-8 passphrase |
| StorageCrypto.EncryptBytes | src/body_metrics_tracker/storage/crypto.py:42-59 | encryption fails exactly for an empty passphrase |
| StorageCrypto.ReadContainer | src/body_metrics_tracker/storage/crypto.py:63-68 | the container must have an integer version, a kdf and a cipher, otherwise "Invalid encrypted container format" |
| StorageCrypto.ReadBytes | src/body_metrics_tracker/storage/crypto.py:78-84 | a parameter is read from base64 text; missing or bad values are refused |
| StorageCrypto.ReadIterations | src/body_metrics_tracker/storage/crypto.py:80 | the iteration count must be an integer |
| StorageCrypto.CheckNames | src/body_metrics_tracker/storage/crypto.py:73-76 | only pbkdf2-sha256 with aes-256-gcm is accepted |
| StorageCrypto.DecryptBytes | src/body_metrics_tracker/storage/crypto.py:62-90 | each refusal in its order: format, version, names, parameters, then a nonce outside 8 to 128 bytes raises AESGCM's ValueError, and a failed tag is "Incorrect passphrase or corrupted data" |
| StorageCrypto.DecryptContainer | src/body_metrics_tracker/storage/crypto.py:62-90 | a well-formed container decrypts under the key derived from the passphrase |
| StorageCrypto.DecryptEncrypt | src/body_metrics_tracker/storage/crypto.py:42-90 | decrypting with the same passphrase gives the plaintext back |
| StorageCrypto.WrongKeyRejected | src/body_metrics_tracker/storage/crypto.py:86-90 | another passphrase is refused as incorrect, given that AES-GCM rejects another key |
| StorageCrypto.EmptyPassphraseRejected | src/body_metrics_tracker/storage/crypto.py:30-86 | an empty passphrase is refused before decrypting |
| LocalStore.FormatParsedRoundTrip | src/body_metrics_tracker/storage/store.py:128-145 | a possibly naive last_modified survives isoformat and fromisoformat |
| LocalStore.ParseNatText | src/body_metrics_tracker/storage/store.py:138 | `int()` reads back the decimal text of a natural number |
| LocalStore.ParseNegatedText | src/body_metrics_tracker/storage/store.py:138 | `int()` reads back a negative number's text |
| LocalStore.IntOfIntText | src/body_metrics_tracker/storage/store.py:138 | `int(str(n)) == n` |
| LocalStore.ReadSchemaVersion | src/body_metrics_tracker/storage/store.py:137-140 | the schema version must be present and an integer |
| LocalStore.ReadLastModified | src/body_metrics_tracker/storage/store.py:144-147 | last_modified must be ISO text |
| LocalStore.AdminOf | src/body_metrics_tracker/storage/store.py:155-161 | an admin config is kept exactly when it is an object that decodes |
| LocalStore.DecodeOptUuid | src/body_metrics_tracker/storage/store.py:151-152 | a falsy active id is none; otherwise it is the parsed UUID |
| LocalStore.DefaultActive | src/body_metrics_tracker/storage/store.py:153-154 | a missing active id becomes the first profile's id, when there is one |
| LocalStore.DeserializeStore | src/body_metrics_tracker/storage/store.py:136-169 | refusals for a bad or unsupported schema version and a bad last_modified, then profiles, entries, active id and admin config |
| LocalStore.Reloaded | src/body_metrics_tracker/storage/store.py:149-168 | a reloaded store differs from the saved one at most in the defaulted active id |
| LocalStore.ProfilesRoundTrip | src/body_metrics_tracker/storage/store.py:129-149 | the profile list survives serialization |
| LocalStore.EntriesRoundTrip | src/body_metrics_tracker/storage/store.py:130-150 | the entry list survives serialization |
| LocalStore.StoreRoundTrip | src/body_metrics_tracker/storage/store.py:125-169 | deserializing a serialized store gives it back, with the active-id default applied |
| LocalStore.SerializedHead | src/body_metrics_tracker/storage/store.py:127-147 | schema version and last_modified read back |
| LocalStore.SerializedLists | src/body_metrics_tracker/storage/store.py:129-130 | the profiles and entries keys hold the encoded lists |
| LocalStore.SerializedTail | src/body_metrics_tracker/storage/store.py:131-161 | the active id and admin config read back |
| LocalStore.Save | src/body_metrics_tracker/storage/store.py:94-98 | saving fails exactly for an empty passphrase |
| LocalStore.Load | src/body_metrics_tracker/storage/store.py:83-92 | a missing file is "Encrypted store not found", unreadable JSON "not valid JSON"; a success decrypted the container |
| LocalStore.LoadSave | src/body_metrics_tracker/storage/store.py:83-98 | loading a saved store with the same passphrase gives it back |
| LocalStore.FirstWithId | src/body_metrics_tracker/storage/store.py:52-61 | the index of the first entry with the id, or none when no entry has it |
| LocalStore.Tombstone | src/body_metrics_tracker/storage/store.py:62-65 | a soft delete marks the entry deleted, sets deleted_at and updated_at, keeps every other field, and makes the copy newer under last writer wins |
| LocalStore.LocalStoreData.New | src/body_metrics_tracker/storage/store.py:36-45 | a new store has the given profiles, no entries, and the first profile active |
| LocalStore.LocalStoreData.FromData | src/body_metrics_tracker/storage/store.py:27-34 | the object holds exactly the given data |
| LocalStore.LocalStoreData.AddEntry | src/body_metrics_tracker/storage/store.py:47-49 | the entry is appended and last_modified set; nothing else changes |
| LocalStore.LocalStoreData.UpdateEntry | src/body_metrics_tracker/storage/store.py:51-57 | returns whether an entry has the id; if so the first such entry is replaced, otherwise nothing changes |
| LocalStore.LocalStoreData.SoftDeleteEntry | src/body_metrics_tracker/storage/store.py:59-68 | returns whether an entry has the id; if so the first such entry becomes its tombstone |
| ClientState.ShouldAccept | src/body_metrics_tracker/gui/state.py:160-165 | the desktop's `_should_accept` is the same last-writer-wins order as the vault's |
| ClientState.EntriesOf | src/body_metrics_tracker/gui/state.py:47-53 | exactly the entries of the user, in their stored order |
| ClientState.ChangedSince | src/body_metrics_tracker/gui/state.py:113-122 | exactly the user's entries updated after `since`, in stored order |
| ClientState.ChangedSinceAll | src/body_metrics_tracker/gui/state.py:116-117 | without a cursor every entry of the user is listed |
| ClientState.FirstProfile | src/body_metrics_tracker/gui/state.py:153-157 | the index of the first profile with the id, or none |
| ClientState.ProfileById | src/body_metrics_tracker/gui/state.py:153-157 | a profile with the id, when there is one |
| ClientState.UpsertedFinds | src/body_metrics_tracker/gui/state.py:84-92 | after an update the profile is found by its id, the list grows only for a new id, and other profiles keep their place |
| ClientState.ApplyOne | src/body_metrics_tracker/gui/state.py:128-143 | one remote change: another user's change or a losing copy changes nothing; a winner replaces the entry in place or is appended |
| ClientState.ApplyAll | src/body_metrics_tracker/gui/state.py:124-148 | the count of applied changes never exceeds the batch |
| ClientState.ApplyAllKeepsPositions | src/body_metrics_tracker/gui/state.py:138-142 | applying changes keeps every entry in its slot, only replacing the user's own |
| ClientState.ApplyAllAppendsNewIds | src/body_metrics_tracker/gui/state.py:141-142 | appended entries are the user's, carry new ids and are not duplicated |
| ClientState.ApplyOneAbsorbs | src/body_metrics_tracker/gui/state.py:128-143 | after a change is applied it would not be applied again |
| ClientState.ApplyAllAbsorbs | src/body_metrics_tracker/gui/state.py:128-143 | after a batch every change in it is settled |
| ClientState.ApplyAllAbsorbed | src/body_metrics_tracker/gui/state.py:128-148 | a batch that is already settled changes nothing and counts 0 |
| ClientState.ApplyAllIdempotent | src/body_metrics_tracker/gui/state.py:124-148 | applying the same pulled batch twice changes nothing the second time |
| ClientState.AppState.constructor | src/body_metrics_tracker/gui/state.py:18-22 | the state holds the loaded store |
| ClientState.AppState.FindProfile | src/body_metrics_tracker/gui/state.py:153-157 | the loop finds the profile ProfileById names |
| ClientState.AppState.Profile | src/body_metrics_tracker/gui/state.py:24-41 | an empty list gets a default profile; the active id is repaired to an existing profile; the active profile is returned |
| ClientState.AppState.Entries | src/body_metrics_tracker/gui/state.py:47-50 | the active profile's entries; entries are not changed |
| ClientState.AppState.AddProfile | src/body_metrics_tracker/gui/state.py:67-72 | the profile is appended and made active |
| ClientState.AppState.SetActiveProfile | src/body_metrics_tracker/gui/state.py:74-82 | the active id changes only to another known profile |
| ClientState.AppState.UpdateProfile | src/body_metrics_tracker/gui/state.py:84-97 | the profile replaces the one with its id or is appended; it becomes active only when none is |
| ClientState.AppState.EntriesSince | src/body_metrics_tracker/gui/state.py:113-122 | the entries ChangedSince lists, for the given or the active user |
| ClientState.AppState.ResolveUser | src/body_metrics_tracker/gui/state.py:114-126 | a given user id is used, otherwise the active profile's |
| ClientState.AppState.FindEntry | src/body_metrics_tracker/gui/state.py:132-139 | the loop finds the first entry with the id |
| ClientState.AppState.ApplyRemoteChanges | src/body_metrics_tracker/gui/state.py:124-148 | the entries become ApplyAll of the batch; last_modified moves only when something was applied |
| ClientState.AppState.ApplyBatch | src/body_metrics_tracker/gui/state.py:127-143 | the loop applies the batch as ApplyAll does |
| ClientState.AppState.ApplyChange | src/body_metrics_tracker/gui/state.py:129-143 | one iteration applies one change as ApplyOne does |
| History.ListedOnly | src/body_metrics_tracker/gui/history.py:106-122 | exactly the live entries matching the search text and the date bounds, each as often as stored |
| History.SortNewestFirst | src/body_metrics_tracker/gui/history.py:124 | the sort is a permutation into newest-first order |
| History.SortNewestFirstStable | src/body_metrics_tracker/gui/history.py:124 | entries measured at the same instant keep their input order, as Python's stable `sorted` keeps them |
| History.InsertNewestFirst | src/body_metrics_tracker/gui/history.py:124 | one insertion step keeps newest-first order and adds exactly the entry |
| History.FilteredEntries | src/body_metrics_tracker/gui/history.py:105-124 | the listed entries are exactly the matching live entries, newest first |
| History.ClearedFiltersListLive | src/body_metrics_tracker/gui/history.py:235-240 | with the filters cleared every live entry is listed |
| History.BoundNarrows | src/body_metrics_tracker/gui/history.py:116-118 | adding a from-date only removes entries |
| History.ColumnLabels | src/body_metrics_tracker/gui/history.py:200-210 | six columns with waist and five without, starting with Date and Weight and ending with Actions |
| History.ActionColumn | src/body_metrics_tracker/gui/history.py:200-210 | the actions column is the last one |
| History.CsvHeader | src/body_metrics_tracker/gui/history.py:261-288 | ten header cells with waist and eight without, in the written order |
| History.CsvRow | src/body_metrics_tracker/gui/history.py:289-317 | each row matches the header: times in ISO form, weight in the profile unit with two decimals, empty cells for missing date, waist and note |
| History.ExportRows | src/body_metrics_tracker/gui/history.py:242-321 | nothing listed means "No entries to export."; otherwise the header and one row per listed entry, in order, all the same width |
| History.CsvRows | src/body_metrics_tracker/gui/history.py:289-317 | one row per listed entry, in order |
| Trends.MovingAverage | src/body_metrics_tracker/gui/trends.py:522-529 | a window of 1 or less returns the values; otherwise one mean per full window, the i-th averaging the window that starts at i |
| Trends.WindowMeanBounds | src/body_metrics_tracker/gui/trends.py:526-528 | a window's mean lies between bounds on its values |
| Trends.UnitWindow | src/body_metrics_tracker/gui/trends.py:526-528 | a one-point window's mean is the point |
| Trends.SortByStart | src/body_metrics_tracker/gui/trends.py:544 | the sort keeps the same summaries and orders them by ascending week |
| Trends.InsertByStart | src/body_metrics_tracker/gui/trends.py:544 | one insertion step keeps ascending order and adds exactly the new summary |
| Trends.WaistMapSpec | src/body_metrics_tracker/gui/trends.py:533-540 | the waist dictionary has a key exactly for weeks with waist values, holding those values |
| Trends.WaistOrderSpec | src/body_metrics_tracker/gui/trends.py:533-540 | the insertion order lists each key once |
| Trends.GroupWaists | src/body_metrics_tracker/gui/trends.py:533-540 | the grouping loop builds the waist dictionary and its insertion order |
| Trends.GroupWaistsSpec | src/body_metrics_tracker/gui/trends.py:533-540 | every listed week has values, every week with values is listed, none twice |
| Trends.SummarizeWaists | src/body_metrics_tracker/gui/trends.py:541-543 | one (week, mean) pair per key, in insertion order |
| Trends.WeeklyWaistSummaries | src/body_metrics_tracker/gui/trends.py:532-545 | one pair per week that has waist values, ascending, holding the mean of that week's waists |
| Trends.WaistBucketAgrees | src/body_metrics_tracker/gui/trends.py:535-540 | the trend chart's waist bucket is the aggregation bucket's waist list |
| Trends.WeeklyWaistMatchesSummary | src/body_metrics_tracker/gui/trends.py:532-545 | the chart's weekly waist equals the dashboard summary's average waist for that week |
| Trends.YearOf | src/body_metrics_tracker/gui/trends.py:219 | every day lies in exactly one calendar year, found from its ordinal |
| Trends.YearToDateStart | src/body_metrics_tracker/gui/trends.py:213-219 | every range starts on or before today and less than 367 days before it |
| Trends.SortByMeasured | src/body_metrics_tracker/gui/trends.py:212-223 | the sort is a permutation into ascending measured time |
| Trends.SortByMeasuredStable | src/body_metrics_tracker/gui/trends.py:212-223 | entries measured at the same instant keep their input order, as Python's stable `sorted` keeps them |
| Trends.InsertByMeasured | src/body_metrics_tracker/gui/trends.py:212-223 | one insertion step keeps the order and adds exactly the entry |
| Trends.MeasuredSince | src/body_metrics_tracker/gui/trends.py:221 | exactly the entries measured on or after the start date, each as often as given |
| Trends.ApplyRange | src/body_metrics_tracker/gui/trends.py:209-223 | "All" sorts every entry; other ranges keep exactly the entries from the range start, sorted by measured time |
| Trends.RangesNest | src/body_metrics_tracker/gui/trends.py:209-223 | an entry shown for 4 weeks is also shown for 12 weeks and for All |
| Trends.SmoothingWindowPoints | src/body_metrics_tracker/gui/trends.py:470-476 | 7 for text starting "7", otherwise 14 for "14", otherwise 28 |
| Trends.OfferedWindows | src/body_metrics_tracker/gui/trends.py:470-476 | each offered choice gives its own number of points |
| Trends.FriendShareSuffix | src/body_metrics_tracker/gui/trends.py:499-506 | the four suffixes correspond one-to-one to the four combinations of shared weight and waist |
| Widgets.OnDate | src/body_metrics_tracker/gui/widgets.py:229-232 | the combined time has the chosen date, the time of day and the offset of the reference time |
| Widgets.OnOwnDate | src/body_metrics_tracker/gui/dialogs.py:238-241 | re-combining a time with its own date gives it back |
| Widgets.IsDuplicateEntry | src/body_metrics_tracker/gui/widgets.py:374-389 | the loop reports a duplicate exactly when some live entry lies within 5 minutes, 0.1 kg and, when both have one, 0.1 cm |
| Widgets.SameValuesDuplicate | src/body_metrics_tracker/gui/widgets.py:374-389 | re-entering a live entry's own values is flagged as a duplicate |
| Widgets.DuplicatesSymmetric | src/body_metrics_tracker/gui/widgets.py:381-388 | the duplicate test is symmetric |
| Widgets.MeasureWarnings | src/body_metrics_tracker/gui/widgets.py:236-239 | the weight warning appears exactly outside 35-220 kg, the waist warning exactly for a waist outside 50-180 cm |
| Widgets.DateWarnings | src/body_metrics_tracker/gui/widgets.py:240-244 | the future warning exactly after today, the stale warning exactly more than 365 days ago |
| Widgets.ValueWarnings | src/body_metrics_tracker/gui/dialogs.py:243-254 | the edit dialog's warnings: the four value and date warnings, in order |
| Widgets.EntryWarnings | src/body_metrics_tracker/gui/widgets.py:234-247 | the dashboard's warnings: the same four, plus the duplicate warning exactly when IsDuplicateEntry holds |
| Widgets.SavedEntry | src/body_metrics_tracker/gui/widgets.py:200-224 | the saved entry is the active user's, in kg and cm, with a waist exactly when tracked and a note exactly when non-blank |
| Widgets.LastCompletedWeek | src/body_metrics_tracker/gui/widgets.py:326-330 | the latest week before the current one, or none when there is none |
| Widgets.ReportedWeek | src/body_metrics_tracker/gui/widgets.py:310-330 | the reported week is a summary's week before the current week, or none exactly when no summary is that old |
| Widgets.ReportedWeekEnded | src/body_metrics_tracker/gui/widgets.py:310-330 | the reported week has ended by the current week's start |
| Widgets.GoalAccent | src/body_metrics_tracker/gui/widgets.py:357-372 | green exactly when a delta and a goal exist, the goal is 0.1 kg or more away, and the delta moves toward it |
| Widgets.GoalAccentMirrors | src/body_metrics_tracker/gui/widgets.py:363-368 | mirroring the goal and the delta around the average keeps the accent |
| Dialogs.ParseMode | src/body_metrics_tracker/gui/dialogs.py:40-41 | only "unlock" and "create" are modes |
| Dialogs.CheckPassphrase | src/body_metrics_tracker/gui/dialogs.py:89-100 | the stripped passphrase is accepted exactly when it is non-empty and, when creating, equals the stripped confirmation; each refusal has its message |
| Dialogs.AcceptedPassphraseStable | src/body_metrics_tracker/gui/dialogs.py:89-100 | an accepted passphrase typed again is accepted as itself |
| Dialogs.PassphraseDialog.constructor | src/body_metrics_tracker/gui/dialogs.py:38-44 | a new dialog has no passphrase and no error |
| Dialogs.PassphraseDialog.OnAccept | src/body_metrics_tracker/gui/dialogs.py:89-100 | an accepted passphrase is stored and closes the dialog; a refusal shows its message and keeps the dialog open |
| Dialogs.EditedWaist | src/body_metrics_tracker/gui/dialogs.py:198-205 | untracked waist keeps the old value; an untouched missing waist stays missing; otherwise the display value in cm |
| Dialogs.EditedEntry | src/body_metrics_tracker/gui/dialogs.py:218-231 | the edit keeps id, user and creation time, sets the new values and date, updates now, revives and bumps the version |
| Dialogs.LoadedForm | src/body_metrics_tracker/gui/dialogs.py:163-189 | the form shows the entry's values in the profile units, and a missing waist as the minimum |
| Dialogs.EntryDialog.constructor | src/body_metrics_tracker/gui/dialogs.py:111-189 | the dialog starts with the loaded form and no result |
| Dialogs.EntryDialog.OnWaistChanged | src/body_metrics_tracker/gui/dialogs.py:234-236 | touching the waist clears the missing flag |
| Dialogs.EntryDialog.OnAccept | src/body_metrics_tracker/gui/dialogs.py:191-232 | when a warning is shown and the user does not confirm, nothing changes; otherwise the result is EditedEntry of the form's values moved to the chosen date |
| Dialogs.UntouchedEditKeepsValues | src/body_metrics_tracker/gui/dialogs.py:163-232 | accepting an unchanged form keeps weight, waist, measured time and note |
| Dialogs.LoweredNames | src/body_metrics_tracker/gui/dialogs.py:269 | the lowered set holds exactly the lowered names |
| Dialogs.CheckProfileName | src/body_metrics_tracker/gui/dialogs.py:310-317 | the stripped name is accepted exactly when non-empty and unused ignoring case; otherwise "Name is required." or the duplicate message |
| Dialogs.ExistingNameRefused | src/body_metrics_tracker/gui/dialogs.py:315-317 | an existing name typed in another case is refused |
| Dialogs.NewProfileDialog.constructor | src/body_metrics_tracker/gui/dialogs.py:267-273 | a new dialog defaults to lb and in, with no name |
| Dialogs.NewProfileDialog.OnAccept | src/body_metrics_tracker/gui/dialogs.py:310-321 | an accepted name is stored with the chosen units; a refusal shows its message |
| Friends.StatusLabel | src/body_metrics_tracker/gui/friends.py:590-595 | "Connected" exactly for connected or accepted, "Incoming" exactly for incoming, "Invited" for every other status |
| Friends.LabelsTellStatusesApart | src/body_metrics_tracker/gui/friends.py:590-595 | on the three statuses the screen writes, equal labels mean equal statuses |
| Friends.Next | src/body_metrics_tracker/gui/friends.py:423-489 | a connected link stays connected, and a known status moves to a known status |
| Friends.Fresh | src/body_metrics_tracker/gui/friends.py:423-489 | an appended link is connected exactly when it comes from an acceptance or a share |
| Friends.FirstIndex | src/body_metrics_tracker/gui/friends.py:584-588 | the first position holding that friend id, or none exactly when no link has it |
| Friends.Touch | src/body_metrics_tracker/gui/friends.py:423-489 | the list grows by one exactly when the id is not listed; the id's status becomes Next of its old one or Fresh; every other link is kept; known statuses stay known |
| Friends.AcceptIncoming | src/body_metrics_tracker/gui/friends.py:287-296 | an incoming link becomes connected; any other status leaves the list unchanged; no other link changes |
| Friends.Without | src/body_metrics_tracker/gui/friends.py:324 | removal never lengthens the list |
| Friends.WithoutMembers | src/body_metrics_tracker/gui/friends.py:324 | exactly the links to other friends remain, so the removed friend is no longer found |
| Friends.WithoutConcat | src/body_metrics_tracker/gui/friends.py:324 | removal keeps the remaining links in order |
| Friends.WithoutAbsent | src/body_metrics_tracker/gui/friends.py:324 | a list without that friend is unchanged |
| Friends.PyInt | src/body_metrics_tracker/gui/friends.py:555-570 | an integer reads as itself; null, lists and objects fail |
| Friends.DetectFileType | src/body_metrics_tracker/gui/friends.py:417-421 | a dict always has a non-empty type, "invite" when the key is absent; anything else fails |
| Friends.ParsePayload | src/body_metrics_tracker/gui/friends.py:554-582 | accepted only for version 1, a sender code that decodes to the returned id, and a recipient code that is absent or the reader's own |
| Friends.BuiltType | src/body_metrics_tracker/gui/friends.py:492-509 | a built file carries its type |
| Friends.BuiltVersion | src/body_metrics_tracker/gui/friends.py:492-509 | a built file carries version 1 |
| Friends.BuiltSender | src/body_metrics_tracker/gui/friends.py:492-509 | a built file's sender code is the sender's friend code |
| Friends.BuiltRecipient | src/body_metrics_tracker/gui/friends.py:492-509 | a built file's recipient code is the recipient's friend code |
| Friends.BuiltName | src/body_metrics_tracker/gui/friends.py:492-509 | a built file's name reads back as the stripped name, or "Friend" |
| Friends.ParseOfFields | src/body_metrics_tracker/gui/friends.py:554-582 | a version-1 file with a sender's code and the reader's own recipient code parses to that sender |
| Friends.BuiltPayloadReadsBack | src/body_metrics_tracker/gui/friends.py:492-582 | a built file read by its recipient gives the sender and the name it was written with |
| Friends.MisaddressedPayloadRefused | src/body_metrics_tracker/gui/friends.py:564-581 | a built file read by anyone but its recipient is refused |
| Friends.DetectPlainType | src/body_metrics_tracker/gui/friends.py:417-421 | a type that is already stripped lower-case text is detected as itself |
| Friends.BuiltInviteType | src/body_metrics_tracker/gui/friends.py:417-499 | a written invite is detected as an invite |
| Friends.BuiltAcceptType | src/body_metrics_tracker/gui/friends.py:417-509 | a written acceptance is detected as an acceptance |
| Friends.ReminderText | src/body_metrics_tracker/gui/friends.py:485 | the reminder message is never empty |
| Friends.Handled | src/body_metrics_tracker/gui/friends.py:423-489 | a refused file leaves the list unchanged; a file is handled exactly when it parses and is not an invite from the user; a handled file touches its sender |
| Friends.Imported | src/body_metrics_tracker/gui/friends.py:209-233 | a refused or unrecognised file leaves the list unchanged; known statuses stay known |
| Friends.InviteCreated | src/body_metrics_tracker/gui/friends.py:167-188 | an invite is made exactly when the stripped code is non-empty, decodes, and is not the user's own; it is the invite file for that id and the id is touched as invited |
| Friends.InviteFor | src/body_metrics_tracker/gui/friends.py:173-188 | after decoding: refused exactly on a decode error or the user's own id, otherwise the invite file and the list touched for that id |
| Friends.InviteConnectsOnlyInvited | src/body_metrics_tracker/gui/friends.py:423-439 | a received invite leaves any other link as it was and makes a link at most incoming unless it was already invited or connected |
| Friends.TouchOthers | src/body_metrics_tracker/gui/friends.py:584-588 | touching one id leaves every other id's status as it was |
| Friends.CodeReadsBack | src/body_metrics_tracker/gui/friends.py:151-173 | the friend code shown to a user, typed into the invite box, names that user |
| Friends.InviteStranger | src/body_metrics_tracker/gui/friends.py:167-188 | inviting someone not listed lists them as invited and writes the invite addressed to them |
| Friends.ImportInviteFromStranger | src/body_metrics_tracker/gui/friends.py:423-439 | importing an invite from someone not listed lists them as incoming |
| Friends.ImportAcceptFromInvited | src/body_metrics_tracker/gui/friends.py:441-451 | importing an acceptance from someone the user invited connects them |
| Friends.Handshake | src/body_metrics_tracker/gui/friends.py:167-233 | an invite, its import, the acceptance and its import leave both users connected to each other |
| Friends.FriendsWidget.constructor | src/body_metrics_tracker/gui/friends.py:76-152 | the screen shows the active profile's id, name and friends, with no status text |
| Friends.FriendsWidget.FindFriend | src/body_metrics_tracker/gui/friends.py:584-588 | the loop returns the first position holding the id |
| Friends.FriendsWidget.Apply | src/body_metrics_tracker/gui/friends.py:429-437 | the list becomes Touch of the old list |
| Friends.FriendsWidget.HandleFile | src/body_metrics_tracker/gui/friends.py:423-489 | the result and list are Handled's; the status text changes only on a handled non-reminder file |
| Friends.FriendsWidget.ImportFriendFile | src/body_metrics_tracker/gui/friends.py:209-233 | the result and list are Imported's |
| Friends.FriendsWidget.CreateInviteFile | src/body_metrics_tracker/gui/friends.py:167-188 | the result and list are InviteCreated's |
| Friends.FriendsWidget.AcceptFriend | src/body_metrics_tracker/gui/friends.py:287-313 | the list becomes AcceptIncoming's; an acceptance file is produced exactly when the link was incoming |
| Friends.FriendsWidget.RemoveFriend | src/body_metrics_tracker/gui/friends.py:315-327 | a confirmed removal drops the friend and says "Friend removed."; otherwise nothing changes |
| Relay.ToText | relay/worker.js:727-729 | non-strings read as empty text; a string is trimmed: no surrounding whitespace, never longer, already-trimmed text kept |
| Relay.ToTextIdempotent | relay/worker.js:727-729 | trimming twice is trimming once |
| Relay.NormalizeAvatar | relay/worker.js:731-740 | refused with 400 "avatar too large" exactly over 60000 characters; none exactly for empty text; otherwise the trimmed text |
| Relay.NormalizeTimestamp | relay/worker.js:742-757 | an error exactly when required and not a parsable string, "timestamp required" for non-strings and "invalid timestamp" otherwise; a timestamp exactly for a parsable string, in canonical form |
| Relay.RequiredOnlyRefuses | relay/worker.js:742-757 | requiring a timestamp only turns "none" into an error |
| Relay.NormalizeTimestampTwice | relay/worker.js:742-757 | a canonical timestamp normalizes to itself |
| Relay.BearerToken | relay/worker.js:674-675 | a non-empty token is what follows "Bearer "; without that prefix there is none |
| Relay.BearerTokenOf | relay/worker.js:674-675 | the token of "Bearer " plus a token is that token |
| Relay.OwnerOf | relay/worker.js:123-127 | a found user holds the code; none found exactly when nobody holds it |
| Relay.OwnerUnique | relay/worker.js:123-127 | with codes unique, the holder of a code is the one found |
| Relay.DisplayNameOf | relay/worker.js:118 | a registered display name is never empty ("User" by default) |
| Relay.RegisteredRow | relay/worker.js:134-156 | the stored row keeps a known user's code and creation time, otherwise takes the requested code and now; it stores the token's hash, the display name and avatar |
| Relay.Registration | relay/worker.js:114-158 | a refusal is 400 and changes nothing; it succeeds exactly when the avatar is accepted and RegisterCheck passes, stores exactly that user's row, and a new user's row holds the code, name, avatar, token hash and now |
| Relay.RegisterCheck | relay/worker.js:120-148 | refusals are 400; it passes exactly when both ids are given, nobody else holds the code, and a known user already holds it; the value says reissue exactly for a known user |
| Relay.RegistrationWith | relay/worker.js:120-157 | after the avatar: it succeeds exactly when RegisterCheck passes; refusals change nothing; success answers the token, code and user id, reissued exactly for a known user, and stores the row |
| Relay.CodesStayUnique | relay/worker.js:120-148 | storing a row whose code nobody else holds keeps friend codes unique |
| Relay.RegistrationRefusals | relay/worker.js:120-148 | missing ids, a code held by another user, and a known user id under a new code are each refused with their message |
| Relay.RegistrationReissues | relay/worker.js:128-139 | a user registering its own code again gets the new token, marked reissued, and its hash is stored |
| Relay.RegistrationInserts | relay/worker.js:141-157 | a new user id with a free code is registered: the token reply without reissued, and exactly one new row holding the code, name, avatar, token hash and now |
| Relay.InviteSent | relay/worker.js:172-205 | only invites change; it succeeds exactly when the code names another registered user; missing code 400, unknown code 404, oneself 400, an existing friend "already_connected" without change; otherwise "sent", inserting a pending invite unless its id exists |
| Relay.Inviter | relay/worker.js:207-228 | missing code 400; accepted exactly when the code's owner has a pending invite to the user, whose owner is returned; otherwise 404 |
| Relay.SentInviteAcceptable | relay/worker.js:172-228 | an invite just sent can be accepted by its recipient with the sender's code |
| Relay.Link | relay/worker.js:235-244 | INSERT OR IGNORE adds the key and keeps every existing row |
| Relay.Connected | relay/worker.js:229-244 | only the invite and friendships change; the invite becomes accepted at now; both directions are added and old friendships kept |
| Relay.ConnectedValid | relay/worker.js:229-244 | accepting keeps friendships symmetric and between registered users |
| Relay.ShareUpdated | relay/worker.js:329-352 | only share settings change; missing code 400, unknown code 404; otherwise the row for (user, friend) holds the two truthiness flags |
| Relay.UnlinkedRemoves | relay/worker.js:449-463 | exactly the friendships, share settings and invites between the two users go; users and entries are kept |
| Relay.UnlinkedValid | relay/worker.js:449-463 | removal keeps friendships symmetric and between registered users |
| Relay.Removal | relay/worker.js:435-465 | missing code 400, unknown code 404, both without change; otherwise "removed" and the two are unlinked |
| Relay.RemoveAfterAccept | relay/worker.js:449-463 | after accepting then removing, no friendship, share setting or invite links the two users |
| Relay.Upsert | relay/worker.js:361 | a new key is inserted; an existing row is replaced unless the incoming updated_at is older as text; other rows stay |
| Relay.EntryOf | relay/worker.js:364-373 | an error exactly when either timestamp is missing or unparsable; a row only under a non-blank entry id, with the normalized timestamps and the deletion flag |
| Relay.PushEntryTwice | relay/worker.js:361-376 | pushing the same entry twice is pushing it once |
| Relay.PushStops | relay/worker.js:363-377 | once an entry aborts the push, later entries are not looked at |
| Relay.PushAllFails | relay/worker.js:363-378 | a push fails, always with 400, exactly when some entry has a missing or invalid timestamp |
| Relay.PushAllOthersUntouched | relay/worker.js:361-376 | a push keeps every row, writes only the user's own rows, and only under non-blank entry ids |
| Relay.PushAllNeverRegresses | relay/worker.js:361 | a stored row's updated_at never moves back |
| Relay.Since | relay/worker.js:382-384 | the since filter comes from the parameter, and every non-empty parsable parameter gives one |
| Relay.FriendEntries | relay/worker.js:394-420 | exactly the friend's entries updated since the filter, when the friend shares anything with the user, with unshared metrics null |
| Relay.History | relay/worker.js:381-433 | exactly the user's registered friends, each with its code, display name, avatar, what it shares with the user and FriendEntries |
| Relay.HistoryShowsOnlyShared | relay/worker.js:399-419 | entries appear only when something is shared, unshared metrics are null, and every newer entry appears |
| Relay.ShareThenFetch | relay/worker.js:381-433 | after a friend turns weight sharing on for the user, the user fetches the friend's stored weights |
| Relay.RelayDb.constructor | relay/worker.js:114-465 | the tables start empty and consistent |
| Relay.RelayDb.FindByCode | relay/worker.js:123-127 | the loop finds the code's owner |
| Relay.RelayDb.RequireAuth | relay/worker.js:673-689 | 401 "missing token" without a token, 401 "invalid token" when no stored hash matches, otherwise a user whose stored hash matches |
| Relay.RelayDb.Register | relay/worker.js:114-158 | the answer and new tables are Registration's; tables stay consistent |
| Relay.RelayDb.RegisterWith | relay/worker.js:120-157 | the answer and new tables are RegistrationWith's; tables stay consistent |
| Relay.RelayDb.SendInvite | relay/worker.js:172-205 | the answer and new tables are InviteSent's; tables stay consistent |
| Relay.RelayDb.AcceptInvite | relay/worker.js:207-246 | a refusal is Inviter's and changes nothing; success is "connected" after accepting one pending invite from that user; tables stay consistent |
| Relay.RelayDb.ShareSettings | relay/worker.js:329-352 | the answer and new tables are ShareUpdated's; tables stay consistent |
| Relay.RelayDb.RemoveFriend | relay/worker.js:435-465 | the answer and new tables are Removal's; tables stay consistent |
| Relay.RelayDb.HistoryPush | relay/worker.js:354-379 | only shared entries change, to PushAll's rows; the answer is PushAll's error or "ok" with the entry count |
| PwaApp.SameAlphabet | pwa/app.js:62 | the app's alphabet is the desktop friend-code alphabet |
| PwaApp.Slice | pwa/app.js:57-94 | a slice is never longer than the text |
| PwaApp.UuidBytes | pwa/app.js:53-60 | a UUID always gives sixteen bytes |
| PwaApp.UuidToBytes | pwa/app.js:53-60 | the loop fills the sixteen bytes UuidBytes describes |
| PwaApp.UuidBytesOfUuidText | pwa/app.js:53-60 | on text of hex digits and hyphens, the form `crypto.randomUUID()` gives, the bytes are the ones Python's `UUID(text).bytes` gives |
| PwaApp.Reverse | pwa/app.js:85-87 | the reversed digits, index by index |
| PwaApp.AbsorbByte | pwa/app.js:67-78 | one pass multiplies the little-endian value by 256 and adds the byte; digits stay in range and the top digit stays non-zero |
| PwaApp.EncodeBase58 | pwa/app.js:65-89 | the loops return JsEncoding: the '1's for leading zero bytes, then the digits of a digit array that starts as [0] |
| PwaApp.EncodeBase58Fixed | pwa/app.js:65-89 | the same loops starting from an empty digit array return the canonical base58 encoding |
| PwaApp.CountZeros | pwa/app.js:79-83 | the count of leading zero bytes |
| PwaApp.EmitDigits | pwa/app.js:84-87 | the '1's, then the digits most significant first |
| PwaApp.ReversedDigits | pwa/app.js:85-87 | the emitted digits are "1" for a zero value and the canonical digits otherwise |
| PwaApp.JsEncodingAgrees | pwa/app.js:65-89 | for a non-zero value the app's encoding equals the canonical one |
| PwaApp.Base58EncodingOfUuid | src/body_metrics_tracker/core/friend_code.py:9-19 | the canonical encoding of a UUID is the desktop friend code |
| PwaApp.JsEncodingOfZeros | pwa/app.js:65-89 | all-zero input gets one more '1' than it has bytes |
| PwaApp.NilUuidDisagreement | pwa/app.js:65-89 | the nil UUID gets seventeen '1's from the app and sixteen from the desktop, which refuses the app's code |
| PwaApp.OnesRejected | src/body_metrics_tracker/core/friend_code.py:22-42 | a run of '1's of any length other than 16 or 32 is refused |
| PwaApp.Groups | pwa/app.js:91-97 | groups of one to six characters, all of six but the last |
| PwaApp.FormatFriendCode | pwa/app.js:91-97 | the loop joins the groups with '-' |
| PwaApp.FormatRemovesToCode | pwa/app.js:91-97 | removing the hyphens gives back a code that had none |
| PwaApp.ConcatGroups | pwa/app.js:91-97 | the groups put together are the code |
| PwaApp.DefaultRelayUrl | pwa/app.js:2 | the default relay URL has a scheme and no trailing '/' |
| PwaApp.GetRelayUrl | pwa/app.js:29-36 | blank configuration gives the default; otherwise the trimmed value, with "https://" added without an http(s) scheme; never a trailing '/' |
| PwaApp.RelayUrlAddsScheme | pwa/app.js:32-34 | a bare host gets "https://" in front |
| PwaApp.CreateProfile | pwa/app.js:99-108 | the profile has the given id, no token, the app's code for the id's bytes, and "User" for an empty name |
| PwaApp.ProfileCodeAgrees | pwa/app.js:99-108 | for every non-nil UUID written as hex digits and hyphens, the app's friend code is the desktop's |
| UuidText.BytesHex | src/body_metrics_tracker/storage/codec.py:79 | two lower-case hex digits per byte, no hyphen |
| UuidText.ParseHexBytes | src/body_metrics_tracker/storage/codec.py:99 | hex text parses exactly when of even length and all hex digits, to half as many bytes |
| UuidText.ParseBytesHex | src/body_metrics_tracker/storage/codec.py:79-99 | parsing hex of bytes gives the bytes back |
| UuidText.Format | src/body_metrics_tracker/storage/codec.py:79 | the canonical form has 36 characters |
| UuidText.ReadHexInt | src/body_metrics_tracker/storage/codec.py:99 | what `int(_, 16)` reads is a non-empty run of hex digits, never longer than the text |
| UuidText.ReadPlainHex | src/body_metrics_tracker/storage/codec.py:99 | bare hex digits are read unsigned as themselves |
| UuidText.BytesHexOfParsed | src/body_metrics_tracker/storage/codec.py:79-99 | the canonical hex of parsed bytes is the parsed text lower-cased |
| UuidText.Parse | src/body_metrics_tracker/storage/codec.py:99 | text is accepted exactly when, with "urn:", "uuid:", braces and hyphens dropped, 32 characters remain that `int(_, 16)` reads as a value that is not negative; the bytes' hex is those digits lower-cased and zero-padded |
| UuidText.ParsePlain | src/body_metrics_tracker/storage/codec.py:99 | text of hex digits and hyphens is accepted exactly when 32 digits remain, and gives their bytes |
| UuidText.ParseDecorated | src/body_metrics_tracker/storage/codec.py:99 | the "urn:uuid:" and braced spellings of a UUID read back as the UUID |
| UuidText.FormatDigits | src/body_metrics_tracker/storage/codec.py:79 | without hyphens the canonical form is the 32 hex digits of the bytes |
| UuidText.ParseFormat | src/body_metrics_tracker/storage/codec.py:79-99 | parsing the canonical form gives the UUID back |

## Left out

- Cryptography and encodings: PBKDF2, HKDF, AES-256-GCM, SHA-256, base64, UTF-8, JSON text and ISO-8601 parsing are not modelled byte by byte. They are fields of `Primitives.Prims`, and the model relies only on the round-trip laws in `Lawful`.
- The JavaScript `Date.parse` followed by `toISOString` in relay/worker.js is the parameter `dateIso` of the relay members. A canonical timestamp maps to itself.
- Randomness and the clock: `secrets`, `os.urandom`, `uuid4`, `crypto.randomUUID`, `crypto.getRandomValues`, `utc_now`, `date.today` and `new Date()` are all parameters. One `now` stands for all the clock reads made in one handler.
- Persistence and I/O:
  - the vault's SQLite backend (`SqliteVaultStore`), including its `revoked_at` token check, its `ORDER BY updated_at` in `changes_since` and the `user_id` its device upsert reassigns;
  - the temp-file, fsync and rename steps of the local store, and `LocalStore.exists`/`initialize` (a `new` followed by `save`);
  - the D1 calls of the relay;
  - file dialogs, message boxes and file reads and writes in the GUI. The file contents are inputs and the written payloads are results.
- Network: FastAPI routing and header extraction, `urllib` requests and timeouts, and `fetch`, DOM, localStorage and service-worker code in pwa/app.js. `SyncClient` takes the network as a parameter `send` from request to reply.
- Concurrency: `QThread` workers, the auto-sync `QTimer` and Qt signals. `SyncRound.SyncWidget.StartSync` builds a task value and `SyncRound.RunSync` evaluates it in sequence.
- SyncRound.RunSync: the sync job captures the profile's user id when the round starts. The Python thread reads `self.state.profile.user_id` while it runs. The two differ only if the active profile changes mid-round.
- Floating point: weights, waists, means and tolerances are reals. IEEE rounding is not modelled, and the CSV's `:.2f` formatting is the parameter `fixed2`.
- Python dict order: JSON objects are maps, so the key order of encoded dicts and of the vault's `list_*` answers is not modelled.
- Python `int()` on decimal text is modelled only where the local store reads `schema_version` (`LocalStore.ReadSchemaVersion`) and where friend files read `version` (`Friends.PyInt`): ASCII digits with an optional sign and surrounding whitespace. Underscores and non-ASCII digits are not modelled there. Every other `int(x)` and `float(x)` of the model (`Primitives.AsInt`, `Primitives.AsFloat`) reads JSON numbers and booleans only, and refuses a JSON string even when Python would convert its text. The app's own encoders always write these fields as numbers. The members affected are the lines below.
- StorageCrypto.ReadContainer: a `version` written as numeric text, such as "1", is refused as an invalid container format, where `int()` would read it.
- StorageCrypto.ReadIterations: `iterations` written as numeric text is refused, where `int()` would read it.
- StorageCrypto.DecryptBytes: inherits the two refusals above, so a container with numeric text in `version` or `iterations` does not decrypt.
- VaultServer.InviteExpiry: `expires_in_days` written as numeric text is refused with 500, where `int()` would read it. `VaultServer.VaultApp.AdminInvites` inherits this.
- SyncModels.DecodeChange: `version`, `weight_kg` and `waist_cm` written as numeric text are refused, where `int()` and `float()` would read them. The vault answers 500 to a push that carries them.
- SyncModels.DecodePushResponse: `accepted_count` written as numeric text is refused, where `int()` would read it.
- Codec.DecodeInterval: a truthy `auto_sync_interval_minutes` written as text, such as "15", is refused, where `int()` would read it.
- Codec.DecodeEntryTail: a `version` written as numeric text is refused, where `int()` would read it.
- SyncRound.ReadInviteText: the warning for a file that is not valid JSON carries the fixed text "JSONDecodeError", not the exception's own message (`str(exc)`), which gives the position of the error.
- The local store's `admin_config` codec is the parameter `AdminCodec` with a round-trip law. The admin configuration record is not part of this model. The desktop admin screens (gui/admin.py, gui/vault_admin.py) are not part of it either.
- `SyncClient`: the error text for a JSON or UTF-8 decoding failure is a fixed placeholder, not Python's exception message. An `OSError` from the socket layer is not modelled.
- The sync tab's exchange-invite and test-connection actions, their completion handlers, the certificate browse button and the timer setup are left out. They only wrap `SyncClient` calls in a thread or set widgets.
- `AppState.add_entry`, `update_entry` and `soft_delete_entry` are not modelled separately. They delegate to `LocalStore.LocalStoreData.AddEntry`, `UpdateEntry` and `SoftDeleteEntry` and then save and notify. `subscribe`, `_notify`, `save` and `load_or_create_state` are I/O and UI plumbing.
- Friend sharing details: the share, reminder and settings files' data fields (last entry date, logged-today flag, shared weight and waist, timestamps) are left out. So are `_on_share_update`, `_on_send_reminder` and the friend settings dialog. The files' effect on the link status and name is modelled by `Friends.Handled`.
- Friends.InviteCreated: the list change is made before the save dialog, as in the source. The model does not follow the in-memory change surviving a cancelled save.
- Qt spin-box clamping of weights and waists, avatars, plots, theme colours other than the goal accent, and the dashboard's delta text are left out.
- `str.lower()` is modelled on ASCII letters; Unicode case folding is not. `strip()` and `isspace` use Python's white-space characters, and JavaScript `trim()` uses JavaScript's. JavaScript `length` counts UTF-16 code units, while the model counts characters.
- UuidText.Parse: non-ASCII decimal digits, which Python's `int()` reads as digits, are refused. The app never writes them.
- Codec.DecodeOptStr: a stored value of another JSON type, which Python's `payload.get` would keep untyped, is refused, because the model's record fields are typed. The app's encoder never writes such a value.
- Codec.DecodeOptReal: a stored value that is neither null nor a number is refused for the same reason.
- Codec.DecodeSyncDict: a field holding a JSON type the record field cannot hold is refused where Python would keep it untyped, and an interval written as numeric text is refused (see Codec.DecodeInterval).
- Codec.DecodeFriendDict: the same holds for the friend fields.
- Codec.DecodeProfile: the same holds for the profile fields.
- Codec.DecodeGoals: the same holds for the goal fields.
- Codec.DecodeEntryDict: the same holds for the entry fields. `weight_kg`, `waist_cm` and `version` written as numeric text are refused, where `float()` and `int()` would read them.
- Dialogs.EntryDialog.OnAccept: the warning box text is not modelled. The source joins the warnings with a literal backslash-n (dialogs.py line 212), which is only display text.
- Relay worker:
  - the inbox, profile-update, status, reminder, web-push, VAPID and CORS handlers and the router are left out;
  - a body that is not JSON, or is null, fails before any handler logic and is not modelled;
  - D1's binding of non-scalar values is not modelled;
  - the order of fetched rows and the JSON rendering of the history answer are not modelled; the answer is keyed by friend and entry id;
  - the `last_seen_at` columns are not modelled.
- Relay table keys: the worker ships no schema, so the keys and the uniqueness of friend codes are inferred from its `ON CONFLICT`, `INSERT OR IGNORE` and `SELECT … first()` uses. SQLite's text comparison of `updated_at` is `Text.LexLess`.
- Relay.RelayDb.AcceptInvite: when several pending invites from the same user exist, which one `.first()` returns is left to the database. The contract says only that one pending invite from that user is accepted.

## Findings

| source | as written | input that shows it | evidently intended | confidence | as-written member | corrected member |
|---|---|---|---|---|---|---|
| pwa/app.js:65-89 | `encodeBase58` starts its digit array as `[0]` and always emits that digit, so an all-zero input gets one '1' more than it has zero bytes | the nil UUID `00000000-0000-0000-0000-000000000000`: seventeen '1's, which the desktop's `decode_friend_code` refuses (its sixteen bytes plus one zero byte make seventeen) | the desktop encoding, sixteen '1's, as `encode_friend_code` gives (core/friend_code.py:12-13) | not executed; `crypto.randomUUID` yields version-4 UUIDs, which are never nil, so `createProfile` cannot reach it | PwaApp.NilUuidDisagreement | PwaApp.EncodeBase58Fixed |
