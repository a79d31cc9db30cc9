// The friends screen: the friend-link status machine driven by the invite,
// acceptance, share and reminder files, the reading and writing of those
// files, and the status labels of the friends table.

module Friends {
  import opened Common
  import opened Text
  import opened Primitives
  import opened Models
  import FriendCode
  import LocalStore

  /** The `version` every friend file carries. */
  const FileVersion := 1
  /** The sender name a file without one (or with a blank one) stands for. */
  const DefaultName := "Friend"
  const DefaultReminder := "Time to log your weight today."

  // ---------------------------------------------------------------------
  // Statuses

  /** The statuses the screen writes into a link. */
  predicate KnownStatus(s: string)
  {
    s == "invited" || s == "incoming" || s == "connected"
  }

  predicate KnownStatuses(fs: seq<FriendLink>)
  {
    forall i :: 0 <= i < |fs| ==> KnownStatus(fs[i].status)
  }

  /** `_status_label`: the table's text for a status. */
  function StatusLabel(status: string): (text: string)
    ensures text == "Connected" <==> status == "connected" || status == "accepted"
    ensures text == "Incoming" <==> status == "incoming"
    ensures text == "Invited" <==> status != "connected" && status != "accepted" && status != "incoming"
  {
    if status == "connected" || status == "accepted" then "Connected"
    else if status == "incoming" then "Incoming"
    else "Invited"
  }

  /** On the statuses the screen writes, the label tells the status. */
  lemma LabelsTellStatusesApart(a: string, b: string)
    requires KnownStatus(a) && KnownStatus(b) && StatusLabel(a) == StatusLabel(b)
    ensures a == b
  {
    if a == "connected" {
      assert StatusLabel(b) == "Connected";
    } else if a == "incoming" {
      assert StatusLabel(b) == "Incoming";
    } else {
      assert StatusLabel(b) == "Invited";
    }
  }

  /** What happens to a link: a friend file arrives, or the user sends an invite. */
  datatype Event = InviteReceived | AcceptanceReceived | ShareReceived | ReminderReceived | InviteSent

  /**
   * The status an existing link moves to. A received invite connects a link
   * the user had invited and otherwise marks it incoming; an acceptance or a
   * share connects; a reminder changes nothing; an invite the user sends
   * leaves connected and incoming links alone and marks the others invited.
   */
  function Next(ev: Event, status: string): (r: string)
    ensures status == "connected" ==> r == "connected"
    ensures KnownStatus(status) ==> KnownStatus(r)
  {
    match ev
    case InviteReceived =>
      if status == "invited" then "connected" else if status == "connected" then status else "incoming"
    case AcceptanceReceived => "connected"
    case ShareReceived => "connected"
    case ReminderReceived => status
    case InviteSent => if status == "connected" || status == "incoming" then status else "invited"
  }

  /** The status of the link an event appends for someone not yet listed. */
  function Fresh(ev: Event): (r: string)
    ensures KnownStatus(r)
    ensures r == "connected" <==> ev == AcceptanceReceived || ev == ShareReceived
  {
    match ev
    case InviteReceived => "incoming"
    case AcceptanceReceived => "connected"
    case ShareReceived => "connected"
    case ReminderReceived => "incoming"
    case InviteSent => "invited"
  }

  // ---------------------------------------------------------------------
  // The list of links

  /** `_find_friend`: the first link with that id. */
  function FirstIndex(fs: seq<FriendLink>, id: Uuid): (k: Option<nat>)
    ensures k.Some? ==> k.value < |fs| && fs[k.value].friendId == id
    ensures k.Some? ==> forall j :: 0 <= j < k.value ==> fs[j].friendId != id
    ensures k.None? <==> forall j :: 0 <= j < |fs| ==> fs[j].friendId != id
  {
    if fs == [] then None
    else if fs[0].friendId == id then Some(0)
    else match FirstIndex(fs[1..], id)
      case None => None
      case Some(k) => Some(k + 1)
  }

  lemma FirstIndexAt(fs: seq<FriendLink>, id: Uuid, k: nat)
    requires k < |fs| && fs[k].friendId == id
    requires forall j :: 0 <= j < k ==> fs[j].friendId != id
    ensures FirstIndex(fs, id) == Some(k)
  {
    var f := FirstIndex(fs, id);
    assert f.Some?;
    assert !(f.value < k);
    assert !(k < f.value);
  }

  /** The status of the link `_find_friend` returns, if any. */
  function StatusOf(fs: seq<FriendLink>, id: Uuid): Option<string>
  {
    match FirstIndex(fs, id)
    case None => None
    case Some(k) => Some(fs[k].status)
  }

  /** Python's `a or b` on text. */
  function Or(a: string, b: string): (r: string)
    ensures r != "" <==> a != "" || b != ""
  {
    if a != "" then a else b
  }

  /**
   * A handler's change to the list: the first link with `id` takes the new
   * name (unless blank) and its next status; without one, a link is appended.
   */
  function Touch(fs: seq<FriendLink>, ev: Event, id: Uuid, name: string, now: DateTime): (r: seq<FriendLink>)
    ensures |r| == |fs| + (if StatusOf(fs, id).None? then 1 else 0)
    ensures StatusOf(r, id) == Some(if StatusOf(fs, id).Some? then Next(ev, StatusOf(fs, id).value) else Fresh(ev))
    ensures forall j :: 0 <= j < |fs| && FirstIndex(fs, id) != Some(j) ==> r[j] == fs[j]
    ensures KnownStatuses(fs) ==> KnownStatuses(r)
  {
    match FirstIndex(fs, id)
    case Some(k) =>
      var r := fs[k := fs[k].(displayName := Or(name, fs[k].displayName), status := Next(ev, fs[k].status))];
      FirstIndexAt(r, id, k);
      r
    case None =>
      var r := fs + [FriendLink(id, name, Fresh(ev), now)];
      FirstIndexAt(r, id, |fs|);
      r
  }

  /** `_on_accept_friend`: only an incoming link becomes connected. */
  function AcceptIncoming(fs: seq<FriendLink>, id: Uuid): (r: seq<FriendLink>)
    ensures StatusOf(fs, id) == Some("incoming") ==> StatusOf(r, id) == Some("connected")
    ensures StatusOf(fs, id) != Some("incoming") ==> r == fs
    ensures |r| == |fs| && forall j :: 0 <= j < |fs| && FirstIndex(fs, id) != Some(j) ==> r[j] == fs[j]
    ensures KnownStatuses(fs) ==> KnownStatuses(r)
  {
    match FirstIndex(fs, id)
    case Some(k) =>
      if fs[k].status == "incoming" then
        var r := fs[k := fs[k].(status := "connected")];
        FirstIndexAt(r, id, k);
        r
      else fs
    case None => fs
  }

  /** `_on_remove_friend`: every link with that id goes, the others stay. */
  function Without(fs: seq<FriendLink>, id: Uuid): (r: seq<FriendLink>)
    ensures |r| <= |fs|
  {
    if fs == [] then []
    else (if fs[0].friendId == id then [] else [fs[0]]) + Without(fs[1..], id)
  }

  /** Exactly the links to other friends remain, so `_find_friend` no longer finds the removed one. */
  lemma {:induction false} WithoutMembers(fs: seq<FriendLink>, id: Uuid)
    ensures forall f :: f in Without(fs, id) <==> f in fs && f.friendId != id
    ensures StatusOf(Without(fs, id), id).None?
  {
    if fs != [] {
      WithoutMembers(fs[1..], id);
      assert fs == [fs[0]] + fs[1..];
    }
  }

  /** Removal keeps the remaining links in their order: it distributes over concatenation. */
  lemma {:induction false} WithoutConcat(a: seq<FriendLink>, b: seq<FriendLink>, id: Uuid)
    ensures Without(a + b, id) == Without(a, id) + Without(b, id)
  {
    if a == [] {
      assert a + b == b;
    } else {
      var t := a[1..];
      var ab := a + b;
      assert ab[0] == a[0] && ab[1..] == t + b;
      var head := if a[0].friendId == id then [] else [a[0]];
      WithoutConcat(t, b, id);
      calc {
        Without(ab, id);
        head + Without(t + b, id);
        head + (Without(t, id) + Without(b, id));
        (head + Without(t, id)) + Without(b, id);
      }
    }
  }

  /** A list with no link to that id is left as it is. */
  lemma {:induction false} WithoutAbsent(fs: seq<FriendLink>, id: Uuid)
    requires StatusOf(fs, id).None?
    ensures Without(fs, id) == fs
  {
    if fs != [] {
      assert FirstIndex(fs[1..], id).None? by {
        forall j | 0 <= j < |fs[1..]| ensures fs[1..][j].friendId != id {
          assert fs[1..][j] == fs[j + 1];
        }
      }
      WithoutAbsent(fs[1..], id);
      assert fs == [fs[0]] + fs[1..];
    }
  }

  // ---------------------------------------------------------------------
  // Friend files

  /** `payload.get(key, default)` on a decoded dict. */
  function GetOr(payload: Json, key: string, default: Json): Json
  {
    if payload.JObj? && key in payload.fields then payload.fields[key] else default
  }

  /** `str(payload.get(key, default)).strip()` */
  function ReadText(p: Prims, payload: Json, key: string, default: string): string
  {
    Strip(PyStr(p, GetOr(payload, key, JStr(default))))
  }

  /** Python `int(x)` on a decoded value: numbers and booleans, or decimal text. */
  function PyInt(j: Json): (r: Result<int>)
    ensures j.JInt? ==> r == Ok(j.i)
    ensures j.JNull? || j.JArr? || j.JObj? ==> r.Err?
  {
    if j.JStr? then
      (match LocalStore.IntOfText(j.s)
       case Some(n) => Ok(n)
       case None => Err("ValueError"))
    else AsInt(j)
  }

  /** `_detect_file_type`: the lower-cased, stripped `type`, "invite" when blank or absent. */
  function DetectFileType(p: Prims, payload: Json): (r: Result<string>)
    ensures r.Ok? <==> payload.JObj?
    ensures r.Ok? ==> |r.value| > 0
    ensures r.Ok? && !("type" in payload.fields) ==> r.value == "invite"
  {
    if !payload.JObj? then Err("AttributeError")
    else
      var t := Lower(ReadText(p, payload, "type", ""));
      Ok(if |t| > 0 then t else "invite")
  }

  /** Which parser reads a file: invites have their own error texts. */
  datatype Parser = InviteParser | SenderParser

  /**
   * `_parse_invite_payload` and `_parse_sender_payload`: version 1, a
   * sender code that decodes, and a recipient code that, when present, is
   * the user's own. The sender name defaults to "Friend".
   */
  function ParsePayload(p: Prims, parser: Parser, payload: Json, ownId: Uuid): (r: Result<(Uuid, string)>)
    ensures r.Ok? ==> payload.JObj? && PyInt(GetOr(payload, "version", JInt(0))) == Ok(FileVersion)
    ensures r.Ok? ==> FriendCode.Decoding(ReadText(p, payload, "sender_code", "")) == Ok(r.value.0)
    ensures r.Ok? ==> var recipient := ReadText(p, payload, "recipient_code", "");
                      recipient == "" || recipient == FriendCode.Encoding(ownId)
    ensures r.Ok? ==> r.value.1 == Or(ReadText(p, payload, "sender_name", DefaultName), DefaultName) != ""
  {
    if !payload.JObj? then Err("AttributeError")
    else
      var version :- PyInt(GetOr(payload, "version", JInt(0)));
      if version != FileVersion then
        Err(if parser.InviteParser? then "Unsupported invite file version." else "Unsupported friend file version.")
      else
        var senderCode := ReadText(p, payload, "sender_code", "");
        var recipientCode := ReadText(p, payload, "recipient_code", "");
        var senderName := Or(ReadText(p, payload, "sender_name", DefaultName), DefaultName);
        if senderCode == "" then
          Err(if parser.InviteParser? then "Invite is missing sender code." else "Missing sender code.")
        else
          var senderId :- FriendCode.Decoding(senderCode);
          if recipientCode != "" && recipientCode != FriendCode.Encoding(ownId) then
            Err(if parser.InviteParser? then "This invite is not meant for your friend code."
                else "This file is not meant for your friend code.")
          else Ok((senderId, senderName))
  }

  /**
   * `_build_invite_payload` and `_build_accept_payload` (`fileType` is
   * "invite" or "accept"); `createdAt` stands for the current time.
   */
  function BuildPayload(p: Prims, fileType: string, senderId: Uuid, senderName: string, recipientId: Uuid,
                        createdAt: DateTime): Json
  {
    JObj(map[
      "type" := JStr(fileType),
      "version" := JInt(FileVersion),
      "sender_code" := JStr(FriendCode.Encoding(senderId)),
      "sender_name" := JStr(Or(senderName, DefaultName)),
      "recipient_code" := JStr(FriendCode.Encoding(recipientId)),
      "created_at" := JStr(p.isoFormat(createdAt))
    ])
  }

  // One lemma per field of a built file keeps each map lookup small.

  lemma BuiltType(p: Prims, fileType: string, senderId: Uuid, senderName: string, recipientId: Uuid, createdAt: DateTime)
    ensures GetOr(BuildPayload(p, fileType, senderId, senderName, recipientId, createdAt), "type", JStr("")) == JStr(fileType)
  {
  }

  lemma BuiltVersion(p: Prims, fileType: string, senderId: Uuid, senderName: string, recipientId: Uuid, createdAt: DateTime)
    ensures GetOr(BuildPayload(p, fileType, senderId, senderName, recipientId, createdAt), "version", JInt(0))
            == JInt(FileVersion)
  {
  }

  lemma BuiltSender(p: Prims, fileType: string, senderId: Uuid, senderName: string, recipientId: Uuid, createdAt: DateTime)
    ensures ReadText(p, BuildPayload(p, fileType, senderId, senderName, recipientId, createdAt), "sender_code", "")
            == FriendCode.Encoding(senderId)
  {
    assert GetOr(BuildPayload(p, fileType, senderId, senderName, recipientId, createdAt), "sender_code", JStr(""))
           == JStr(FriendCode.Encoding(senderId));
    FriendCode.EncodingStripped(senderId);
  }

  lemma BuiltRecipient(p: Prims, fileType: string, senderId: Uuid, senderName: string, recipientId: Uuid,
                       createdAt: DateTime)
    ensures ReadText(p, BuildPayload(p, fileType, senderId, senderName, recipientId, createdAt), "recipient_code", "")
            == FriendCode.Encoding(recipientId)
  {
    assert GetOr(BuildPayload(p, fileType, senderId, senderName, recipientId, createdAt), "recipient_code", JStr(""))
           == JStr(FriendCode.Encoding(recipientId));
    FriendCode.EncodingStripped(recipientId);
  }

  lemma BuiltName(p: Prims, fileType: string, senderId: Uuid, senderName: string, recipientId: Uuid, createdAt: DateTime)
    ensures ReadText(p, BuildPayload(p, fileType, senderId, senderName, recipientId, createdAt), "sender_name", DefaultName)
            == Strip(Or(senderName, DefaultName))
  {
    assert GetOr(BuildPayload(p, fileType, senderId, senderName, recipientId, createdAt), "sender_name", JStr(DefaultName))
           == JStr(Or(senderName, DefaultName));
  }

  /** The name a reader takes from a file written for `name`. */
  function NameRead(name: string): string
  {
    if Strip(name) == "" then DefaultName else Strip(name)
  }

  /** A file whose fields carry version 1, a sender's code and the reader's own code parses to that sender. */
  lemma ParseOfFields(p: Prims, parser: Parser, payload: Json, ownId: Uuid, senderId: Uuid)
    requires payload.JObj? && GetOr(payload, "version", JInt(0)) == JInt(FileVersion)
    requires ReadText(p, payload, "sender_code", "") == FriendCode.Encoding(senderId)
    requires ReadText(p, payload, "recipient_code", "") == FriendCode.Encoding(ownId)
    ensures ParsePayload(p, parser, payload, ownId) == Ok((senderId, Or(ReadText(p, payload, "sender_name", DefaultName), DefaultName)))
  {
    FriendCode.EncodingNotEmpty(senderId);
    FriendCode.DecodeEncode(senderId);
  }

  lemma NameReadBack(name: string)
    ensures Or(Strip(Or(name, DefaultName)), DefaultName) == NameRead(name)
  {
    if name == "" {
      StripEnds(DefaultName);
      assert Strip(Or(name, DefaultName)) == DefaultName;
      assert |Strip(name)| == 0;
    } else {
      assert Or(name, DefaultName) == name;
    }
  }

  /** Text without capitals is its own lower-casing. */
  lemma LowerOfLower(s: string)
    requires forall i :: 0 <= i < |s| ==> !('A' <= s[i] <= 'Z')
    ensures Lower(s) == s
  {
  }

  /** The file the recipient reads back: the sender, under the (stripped) name it was written with. */
  lemma BuiltPayloadReadsBack(p: Prims, parser: Parser, fileType: string, senderId: Uuid, senderName: string,
                              recipientId: Uuid, createdAt: DateTime)
    ensures ParsePayload(p, parser, BuildPayload(p, fileType, senderId, senderName, recipientId, createdAt), recipientId)
            == Ok((senderId, NameRead(senderName)))
  {
    BuiltVersion(p, fileType, senderId, senderName, recipientId, createdAt);
    BuiltSender(p, fileType, senderId, senderName, recipientId, createdAt);
    BuiltRecipient(p, fileType, senderId, senderName, recipientId, createdAt);
    BuiltName(p, fileType, senderId, senderName, recipientId, createdAt);
    ParseOfFields(p, parser, BuildPayload(p, fileType, senderId, senderName, recipientId, createdAt), recipientId, senderId);
    NameReadBack(senderName);
  }

  /** A file addressed to someone else is refused. */
  lemma MisaddressedPayloadRefused(p: Prims, parser: Parser, fileType: string, senderId: Uuid, senderName: string,
                                   recipientId: Uuid, createdAt: DateTime, ownId: Uuid)
    requires recipientId != ownId
    ensures ParsePayload(p, parser, BuildPayload(p, fileType, senderId, senderName, recipientId, createdAt), ownId).Err?
  {
    BuiltRecipient(p, fileType, senderId, senderName, recipientId, createdAt);
    FriendCode.EncodingNotEmpty(recipientId);
    FriendCode.DecodeEncode(recipientId);
    FriendCode.DecodeEncode(ownId);
  }

  /** A dict whose `type` is already stripped, lower-case text is detected as that type. */
  lemma DetectPlainType(p: Prims, payload: Json, t: string)
    requires payload.JObj? && GetOr(payload, "type", JStr("")) == JStr(t)
    requires t != [] && !IsSpace(t[0]) && !IsSpace(t[|t| - 1])
    requires forall i :: 0 <= i < |t| ==> !('A' <= t[i] <= 'Z')
    ensures DetectFileType(p, payload) == Ok(t)
  {
    StripEnds(t);
    LowerOfLower(t);
  }

  /** The reader recognises a written invite as one. */
  lemma BuiltInviteType(p: Prims, senderId: Uuid, senderName: string, recipientId: Uuid, createdAt: DateTime)
    ensures DetectFileType(p, BuildPayload(p, "invite", senderId, senderName, recipientId, createdAt)) == Ok("invite")
  {
    BuiltType(p, "invite", senderId, senderName, recipientId, createdAt);
    DetectPlainType(p, BuildPayload(p, "invite", senderId, senderName, recipientId, createdAt), "invite");
  }

  /** The reader recognises a written acceptance as one. */
  lemma BuiltAcceptType(p: Prims, senderId: Uuid, senderName: string, recipientId: Uuid, createdAt: DateTime)
    ensures DetectFileType(p, BuildPayload(p, "accept", senderId, senderName, recipientId, createdAt)) == Ok("accept")
  {
    BuiltType(p, "accept", senderId, senderName, recipientId, createdAt);
    DetectPlainType(p, BuildPayload(p, "accept", senderId, senderName, recipientId, createdAt), "accept");
  }

  // ---------------------------------------------------------------------
  // Handlers as functions of the list

  /** The parser each incoming file goes through. */
  function ParserOf(ev: Event): Parser
  {
    if ev == InviteReceived then InviteParser else SenderParser
  }

  /** The reminder text: the message, stripped, or the default one. */
  function ReminderText(p: Prims, payload: Json): (r: string)
    ensures r != ""
  {
    Or(ReadText(p, payload, "message", ""), DefaultReminder)
  }

  /** The status line (or, for a reminder, the message box) a handled file ends with. */
  function Notice(p: Prims, ev: Event, name: string, payload: Json): string
  {
    match ev
    case InviteReceived => "Invite imported. Accept to connect."
    case AcceptanceReceived => "Acceptance received. You are now connected."
    case ShareReceived => "Update received from " + name + "."
    case ReminderReceived => name + ": " + ReminderText(p, payload)
    case InviteSent => ""
  }

  /**
   * `_handle_invite`, `_handle_accept`, `_handle_share` and
   * `_handle_reminder` on the list: a file that does not parse, or an
   * invite from the user themself, leaves it as it is.
   */
  function Handled(p: Prims, ev: Event, payload: Json, userId: Uuid, fs: seq<FriendLink>, now: DateTime)
    : (out: (Result<string>, seq<FriendLink>))
    requires ev != InviteSent
    ensures out.0.Err? ==> out.1 == fs
    ensures ev == InviteReceived && ParsePayload(p, InviteParser, payload, userId) == Ok((userId, DefaultName))
            ==> out.0.Err?
    ensures out.0.Ok? <==> ParsePayload(p, ParserOf(ev), payload, userId).Ok?
                           && (ev == InviteReceived ==> ParsePayload(p, ParserOf(ev), payload, userId).value.0 != userId)
    ensures out.0.Ok? ==> var sender := ParsePayload(p, ParserOf(ev), payload, userId).value;
                          out.1 == Touch(fs, ev, sender.0, sender.1, now)
    ensures KnownStatuses(fs) ==> KnownStatuses(out.1)
  {
    match ParsePayload(p, ParserOf(ev), payload, userId)
    case Err(e) => (Err(e), fs)
    case Ok(sender) =>
      if ev == InviteReceived && sender.0 == userId then (Err("This invite is from you."), fs)
      else (Ok(Notice(p, ev, sender.1, payload)), Touch(fs, ev, sender.0, sender.1, now))
  }

  /** `_on_import_friend_file` once the file is decoded: dispatch on the detected type. */
  function Imported(p: Prims, payload: Json, userId: Uuid, fs: seq<FriendLink>, now: DateTime)
    : (out: (Result<string>, seq<FriendLink>))
    ensures out.0.Err? ==> out.1 == fs
    ensures KnownStatuses(fs) ==> KnownStatuses(out.1)
  {
    match DetectFileType(p, payload)
    case Err(e) => (Err(e), fs)
    case Ok(t) =>
      if t == "invite" then Handled(p, InviteReceived, payload, userId, fs, now)
      else if t == "accept" then Handled(p, AcceptanceReceived, payload, userId, fs, now)
      else if t == "share" then Handled(p, ShareReceived, payload, userId, fs, now)
      else if t == "reminder" then Handled(p, ReminderReceived, payload, userId, fs, now)
      else (Err("Unrecognized friend file."), fs)
  }

  /**
   * `_on_create_invite_file` up to the file dialog: the list change and the
   * invite to save. The change is made in memory before the user picks a
   * file, so it stays even when the save is cancelled.
   */
  function InviteCreated(p: Prims, codeText: string, nameText: string, userId: Uuid, userName: string,
                         fs: seq<FriendLink>, now: DateTime): (out: (Result<Json>, seq<FriendLink>))
    ensures out.0.Err? ==> out.1 == fs
    ensures out.0.Ok? <==> FriendCode.Decoding(Strip(codeText)).Ok? && Strip(codeText) != ""
                           && FriendCode.Decoding(Strip(codeText)).value != userId
    ensures out.0.Ok? ==> var id := FriendCode.Decoding(Strip(codeText)).value;
                          && out.0.value == BuildPayload(p, "invite", userId, userName, id, now)
                          && out.1 == Touch(fs, InviteSent, id, Or(Strip(nameText), DefaultName), now)
    ensures KnownStatuses(fs) ==> KnownStatuses(out.1)
  {
    var code := Strip(codeText);
    if code == "" then (Err("Enter a friend code."), fs)
    else InviteFor(p, FriendCode.Decoding(code), Or(Strip(nameText), DefaultName), userId, userName, fs, now)
  }

  /** The rest of `_on_create_invite_file` once the code is decoded (or not). */
  function InviteFor(p: Prims, decoded: Result<Uuid>, name: string, userId: Uuid, userName: string,
                     fs: seq<FriendLink>, now: DateTime): (out: (Result<Json>, seq<FriendLink>))
    ensures out.0.Err? ==> out.1 == fs
    ensures out.0.Ok? <==> decoded.Ok? && decoded.value != userId
    ensures out.0.Ok? ==> && out.0.value == BuildPayload(p, "invite", userId, userName, decoded.value, now)
                          && out.1 == Touch(fs, InviteSent, decoded.value, name, now)
    ensures KnownStatuses(fs) ==> KnownStatuses(out.1)
  {
    match decoded
    case Err(_) => (Err("Enter a valid friend code."), fs)
    case Ok(id) =>
      if id == userId then (Err("You cannot add your own friend code."), fs)
      else (Ok(BuildPayload(p, "invite", userId, userName, id, now)), Touch(fs, InviteSent, id, name, now))
  }

  /** A received invite never connects anybody the user had not invited. */
  lemma InviteConnectsOnlyInvited(p: Prims, payload: Json, userId: Uuid, fs: seq<FriendLink>, now: DateTime, id: Uuid)
    requires StatusOf(fs, id) != Some("invited") && StatusOf(fs, id) != Some("connected")
    ensures var after := StatusOf(Handled(p, InviteReceived, payload, userId, fs, now).1, id);
            after == StatusOf(fs, id) || after == Some("incoming")
  {
    var out := Handled(p, InviteReceived, payload, userId, fs, now);
    if out.0.Ok? {
      var sender := ParsePayload(p, InviteParser, payload, userId).value;
      TouchInvite(fs, sender.0, sender.1, now, id);
    }
  }

  lemma TouchInvite(fs: seq<FriendLink>, sender: Uuid, name: string, now: DateTime, id: Uuid)
    requires StatusOf(fs, id) != Some("invited") && StatusOf(fs, id) != Some("connected")
    ensures var after := StatusOf(Touch(fs, InviteReceived, sender, name, now), id);
            after == StatusOf(fs, id) || after == Some("incoming")
  {
    if sender != id {
      TouchOthers(fs, InviteReceived, sender, name, now, id);
    }
  }

  /** Touching one id leaves the status of every other id as it was. */
  lemma TouchOthers(fs: seq<FriendLink>, ev: Event, id: Uuid, name: string, now: DateTime, other: Uuid)
    requires other != id
    ensures StatusOf(Touch(fs, ev, id, name, now), other) == StatusOf(fs, other)
  {
    var r := Touch(fs, ev, id, name, now);
    match FirstIndex(fs, other)
    case Some(k) =>
      assert FirstIndex(fs, id) != Some(k);
      FirstIndexAt(r, other, k);
    case None =>
      forall j | 0 <= j < |r| ensures r[j].friendId != other {
        if j < |fs| && FirstIndex(fs, id) != Some(j) {
          assert r[j] == fs[j];
        }
      }
  }

  /** A friend code, as typed into the invite box, names its user. */
  lemma CodeReadsBack(u: Uuid)
    ensures var code := Strip(FriendCode.Encoding(u));
            code != "" && FriendCode.Decoding(code) == Ok(u)
  {
    FriendCode.EncodingStripped(u);
    FriendCode.EncodingNotEmpty(u);
    FriendCode.DecodeEncode(u);
  }

  /** Inviting someone not listed lists them as invited. */
  lemma InviteStranger(p: Prims, a: Uuid, name: string, b: Uuid, nameB: string, fb: seq<FriendLink>, now: DateTime)
    requires a != b && StatusOf(fb, a).None?
    ensures var sent := InviteFor(p, Ok(a), name, b, nameB, fb, now);
            && sent.0 == Ok(BuildPayload(p, "invite", b, nameB, a, now))
            && StatusOf(sent.1, a) == Some("invited")
  {
  }

  /** Importing an invite from someone not listed lists them as incoming. */
  lemma ImportInviteFromStranger(p: Prims, payload: Json, a: Uuid, fa: seq<FriendLink>, b: Uuid, nameB: string,
                                 now: DateTime)
    requires DetectFileType(p, payload) == Ok("invite") && ParsePayload(p, InviteParser, payload, a) == Ok((b, nameB))
    requires a != b && StatusOf(fa, b).None?
    ensures var received := Imported(p, payload, a, fa, now);
            received.0.Ok? && StatusOf(received.1, b) == Some("incoming")
  {
    var received := Imported(p, payload, a, fa, now);
    assert received == Handled(p, InviteReceived, payload, a, fa, now);
    assert received.1 == Touch(fa, InviteReceived, b, nameB, now);
  }

  /** Importing an acceptance from someone the user invited connects them. */
  lemma ImportAcceptFromInvited(p: Prims, payload: Json, b: Uuid, fb: seq<FriendLink>, a: Uuid, nameA: string,
                                now: DateTime)
    requires DetectFileType(p, payload) == Ok("accept") && ParsePayload(p, SenderParser, payload, b) == Ok((a, nameA))
    requires StatusOf(fb, a) == Some("invited")
    ensures var back := Imported(p, payload, b, fb, now);
            back.0.Ok? && StatusOf(back.1, a) == Some("connected")
  {
    var back := Imported(p, payload, b, fb, now);
    assert back == Handled(p, AcceptanceReceived, payload, b, fb, now);
    assert back.1 == Touch(fb, AcceptanceReceived, a, nameA, now);
  }

  /**
   * The whole exchange between two users who do not list each other yet:
   * B saves an invite for A, A imports it (incoming) and accepts (connected),
   * and B imports A's acceptance (connected).
   */
  lemma {:induction false} Handshake(p: Prims, a: Uuid, nameA: string, fa: seq<FriendLink>, b: Uuid, nameB: string,
                                     fb: seq<FriendLink>, now: DateTime)
    requires a != b && StatusOf(fa, b).None? && StatusOf(fb, a).None?
    ensures var sent := InviteCreated(p, FriendCode.Encoding(a), nameA, b, nameB, fb, now);
            && sent.0.Ok? && StatusOf(sent.1, a) == Some("invited")
            && var received := Imported(p, sent.0.value, a, fa, now);
            && received.0.Ok? && StatusOf(received.1, b) == Some("incoming")
            && StatusOf(AcceptIncoming(received.1, b), b) == Some("connected")
            && var back := Imported(p, BuildPayload(p, "accept", a, nameA, b, now), b, sent.1, now);
            && back.0.Ok? && StatusOf(back.1, a) == Some("connected")
  {
    CodeReadsBack(a);
    var sent := InviteCreated(p, FriendCode.Encoding(a), nameA, b, nameB, fb, now);
    assert sent == InviteFor(p, Ok(a), Or(Strip(nameA), DefaultName), b, nameB, fb, now);
    InviteStranger(p, a, Or(Strip(nameA), DefaultName), b, nameB, fb, now);
    var invite := BuildPayload(p, "invite", b, nameB, a, now);
    BuiltInviteType(p, b, nameB, a, now);
    BuiltPayloadReadsBack(p, InviteParser, "invite", b, nameB, a, now);
    ImportInviteFromStranger(p, invite, a, fa, b, NameRead(nameB), now);
    var acceptance := BuildPayload(p, "accept", a, nameA, b, now);
    BuiltAcceptType(p, a, nameA, b, now);
    BuiltPayloadReadsBack(p, SenderParser, "accept", a, nameA, b, now);
    ImportAcceptFromInvited(p, acceptance, b, sent.1, a, NameRead(nameA), now);
  }

  // ---------------------------------------------------------------------
  // The screen

  /** The friends screen over the active profile's list of links. */
  class FriendsWidget {
    const userId: Uuid
    const displayName: string
    var friends: seq<FriendLink>
    var statusText: string

    constructor(profile: UserProfile)
      ensures userId == profile.userId && displayName == profile.displayName
      ensures friends == profile.friends && statusText == ""
    {
      userId := profile.userId;
      displayName := profile.displayName;
      friends := profile.friends;
      statusText := "";
    }

    /** `_find_friend` */
    method FindFriend(id: Uuid) returns (k: Option<nat>)
      ensures k == FirstIndex(friends, id)
    {
      var i := 0;
      while i < |friends|
        invariant 0 <= i <= |friends|
        invariant forall j :: 0 <= j < i ==> friends[j].friendId != id
      {
        if friends[i].friendId == id {
          FirstIndexAt(friends, id, i);
          return Some(i);
        }
        i := i + 1;
      }
      return None;
    }

    /** The in-place update every handler makes: rename and move on the found link, or append one. */
    method Apply(ev: Event, id: Uuid, name: string, now: DateTime)
      modifies this
      ensures friends == Touch(old(friends), ev, id, name, now)
      ensures statusText == old(statusText)
    {
      var k := FindFriend(id);
      if k.Some? {
        var f := friends[k.value];
        friends := friends[k.value := f.(displayName := Or(name, f.displayName), status := Next(ev, f.status))];
      } else {
        friends := friends + [FriendLink(id, name, Fresh(ev), now)];
      }
    }

    /** One incoming friend file of a known kind. */
    method HandleFile(p: Prims, ev: Event, payload: Json, now: DateTime) returns (r: Result<string>)
      requires ev != InviteSent
      modifies this
      ensures (r, friends) == Handled(p, ev, payload, userId, old(friends), now)
      ensures statusText == (if r.Ok? && ev != ReminderReceived then r.value else old(statusText))
    {
      var parsed := ParsePayload(p, ParserOf(ev), payload, userId);
      if parsed.Err? {
        return Err(parsed.error);
      }
      var sender := parsed.value;
      if ev == InviteReceived && sender.0 == userId {
        return Err("This invite is from you.");
      }
      Apply(ev, sender.0, sender.1, now);
      r := Ok(Notice(p, ev, sender.1, payload));
      if ev != ReminderReceived {
        statusText := r.value;
      }
    }

    /** `_on_import_friend_file` once the file is read and decoded. */
    method ImportFriendFile(p: Prims, payload: Json, now: DateTime) returns (r: Result<string>)
      modifies this
      ensures (r, friends) == Imported(p, payload, userId, old(friends), now)
    {
      var fileType := DetectFileType(p, payload);
      if fileType.Err? {
        return Err(fileType.error);
      }
      var t := fileType.value;
      if t == "invite" {
        r := HandleFile(p, InviteReceived, payload, now);
      } else if t == "accept" {
        r := HandleFile(p, AcceptanceReceived, payload, now);
      } else if t == "share" {
        r := HandleFile(p, ShareReceived, payload, now);
      } else if t == "reminder" {
        r := HandleFile(p, ReminderReceived, payload, now);
      } else {
        r := Err("Unrecognized friend file.");
      }
    }

    /** `_on_create_invite_file` up to the file dialog; returns the invite to save. */
    method CreateInviteFile(p: Prims, codeText: string, nameText: string, now: DateTime) returns (r: Result<Json>)
      modifies this
      ensures (r, friends) == InviteCreated(p, codeText, nameText, userId, displayName, old(friends), now)
      ensures statusText == old(statusText)
    {
      var code := Strip(codeText);
      var name := Or(Strip(nameText), DefaultName);
      if code == "" {
        return Err("Enter a friend code.");
      }
      var id := FriendCode.DecodeFriendCode(code);
      if id.Err? {
        return Err("Enter a valid friend code.");
      }
      if id.value == userId {
        return Err("You cannot add your own friend code.");
      }
      Apply(InviteSent, id.value, name, now);
      r := Ok(BuildPayload(p, "invite", userId, displayName, id.value, now));
    }

    /** `_on_accept_friend`: the acceptance to save when an incoming link was connected. */
    method AcceptFriend(p: Prims, id: Uuid, now: DateTime) returns (payload: Option<Json>)
      modifies this
      ensures friends == AcceptIncoming(old(friends), id)
      ensures payload.Some? <==> StatusOf(old(friends), id) == Some("incoming")
      ensures payload.Some? ==> payload.value == BuildPayload(p, "accept", userId, displayName, id, now)
      ensures statusText == old(statusText)
    {
      var i := 0;
      while i < |friends|
        invariant 0 <= i <= |friends|
        invariant forall j :: 0 <= j < i ==> friends[j].friendId != id
      {
        if friends[i].friendId == id {
          FirstIndexAt(friends, id, i);
          if friends[i].status != "incoming" {
            return None;
          }
          friends := friends[i := friends[i].(status := "connected")];
          return Some(BuildPayload(p, "accept", userId, displayName, id, now));
        }
        i := i + 1;
      }
      return None;
    }

    /** `_on_remove_friend`: nothing changes unless the user confirms. */
    method RemoveFriend(id: Uuid, confirmed: bool)
      modifies this
      ensures friends == (if confirmed then Without(old(friends), id) else old(friends))
      ensures statusText == (if confirmed then "Friend removed." else old(statusText))
    {
      if confirmed {
        friends := Without(friends, id);
        statusText := "Friend removed.";
      }
    }
  }
}
