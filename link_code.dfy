// Link codes: "bmtlink:v1:" followed by the unpadded base64url form
// (section 5 of RFC 4648) of the JSON object {"user_id": "<uuid text>"}.

module LinkCode {
  import opened Common
  import opened Text
  import opened Primitives
  import UuidText

  const Prefix: string := "bmtlink:v1:"

  /** The JSON payload a link code carries. */
  function Payload(userId: Uuid): Json
  {
    JObj(map["user_id" := JStr(UuidText.Format(userId))])
  }

  /** `encode_link_code`. */
  function Encode(p: Prims, userId: Uuid): (code: string)
    ensures StartsWith(code, Prefix)
  {
    var raw := p.utf8Encode(p.jsonDumps(Payload(userId)));
    Prefix + RStripChar(p.b64UrlEncode(raw), '=')
  }

  /** The '=' characters that make the length a multiple of four. */
  function Pad(text: string): (padded: string)
    ensures |padded| % 4 == 0 && 0 <= |padded| - |text| < 4
    ensures padded[..|text|] == text
    ensures forall i :: |text| <= i < |padded| ==> padded[i] == '='
  {
    text + Repeat('=', (-|text|) % 4)
  }

  /** `decode_link_code`: the UUID, or the error it raises. */
  function Decode(p: Prims, value: string): (r: Result<Uuid>)
    ensures value == "" ==> r == Err("Missing link code")
  {
    if value == "" then Err("Missing link code") else DecodeText(p, CodeText(value))
  }

  /** The payload of the text after the prefix, then its user id. */
  function DecodeText(p: Prims, text: string): Result<Uuid>
  {
    match PayloadOf(p, text)
    case Err(e) => Err(e)
    case Ok(payload) => UserIdOf(payload)
  }

  /** The stripped input with one leading prefix removed. */
  function CodeText(value: string): (text: string)
    ensures |text| <= |value|
  {
    var stripped := Strip(value);
    if StartsWith(stripped, Prefix) then stripped[|Prefix|..] else stripped
  }

  /** The JSON object a link code's text (prefix removed) stands for. */
  function PayloadOf(p: Prims, text: string): (r: Result<Json>)
    ensures StartsWith(text, "{") ==> (r.Ok? <==> p.jsonLoads(text).Some?)
  {
    if StartsWith(text, "{") then
      match p.jsonLoads(text)
      case None => Err("Invalid JSON")
      case Some(j) => Ok(j)
    else
      match p.b64UrlDecode(Pad(text))
      case None => Err("Invalid base64")
      case Some(raw) =>
        match p.utf8Decode(raw)
        case None => Err("Invalid UTF-8")
        case Some(s) =>
          match p.jsonLoads(s)
          case None => Err("Invalid JSON")
          case Some(j) => Ok(j)
  }

  /** `payload.get("user_id")` must be present and truthy, then `UUID(user_id)`. */
  function UserIdOf(payload: Json): (r: Result<Uuid>)
    ensures payload.JObj? && !Truthy(Get(payload, "user_id")) ==> r == Err("Link code missing user_id")
    ensures r.Ok? ==> Get(payload, "user_id").JStr? && UuidText.Parse(Get(payload, "user_id").s) == Some(r.value)
  {
    if !payload.JObj? then Err("Payload is not an object")
    else
      var userId := Get(payload, "user_id");
      if !Truthy(userId) then Err("Link code missing user_id")
      else if !userId.JStr? then Err("Link code user_id is not a string")
      else match UuidText.Parse(userId.s)
        case None => Err("Badly formed UUID string")
        case Some(u) => Ok(u)
  }

  /** The base64url body of a code: no padding, only URL-safe characters. */
  lemma EncodedBody(p: Prims, userId: Uuid)
    requires p.Lawful()
    ensures var body := Encode(p, userId)[|Prefix|..];
      forall i :: 0 <= i < |body| ==> body[i] != '=' && IsUrlSafeChar(body[i])
  {
    var raw := p.utf8Encode(p.jsonDumps(Payload(userId)));
    var e := p.b64UrlEncode(raw);
    assert p.UrlPadded(e);
    assert Encode(p, userId)[|Prefix|..] == RStripChar(e, '=');
  }

  /** Every UUID survives the trip through a link code. */
  lemma DecodeEncode(p: Prims, userId: Uuid)
    requires p.Lawful()
    ensures Decode(p, Encode(p, userId)) == Ok(userId)
  {
    EncodedText(p, userId);
    BodyPayload(p, userId);
    UserIdOfPayload(userId);
  }

  lemma UserIdOfPayload(userId: Uuid)
    ensures UserIdOf(Payload(userId)) == Ok(userId)
  {
    UuidText.ParseFormat(userId);
    assert UuidText.Format(userId) != "";
  }

  /** Stripping a code and removing its prefix leaves the base64url body. */
  lemma EncodedText(p: Prims, userId: Uuid)
    requires p.Lawful()
    ensures CodeText(Encode(p, userId)) == RStripChar(p.b64UrlEncode(p.utf8Encode(p.jsonDumps(Payload(userId)))), '=')
  {
    var body := RStripChar(p.b64UrlEncode(p.utf8Encode(p.jsonDumps(Payload(userId)))), '=');
    var code := Encode(p, userId);
    EncodedBody(p, userId);
    assert code[|Prefix|..] == body;
    NoSpaceCode(code, body);
    StripNoSpace(code);
    assert code[..|Prefix|] == Prefix;
  }

  lemma NoSpaceCode(code: string, body: string)
    requires code == Prefix + body
    requires forall i :: 0 <= i < |body| ==> IsUrlSafeChar(body[i])
    ensures forall i :: 0 <= i < |code| ==> !IsSpace(code[i])
  {
    forall i | 0 <= i < |code|
      ensures !IsSpace(code[i])
    {
      if i >= |Prefix| {
        assert code[i] == body[i - |Prefix|];
      }
    }
  }

  /** Decoding the body of a code gives the payload back. */
  lemma BodyPayload(p: Prims, userId: Uuid)
    requires p.Lawful()
    ensures var body := RStripChar(p.b64UrlEncode(p.utf8Encode(p.jsonDumps(Payload(userId)))), '=');
      PayloadOf(p, body) == Ok(Payload(userId))
  {
    var raw := p.utf8Encode(p.jsonDumps(Payload(userId)));
    var e := p.b64UrlEncode(raw);
    assert p.UrlPadded(e);
    PadBody(p, e);
    assert p.b64UrlDecode(e) == Some(raw);
  }

  /** An unpadded base64url body is not JSON text, and padding it restores the encoding. */
  lemma PadBody(p: Prims, e: string)
    requires p.UrlPadded(e)
    ensures !StartsWith(RStripChar(e, '='), "{") && Pad(RStripChar(e, '=')) == e
  {
    var body := RStripChar(e, '=');
    UrlSafeNotJson(body);
  }

  lemma UrlSafeNotJson(body: string)
    requires forall i :: 0 <= i < |body| ==> IsUrlSafeChar(body[i])
    ensures !StartsWith(body, "{")
  {
    if |body| > 0 {
      assert IsUrlSafeChar(body[0]);
    }
  }

  /** The prefix is optional: text without it decodes the same. */
  lemma PrefixOptional(p: Prims, text: string)
    requires text != "" && !IsSpace(text[0]) && !IsSpace(text[|text| - 1]) && !StartsWith(text, Prefix)
    ensures Decode(p, Prefix + text) == Decode(p, text)
  {
    PrefixedCodeText(text);
    PlainCodeText(text);
  }

  lemma PrefixedCodeText(text: string)
    requires text != "" && !IsSpace(text[|text| - 1])
    ensures CodeText(Prefix + text) == text
  {
    StripPrefixed(text);
    PrefixStarts(text);
    PrefixDrops(text);
  }

  lemma PrefixStarts(text: string)
    ensures StartsWith(Prefix + text, Prefix)
  {
    assert (Prefix + text)[..|Prefix|] == Prefix;
  }

  lemma PrefixDrops(text: string)
    ensures (Prefix + text)[|Prefix|..] == text
  {
  }

  lemma PlainCodeText(text: string)
    requires text != "" && !IsSpace(text[0]) && !IsSpace(text[|text| - 1]) && !StartsWith(text, Prefix)
    ensures CodeText(text) == text
  {
    StripEnds(text);
  }

  /** Putting the prefix in front of text that ends in a non-space leaves nothing to strip. */
  lemma StripPrefixed(text: string)
    requires text != "" && !IsSpace(text[|text| - 1])
    ensures Strip(Prefix + text) == Prefix + text
  {
    var code := Prefix + text;
    assert code[|code| - 1] == text[|text| - 1];
    assert code[0] == 'b';
    StripEnds(code);
  }
}
