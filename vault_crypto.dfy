// Encryption at rest on the vault server: a 32-byte master key from the
// environment, one HKDF-SHA256 key per user, and AES-256-GCM blobs that carry
// their nonce in front. The random nonce is a parameter of `EncryptPayload`.

module VaultCrypto {
  import opened Common
  import opened Primitives
  import UuidText

  /** The associated data, and the prefix of every per-user HKDF info string. */
  function AadPrefix(): seq<Byte>
  {
    Ascii("body-metrics-vault")
  }

  const NonceBytes := 12
  const KeyBytes := 32

  const MissingKey := "VAULT_MASTER_KEY is required for persistent storage"
  const BadKey := "VAULT_MASTER_KEY must be 32 bytes (base64 or hex)"
  const Truncated := "Encrypted payload is truncated"

  /** The first decoding of `raw` that yields exactly 32 bytes: base64 is tried before hex. */
  function LoadMasterKey(p: Prims, raw: string): (r: Result<seq<Byte>>)
    ensures r.Ok? ==> |r.value| == KeyBytes
    ensures raw == "" ==> r == Err(MissingKey)
    ensures raw != "" && r.Err? ==> r.error == BadKey
    ensures r.Ok? ==> p.b64Decode(raw) == Some(r.value) || UuidText.ParseHexBytes(raw) == Some(r.value)
  {
    if raw == "" then Err(MissingKey)
    else if p.b64Decode(raw).Some? && |p.b64Decode(raw).value| == KeyBytes then Ok(p.b64Decode(raw).value)
    else if UuidText.ParseHexBytes(raw).Some? && |UuidText.ParseHexBytes(raw).value| == KeyBytes
    then Ok(UuidText.ParseHexBytes(raw).value)
    else Err(BadKey)
  }

  /** A base64 master key loads back as the key it encodes. */
  lemma LoadBase64Key(p: Prims, key: seq<Byte>)
    requires p.TextLaws() && |key| == KeyBytes
    ensures LoadMasterKey(p, p.b64Encode(key)) == Ok(key)
  {
    assert |p.b64Encode(key)| == 44;
  }

  /**
   * A hex master key loads back as the key it encodes: 64 hex digits are also
   * base64 text, but of 48 bytes, so the base64 attempt is passed over.
   */
  lemma LoadHexKey(p: Prims, key: seq<Byte>)
    requires p.B64GroupLaw() && |key| == KeyBytes
    ensures LoadMasterKey(p, UuidText.BytesHex(key)) == Ok(key)
  {
    var raw := UuidText.BytesHex(key);
    assert |raw| == 64;
    forall i | 0 <= i < |raw|
      ensures IsB64Char(raw[i])
    {
      assert UuidText.IsHexChar(raw[i]);
    }
    assert |p.b64Decode(raw).value| == 3 * (|raw| / 4) == 48;
    UuidText.ParseBytesHex(key);
  }

  /** The HKDF info string of a user: the prefix and the canonical text of the id. */
  function UserInfo(p: Prims, userId: Uuid): seq<Byte>
  {
    AadPrefix() + p.utf8Encode(UuidText.Format(userId))
  }

  /** Distinct users get distinct HKDF info strings, hence independent keys. */
  lemma UserInfoInjective(p: Prims, u: Uuid, v: Uuid)
    requires p.TextLaws()
    requires UserInfo(p, u) == UserInfo(p, v)
    ensures u == v
  {
    var n := |AadPrefix()|;
    assert p.utf8Encode(UuidText.Format(u)) == UserInfo(p, u)[n..];
    assert p.utf8Encode(UuidText.Format(v)) == UserInfo(p, v)[n..];
    assert p.utf8Decode(p.utf8Encode(UuidText.Format(u))) == Some(UuidText.Format(u));
    assert p.utf8Decode(p.utf8Encode(UuidText.Format(v))) == Some(UuidText.Format(v));
    UuidText.ParseFormat(u);
    UuidText.ParseFormat(v);
  }

  /** The key for one user's records. */
  function DeriveUserKey(p: Prims, masterKey: seq<Byte>, userId: Uuid): seq<Byte>
  {
    p.hkdf(masterKey, UserInfo(p, userId))
  }

  /** The plaintext of a payload: its JSON text in UTF-8. */
  function PayloadBytes(p: Prims, payload: Json): seq<Byte>
  {
    p.utf8Encode(p.jsonDumps(payload))
  }

  /** Base64 of the nonce followed by the sealed JSON text. */
  function EncryptPayload(p: Prims, payload: Json, userKey: seq<Byte>, nonce: seq<Byte>): (r: string)
    requires |nonce| == NonceBytes
    ensures p.TextLaws() ==> p.b64Decode(r) == Some(nonce + p.aeadSeal(userKey, nonce, PayloadBytes(p, payload), AadPrefix()))
  {
    p.b64Encode(nonce + p.aeadSeal(userKey, nonce, PayloadBytes(p, payload), AadPrefix()))
  }

  /** Splits off the nonce, opens the rest and parses the JSON text. */
  function DecryptPayload(p: Prims, blob: string, userKey: seq<Byte>): (r: Result<Json>)
    ensures p.b64Decode(blob).None? ==> r == Err("binascii.Error")
    ensures p.b64Decode(blob).Some? && |p.b64Decode(blob).value| <= NonceBytes ==> r == Err(Truncated)
    ensures r.Ok? ==>
      var raw := p.b64Decode(blob).value;
      |raw| > NonceBytes && p.aeadOpen(userKey, raw[..NonceBytes], raw[NonceBytes..], AadPrefix()).Some?
  {
    match p.b64Decode(blob)
    case None => Err("binascii.Error")
    case Some(raw) =>
      if |raw| <= NonceBytes then Err(Truncated)
      else
        match p.aeadOpen(userKey, raw[..NonceBytes], raw[NonceBytes..], AadPrefix())
        case None => Err("InvalidTag")
        case Some(plaintext) =>
          match p.utf8Decode(plaintext)
          case None => Err("UnicodeDecodeError")
          case Some(text) =>
            match p.jsonLoads(text)
            case None => Err("JSONDecodeError")
            case Some(j) => Ok(j)
  }

  /** A blob sealed for a user opens with that user's key to the same payload. */
  lemma DecryptEncrypt(p: Prims, payload: Json, userKey: seq<Byte>, nonce: seq<Byte>)
    requires p.Lawful() && |nonce| == NonceBytes
    ensures DecryptPayload(p, EncryptPayload(p, payload, userKey, nonce), userKey) == Ok(payload)
  {
    var sealed := p.aeadSeal(userKey, nonce, PayloadBytes(p, payload), AadPrefix());
    var raw := nonce + sealed;
    assert raw[..NonceBytes] == nonce && raw[NonceBytes..] == sealed;
    assert |sealed| == |PayloadBytes(p, payload)| + 16;
    assert p.aeadOpen(userKey, nonce, sealed, AadPrefix()) == Some(PayloadBytes(p, payload));
    assert p.utf8Decode(PayloadBytes(p, payload)) == Some(p.jsonDumps(payload));
    assert p.jsonLoads(p.jsonDumps(payload)) == Some(payload);
  }
}
