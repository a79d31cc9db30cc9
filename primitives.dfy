// The library functions the source relies on but whose internals are not
// part of the model: JSON text, UTF-8, base64 (sections 4 and 5 of RFC 4648),
// ISO-8601 text, SHA-256, PBKDF2, HKDF and AES-GCM. Each is a field of a
// `Prims` record and `Lawful` states the laws the model relies on.

module Primitives {
  import opened Common
  import opened Text

  /** A decoded JSON value; objects are Python dicts, so key order is immaterial. */
  datatype Json =
    | JNull
    | JBool(b: bool)
    | JInt(i: int)
    | JFloat(r: real)
    | JStr(s: string)
    | JArr(items: seq<Json>)
    | JObj(fields: map<string, Json>)

  /** The outcome of parsing ISO-8601 datetime text: naive when `offset` is None. */
  datatype ParsedTime = ParsedTime(wall: int, offset: Option<int>)

  datatype Prims = Prims(
    jsonDumps: Json -> string,
    jsonLoads: string -> Option<Json>,
    pyStr: Json -> string,
    utf8Encode: string -> seq<Byte>,
    utf8Decode: seq<Byte> -> Option<string>,
    b64Encode: seq<Byte> -> string,
    b64Decode: string -> Option<seq<Byte>>,
    b64UrlEncode: seq<Byte> -> string,
    b64UrlDecode: string -> Option<seq<Byte>>,
    isoFormat: DateTime -> string,
    fromIsoFormat: string -> Option<ParsedTime>,
    isoFormatNaive: int -> string,
    dateIsoFormat: int -> string,
    dateFromIsoFormat: string -> Option<int>,
    sha256Hex: seq<Byte> -> string,
    pbkdf2: (seq<Byte>, seq<Byte>, int) -> seq<Byte>,
    hkdf: (seq<Byte>, seq<Byte>) -> seq<Byte>,
    aeadSeal: (seq<Byte>, seq<Byte>, seq<Byte>, seq<Byte>) -> seq<Byte>,
    aeadOpen: (seq<Byte>, seq<Byte>, seq<Byte>, seq<Byte>) -> Option<seq<Byte>>
  )
  {
    /** The padding rule of section 3.2 of RFC 4648 as applied to base64url output. */
    ghost predicate UrlPadded(e: string)
    {
      var body := RStripChar(e, '=');
      e == body + Repeat('=', (-|body|) % 4)
      && forall i :: 0 <= i < |body| ==> IsUrlSafeChar(body[i])
    }

    /** JSON text round-trips every value. */
    ghost predicate JsonLaw()
    {
      forall j :: jsonLoads(jsonDumps(j)) == Some(j)
    }

    /**
     * UTF-8 and both base64 alphabets round-trip; base64 output has the
     * length of section 4 of RFC 4648; base64url output is padded.
     */
    ghost predicate TextLaws()
    {
      (forall s :: utf8Decode(utf8Encode(s)) == Some(s))
      && (forall b :: b64Decode(b64Encode(b)) == Some(b))
      && (forall b :: |b64Encode(b)| == 4 * ((|b| + 2) / 3))
      && (forall b :: b64UrlDecode(b64UrlEncode(b)) == Some(b))
      && (forall b :: UrlPadded(b64UrlEncode(b)))
    }

    /** ISO-8601 text of an aware datetime is never empty and parses back with its offset; dates round-trip. */
    ghost predicate TimeLaws()
    {
      (forall t :: fromIsoFormat(isoFormat(t)) == Some(ParsedTime(t.wall, Some(t.offset))))
      && (forall t :: isoFormat(t) != "")
      && (forall d :: dateFromIsoFormat(dateIsoFormat(d)) == Some(d))
    }

    /** ISO-8601 text of a naive datetime parses back without an offset. */
    ghost predicate NaiveTimeLaw()
    {
      forall w :: fromIsoFormat(isoFormatNaive(w)) == Some(ParsedTime(w, None))
    }

    /** SHA-256 is treated as injective; AES-GCM opens what it sealed and adds a 16-byte tag. */
    ghost predicate CryptoLaws()
    {
      (forall a, b :: sha256Hex(a) == sha256Hex(b) ==> a == b)
      && (forall k, n, m, a :: aeadOpen(k, n, aeadSeal(k, n, m, a), a) == Some(m))
      && (forall k, n, m, a :: |aeadSeal(k, n, m, a)| == |m| + 16)
    }

    /**
     * Section 4 of RFC 4648: unpadded text in the standard alphabet decodes
     * three bytes per four characters.
     */
    ghost predicate B64GroupLaw()
    {
      forall s :: |s| % 4 == 0 && (forall i :: 0 <= i < |s| ==> IsB64Char(s[i])) ==>
        b64Decode(s).Some? && |b64Decode(s).value| == 3 * (|s| / 4)
    }

    ghost predicate Lawful()
    {
      JsonLaw() && TextLaws() && TimeLaws() && CryptoLaws()
    }
  }

  /** A `b"..."` literal: the bytes of ASCII text. */
  function Ascii(s: string): (r: seq<Byte>)
    ensures |r| == |s|
  {
    seq(|s|, i requires 0 <= i < |s| => (s[i] as int) % 256)
  }

  /** The standard base64 alphabet of section 4 of RFC 4648, without padding. */
  predicate IsB64Char(c: char)
  {
    ('A' <= c <= 'Z') || ('a' <= c <= 'z') || ('0' <= c <= '9') || c == '+' || c == '/'
  }

  /** The base64url alphabet of section 5 of RFC 4648. */
  predicate IsUrlSafeChar(c: char)
  {
    ('A' <= c <= 'Z') || ('a' <= c <= 'z') || ('0' <= c <= '9') || c == '-' || c == '_'
  }

  /** Python truthiness of a JSON value. */
  predicate Truthy(j: Json)
  {
    match j
    case JNull => false
    case JBool(b) => b
    case JInt(i) => i != 0
    case JFloat(r) => r != 0.0
    case JStr(s) => s != ""
    case JArr(items) => items != []
    case JObj(fields) => fields != map[]
  }

  /** `payload[key]` on a dict: absent keys and non-dicts raise. */
  function Index(payload: Json, key: string): (r: Result<Json>)
    ensures r.Ok? <==> payload.JObj? && key in payload.fields
  {
    if payload.JObj? && key in payload.fields then Ok(payload.fields[key]) else Err("KeyError")
  }

  /** `payload.get(key)`: JNull stands for a missing key. */
  function Get(payload: Json, key: string): (r: Json)
    ensures payload.JObj? && key in payload.fields ==> r == payload.fields[key]
    ensures !(payload.JObj? && key in payload.fields) ==> r == JNull
  {
    if payload.JObj? && key in payload.fields then payload.fields[key] else JNull
  }

  /** Python `str(x)` on any decoded value: text is kept, anything else is printed. */
  function PyStr(p: Prims, j: Json): string
  {
    if j.JStr? then j.s else p.pyStr(j)
  }

  /** Python `str(x)` on a decoded JSON string. */
  function AsStr(j: Json): (r: Result<string>)
    ensures r.Ok? <==> j.JStr?
  {
    if j.JStr? then Ok(j.s) else Err("TypeError")
  }

  /** Python `float(x)` on a decoded JSON number. */
  function AsFloat(j: Json): (r: Result<real>)
    ensures r.Ok? <==> (j.JInt? || j.JFloat? || j.JBool?)
  {
    match j
    case JInt(i) => Ok(i as real)
    case JBool(b) => Ok(if b then 1.0 else 0.0)
    case JFloat(x) => Ok(x)
    case _ => Err("TypeError")
  }

  /** Python `int(x)` on a decoded JSON number: floats are truncated toward zero. */
  function AsInt(j: Json): (r: Result<int>)
    ensures j.JInt? ==> r == Ok(j.i)
    ensures r.Ok? <==> (j.JInt? || j.JFloat? || j.JBool?)
  {
    match j
    case JInt(i) => Ok(i)
    case JBool(b) => Ok(if b then 1 else 0)
    case JFloat(x) => Ok(if x >= 0.0 then x.Floor else -((-x).Floor))
    case _ => Err("TypeError")
  }
}
