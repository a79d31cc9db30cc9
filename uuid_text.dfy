// UUID text: Python's `str(uuid)` (lower-case hex in 8-4-4-4-12 groups) and
// `UUID(text)`, which drops "urn:", "uuid:", surrounding braces and hyphens,
// needs 32 characters to remain and reads them with `int(text, 16)`.

module UuidText {
  import opened Common
  import opened Text

  function HexDigit(n: int): (c: char)
    requires 0 <= n < 16
  {
    if n < 10 then ('0' as int + n) as char else ('a' as int + n - 10) as char
  }

  predicate IsHexChar(c: char)
  {
    ('0' <= c <= '9') || ('a' <= c <= 'f') || ('A' <= c <= 'F')
  }

  function HexValue(c: char): (v: int)
    requires IsHexChar(c)
    ensures 0 <= v < 16
  {
    if '0' <= c <= '9' then c as int - '0' as int
    else if 'a' <= c <= 'f' then c as int - 'a' as int + 10
    else c as int - 'A' as int + 10
  }

  lemma HexValueOfDigit(n: int)
    requires 0 <= n < 16
    ensures IsHexChar(HexDigit(n)) && HexValue(HexDigit(n)) == n
  {
  }

  function ByteHex(b: Byte): (r: string)
    ensures |r| == 2
  {
    [HexDigit(b / 16), HexDigit(b % 16)]
  }

  /** Lower-case hex of a byte string, two digits per byte. */
  function BytesHex(bs: seq<Byte>): (r: string)
    ensures |r| == 2 * |bs|
    ensures forall i :: 0 <= i < |r| ==> IsHexChar(r[i]) && r[i] != '-'
  {
    if bs == [] then "" else ByteHex(bs[0]) + BytesHex(bs[1..])
  }

  /** Pairs of hex digits to bytes (Python `bytes.fromhex` without whitespace). */
  function ParseHexBytes(h: string): (r: Option<seq<Byte>>)
    ensures r.Some? ==> 2 * |r.value| == |h|
    ensures r.Some? <==> |h| % 2 == 0 && forall i :: 0 <= i < |h| ==> IsHexChar(h[i])
  {
    if |h| == 0 then Some([])
    else if |h| == 1 || !IsHexChar(h[0]) || !IsHexChar(h[1]) then None
    else match ParseHexBytes(h[2..])
      case None => None
      case Some(rest) => Some([16 * HexValue(h[0]) + HexValue(h[1])] + rest)
  }

  lemma {:induction false} ParseBytesHex(bs: seq<Byte>)
    ensures ParseHexBytes(BytesHex(bs)) == Some(bs)
  {
    if bs != [] {
      var h := BytesHex(bs);
      assert h == ByteHex(bs[0]) + BytesHex(bs[1..]);
      assert h[0] == HexDigit(bs[0] / 16) && h[1] == HexDigit(bs[0] % 16);
      assert h[2..] == BytesHex(bs[1..]);
      ParseBytesHex(bs[1..]);
      HexValueOfDigit(bs[0] / 16);
      HexValueOfDigit(bs[0] % 16);
      assert [bs[0]] + bs[1..] == bs;
    }
  }

  function Hyphenate(a: string, b: string): string
  {
    a + "-" + b
  }

  /** `str(uuid)`: the canonical hyphenated lower-case form. */
  function Format(u: Uuid): (r: string)
    ensures |r| == 36
  {
    Hyphenate(BytesHex(u[..4]), Hyphenate(BytesHex(u[4..6]), Hyphenate(BytesHex(u[6..8]),
      Hyphenate(BytesHex(u[8..10]), BytesHex(u[10..])))))
  }

  predicate IsBrace(c: char)
  {
    c == '{' || c == '}'
  }

  /** `s.strip("{}")`. */
  function StripBraces(s: string): (r: string)
    ensures |r| <= |s|
    ensures r == [] || (!IsBrace(r[0]) && !IsBrace(r[|r| - 1]))
    decreases |s|
  {
    if s != [] && IsBrace(s[0]) then StripBraces(s[1..])
    else if s != [] && IsBrace(s[|s| - 1]) then StripBraces(s[..|s| - 1])
    else s
  }

  /**
   * The text `UUID(text)` measures and hands to `int(_, 16)`: "urn:" and
   * then "uuid:" removed, braces stripped from both ends, hyphens removed.
   */
  function CleanedHex(s: string): (r: string)
    ensures |r| <= |s|
  {
    RemoveChar(StripBraces(RemoveAll(RemoveAll(s, "urn:"), "uuid:")), '-')
  }

  /** What `int(text, 16)` reads: a sign and the hex digits, underscores dropped. */
  datatype HexInt = HexInt(negative: bool, digits: string)

  /**
   * A run of hex digits with single underscores between two digits, read
   * as its digits; None for anything else.
   */
  function DigitRun(v: string): (r: Option<string>)
    ensures r.Some? ==> r.value != [] && |r.value| <= |v|
    ensures r.Some? ==> forall i :: 0 <= i < |r.value| ==> IsHexChar(r.value[i])
  {
    if v == [] || !IsHexChar(v[0]) then None
    else if |v| == 1 then Some(v)
    else
      var rest := if v[1] == '_' then v[2..] else v[1..];
      match DigitRun(rest)
      case None => None
      case Some(d) => Some([v[0]] + d)
  }

  /** An optional "0x" or "0X" prefix, and one underscore right after it, skipped. */
  function DropHexPrefix(u: string): (r: string)
    ensures |r| <= |u|
  {
    if |u| >= 2 && u[0] == '0' && (u[1] == 'x' || u[1] == 'X') then
      if |u| >= 3 && u[2] == '_' then u[3..] else u[2..]
    else u
  }

  /**
   * Python's `int(text, 16)`: surrounding white space, an optional sign, an
   * optional "0x" prefix, then hex digits with single underscores between
   * them; anything else raises `ValueError`.
   */
  function ReadHexInt(s: string): (r: Option<HexInt>)
    ensures r.Some? ==> r.value.digits != [] && |r.value.digits| <= |s|
    ensures r.Some? ==> forall i :: 0 <= i < |r.value.digits| ==> IsHexChar(r.value.digits[i])
    decreases |s|
  {
    if s != [] && IsSpace(s[0]) then ReadHexInt(s[1..])
    else
      var t := RStripSpace(s);
      var negative := t != [] && t[0] == '-';
      var unsigned := if t != [] && (t[0] == '-' || t[0] == '+') then t[1..] else t;
      match DigitRun(DropHexPrefix(unsigned))
      case None => None
      case Some(d) => Some(HexInt(negative, d))
  }

  /** `0 <= int`: a minus sign is harmless only in front of zero. */
  predicate NonNegative(n: HexInt)
  {
    !n.negative || forall i :: 0 <= i < |n.digits| ==> n.digits[i] == '0'
  }

  /** The 32 hex digits of a value below 2**128: zeros in front. */
  function ZeroPad(d: string): (r: string)
    requires |d| <= 32
    ensures |r| == 32
  {
    Repeat('0', 32 - |d|) + d
  }

  lemma HexDigitOfValue(c: char)
    requires IsHexChar(c)
    ensures HexDigit(HexValue(c)) == LowerChar(c)
  {
  }

  lemma ByteHexOfDigits(hi: int, lo: int)
    requires 0 <= hi < 16 && 0 <= lo < 16
    ensures 0 <= 16 * hi + lo < 256 && ByteHex(16 * hi + lo) == [HexDigit(hi), HexDigit(lo)]
  {
    assert (16 * hi + lo) / 16 == hi && (16 * hi + lo) % 16 == lo;
  }

  lemma LowerFront(h: string)
    requires |h| >= 2
    ensures Lower(h) == [LowerChar(h[0]), LowerChar(h[1])] + Lower(h[2..])
  {
  }

  /** On hex digits the bytes' canonical hex is the digits lower-cased. */
  lemma {:induction false} BytesHexOfParsed(h: string, bs: seq<Byte>)
    requires ParseHexBytes(h) == Some(bs)
    ensures BytesHex(bs) == Lower(h)
    decreases |h|
  {
    if h != [] {
      var rest := ParseHexBytes(h[2..]).value;
      BytesHexOfParsed(h[2..], rest);
      var hi, lo := HexValue(h[0]), HexValue(h[1]);
      ByteHexOfDigits(hi, lo);
      HexDigitOfValue(h[0]);
      HexDigitOfValue(h[1]);
      LowerFront(h);
      assert bs == [16 * hi + lo] + rest;
      assert BytesHex(bs) == ByteHex(bs[0]) + BytesHex(rest);
    }
  }

  /** Zero-padded hex digits make sixteen bytes whose hex is the padded digits lower-cased. */
  lemma PaddedBytes(d: string)
    requires |d| <= 32 && forall i :: 0 <= i < |d| ==> IsHexChar(d[i])
    ensures ParseHexBytes(ZeroPad(d)).Some? && |ParseHexBytes(ZeroPad(d)).value| == 16
    ensures BytesHex(ParseHexBytes(ZeroPad(d)).value) == Lower(ZeroPad(d))
  {
    var p := ZeroPad(d);
    assert forall i :: 0 <= i < |p| ==> IsHexChar(p[i]) by {
      forall i | 0 <= i < |p|
        ensures IsHexChar(p[i])
      {
        if i >= 32 - |d| {
          assert p[i] == d[i - (32 - |d|)];
        }
      }
    }
    BytesHexOfParsed(p, ParseHexBytes(p).value);
  }

  /**
   * `UUID(text)`: the cleaned text must be 32 characters, `int(_, 16)` must
   * read it, and the value must not be negative (32 hex digits never reach
   * 2**128). The bytes are the value's, big-endian: their canonical hex is
   * the digits lower-cased and padded with zeros.
   */
  function Parse(s: string): (r: Option<Uuid>)
    ensures r.Some? <==> |CleanedHex(s)| == 32 && ReadHexInt(CleanedHex(s)).Some? && NonNegative(ReadHexInt(CleanedHex(s)).value)
    ensures r.Some? ==> |s| >= 32
    ensures r.Some? ==> BytesHex(r.value) == Lower(ZeroPad(ReadHexInt(CleanedHex(s)).value.digits))
  {
    var h := CleanedHex(s);
    if |h| != 32 then None
    else match ReadHexInt(h)
      case None => None
      case Some(n) =>
        if !NonNegative(n) then None
        else
          PaddedBytes(n.digits);
          Some(ParseHexBytes(ZeroPad(n.digits)).value)
  }

  /** Hex digits alone are what `int(_, 16)` reads, unsigned and as they are. */
  lemma ReadPlainHex(h: string)
    requires h != [] && forall i :: 0 <= i < |h| ==> IsHexChar(h[i])
    ensures ReadHexInt(h) == Some(HexInt(false, h))
  {
    HexNotSpace(h[0]);
    HexNotSpace(h[|h| - 1]);
    assert RStripSpace(h) == h;
    assert DropHexPrefix(h) == h;
    DigitRunPlain(h);
  }

  lemma HexNotSpace(c: char)
    requires IsHexChar(c)
    ensures !IsSpace(c) && c != '-' && c != '+' && c != '_' && c != 'x' && c != 'X'
  {
  }

  lemma {:induction false} DigitRunPlain(h: string)
    requires h != [] && forall i :: 0 <= i < |h| ==> IsHexChar(h[i])
    ensures DigitRun(h) == Some(h)
    decreases |h|
  {
    if |h| > 1 {
      HexNotSpace(h[1]);
      DigitRunPlain(h[1..]);
      assert [h[0]] + h[1..] == h;
    }
  }

  /** A pattern cannot occur in text that lacks one of its characters. */
  lemma Missing(s: string, pat: string, k: nat)
    requires k < |pat| && forall i :: 0 <= i < |s| ==> s[i] != pat[k]
    ensures !Contains(s, pat)
  {
    forall i | 0 <= i <= |s| - |pat|
      ensures !OccursAt(s, pat, i)
    {
      assert s[i..i + |pat|][k] == s[i + k];
    }
  }

  /** Text without ':' or braces is cleaned by dropping its hyphens. */
  lemma CleanedPlain(s: string)
    requires forall i :: 0 <= i < |s| ==> s[i] != ':' && !IsBrace(s[i])
    ensures CleanedHex(s) == RemoveChar(s, '-')
  {
    Missing(s, "urn:", 3);
    RemoveAllAbsent(s, "urn:");
    Missing(s, "uuid:", 4);
    RemoveAllAbsent(s, "uuid:");
    NoBraces(s);
  }

  lemma NoBraces(s: string)
    requires forall i :: 0 <= i < |s| ==> !IsBrace(s[i])
    ensures StripBraces(s) == s
  {
  }

  /**
   * On text of hex digits and hyphens `UUID(text)` is what the hyphen-free
   * digits say: accepted exactly when there are 32 of them.
   */
  lemma ParsePlain(s: string)
    requires forall i :: 0 <= i < |s| ==> IsHexChar(s[i]) || s[i] == '-'
    ensures var h := RemoveChar(s, '-');
      (Parse(s).Some? <==> |h| == 32) && (Parse(s).Some? ==> ParseHexBytes(h) == Some(Parse(s).value))
  {
    CleanedPlain(s);
    RemoveHyphenKeepsHex(s);
    var h := RemoveChar(s, '-');
    if |h| == 32 {
      ParseHexDigits(s, h);
    }
  }

  /** Once cleaned to 32 hex digits, the text is read as those digits. */
  lemma ParseHexDigits(s: string, h: string)
    requires CleanedHex(s) == h && |h| == 32 && forall i :: 0 <= i < |h| ==> IsHexChar(h[i])
    ensures Parse(s) == ParseHexBytes(h)
  {
    ReadPlainHex(h);
    assert ZeroPad(h) == Repeat('0', 0) + h == h;
  }

  lemma {:induction false} RemoveHyphenKeepsHex(s: string)
    requires forall i :: 0 <= i < |s| ==> IsHexChar(s[i]) || s[i] == '-'
    ensures forall i :: 0 <= i < |RemoveChar(s, '-')| ==> IsHexChar(RemoveChar(s, '-')[i])
  {
    if s != [] {
      RemoveHyphenKeepsHex(s[1..]);
    }
  }

  lemma RemoveCharConcat(a: string, b: string, c: char)
    ensures RemoveChar(a + b, c) == RemoveChar(a, c) + RemoveChar(b, c)
  {
    if a == [] {
      assert a + b == b;
    } else {
      assert (a + b)[0] == a[0];
      assert (a + b)[1..] == a[1..] + b;
      RemoveCharConcat(a[1..], b, c);
      var head := if a[0] == c then [] else [a[0]];
      calc {
        RemoveChar(a + b, c);
        head + RemoveChar(a[1..] + b, c);
        head + (RemoveChar(a[1..], c) + RemoveChar(b, c));
        (head + RemoveChar(a[1..], c)) + RemoveChar(b, c);
      }
    }
  }

  lemma BytesHexConcat(a: seq<Byte>, b: seq<Byte>)
    ensures BytesHex(a + b) == BytesHex(a) + BytesHex(b)
  {
    if a == [] {
      assert a + b == b;
    } else {
      assert (a + b)[0] == a[0];
      assert (a + b)[1..] == a[1..] + b;
      BytesHexConcat(a[1..], b);
      calc {
        BytesHex(a + b);
        ByteHex(a[0]) + BytesHex(a[1..] + b);
        ByteHex(a[0]) + (BytesHex(a[1..]) + BytesHex(b));
        (ByteHex(a[0]) + BytesHex(a[1..])) + BytesHex(b);
      }
    }
  }

  lemma RemoveHyphen(a: string, b: string)
    ensures RemoveChar(Hyphenate(a, b), '-') == RemoveChar(a, '-') + RemoveChar(b, '-')
  {
    RemoveCharConcat(a + "-", b, '-');
    RemoveCharConcat(a, "-", '-');
    assert RemoveChar("-", '-') == "";
  }

  lemma RemoveHyphenHex(a: string, b: string)
    requires forall i :: 0 <= i < |a| ==> a[i] != '-'
    ensures RemoveChar(Hyphenate(a, b), '-') == a + RemoveChar(b, '-')
  {
    RemoveHyphen(a, b);
    RemoveCharAbsent(a, '-');
  }

  /** One more group in front: its digits come first once the hyphens are gone. */
  lemma HyphenStep(a: seq<Byte>, rest: string, b: seq<Byte>)
    requires RemoveChar(rest, '-') == BytesHex(b)
    ensures RemoveChar(Hyphenate(BytesHex(a), rest), '-') == BytesHex(a + b)
  {
    RemoveHyphenHex(BytesHex(a), rest);
    BytesHexConcat(a, b);
  }

  /** Removing the hyphens of the canonical form leaves the 32 hex digits. */
  lemma FormatDigits(u: Uuid)
    ensures RemoveChar(Format(u), '-') == BytesHex(u)
  {
    GroupDigits(u[..4], u[4..6], u[6..8], u[8..10], u[10..]);
    Regroup(u);
  }

  lemma Regroup(u: seq<Byte>)
    requires |u| == 16
    ensures u[..4] + (u[4..6] + (u[6..8] + (u[8..10] + u[10..]))) == u
  {
  }

  /** Five hyphenated groups lose their hyphens and keep their digits in order. */
  lemma GroupDigits(b0: seq<Byte>, b1: seq<Byte>, b2: seq<Byte>, b3: seq<Byte>, b4: seq<Byte>)
    ensures RemoveChar(Hyphenate(BytesHex(b0), Hyphenate(BytesHex(b1), Hyphenate(BytesHex(b2),
              Hyphenate(BytesHex(b3), BytesHex(b4))))), '-') == BytesHex(b0 + (b1 + (b2 + (b3 + b4))))
  {
    var t3 := Hyphenate(BytesHex(b3), BytesHex(b4));
    var t2 := Hyphenate(BytesHex(b2), t3);
    var t1 := Hyphenate(BytesHex(b1), t2);
    RemoveCharAbsent(BytesHex(b4), '-');
    HyphenStep(b3, BytesHex(b4), b4);
    HyphenStep(b2, t3, b3 + b4);
    HyphenStep(b1, t2, b2 + (b3 + b4));
    HyphenStep(b0, t1, b1 + (b2 + (b3 + b4)));
  }

  /** The canonical form's characters are hex digits and hyphens. */
  lemma FormatChars(u: Uuid)
    ensures forall i :: 0 <= i < |Format(u)| ==> IsHexChar(Format(u)[i]) || Format(u)[i] == '-'
  {
  }

  /** `UUID(str(u)) == u`. */
  lemma ParseFormat(u: Uuid)
    ensures Parse(Format(u)) == Some(u)
  {
    FormatChars(u);
    ParsePlain(Format(u));
    FormatDigits(u);
    ParseBytesHex(u);
  }

  lemma RemoveAllFront(pat: string, t: string)
    requires pat != ""
    ensures RemoveAll(pat + t, pat) == RemoveAll(t, pat)
  {
    assert StartsWith(pat + t, pat);
    assert (pat + t)[|pat|..] == t;
  }

  /** "urn:uuid:" in front of hex digits and hyphens is dropped. */
  lemma CleanedUrn(t: string)
    requires forall i :: 0 <= i < |t| ==> IsHexChar(t[i]) || t[i] == '-'
    ensures CleanedHex("urn:uuid:" + t) == CleanedHex(t)
  {
    assert "urn:uuid:" + t == "urn:" + ("uuid:" + t);
    RemoveAllFront("urn:", "uuid:" + t);
    Missing("uuid:" + t, "urn:", 2);
    RemoveAllAbsent("uuid:" + t, "urn:");
    RemoveAllFront("uuid:", t);
    Missing(t, "urn:", 3);
    RemoveAllAbsent(t, "urn:");
    Missing(t, "uuid:", 4);
    RemoveAllAbsent(t, "uuid:");
  }

  lemma StripBracesAround(t: string)
    requires t != [] && !IsBrace(t[0]) && !IsBrace(t[|t| - 1])
    ensures StripBraces("{" + t + "}") == t
  {
    var b := "{" + t + "}";
    assert b[0] == '{' && b[1..] == t + "}";
    assert StripBraces(b) == StripBraces(t + "}");
    assert (t + "}")[0] == t[0] && (t + "}")[..|t|] == t;
    assert StripBraces(t + "}") == StripBraces(t);
  }

  /** Braces around hex digits and hyphens are stripped. */
  lemma CleanedBraced(t: string)
    requires t != [] && forall i :: 0 <= i < |t| ==> IsHexChar(t[i]) || t[i] == '-'
    ensures CleanedHex("{" + t + "}") == CleanedHex(t)
  {
    var b := "{" + t + "}";
    Missing(b, "urn:", 3);
    RemoveAllAbsent(b, "urn:");
    Missing(b, "uuid:", 4);
    RemoveAllAbsent(b, "uuid:");
    StripBracesAround(t);
    CleanedPlain(t);
  }

  /** The URN and braced spellings of a UUID are read as the UUID too. */
  lemma ParseDecorated(u: Uuid)
    ensures Parse("urn:uuid:" + Format(u)) == Some(u)
    ensures Parse("{" + Format(u) + "}") == Some(u)
  {
    FormatChars(u);
    ParseFormat(u);
    CleanedUrn(Format(u));
    CleanedBraced(Format(u));
  }
}
