// The browser app's identity helpers: UUID text to bytes, its own base-58
// encoder (little-endian digit array with carries), the grouped display of
// a friend code, the relay URL and a fresh profile.

module PwaApp {
  import opened Common
  import opened Text
  import UuidText
  import FC = FriendCode

  /** The relay the app talks to when none is configured: scheme, host and top-level domain. */
  const RelayUrlDefault: string := "https://" + "body-metrics-relay.bodymetricstracker.workers" + ".dev"

  /** The app's own copy of the base-58 alphabet, one literal per run of consecutive characters. */
  const Alphabet: string := "123456789" + "ABCDEFGH" + "JKLMN" + "PQRSTUVWXYZ" + "abcdefghijk" + "mnopqrstuvwxyz"

  lemma SameAlphabet()
    ensures Alphabet == FC.Alphabet
  {
  }

  // ---- uuidToBytes ------------------------------------------------------

  /** JavaScript `s.slice(lo, hi)`: out-of-range bounds are clamped. */
  function Slice(s: string, lo: nat, hi: nat): (r: string)
    ensures |r| <= |s|
  {
    if lo >= |s| then "" else if hi >= |s| then s[lo..] else if hi <= lo then "" else s[lo..hi]
  }

  /**
   * `parseInt(pair, 16)` stored into a Uint8Array. parseInt skips leading
   * whitespace, takes one sign and reads the leading hex digits (a "0x"
   * prefix leaves no digit in a pair, and NaN stores 0); the array keeps the
   * value modulo 256, so "-f" stores 241.
   */
  function HexPairValue(pair: string): (b: Byte)
    requires |pair| <= 2
  {
    if |pair| == 0 then 0
    else if Text.IsJsSpace(pair[0]) || pair[0] == '+' then LeadingHexValue(pair[1..])
    else if pair[0] == '-' then ((256 - LeadingHexValue(pair[1..]) as int) % 256) as Byte
    else LeadingHexValue(pair)
  }

  /** The value of the leading hex digits of at most two characters, 0 when there is none. */
  function LeadingHexValue(pair: string): (b: Byte)
    requires |pair| <= 2
  {
    if |pair| == 0 || !UuidText.IsHexChar(pair[0]) then 0
    else if |pair| == 1 || !UuidText.IsHexChar(pair[1]) then UuidText.HexValue(pair[0])
    else 16 * UuidText.HexValue(pair[0]) + UuidText.HexValue(pair[1])
  }

  function PairAt(hex: string, i: nat): (pair: string)
    ensures |pair| <= 2
  {
    var p := Slice(hex, i * 2, i * 2 + 2);
    assert |p| <= 2 by {
      if i * 2 < |hex| && i * 2 + 2 < |hex| {
        assert p == hex[i * 2..i * 2 + 2];
      }
    }
    p
  }

  /** The sixteen bytes `uuidToBytes` produces. */
  function UuidBytes(uuid: string): (bytes: seq<Byte>)
    ensures |bytes| == 16
  {
    var hex := RemoveChar(uuid, '-');
    seq(16, i requires 0 <= i < 16 => HexPairValue(PairAt(hex, i)))
  }

  method UuidToBytes(uuid: string) returns (bytes: seq<Byte>)
    ensures bytes == UuidBytes(uuid)
  {
    var hex := RemoveChar(uuid, '-');
    var buffer := new Byte[16](_ => 0);
    for i := 0 to 16
      invariant forall k :: 0 <= k < i ==> buffer[k] == HexPairValue(PairAt(hex, k))
    {
      buffer[i] := HexPairValue(PairAt(hex, i));
    }
    bytes := buffer[..];
  }

  /**
   * On UUID text of hex digits and hyphens, the form `crypto.randomUUID()`
   * gives, the bytes are those Python's `UUID(text).bytes` gives.
   */
  lemma UuidBytesOfUuidText(uuid: string, u: Uuid)
    requires forall i :: 0 <= i < |uuid| ==> UuidText.IsHexChar(uuid[i]) || uuid[i] == '-'
    requires UuidText.Parse(uuid) == Some(u)
    ensures UuidBytes(uuid) == u
  {
    UuidText.ParsePlain(uuid);
    var hex := RemoveChar(uuid, '-');
    forall i | 0 <= i < 16
      ensures HexPairValue(PairAt(hex, i)) == u[i]
    {
      ParsedByte(hex, u, i);
    }
  }

  lemma {:induction false} ParsedByte(hex: string, bs: seq<Byte>, i: nat)
    requires UuidText.ParseHexBytes(hex) == Some(bs) && i < |bs|
    ensures PairAt(hex, i) == hex[2 * i..2 * i + 2]
    ensures HexPairValue(PairAt(hex, i)) == bs[i]
  {
    if i == 0 {
      assert hex[..2] == [hex[0], hex[1]];
    } else {
      var rest := UuidText.ParseHexBytes(hex[2..]).value;
      assert bs == [bs[0]] + rest;
      ParsedByte(hex[2..], rest, i - 1);
      assert hex[2..][2 * (i - 1)..2 * (i - 1) + 2] == hex[2 * i..2 * i + 2];
    }
  }

  // ---- encodeBase58 -----------------------------------------------------

  /** The number a little-endian base-58 digit array denotes. */
  function LittleEndian(ds: seq<int>): int
  {
    if ds == [] then 0 else ds[0] + FC.Base * LittleEndian(ds[1..])
  }

  predicate AreDigits(ds: seq<int>)
  {
    forall i :: 0 <= i < |ds| ==> 0 <= ds[i] < FC.Base
  }

  function Reverse(ds: seq<int>): (r: seq<int>)
    ensures |r| == |ds|
    ensures forall i :: 0 <= i < |ds| ==> r[i] == ds[|ds| - 1 - i]
  {
    if ds == [] then [] else Reverse(ds[1..]) + [ds[0]]
  }

  /** What `encodeBase58` returns: like the Python encoder, except for a zero value. */
  function JsEncoding(bytes: seq<Byte>): string
  {
    var n := FC.BigEndian(bytes);
    Repeat('1', FC.LeadingZeros(bytes)) + (if n == 0 then "1" else FC.DigitsText(FC.Digits(n)))
  }

  /** The same formula without the digit a zero value leaves behind. */
  function Base58Encoding(bytes: seq<Byte>): string
  {
    Repeat('1', FC.LeadingZeros(bytes)) + FC.DigitsText(FC.Digits(FC.BigEndian(bytes)))
  }

  lemma {:induction false} LittleEndianConcat(a: seq<int>, b: seq<int>)
    ensures LittleEndian(a + b) == LittleEndian(a) + FC.Pow(FC.Base, |a|) * LittleEndian(b)
  {
    if a != [] {
      assert (a + b)[1..] == a[1..] + b;
      LittleEndianConcat(a[1..], b);
    } else {
      assert a + b == b;
    }
  }

  lemma LittleEndianPrefix(ds: seq<int>, i: nat)
    requires i < |ds|
    ensures LittleEndian(ds[..i + 1]) == LittleEndian(ds[..i]) + ds[i] * FC.Pow(FC.Base, i)
  {
    assert ds[..i + 1] == ds[..i] + [ds[i]];
    LittleEndianConcat(ds[..i], [ds[i]]);
    assert LittleEndian([ds[i]]) == ds[i];
  }

  lemma {:induction false} LittleEndianUpper(ds: seq<int>)
    requires AreDigits(ds)
    ensures 0 <= LittleEndian(ds) < FC.Pow(FC.Base, |ds|)
  {
    if ds != [] {
      LittleEndianUpper(ds[1..]);
    }
  }

  lemma {:induction false} LittleEndianLower(ds: seq<int>)
    requires AreDigits(ds) && |ds| > 0 && ds[|ds| - 1] != 0
    ensures LittleEndian(ds) >= FC.Pow(FC.Base, |ds| - 1)
  {
    if |ds| > 1 {
      assert ds[1..][|ds[1..]| - 1] == ds[|ds| - 1];
      LittleEndianLower(ds[1..]);
      LittleEndianUpper(ds[1..]);
    }
  }

  /** Multiplying by 256 and adding one carry step at digit `i`. */
  lemma CarryStep(lowOld: int, lowNew: int, carry: int, d: int, b: int, p: int)
    requires lowNew + carry * p == lowOld * 256 + b
    ensures var value := d * 256 + carry;
      lowNew + (value % FC.Base) * p + (value / FC.Base) * (p * FC.Base) == (lowOld + d * p) * 256 + b
  {
    var value := d * 256 + carry;
    assert value == (value / FC.Base) * FC.Base + value % FC.Base;
    assert (value % FC.Base) * p + (value / FC.Base) * (p * FC.Base) == value * p;
    assert value * p == d * 256 * p + carry * p;
  }

  /**
   * The body of `encodeBase58`'s outer loop for one byte: the digit array
   * becomes that of `value * 256 + byte`.
   */
  method AbsorbByte(digits: seq<int>, byte: Byte) returns (next: seq<int>)
    requires AreDigits(digits)
    ensures AreDigits(next) && |next| >= |digits|
    ensures LittleEndian(next) == LittleEndian(digits) * 256 + byte
    ensures |next| > |digits| ==> next[|next| - 1] != 0
    ensures |digits| > 0 && digits[|digits| - 1] != 0 ==> |next| > |digits|
  {
    next := digits;
    var carry: int := byte;
    var i := 0;
    while i < |next|
      invariant 0 <= i <= |next| == |digits|
      invariant next[i..] == digits[i..] && AreDigits(next) && carry >= 0
      invariant LittleEndian(next[..i]) + carry * FC.Pow(FC.Base, i) == LittleEndian(digits[..i]) * 256 + byte
    {
      var value := next[i] * 256 + carry;
      CarryStep(LittleEndian(digits[..i]), LittleEndian(next[..i]), carry, digits[i], byte, FC.Pow(FC.Base, i));
      var old_next := next;
      next := next[i := value % FC.Base];
      carry := value / FC.Base;
      assert next[..i] == old_next[..i];
      LittleEndianPrefix(next, i);
      LittleEndianPrefix(digits, i);
      i := i + 1;
    }
    assert next[..i] == next && digits[..i] == digits;
    if |digits| > 0 && digits[|digits| - 1] != 0 {
      CarryPositive(digits, next, carry, byte);
    }
    ghost var pushed := false;
    while carry != 0
      invariant AreDigits(next) && |next| >= |digits| && carry >= 0
      invariant LittleEndian(next) + carry * FC.Pow(FC.Base, |next|) == LittleEndian(digits) * 256 + byte
      invariant pushed <==> |next| > |digits|
      invariant pushed && carry == 0 ==> next[|next| - 1] != 0
      invariant |digits| > 0 && digits[|digits| - 1] != 0 ==> pushed || carry > 0
      decreases carry
    {
      PushStep(next, carry);
      next := next + [carry % FC.Base];
      carry := carry / FC.Base;
      pushed := true;
    }
  }

  /** Appending the low digit of a positive carry keeps the represented total. */
  lemma PushStep(ds: seq<int>, carry: int)
    requires carry > 0
    ensures LittleEndian(ds + [carry % FC.Base]) + (carry / FC.Base) * FC.Pow(FC.Base, |ds| + 1)
         == LittleEndian(ds) + carry * FC.Pow(FC.Base, |ds|)
  {
    var d := carry % FC.Base;
    LittleEndianSnoc(ds, d);
    PowSucc(|ds|);
    PushArith(LittleEndian(ds), LittleEndian(ds + [d]), d, carry / FC.Base, carry, FC.Pow(FC.Base, |ds|), FC.Pow(FC.Base, |ds| + 1));
  }

  lemma LittleEndianSnoc(ds: seq<int>, d: int)
    ensures LittleEndian(ds + [d]) == LittleEndian(ds) + FC.Pow(FC.Base, |ds|) * d
  {
    LittleEndianConcat(ds, [d]);
    assert LittleEndian([d]) == d;
  }

  lemma PowSucc(e: nat)
    ensures FC.Pow(FC.Base, e + 1) == FC.Base * FC.Pow(FC.Base, e)
  {
  }

  lemma PushArith(low: int, extended: int, d: int, q: int, carry: int, p: int, p1: int)
    requires extended == low + p * d && p1 == FC.Base * p && q == carry / FC.Base && d == carry % FC.Base
    ensures extended + q * p1 == low + carry * p
  {
    assert carry * p == d * p + q * (FC.Base * p);
  }

  /**
   * When the old top digit is non-zero, multiplying by 256 overflows the old
   * width, so a carry is left after the pass over the digits.
   */
  lemma CarryPositive(digits: seq<int>, next: seq<int>, carry: int, byte: Byte)
    requires AreDigits(digits) && AreDigits(next) && |next| == |digits| > 0 && digits[|digits| - 1] != 0
    requires LittleEndian(next) + carry * FC.Pow(FC.Base, |next|) == LittleEndian(digits) * 256 + byte
    ensures carry > 0
  {
    var n := |digits|;
    LittleEndianLower(digits);
    LittleEndianUpper(next);
    CarryArith(LittleEndian(digits), LittleEndian(next), carry, FC.Pow(FC.Base, n - 1), FC.Pow(FC.Base, n), byte);
  }

  lemma CarryArith(old_value: int, low: int, carry: int, p0: int, p: int, byte: int)
    requires old_value >= p0 > 0 && 0 <= low < p && p == FC.Base * p0 && byte >= 0
    requires low + carry * p == old_value * 256 + byte
    ensures carry > 0
  {
  }

  /** pwa/app.js `encodeBase58`: the digit array starts as [0]. */
  method EncodeBase58(bytes: seq<Byte>) returns (result: string)
    ensures result == JsEncoding(bytes)
  {
    var digits: seq<int> := [0];
    var j := 0;
    while j < |bytes|
      invariant 0 <= j <= |bytes|
      invariant AreDigits(digits) && |digits| >= 1
      invariant LittleEndian(digits) == FC.BigEndian(bytes[..j])
      invariant LittleEndian(digits) == 0 ==> digits == [0]
      invariant LittleEndian(digits) > 0 ==> digits[|digits| - 1] != 0
    {
      var before := digits;
      digits := AbsorbByte(digits, bytes[j]);
      assert bytes[..j + 1][..j] == bytes[..j];
      if |digits| > |before| {
        LittleEndianLower(digits);
        FC.PowPositive(FC.Base, |digits| - 1);
      } else if LittleEndian(before) == 0 {
        assert digits == [digits[0]];
      }
      j := j + 1;
    }
    assert bytes[..j] == bytes;
    var zeros := CountZeros(bytes);
    result := EmitDigits(zeros, digits);
    ReversedDigits(digits);
  }

  /** The evidently intended encoder: the digit array starts empty. */
  method EncodeBase58Fixed(bytes: seq<Byte>) returns (result: string)
    ensures result == Base58Encoding(bytes)
  {
    var digits: seq<int> := [];
    var j := 0;
    while j < |bytes|
      invariant 0 <= j <= |bytes|
      invariant AreDigits(digits)
      invariant LittleEndian(digits) == FC.BigEndian(bytes[..j])
      invariant digits == [] || digits[|digits| - 1] != 0
    {
      digits := AbsorbByte(digits, bytes[j]);
      assert bytes[..j + 1][..j] == bytes[..j];
      j := j + 1;
    }
    assert bytes[..j] == bytes;
    var zeros := CountZeros(bytes);
    result := EmitDigits(zeros, digits);
    if digits == [] {
      assert FC.Digits(0) == [];
    } else {
      ReverseDigits(digits);
    }
  }

  /** The leading-zero loop. */
  method CountZeros(bytes: seq<Byte>) returns (zeros: nat)
    ensures zeros == FC.LeadingZeros(bytes)
  {
    zeros := 0;
    while zeros < |bytes| && bytes[zeros] == 0
      invariant 0 <= zeros <= |bytes| && forall k :: 0 <= k < zeros ==> bytes[k] == 0
    {
      zeros := zeros + 1;
    }
    FC.LeadingZerosExact(bytes, zeros);
  }

  /** The output loop: the '1's, then the digits most significant first. */
  method EmitDigits(zeros: nat, digits: seq<int>) returns (result: string)
    requires AreDigits(digits)
    ensures result == Repeat('1', zeros) + FC.DigitsText(Reverse(digits))
  {
    result := Repeat('1', zeros);
    var i := |digits|;
    while i > 0
      invariant 0 <= i <= |digits|
      invariant result == Repeat('1', zeros) + FC.DigitsText(Reverse(digits[i..]))
    {
      i := i - 1;
      EmitStep(digits, i);
      result := result + [Alphabet[digits[i]]];
    }
    assert digits[0..] == digits;
  }

  lemma EmitStep(digits: seq<int>, i: nat)
    requires AreDigits(digits) && i < |digits|
    ensures FC.DigitsText(Reverse(digits[i..])) == FC.DigitsText(Reverse(digits[i + 1..])) + [Alphabet[digits[i]]]
  {
    assert digits[i..][1..] == digits[i + 1..];
    assert Reverse(digits[i..]) == Reverse(digits[i + 1..]) + [digits[i]];
  }

  /** The emitted digits are "1" for a zero value and the canonical digits otherwise. */
  lemma ReversedDigits(digits: seq<int>)
    requires AreDigits(digits) && |digits| >= 1
    requires LittleEndian(digits) == 0 ==> digits == [0]
    requires LittleEndian(digits) > 0 ==> digits[|digits| - 1] != 0
    ensures LittleEndian(digits) == 0 ==> FC.DigitsText(Reverse(digits)) == "1"
    ensures LittleEndian(digits) > 0 ==> FC.DigitsText(Reverse(digits)) == FC.DigitsText(FC.Digits(LittleEndian(digits)))
  {
    LittleEndianUpper(digits);
    if LittleEndian(digits) == 0 {
      assert Reverse([0]) == [0];
      assert FC.DigitsText([0]) == "1";
    } else {
      ReverseDigits(digits);
    }
  }

  /** A digit array without a trailing zero, read backwards, is the canonical digit string. */
  lemma {:induction false} ReverseDigits(ds: seq<int>)
    requires AreDigits(ds) && |ds| > 0 && ds[|ds| - 1] != 0
    ensures LittleEndian(ds) >= 0 && Reverse(ds) == FC.Digits(LittleEndian(ds))
  {
    LittleEndianLower(ds);
    FC.PowPositive(FC.Base, |ds| - 1);
    var rest := ds[1..];
    var n := LittleEndian(ds);
    if rest == [] {
      assert n == ds[0];
      assert FC.Digits(n) == FC.Digits(0) + [n];
    } else {
      assert rest[|rest| - 1] == ds[|ds| - 1];
      ReverseDigits(rest);
      assert n / FC.Base == LittleEndian(rest) && n % FC.Base == ds[0];
    }
  }

  /** Python's result, which the fixed encoder below also returns, when the value is non-zero. */
  lemma JsEncodingAgrees(bytes: seq<Byte>)
    requires FC.BigEndian(bytes) > 0
    ensures JsEncoding(bytes) == Base58Encoding(bytes)
  {
  }

  lemma Base58EncodingOfUuid(u: Uuid)
    ensures Base58Encoding(u) == FC.Encoding(u)
  {
  }

  /** An all-zero input gets one '1' more than it has zero bytes. */
  lemma JsEncodingOfZeros(k: nat)
    ensures JsEncoding(FC.Zeros(k)) == Repeat('1', k + 1)
  {
    FC.BigEndianZeros(k);
    FC.LeadingZerosExact(FC.Zeros(k), k);
    assert Repeat('1', k) + "1" == Repeat('1', k + 1) by {
      RepeatSnoc(k);
    }
  }

  lemma {:induction false} RepeatSnoc(k: nat)
    ensures Repeat('1', k) + "1" == Repeat('1', k + 1)
  {
    if k > 0 {
      RepeatSnoc(k - 1);
    }
  }

  /**
   * The nil UUID: the app's code has seventeen '1's, the Python code sixteen,
   * and the Python decoder refuses the app's code.
   */
  lemma NilUuidDisagreement()
    ensures JsEncoding(FC.Zeros(16)) == Repeat('1', 17)
    ensures FC.Encoding(FC.Zeros(16)) == Repeat('1', 16)
    ensures FC.Decoding(Repeat('1', 17)).Err?
  {
    JsEncodingOfZeros(16);
    FC.NilEncoding();
    OnesRejected(17);
  }

  /**
   * A run of '1's other than sixteen (or thirty-two, which is UUID text) is
   * refused.
   */
  lemma OnesRejected(k: nat)
    requires k > 0 && k != 16 && k != 32
    ensures FC.Decoding(Repeat('1', k)).Err?
  {
    var code := Repeat('1', k);
    assert forall i :: 0 <= i < |code| ==> code[i] == '1';
    StripNoSpace(code);
    OnesNotUuidText(k);
    FC.DecodingBranches(code);
    OnesNotBase58(k);
  }

  lemma OnesNotBase58(k: nat)
    requires k > 0 && k != 16
    ensures FC.Base58Decoding(Repeat('1', k)).Err?
  {
    var code := Repeat('1', k);
    FC.ValueOfOnes(k);
    FC.LeadingOnesExact(code, k);
  }

  lemma OnesNotUuidText(k: nat)
    requires k != 32
    ensures UuidText.Parse(Repeat('1', k)).None?
  {
    var code := Repeat('1', k);
    RemoveCharAbsent(code, '-');
    UuidText.ParsePlain(code);
  }

  // ---- formatFriendCode -------------------------------------------------

  /** The 6-character groups `formatFriendCode` cuts a code into. */
  function Groups(code: string): (gs: seq<string>)
    ensures forall i :: 0 <= i < |gs| ==> 1 <= |gs[i]| <= 6
    ensures forall i :: 0 <= i < |gs| - 1 ==> |gs[i]| == 6
    decreases |code|
  {
    if code == "" then [] else if |code| <= 6 then [code] else [code[..6]] + Groups(code[6..])
  }

  function Join(gs: seq<string>): string
  {
    if gs == [] then "" else if |gs| == 1 then gs[0] else gs[0] + "-" + Join(gs[1..])
  }

  function Concat(gs: seq<string>): string
  {
    if gs == [] then "" else gs[0] + Concat(gs[1..])
  }

  method FormatFriendCode(code: string) returns (formatted: string)
    ensures formatted == Join(Groups(code))
  {
    var groups: seq<string> := [];
    var i := 0;
    while i < |code|
      invariant 0 <= i
      invariant groups + GroupsFrom(code, i) == Groups(code)
      decreases |code| - i
    {
      var group := Slice(code, i, i + 6);
      GroupsStep(code, i);
      assert (groups + [group]) + GroupsFrom(code, i + 6) == groups + GroupsFrom(code, i);
      groups := groups + [group];
      i := i + 6;
    }
    assert groups == Groups(code);
    formatted := Join(groups);
  }

  /** The groups of the code from position `i` on. */
  function GroupsFrom(code: string, i: nat): seq<string>
  {
    if i < |code| then Groups(code[i..]) else []
  }

  lemma GroupsStep(code: string, i: nat)
    requires i < |code|
    ensures GroupsFrom(code, i) == [Slice(code, i, i + 6)] + GroupsFrom(code, i + 6)
  {
    if i + 6 < |code| {
      assert code[i..][..6] == code[i..i + 6] && code[i..][6..] == code[i + 6..];
    }
  }

  /** Removing the hyphens gives back the code, when it had none. */
  lemma FormatRemovesToCode(code: string)
    requires forall i :: 0 <= i < |code| ==> code[i] != '-'
    ensures RemoveChar(Join(Groups(code)), '-') == code
  {
    ConcatGroups(code);
    JoinRemove(Groups(code));
    RemoveCharAbsent(code, '-');
  }

  lemma {:induction false} ConcatGroups(code: string)
    ensures Concat(Groups(code)) == code
    decreases |code|
  {
    if |code| > 6 {
      ConcatGroups(code[6..]);
      assert code[..6] + code[6..] == code;
    }
  }

  lemma {:induction false} JoinRemove(gs: seq<string>)
    ensures RemoveChar(Join(gs), '-') == RemoveChar(Concat(gs), '-')
  {
    if |gs| > 1 {
      JoinRemove(gs[1..]);
      UuidText.RemoveCharConcat(gs[0] + "-", Join(gs[1..]), '-');
      UuidText.RemoveCharConcat(gs[0], "-", '-');
      assert RemoveChar("-", '-') == "";
      UuidText.RemoveCharConcat(gs[0], Concat(gs[1..]), '-');
    } else if |gs| == 1 {
      assert gs[1..] == [] && Concat(gs[1..]) == "";
      assert gs[0] + "" == gs[0];
      assert Concat(gs) == gs[0];
    }
  }

  // ---- getRelayUrl and createProfile ------------------------------------

  /** The case-insensitive `^https?://` test. */
  predicate HasScheme(url: string)
  {
    (|url| >= 7 && Lower(url[..7]) == "http://") || (|url| >= 8 && Lower(url[..8]) == "https://")
  }

  lemma DefaultRelayUrl()
    ensures HasScheme(RelayUrlDefault) && RStripChar(RelayUrlDefault, '/') == RelayUrlDefault
  {
    var host := "body-metrics-relay.bodymetricstracker.workers";
    assert RelayUrlDefault[..8] == "https://";
    assert RelayUrlDefault[|RelayUrlDefault| - 1] == ".dev"[3];
  }

  /**
   * `getRelayUrl`, given the page's configured value ("" when unset); the
   * default needs no trimming.
   */
  function GetRelayUrl(configured: string): (url: string)
    ensures |url| == 0 || url[|url| - 1] != '/'
    ensures Trim(configured) == "" ==> url == RelayUrlDefault
    ensures Trim(configured) != "" && HasScheme(Trim(configured)) ==> url == RStripChar(Trim(configured), '/')
    ensures Trim(configured) != "" && !HasScheme(Trim(configured)) ==> url == RStripChar("https://" + Trim(configured), '/')
  {
    DefaultRelayUrl();
    var raw := if configured == "" then RelayUrlDefault else Trim(configured);
    var url := if raw == "" then RelayUrlDefault else raw;
    var withScheme := if HasScheme(url) then url else "https://" + url;
    RStripChar(withScheme, '/')
  }

  /** A configured host without a scheme and not ending in '/' gets "https://" in front. */
  lemma RelayUrlAddsScheme(host: string)
    requires host != "" && Trim(host) == host && !HasScheme(host) && host[|host| - 1] != '/'
    ensures GetRelayUrl(host) == "https://" + host
  {
    var t := "https://" + host;
    assert t[|t| - 1] == host[|host| - 1];
    assert RStripChar(t, '/') == t;
  }

  datatype PwaProfile = PwaProfile(userId: string, friendCode: string, displayName: string, token: Option<string>)

  /** `createProfile(name)`, with the random UUID text as a parameter. */
  method CreateProfile(name: string, userId: string) returns (p: PwaProfile)
    ensures p.userId == userId && p.token == None
    ensures p.friendCode == JsEncoding(UuidBytes(userId))
    ensures p.displayName == (if name == "" then "User" else name)
  {
    var bytes := UuidToBytes(userId);
    var code := EncodeBase58(bytes);
    p := PwaProfile(userId, code, if name == "" then "User" else name, None);
  }

  /** For every non-nil UUID the app's friend code is the desktop's. */
  lemma ProfileCodeAgrees(userId: string, u: Uuid)
    requires forall i :: 0 <= i < |userId| ==> UuidText.IsHexChar(userId[i]) || userId[i] == '-'
    requires UuidText.Parse(userId) == Some(u) && FC.BigEndian(u) > 0
    ensures JsEncoding(UuidBytes(userId)) == FC.Encoding(u)
  {
    UuidBytesOfUuidText(userId, u);
  }
}
