// Friend codes: a UUID's 16 bytes written in base 58 with the Bitcoin
// alphabet, one '1' per leading zero byte.

module FriendCode {
  import opened Common
  import opened Text
  import UuidText

  /**
   * The base-58 alphabet: the digits and letters without 0, O, I and l, so
   * it falls into six runs of consecutive characters, one literal each.
   */
  const Alphabet: string := "123456789" + "ABCDEFGH" + "JKLMN" + "PQRSTUVWXYZ" + "abcdefghijk" + "mnopqrstuvwxyz"
  const Base: int := 58

  /** `_ALPHABET.index(c)`, or None when `c` is not a base-58 digit. */
  function DigitValue(c: char): (r: Option<int>)
    ensures r.Some? ==> 0 <= r.value < Base
  {
    if '1' <= c <= '9' then Some(c as int - '1' as int)
    else if 'A' <= c <= 'H' then Some(c as int - 'A' as int + 9)
    else if 'J' <= c <= 'N' then Some(c as int - 'J' as int + 17)
    else if 'P' <= c <= 'Z' then Some(c as int - 'P' as int + 22)
    else if 'a' <= c <= 'k' then Some(c as int - 'a' as int + 33)
    else if 'm' <= c <= 'z' then Some(c as int - 'm' as int + 44)
    else None
  }

  predicate InAlphabet(c: char) { DigitValue(c).Some? }

  predicate AllInAlphabet(s: string)
  {
    forall i :: 0 <= i < |s| ==> InAlphabet(s[i])
  }

  /** The alphabet has 58 characters and `DigitValue` is its index. */
  lemma AlphabetIndex(i: int)
    requires 0 <= i < 58
    ensures |Alphabet| == 58 && DigitValue(Alphabet[i]) == Some(i)
  {
    if i == 0 {} else if i == 1 {} else if i == 2 {} else if i == 3 {} else if i == 4 {} else if i == 5 {} else
    if i == 6 {} else if i == 7 {} else if i == 8 {} else if i == 9 {} else if i == 10 {} else if i == 11 {} else
    if i == 12 {} else if i == 13 {} else if i == 14 {} else if i == 15 {} else if i == 16 {} else if i == 17 {} else
    if i == 18 {} else if i == 19 {} else if i == 20 {} else if i == 21 {} else if i == 22 {} else if i == 23 {} else
    if i == 24 {} else if i == 25 {} else if i == 26 {} else if i == 27 {} else if i == 28 {} else if i == 29 {} else
    if i == 30 {} else if i == 31 {} else if i == 32 {} else if i == 33 {} else if i == 34 {} else if i == 35 {} else
    if i == 36 {} else if i == 37 {} else if i == 38 {} else if i == 39 {} else if i == 40 {} else if i == 41 {} else
    if i == 42 {} else if i == 43 {} else if i == 44 {} else if i == 45 {} else if i == 46 {} else if i == 47 {} else
    if i == 48 {} else if i == 49 {} else if i == 50 {} else if i == 51 {} else if i == 52 {} else if i == 53 {} else
    if i == 54 {} else if i == 55 {} else if i == 56 {} else if i == 57 {}
  }

  /** The digits 0, O, I and l, easily misread, are not in the alphabet. */
  lemma AlphabetExcludesLookalikes()
    ensures forall i :: 0 <= i < |Alphabet| ==> Alphabet[i] !in {'0', 'O', 'I', 'l'}
  {
    forall i | 0 <= i < |Alphabet|
      ensures Alphabet[i] !in {'0', 'O', 'I', 'l'}
    {
      AlphabetIndex(i);
    }
  }

  function Pow(b: nat, e: nat): nat
  {
    if e == 0 then 1 else b * Pow(b, e - 1)
  }

  /** `int.from_bytes(data, "big")`. */
  function BigEndian(data: seq<Byte>): nat
  {
    if data == [] then 0 else BigEndian(data[..|data| - 1]) * 256 + data[|data| - 1]
  }

  /** `len(data) - len(data.lstrip(b"\0"))`. */
  function LeadingZeros(data: seq<Byte>): (k: nat)
    ensures k <= |data|
    ensures forall i :: 0 <= i < k ==> data[i] == 0
    ensures k < |data| ==> data[k] != 0
  {
    if data == [] || data[0] != 0 then 0 else 1 + LeadingZeros(data[1..])
  }

  /** `len(s) - len(s.lstrip("1"))`. */
  function LeadingOnes(s: string): (k: nat)
    ensures k <= |s|
    ensures forall i :: 0 <= i < k ==> s[i] == '1'
    ensures k < |s| ==> s[k] != '1'
  {
    if s == [] || s[0] != '1' then 0 else 1 + LeadingOnes(s[1..])
  }

  /** The base-58 digits of `n`, most significant first; none for 0. */
  function Digits(n: nat): (ds: seq<int>)
    ensures forall i :: 0 <= i < |ds| ==> 0 <= ds[i] < Base
    ensures n > 0 ==> |ds| > 0 && ds[0] != 0
  {
    if n == 0 then [] else Digits(n / Base) + [n % Base]
  }

  function DigitsText(ds: seq<int>): (s: string)
    requires forall i :: 0 <= i < |ds| ==> 0 <= ds[i] < Base
    ensures |s| == |ds|
    ensures forall i :: 0 <= i < |ds| ==> s[i] == Alphabet[ds[i]]
  {
    if ds == [] then "" else DigitsText(ds[..|ds| - 1]) + [Alphabet[ds[|ds| - 1]]]
  }

  /** The number a string of base-58 digits denotes. */
  function Value(s: string): nat
    requires AllInAlphabet(s)
  {
    if s == [] then 0 else Value(s[..|s| - 1]) * Base + DigitValue(s[|s| - 1]).value
  }

  /** `num.to_bytes((num.bit_length() + 7) // 8, "big")`: no leading zero byte. */
  function MinimalBytes(n: nat): (bs: seq<Byte>)
    ensures n > 0 ==> |bs| > 0 && bs[0] != 0
    ensures n == 0 ==> bs == []
  {
    if n == 0 then [] else MinimalBytes(n / 256) + [n % 256]
  }

  function Zeros(k: nat): (bs: seq<Byte>)
    ensures |bs| == k && forall i :: 0 <= i < k ==> bs[i] == 0
  {
    if k == 0 then [] else [0] + Zeros(k - 1)
  }

  /** What `encode_friend_code` returns for a UUID. */
  function Encoding(u: Uuid): string
  {
    Repeat('1', LeadingZeros(u)) + DigitsText(Digits(BigEndian(u)))
  }

  /** What `decode_friend_code` returns or raises for a text. */
  function Decoding(code: string): Result<Uuid>
  {
    var cleaned := Strip(code);
    if cleaned == "" then Err("Empty friend code")
    else match UuidText.Parse(cleaned)
      case Some(u) => Ok(u)
      case None => Base58Decoding(cleaned)
  }

  method EncodeFriendCode(userId: Uuid) returns (code: string)
    ensures code == Encoding(userId)
  {
    var num: nat := BigEndian(userId);
    if num == 0 {
      ZeroEncoding(userId);
      return Repeat('1', 16);
    }
    var encoded := "";
    while num > 0
      invariant DigitsText(Digits(num)) + encoded == DigitsText(Digits(BigEndian(userId)))
      decreases num
    {
      var rem := num % Base;
      EncodeStep(num, encoded);
      encoded := [Alphabet[rem]] + encoded;
      num := num / Base;
    }
    assert DigitsText(Digits(0)) + encoded == encoded;
    var padding := LeadingZeros(userId);
    code := Repeat('1', padding) + encoded;
  }

  method DecodeFriendCode(code: string) returns (r: Result<Uuid>)
    ensures r == Decoding(code)
  {
    var cleaned := Strip(code);
    if cleaned == "" {
      return Err("Empty friend code");
    }
    var parsed := UuidText.Parse(cleaned);
    if parsed.Some? {
      return Ok(parsed.value);
    }
    DecodingBranches(code);
    r := DecodeBase58(cleaned);
  }

  /** The base-58 half of `decode_friend_code`, for stripped text that is not UUID text. */
  method DecodeBase58(cleaned: string) returns (r: Result<Uuid>)
    ensures r == Base58Decoding(cleaned)
  {
    var num := 0;
    var i := 0;
    while i < |cleaned|
      invariant 0 <= i <= |cleaned|
      invariant AllInAlphabet(cleaned[..i]) && num == Value(cleaned[..i])
    {
      var value := DigitValue(cleaned[i]);
      if value.None? {
        return Err("Invalid friend code");
      }
      assert cleaned[..i + 1][..i] == cleaned[..i];
      num := num * Base + value.value;
      i := i + 1;
    }
    assert cleaned[..i] == cleaned;
    var raw := MinimalBytes(num);
    var padding := LeadingOnes(cleaned);
    raw := Zeros(padding) + raw;
    if |raw| != 16 {
      return Err("Invalid friend code");
    }
    return Ok(raw);
  }

  // ---- Encoding facts --------------------------------------------------

  lemma EncodeStep(n: nat, encoded: string)
    requires n > 0
    ensures DigitsText(Digits(n)) + encoded == DigitsText(Digits(n / Base)) + ([Alphabet[n % Base]] + encoded)
  {
    DigitsTextStep(n);
  }

  lemma DigitsTextStep(n: nat)
    requires n > 0
    ensures DigitsText(Digits(n)) == DigitsText(Digits(n / Base)) + [Alphabet[n % Base]]
  {
    var ds := Digits(n);
    assert ds[..|ds| - 1] == Digits(n / Base);
  }

  lemma {:induction false} BigEndianZeros(k: nat)
    ensures BigEndian(Zeros(k)) == 0
  {
    if k > 0 {
      assert Zeros(k)[..k - 1] == Zeros(k - 1);
      BigEndianZeros(k - 1);
    }
  }

  lemma {:induction false} BigEndianAfterZeros(z: seq<Byte>, s: seq<Byte>)
    requires forall i :: 0 <= i < |z| ==> z[i] == 0
    ensures BigEndian(z + s) == BigEndian(s)
  {
    if s == [] {
      assert z + s == z;
      assert z == Zeros(|z|);
      BigEndianZeros(|z|);
    } else {
      assert (z + s)[..|z + s| - 1] == z + s[..|s| - 1];
      BigEndianAfterZeros(z, s[..|s| - 1]);
    }
  }

  lemma ZeroEncoding(u: Uuid)
    requires BigEndian(u) == 0
    ensures Encoding(u) == Repeat('1', 16)
  {
    LeadingZerosOfZero(u);
    assert DigitsText(Digits(0)) == "";
  }

  lemma {:induction false} PowPositive(b: nat, e: nat)
    requires b > 0
    ensures Pow(b, e) > 0
  {
    if e > 0 {
      PowPositive(b, e - 1);
    }
  }

  lemma LeadingZerosOfZero(u: Uuid)
    requires BigEndian(u) == 0
    ensures LeadingZeros(u) == 16
  {
    if LeadingZeros(u) < 16 {
      var k := LeadingZeros(u);
      assert u == u[..k] + u[k..];
      BigEndianAfterZeros(u[..k], u[k..]);
      BigEndianPositive(u[k..]);
      PowPositive(256, 15 - k);
    }
  }

  /** A byte string without a leading zero byte denotes a positive number. */
  lemma {:induction false} BigEndianPositive(s: seq<Byte>)
    requires |s| > 0 && s[0] != 0
    ensures BigEndian(s) >= Pow(256, |s| - 1)
  {
    if |s| > 1 {
      assert s[..|s| - 1][0] == s[0];
      BigEndianPositive(s[..|s| - 1]);
    }
  }

  lemma {:induction false} BigEndianBound(s: seq<Byte>)
    ensures BigEndian(s) < Pow(256, |s|)
  {
    if s != [] {
      BigEndianBound(s[..|s| - 1]);
    }
  }

  lemma {:induction false} MinimalBytesOfBigEndian(s: seq<Byte>)
    requires s == [] || s[0] != 0
    ensures MinimalBytes(BigEndian(s)) == s
  {
    if s != [] {
      var init := s[..|s| - 1];
      if init != [] {
        assert init[0] == s[0];
        BigEndianPositive(init);
      }
      MinimalBytesOfBigEndian(init);
      assert s == init + [s[|s| - 1]];
    }
  }

  lemma {:induction false} BigEndianOfMinimalBytes(n: nat)
    ensures BigEndian(MinimalBytes(n)) == n
  {
    if n > 0 {
      var bs := MinimalBytes(n);
      assert bs[..|bs| - 1] == MinimalBytes(n / 256);
      BigEndianOfMinimalBytes(n / 256);
    }
  }

  lemma {:induction false} ValueOfDigits(n: nat)
    ensures AllInAlphabet(DigitsText(Digits(n)))
    ensures Value(DigitsText(Digits(n))) == n
  {
    var t := DigitsText(Digits(n));
    forall i | 0 <= i < |t|
      ensures InAlphabet(t[i])
    {
      AlphabetIndex(Digits(n)[i]);
    }
    if n > 0 {
      var ds := Digits(n);
      assert ds[..|ds| - 1] == Digits(n / Base);
      ValueOfDigits(n / Base);
      AlphabetIndex(n % Base);
      assert t[..|t| - 1] == DigitsText(Digits(n / Base));
    }
  }

  lemma {:induction false} ValueAfterOnes(k: nat, t: string)
    requires AllInAlphabet(t)
    ensures AllInAlphabet(Repeat('1', k) + t)
    ensures Value(Repeat('1', k) + t) == Value(t)
  {
    var s := Repeat('1', k) + t;
    assert forall i :: 0 <= i < |s| ==> InAlphabet(s[i]);
    if t == [] {
      assert s == Repeat('1', k);
      ValueOfOnes(k);
    } else {
      assert s[..|s| - 1] == Repeat('1', k) + t[..|t| - 1];
      ValueAfterOnes(k, t[..|t| - 1]);
    }
  }

  lemma {:induction false} ValueOfOnes(k: nat)
    ensures AllInAlphabet(Repeat('1', k)) && Value(Repeat('1', k)) == 0
  {
    if k > 0 {
      assert Repeat('1', k)[..k - 1] == Repeat('1', k - 1);
      ValueOfOnes(k - 1);
    }
  }

  lemma {:induction false} DigitCount(n: nat, m: nat)
    requires n < Pow(Base, m)
    ensures |Digits(n)| <= m
  {
    if n > 0 {
      DigitCount(n / Base, m - 1);
    }
  }

  lemma {:induction false} PowByteDigits(j: nat)
    ensures Pow(256, j) <= Pow(Base, 2 * j)
  {
    if j > 0 {
      PowByteDigits(j - 1);
      assert Pow(Base, 2 * j) == Base * Base * Pow(Base, 2 * (j - 1));
    }
  }

  lemma {:induction false} PowAdd(b: nat, m: nat, n: nat)
    ensures Pow(b, m + n) == Pow(b, m) * Pow(b, n)
  {
    if m > 0 {
      PowAdd(b, m - 1, n);
      MulAssoc(b, Pow(b, m - 1), Pow(b, n));
    }
  }

  lemma MulAssoc(a: int, b: int, c: int)
    ensures a * (b * c) == (a * b) * c
  {
  }

  /** 2^128 < 58^22: sixteen bytes need at most 22 base-58 digits. */
  lemma PowBound()
    ensures Pow(256, 16) <= Pow(58, 22)
  {
    PowAdd(256, 8, 8);
    PowAdd(58, 11, 11);
    assert Pow(256, 8) == 18446744073709551616;
    assert Pow(58, 11) == 24986644000165537792;
  }

  /** A friend code is at most 31 characters long, so it is never UUID text. */
  lemma EncodingLength(u: Uuid)
    ensures |Encoding(u)| <= 31
  {
    var k := LeadingZeros(u);
    assert u == u[..k] + u[k..];
    BigEndianAfterZeros(u[..k], u[k..]);
    DigitsOfBytes(u[k..]);
  }

  /** At most sixteen bytes take at most 22 digits, and fewer take two digits a byte. */
  lemma DigitsOfBytes(t: seq<Byte>)
    requires |t| <= 16
    ensures |Digits(BigEndian(t))| + 16 - |t| <= 31
  {
    BigEndianBound(t);
    if |t| == 16 {
      PowBound();
      DigitCount(BigEndian(t), 22);
    } else {
      PowByteDigits(|t|);
      DigitCount(BigEndian(t), 2 * |t|);
    }
  }

  lemma EncodingChars(u: Uuid)
    ensures AllInAlphabet(Encoding(u))
    ensures Value(Encoding(u)) == BigEndian(u)
  {
    ValueOfDigits(BigEndian(u));
    ValueAfterOnes(LeadingZeros(u), DigitsText(Digits(BigEndian(u))));
  }

  /** Alphabet characters are neither whitespace nor hyphens. */
  lemma AlphabetPlain(s: string)
    requires AllInAlphabet(s)
    ensures forall i :: 0 <= i < |s| ==> !IsSpace(s[i]) && s[i] != '-'
  {
  }

  lemma EncodingPlainChars(u: Uuid)
    ensures forall i :: 0 <= i < |Encoding(u)| ==> !IsSpace(Encoding(u)[i]) && Encoding(u)[i] != '-'
  {
    EncodingChars(u);
    AlphabetPlain(Encoding(u));
  }

  /** Leading zero bytes become exactly as many leading '1's. */
  lemma EncodingLeadingOnes(u: Uuid)
    ensures LeadingOnes(Encoding(u)) == LeadingZeros(u)
  {
    var k := LeadingZeros(u);
    var t := DigitsText(Digits(BigEndian(u)));
    var s := Encoding(u);
    if k < |s| {
      assert s[k] == t[0];
      var d := Digits(BigEndian(u))[0];
      assert d != 0;
      AlphabetIndex(d);
      assert DigitValue(t[0]) != DigitValue('1');
    }
    LeadingOnesExact(s, k);
  }

  lemma LeadingOnesExact(s: string, k: nat)
    requires k <= |s| && (forall i :: 0 <= i < k ==> s[i] == '1') && (k < |s| ==> s[k] != '1')
    ensures LeadingOnes(s) == k
  {

  }

  /** The nil UUID is sixteen '1's. */
  lemma NilEncoding()
    ensures Encoding(Zeros(16)) == Repeat('1', 16)
  {
    BigEndianZeros(16);
    assert LeadingZeros(Zeros(16)) == 16 by {
      LeadingZerosOfZero(Zeros(16));
    }
  }

  /** The base-58 branch of `Decoding`, for text already stripped and not UUID text. */
  function Base58Decoding(cleaned: string): Result<Uuid>
  {
    if !AllInAlphabet(cleaned) then Err("Invalid friend code")
    else
      var raw := Zeros(LeadingOnes(cleaned)) + MinimalBytes(Value(cleaned));
      if |raw| != 16 then Err("Invalid friend code") else Ok(raw)
  }

  lemma DecodingBranches(code: string)
    ensures Strip(code) != "" && UuidText.Parse(Strip(code)).None? ==> Decoding(code) == Base58Decoding(Strip(code))
  {
  }

  /** A friend code is neither empty, nor padded with spaces, nor UUID text. */
  lemma EncodingIsPlain(u: Uuid)
    ensures Strip(Encoding(u)) == Encoding(u) != ""
    ensures UuidText.Parse(Encoding(u)).None?
  {
    EncodingStripped(u);
    EncodingNotEmpty(u);
    EncodingNotUuidText(u);
  }

  lemma EncodingStripped(u: Uuid)
    ensures Strip(Encoding(u)) == Encoding(u)
  {
    EncodingPlainChars(u);
    StripNoSpace(Encoding(u));
  }

  lemma EncodingNotEmpty(u: Uuid)
    ensures Encoding(u) != ""
  {
    if BigEndian(u) == 0 {
      ZeroEncoding(u);
    } else {
      assert |Digits(BigEndian(u))| > 0;
    }
  }

  lemma EncodingNotUuidText(u: Uuid)
    ensures UuidText.Parse(Encoding(u)).None?
  {
    EncodingLength(u);
  }

  lemma Base58DecodingOfEncoding(u: Uuid)
    ensures Base58Decoding(Encoding(u)) == Ok(u)
  {
    var code := Encoding(u);
    var k := LeadingZeros(u);
    EncodingChars(u);
    EncodingLeadingOnes(u);
    assert u == u[..k] + u[k..];
    BigEndianAfterZeros(u[..k], u[k..]);
    MinimalBytesOfBigEndian(u[k..]);
    assert Zeros(k) == u[..k];
  }

  /** Every UUID survives a trip through its friend code. */
  lemma DecodeEncode(u: Uuid)
    ensures Decoding(Encoding(u)) == Ok(u)
  {
    EncodingIsPlain(u);
    DecodingBranches(Encoding(u));
    Base58DecodingOfEncoding(u);
  }

  /** Conversely a code that decodes through base 58 is the canonical code of its UUID. */
  lemma EncodeDecode(code: string, u: Uuid)
    requires Decoding(code) == Ok(u) && UuidText.Parse(Strip(code)).None?
    ensures Encoding(u) == Strip(code)
  {
    var cleaned := Strip(code);
    DecodingBranches(code);
    assert Base58Decoding(cleaned) == Ok(u);
    assert AllInAlphabet(cleaned) && u == Zeros(LeadingOnes(cleaned)) + MinimalBytes(Value(cleaned));
    EncodingOfDecoded(cleaned, u);
  }

  lemma EncodingOfDecoded(cleaned: string, u: Uuid)
    requires AllInAlphabet(cleaned) && u == Zeros(LeadingOnes(cleaned)) + MinimalBytes(Value(cleaned))
    ensures Encoding(u) == cleaned
  {
    var k := LeadingOnes(cleaned);
    var rest := cleaned[k..];
    OnesThenRest(cleaned);
    ZerosThenMinimal(k, Value(cleaned));
    assert Encoding(u) == Repeat('1', k) + DigitsText(Digits(Value(rest)));
  }

  /** A code is its leading '1's followed by the canonical digits of its value. */
  lemma OnesThenRest(cleaned: string)
    requires AllInAlphabet(cleaned)
    ensures var k := LeadingOnes(cleaned);
      AllInAlphabet(cleaned[k..]) && Value(cleaned) == Value(cleaned[k..])
      && cleaned == Repeat('1', k) + DigitsText(Digits(Value(cleaned[k..])))
  {
    var k := LeadingOnes(cleaned);
    var rest := cleaned[k..];
    assert cleaned == Repeat('1', k) + rest;
    ValueAfterOnes(k, rest);
    CanonicalDigits(rest);
  }

  /** Zero bytes in front of a minimal big-endian number are its leading zeros. */
  lemma ZerosThenMinimal(k: nat, n: nat)
    ensures LeadingZeros(Zeros(k) + MinimalBytes(n)) == k
    ensures BigEndian(Zeros(k) + MinimalBytes(n)) == n
  {
    var m := MinimalBytes(n);
    BigEndianAfterZeros(Zeros(k), m);
    BigEndianOfMinimalBytes(n);
    LeadingZerosExact(Zeros(k) + m, k);
  }

  lemma LeadingZerosExact(s: seq<Byte>, k: nat)
    requires k <= |s| && (forall i :: 0 <= i < k ==> s[i] == 0) && (k < |s| ==> s[k] != 0)
    ensures LeadingZeros(s) == k
  {

  }

  /** A digit string that does not start with '1' is the digit string of its value. */
  lemma {:induction false} CanonicalDigits(s: string)
    requires AllInAlphabet(s) && (s == [] || s[0] != '1')
    ensures DigitsText(Digits(Value(s))) == s
    ensures s != [] ==> Value(s) > 0
  {
    if s != [] {
      var init := s[..|s| - 1];
      var d := DigitValue(s[|s| - 1]).value;
      if init == [] {
        assert s[0] == s[|s| - 1];
        assert d != 0;
      } else {
        assert init[0] == s[0];
        CanonicalDigits(init);
      }
      var n := Value(s);
      assert n / Base == Value(init) && n % Base == d;
      AlphabetIndex(d);
      assert Alphabet[d] == s[|s| - 1] by {
        AlphabetCharOfValue(s[|s| - 1]);
      }
      assert Digits(n)[..|Digits(n)| - 1] == Digits(Value(init));
      assert s == init + [s[|s| - 1]];
    }
  }

  lemma AlphabetCharOfValue(c: char)
    requires InAlphabet(c)
    ensures Alphabet[DigitValue(c).value] == c
  {
    AlphabetIndex(DigitValue(c).value);
    DigitValueInjective(Alphabet[DigitValue(c).value], c);
  }

  lemma DigitValueInjective(a: char, b: char)
    requires InAlphabet(a) && DigitValue(a) == DigitValue(b)
    ensures a == b
  {
  }
}
