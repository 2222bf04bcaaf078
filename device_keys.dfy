/**
 * The keys of the `DEVICES` table in `master.py`: a friendly name's UTF-8
 * bytes (`str.encode()`) written as lowercase hexadecimal (`bytes.hex()`).
 * Both steps have left inverses here, so distinct names give distinct keys.
 */
module DeviceKeys {

  type Byte = b: int | 0 <= b < 256

  /** Whether `n` is a Unicode scalar value, i.e. a Dafny `char`. */
  predicate IsScalar(n: int) {
    0 <= n < 0xD800 || 0xE000 <= n < 0x11_0000
  }

  /** The UTF-8 encoding of one character: one to four bytes. */
  function Utf8Char(c: char): (bs: seq<Byte>)
    ensures 1 <= |bs| <= 4
  {
    var n := c as int;
    if n < 0x80 then [n]
    else if n < 0x800 then [0xC0 + n / 64, 0x80 + n % 64]
    else if n < 0x1_0000 then [0xE0 + n / 4096, 0x80 + n / 64 % 64, 0x80 + n % 64]
    else [0xF0 + n / 262144, 0x80 + n / 4096 % 64, 0x80 + n / 64 % 64, 0x80 + n % 64]
  }

  /** `str.encode()`: UTF-8, character by character. */
  function Utf8(s: string): (bs: seq<Byte>)
    ensures |s| <= |bs| <= 4 * |s|
  {
    if s == [] then [] else Utf8Char(s[0]) + Utf8(s[1..])
  }

  /** How many bytes the UTF-8 sequence opened by `lead` occupies. */
  function SequenceLength(lead: Byte): nat {
    if lead < 0xC0 then 1 else if lead < 0xE0 then 2 else if lead < 0xF0 then 3 else 4
  }

  /** The code point carried by one UTF-8 sequence. */
  function CodePoint(bs: seq<Byte>): int
    requires 1 <= |bs| <= 4
  {
    var b := seq(|bs|, i requires 0 <= i < |bs| => bs[i] as int);
    if |b| == 1 then b[0]
    else if |b| == 2 then (b[0] - 0xC0) * 64 + (b[1] - 0x80)
    else if |b| == 3 then (b[0] - 0xE0) * 4096 + (b[1] - 0x80) * 64 + (b[2] - 0x80)
    else (b[0] - 0xF0) * 262144 + (b[1] - 0x80) * 4096 + (b[2] - 0x80) * 64 + (b[3] - 0x80)
  }

  /** UTF-8 decoding; a malformed sequence becomes U+FFFD. */
  function Utf8Decode(bs: seq<Byte>): string
    decreases |bs|
  {
    if bs == [] then []
    else
      var n := if SequenceLength(bs[0]) <= |bs| then SequenceLength(bs[0]) else |bs|;
      var cp := CodePoint(bs[..n]);
      (if IsScalar(cp) then [cp as char] else ['�']) + Utf8Decode(bs[n..])
  }

  lemma SplitTwo(n: int)
    requires 0 <= n
    ensures n == n / 64 * 64 + n % 64
  {
  }

  lemma SplitThree(n: int)
    requires 0 <= n
    ensures n == n / 4096 * 4096 + n / 64 % 64 * 64 + n % 64
  {
    var m := n / 64;
    SplitTwo(n);
    SplitTwo(m);
    assert m / 64 == n / 4096;
  }

  lemma SplitFour(n: int)
    requires 0 <= n
    ensures n == n / 262144 * 262144 + n / 4096 % 64 * 4096 + n / 64 % 64 * 64 + n % 64
  {
    var m := n / 64;
    SplitTwo(n);
    SplitThree(m);
    assert m / 64 == n / 4096 && m / 4096 == n / 262144;
  }

  /** One character's encoding announces its own length and decodes back to it. */
  lemma Utf8CharDecodes(c: char)
    ensures SequenceLength(Utf8Char(c)[0]) == |Utf8Char(c)|
    ensures CodePoint(Utf8Char(c)) == c as int
  {
    var n := c as int;
    if n >= 0x1_0000 {
      SplitFour(n);
    } else if n >= 0x800 {
      SplitThree(n);
    } else if n >= 0x80 {
      SplitTwo(n);
    }
  }

  /** Decoding undoes `str.encode()`. */
  lemma {:induction false} Utf8RoundTrip(s: string)
    ensures Utf8Decode(Utf8(s)) == s
  {
    if s != [] {
      var head, bs := Utf8Char(s[0]), Utf8(s);
      Utf8CharDecodes(s[0]);
      assert bs[..|head|] == head && bs[|head|..] == Utf8(s[1..]);
      Utf8RoundTrip(s[1..]);
      assert s == [s[0]] + s[1..];
    }
  }

  const HexDigits: string := "0123456789abcdef"

  /** `bytes.hex()`: two lowercase hexadecimal digits per byte, high nibble first. */
  function Hex(bs: seq<Byte>): (h: string)
    ensures |h| == 2 * |bs|
  {
    if bs == [] then [] else [HexDigits[bs[0] / 16], HexDigits[bs[0] % 16]] + Hex(bs[1..])
  }

  /** The value of a lowercase hexadecimal digit. */
  function DigitValue(c: char): (v: int)
    ensures 0 <= v < 16
  {
    if '0' <= c <= '9' then c as int - '0' as int
    else if 'a' <= c <= 'f' then c as int - 'a' as int + 10
    else 0
  }

  /** `bytes.fromhex`, for the strings `Hex` produces. */
  function Unhex(h: string): seq<Byte> {
    if |h| < 2 then [] else [DigitValue(h[0]) * 16 + DigitValue(h[1])] + Unhex(h[2..])
  }

  lemma DigitValueOfDigit(d: int)
    requires 0 <= d < 16
    ensures DigitValue(HexDigits[d]) == d
  {
  }

  /** Every character of `Hex(bs)` is a lowercase hexadecimal digit. */
  lemma {:induction false} HexIsLowercase(bs: seq<Byte>)
    ensures forall i :: 0 <= i < |Hex(bs)| ==> Hex(bs)[i] in HexDigits
  {
    if bs != [] {
      HexIsLowercase(bs[1..]);
    }
  }

  lemma UnhexPair(hi: char, lo: char, rest: string)
    ensures Unhex([hi, lo] + rest) == [DigitValue(hi) * 16 + DigitValue(lo)] + Unhex(rest)
  {
    assert ([hi, lo] + rest)[2..] == rest;
  }

  /** Decoding undoes `bytes.hex()`. */
  lemma {:induction false} UnhexHex(bs: seq<Byte>)
    ensures Unhex(Hex(bs)) == bs
  {
    if bs != [] {
      var b := bs[0];
      var hi, lo, rest := HexDigits[b / 16], HexDigits[b % 16], Hex(bs[1..]);
      assert Hex(bs) == [hi, lo] + rest;
      UnhexPair(hi, lo, rest);
      DigitValueOfDigit(b / 16);
      DigitValueOfDigit(b % 16);
      UnhexHex(bs[1..]);
      assert bs == [b] + bs[1..];
    }
  }

  /** `name.encode().hex()`. */
  function DeviceKey(name: string): string {
    Hex(Utf8(name))
  }

  /**
   * A key is lowercase hexadecimal, two characters per UTF-8 byte of the
   * name, and determines the name.
   */
  lemma DeviceKeyShape(name: string)
    ensures |DeviceKey(name)| == 2 * |Utf8(name)|
    ensures |name| * 2 <= |DeviceKey(name)| <= |name| * 8
    ensures forall i :: 0 <= i < |DeviceKey(name)| ==> DeviceKey(name)[i] in HexDigits
    ensures Utf8Decode(Unhex(DeviceKey(name))) == name
  {
    HexIsLowercase(Utf8(name));
    UnhexHex(Utf8(name));
    Utf8RoundTrip(name);
  }

  /** Distinct friendly names get distinct keys. */
  lemma DeviceKeyInjective(a: string, b: string)
    requires a != b
    ensures DeviceKey(a) != DeviceKey(b)
  {
    DeviceKeyShape(a);
    DeviceKeyShape(b);
  }
}
