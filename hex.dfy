/** `generateRandomHex`: random bytes rendered with Node's 'hex' encoding,
    two lower-case digits per byte, high nibble first. The bytes themselves
    come from `crypto.randomBytes` and are a parameter here. */
module Hex {
  import opened Wrappers

  newtype byte = x: int | 0 <= x < 256

  const HexDigits: string := "0123456789abcdef"

  /** A character Node's 'hex' encoding can produce. */
  predicate IsLowerHexDigit(c: char) {
    ('0' <= c <= '9') || ('a' <= c <= 'f')
  }

  predicate IsLowerHex(s: string) {
    forall i :: 0 <= i < |s| ==> IsLowerHexDigit(s[i])
  }

  function DigitFor(n: int): (c: char)
    requires 0 <= n < 16
    ensures IsLowerHexDigit(c)
  {
    HexDigits[n]
  }

  /** The value of one lower-case hex digit, the inverse of DigitFor. */
  function DigitValue(c: char): (r: Option<int>)
    ensures r.Some? <==> IsLowerHexDigit(c)
    ensures r.Some? ==> 0 <= r.value < 16 && DigitFor(r.value) == c
  {
    if '0' <= c <= '9' then Some(c as int - '0' as int)
    else if 'a' <= c <= 'f' then Some(c as int - 'a' as int + 10)
    else None
  }

  lemma DigitValueOfDigitFor(n: int)
    requires 0 <= n < 16
    ensures DigitValue(DigitFor(n)) == Some(n)
  {
    assert HexDigits == ['0','1','2','3','4','5','6','7','8','9','a','b','c','d','e','f'];
  }

  function HexEncode(bytes: seq<byte>): (s: string)
    ensures |s| == 2 * |bytes|
    ensures IsLowerHex(s)
  {
    if bytes == [] then ""
    else [DigitFor(bytes[0] as int / 16), DigitFor(bytes[0] as int % 16)] + HexEncode(bytes[1..])
  }

  /** Decoding of the strings HexEncode produces; None for anything else. */
  function HexDecode(s: string): (r: Option<seq<byte>>)
    ensures r.Some? ==> 2 * |r.value| == |s|
    decreases |s|
  {
    if s == [] then Some([])
    else if |s| == 1 then None
    else match (DigitValue(s[0]), DigitValue(s[1]), HexDecode(s[2..]))
      case (Some(hi), Some(lo), Some(rest)) => Some([(hi * 16 + lo) as byte] + rest)
      case _ => None
  }

  lemma {:induction false} DecodeEncode(bytes: seq<byte>)
    ensures HexDecode(HexEncode(bytes)) == Some(bytes)
  {
    if bytes != [] {
      var b := bytes[0] as int;
      var s := HexEncode(bytes);
      DigitValueOfDigitFor(b / 16);
      DigitValueOfDigitFor(b % 16);
      assert s[2..] == HexEncode(bytes[1..]);
      DecodeEncode(bytes[1..]);
      assert DigitValue(s[0]) == Some(b / 16) && DigitValue(s[1]) == Some(b % 16);
      assert (b / 16 * 16 + b % 16) as byte == bytes[0];
      assert HexDecode(s) == Some([bytes[0]] + bytes[1..]);
      assert [bytes[0]] + bytes[1..] == bytes;
    }
  }

  /** Every string of even length made of lower-case hex digits decodes. */
  lemma {:induction false} LowerHexDecodes(s: string)
    requires IsLowerHex(s) && |s| % 2 == 0
    ensures HexDecode(s).Some?
    decreases |s|
  {
    if s != [] {
      assert IsLowerHexDigit(s[0]) && IsLowerHexDigit(s[1]);
      assert IsLowerHex(s[2..]) by {
        forall i | 0 <= i < |s[2..]| ensures IsLowerHexDigit(s[2..][i]) {
          assert s[2..][i] == s[i + 2];
        }
      }
      LowerHexDecodes(s[2..]);
    }
  }

  lemma {:induction false} EncodeDecode(s: string)
    requires IsLowerHex(s) && |s| % 2 == 0
    ensures HexDecode(s).Some?
    ensures HexEncode(HexDecode(s).value) == s
    decreases |s|
  {
    LowerHexDecodes(s);
    if s != [] {
      var hi, lo := DigitValue(s[0]).value, DigitValue(s[1]).value;
      assert IsLowerHex(s[2..]) by {
        forall i | 0 <= i < |s[2..]| ensures IsLowerHexDigit(s[2..][i]) {
          assert s[2..][i] == s[i + 2];
        }
      }
      EncodeDecode(s[2..]);
      var b := (hi * 16 + lo) as byte;
      assert b as int / 16 == hi && b as int % 16 == lo;
      assert HexDecode(s).value == [b] + HexDecode(s[2..]).value;
      assert HexDecode(s).value[1..] == HexDecode(s[2..]).value;
    }
  }

  /** `generateRandomHex(length)`: `randomBytes` is what
      `crypto.randomBytes(length)` returned. */
  function GenerateRandomHex(length: nat, randomBytes: seq<byte>): (code: string)
    requires |randomBytes| == length
    ensures |code| == 2 * length
    ensures IsLowerHex(code)
    ensures HexDecode(code) == Some(randomBytes)
  {
    DecodeEncode(randomBytes);
    HexEncode(randomBytes)
  }
}
