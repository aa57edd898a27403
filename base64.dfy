/** Base64 with padding (RFC 4648 section 4), as `buffer.toString('base64')` writes it. */
module Base64 {
  import opened UriEncoding

  /** The base64 alphabet of RFC 4648 table 1. */
  function Digit(k: nat): (c: char)
    requires k < 64
    ensures IsAlnum(c) || c == '+' || c == '/'
    ensures c != '='
  {
    if k < 26 then ('A' as int + k) as char
    else if k < 52 then ('a' as int + (k - 26)) as char
    else if k < 62 then ('0' as int + (k - 52)) as char
    else if k == 62 then '+'
    else '/'
  }

  /** The inverse of `Digit` on the alphabet (and 0 on anything else). */
  function DigitValue(c: char): (k: nat)
    ensures k < 64
  {
    if 'A' <= c <= 'Z' then c as int - 'A' as int
    else if 'a' <= c <= 'z' then c as int - 'a' as int + 26
    else if '0' <= c <= '9' then c as int - '0' as int + 52
    else if c == '+' then 62
    else if c == '/' then 63
    else 0
  }

  lemma DigitValueOfDigit(k: nat)
    requires k < 64
    ensures DigitValue(Digit(k)) == k
  {
  }

  predicate IsBase64Char(c: char) {
    IsAlnum(c) || c == '+' || c == '/' || c == '='
  }

  /** Three bytes at a time to four digits; one or two bytes left over are padded with `=`. */
  function Encode(bs: seq<Byte>): (r: string)
    ensures |r| == 4 * ((|bs| + 2) / 3)
    decreases |bs|
  {
    if |bs| == 0 then ""
    else if |bs| == 1 then
      [Digit(bs[0] / 4), Digit((bs[0] % 4) * 16), '=', '=']
    else if |bs| == 2 then
      [Digit(bs[0] / 4), Digit((bs[0] % 4) * 16 + bs[1] / 16), Digit((bs[1] % 16) * 4), '=']
    else
      [Digit(bs[0] / 4), Digit((bs[0] % 4) * 16 + bs[1] / 16),
       Digit((bs[1] % 16) * 4 + bs[2] / 64), Digit(bs[2] % 64)] + Encode(bs[3..])
  }

  /** The three bytes that four 6-bit digit values stand for. */
  function Combine(a: nat, b: nat, c: nat, d: nat): (r: seq<Byte>)
    requires a < 64 && b < 64 && c < 64 && d < 64
    ensures |r| == 3
  {
    [a * 4 + b / 16, (b % 16) * 16 + c / 4, (c % 4) * 64 + d]
  }

  /** A reference decoder for well-formed padded base64, four characters at a time. */
  function Decode(s: string): seq<Byte>
    decreases |s|
  {
    if |s| < 4 then []
    else
      var group := Combine(DigitValue(s[0]), DigitValue(s[1]), DigitValue(s[2]), DigitValue(s[3]));
      if s[2] == '=' then group[..1]
      else if s[3] == '=' then group[..2]
      else group + Decode(s[4..])
  }

  /** The bit arithmetic behind one group: the four 6-bit digits put the three bytes back. */
  lemma GroupArithmetic(b0: Byte, b1: Byte, b2: Byte)
    ensures Combine(b0 / 4, (b0 % 4) * 16 + b1 / 16, (b1 % 16) * 4 + b2 / 64, b2 % 64) == [b0, b1, b2]
  {
  }

  /** A group of four digits none of which is padding decodes through `Combine`. */
  lemma DecodeFullGroup(s: string)
    requires |s| >= 4 && s[2] != '=' && s[3] != '='
    ensures Decode(s) == Combine(DigitValue(s[0]), DigitValue(s[1]), DigitValue(s[2]), DigitValue(s[3])) + Decode(s[4..])
  {
  }

  /** Four digits written for three bytes decode to those bytes, whatever follows them. */
  lemma DecodeDigits(b0: Byte, b1: Byte, b2: Byte, r: string)
    requires |r| >= 4
    requires r[0] == Digit(b0 / 4) && r[1] == Digit((b0 % 4) * 16 + b1 / 16)
    requires r[2] == Digit((b1 % 16) * 4 + b2 / 64) && r[3] == Digit(b2 % 64)
    ensures Decode(r) == [b0, b1, b2] + Decode(r[4..])
  {
    DigitValueOfDigit(b0 / 4);
    DigitValueOfDigit((b0 % 4) * 16 + b1 / 16);
    DigitValueOfDigit((b1 % 16) * 4 + b2 / 64);
    DigitValueOfDigit(b2 % 64);
    DecodeFullGroup(r);
    GroupArithmetic(b0, b1, b2);
  }

  /** One full group of four digits decodes to its three bytes. */
  lemma DecodeGroup(bs: seq<Byte>, r: string)
    requires |bs| >= 3 && r == Encode(bs)
    ensures Decode(r) == bs[..3] + Decode(r[4..])
  {
    var k0, k1, k2, k3 := bs[0] / 4, (bs[0] % 4) * 16 + bs[1] / 16, (bs[1] % 16) * 4 + bs[2] / 64, bs[2] % 64;
    assert r[0] == Digit(k0) && r[1] == Digit(k1);
    assert r[2] == Digit(k2) && r[3] == Digit(k3);
    DecodeDigits(bs[0], bs[1], bs[2], r);
    assert bs[..3] == [bs[0], bs[1], bs[2]];
  }

  /** Decoding what `Encode` wrote gives back the bytes. */
  lemma {:induction false} DecodeEncode(bs: seq<Byte>)
    ensures Decode(Encode(bs)) == bs
    decreases |bs|
  {
    if |bs| == 1 {
      var k0, k1 := bs[0] / 4, (bs[0] % 4) * 16;
      DigitValueOfDigit(k0);
      DigitValueOfDigit(k1);
      GroupArithmetic(bs[0], 0, 0);
    } else if |bs| == 2 {
      var k0, k1, k2 := bs[0] / 4, (bs[0] % 4) * 16 + bs[1] / 16, (bs[1] % 16) * 4;
      DigitValueOfDigit(k0);
      DigitValueOfDigit(k1);
      DigitValueOfDigit(k2);
      GroupArithmetic(bs[0], bs[1], 0);
      assert Encode(bs)[2] == Digit(k2);
    } else if |bs| >= 3 {
      DecodeGroup(bs, Encode(bs));
      assert Encode(bs)[4..] == Encode(bs[3..]);
      DecodeEncode(bs[3..]);
      assert bs == bs[..3] + bs[3..];
    }
  }

  /** `Encode` writes only alphabet characters and `=`. */
  lemma {:induction false} EncodeAlphabet(bs: seq<Byte>)
    ensures forall i :: 0 <= i < |Encode(bs)| ==> IsBase64Char(Encode(bs)[i])
    decreases |bs|
  {
    if |bs| >= 3 {
      EncodeAlphabet(bs[3..]);
      var r := Encode(bs);
      forall i | 0 <= i < |r| ensures IsBase64Char(r[i]) {
        if i >= 4 { assert r[i] == Encode(bs[3..])[i - 4]; }
      }
    }
  }

  /** Base64 text is left alone by both URL encoders' disagreement: it holds no space nor `!'()~`. */
  lemma EncodedAgreesForBothEncoders(bs: seq<Byte>)
    ensures EncodersAgreeOn(Encode(bs))
  {
    EncodeAlphabet(bs);
    var r := Encode(bs);
    forall i | 0 <= i < |r| ensures r[i] !in " !'()~" {
      assert IsBase64Char(r[i]);
    }
  }
}
