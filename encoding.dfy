/**
 * The two percent-encoders the redirect binding uses, written out over UTF-8:
 * JavaScript's `encodeURIComponent` and the `application/x-www-form-urlencoded`
 * serializer behind `URLSearchParams.toString()`.
 */
module UriEncoding {

  type Byte = b: int | 0 <= b < 256

  predicate IsAlnum(c: char) {
    'A' <= c <= 'Z' || 'a' <= c <= 'z' || '0' <= c <= '9'
  }

  /** UTF-8 encoding of one Unicode scalar value (RFC 3629 section 3). */
  function Utf8(c: char): (bs: seq<Byte>)
    ensures 1 <= |bs| <= 4
    ensures |bs| == 1 <==> c as int < 0x80
    ensures c as int < 0x80 ==> bs[0] == c as int
  {
    var n := c as int;
    if n < 0x80 then [n]
    else if n < 0x800 then [0xC0 + n / 0x40, 0x80 + n % 0x40]
    else if n < 0x1_0000 then [0xE0 + n / 0x1000, 0x80 + (n / 0x40) % 0x40, 0x80 + n % 0x40]
    else [0xF0 + n / 0x4_0000, 0x80 + (n / 0x1000) % 0x40, 0x80 + (n / 0x40) % 0x40, 0x80 + n % 0x40]
  }

  /** The scalar value a well-formed UTF-8 sequence of one to four bytes stands for. */
  function Utf8Value(bs: seq<Byte>): int
    requires 1 <= |bs| <= 4
  {
    var b: seq<int> := bs;
    if |b| == 1 then b[0]
    else if |b| == 2 then (b[0] - 0xC0) * 0x40 + (b[1] - 0x80)
    else if |b| == 3 then (b[0] - 0xE0) * 0x1000 + (b[1] - 0x80) * 0x40 + (b[2] - 0x80)
    else (b[0] - 0xF0) * 0x4_0000 + (b[1] - 0x80) * 0x1000 + (b[2] - 0x80) * 0x40 + (b[3] - 0x80)
  }

  /** The arithmetic behind the three-byte form: the high, middle and low six-bit groups recombine. */
  lemma ThreeGroups(n: int)
    requires 0 <= n
    ensures (n / 0x1000) * 0x1000 + ((n / 0x40) % 0x40) * 0x40 + n % 0x40 == n
  {
    assert n / 0x40 == (n / 0x1000) * 0x40 + (n / 0x40) % 0x40;
    assert n == (n / 0x40) * 0x40 + n % 0x40;
  }

  /** The arithmetic behind the four-byte form. */
  lemma FourGroups(n: int)
    requires 0 <= n
    ensures (n / 0x4_0000) * 0x4_0000 + ((n / 0x1000) % 0x40) * 0x1000 + ((n / 0x40) % 0x40) * 0x40 + n % 0x40 == n
  {
    assert n / 0x1000 == (n / 0x4_0000) * 0x40 + (n / 0x1000) % 0x40;
    ThreeGroups(n);
  }

  /** Decoding undoes encoding, and every byte after the first is a continuation byte. */
  lemma Utf8RoundTrip(c: char)
    ensures Utf8Value(Utf8(c)) == c as int
    ensures forall k :: 1 <= k < |Utf8(c)| ==> 0x80 <= Utf8(c)[k] < 0xC0
  {
    var n := c as int;
    if n < 0x80 {
    } else if n < 0x800 {
      assert n == (n / 0x40) * 0x40 + n % 0x40;
    } else if n < 0x1_0000 {
      ThreeGroups(n);
    } else {
      FourGroups(n);
    }
  }

  /** UTF-8 encoding of a whole string (what `Buffer.from(s)` produces). */
  function Utf8Encode(s: string): (bs: seq<Byte>)
    ensures |bs| >= |s|
  {
    if s == [] then [] else Utf8(s[0]) + Utf8Encode(s[1..])
  }

  /** An upper-case hexadecimal digit. */
  predicate IsHexUpper(c: char) {
    '0' <= c <= '9' || 'A' <= c <= 'F'
  }

  /** The digit for a value below sixteen: `0`-`9`, then `A`-`F`. */
  function HexDigit(k: int): (c: char)
    requires 0 <= k < 16
    ensures IsHexUpper(c)
  {
    if k < 10 then ('0' as int + k) as char else ('A' as int + k - 10) as char
  }

  /** `%XY` with upper-case hexadecimal digits. */
  function PercentByte(b: Byte): string {
    ['%', HexDigit(b / 16), HexDigit(b % 16)]
  }

  function PercentBytes(bs: seq<Byte>): (r: string)
    ensures |r| == 3 * |bs|
  {
    if bs == [] then "" else PercentByte(bs[0]) + PercentBytes(bs[1..])
  }

  /** Every character of a percent-encoding is `%` or an upper-case hexadecimal digit. */
  lemma {:induction false} PercentBytesAlphabet(bs: seq<Byte>)
    ensures forall c :: c in PercentBytes(bs) ==> c == '%' || IsHexUpper(c)
  {
    if bs != [] {
      PercentBytesAlphabet(bs[1..]);
      assert PercentBytes(bs) == PercentByte(bs[0]) + PercentBytes(bs[1..]);
    }
  }

  /** RFC 2396 section 2.3 "unreserved": what `encodeURIComponent` leaves as it is. */
  predicate Unreserved(c: char) {
    IsAlnum(c) || c == '-' || c == '_' || c == '.' || c == '!' || c == '~' || c == '*'
      || c == '\'' || c == '(' || c == ')'
  }

  function EncodeUriChar(c: char): string {
    if Unreserved(c) then [c] else PercentBytes(Utf8(c))
  }

  /** JavaScript's `encodeURIComponent` (on strings of Unicode scalar values). */
  function EncodeUriComponent(s: string): string {
    if s == [] then "" else EncodeUriChar(s[0]) + EncodeUriComponent(s[1..])
  }

  /** What the form-urlencoded serializer leaves as it is: ASCII alphanumerics and `*-._`. */
  predicate FormSafe(c: char) {
    IsAlnum(c) || c == '*' || c == '-' || c == '.' || c == '_'
  }

  function FormEncodeChar(c: char): string {
    if FormSafe(c) then [c] else if c == ' ' then "+" else PercentBytes(Utf8(c))
  }

  /** The `application/x-www-form-urlencoded` byte serializer (space becomes `+`). */
  function FormEncode(s: string): string {
    if s == [] then "" else FormEncodeChar(s[0]) + FormEncode(s[1..])
  }

  /** The characters on which the two encoders disagree: a space and `!'()~`. */
  predicate EncodersAgreeOn(s: string) {
    ' ' !in s && '!' !in s && '\'' !in s && '(' !in s && ')' !in s && '~' !in s
  }

  lemma EncodersAgreeOnConcat(a: string, b: string)
    ensures EncodersAgreeOn(a + b) <==> EncodersAgreeOn(a) && EncodersAgreeOn(b)
  {
  }

  /** Outside a space and `!'()~` both encoders give the same text. */
  lemma {:induction false} EncodersAgree(s: string)
    requires EncodersAgreeOn(s)
    ensures EncodeUriComponent(s) == FormEncode(s)
  {
    if s != [] {
      var c := s[0];
      assert c in s;
      assert Unreserved(c) <==> FormSafe(c);
      assert EncodeUriChar(c) == FormEncodeChar(c);
      assert s[1..] == s[1..];
      assert forall x :: x in s[1..] ==> x in s;
      EncodersAgree(s[1..]);
    }
  }

  /** On each of those characters they differ; `~` is one example. */
  lemma EncodersDisagreeOnTilde()
    ensures EncodeUriComponent("~") == "~"
    ensures FormEncode("~") == "%7E"
  {
    assert Utf8('~') == [0x7E];
  }

  /** A space is `%20` for `encodeURIComponent` but `+` for the form serializer. */
  lemma EncodersDisagreeOnSpace()
    ensures EncodeUriComponent(" ") == "%20"
    ensures FormEncode(" ") == "+"
  {
    assert Utf8(' ') == [0x20];
  }

  /** The form serializer leaves a string of form-safe characters untouched. */
  lemma {:induction false} FormEncodeIdentity(s: string)
    requires forall c :: c in s ==> FormSafe(c)
    ensures FormEncode(s) == s
  {
    if s != [] {
      assert s[0] in s;
      assert forall c :: c in s[1..] ==> c in s;
      FormEncodeIdentity(s[1..]);
      assert s == [s[0]] + s[1..];
    }
  }

  /** `encodeURIComponent` only ever writes unreserved characters and `%`. */
  lemma {:induction false} EncodeUriComponentAlphabet(s: string)
    ensures forall c :: c in EncodeUriComponent(s) ==> Unreserved(c) || c == '%'
  {
    if s != [] {
      EncodeUriComponentAlphabet(s[1..]);
      PercentBytesAlphabet(Utf8(s[0]));
      assert forall c :: c in EncodeUriChar(s[0]) ==> Unreserved(c) || c == '%';
    }
  }

  /** The form serializer only ever writes form-safe characters, `%` and `+`. */
  lemma {:induction false} FormEncodeAlphabet(s: string)
    ensures forall c :: c in FormEncode(s) ==> FormSafe(c) || c == '%' || c == '+'
  {
    if s != [] {
      FormEncodeAlphabet(s[1..]);
      PercentBytesAlphabet(Utf8(s[0]));
      assert forall c :: c in FormEncodeChar(s[0]) ==> FormSafe(c) || c == '%' || c == '+';
    }
  }

  /** Neither encoder ever writes the query delimiters `&` and `=`. */
  lemma NoDelimitersAfterEncoding(s: string)
    ensures '&' !in EncodeUriComponent(s) && '=' !in EncodeUriComponent(s)
    ensures '&' !in FormEncode(s) && '=' !in FormEncode(s)
  {
    EncodeUriComponentAlphabet(s);
    FormEncodeAlphabet(s);
  }
}
