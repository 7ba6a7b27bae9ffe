/**
 * `encodeURIComponent` as ECMAScript defines it: every code point outside the
 * unreserved set (ASCII letters, digits and `- _ . ! ~ * ' ( )`) is written as
 * its UTF-8 bytes, each as `%` and two upper-case hexadecimal digits, which is
 * the percent-encoding of section 2.1 of RFC 3986. A decoder is given beside
 * it so that the encoder can be shown to lose nothing.
 */
module UriComponent {
  import opened Js

  type Byte = b: int | 0 <= b < 256

  /** The characters `encodeURIComponent` copies unchanged. */
  predicate IsUnreserved(c: char) {
    || ('A' <= c <= 'Z') || ('a' <= c <= 'z') || ('0' <= c <= '9')
    || c == '-' || c == '_' || c == '.' || c == '!' || c == '~'
    || c == '*' || c == '\'' || c == '(' || c == ')'
  }

  /** The UTF-8 encoding of one code point. */
  function Utf8(c: char): (bs: seq<Byte>)
    ensures 1 <= |bs| <= 4
  {
    var cp := c as int;
    if cp < 0x80 then [cp]
    else if cp < 0x800 then [0xC0 + cp / 64, 0x80 + cp % 64]
    else if cp < 0x10000 then [0xE0 + cp / 4096, 0x80 + (cp / 64) % 64, 0x80 + cp % 64]
    else [0xF0 + cp / 262144, 0x80 + (cp / 4096) % 64, 0x80 + (cp / 64) % 64, 0x80 + cp % 64]
  }

  function HexDigit(n: nat): char
    requires n < 16
  {
    "0123456789ABCDEF"[n]
  }

  /** One byte written as `%XY`. */
  function PercentByte(b: Byte): string {
    ['%', HexDigit(b / 16), HexDigit(b % 16)]
  }

  function PercentBytes(bs: seq<Byte>): string
    decreases |bs|
  {
    if |bs| == 0 then "" else PercentByte(bs[0]) + PercentBytes(bs[1..])
  }

  function EncodeChar(c: char): string {
    if IsUnreserved(c) then [c] else PercentBytes(Utf8(c))
  }

  /** `encodeURIComponent(s)`. */
  function Encode(s: string): string
    decreases |s|
  {
    if |s| == 0 then "" else EncodeChar(s[0]) + Encode(s[1..])
  }

  /** Ampersands and equals signs never survive encoding, so an encoded term
      cannot add or end a query parameter of the URL it is placed in. */
  lemma {:induction false} EncodeHasNoQuerySyntax(s: string)
    ensures forall i :: 0 <= i < |Encode(s)| ==> Encode(s)[i] != '&' && Encode(s)[i] != '=' && Encode(s)[i] != '?' && Encode(s)[i] != '#'
    decreases |s|
  {
    if |s| > 0 {
      EncodeCharHasNoQuerySyntax(s[0]);
      EncodeHasNoQuerySyntax(s[1..]);
      var e0, e1 := EncodeChar(s[0]), Encode(s[1..]);
      assert Encode(s) == e0 + e1;
      forall i | 0 <= i < |Encode(s)|
        ensures Encode(s)[i] != '&' && Encode(s)[i] != '=' && Encode(s)[i] != '?' && Encode(s)[i] != '#'
      {
        if i < |e0| { assert Encode(s)[i] == e0[i]; } else { assert Encode(s)[i] == e1[i - |e0|]; }
      }
    }
  }

  lemma {:induction false} PercentBytesAlphabet(bs: seq<Byte>)
    ensures forall i :: 0 <= i < |PercentBytes(bs)| ==>
      PercentBytes(bs)[i] == '%' || ('0' <= PercentBytes(bs)[i] <= '9') || ('A' <= PercentBytes(bs)[i] <= 'F')
    decreases |bs|
  {
    if |bs| > 0 {
      PercentBytesAlphabet(bs[1..]);
      var p := PercentByte(bs[0]);
      var q := PercentBytes(bs[1..]);
      assert PercentBytes(bs) == p + q;
      forall i | 0 <= i < |p + q|
        ensures (p + q)[i] == '%' || ('0' <= (p + q)[i] <= '9') || ('A' <= (p + q)[i] <= 'F')
      {
        if i >= |p| { assert (p + q)[i] == q[i - |p|]; }
      }
    }
  }

  lemma EncodeCharHasNoQuerySyntax(c: char)
    ensures forall i :: 0 <= i < |EncodeChar(c)| ==>
      EncodeChar(c)[i] != '&' && EncodeChar(c)[i] != '=' && EncodeChar(c)[i] != '?' && EncodeChar(c)[i] != '#'
  {
    if !IsUnreserved(c) { PercentBytesAlphabet(Utf8(c)); }
  }

  // ---------------------------------------------------------------------------
  // Decoding
  // ---------------------------------------------------------------------------

  function HexValue(c: char): Option<nat> {
    if '0' <= c <= '9' then Some(c as int - '0' as int)
    else if 'A' <= c <= 'F' then Some(c as int - 'A' as int + 10)
    else if 'a' <= c <= 'f' then Some(c as int - 'a' as int + 10)
    else None
  }

  /** The byte written as `%XY` at index `i` of `s`, if there is one. */
  function ByteAt(s: string, i: nat): Option<Byte> {
    if i + 3 <= |s| && s[i] == '%' then
      var hi, lo := HexValue(s[i + 1]), HexValue(s[i + 2]);
      if hi.Some? && lo.Some? && hi.value < 16 && lo.value < 16 then Some(hi.value * 16 + lo.value) else None
    else None
  }

  /** Reads `k` continuation bytes from index `i` on, folding their low six bits into `acc`. */
  function ReadContinuations(s: string, i: nat, k: nat, acc: int): Option<int>
    decreases k
  {
    if k == 0 then Some(acc)
    else
      var b := ByteAt(s, i);
      if b.Some? && 0x80 <= b.value < 0xC0 then ReadContinuations(s, i + 3, k - 1, acc * 64 + (b.value - 0x80))
      else None
  }

  function ToChar(cp: int): Option<char> {
    if 0 <= cp < 0xD800 || 0xE000 <= cp < 0x11_0000 then Some(cp as char) else None
  }

  /** Decodes the UTF-8 sequence of `%XY` triples at the front of `s`; gives the
      character and the number of string characters it took. */
  function DecodeEscape(s: string): Option<(char, nat)> {
    var lead := ByteAt(s, 0);
    if lead.None? then None
    else
      var b0 := lead.value;
      var (k, init) :=
        if b0 < 0x80 then (0, b0)
        else if 0xC0 <= b0 < 0xE0 then (1, b0 - 0xC0)
        else if 0xE0 <= b0 < 0xF0 then (2, b0 - 0xE0)
        else if 0xF0 <= b0 < 0xF8 then (3, b0 - 0xF0)
        else (4, -1);
      if k == 4 then None
      else
        var cp := ReadContinuations(s, 3, k, init);
        if cp.None? then None
        else
          var c := ToChar(cp.value);
          if c.None? then None else Some((c.value, 3 * (k + 1)))
  }

  /** `decodeURIComponent(s)`, with `None` for a malformed escape. */
  function Decode(s: string): Option<string>
    decreases |s|
  {
    if |s| == 0 then Some("")
    else if s[0] != '%' then
      var rest := Decode(s[1..]);
      if rest.None? then None else Some([s[0]] + rest.value)
    else
      var e := DecodeEscape(s);
      if e.None? || e.value.1 == 0 || e.value.1 > |s| then None
      else
        var rest := Decode(s[e.value.1..]);
        if rest.None? then None else Some([e.value.0] + rest.value)
  }

  // ---------------------------------------------------------------------------
  // Round trip
  // ---------------------------------------------------------------------------

  lemma HexRoundTrip(n: nat)
    requires n < 16
    ensures HexValue(HexDigit(n)) == Some(n)
  {
  }

  lemma ByteAtPercent(s: string, p: string, b: Byte, rest: string)
    requires s == p + PercentByte(b) + rest
    ensures ByteAt(s, |p|) == Some(b)
  {
    var i := |p|;
    assert s[i] == '%' && s[i + 1] == HexDigit(b / 16) && s[i + 2] == HexDigit(b % 16);
    HexRoundTrip(b / 16);
    HexRoundTrip(b % 16);
  }

  /** Splitting off six more low bits of a code point and gluing them back on. */
  lemma SixBitGroups(x: nat)
    ensures (x / 64) * 64 + x % 64 == x
    ensures (x / 4096) * 64 + (x / 64) % 64 == x / 64
    ensures (x / 262144) * 64 + (x / 4096) % 64 == x / 4096
  {
  }

  lemma PercentBytesSplit(bs: seq<Byte>, k: nat)
    requires k < |bs|
    ensures PercentBytes(bs[k..]) == PercentByte(bs[k]) + PercentBytes(bs[k + 1..])
  {
    assert bs[k..][1..] == bs[k + 1..];
  }

  lemma Utf8Split(c: char)
    ensures var bs := Utf8(c);
      PercentBytes(bs) == PercentByte(bs[0]) + PercentBytes(bs[1..])
      && (|bs| >= 2 ==> PercentBytes(bs[1..]) == PercentByte(bs[1]) + PercentBytes(bs[2..]))
      && (|bs| >= 3 ==> PercentBytes(bs[2..]) == PercentByte(bs[2]) + PercentBytes(bs[3..]))
      && (|bs| >= 4 ==> PercentBytes(bs[3..]) == PercentByte(bs[3]) + PercentBytes(bs[4..]))
      && PercentBytes(bs[|bs|..]) == ""
  {
    var bs := Utf8(c);
    assert bs[0..] == bs;
    PercentBytesSplit(bs, 0);
    if |bs| >= 2 { PercentBytesSplit(bs, 1); }
    if |bs| >= 3 { PercentBytesSplit(bs, 2); }
    if |bs| >= 4 { PercentBytesSplit(bs, 3); }
  }

  lemma DecodeEscapeOneByte(c: char, rest: string)
    requires !IsUnreserved(c) && c as int < 0x80
    ensures DecodeEscape(EncodeChar(c) + rest) == Some((c, |EncodeChar(c)|))
  {
    var bs := Utf8(c);
    Utf8Split(c);
    var s := EncodeChar(c) + rest;
    assert s == "" + PercentByte(bs[0]) + rest;
    ByteAtPercent(s, "", bs[0], rest);
  }

  lemma DecodeEscapeTwoBytes(c: char, rest: string)
    requires !IsUnreserved(c) && 0x80 <= c as int < 0x800
    ensures DecodeEscape(EncodeChar(c) + rest) == Some((c, |EncodeChar(c)|))
  {
    var cp := c as int;
    var bs := Utf8(c);
    Utf8Split(c);
    var p0, p1 := PercentByte(bs[0]), PercentByte(bs[1]);
    var s := EncodeChar(c) + rest;
    assert s == "" + p0 + (p1 + rest);
    assert s == p0 + p1 + rest;
    ByteAtPercent(s, "", bs[0], p1 + rest);
    ByteAtPercent(s, p0, bs[1], rest);
    SixBitGroups(cp);
    assert ReadContinuations(s, 3, 1, cp / 64) == ReadContinuations(s, 6, 0, cp);
  }

  lemma DecodeEscapeThreeBytes(c: char, rest: string)
    requires !IsUnreserved(c) && 0x800 <= c as int < 0x10000
    ensures DecodeEscape(EncodeChar(c) + rest) == Some((c, |EncodeChar(c)|))
  {
    var cp := c as int;
    var bs := Utf8(c);
    Utf8Split(c);
    var p0, p1, p2 := PercentByte(bs[0]), PercentByte(bs[1]), PercentByte(bs[2]);
    var s := EncodeChar(c) + rest;
    assert s == "" + p0 + (p1 + p2 + rest);
    assert s == p0 + p1 + (p2 + rest);
    assert s == p0 + p1 + p2 + rest;
    ByteAtPercent(s, "", bs[0], p1 + p2 + rest);
    ByteAtPercent(s, p0, bs[1], p2 + rest);
    ByteAtPercent(s, p0 + p1, bs[2], rest);
    SixBitGroups(cp);
    assert ReadContinuations(s, 6, 1, cp / 64) == ReadContinuations(s, 9, 0, cp);
    assert ReadContinuations(s, 3, 2, cp / 4096) == ReadContinuations(s, 6, 1, cp / 64);
  }

  lemma FourPercentBytesAt(s: string, b0: Byte, b1: Byte, b2: Byte, b3: Byte, rest: string)
    requires s == PercentByte(b0) + PercentByte(b1) + PercentByte(b2) + PercentByte(b3) + rest
    ensures ByteAt(s, 0) == Some(b0) && ByteAt(s, 3) == Some(b1)
    ensures ByteAt(s, 6) == Some(b2) && ByteAt(s, 9) == Some(b3)
  {
    var p0, p1, p2, p3 := PercentByte(b0), PercentByte(b1), PercentByte(b2), PercentByte(b3);
    assert s == "" + p0 + (p1 + p2 + p3 + rest);
    assert s == p0 + p1 + (p2 + p3 + rest);
    assert s == p0 + p1 + p2 + (p3 + rest);
    ByteAtPercent(s, "", b0, p1 + p2 + p3 + rest);
    ByteAtPercent(s, p0, b1, p2 + p3 + rest);
    ByteAtPercent(s, p0 + p1, b2, p3 + rest);
    ByteAtPercent(s, p0 + p1 + p2, b3, rest);
  }

  lemma ReadThreeContinuations(s: string, cp: nat)
    requires ByteAt(s, 3) == Some(0x80 + (cp / 4096) % 64)
    requires ByteAt(s, 6) == Some(0x80 + (cp / 64) % 64)
    requires ByteAt(s, 9) == Some(0x80 + cp % 64)
    ensures ReadContinuations(s, 3, 3, cp / 262144) == Some(cp)
  {
    SixBitGroups(cp);
    assert ReadContinuations(s, 3, 3, cp / 262144) == ReadContinuations(s, 6, 2, cp / 4096);
    assert ReadContinuations(s, 6, 2, cp / 4096) == ReadContinuations(s, 9, 1, cp / 64);
    assert ReadContinuations(s, 9, 1, cp / 64) == ReadContinuations(s, 12, 0, cp);
  }

  lemma DecodeFourByteEscape(s: string, b0: Byte, cp: int, c: char)
    requires ByteAt(s, 0) == Some(b0) && 0xF0 <= b0 < 0xF8
    requires ReadContinuations(s, 3, 3, b0 - 0xF0) == Some(cp) && ToChar(cp) == Some(c)
    ensures DecodeEscape(s) == Some((c, 12))
  {
  }

  lemma Utf8FourBytes(c: char)
    requires 0x10000 <= c as int
    ensures var cp, bs := c as int, Utf8(c);
      && |bs| == 4 && 0xF0 <= bs[0] < 0xF8
      && bs[0] - 0xF0 == cp / 262144
      && bs[1] == 0x80 + (cp / 4096) % 64
      && bs[2] == 0x80 + (cp / 64) % 64
      && bs[3] == 0x80 + cp % 64
  {
  }

  lemma EncodeFourBytes(c: char, rest: string)
    requires !IsUnreserved(c) && 0x10000 <= c as int
    ensures var bs := Utf8(c);
      && |bs| == 4
      && EncodeChar(c) + rest == PercentByte(bs[0]) + PercentByte(bs[1]) + PercentByte(bs[2]) + PercentByte(bs[3]) + rest
      && |EncodeChar(c)| == 12
  {
    Utf8Split(c);
  }

  lemma DecodeEscapeFourBytes(c: char, rest: string)
    requires !IsUnreserved(c) && 0x10000 <= c as int
    ensures DecodeEscape(EncodeChar(c) + rest) == Some((c, |EncodeChar(c)|))
  {
    var cp := c as int;
    var bs := Utf8(c);
    Utf8FourBytes(c);
    EncodeFourBytes(c, rest);
    var s := EncodeChar(c) + rest;
    FourPercentBytesAt(s, bs[0], bs[1], bs[2], bs[3], rest);
    ReadThreeContinuations(s, cp);
    assert ToChar(cp) == Some(c);
    DecodeFourByteEscape(s, bs[0], cp, c);
  }

  lemma DecodeEscapeOfEncoded(c: char, rest: string)
    requires !IsUnreserved(c)
    ensures DecodeEscape(EncodeChar(c) + rest) == Some((c, |EncodeChar(c)|))
  {
    var cp := c as int;
    if cp < 0x80 { DecodeEscapeOneByte(c, rest); }
    else if cp < 0x800 { DecodeEscapeTwoBytes(c, rest); }
    else if cp < 0x10000 { DecodeEscapeThreeBytes(c, rest); }
    else { DecodeEscapeFourBytes(c, rest); }
  }

  /** Decoding an encoded string gives the string back: the encoder changes
      the representation of the term and nothing else. */
  lemma {:induction false} DecodeEncode(s: string)
    ensures Decode(Encode(s)) == Some(s)
    decreases |s|
  {
    if |s| > 0 {
      var c := s[0];
      var rest := Encode(s[1..]);
      DecodeEncode(s[1..]);
      var t := Encode(s);
      assert t == EncodeChar(c) + rest;
      if IsUnreserved(c) {
        assert t[0] == c && t[1..] == rest;
        assert Decode(t) == Some([c] + s[1..]);
        assert [c] + s[1..] == s;
      } else {
        PercentBytesAlphabet(Utf8(c));
        DecodeEscapeOfEncoded(c, rest);
        assert t[0] == '%' by {
          assert EncodeChar(c) == PercentByte(Utf8(c)[0]) + PercentBytes(Utf8(c)[1..]);
        }
        assert t[|EncodeChar(c)|..] == rest;
        assert DecodeEscape(t) == Some((c, |EncodeChar(c)|));
        assert Decode(t) == Some([c] + s[1..]);
        assert [c] + s[1..] == s;
      }
    }
  }

  /** Distinct terms encode to distinct strings. */
  lemma EncodeInjective(s: string, t: string)
    requires Encode(s) == Encode(t)
    ensures s == t
  {
    DecodeEncode(s);
    DecodeEncode(t);
  }
}
