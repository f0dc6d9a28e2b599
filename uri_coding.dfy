/** UTF-8 and the percent-encoding of `encodeURIComponent` and
    `decodeURIComponent` (section 2.1 of RFC 3986, with the unreserved set
    of ECMAScript's `encodeURIComponent`). The email links carry a token
    encoded this way, and Express decodes a route parameter with
    `decodeURIComponent` before a handler sees it. */
module UriCoding {
  import opened Wrappers

  type Byte = b: int | 0 <= b < 256

  /** The UTF-8 encoding of one Unicode scalar value. */
  function Utf8(c: char): (bs: seq<Byte>)
    ensures 1 <= |bs| <= 4
    ensures (|bs| == 1) == (c as int < 0x80)
  {
    var v := c as int;
    if v < 0x80 then [v]
    else if v < 0x800 then [0xC0 + v / 64, 0x80 + v % 64]
    else if v < 0x10000 then [0xE0 + v / 4096, 0x80 + (v / 64) % 64, 0x80 + v % 64]
    else [0xF0 + v / 262144, 0x80 + (v / 4096) % 64, 0x80 + (v / 64) % 64, 0x80 + v % 64]
  }

  /** Number of bytes of the UTF-8 encoding of `s`, what
      `new TextEncoder().encode(s).length` returns. */
  function Utf8Length(s: string): (n: nat)
    ensures |s| <= n <= 4 * |s|
  {
    if s == [] then 0 else |Utf8(s[0])| + Utf8Length(s[1..])
  }

  /** Characters `encodeURIComponent` leaves as they are. */
  predicate Unreserved(c: char) {
    ('A' <= c <= 'Z') || ('a' <= c <= 'z') || ('0' <= c <= '9')
    || c == '-' || c == '_' || c == '.' || c == '!' || c == '~' || c == '*'
    || c == '\'' || c == '(' || c == ')'
  }

  predicate IsHexDigit(c: char) {
    ('0' <= c <= '9') || ('A' <= c <= 'F') || ('a' <= c <= 'f')
  }

  function HexDigit(d: int): (c: char)
    requires 0 <= d < 16
    ensures IsHexDigit(c)
  {
    if d < 10 then ('0' as int + d) as char else ('A' as int + d - 10) as char
  }

  function HexValue(c: char): (r: Option<int>)
    ensures r.Some? <==> IsHexDigit(c)
    ensures r.Some? ==> 0 <= r.value < 16
  {
    if '0' <= c <= '9' then Some(c as int - '0' as int)
    else if 'A' <= c <= 'F' then Some(c as int - 'A' as int + 10)
    else if 'a' <= c <= 'f' then Some(c as int - 'a' as int + 10)
    else None
  }

  lemma HexRoundTrip(d: int)
    requires 0 <= d < 16
    ensures HexValue(HexDigit(d)) == Some(d)
  {
  }

  function PercentByte(b: Byte): (r: string)
    ensures |r| == 3 && r[0] == '%' && IsHexDigit(r[1]) && IsHexDigit(r[2])
  {
    ['%', HexDigit(b / 16), HexDigit(b % 16)]
  }

  function PercentBytes(bs: seq<Byte>): (r: string)
    ensures |r| == 3 * |bs|
    ensures forall i :: 0 <= i < |r| ==> r[i] == '%' || IsHexDigit(r[i])
    ensures bs != [] ==> r[0] == '%'
  {
    if bs == [] then [] else PercentByte(bs[0]) + PercentBytes(bs[1..])
  }

  function EncodeChar(c: char): (r: string)
    ensures Unreserved(c) ==> r == [c]
    ensures !Unreserved(c) ==> r == PercentBytes(Utf8(c))
  {
    if Unreserved(c) then [c] else PercentBytes(Utf8(c))
  }

  /** `encodeURIComponent(s)`. */
  function Encode(s: string): (r: string)
  {
    if s == [] then [] else EncodeChar(s[0]) + Encode(s[1..])
  }

  /** The encoding consists of unreserved characters, `%` and hex digits
      only, so it never contains `/` and fills exactly one path segment;
      a string of unreserved characters (such as a JWT in its base64url
      form) is its own encoding. */
  lemma {:induction false} EncodeAlphabet(s: string)
    ensures forall i :: 0 <= i < |Encode(s)| ==>
      Unreserved(Encode(s)[i]) || Encode(s)[i] == '%' || IsHexDigit(Encode(s)[i])
    ensures (forall i :: 0 <= i < |s| ==> Unreserved(s[i])) ==> Encode(s) == s
  {
    if s != [] {
      EncodeAlphabet(s[1..]);
      var e, t := EncodeChar(s[0]), Encode(s[1..]);
      assert Encode(s) == e + t;
      forall i | 0 <= i < |e + t|
        ensures Unreserved((e + t)[i]) || (e + t)[i] == '%' || IsHexDigit((e + t)[i])
      {
        if i >= |e| { assert (e + t)[i] == t[i - |e|]; }
      }
    }
  }

  /** An encoded string holds no slash. */
  lemma EncodeNoSlash(s: string)
    ensures forall i :: 0 <= i < |Encode(s)| ==> Encode(s)[i] != '/'
  {
    EncodeAlphabet(s);
  }

  /** The byte written as `%XX` at position `i` of `s`, if there is one. */
  function ByteAt(s: string, i: nat): (r: Option<Byte>)
  {
    if i + 3 <= |s| && s[i] == '%' then
      match (HexValue(s[i + 1]), HexValue(s[i + 2]))
      case (Some(h), Some(l)) => Some(16 * h + l)
      case _ => None
    else None
  }

  /** Length of the UTF-8 sequence a lead byte announces; 0 for a byte
      that cannot start one. */
  function SequenceLength(b: Byte): (n: nat)
    ensures n <= 4
  {
    if b < 0x80 then 1
    else if 0xC0 <= b < 0xE0 then 2
    else if 0xE0 <= b < 0xF0 then 3
    else if 0xF0 <= b < 0xF8 then 4
    else 0
  }

  predicate IsContinuation(b: Option<Byte>) {
    b.Some? && 0x80 <= b.value < 0xC0
  }

  predicate IsScalar(v: int) {
    (0 <= v < 0xD800) || (0xE000 <= v < 0x110000)
  }

  /** Decodes the `%XX` escapes of one UTF-8 sequence at position `i`,
      rejecting what `decodeURIComponent` rejects with a URIError: a bad
      escape, a bad lead or continuation byte, an overlong form, a
      surrogate or a value beyond U+10FFFF. Returns the character and the
      number of characters consumed. */
  function DecodeEscapes(s: string, i: nat): (r: Option<(char, nat)>)
    ensures r.Some? ==> 3 <= r.value.1 && i + r.value.1 <= |s|
  {
    match ByteAt(s, i)
    case None => None
    case Some(b0) =>
      var n := SequenceLength(b0);
      if n == 1 then Some((b0 as char, 3))
      else if n == 2 && IsContinuation(ByteAt(s, i + 3)) then
        var v := (b0 - 0xC0) * 64 + (ByteAt(s, i + 3).value - 0x80);
        if 0x80 <= v then Some((v as char, 6)) else None
      else if n == 3 && IsContinuation(ByteAt(s, i + 3)) && IsContinuation(ByteAt(s, i + 6)) then
        var v := (b0 - 0xE0) * 4096 + (ByteAt(s, i + 3).value - 0x80) * 64
                 + (ByteAt(s, i + 6).value - 0x80);
        if 0x800 <= v && IsScalar(v) then Some((v as char, 9)) else None
      else if n == 4 && IsContinuation(ByteAt(s, i + 3)) && IsContinuation(ByteAt(s, i + 6))
              && IsContinuation(ByteAt(s, i + 9)) then
        var v := (b0 - 0xF0) * 262144 + (ByteAt(s, i + 3).value - 0x80) * 4096
                 + (ByteAt(s, i + 6).value - 0x80) * 64 + (ByteAt(s, i + 9).value - 0x80);
        if 0x10000 <= v < 0x110000 then Some((v as char, 12)) else None
      else None
  }

  /** `decodeURIComponent(s)`; None where it throws a URIError. */
  function Decode(s: string): (r: Option<string>)
    decreases |s|
  {
    if s == [] then Some([])
    else if s[0] != '%' then
      match Decode(s[1..])
      case None => None
      case Some(t) => Some([s[0]] + t)
    else
      match DecodeEscapes(s, 0)
      case None => None
      case Some((c, n)) =>
        match Decode(s[n..])
        case None => None
        case Some(t) => Some([c] + t)
  }

  lemma ByteAtPercent(b: Byte, rest: string)
    ensures ByteAt(PercentByte(b) + rest, 0) == Some(b)
  {
    var s := PercentByte(b) + rest;
    assert s[0] == '%' && s[1] == HexDigit(b / 16) && s[2] == HexDigit(b % 16);
    HexRoundTrip(b / 16);
    HexRoundTrip(b % 16);
  }

  lemma ByteAtShift(p: string, s: string, i: nat)
    ensures ByteAt(p + s, |p| + i) == ByteAt(s, i)
  {
    if i + 3 <= |s| {
      assert (p + s)[|p| + i] == s[i];
      assert (p + s)[|p| + i + 1] == s[i + 1];
      assert (p + s)[|p| + i + 2] == s[i + 2];
    }
  }

  lemma {:induction false} PercentBytesAt(bs: seq<Byte>, rest: string, k: nat)
    requires k < |bs|
    ensures ByteAt(PercentBytes(bs) + rest, 3 * k) == Some(bs[k])
  {
    var head := PercentByte(bs[0]);
    var tail := PercentBytes(bs[1..]) + rest;
    assert PercentBytes(bs) + rest == head + tail;
    if k == 0 {
      ByteAtPercent(bs[0], tail);
    } else {
      PercentBytesAt(bs[1..], rest, k - 1);
      ByteAtShift(head, tail, 3 * (k - 1));
    }
  }

  lemma Utf8Two(v: int)
    requires 0x80 <= v < 0x800
    ensures var b0, b1 := 0xC0 + v / 64, 0x80 + v % 64;
      SequenceLength(b0) == 2 && IsContinuation(Some(b1)) && (b0 - 0xC0) * 64 + (b1 - 0x80) == v
  {
  }

  lemma Utf8Three(v: int)
    requires 0x800 <= v < 0x10000
    ensures var b0, b1, b2 := 0xE0 + v / 4096, 0x80 + (v / 64) % 64, 0x80 + v % 64;
      && SequenceLength(b0) == 3 && IsContinuation(Some(b1)) && IsContinuation(Some(b2))
      && (b0 - 0xE0) * 4096 + (b1 - 0x80) * 64 + (b2 - 0x80) == v
  {
    var q := v / 64;
    assert v == q * 64 + v % 64;
    assert q == (q / 64) * 64 + q % 64;
    assert q / 64 == v / 4096;
  }

  lemma Utf8Four(v: int)
    requires 0x10000 <= v < 0x110000
    ensures var b0, b1, b2, b3 := 0xF0 + v / 262144, 0x80 + (v / 4096) % 64, 0x80 + (v / 64) % 64, 0x80 + v % 64;
      && SequenceLength(b0) == 4
      && IsContinuation(Some(b1)) && IsContinuation(Some(b2)) && IsContinuation(Some(b3))
      && (b0 - 0xF0) * 262144 + (b1 - 0x80) * 4096 + (b2 - 0x80) * 64 + (b3 - 0x80) == v
  {
    var q := v / 64;
    var r := q / 64;
    assert v == q * 64 + v % 64;
    assert q == r * 64 + q % 64;
    assert r == (r / 64) * 64 + r % 64;
    assert r == v / 4096;
    assert r / 64 == v / 262144;
  }

  lemma DecodeOne(s: string, c: char)
    requires c as int < 0x80 && ByteAt(s, 0) == Some(c as int)
    ensures DecodeEscapes(s, 0) == Some((c, 3))
  {
  }

  lemma DecodeTwo(s: string, c: char, b0: Byte, b1: Byte)
    requires ByteAt(s, 0) == Some(b0) && ByteAt(s, 3) == Some(b1)
    requires SequenceLength(b0) == 2 && IsContinuation(Some(b1))
    requires (b0 - 0xC0) * 64 + (b1 - 0x80) == c as int >= 0x80
    ensures DecodeEscapes(s, 0) == Some((c, 6))
  {
  }

  lemma DecodeThree(s: string, c: char, b0: Byte, b1: Byte, b2: Byte)
    requires ByteAt(s, 0) == Some(b0) && ByteAt(s, 3) == Some(b1) && ByteAt(s, 6) == Some(b2)
    requires SequenceLength(b0) == 3 && IsContinuation(Some(b1)) && IsContinuation(Some(b2))
    requires (b0 - 0xE0) * 4096 + (b1 - 0x80) * 64 + (b2 - 0x80) == c as int >= 0x800
    ensures DecodeEscapes(s, 0) == Some((c, 9))
  {
  }

  lemma DecodeFour(s: string, c: char, b0: Byte, b1: Byte, b2: Byte, b3: Byte)
    requires ByteAt(s, 0) == Some(b0) && ByteAt(s, 3) == Some(b1)
    requires ByteAt(s, 6) == Some(b2) && ByteAt(s, 9) == Some(b3)
    requires SequenceLength(b0) == 4
    requires IsContinuation(Some(b1)) && IsContinuation(Some(b2)) && IsContinuation(Some(b3))
    requires (b0 - 0xF0) * 262144 + (b1 - 0x80) * 4096 + (b2 - 0x80) * 64 + (b3 - 0x80) == c as int >= 0x10000
    ensures DecodeEscapes(s, 0) == Some((c, 12))
  {
  }

  lemma DecodeEscapesOfEncoding(c: char, rest: string)
    requires !Unreserved(c)
    ensures DecodeEscapes(EncodeChar(c) + rest, 0) == Some((c, |EncodeChar(c)|))
  {
    var v := c as int;
    if v < 0x80 {
      EncodedOne(c, rest);
    } else if v < 0x800 {
      EncodedTwo(c, rest);
    } else if v < 0x10000 {
      EncodedThree(c, rest);
    } else {
      EncodedFour(c, rest);
    }
  }

  lemma EncodedOne(c: char, rest: string)
    requires c as int < 0x80
    ensures DecodeEscapes(PercentBytes(Utf8(c)) + rest, 0) == Some((c, |PercentBytes(Utf8(c))|))
  {
    PercentBytesAt(Utf8(c), rest, 0);
    DecodeOne(PercentBytes(Utf8(c)) + rest, c);
  }

  lemma EncodedTwo(c: char, rest: string)
    requires 0x80 <= c as int < 0x800
    ensures DecodeEscapes(PercentBytes(Utf8(c)) + rest, 0) == Some((c, |PercentBytes(Utf8(c))|))
  {
    var bs := Utf8(c);
    PercentBytesAt(bs, rest, 0);
    PercentBytesAt(bs, rest, 1);
    Utf8Two(c as int);
    DecodeTwo(PercentBytes(bs) + rest, c, bs[0], bs[1]);
  }

  lemma EncodedThree(c: char, rest: string)
    requires 0x800 <= c as int < 0x10000
    ensures DecodeEscapes(PercentBytes(Utf8(c)) + rest, 0) == Some((c, |PercentBytes(Utf8(c))|))
  {
    var bs := Utf8(c);
    PercentBytesAt(bs, rest, 0);
    PercentBytesAt(bs, rest, 1);
    PercentBytesAt(bs, rest, 2);
    Utf8Three(c as int);
    DecodeThree(PercentBytes(bs) + rest, c, bs[0], bs[1], bs[2]);
  }

  lemma EncodedFour(c: char, rest: string)
    requires 0x10000 <= c as int
    ensures DecodeEscapes(PercentBytes(Utf8(c)) + rest, 0) == Some((c, |PercentBytes(Utf8(c))|))
  {
    var bs := Utf8(c);
    PercentBytesAt(bs, rest, 0);
    PercentBytesAt(bs, rest, 1);
    PercentBytesAt(bs, rest, 2);
    PercentBytesAt(bs, rest, 3);
    Utf8Four(c as int);
    DecodeFour(PercentBytes(bs) + rest, c, bs[0], bs[1], bs[2], bs[3]);
  }

  /** A string without `%` decodes to itself. */
  lemma {:induction false} DecodePlain(s: string)
    requires forall i :: 0 <= i < |s| ==> s[i] != '%'
    ensures Decode(s) == Some(s)
  {
    if s != [] {
      DecodePlain(s[1..]);
      assert [s[0]] + s[1..] == s;
    }
  }

  /** `decodeURIComponent(encodeURIComponent(s)) == s`. */
  lemma {:induction false} DecodeEncode(s: string)
    ensures Decode(Encode(s)) == Some(s)
  {
    if s != [] {
      var e, t := EncodeChar(s[0]), Encode(s[1..]);
      DecodeEncode(s[1..]);
      assert Encode(s) == e + t;
      if Unreserved(s[0]) {
        var w := e + t;
        assert e == [s[0]];
        assert w[0] == s[0] != '%';
        assert w[1..] == t;
        assert Decode(w) == Some([s[0]] + s[1..]);
        assert [s[0]] + s[1..] == s;
      } else {
        DecodeEscapesOfEncoding(s[0], t);
        var w := e + t;
        assert e == PercentBytes(Utf8(s[0]));
        assert w[0] == e[0] == '%';
        assert w[|e|..] == t;
        assert Decode(w) == Some([s[0]] + s[1..]);
        assert [s[0]] + s[1..] == s;
      }
    }
  }
}
