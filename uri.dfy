/** `encodeURIComponent` and `decodeURIComponent` (ECMA-262 5.1, sections
    15.1.3.2 and 15.1.3.4) on strings of Unicode scalar values.  A character
    outside the unreserved set `A-Z a-z 0-9 - _ . ! ~ * ' ( )` is written as
    its UTF-8 bytes (RFC 3629), each as `%XY` with upper-case hex digits
    (section 2.1 of RFC 3986). */
module UriComponent {
  import opened Common

  /** The characters `encodeURIComponent` leaves as they are. */
  predicate Unescaped(c: char) {
    ('A' <= c <= 'Z') || ('a' <= c <= 'z') || ('0' <= c <= '9') ||
    c == '-' || c == '_' || c == '.' || c == '!' || c == '~' ||
    c == '*' || c == '\'' || c == '(' || c == ')'
  }

  /** The upper-case hexadecimal digit for `d`. */
  function HexDigit(d: nat): char
    requires d < 16
  {
    if d < 10 then ('0' as int + d) as char else ('A' as int + d - 10) as char
  }

  /** The value of a hexadecimal digit of either case. */
  function HexValue(c: char): (r: Option<nat>)
    ensures r.Some? ==> r.value < 16
  {
    if '0' <= c <= '9' then Some(c as int - '0' as int)
    else if 'A' <= c <= 'F' then Some(c as int - 'A' as int + 10)
    else if 'a' <= c <= 'f' then Some(c as int - 'a' as int + 10)
    else None
  }

  /** `%XY` for one byte. */
  function Escape(b: uint8): string {
    ['%', HexDigit(b / 16), HexDigit(b % 16)]
  }

  /** Every byte escaped in turn: three characters per byte, all of them `%`
      or hexadecimal digits. */
  function EscapeAll(bs: seq<uint8>): (r: string)
    ensures |r| == 3 * |bs|
    ensures forall i :: 0 <= i < |r| ==> Unescaped(r[i]) || r[i] == '%'
  {
    if bs == [] then [] else Escape(bs[0]) + EscapeAll(bs[1..])
  }

  /** The UTF-8 encoding of one scalar value (section 3 of RFC 3629). */
  function Utf8(c: char): seq<uint8> {
    var v := c as int;
    if v < 0x80 then [v]
    else if v < 0x800 then [0xC0 + v / 64, 0x80 + v % 64]
    else if v < 0x10000 then [0xE0 + v / 4096, 0x80 + (v / 64) % 64, 0x80 + v % 64]
    else [0xF0 + v / 262144, 0x80 + (v / 4096) % 64, 0x80 + (v / 64) % 64, 0x80 + v % 64]
  }

  function EncodeChar(c: char): string {
    if Unescaped(c) then [c] else EscapeAll(Utf8(c))
  }

  /** `encodeURIComponent(s)`: the result holds only unreserved characters and
      `%` escapes, so in particular no `/`, `?`, `&` or `#`. */
  function Encode(s: string): (r: string)
    ensures forall i :: 0 <= i < |r| ==> Unescaped(r[i]) || r[i] == '%'
  {
    if s == [] then [] else EncodeChar(s[0]) + Encode(s[1..])
  }

  /** `[c] + t` when decoding the rest succeeded. */
  function Cons(c: char, rest: Option<string>): Option<string> {
    match rest
    case Some(t) => Some([c] + t)
    case None => None
  }

  /** The byte written as `%XY` at the front of `s`, if there is one. */
  function EscapedByte(s: string): (r: Option<uint8>)
    ensures r.Some? ==> |s| >= 3 && s[0] == '%'
  {
    if |s| >= 3 && s[0] == '%' then
      match (HexValue(s[1]), HexValue(s[2]))
      case (Some(h), Some(l)) => Some(h * 16 + l)
      case _ => None
    else None
  }

  /** `k` consecutive escapes at the front of `s`. */
  function EscapedBytes(s: string, k: nat): (r: Option<seq<uint8>>)
    ensures r.Some? ==> |r.value| == k && |s| >= 3 * k
    decreases k
  {
    if k == 0 then Some([])
    else
      match EscapedByte(s)
      case None => None
      case Some(b) =>
        match EscapedBytes(s[3..], k - 1)
        case None => None
        case Some(bs) => Some([b] + bs)
  }

  /** How many bytes a UTF-8 sequence starting with `b` has; 0 when `b`
      cannot start one. */
  function SequenceLength(b: uint8): nat {
    if b < 0x80 then 1
    else if b < 0xC0 then 0
    else if b < 0xE0 then 2
    else if b < 0xF0 then 3
    else if b < 0xF8 then 4
    else 0
  }

  predicate Continuation(b: uint8) {
    0x80 <= b < 0xC0
  }

  /** The code point a well-formed sequence of `|bs|` bytes carries. */
  function CodePoint(bs: seq<uint8>): int
    requires 1 <= |bs| <= 4
  {
    var b := seq(|bs|, i requires 0 <= i < |bs| => bs[i] as int);
    if |b| == 1 then b[0]
    else if |b| == 2 then (b[0] - 0xC0) * 64 + (b[1] - 0x80)
    else if |b| == 3 then (b[0] - 0xE0) * 4096 + (b[1] - 0x80) * 64 + (b[2] - 0x80)
    else (b[0] - 0xF0) * 262144 + (b[1] - 0x80) * 4096 + (b[2] - 0x80) * 64 + (b[3] - 0x80)
  }

  /** The least code point that needs `n` bytes: a smaller one is an overlong
      form, which the decoder refuses. */
  function MinCodePoint(n: nat): int {
    if n <= 1 then 0 else if n == 2 then 0x80 else if n == 3 then 0x800 else 0x10000
  }

  /** The scalar value a complete UTF-8 sequence stands for; `None` for an
      ill-formed, overlong, surrogate or out-of-range sequence. */
  function Utf8Decode(bs: seq<uint8>): Option<char> {
    if 1 <= |bs| <= 4 && SequenceLength(bs[0]) == |bs|
       && forall i :: 1 <= i < |bs| ==> Continuation(bs[i])
    then
      var v := CodePoint(bs);
      if MinCodePoint(|bs|) <= v <= 0x10FFFF && !(0xD800 <= v < 0xE000) then Some(v as char) else None
    else None
  }

  /** `decodeURIComponent(s)`; `None` where it throws `URIError`. */
  function Decode(s: string): Option<string>
    decreases |s|
  {
    if s == [] then Some([])
    else if s[0] != '%' then Cons(s[0], Decode(s[1..]))
    else
      match EscapedByte(s)
      case None => None
      case Some(b) =>
        var n := SequenceLength(b);
        if n == 0 then None
        else
          match EscapedBytes(s, n)
          case None => None
          case Some(bs) =>
            match Utf8Decode(bs)
            case None => None
            case Some(c) => Cons(c, Decode(s[3 * n..]))
  }

  lemma HexRoundTrip(d: nat)
    requires d < 16
    ensures HexValue(HexDigit(d)) == Some(d)
  {
  }

  lemma EscapeRoundTrip(b: uint8, rest: string)
    ensures EscapedByte(Escape(b) + rest) == Some(b)
  {
    HexRoundTrip(b / 16);
    HexRoundTrip(b % 16);
  }

  lemma {:induction false} EscapeAllRoundTrip(bs: seq<uint8>, rest: string)
    ensures EscapedBytes(EscapeAll(bs) + rest, |bs|) == Some(bs)
    decreases |bs|
  {
    if bs != [] {
      var s := EscapeAll(bs) + rest;
      assert s == Escape(bs[0]) + (EscapeAll(bs[1..]) + rest);
      EscapeRoundTrip(bs[0], EscapeAll(bs[1..]) + rest);
      assert s[3..] == EscapeAll(bs[1..]) + rest;
      EscapeAllRoundTrip(bs[1..], rest);
      assert [bs[0]] + bs[1..] == bs;
    }
  }

  /** Decoding the UTF-8 form of a scalar value gives it back, and its first
      byte announces the length of the whole sequence. */
  lemma Utf8RoundTrip(c: char)
    ensures 1 <= |Utf8(c)| <= 4 && SequenceLength(Utf8(c)[0]) == |Utf8(c)|
    ensures Utf8Decode(Utf8(c)) == Some(c)
  {
    var v := c as int;
    if v < 0x80 {
    } else if v < 0x800 {
      Utf8TwoBytes(c);
    } else if v < 0x10000 {
      Utf8ThreeBytes(c);
    } else {
      Utf8FourBytes(c);
    }
  }

  lemma Utf8TwoBytes(c: char)
    requires 0x80 <= c as int < 0x800
    ensures |Utf8(c)| == 2 && SequenceLength(Utf8(c)[0]) == 2
    ensures Utf8Decode(Utf8(c)) == Some(c)
  {
    var v := c as int;
    TwoByteValue(v);
    assert CodePoint(Utf8(c)) == v;
  }

  lemma Utf8ThreeBytes(c: char)
    requires 0x800 <= c as int < 0x10000
    ensures |Utf8(c)| == 3 && SequenceLength(Utf8(c)[0]) == 3
    ensures Utf8Decode(Utf8(c)) == Some(c)
  {
    var v := c as int;
    ThreeByteValue(v);
    assert CodePoint(Utf8(c)) == v;
  }

  lemma Utf8FourBytes(c: char)
    requires 0x10000 <= c as int
    ensures |Utf8(c)| == 4 && SequenceLength(Utf8(c)[0]) == 4
    ensures Utf8Decode(Utf8(c)) == Some(c)
  {
    var v := c as int;
    FourByteValue(v);
    assert CodePoint(Utf8(c)) == v;
  }

  lemma TwoByteValue(v: int)
    requires 0x80 <= v < 0x800
    ensures (v / 64) * 64 + v % 64 == v
  {
  }

  lemma ThreeByteValue(v: int)
    requires 0x800 <= v < 0x10000
    ensures (v / 4096) * 4096 + (v / 64) % 64 * 64 + v % 64 == v
  {
    var q, r := v / 64, v % 64;
    assert v == q * 64 + r;
    assert q == (v / 4096) * 64 + q % 64;
  }

  lemma FourByteValue(v: int)
    requires 0x10000 <= v <= 0x10FFFF
    ensures (v / 262144) * 262144 + (v / 4096) % 64 * 4096 + (v / 64) % 64 * 64 + v % 64 == v
  {
    var q, r := v / 64, v % 64;
    assert v == q * 64 + r;
    var q2 := q / 64;
    assert q == q2 * 64 + q % 64;
    assert q2 == v / 4096;
    assert q2 == (v / 262144) * 64 + q2 % 64;
  }

  /** Decoding what one character encodes to, followed by anything, yields that
      character followed by the decoding of the rest. */
  lemma DecodeEncodedChar(c: char, rest: string)
    ensures Decode(EncodeChar(c) + rest) == Cons(c, Decode(rest))
  {
    var s := EncodeChar(c) + rest;
    if Unescaped(c) {
      assert s[0] == c && s[1..] == rest;
    } else {
      Utf8RoundTrip(c);
      DecodeEscapedSequence(Utf8(c), c, rest);
    }
  }

  /** The escapes of a well-formed UTF-8 sequence decode to its character. */
  lemma DecodeEscapedSequence(bs: seq<uint8>, c: char, rest: string)
    requires 1 <= |bs| && SequenceLength(bs[0]) == |bs| && Utf8Decode(bs) == Some(c)
    ensures Decode(EscapeAll(bs) + rest) == Cons(c, Decode(rest))
  {
    var s := EscapeAll(bs) + rest;
    EscapeAllRoundTrip(bs, rest);
    assert s[3 * |bs|..] == rest;
    DecodeEscapes(s, bs, c);
  }

  /** One step of the decoder over a complete escaped sequence. */
  lemma DecodeEscapes(s: string, bs: seq<uint8>, c: char)
    requires 1 <= |bs| && EscapedByte(s) == Some(bs[0]) && SequenceLength(bs[0]) == |bs|
    requires EscapedBytes(s, |bs|) == Some(bs) && Utf8Decode(bs) == Some(c)
    ensures Decode(s) == Cons(c, Decode(s[3 * |bs|..]))
  {
  }

  /** `decodeURIComponent(encodeURIComponent(s)) === s` for every string. */
  lemma {:induction false} DecodeEncode(s: string)
    ensures Decode(Encode(s)) == Some(s)
    decreases |s|
  {
    if s != [] {
      assert Encode(s) == EncodeChar(s[0]) + Encode(s[1..]);
      DecodeEncodedChar(s[0], Encode(s[1..]));
      DecodeEncode(s[1..]);
      assert [s[0]] + s[1..] == s;
    }
  }
}
