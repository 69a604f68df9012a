/**
 `encodeURIComponent` and its inverse `decodeURIComponent`: every character
 outside the unreserved set is written as the UTF-8 bytes of its code point,
 each as `%` and two upper-case hex digits (percent-encoding, section 2.1 of
 RFC 3986; UTF-8 as in RFC 3629).
 */
module UriComponent {
  import opened Wrappers

  type Byte = x: int | 0 <= x < 256

  /** The characters `encodeURIComponent` leaves as they are. */
  predicate IsUnreserved(c: char) {
    || ('A' <= c <= 'Z') || ('a' <= c <= 'z') || ('0' <= c <= '9')
    || c == '-' || c == '_' || c == '.' || c == '!' || c == '~' || c == '*' || c == '\'' || c == '(' || c == ')'
  }

  /** The UTF-8 encoding of one Unicode scalar value. */
  function Utf8(c: char): (bs: seq<Byte>)
    ensures 1 <= |bs| <= 4
  {
    var v := c as int;
    if v < 0x80 then [v]
    else if v < 0x800 then [0xC0 + v / 64, 0x80 + v % 64]
    else if v < 0x10000 then [0xE0 + v / 4096, 0x80 + (v % 4096) / 64, 0x80 + (v % 4096) % 64]
    else
      var low := v % 262144;
      [0xF0 + v / 262144, 0x80 + low / 4096, 0x80 + (low % 4096) / 64, 0x80 + (low % 4096) % 64]
  }

  const HexDigits: string := "0123456789ABCDEF"

  function HexValue(c: char): Option<nat> {
    if '0' <= c <= '9' then Some(c as int - '0' as int)
    else if 'A' <= c <= 'F' then Some(c as int - 'A' as int + 10)
    else if 'a' <= c <= 'f' then Some(c as int - 'a' as int + 10)
    else None
  }

  lemma HexRoundTrip(n: nat)
    requires n < 16
    ensures HexValue(HexDigits[n]) == Some(n)
  {
  }

  /** `%XY` for one byte. */
  function PercentByte(b: Byte): (r: string)
    ensures |r| == 3 && r[0] == '%' && IsUnreserved(r[1]) && IsUnreserved(r[2])
  {
    ['%', HexDigits[b / 16], HexDigits[b % 16]]
  }

  /** Every character of `r` is `%` or unreserved: the alphabet `encodeURIComponent` writes. */
  predicate IsEncoded(r: string) {
    forall i :: 0 <= i < |r| ==> r[i] == '%' || IsUnreserved(r[i])
  }

  function PercentBytes(bs: seq<Byte>): (r: string)
    ensures |r| == 3 * |bs|
    ensures IsEncoded(r)
    decreases |bs|
  {
    if |bs| == 0 then [] else PercentByte(bs[0]) + PercentBytes(bs[1..])
  }

  function EncodeChar(c: char): (r: string)
    ensures |r| >= 1
    ensures IsEncoded(r)
  {
    if IsUnreserved(c) then [c] else PercentBytes(Utf8(c))
  }

  /** `encodeURIComponent(s)`: the output uses only unreserved characters and `%`. */
  function Encode(s: string): (r: string)
    ensures IsEncoded(r)
    ensures forall i :: 0 <= i < |s| && IsUnreserved(s[i]) ==> s[i] in r
    decreases |s|
  {
    if |s| == 0 then []
    else
      var head := EncodeChar(s[0]);
      var tail := Encode(s[1..]);
      assert forall i :: 1 <= i < |s| ==> s[i] == s[1..][i - 1];
      head + tail
  }

  // ---------------------------------------------------------------------------
  // Decoding

  /** The byte written as `%XY` at offset `i`, if there is one. */
  function ByteAt(s: string, i: nat): Option<Byte> {
    if i + 3 <= |s| && s[i] == '%' && HexValue(s[i + 1]).Some? && HexValue(s[i + 2]).Some? then
      Some(16 * HexValue(s[i + 1]).value + HexValue(s[i + 2]).value)
    else None
  }

  /** The length of the UTF-8 sequence a lead byte starts; 0 for a byte no sequence starts with. */
  function SequenceLength(lead: Byte): nat {
    if lead < 0x80 then 1
    else if 0xC0 <= lead < 0xE0 then 2
    else if 0xE0 <= lead < 0xF0 then 3
    else if 0xF0 <= lead < 0xF8 then 4
    else 0
  }

  /** The `n` percent-encoded bytes at the front of `s`. */
  function ReadBytes(s: string, n: nat): (r: Option<seq<Byte>>)
    ensures r.Some? ==> |r.value| == n && 3 * n <= |s|
    decreases n
  {
    if n == 0 then Some([])
    else
      match ByteAt(s, 0)
      case None => None
      case Some(b) =>
        match ReadBytes(s[3..], n - 1)
        case None => None
        case Some(rest) => Some([b] + rest)
  }

  predicate IsContinuation(b: Byte) {
    0x80 <= b < 0xC0
  }

  /** The scalar value one complete UTF-8 sequence encodes; overlong forms, surrogates and
      values past U+10FFFF are rejected, as `decodeURIComponent` does. */
  function DecodeSequence(bs: seq<Byte>): Option<char>
    requires 1 <= |bs| <= 4
  {
    var v: int :=
      if |bs| == 1 then bs[0]
      else if |bs| == 2 then (bs[0] as int - 0xC0) * 64 + (bs[1] as int - 0x80)
      else if |bs| == 3 then (bs[0] as int - 0xE0) * 4096 + (bs[1] as int - 0x80) * 64 + (bs[2] as int - 0x80)
      else (bs[0] as int - 0xF0) * 262144 + (bs[1] as int - 0x80) * 4096 + (bs[2] as int - 0x80) * 64 + (bs[3] as int - 0x80);
    var least := if |bs| == 1 then 0 else if |bs| == 2 then 0x80 else if |bs| == 3 then 0x800 else 0x10000;
    if (forall k :: 1 <= k < |bs| ==> IsContinuation(bs[k]))
      && least <= v <= 0x10FFFF && !(0xD800 <= v < 0xE000)
    then Some(v as char)
    else None
  }

  /** `decodeURIComponent(s)`; `None` where it throws a `URIError`. */
  function Decode(s: string): Option<string>
    decreases |s|
  {
    if |s| == 0 then Some([])
    else if s[0] != '%' then
      match Decode(s[1..])
      case None => None
      case Some(rest) => Some([s[0]] + rest)
    else
      match ByteAt(s, 0)
      case None => None
      case Some(lead) =>
        var n := SequenceLength(lead);
        if n == 0 then None
        else
          match ReadBytes(s, n)
          case None => None
          case Some(bs) =>
            match DecodeSequence(bs)
            case None => None
            case Some(c) =>
              match Decode(s[3 * n..])
              case None => None
              case Some(rest) => Some([c] + rest)
  }

  // ---------------------------------------------------------------------------
  // Round trip

  lemma {:induction false} ReadPercentBytes(bs: seq<Byte>, rest: string)
    ensures ReadBytes(PercentBytes(bs) + rest, |bs|) == Some(bs)
    decreases |bs|
  {
    if |bs| > 0 {
      var tail := PercentBytes(bs[1..]) + rest;
      ReadPercentBytes(bs[1..], rest);
      ByteAtPercent(bs[0], tail);
      ReadCons(PercentByte(bs[0]), tail, |bs|, bs[0], bs[1..]);
      PercentShape(bs, rest);
      ConsTail(bs);
    }
  }

  lemma PercentShape(bs: seq<Byte>, rest: string)
    requires |bs| > 0
    ensures PercentBytes(bs) + rest == PercentByte(bs[0]) + (PercentBytes(bs[1..]) + rest)
  {
    Associate(PercentByte(bs[0]), PercentBytes(bs[1..]), rest);
  }

  lemma Associate(a: string, b: string, c: string)
    ensures (a + b) + c == a + (b + c)
  {
  }

  lemma ConsTail(bs: seq<Byte>)
    requires |bs| > 0
    ensures [bs[0]] + bs[1..] == bs
  {
  }

  lemma ByteAtPercent(b: Byte, rest: string)
    ensures ByteAt(PercentByte(b) + rest, 0) == Some(b)
  {
    var s := PercentByte(b) + rest;
    HexRoundTrip(b / 16);
    HexRoundTrip(b % 16);
    assert s[1] == HexDigits[b / 16] && s[2] == HexDigits[b % 16];
  }

  lemma ReadCons(p: string, tail: string, n: nat, b: Byte, t: seq<Byte>)
    requires |p| == 3 && n > 0
    requires ByteAt(p + tail, 0) == Some(b) && ReadBytes(tail, n - 1) == Some(t)
    ensures ReadBytes(p + tail, n) == Some([b] + t)
  {
    assert (p + tail)[3..] == tail;
  }

  lemma Utf8TwoBytes(c: char)
    requires 0x80 <= c as int < 0x800
    ensures SequenceLength(Utf8(c)[0]) == 2
    ensures DecodeSequence(Utf8(c)) == Some(c)
  {
    var v := c as int;
    var bs := Utf8(c);
    assert bs == [0xC0 + v / 64, 0x80 + v % 64];
    assert (bs[0] as int - 0xC0) * 64 + (bs[1] as int - 0x80) == v;
  }

  lemma Utf8ThreeBytes(c: char)
    requires 0x800 <= c as int < 0x10000
    ensures SequenceLength(Utf8(c)[0]) == 3
    ensures DecodeSequence(Utf8(c)) == Some(c)
  {
    var v := c as int;
    var bs := Utf8(c);
    var hi, mid := v / 4096, v % 4096;
    assert v == 4096 * hi + mid;
    assert mid == 64 * (mid / 64) + mid % 64;
    assert bs == [0xE0 + hi, 0x80 + mid / 64, 0x80 + mid % 64];
    assert (bs[0] as int - 0xE0) * 4096 + (bs[1] as int - 0x80) * 64 + (bs[2] as int - 0x80) == v;
  }

  lemma Utf8FourBytes(c: char)
    requires 0x10000 <= c as int
    ensures SequenceLength(Utf8(c)[0]) == 4
    ensures DecodeSequence(Utf8(c)) == Some(c)
  {
    var v := c as int;
    var bs := Utf8(c);
    var hi, low := v / 262144, v % 262144;
    var mid := low % 4096;
    assert v == 262144 * hi + low;
    assert low == 4096 * (low / 4096) + mid;
    assert mid == 64 * (mid / 64) + mid % 64;
    assert hi <= 4;
    assert bs == [0xF0 + hi, 0x80 + low / 4096, 0x80 + mid / 64, 0x80 + mid % 64];
    assert (bs[0] as int - 0xF0) * 262144 + (bs[1] as int - 0x80) * 4096 + (bs[2] as int - 0x80) * 64 + (bs[3] as int - 0x80) == v;
  }

  /** Decoding the UTF-8 bytes of a character gives the character back, and the lead
      byte announces the right length. */
  lemma Utf8RoundTrip(c: char)
    ensures SequenceLength(Utf8(c)[0]) == |Utf8(c)|
    ensures DecodeSequence(Utf8(c)) == Some(c)
  {
    var v := c as int;
    if v < 0x80 {
    } else if v < 0x800 {
      Utf8TwoBytes(c);
    } else if v < 0x10000 {
      Utf8ThreeBytes(c);
    } else {
      Utf8FourBytes(c);
    }
  }

  lemma DecodeEncodedChar(c: char, rest: string)
    ensures Decode(EncodeChar(c) + rest) ==
      (match Decode(rest) case None => None case Some(r) => Some([c] + r))
  {
    var s := EncodeChar(c) + rest;
    if IsUnreserved(c) {
      assert s[0] == c && s[1..] == rest;
    } else {
      var bs := Utf8(c);
      Utf8RoundTrip(c);
      ReadPercentBytes(bs, rest);
      ReadPercentBytes([bs[0]], PercentBytes(bs[1..]) + rest);
      assert PercentBytes(bs) == PercentBytes([bs[0]]) + PercentBytes(bs[1..]);
      assert ByteAt(s, 0) == Some(bs[0]);
      assert s[3 * |bs|..] == rest;
    }
  }

  /** `decodeURIComponent(encodeURIComponent(s)) === s`. */
  lemma {:induction false} RoundTrip(s: string)
    ensures Decode(Encode(s)) == Some(s)
    decreases |s|
  {
    if |s| > 0 {
      RoundTrip(s[1..]);
      DecodeEncodedChar(s[0], Encode(s[1..]));
      assert [s[0]] + s[1..] == s;
    }
  }

  /** Different texts encode differently. */
  lemma EncodeInjective(s: string, t: string)
    requires Encode(s) == Encode(t)
    ensures s == t
  {
    RoundTrip(s);
    RoundTrip(t);
  }
}
