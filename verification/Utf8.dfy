/** Strict UTF-8 (section 3 of RFC 3629) over strings of Unicode scalar values,
    as `str.encode("utf-8")` and `bytes.decode("utf-8")` compute it. */
module Utf8 {
  import opened Prelude

  type byte = b: int | 0 <= b < 256

  function Tail(n: nat): byte {
    0x80 + n % 0x40
  }

  function High(n: nat): nat {
    n / 0x40
  }

  function EncodeChar(c: char): seq<byte> {
    var n := c as int;
    if n < 0x80 then [n]
    else if n < 0x800 then [0xC0 + High(n), Tail(n)]
    else if n < 0x10000 then [0xE0 + High(High(n)), Tail(High(n)), Tail(n)]
    else [0xF0 + High(High(High(n))), Tail(High(High(n))), Tail(High(n)), Tail(n)]
  }

  function Encode(s: string): seq<byte> {
    if s == [] then [] else EncodeChar(s[0]) + Encode(s[1..])
  }

  predicate IsTail(b: byte) {
    0x80 <= b < 0xC0
  }

  /** The payload bits of bs[i], whose marker bits are those of `marker`. */
  function Low(bs: seq<byte>, i: nat, marker: nat): nat
    requires i < |bs| && marker <= bs[i]
  {
    bs[i] as int - marker
  }

  /** The code point that opens bs and the number of bytes it takes; overlong forms,
      surrogates and values above 0x10FFFF are refused. */
  function DecodePoint(bs: seq<byte>): Option<(nat, nat)> {
    if |bs| >= 1 && bs[0] < 0x80 then
      Some((bs[0], 1))
    else if |bs| >= 2 && 0xC0 <= bs[0] < 0xE0 && IsTail(bs[1]) then
      Accept(Low(bs, 0, 0xC0) * 0x40 + Low(bs, 1, 0x80), 2, 0x80)
    else if |bs| >= 3 && 0xE0 <= bs[0] < 0xF0 && IsTail(bs[1]) && IsTail(bs[2]) then
      Accept((Low(bs, 0, 0xE0) * 0x40 + Low(bs, 1, 0x80)) * 0x40 + Low(bs, 2, 0x80), 3, 0x800)
    else if |bs| >= 4 && 0xF0 <= bs[0] < 0xF8 && IsTail(bs[1]) && IsTail(bs[2]) && IsTail(bs[3]) then
      Accept(((Low(bs, 0, 0xF0) * 0x40 + Low(bs, 1, 0x80)) * 0x40 + Low(bs, 2, 0x80)) * 0x40 + Low(bs, 3, 0x80), 4, 0x10000)
    else
      None
  }

  predicate IsScalar(n: nat) {
    n < 0xD800 || 0xE000 <= n < 0x110000
  }

  function Accept(n: nat, width: nat, least: nat): Option<(nat, nat)> {
    if least <= n && IsScalar(n) then Some((n, width)) else None
  }

  function Decode(bs: seq<byte>): Option<string> {
    if bs == [] then
      Some([])
    else
      match DecodePoint(bs)
      case None => None
      case Some((n, width)) =>
        assert IsScalar(n) && 1 <= width <= |bs|;
        match Decode(bs[width..])
        case None => None
        case Some(rest) => Some([n as char] + rest)
  }

  lemma DecodePointEncodeChar(c: char, rest: seq<byte>)
    ensures DecodePoint(EncodeChar(c) + rest) == Some((c as int, |EncodeChar(c)|))
  {
  }

  lemma DigitSplit(high: nat, low: nat)
    requires low < 0x40
    ensures High(high * 0x40 + low) == high && Tail(high * 0x40 + low) == 0x80 + low
  {
  }

  lemma TwoBytesSound(bs: seq<byte>)
    requires |bs| >= 2 && 0xC0 <= bs[0] < 0xE0 && IsTail(bs[1])
    ensures var n := Low(bs, 0, 0xC0) * 0x40 + Low(bs, 1, 0x80);
            && 0 <= n < 0x800
            && bs[..2] == [0xC0 + High(n), Tail(n)]
  {
    DigitSplit(Low(bs, 0, 0xC0), Low(bs, 1, 0x80));
  }

  lemma ThreeBytesSound(bs: seq<byte>)
    requires |bs| >= 3 && 0xE0 <= bs[0] < 0xF0 && IsTail(bs[1]) && IsTail(bs[2])
    ensures var n := (Low(bs, 0, 0xE0) * 0x40 + Low(bs, 1, 0x80)) * 0x40 + Low(bs, 2, 0x80);
            && 0 <= n < 0x10000
            && bs[..3] == [0xE0 + High(High(n)), Tail(High(n)), Tail(n)]
  {
    var high := Low(bs, 0, 0xE0) * 0x40 + Low(bs, 1, 0x80);
    DigitSplit(Low(bs, 0, 0xE0), Low(bs, 1, 0x80));
    DigitSplit(high, Low(bs, 2, 0x80));
  }

  lemma FourBytesSound(bs: seq<byte>)
    requires |bs| >= 4 && 0xF0 <= bs[0] < 0xF8 && IsTail(bs[1]) && IsTail(bs[2]) && IsTail(bs[3])
    ensures var n := ((Low(bs, 0, 0xF0) * 0x40 + Low(bs, 1, 0x80)) * 0x40 + Low(bs, 2, 0x80)) * 0x40 + Low(bs, 3, 0x80);
            bs[..4] == [0xF0 + High(High(High(n))), Tail(High(High(n))), Tail(High(n)), Tail(n)]
  {
    var top := Low(bs, 0, 0xF0) * 0x40 + Low(bs, 1, 0x80);
    var high := top * 0x40 + Low(bs, 2, 0x80);
    DigitSplit(Low(bs, 0, 0xF0), Low(bs, 1, 0x80));
    DigitSplit(top, Low(bs, 2, 0x80));
    DigitSplit(high, Low(bs, 3, 0x80));
  }

  /** Only shortest forms of scalar values are accepted. */
  lemma DecodePointSound(bs: seq<byte>)
    requires DecodePoint(bs).Some?
    ensures var (n, width) := DecodePoint(bs).value;
            IsScalar(n) && 1 <= width <= |bs| && bs[..width] == EncodeChar(n as char)
  {
    if bs[0] < 0x80 {
    } else if bs[0] < 0xE0 {
      TwoBytesSound(bs);
    } else if bs[0] < 0xF0 {
      ThreeBytesSound(bs);
    } else {
      FourBytesSound(bs);
    }
  }

  lemma {:induction false} DecodeEncode(s: string)
    ensures Decode(Encode(s)) == Some(s)
  {
    if s != [] {
      var head, rest := EncodeChar(s[0]), Encode(s[1..]);
      DecodePointEncodeChar(s[0], rest);
      assert (head + rest)[|head|..] == rest;
      DecodeEncode(s[1..]);
      assert Encode(s) == head + rest;
      assert [s[0] as int as char] + s[1..] == s;
    }
  }

  /** The decoder accepts exactly the encodings. */
  lemma {:induction false} DecodeExact(bs: seq<byte>, s: string)
    ensures Decode(bs) == Some(s) <==> bs == Encode(s)
  {
    DecodeEncode(s);
    if Decode(bs) == Some(s) && bs != [] {
      DecodePointSound(bs);
      var (n, width) := DecodePoint(bs).value;
      DecodeExact(bs[width..], s[1..]);
      assert bs == bs[..width] + bs[width..];
    }
  }

  /** Examples of section 7 of RFC 3629: one, two, three and four bytes. */
  lemma Examples()
    ensures EncodeChar('A') == [0x41] && EncodeChar('\U{0391}') == [0xCE, 0x91]
    ensures EncodeChar('\U{2262}') == [0xE2, 0x89, 0xA2] && EncodeChar('\U{233B4}') == [0xF0, 0xA3, 0x8E, 0xB4]
  {
  }
}
