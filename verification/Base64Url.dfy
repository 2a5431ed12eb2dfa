/** Padded base64url (section 5 of RFC 4648) as `base64.urlsafe_b64encode` writes it, and
    the lenient reader behind `base64.urlsafe_b64decode`: it skips foreign characters, also
    takes '+' and '/', and stops at the padding that completes a group. */
module Base64Url {
  import opened Prelude
  import opened Utf8

  function Digit(v: nat): char
    requires v < 64
  {
    if v < 26 then 'A' + v as char
    else if v < 52 then 'a' + (v - 26) as char
    else if v < 62 then '0' + (v - 52) as char
    else if v == 62 then '-'
    else '_'
  }

  function DigitValue(c: char): Option<nat> {
    if 'A' <= c <= 'Z' then Some((c - 'A') as nat)
    else if 'a' <= c <= 'z' then Some((c - 'a') as nat + 26)
    else if '0' <= c <= '9' then Some((c - '0') as nat + 52)
    else if c == '-' || c == '+' then Some(62)
    else if c == '_' || c == '/' then Some(63)
    else None
  }

  function Encode(bs: seq<byte>): string {
    if bs == [] then
      []
    else if |bs| == 1 then
      [Digit(bs[0] / 4), Digit(bs[0] % 4 * 16), '=', '=']
    else if |bs| == 2 then
      [Digit(bs[0] / 4), Digit(bs[0] % 4 * 16 + bs[1] / 16), Digit(bs[1] % 16 * 4), '=']
    else
      [Digit(bs[0] / 4), Digit(bs[0] % 4 * 16 + bs[1] / 16), Digit(bs[1] % 16 * 4 + bs[2] / 64), Digit(bs[2] % 64)]
      + Encode(bs[3..])
  }

  /** What a partly read group of four digits holds: how many digits were read, and the bits
      of the last one that no byte has taken yet. */
  datatype Group = Group(digits: nat, left: nat, pads: nat) {
    predicate Valid() {
      || digits == left == 0
      || (digits == 1 && left < 64)
      || (digits == 2 && left < 16)
      || (digits == 3 && left < 4)
    }
  }

  const EMPTY_GROUP := Group(0, 0, 0)

  /** One more digit: the byte it completes, if any, and the group that remains. */
  function Push(g: Group, v: nat): (seq<byte>, Group)
    requires g.Valid() && v < 64
    ensures Push(g, v).1.Valid()
  {
    match g.digits
    case 0 => ([], Group(1, v, 0))
    case 1 => ([g.left * 4 + v / 16], Group(2, v % 16, 0))
    case 2 => ([g.left * 16 + v / 4], Group(3, v % 4, 0))
    case _ => ([g.left * 64 + v], EMPTY_GROUP)
  }

  function Scan(s: string, g: Group): Option<seq<byte>>
    requires g.Valid()
    decreases |s|
  {
    if s == [] then
      if g.digits == 0 then Some([]) else None
    else if s[0] == '=' then
      if g.digits < 2 then Scan(s[1..], g)
      else if g.digits + g.pads + 1 >= 4 then Some([])
      else Scan(s[1..], g.(pads := g.pads + 1))
    else
      match DigitValue(s[0])
      case None => Scan(s[1..], g)
      case Some(v) =>
        var (bytes, g') := Push(g, v);
        match Scan(s[1..], g')
        case None => None
        case Some(rest) => Some(bytes + rest)
  }

  function Decode(s: string): Option<seq<byte>> {
    Scan(s, EMPTY_GROUP)
  }

  /** A foreign character in front is skipped. */
  lemma DecodeForeign(c: char, s: string)
    requires DigitValue(c).None? && c != '='
    ensures Decode([c] + s) == Decode(s)
  {
    assert ([c] + s)[1..] == s;
  }

  lemma DigitValueDigit(v: nat)
    requires v < 64
    ensures DigitValue(Digit(v)) == Some(v) && Digit(v) != '=' && Digit(v) < 128 as char
  {
  }

  function Prefixed(bytes: seq<byte>, rest: Option<seq<byte>>): Option<seq<byte>> {
    match rest
    case None => None
    case Some(more) => Some(bytes + more)
  }

  lemma PrefixedTwice(a: seq<byte>, b: seq<byte>, rest: Option<seq<byte>>)
    ensures Prefixed(a, Prefixed(b, rest)) == Prefixed(a + b, rest)
  {
    if rest.Some? {
      assert a + (b + rest.value) == a + b + rest.value;
    }
  }

  lemma Prepend<T>(front: seq<T>, x: T, rest: seq<T>)
    ensures front + ([x] + rest) == front + [x] + rest
  {
  }

  /** Scanning a digit that Encode wrote, in front of a text. */
  lemma ScanDigit(v: nat, s: string, g: Group)
    requires g.Valid() && v < 64
    ensures Scan([Digit(v)] + s, g) == Prefixed(Push(g, v).0, Scan(s, Push(g, v).1))
  {
    DigitValueDigit(v);
    assert ([Digit(v)] + s)[1..] == s;
  }

  /** Reading v in group g completes these bytes and leaves group next. */
  predicate Pushes(g: Group, v: nat, bytes: seq<byte>, next: Group) {
    g.Valid() && v < 64 && Push(g, v) == (bytes, next)
  }

  lemma ScanPushed(v: nat, s: string, g: Group, bytes: seq<byte>, next: Group)
    requires Pushes(g, v, bytes, next)
    ensures Scan([Digit(v)] + s, g) == Prefixed(bytes, Scan(s, next))
  {
    ScanDigit(v, s, g);
  }

  /** Two digits in a row: the first of a group, and the byte they complete. */
  lemma ScanPair(v0: nat, v1: nat, g1: Group, b0: byte, g2: Group, s: string)
    requires Pushes(EMPTY_GROUP, v0, [], g1) && Pushes(g1, v1, [b0], g2)
    ensures Scan([Digit(v0), Digit(v1)] + s, EMPTY_GROUP) == Prefixed([b0], Scan(s, g2))
  {
    ScanPushed(v1, s, g1, [b0], g2);
    ScanPushed(v0, [Digit(v1)] + s, EMPTY_GROUP, [], g1);
    PrefixedTwice([], [b0], Scan(s, g2));
    Prepend([Digit(v0)], Digit(v1), s);
    assert [Digit(v0)] + [Digit(v1)] == [Digit(v0), Digit(v1)] && [] + [b0] == [b0];
  }

  lemma ScanTriple(v0: nat, v1: nat, v2: nat, g1: Group, b0: byte, g2: Group, b1: byte, g3: Group, s: string)
    requires Pushes(EMPTY_GROUP, v0, [], g1) && Pushes(g1, v1, [b0], g2) && Pushes(g2, v2, [b1], g3)
    ensures Scan([Digit(v0), Digit(v1), Digit(v2)] + s, EMPTY_GROUP) == Prefixed([b0, b1], Scan(s, g3))
  {
    var front := [Digit(v0), Digit(v1)];
    ScanPushed(v2, s, g2, [b1], g3);
    ScanPair(v0, v1, g1, b0, g2, [Digit(v2)] + s);
    PrefixedTwice([b0], [b1], Scan(s, g3));
    Prepend(front, Digit(v2), s);
    assert front + [Digit(v2)] == [Digit(v0), Digit(v1), Digit(v2)] && [b0] + [b1] == [b0, b1];
  }

  lemma ScanQuad(v0: nat, v1: nat, v2: nat, v3: nat, g1: Group, b0: byte, g2: Group, b1: byte, g3: Group, b2: byte, s: string)
    requires Pushes(EMPTY_GROUP, v0, [], g1) && Pushes(g1, v1, [b0], g2) && Pushes(g2, v2, [b1], g3)
    requires Pushes(g3, v3, [b2], EMPTY_GROUP)
    ensures Decode([Digit(v0), Digit(v1), Digit(v2), Digit(v3)] + s) == Prefixed([b0, b1, b2], Decode(s))
  {
    var front := [Digit(v0), Digit(v1), Digit(v2)];
    ScanPushed(v3, s, g3, [b2], EMPTY_GROUP);
    ScanTriple(v0, v1, v2, g1, b0, g2, b1, g3, [Digit(v3)] + s);
    PrefixedTwice([b0, b1], [b2], Decode(s));
    Prepend(front, Digit(v3), s);
    assert front + [Digit(v3)] == [Digit(v0), Digit(v1), Digit(v2), Digit(v3)] && [b0, b1] + [b2] == [b0, b1, b2];
  }

  /** The digits of three bytes give back the bytes. */
  lemma Regroup(b0: byte, b1: byte, b2: byte)
    ensures b0 / 4 * 4 + (b0 % 4 * 16 + b1 / 16) / 16 == b0
    ensures (b0 % 4 * 16 + b1 / 16) % 16 * 16 + (b1 % 16 * 4 + b2 / 64) / 4 == b1
    ensures (b1 % 16 * 4 + b2 / 64) % 4 * 64 + b2 % 64 == b2
  {
  }

  lemma PushBytes(b0: byte, b1: byte, b2: byte)
    ensures Pushes(EMPTY_GROUP, b0 / 4, [], Group(1, b0 / 4, 0))
    ensures Pushes(Group(1, b0 / 4, 0), b0 % 4 * 16 + b1 / 16, [b0], Group(2, b1 / 16, 0))
    ensures Pushes(Group(2, b1 / 16, 0), b1 % 16 * 4 + b2 / 64, [b1], Group(3, b2 / 64, 0))
    ensures Pushes(Group(3, b2 / 64, 0), b2 % 64, [b2], EMPTY_GROUP)
  {
    Regroup(b0, b1, b2);
  }

  /** What follows a last group of one byte, and of two. */
  lemma ScanPadding()
    ensures Scan("==", Group(2, 0, 0)) == Some([]) && Scan("=", Group(3, 0, 0)) == Some([])
  {
    assert "=="[1..] == "=";
  }

  lemma EncodeOne(b0: byte)
    ensures Encode([b0]) == [Digit(b0 / 4), Digit(b0 % 4 * 16)] + "=="
  {
  }

  lemma PushOne(b0: byte)
    ensures Pushes(EMPTY_GROUP, b0 / 4, [], Group(1, b0 / 4, 0))
    ensures Pushes(Group(1, b0 / 4, 0), b0 % 4 * 16, [b0], Group(2, 0, 0))
  {
  }

  lemma DecodeOne(b0: byte)
    ensures Decode(Encode([b0])) == Some([b0])
  {
    PushOne(b0);
    ScanPadding();
    ScanPair(b0 / 4, b0 % 4 * 16, Group(1, b0 / 4, 0), b0, Group(2, 0, 0), "==");
    EncodeOne(b0);
    assert [b0] + [] == [b0];
  }

  lemma EncodeTwo(b0: byte, b1: byte)
    ensures Encode([b0, b1]) == [Digit(b0 / 4), Digit(b0 % 4 * 16 + b1 / 16), Digit(b1 % 16 * 4)] + "="
  {
  }

  lemma PushTwo(b0: byte, b1: byte)
    ensures Pushes(EMPTY_GROUP, b0 / 4, [], Group(1, b0 / 4, 0))
    ensures Pushes(Group(1, b0 / 4, 0), b0 % 4 * 16 + b1 / 16, [b0], Group(2, b1 / 16, 0))
    ensures Pushes(Group(2, b1 / 16, 0), b1 % 16 * 4, [b1], Group(3, 0, 0))
  {
    PushBytes(b0, b1, 0);
  }

  lemma DecodeTwo(b0: byte, b1: byte)
    ensures Decode(Encode([b0, b1])) == Some([b0, b1])
  {
    PushTwo(b0, b1);
    ScanPadding();
    ScanTriple(b0 / 4, b0 % 4 * 16 + b1 / 16, b1 % 16 * 4, Group(1, b0 / 4, 0), b0, Group(2, b1 / 16, 0), b1, Group(3, 0, 0), "=");
    EncodeTwo(b0, b1);
    assert [b0, b1] + [] == [b0, b1];
  }

  /** A group of three in front of more. */
  lemma DecodeThree(b0: byte, b1: byte, b2: byte, bs: seq<byte>)
    requires Decode(Encode(bs)) == Some(bs)
    ensures Decode(Encode([b0, b1, b2] + bs)) == Some([b0, b1, b2] + bs)
  {
    PushBytes(b0, b1, b2);
    ScanQuad(b0 / 4, b0 % 4 * 16 + b1 / 16, b1 % 16 * 4 + b2 / 64, b2 % 64,
             Group(1, b0 / 4, 0), b0, Group(2, b1 / 16, 0), b1, Group(3, b2 / 64, 0), b2, Encode(bs));
    EncodeThree(b0, b1, b2, bs);
  }

  lemma EncodeThree(b0: byte, b1: byte, b2: byte, bs: seq<byte>)
    ensures Encode([b0, b1, b2] + bs)
         == [Digit(b0 / 4), Digit(b0 % 4 * 16 + b1 / 16), Digit(b1 % 16 * 4 + b2 / 64), Digit(b2 % 64)] + Encode(bs)
  {
    assert ([b0, b1, b2] + bs)[3..] == bs;
  }

  lemma {:induction false} DecodeEncode(bs: seq<byte>)
    ensures Decode(Encode(bs)) == Some(bs)
  {
    if |bs| == 1 {
      DecodeOne(bs[0]);
      assert bs == [bs[0]];
    } else if |bs| == 2 {
      DecodeTwo(bs[0], bs[1]);
      assert bs == [bs[0], bs[1]];
    } else if |bs| >= 3 {
      DecodeEncode(bs[3..]);
      DecodeThree(bs[0], bs[1], bs[2], bs[3..]);
      assert bs == [bs[0], bs[1], bs[2]] + bs[3..];
    }
  }

  predicate Ascii(s: string) {
    forall i :: 0 <= i < |s| ==> s[i] < 128 as char
  }

  lemma AsciiAppend(s: string, t: string)
    requires Ascii(s) && Ascii(t)
    ensures Ascii(s + t)
  {
  }

  /** How many groups of three it takes for n bytes. */
  function Groups(n: nat): nat {
    (n + 2) / 3
  }

  lemma OneGroupMore(n: nat)
    ensures Groups(n + 3) == Groups(n) + 1 && Groups(0) == 0 && Groups(1) == 1 && Groups(2) == 1
  {
  }

  lemma {:induction false} EncodeLength(bs: seq<byte>)
    ensures |Encode(bs)| == 4 * Groups(|bs|)
  {
    OneGroupMore(if |bs| >= 3 then |bs| - 3 else 0);
    if |bs| >= 3 {
      EncodeLength(bs[3..]);
      assert |Encode(bs)| == 4 + |Encode(bs[3..])|;
    }
  }

  lemma {:induction false} EncodeAscii(bs: seq<byte>)
    ensures Ascii(Encode(bs))
  {
    if |bs| >= 3 {
      EncodeAscii(bs[3..]);
      AsciiAppend([Digit(bs[0] / 4), Digit(bs[0] % 4 * 16 + bs[1] / 16), Digit(bs[1] % 16 * 4 + bs[2] / 64), Digit(bs[2] % 64)],
                  Encode(bs[3..]));
    }
  }

  /** The text is ASCII, and pads the bytes to whole groups of three. */
  lemma EncodeShape(bs: seq<byte>)
    ensures |Encode(bs)| == 4 * Groups(|bs|)
    ensures Ascii(Encode(bs))
  {
    EncodeLength(bs);
    EncodeAscii(bs);
  }

  /** Examples of section 10 of RFC 4648 for one and two bytes, and the two digits in which
      base64url differs. */
  lemma ShortExamples(f: byte, o: byte, a: byte, b: byte)
    requires f == 0x66 && o == 0x6F && a == 0xFB && b == 0xFF
    ensures Encode([f]) == "Zg==" && Encode([f, o]) == "Zm8=" && Encode([a, b]) == "-_8="
  {
    EncodeOne(f);
    EncodeTwo(f, o);
    EncodeTwo(a, b);
  }

  /** And for a whole group in front of more. */
  lemma GroupExample(f: byte, o: byte, bs: seq<byte>)
    requires f == 0x66 && o == 0x6F
    ensures Encode([f, o, o] + bs) == "Zm9v" + Encode(bs)
  {
    EncodeThree(f, o, o, bs);
  }
}
