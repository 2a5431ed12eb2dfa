/** The canonical text that `hash_request` (app/services/idempotency.py) hashes: JSON with
    sorted keys, no spaces, and everything outside printable ASCII escaped (sections 4 and 7
    of RFC 8259). A dict is the list of its members in insertion order. */
module CanonicalJson {
  import opened Prelude

  datatype Json = Null | Str(text: string) | Obj(members: Members)

  datatype Members = Nil | Cons(key: string, value: Json, rest: Members)

  // ----- Dicts -----

  function Size(j: Json): nat {
    if j.Obj? then 1 + MembersSize(j.members) else 1
  }

  function MembersSize(ms: Members): nat {
    if ms.Nil? then 0 else 1 + Size(ms.value) + MembersSize(ms.rest)
  }

  function Find(ms: Members, key: string): (r: Option<Json>)
    ensures r.Some? ==> Size(r.value) < MembersSize(ms)
  {
    if ms.Nil? then None
    else if ms.key == key then Some(ms.value)
    else Find(ms.rest, key)
  }

  /** The keys of every dict are distinct. */
  predicate Valid(j: Json) {
    j.Obj? ==> ValidMembers(j.members)
  }

  predicate ValidMembers(ms: Members) {
    ms.Cons? ==> Find(ms.rest, ms.key).None? && Valid(ms.value) && ValidMembers(ms.rest)
  }

  /** Equality of Python values: dicts are equal when they map the same keys to equal
      values, whatever the order of insertion. */
  ghost predicate Same(a: Json, b: Json)
    decreases Size(a)
  {
    if a.Obj? && b.Obj? then
      forall key :: SameAt(a, b, key)
    else
      a == b
  }

  ghost predicate SameAt(a: Json, b: Json, key: string)
    requires a.Obj? && b.Obj?
    decreases Size(a), 0
  {
    match (Find(a.members, key), Find(b.members, key))
    case (Some(v), Some(w)) => Size(v) < Size(a) && Same(v, w)
    case (None, None) => true
    case _ => false
  }

  /** Equal dicts that list one key first have equal values there, and equal remainders. */
  lemma SameHead(key: string, v: Json, a: Members, w: Json, b: Members)
    requires Find(a, key).None? && Find(b, key).None?
    requires Same(Obj(Cons(key, v, a)), Obj(Cons(key, w, b)))
    ensures Same(v, w) && Same(Obj(a), Obj(b))
  {
    assert SameAt(Obj(Cons(key, v, a)), Obj(Cons(key, w, b)), key);
    forall k
      ensures SameAt(Obj(a), Obj(b), k)
    {
      assert SameAt(Obj(Cons(key, v, a)), Obj(Cons(key, w, b)), k);
    }
  }

  /** The dict that lists these keys with these values. */
  function Zip(keys: seq<string>, values: seq<Json>): Members
    requires |keys| == |values|
  {
    if keys == [] then Nil else Cons(keys[0], values[0], Zip(keys[1..], values[1..]))
  }

  ghost predicate Distinct(keys: seq<string>) {
    forall i, j :: 0 <= i < j < |keys| ==> keys[i] != keys[j]
  }

  lemma {:induction false} ZipFind(keys: seq<string>, values: seq<Json>, key: string)
    requires |keys| == |values| && key !in keys
    ensures Find(Zip(keys, values), key).None?
  {
    if keys != [] {
      ZipFind(keys[1..], values[1..], key);
    }
  }

  /** Each key is listed with its value. */
  lemma {:induction false} ZipFinds(keys: seq<string>, values: seq<Json>, i: nat)
    requires i < |keys| == |values| && Distinct(keys)
    ensures Find(Zip(keys, values), keys[i]) == Some(values[i])
  {
    if i > 0 {
      ZipFinds(keys[1..], values[1..], i - 1);
    }
  }

  lemma {:induction false} ZipValid(keys: seq<string>, values: seq<Json>)
    requires |keys| == |values| && Distinct(keys)
    requires forall i :: 0 <= i < |values| ==> Valid(values[i])
    ensures ValidMembers(Zip(keys, values))
  {
    if keys != [] {
      ZipValid(keys[1..], values[1..]);
      assert keys[0] !in keys[1..];
      ZipFind(keys[1..], values[1..], keys[0]);
    }
  }

  /** Equal dicts over the same keys have equal values. */
  lemma {:induction false} ZipSame(keys: seq<string>, v: seq<Json>, w: seq<Json>)
    requires |keys| == |v| == |w| && Distinct(keys)
    requires Same(Obj(Zip(keys, v)), Obj(Zip(keys, w)))
    ensures forall i :: 0 <= i < |keys| ==> Same(v[i], w[i])
  {
    if keys != [] {
      assert keys[0] !in keys[1..];
      ZipFind(keys[1..], v[1..], keys[0]);
      ZipFind(keys[1..], w[1..], keys[0]);
      SameHead(keys[0], v[0], Zip(keys[1..], v[1..]), w[0], Zip(keys[1..], w[1..]));
      ZipSame(keys[1..], v[1..], w[1..]);
      assert forall i :: 1 <= i < |keys| ==> v[i] == v[1..][i - 1] && w[i] == w[1..][i - 1];
    }
  }

  // ----- Sorting -----

  /** Code point order, as Python compares str. */
  predicate Less(a: string, b: string) {
    b != [] && (a == [] || a[0] < b[0] || (a[0] == b[0] && Less(a[1..], b[1..])))
  }

  lemma {:induction false} LessTotal(a: string, b: string)
    ensures a == b || Less(a, b) || Less(b, a)
    ensures !(Less(a, b) && Less(b, a)) && !Less(a, a)
  {
    if a != [] {
      LessTotal(a[1..], a[1..]);
      if b != [] && a[0] == b[0] {
        LessTotal(a[1..], b[1..]);
        assert a == [a[0]] + a[1..] && b == [b[0]] + b[1..];
      }
    }
  }

  lemma {:induction false} LessTransitive(a: string, b: string, c: string)
    requires Less(a, b) && Less(b, c)
    ensures Less(a, c)
  {
    if a != [] && a[0] == b[0] == c[0] {
      LessTransitive(a[1..], b[1..], c[1..]);
    }
  }

  function Insert(key: string, value: Json, ms: Members): Members {
    if ms.Nil? || Less(key, ms.key) then Cons(key, value, ms)
    else Cons(ms.key, ms.value, Insert(key, value, ms.rest))
  }

  /** The value with every dict listed in key order. */
  function Norm(j: Json): Json {
    if j.Obj? then Obj(NormMembers(j.members)) else j
  }

  function NormMembers(ms: Members): Members {
    if ms.Nil? then Nil else Insert(ms.key, Norm(ms.value), NormMembers(ms.rest))
  }

  /** Every key of ms comes after `low`. */
  predicate Above(low: string, ms: Members) {
    ms.Cons? ==> Less(low, ms.key) && Above(low, ms.rest)
  }

  predicate Sorted(ms: Members) {
    ms.Cons? ==> Above(ms.key, ms.rest) && Sorted(ms.rest)
  }

  lemma {:induction false} AboveTransitive(low: string, mid: string, ms: Members)
    requires Less(low, mid) && Above(mid, ms)
    ensures Above(low, ms)
  {
    if ms.Cons? {
      LessTransitive(low, mid, ms.key);
      AboveTransitive(low, mid, ms.rest);
    }
  }

  lemma {:induction false} AboveFind(low: string, ms: Members)
    requires Above(low, ms)
    ensures Find(ms, low).None?
  {
    if ms.Cons? {
      LessTotal(low, ms.key);
      AboveFind(low, ms.rest);
    }
  }

  lemma {:induction false} InsertAbove(low: string, key: string, value: Json, ms: Members)
    requires Less(low, key) && Above(low, ms)
    ensures Above(low, Insert(key, value, ms))
  {
    if ms.Cons? && !Less(key, ms.key) {
      InsertAbove(low, key, value, ms.rest);
    }
  }

  lemma {:induction false} InsertSorts(key: string, value: Json, ms: Members, other: string)
    requires Sorted(ms) && Find(ms, key).None?
    ensures Sorted(Insert(key, value, ms))
    ensures Find(Insert(key, value, ms), other) == if other == key then Some(value) else Find(ms, other)
  {
    if ms.Cons? {
      if Less(key, ms.key) {
        AboveTransitive(key, ms.key, ms.rest);
      } else {
        LessTotal(key, ms.key);
        InsertSorts(key, value, ms.rest, other);
        InsertAbove(ms.key, key, value, ms.rest);
      }
    }
  }

  function NormOption(v: Option<Json>): Option<Json> {
    match v
    case None => None
    case Some(j) => Some(Norm(j))
  }

  /** Sorting keeps what every key maps to. */
  lemma {:induction false} NormFind(ms: Members, key: string)
    requires ValidMembers(ms)
    ensures Sorted(NormMembers(ms))
    ensures Find(NormMembers(ms), key) == NormOption(Find(ms, key))
  {
    if ms.Cons? {
      NormFind(ms.rest, ms.key);
      NormFind(ms.rest, key);
      InsertSorts(ms.key, Norm(ms.value), NormMembers(ms.rest), key);
    }
  }

  /** A dict in key order is determined by what its keys map to. */
  lemma {:induction false} SortedUnique(a: Members, b: Members)
    requires Sorted(a) && Sorted(b)
    requires forall key :: Find(a, key) == Find(b, key)
    ensures a == b
  {
    assert a.Cons? ==> Find(a, a.key).Some?;
    assert b.Cons? ==> Find(b, b.key).Some?;
    if a.Cons? && b.Cons? {
      assert Find(a, a.key) == Find(b, a.key) && Find(a, b.key) == Find(b, b.key);
      LessTotal(a.key, b.key);
      if Less(a.key, b.key) {
        AboveTransitive(a.key, b.key, b.rest);
        AboveFind(a.key, b.rest);
      } else if Less(b.key, a.key) {
        AboveTransitive(b.key, a.key, a.rest);
        AboveFind(b.key, a.rest);
      }
      forall key
        ensures Find(a.rest, key) == Find(b.rest, key)
      {
        assert Find(a, key) == Find(b, key);
        AboveFind(a.key, a.rest);
        AboveFind(b.key, b.rest);
      }
      SortedUnique(a.rest, b.rest);
    }
  }

  lemma {:induction false} FindValid(ms: Members, key: string)
    requires ValidMembers(ms) && Find(ms, key).Some?
    ensures Valid(Find(ms, key).value)
  {
    if ms.key != key {
      FindValid(ms.rest, key);
    }
  }

  /** Two values have one normal form exactly when they are equal as Python values. */
  lemma {:induction false} NormSame(a: Json, b: Json)
    requires Valid(a) && Valid(b)
    ensures Norm(a) == Norm(b) <==> Same(a, b)
    decreases Size(a)
  {
    if a.Obj? && b.Obj? {
      forall key
        ensures SameAt(a, b, key) <==> Find(NormMembers(a.members), key) == Find(NormMembers(b.members), key)
      {
        NormFind(a.members, key);
        NormFind(b.members, key);
        var v, w := Find(a.members, key), Find(b.members, key);
        if v.Some? && w.Some? {
          FindValid(a.members, key);
          FindValid(b.members, key);
          NormSame(v.value, w.value);
        }
      }
      if Same(a, b) {
        NormFind(a.members, "");
        NormFind(b.members, "");
        SortedUnique(NormMembers(a.members), NormMembers(b.members));
      }
    }
  }

  // ----- The printer -----

  function HexDigit(v: nat): char
    requires v < 16
  {
    if v < 10 then '0' + v as char else 'a' + (v - 10) as char
  }

  function Hex4(n: nat): string
    requires n < 0x10000
  {
    [HexDigit(n / 0x10 / 0x10 / 0x10), HexDigit(n / 0x10 / 0x10 % 0x10), HexDigit(n / 0x10 % 0x10), HexDigit(n % 0x10)]
  }

  function Unicode(n: nat): string
    requires n < 0x10000
  {
    "\\u" + Hex4(n)
  }

  const FORM_FEED := '\U{0C}'
  const BACKSPACE := '\U{08}'

  /** The letter of a two-character escape. */
  function Letter(c: char): Option<char> {
    if c == '"' || c == '\\' then Some(c)
    else if c == '\n' then Some('n')
    else if c == '\r' then Some('r')
    else if c == '\t' then Some('t')
    else if c == FORM_FEED then Some('f')
    else if c == BACKSPACE then Some('b')
    else None
  }

  /** The surrogate pair of a character outside the Basic Multilingual Plane. */
  function HighUnit(c: char): (n: nat)
    requires c as int >= 0x10000
    ensures 0xD800 <= n < 0xDC00
  {
    0xD800 + (c as int - 0x10000) / 0x400
  }

  function LowUnit(c: char): (n: nat)
    requires c as int >= 0x10000
    ensures 0xDC00 <= n < 0xE000
  {
    0xDC00 + (c as int - 0x10000) % 0x400
  }

  function Escape(c: char): string {
    if Letter(c).Some? then ['\\', Letter(c).value]
    else if ' ' <= c <= '~' then [c]
    else if c as int < 0x10000 then Unicode(c as int)
    else Unicode(HighUnit(c)) + Unicode(LowUnit(c))
  }

  function Quoted(s: string): string {
    if s == [] then "\"" else Escape(s[0]) + Quoted(s[1..])
  }

  function Print(j: Json): string
    decreases j, 0
  {
    match j
    case Null => "null"
    case Str(s) => "\"" + Quoted(s)
    case Obj(ms) => "{" + PrintMembers(ms)
  }

  function PrintMembers(ms: Members): string
    decreases ms, 0
  {
    if ms.Nil? then "}"
    else "\"" + Quoted(ms.key) + (":" + (Print(ms.value) + PrintMore(ms.rest)))
  }

  function PrintMore(ms: Members): string
    decreases ms, 1
  {
    if ms.Nil? then "}" else "," + PrintMembers(ms)
  }

  /** `json.dumps(j, sort_keys=True, separators=(",", ":"))`. */
  function Canonical(j: Json): string {
    Print(Norm(j))
  }

  lemma SortsTwo(a: string, x: Json, b: string, y: Json)
    requires Less(a, b)
    ensures Insert(a, x, Cons(b, y, Nil)) == Insert(b, y, Cons(a, x, Nil)) == Cons(a, x, Cons(b, y, Nil))
  {
    LessTotal(a, b);
    assert Insert(b, y, Nil) == Cons(b, y, Nil);
  }

  lemma NormOne(a: string, v: Json)
    ensures NormMembers(Cons(a, v, Nil)) == Cons(a, Norm(v), Nil)
  {
    assert NormMembers(Nil) == Nil;
  }

  /** Members come in the order of their keys, in whatever order they were inserted. */
  lemma NormOfTwo(a: string, v: Json, b: string, w: Json)
    requires Less(a, b)
    ensures NormMembers(Cons(a, v, Cons(b, w, Nil))) == Cons(a, Norm(v), Cons(b, Norm(w), Nil))
    ensures NormMembers(Cons(b, w, Cons(a, v, Nil))) == Cons(a, Norm(v), Cons(b, Norm(w), Nil))
  {
    SortsTwo(a, Norm(v), b, Norm(w));
    NormOne(a, v);
    NormOne(b, w);
  }

  /** And without spaces. */
  lemma PrintOfTwo(a: string, x: Json, b: string, y: Json)
    ensures Print(Obj(Cons(a, x, Cons(b, y, Nil))))
         == "{" + ("\"" + Quoted(a) + (":" + (Print(x) + ("," + ("\"" + Quoted(b) + (":" + (Print(y) + "}")))))))
  {
    assert PrintMore(Nil) == "}";
    assert PrintMore(Cons(b, y, Nil)) == "," + PrintMembers(Cons(b, y, Nil));
  }

  /** A character outside printable ASCII is printed as its code units in hexadecimal. */
  lemma EscapeExample(n: nat, face: char)
    requires n == 0x2AE9 && face as int == 0x1F600
    ensures Unicode(n) == "\\u" + "2ae9" && Escape(n as char) == Unicode(n)
    ensures HighUnit(face) == 0xD83D && LowUnit(face) == 0xDE00
  {
  }

  // ----- A parser that undoes the printer -----

  function HexValue(c: char): Option<nat> {
    if '0' <= c <= '9' then Some((c - '0') as nat)
    else if 'a' <= c <= 'f' then Some((c - 'a') as nat + 10)
    else None
  }

  function ReadHex4(s: string): Option<nat> {
    if |s| < 4 then None
    else
      match (HexValue(s[0]), HexValue(s[1]), HexValue(s[2]), HexValue(s[3]))
      case (Some(a), Some(b), Some(c), Some(d)) => Some(((a * 0x10 + b) * 0x10 + c) * 0x10 + d)
      case _ => None
  }

  /** The code unit of a "\uXXXX" that opens s. */
  function ReadUnicode(s: string): Option<nat> {
    if |s| < 6 || s[..2] != "\\u" then None else ReadHex4(s[2..])
  }

  function Simple(c: char): Option<char> {
    if c == '"' || c == '\\' then Some(c)
    else if c == 'n' then Some('\n')
    else if c == 'r' then Some('\r')
    else if c == 't' then Some('\t')
    else if c == 'f' then Some(FORM_FEED)
    else if c == 'b' then Some(BACKSPACE)
    else None
  }

  /** The character of a surrogate pair. */
  function Combined(high: nat, low: nat): char
    requires 0xD800 <= high < 0xDC00 <= low < 0xE000
  {
    ((high - 0xD800) * 0x400 + (low - 0xDC00) + 0x10000) as char
  }

  function ReadEscaped(s: string): (r: Option<(char, string)>)
    ensures r.Some? ==> |r.value.1| < |s|
  {
    match ReadUnicode(s)
    case Some(n) =>
      if 0xD800 <= n < 0xDC00 then
        match ReadUnicode(s[6..])
        case Some(m) =>
          if 0xDC00 <= m < 0xE000 then
            Some((Combined(n, m), s[12..]))
          else None
        case None => None
      else if n < 0xD800 || 0xE000 <= n < 0x10000 then Some((n as char, s[6..]))
      else None
    case None =>
      if |s| < 2 then None
      else
        match Simple(s[1])
        case Some(c) => Some((c, s[2..]))
        case None => None
  }

  function ReadChar(s: string): (r: Option<(char, string)>)
    requires s != []
    ensures r.Some? ==> |r.value.1| < |s|
  {
    if s[0] == '\\' then ReadEscaped(s) else Some((s[0], s[1..]))
  }

  /** The rest of a string literal, up to its closing quote, and what follows it. */
  function ReadQuoted(s: string): (r: Option<(string, string)>)
    ensures r.Some? ==> |r.value.1| < |s|
    decreases |s|
  {
    if s == [] then None
    else if s[0] == '"' then Some(("", s[1..]))
    else
      match ReadChar(s)
      case None => None
      case Some((c, s')) =>
        match ReadQuoted(s')
        case None => None
        case Some((text, rest)) => Some(([c] + text, rest))
  }

  function ReadValue(s: string): (r: Option<(Json, string)>)
    ensures r.Some? ==> |r.value.1| < |s|
    decreases |s|, 1
  {
    if |s| >= 4 && s[..4] == "null" then Some((Null, s[4..]))
    else if |s| >= 1 && s[0] == '"' then
      match ReadQuoted(s[1..])
      case None => None
      case Some((text, rest)) => Some((Str(text), rest))
    else if |s| >= 1 && s[0] == '{' then
      match ReadMembers(s[1..])
      case None => None
      case Some((ms, rest)) => Some((Obj(ms), rest))
    else None
  }

  function ReadMembers(s: string): (r: Option<(Members, string)>)
    ensures r.Some? ==> |r.value.1| < |s|
    decreases |s|, 0
  {
    if s == [] then None
    else if s[0] == '}' then Some((Nil, s[1..]))
    else if s[0] != '"' then None
    else
      match ReadQuoted(s[1..])
      case None => None
      case Some((key, s1)) =>
        if s1 == [] || s1[0] != ':' then None
        else
          match ReadValue(s1[1..])
          case None => None
          case Some((value, s2)) =>
            var s3 := if s2 != [] && s2[0] == ',' then s2[1..] else s2;
            match ReadMembers(s3)
            case None => None
            case Some((ms, rest)) => Some((Cons(key, value, ms), rest))
  }

  lemma HexValueHexDigit(v: nat)
    requires v < 16
    ensures HexValue(HexDigit(v)) == Some(v)
  {
  }

  lemma ReadHexDigits(a: nat, b: nat, c: nat, d: nat, rest: string)
    requires a < 16 && b < 16 && c < 16 && d < 16
    ensures ReadHex4([HexDigit(a), HexDigit(b), HexDigit(c), HexDigit(d)] + rest)
         == Some(((a * 0x10 + b) * 0x10 + c) * 0x10 + d)
  {
    HexValueHexDigit(a);
    HexValueHexDigit(b);
    HexValueHexDigit(c);
    HexValueHexDigit(d);
  }

  lemma ReadUnicodeUndo(n: nat, rest: string)
    requires n < 0x10000
    ensures ReadUnicode(Unicode(n) + rest) == Some(n)
    ensures |Unicode(n)| == 6 && (Unicode(n) + rest)[6..] == rest
  {
    var s := Unicode(n) + rest;
    assert s[..2] == "\\u" && s[2..] == Hex4(n) + rest;
    ReadHexDigits(n / 0x10 / 0x10 / 0x10, n / 0x10 / 0x10 % 0x10, n / 0x10 % 0x10, n % 0x10, rest);
  }

  lemma ReadPrintableUndo(c: char, rest: string)
    requires c != '\\'
    ensures ReadChar([c] + rest) == Some((c, rest))
  {
    assert ([c] + rest)[1..] == rest;
  }

  lemma ReadBmpUndo(c: char, rest: string)
    requires Letter(c).None? && !(' ' <= c <= '~') && c as int < 0x10000
    ensures ReadChar(Escape(c) + rest) == Some((c, rest))
  {
    ReadUnicodeUndo(c as int, rest);
  }

  lemma ReadUnits(high: nat, low: nat, rest: string)
    requires 0xD800 <= high < 0xDC00 <= low < 0xE000
    ensures ReadChar(Unicode(high) + Unicode(low) + rest)
         == Some((Combined(high, low), rest))
  {
    var second := Unicode(low) + rest;
    var s := Unicode(high) + second;
    assert Unicode(high) + Unicode(low) + rest == s;
    ReadUnicodeUndo(high, second);
    ReadUnicodeUndo(low, rest);
    assert s[12..] == s[6..][6..];
  }

  lemma CombinedUndo(c: char)
    requires c as int >= 0x10000
    ensures Combined(HighUnit(c), LowUnit(c)) == c
  {
  }

  lemma ReadLetterUndo(c: char, rest: string)
    requires Letter(c).Some?
    ensures ReadChar(['\\', Letter(c).value] + rest) == Some((c, rest))
  {
    var e := Letter(c).value;
    assert Simple(e) == Some(c);
    var s := ['\\', e] + rest;
    assert s[2..] == rest && s[0] == '\\' && s[1] == e;
    assert ReadUnicode(s).None? by {
      if |s| >= 6 {
        assert s[..2][1] == e;
      }
    }
  }

  lemma EscapeOpens(c: char)
    ensures Escape(c) != [] && Escape(c)[0] != '"'
  {
  }

  lemma ReadAsciiUndo(c: char, rest: string)
    requires Letter(c).Some? || ' ' <= c <= '~'
    ensures ReadChar(Escape(c) + rest) == Some((c, rest))
  {
    if Letter(c).Some? {
      ReadLetterUndo(c, rest);
    } else {
      ReadPrintableUndo(c, rest);
    }
  }

  lemma ReadEscapedUndo(c: char, rest: string)
    requires Letter(c).None? && !(' ' <= c <= '~')
    ensures ReadChar(Escape(c) + rest) == Some((c, rest))
  {
    if c as int >= 0x10000 {
      ReadUnits(HighUnit(c), LowUnit(c), rest);
      CombinedUndo(c);
    } else {
      ReadBmpUndo(c, rest);
    }
  }

  /** The reader takes exactly one escaped character off the front. */
  lemma ReadCharUndo(c: char, rest: string)
    ensures Escape(c) != [] && Escape(c)[0] != '"'
    ensures ReadChar(Escape(c) + rest) == Some((c, rest))
  {
    EscapeOpens(c);
    if Letter(c).Some? || ' ' <= c <= '~' {
      ReadAsciiUndo(c, rest);
    } else {
      ReadEscapedUndo(c, rest);
    }
  }

  lemma {:induction false} ReadQuotedUndo(s: string, rest: string)
    ensures ReadQuoted(Quoted(s) + rest) == Some((s, rest))
  {
    if s != [] {
      var tail := Quoted(s[1..]) + rest;
      assert Quoted(s) + rest == Escape(s[0]) + tail;
      ReadCharUndo(s[0], tail);
      ReadQuotedUndo(s[1..], rest);
      assert [s[0]] + s[1..] == s;
    }
  }

  lemma {:induction false} ReadValueUndo(j: Json, rest: string)
    ensures ReadValue(Print(j) + rest) == Some((j, rest))
    decreases j, 1
  {
    match j
    case Null => ReadNull(rest);
    case Str(text) =>
      ReadQuotedUndo(text, rest);
      ReadPrintedStr(text, rest);
    case Obj(ms) =>
      ReadMembersUndo(ms, rest);
      ReadPrintedObj(ms, rest);
  }

  lemma ReadNull(rest: string)
    ensures ReadValue("null" + rest) == Some((Null, rest))
  {
    assert ("null" + rest)[..4] == "null" && ("null" + rest)[4..] == rest;
  }

  lemma PrintedText(text: string, ms: Members, rest: string)
    ensures Print(Str(text)) + rest == "\"" + (Quoted(text) + rest)
    ensures Print(Obj(ms)) + rest == "{" + (PrintMembers(ms) + rest)
  {
    assert "\"" + Quoted(text) + rest == "\"" + (Quoted(text) + rest);
    assert "{" + PrintMembers(ms) + rest == "{" + (PrintMembers(ms) + rest);
  }

  lemma ReadPrintedStr(text: string, rest: string)
    requires ReadQuoted(Quoted(text) + rest) == Some((text, rest))
    ensures ReadValue(Print(Str(text)) + rest) == Some((Str(text), rest))
  {
    ReadStr(Quoted(text) + rest, text, rest);
    PrintedText(text, Nil, rest);
  }

  lemma ReadPrintedObj(ms: Members, rest: string)
    requires ReadMembers(PrintMembers(ms) + rest) == Some((ms, rest))
    ensures ReadValue(Print(Obj(ms)) + rest) == Some((Obj(ms), rest))
  {
    ReadObj(PrintMembers(ms) + rest, ms, rest);
    PrintedText("", ms, rest);
  }

  lemma ReadStr(s: string, text: string, rest: string)
    requires ReadQuoted(s) == Some((text, rest))
    ensures ReadValue("\"" + s) == Some((Str(text), rest))
  {
    var t := "\"" + s;
    assert t[1..] == s;
    assert |t| >= 4 ==> t[..4][0] != "null"[0];
  }

  lemma ReadObj(s: string, ms: Members, rest: string)
    requires ReadMembers(s) == Some((ms, rest))
    ensures ReadValue("{" + s) == Some((Obj(ms), rest))
  {
    var t := "{" + s;
    assert t[1..] == s;
    assert |t| >= 4 ==> t[..4][0] != "null"[0];
  }

  /** One member, when its parts are already known to read back. */
  lemma ReadMember(s: string, key: string, s1: string, value: Json, s2: string, ms: Members, rest: string)
    requires ReadQuoted(s) == Some((key, ":" + s1))
    requires ReadValue(s1) == Some((value, s2))
    requires ReadMembers(if s2 != [] && s2[0] == ',' then s2[1..] else s2) == Some((ms, rest))
    ensures ReadMembers("\"" + s) == Some((Cons(key, value, ms), rest))
  {
    assert ("\"" + s)[1..] == s && (":" + s1)[1..] == s1;
  }

  /** After a member: a comma and the other members, or the closing brace alone. */
  lemma PrintMoreText(ms: Members, rest: string)
    ensures var s := PrintMore(ms) + rest;
            s != [] && (if s[0] == ',' then s[1..] else s) == PrintMembers(ms) + rest
  {
    if ms.Cons? {
      SkipComma(PrintMembers(ms), rest);
    }
  }

  lemma SkipComma(text: string, rest: string)
    ensures var s := "," + text + rest;
            s[0] == ',' && s[1..] == text + rest
  {
  }

  lemma Reassociate(a: string, b: string, c: string, d: string, e: string, f: string)
    ensures a + b + (c + (d + e)) + f == a + (b + (c + (d + (e + f))))
  {
  }

  lemma {:induction false} ReadMembersUndo(ms: Members, rest: string)
    ensures ReadMembers(PrintMembers(ms) + rest) == Some((ms, rest))
    decreases ms, 0
  {
    if ms.Nil? {
      assert ("}" + rest)[1..] == rest;
    } else {
      var s2 := PrintMore(ms.rest) + rest;
      var s1 := Print(ms.value) + s2;
      ReadQuotedUndo(ms.key, ":" + s1);
      ReadValueUndo(ms.value, s2);
      ReadMembersUndo(ms.rest, rest);
      PrintMoreText(ms.rest, rest);
      ReadMember(Quoted(ms.key) + (":" + s1), ms.key, s1, ms.value, s2, ms.rest, rest);
      Reassociate("\"", Quoted(ms.key), ":", Print(ms.value), PrintMore(ms.rest), rest);
    }
  }

  /** Two payloads have one canonical text exactly when they are equal as Python values. */
  lemma CanonicalInjective(a: Json, b: Json)
    requires Valid(a) && Valid(b)
    ensures Canonical(a) == Canonical(b) <==> Same(a, b)
  {
    NormSame(a, b);
    ReadValueUndo(Norm(a), "");
    ReadValueUndo(Norm(b), "");
    assert Canonical(a) + "" == Canonical(a) && Canonical(b) + "" == Canonical(b);
  }
}
