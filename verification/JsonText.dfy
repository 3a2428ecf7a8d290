/**
  What a canonical text looks like, byte by byte: the order of keys, the escape of each character, and the nesting that is read.
 */
module JsonText {
  import opened Wrappers
  import opened Order
  import opened Utf8
  import opened JsonValue
  import opened JsonGrammar
  import opened JsonParse
  import opened JsonLaws
  import opened JsonRoundTrip

  // The order of keys

  /** Byte order: a proper prefix comes first, else the string with the smaller byte at the first difference. */
  ghost predicate ByteBefore(a: string, b: string) {
    (|a| < |b| && b[..|a|] == a) || exists i :: FirstDifference(a, b, i) && (a[i] as int) < (b[i] as int)
  }

  ghost predicate FirstDifference(a: string, b: string, i: int) {
    0 <= i < |a| && i < |b| && a[..i] == b[..i] && a[i] != b[i]
  }

  /** The comparison of strings is byte order. */
  lemma {:induction false} LessIsByteOrder(a: string, b: string)
    ensures Less(a, b) <==> ByteBefore(a, b)
    decreases |a|
  {
    if a == "" {
      assert b != "" ==> b[..0] == "";
    } else if b != "" {
      LessIsByteOrder(a[1..], b[1..]);
      if a[0] == b[0] { SameHead(a, b); } else { assert FirstDifference(a, b, 0); OnlyDifference(a, b); }
    }
  }

  lemma OnlyDifference(a: string, b: string)
    requires a != "" && b != "" && a[0] != b[0]
    ensures forall i :: FirstDifference(a, b, i) ==> i == 0
    ensures |a| < |b| ==> b[..|a|] != a
  {
    forall i | 0 < i < |a| && i < |b| ensures a[..i] != b[..i] { HeadsDiffer(a, b, i); }
    if |a| < |b| { assert b[..|a|][0] == b[0]; }
  }

  lemma HeadsDiffer(a: string, b: string, i: nat)
    requires 0 < i <= |a| && i <= |b| && a[0] != b[0]
    ensures a[..i] != b[..i]
  {
    assert a[..i][0] == a[0] && b[..i][0] == b[0];
  }

  lemma SameHead(a: string, b: string)
    requires a != "" && b != "" && a[0] == b[0]
    ensures ByteBefore(a, b) <==> ByteBefore(a[1..], b[1..])
  {
    var s, t := a[1..], b[1..];
    assert a == [a[0]] + s && b == [a[0]] + t;
    forall i | 0 <= i < |s| && i < |t| ensures FirstDifference(s, t, i) <==> FirstDifference(a, b, i + 1) {
      assert a[..i + 1] == [a[0]] + s[..i] && b[..i + 1] == [a[0]] + t[..i];
      assert s[..i] == a[..i + 1][1..] && t[..i] == b[..i + 1][1..];
    }
    if i :| FirstDifference(s, t, i) && (s[i] as int) < (t[i] as int) { assert FirstDifference(a, b, i + 1) && a[i + 1] == s[i]; }
    if i :| FirstDifference(a, b, i) && (a[i] as int) < (b[i] as int) { assert FirstDifference(s, t, i - 1) && a[i] == s[i - 1]; }
    if |s| < |t| && t[..|s|] == s { assert b[..|a|] == a; }
    if |a| < |b| && b[..|a|] == a { assert t[..|s|] == b[..|a|][1..] == s; }
  }

  ghost predicate InByteOrder(ks: seq<string>) { forall i, j | 0 <= i < j < |ks| :: ByteBefore(ks[i], ks[j]) }

  lemma AscendingIsByteOrder(ks: seq<string>)
    ensures Ascending(ks, Less) <==> InByteOrder(ks)
  {
    forall i, j | 0 <= i < j < |ks| ensures Less(ks[i], ks[j]) <==> ByteBefore(ks[i], ks[j]) { LessIsByteOrder(ks[i], ks[j]); }
    hide Less, ByteBefore;
  }

  // Objects

  ghost function Commas(texts: seq<string>): string {
    if texts == [] then "" else if |texts| == 1 then texts[0] else texts[0] + "," + Commas(texts[1..])
  }

  ghost function MemberText(v: Json, k: string): string
    requires v.Obj? && k in v.fields
  {
    "\"" + Escaped(k) + "\":" + Print(v.fields[k])
  }

  ghost function MemberTexts(v: Json, ks: seq<string>): (texts: seq<string>)
    requires v.Obj? && forall k | k in ks :: k in v.fields
    ensures |texts| == |ks| && forall i | 0 <= i < |ks| :: texts[i] == MemberText(v, ks[i])
  {
    seq(|ks|, i requires 0 <= i < |ks| => MemberText(v, ks[i]))
  }

  lemma {:induction false} FieldsAreMembers(v: Json, ks: seq<string>)
    requires v.Obj? && forall k | k in ks :: k in v.fields
    ensures PrintFields(v, ks) == Commas(MemberTexts(v, ks))
    decreases |ks|
  {
    hide Print, Escaped;
    if ks != [] {
      FieldsAreMembers(v, ks[1..]);
      assert MemberTexts(v, ks)[1..] == MemberTexts(v, ks[1..]);
      assert MemberText(v, ks[0]) == Quoted(ks[0]) + ":" + Print(v.fields[ks[0]]) by { assert "\"" + Escaped(ks[0]) + "\":" == Quoted(ks[0]) + ":"; }
    }
  }

  lemma ObjectTextIs(v: Json)
    requires v.Obj?
    ensures forall k :: k in SortedKeys(v.fields.Keys) <==> k in v.fields
    ensures Print(v) == "{" + Commas(MemberTexts(v, SortedKeys(v.fields.Keys))) + "}"
  {
    FieldsAreMembers(v, SortedKeys(v.fields.Keys));
    hide SortedKeys, PrintFields, Commas, MemberTexts;
  }

  /** The keys of an object, each once, in byte order. */
  ghost predicate Keys(v: Json, ks: seq<string>)
    requires v.Obj?
  {
    InByteOrder(ks) && forall k :: k in ks <==> k in v.fields
  }

  /** The text of an object is its members between commas, for the one list of its keys that is in byte order. */
  lemma ObjectText(v: Json, ks: seq<string>)
    requires v.Obj? && Keys(v, ks)
    ensures Print(v) == "{" + Commas(MemberTexts(v, ks)) + "}"
  {
    ObjectTextIs(v);
    StringsAreOrdered();
    AscendingIsByteOrder(ks);
    hide Print, Commas, MemberTexts, SortedKeys, Less, InByteOrder;
    AscendingUnique(ks, SortedKeys(v.fields.Keys), Less);
  }

  /** And every object has that list. */
  lemma ObjectKeys(v: Json) returns (ks: seq<string>)
    requires v.Obj?
    ensures Keys(v, ks) && Print(v) == "{" + Commas(MemberTexts(v, ks)) + "}"
  {
    ks := SortedKeys(v.fields.Keys);
    ObjectTextIs(v);
    AscendingIsByteOrder(ks);
    hide SortedKeys, Print, Commas, MemberTexts, Less;
  }

  lemma {:induction false} CommasSplit(texts: seq<string>, i: nat, j: nat) returns (p: string, m: string, s: string)
    requires i < j < |texts|
    ensures Commas(texts) == p + texts[i] + "," + m + texts[j] + s
  {
    if i == 0 {
      m, s := CommasFrom(texts[1..], j - 1);
      p := "";
      assert Commas(texts) == texts[0] + "," + (m + texts[j] + s);
    } else {
      p, m, s := CommasSplit(texts[1..], i - 1, j - 1);
      p := texts[0] + "," + p;
    }
  }

  lemma {:induction false} CommasFrom(texts: seq<string>, j: nat) returns (m: string, s: string)
    requires j < |texts|
    ensures Commas(texts) == m + texts[j] + s
  {
    if j == 0 {
      m, s := "", if |texts| == 1 then "" else "," + Commas(texts[1..]);
    } else {
      m, s := CommasFrom(texts[1..], j - 1);
      m := texts[0] + "," + m;
    }
  }

  /** Of two members the one with the smaller key, in byte order, stands first in the text. */
  lemma KeysStandInByteOrder(v: Json, x: string, y: string) returns (p: string, m: string, s: string)
    requires v.Obj? && x in v.fields && y in v.fields && ByteBefore(x, y)
    ensures Print(v) == "{" + p + MemberText(v, x) + "," + m + MemberText(v, y) + s + "}"
  {
    var ks := ObjectKeys(v);
    assert x in ks && y in ks && InByteOrder(ks) by { hide Print, Commas, MemberTexts, ByteBefore; }
    var i :| 0 <= i < |ks| && ks[i] == x;
    var j :| 0 <= j < |ks| && ks[j] == y;
    hide *;
    IndexOrder(ks, i, j);
    p, m, s := CommasSplit(MemberTexts(v, ks), i, j);
    Framed(p, MemberText(v, x), m, MemberText(v, y), s);
  }

  lemma Framed(p: string, x: string, m: string, y: string, s: string)
    ensures "{" + (p + x + "," + m + y + s) + "}" == "{" + p + x + "," + m + y + s + "}"
  {
  }

  lemma IndexOrder(ks: seq<string>, i: nat, j: nat)
    requires i < |ks| && j < |ks| && InByteOrder(ks) && ByteBefore(ks[i], ks[j])
    ensures i < j
  {
    NotBoth(ks[i], ks[j]);
    hide ByteBefore;
  }

  lemma NotBoth(x: string, y: string)
    ensures !(ByteBefore(x, y) && ByteBefore(y, x))
  {
    LessIsByteOrder(x, y);
    LessIsByteOrder(y, x);
    StringsAreOrdered();
    hide Less, ByteBefore;
  }

  // The escape of each character

  predicate LowerHex(h: string) { forall i | 0 <= i < |h| :: '0' <= h[i] <= '9' || 'a' <= h[i] <= 'f' }

  /** The one way of writing a character: itself, a letter escape, or lower-case hexadecimal, a surrogate pair above U+FFFF. */
  predicate Canonical(p: Piece) {
    match p
    case Raw(b) => |b| == 1 && 0x20 <= b[0] as int <= 0x7E && b[0] != '"' && b[0] != '\\'
    case Esc(c) => c == '"' || c == '\\' || c == 'b' || c == 'f' || c == 'n' || c == 'r' || c == 't'
    case Uni(h) =>
      IsHex4(h) && LowerHex(h) && Scalar(HexVal(h))
      && var v := HexVal(h); v > 0x7E || (v < 0x20 && v != 8 && v != 9 && v != 10 && v != 12 && v != 13)
    case Pair(hi, lo) =>
      IsHex4(hi) && IsHex4(lo) && LowerHex(hi) && LowerHex(lo) && HighSurrogate(HexVal(hi)) && LowSurrogate(HexVal(lo))
  }

  lemma LowerDigit(c: char)
    requires '0' <= c <= '9' || 'a' <= c <= 'f'
    ensures 0 <= HexDigitVal(c) < 16 && HEX_DIGITS[HexDigitVal(c)] == c
  {
  }

  lemma HexDigits(a: int, b: int, c: int, d: int)
    requires 0 <= a < 16 && 0 <= b < 16 && 0 <= c < 16 && 0 <= d < 16
    ensures var v := a * 0x1000 + b * 0x100 + c * 0x10 + d;
            0 <= v <= 0xFFFF && v / 0x1000 == a && v / 0x100 % 0x10 == b && v / 0x10 % 0x10 == c && v % 0x10 == d
  {
    var v := a * 0x1000 + b * 0x100 + c * 0x10 + d;
    assert v / 0x10 == a * 0x100 + b * 0x10 + c;
    assert v / 0x100 == a * 0x10 + b;
  }

  /** A number has only one lower-case form. */
  lemma LowerHexUnique(h: string)
    requires IsHex4(h) && LowerHex(h)
    ensures 0 <= HexVal(h) <= 0xFFFF && Hex4(HexVal(h)) == h
  {
    LowerDigit(h[0]);
    LowerDigit(h[1]);
    LowerDigit(h[2]);
    LowerDigit(h[3]);
    var a, b, c, d := HexDigitVal(h[0]), HexDigitVal(h[1]), HexDigitVal(h[2]), HexDigitVal(h[3]);
    HexValIs(h);
    HexDigits(a, b, c, d);
    Hex4Is(HexVal(h));
    hide *;
    assert h == [h[0], h[1], h[2], h[3]];
  }

  lemma HexValIs(h: string)
    requires |h| == 4
    ensures HexVal(h) == HexDigitVal(h[0]) * 0x1000 + HexDigitVal(h[1]) * 0x100 + HexDigitVal(h[2]) * 0x10 + HexDigitVal(h[3])
  {
    hide HexDigitVal;
  }

  lemma Hex4Is(v: int)
    requires 0 <= v <= 0xFFFF
    ensures Hex4(v) == [HEX_DIGITS[v / 0x1000], HEX_DIGITS[v / 0x100 % 0x10], HEX_DIGITS[v / 0x10 % 0x10], HEX_DIGITS[v % 0x10]]
  {
  }

  /** What stands at the front is written as the piece says. */
  ghost predicate Opens(p: Piece, rest: string) {
    PieceValue(p) != "" && EscapeOne(PieceValue(p) + rest) == (RenderPiece(p), |PieceValue(p)|)
  }

  lemma RawOpens(p: Piece, rest: string)
    requires Canonical(p) && p.Raw?
    ensures Opens(p, rest)
  {
    hide DecodeUtf8, Hex4;
    var s := p.bytes + rest;
    assert CharLen(p.bytes) == 1 && PieceValue(p) == p.bytes;
    assert s[0] == p.bytes[0] && p.bytes == [s[0]];
    hide CharLen;
  }

  lemma EscOpens(p: Piece, rest: string)
    requires Canonical(p) && p.Esc?
    ensures Opens(p, rest)
  {
    hide DecodeUtf8, Hex4;
    var s := [Unescape(p.c)] + rest;
    assert s[0] == Unescape(p.c);
  }

  lemma ScalarOpens(cp: int, rest: string)
    requires Scalar(cp) && cp >= 0x80
    ensures EncodeUtf8(cp) != "" && EscapeOne(EncodeUtf8(cp) + rest) == (Unicode(cp), |EncodeUtf8(cp)|)
  {
    EncodeDecodes(cp, rest);
    assert EncodeUtf8(cp) != "" && EncodeUtf8(cp)[0] as int >= 0x80;
    var s := EncodeUtf8(cp) + rest;
    assert s[0] == EncodeUtf8(cp)[0];
    hide DecodeUtf8, EncodeUtf8, Unicode;
  }

  lemma UniOpens(p: Piece, rest: string)
    requires Canonical(p) && p.Uni?
    ensures Opens(p, rest)
  {
    var v := HexVal(p.h);
    LowerHexUnique(p.h);
    if v >= 0x80 {
      ScalarOpens(v, rest);
      hide EscapeOne, EncodeUtf8, Hex4, HexVal, IsHex4;
    } else {
      hide DecodeUtf8, HexVal, IsHex4, Hex4;
      assert PieceValue(p) == [v as char];
      var s := [v as char] + rest;
      assert s[0] as int == v;
    }
  }

  lemma PairOpens(p: Piece, rest: string)
    requires Canonical(p) && p.Pair?
    ensures Opens(p, rest)
  {
    var hi, lo := HexVal(p.hi), HexVal(p.lo);
    assert IsHex4(p.hi) && IsHex4(p.lo) && LowerHex(p.hi) && LowerHex(p.lo) && HighSurrogate(hi) && LowSurrogate(lo);
    PairValue(p);
    var cp := Combine(hi, lo);
    PairText(hi, lo);
    hide *;
    LowerHexUnique(p.hi);
    LowerHexUnique(p.lo);
    CombineScalar(hi, lo);
    ScalarOpens(cp, rest);
    OpensIs(p, rest);
  }

  lemma CombineScalar(hi: int, lo: int)
    requires HighSurrogate(hi) && LowSurrogate(lo)
    ensures Scalar(Combine(hi, lo)) && Combine(hi, lo) >= 0x80
  {
  }

  lemma OpensIs(p: Piece, rest: string)
    ensures Opens(p, rest) <==> PieceValue(p) != "" && EscapeOne(PieceValue(p) + rest) == (RenderPiece(p), |PieceValue(p)|)
  {
    hide PieceValue, EscapeOne, RenderPiece;
  }

  lemma PairValue(p: Piece)
    requires Canonical(p) && p.Pair?
    ensures PieceValue(p) == EncodeUtf8(Combine(HexVal(p.hi), HexVal(p.lo))) && RenderPiece(p) == "\\u" + p.hi + "\\u" + p.lo
  {
    hide EncodeUtf8, HexVal, IsHex4, LowerHex;
  }

  lemma PairText(hi: int, lo: int)
    requires HighSurrogate(hi) && LowSurrogate(lo)
    ensures Unicode(Combine(hi, lo)) == "\\u" + Hex4(hi) + "\\u" + Hex4(lo)
  {
    hide Hex4;
    var v := Combine(hi, lo) - 0x10000;
    assert v / 0x400 == hi - 0xD800 && v % 0x400 == lo - 0xDC00;
  }

  lemma CanonicalOpens(p: Piece, rest: string)
    requires Canonical(p)
    ensures Opens(p, rest)
  {
    hide *;
    match p
    case Raw(_) => RawOpens(p, rest);
    case Esc(_) => EscOpens(p, rest);
    case Uni(_) => UniOpens(p, rest);
    case Pair(_, _) => PairOpens(p, rest);
  }

  /** A string has one canonical text: whatever canonical pieces spell the string are what the printer writes. */
  lemma {:induction false} CanonicalTextUnique(ps: seq<Piece>)
    requires forall i | 0 <= i < |ps| :: Canonical(ps[i])
    ensures Escaped(PiecesValue(ps)) == RenderPieces(ps)
  {
    hide Canonical, EscapeOne, PieceValue, RenderPiece;
    if ps != [] {
      var rest := PiecesValue(ps[1..]);
      CanonicalTextUnique(ps[1..]);
      CanonicalOpens(ps[0], rest);
      var s := PieceValue(ps[0]) + rest;
      assert s[|PieceValue(ps[0])|..] == rest;
    }
  }

  /** And UTF-8 strings have such pieces. */
  lemma {:induction false} CanonicalTextExists(s: string) returns (ps: seq<Piece>)
    requires Valid(s)
    ensures (forall i | 0 <= i < |ps| :: Canonical(ps[i])) && PiecesValue(ps) == s && Escaped(s) == RenderPieces(ps)
    decreases |s|
  {
    if s == "" {
      ps := [];
    } else {
      ValidTurn(s);
      var n := CharLen(s);
      hide *;
      var tail := CanonicalTextExists(s[n..]);
      var p := FrontPiece(s);
      ps := [p] + tail;
      PieceInFront(p, tail);
      CanonicalTextUnique(ps);
      FrontAndRest(s, n);
    }
  }

  lemma FrontAndRest(s: string, n: nat)
    requires n <= |s|
    ensures s == s[..n] + s[n..]
  {
  }

  lemma PieceInFront(p: Piece, tail: seq<Piece>)
    ensures PiecesValue([p] + tail) == PieceValue(p) + PiecesValue(tail)
  {
    hide PieceValue;
    assert ([p] + tail)[1..] == tail;
  }

  lemma HexLower(v: int)
    requires 0 <= v <= 0xFFFF
    ensures LowerHex(Hex4(v)) && IsHex4(Hex4(v)) && HexVal(Hex4(v)) == v
  {
    HexRoundTrip(v);
    hide IsHex4, HexVal;
  }

  lemma FrontPiece(s: string) returns (p: Piece)
    requires s != "" && CharLen(s) > 0
    ensures Canonical(p) && PieceValue(p) == s[..CharLen(s)]
  {
    hide *;
    EscapeMeansItsCharacter(s);
    FrontLaw(s);
    p := PieceOf(s);
    if s[0] as int >= 0x80 { WideCanonical(s); } else { AsciiCanonical(s); }
  }

  lemma FrontLaw(s: string)
    requires s != "" && EscapeLaw(s)
    ensures PieceValue(PieceOf(s)) == s[..CharLen(s)]
  {
    hide PieceValue, PieceOf, PieceOk, RenderPiece, EscapeOne, CharLen;
  }

  lemma AsciiCanonical(s: string)
    requires s != "" && (s[0] as int) < 0x80
    ensures Canonical(PieceOf(s))
  {
    HexLower(s[0] as int);
    hide Hex4, HexVal, IsHex4, DecodeUtf8, LowerHex;
  }

  lemma WideCanonical(s: string)
    requires s != "" && s[0] as int >= 0x80 && CharLen(s) > 0
    ensures Canonical(PieceOf(s))
  {
    hide *;
    WidePiece(s);
    var cp := DecodeUtf8(s).cp;
    if cp <= 0xFFFF {
      HexLower(cp);
      UniCanonical(Hex4(cp));
    } else {
      SurrogatesOf(cp);
      HexLower(0xD800 + (cp - 0x10000) / 0x400);
      HexLower(0xDC00 + (cp - 0x10000) % 0x400);
      PairCanonical(Hex4(0xD800 + (cp - 0x10000) / 0x400), Hex4(0xDC00 + (cp - 0x10000) % 0x400));
    }
  }

  lemma WidePiece(s: string)
    requires s != "" && s[0] as int >= 0x80 && CharLen(s) > 0
    ensures DecodeUtf8(s).Decoded? && Scalar(DecodeUtf8(s).cp) && 0x80 <= DecodeUtf8(s).cp <= 0x10FFFF
    ensures var cp := DecodeUtf8(s).cp;
            PieceOf(s) == if cp <= 0xFFFF then Uni(Hex4(cp)) else Pair(Hex4(0xD800 + (cp - 0x10000) / 0x400), Hex4(0xDC00 + (cp - 0x10000) % 0x400))
  {
    DecodeIsRfc3629(s);
    WideIsWide(s);
    hide DecodeUtf8, CharLen, EncodeUtf8, Hex4;
  }

  lemma SurrogatesOf(cp: int)
    requires 0x10000 <= cp <= 0x10FFFF
    ensures HighSurrogate(0xD800 + (cp - 0x10000) / 0x400) && LowSurrogate(0xDC00 + (cp - 0x10000) % 0x400)
  {
  }

  lemma UniCanonical(h: string)
    requires IsHex4(h) && LowerHex(h) && Scalar(HexVal(h)) && HexVal(h) >= 0x80
    ensures Canonical(Uni(h))
  {
    hide IsHex4, LowerHex, HexVal;
  }

  lemma PairCanonical(hi: string, lo: string)
    requires IsHex4(hi) && IsHex4(lo) && LowerHex(hi) && LowerHex(lo) && HighSurrogate(HexVal(hi)) && LowSurrogate(HexVal(lo))
    ensures Canonical(Pair(hi, lo))
  {
    hide IsHex4, LowerHex, HexVal;
  }

  lemma WideIsWide(s: string)
    requires s != "" && s[0] as int >= 0x80 && DecodeUtf8(s).Decoded?
    ensures DecodeUtf8(s).cp >= 0x80
  {
  }

  /** A byte that opens no well-formed sequence is written as U+FFFD, and the next one is looked at. */
  lemma StrayByteText(s: string)
    requires s != "" && CharLen(s) == 0
    ensures Escaped(s) == "\\ufffd" + Escaped(s[1..])
  {
    DecodeIsRfc3629(s);
    assert s[0] as int >= 0x80;
    hide DecodeUtf8, CharLen;
  }

  // What is read

  function Nested(n: nat): Json { if n == 0 then Arr([]) else Arr([Nested(n - 1)]) }

  function Brackets(n: nat): string { if n == 0 then "[]" else "[" + Brackets(n - 1) + "]" }

  lemma {:induction false} NestedText(n: nat, m: int)
    ensures Print(Nested(n)) == Brackets(n) && DoubleFree(Nested(n)) && Utf8Clean(Nested(n)) && (NestsWithin(Nested(n), m) <==> n <= m)
    decreases n
  {
    if n == 0 {
      assert PrintItems([]) == "";
      assert "[" + "" + "]" == "[]";
    } else {
      NestedText(n - 1, m - 1);
      var a := [Nested(n - 1)];
      assert PrintItems(a) == Print(a[0]) + "" == Print(a[0]);
    }
  }

  /** Arrays in arrays are read up to sixty-four deep below the outermost. */
  lemma DepthCap(n: nat)
    ensures Parse(Brackets(n)) == Some(Nested(n)) <==> n <= 64
  {
    NestedText(n, 64);
    hide Parse, Print, Nested, Brackets;
    RoundTrip(Nested(n));
  }

  /** White space, the escape of the slash that is never written, and upper-case hexadecimal are read. */
  lemma SampleText()
    ensures Parse(" \t\n\r\"\\/\\u00AF\" \r\n\t") == Some(Str("/" + EncodeUtf8(0xAF)))
  {
    var ps := [Esc('/'), Uni("00AF")];
    SamplePieces();
    SampleRender();
    SampleSpace();
    hide *;
    TwoPieces(ps[0], ps[1]);
    SampleTree(ps);
    DocumentParses(" \t\n\r", TStr(ps), " \r\n\t");
  }

  lemma SampleSpace()
    ensures AllWs(" \t\n\r") && AllWs(" \r\n\t")
  {
  }

  lemma SamplePieces()
    ensures PieceOk(Esc('/')) && PieceOk(Uni("00AF")) && PieceValue(Esc('/')) == "/" && PieceValue(Uni("00AF")) == EncodeUtf8(0xAF)
    ensures RenderPiece(Esc('/')) == "\\/" && RenderPiece(Uni("00AF")) == "\\u00AF"
  {
    hide EncodeUtf8;
    assert HexVal("00AF") == 0xAF && AllHex("00AF");
    hide HexVal, AllHex;
  }

  lemma TwoPieces(a: Piece, b: Piece)
    ensures RenderPieces([a, b]) == RenderPiece(a) + RenderPiece(b) && PiecesValue([a, b]) == PieceValue(a) + PieceValue(b)
  {
    hide RenderPiece, PieceValue;
    assert [a, b][1..] == [b] && [b][1..] == [];
    assert RenderPieces([b]) == RenderPiece(b) + "" && PiecesValue([b]) == PieceValue(b) + "";
  }

  lemma SampleRender()
    ensures " \t\n\r" + ("\"" + ("\\/" + "\\u00AF") + "\"") + " \r\n\t" == " \t\n\r\"\\/\\u00AF\" \r\n\t"
  {
  }

  lemma SampleTree(ps: seq<Piece>)
    requires |ps| == 2 && PieceOk(ps[0]) && PieceOk(ps[1])
    ensures TreeOk(TStr(ps), MAX_DEPTH) && Render(TStr(ps)) == "\"" + RenderPieces(ps) + "\"" && Value(TStr(ps)) == Str(PiecesValue(ps))
  {
    hide PieceOk, PiecesValue, RenderPieces;
  }
}
