/** Printer and parser undo each other, and exactly when. */
module JsonRoundTrip {
  import opened Wrappers
  import opened Order
  import opened Utf8
  import opened JsonValue
  import opened JsonGrammar
  import opened JsonParse
  import opened JsonLexers
  import opened JsonLaws

  // The derivation that the canonical text spells

  /** How the printer writes the character that opens `s`. */
  function PieceOf(s: string): Piece
    requires s != ""
  {
    var c := s[0] as int;
    if c < 0x80 then
      if c == 0x22 || c == 0x5C then Esc(s[0])
      else if c == 0x08 then Esc('b')
      else if c == 0x0C then Esc('f')
      else if c == 0x0A then Esc('n')
      else if c == 0x0D then Esc('r')
      else if c == 0x09 then Esc('t')
      else if 0x20 <= c <= 0x7E then Raw([s[0]])
      else Uni(Hex4(c))
    else
      match DecodeUtf8(s)
      case Invalid => Uni("fffd")
      case Decoded(_, cp) =>
        if cp <= 0xFFFF then Uni(Hex4(cp))
        else Pair(Hex4(0xD800 + (cp - 0x10000) / 0x400), Hex4(0xDC00 + (cp - 0x10000) % 0x400))
  }

  lemma HexDigitRoundTrip(d: int)
    requires 0 <= d < 16
    ensures HexDigitVal(HEX_DIGITS[d]) == d
  {
  }

  lemma HexRoundTrip(v: int)
    requires 0 <= v <= 0xFFFF
    ensures IsHex4(Hex4(v)) && HexVal(Hex4(v)) == v
  {
    HexDigitRoundTrip(v / 0x1000);
    HexDigitRoundTrip(v / 0x100 % 0x10);
    HexDigitRoundTrip(v / 0x10 % 0x10);
    HexDigitRoundTrip(v % 0x10);
    HexSum(v);
    hide HexDigitVal;
  }

  lemma HexSum(v: int)
    requires 0 <= v <= 0xFFFF
    ensures 0 <= v / 0x1000 < 16
    ensures v == v / 0x1000 * 0x1000 + v / 0x100 % 0x10 * 0x100 + v / 0x10 % 0x10 * 0x10 + v % 0x10
  {
    var a := v / 0x10;
    var b := a / 0x10;
    assert b == v / 0x100 && b / 0x10 == v / 0x1000;
    assert v == a * 0x10 + v % 0x10 && a == b * 0x10 + a % 0x10 && b == b / 0x10 * 0x10 + b % 0x10;
  }

  ghost predicate EscapeLaw(s: string)
    requires s != ""
  {
    && EscapeOne(s).1 == CharLen(s)
    && PieceOk(PieceOf(s)) && RenderPiece(PieceOf(s)) == EscapeOne(s).0 && PieceValue(PieceOf(s)) == s[..CharLen(s)]
  }

  /** One escape denotes the character it was made from. */
  lemma EscapeMeansItsCharacter(s: string)
    requires s != "" && CharLen(s) > 0
    ensures EscapeLaw(s)
  {
    var c := s[0] as int;
    hide *;
    if c >= 0x80 { WideEscape(s); }
    else if c == 0x22 || c == 0x5C || c == 0x08 || c == 0x0C || c == 0x0A || c == 0x0D || c == 0x09 { ShortEscape(s); }
    else { PlainEscape(s); }
  }

  lemma ShortEscape(s: string)
    requires s != "" && (var c := s[0] as int; c == 0x22 || c == 0x5C || c == 0x08 || c == 0x0C || c == 0x0A || c == 0x0D || c == 0x09)
    ensures EscapeLaw(s)
  {
    hide DecodeUtf8, Hex4;
    assert s[..1] == [s[0]];
  }

  lemma PlainEscape(s: string)
    requires s != "" && s[0] as int < 0x80
    requires var c := s[0] as int; !(c == 0x22 || c == 0x5C || c == 0x08 || c == 0x0C || c == 0x0A || c == 0x0D || c == 0x09)
    ensures EscapeLaw(s)
  {
    hide DecodeUtf8, Hex4, HexVal, IsHex4;
    HexRoundTrip(s[0] as int);
    assert s[..1] == [s[0]];
  }

  lemma WideEscape(s: string)
    requires s != "" && CharLen(s) > 0 && 0x80 <= s[0] as int
    ensures EscapeLaw(s)
  {
    hide DecodeUtf8, CharLen, HexVal, EncodeUtf8, Hex4, IsHex4;
    DecodeIsRfc3629(s);
    var cp := DecodeUtf8(s).cp;
    if cp <= 0xFFFF {
      HexRoundTrip(cp);
    } else {
      var v := cp - 0x10000;
      HexRoundTrip(0xD800 + v / 0x400);
      HexRoundTrip(0xDC00 + v % 0x400);
      assert v == v / 0x400 * 0x400 + v % 0x400;
    }
  }

  function PrintPieces(s: string): seq<Piece>
    decreases |s|
  {
    if s == "" then [] else [PieceOf(s)] + PrintPieces(s[EscapeOne(s).1..])
  }

  lemma {:induction false} EscapedIsRendered(s: string)
    requires Valid(s)
    ensures PiecesOk(PrintPieces(s)) && RenderPieces(PrintPieces(s)) == Escaped(s) && PiecesValue(PrintPieces(s)) == s
    decreases |s|
  {
    hide *;
    if s == "" {
      NoPieces();
    } else {
      ValidTurn(s);
      var rest := s[CharLen(s)..];
      EscapeMeansItsCharacter(s);
      EscapedIsRendered(rest);
      EscapedStep(s, PrintPieces(rest));
    }
  }

  lemma NoPieces()
    ensures PrintPieces("") == [] && PiecesOk([]) && RenderPieces([]) == Escaped("") && PiecesValue([]) == ""
  {
  }

  lemma ValidTurn(s: string)
    requires Valid(s) && s != ""
    ensures 0 < CharLen(s) <= |s| && Valid(s[CharLen(s)..])
  {
  }

  lemma EscapedStep(s: string, ps: seq<Piece>)
    requires s != "" && 0 < CharLen(s) <= |s| && EscapeLaw(s)
    requires var rest := s[CharLen(s)..]; ps == PrintPieces(rest) && PiecesOk(ps) && RenderPieces(ps) == Escaped(rest) && PiecesValue(ps) == rest
    ensures PiecesOk(PrintPieces(s)) && RenderPieces(PrintPieces(s)) == Escaped(s) && PiecesValue(PrintPieces(s)) == s
  {
    hide PieceOf, EscapeOne, CharLen, PieceOk, RenderPiece, PieceValue;
    assert PrintPieces(s) == [PieceOf(s)] + ps;
    assert s == s[..CharLen(s)] + s[CharLen(s)..];
  }

  // Integers

  lemma {:induction false} DigitsRoundTrip(n: nat)
    ensures IntPart(Digits(n)) && DecVal(Digits(n)) == n && (n > 0 ==> Digits(n)[0] != '0')
  {
    if n >= 10 {
      DigitsRoundTrip(n / 10);
      var ds := Digits(n / 10);
      assert Digits(n)[..|ds|] == ds;
    } else {
      assert [Digit(n)][..0] == "";
    }
  }

  function Magnitude(i: int): nat { if i < 0 then -i else i }

  lemma {:induction false} DigitsUnique(ip: string)
    requires ip != "" && AllDigits(ip) && (ip[0] == '0' ==> ip == "0")
    ensures DecVal(ip) >= 0 && Digits(DecVal(ip)) == ip && (DecVal(ip) == 0 <==> ip == "0")
  {
    var front, last := ip[..|ip| - 1], ip[|ip| - 1];
    assert IsDigit(last);
    if front == "" {
      assert DecVal(front) == 0 && DecVal(ip) == last as int - 48;
      assert Digits(DecVal(ip)) == [last] == ip;
    } else {
      DigitsUnique(front);
      var d: int := last as int - 48;
      assert DecVal(ip) == DecVal(front) * 10 + d && DecVal(front) > 0;
      assert Digits(DecVal(ip)) == front + [last] == ip;
    }
  }

  // Doubles

  ghost predicate IsNumeral(t: string, neg: bool, ip: string, frac: string, exp: string) {
    NumberOk(ip, frac, exp) && t == Lexeme(neg, ip, frac, exp)
  }

  ghost predicate Numeral(t: string) { exists neg, ip, frac, exp :: IsNumeral(t, neg, ip, frac, exp) }

  ghost predicate DoubleText(t: string) { Numeral(t) && READ_DOUBLE(t) == Some(t) }

  /** What C++ promises of `std::to_chars`: the text of a double is a numeral, and reads back as that double. */
  ghost predicate DoublesPrint() { forall l, t :: READ_DOUBLE(l) == Some(t) ==> DoubleText(t) }

  /** The text of a double can look like an integer, and the parser then reads an integer; -0.0 is written "-0". */
  ghost predicate Whole(t: string) { t == "-0" || exists i: int64 :: t == Decimal(i) }

  ghost function WholeValue(t: string): int64
    requires Whole(t)
  {
    if t == "-0" then 0 else var i: int64 :| t == Decimal(i); i
  }

  ghost predicate DoublesOk(v: Json) {
    match v
    case Double(t) => DoubleText(t)
    case Arr(a) => forall i | 0 <= i < |a| :: DoublesOk(a[i])
    case Obj(o) => forall k | k in o :: DoublesOk(o[k])
    case _ => true
  }

  ghost predicate NoWholeDoubles(v: Json) {
    match v
    case Double(t) => !Whole(t)
    case Arr(a) => forall i | 0 <= i < |a| :: NoWholeDoubles(a[i])
    case Obj(o) => forall k | k in o :: NoWholeDoubles(o[k])
    case _ => true
  }

  /** `v` with every double that is written as an integer replaced by that integer. */
  ghost function Settled(v: Json): Json {
    match v
    case Double(t) => if Whole(t) then Int(WholeValue(t)) else v
    case Arr(a) => Arr(SettledItems(a))
    case Obj(o) => Obj(map k | k in o :: Settled(o[k]))
    case _ => v
  }

  ghost function SettledItems(a: seq<Json>): (r: seq<Json>)
    ensures |r| == |a| && forall i | 0 <= i < |a| :: r[i] == Settled(a[i])
  {
    if a == [] then [] else [Settled(a[0])] + SettledItems(a[1..])
  }

  lemma {:induction false} SettledIsSame(v: Json)
    ensures Settled(v) == v <==> NoWholeDoubles(v)
  {
    hide Whole, WholeValue;
    match v
    case Arr(a) => forall i | 0 <= i < |a| ensures Settled(a[i]) == a[i] <==> NoWholeDoubles(a[i]) { SettledIsSame(a[i]); }
    case Obj(o) => forall k | k in o ensures Settled(o[k]) == o[k] <==> NoWholeDoubles(o[k]) { SettledIsSame(o[k]); }
    case _ =>
  }

  lemma {:induction false} DoubleFreeIsFine(v: Json)
    requires DoubleFree(v)
    ensures DoublesOk(v) && NoWholeDoubles(v)
  {
    hide Whole, DoubleText;
    match v
    case Arr(a) => forall i | 0 <= i < |a| ensures DoublesOk(a[i]) && NoWholeDoubles(a[i]) { DoubleFreeIsFine(a[i]); }
    case Obj(o) => forall k | k in o ensures DoublesOk(o[k]) && NoWholeDoubles(o[k]) { DoubleFreeIsFine(o[k]); }
    case _ =>
  }

  lemma DecimalDigits(i: int)
    ensures Decimal(i) == (if i < 0 then "-" else "") + Digits(Magnitude(i))
    ensures IntPart(Digits(Magnitude(i))) && DecVal(Digits(Magnitude(i))) == Magnitude(i)
  {
    DigitsRoundTrip(Magnitude(i));
    hide Digits, IntPart;
  }

  /** Among the numerals, those written as integers are the ones the parser reads as integers. */
  lemma WholeIsInt64(t: string, neg: bool, ip: string, frac: string, exp: string)
    requires IsNumeral(t, neg, ip, frac, exp)
    ensures Whole(t) <==> Int64Lexeme(neg, ip, frac, exp)
    ensures Whole(t) ==> WholeValue(t) == Signed(neg, ip)
  {
    if Int64Lexeme(neg, ip, frac, exp) { Int64IsWhole(t, neg, ip, frac, exp); }
    if Whole(t) && t != "-0" {
      PlainDigits(t, neg, ip, frac, exp, WholeValue(t));
    } else if t == "-0" {
      assert t[1..] == "0";
      PlainSplit(t, neg, ip, frac, exp, "-", "0");
      assert DecVal("0") == 0;
    }
  }

  lemma Int64IsWhole(t: string, neg: bool, ip: string, frac: string, exp: string)
    requires IsNumeral(t, neg, ip, frac, exp) && Int64Lexeme(neg, ip, frac, exp)
    ensures Whole(t)
  {
    DigitsUnique(ip);
    hide Digits, DecVal;
    assert t == (if neg then "-" else "") + ip;
    if neg && ip == "0" {
      assert t == "-0";
    } else {
      var i: int64 := Signed(neg, ip);
      assert t == Decimal(i);
    }
  }

  lemma PlainDigits(t: string, neg: bool, ip: string, frac: string, exp: string, i: int64)
    requires IsNumeral(t, neg, ip, frac, exp) && t == Decimal(i)
    ensures Int64Lexeme(neg, ip, frac, exp) && Signed(neg, ip) == i
  {
    DecimalDigits(i);
    PlainSplit(t, neg, ip, frac, exp, if i < 0 then "-" else "", Digits(Magnitude(i)));
    hide Digits, DecVal;
  }

  /** A sign and digits can be split in only one way, with nothing left for fraction and exponent. */
  lemma PlainSplit(t: string, neg: bool, ip: string, frac: string, exp: string, sign: string, ds: string)
    requires IsNumeral(t, neg, ip, frac, exp) && (sign == "-" || sign == "") && ds != "" && AllDigits(ds) && t == sign + ds
    ensures sign == (if neg then "-" else "") && ip == ds && frac == "" && exp == ""
  {
    var head := if neg then "-" else "";
    assert IsDigit(ip[0]) && t[|head|] == ip[0] && IsDigit(ds[0]) && t[|sign|] == ds[0];
    assert neg ==> t[0] == '-';
    assert sign == head;
    assert t == head + (ip + (frac + exp));
    assert ds == t[|sign|..] == ip + (frac + exp);
    var tail := frac + exp;
    NotDigits(ip, tail);
    assert tail == "" && ip + "" == ip;
  }

  lemma NotDigits(ip: string, tail: string)
    ensures tail != "" && !IsDigit(tail[0]) ==> !AllDigits(ip + tail)
  {
    if tail != "" { assert (ip + tail)[|ip|] == tail[0]; }
  }

  // Values

  ghost function DoubleTree(t: string): Tree {
    if Numeral(t) then var neg, ip, frac, exp :| IsNumeral(t, neg, ip, frac, exp); TNum(neg, ip, frac, exp) else TLit(Null)
  }

  ghost function CanonTree(v: Json): Tree
    decreases v, 1
  {
    match v
    case Null => TLit(Null)
    case Bool(b) => TLit(Bool(b))
    case Int(i) => TNum(i < 0, Digits(Magnitude(i)), "", "")
    case Double(t) => DoubleTree(t)
    case Str(s) => TStr(PrintPieces(s))
    case Arr(a) => TArr("", CanonItems(a))
    case Obj(o) => TObj("", CanonMembers(v, SortedKeys(o.Keys)))
  }

  ghost function CanonItems(a: seq<Json>): (items: seq<Item>)
    ensures |items| == |a|
    decreases a, 0
  {
    if a == [] then [] else [Item("", CanonTree(a[0]), "")] + CanonItems(a[1..])
  }

  ghost function CanonMembers(v: Json, ks: seq<string>): (ms: seq<Member>)
    requires v.Obj? && forall k | k in ks :: k in v.fields
    ensures |ms| == |ks|
    decreases v, 0, |ks|
  {
    if ks == [] then []
    else [Member("", PrintPieces(ks[0]), "", "", CanonTree(v.fields[ks[0]]), "")] + CanonMembers(v, ks[1..])
  }

  /** The text of `v` can be read at `n` spare levels of nesting. */
  ghost predicate Printable(v: Json, n: int) { DoublesOk(v) && Utf8Clean(v) && NestsWithin(v, n) }

  lemma {:induction false} CanonicalIsDerived(v: Json, n: int)
    requires Printable(v, n)
    ensures TreeOk(CanonTree(v), n) && Render(CanonTree(v)) == Print(v) && Value(CanonTree(v)) == Settled(v)
    decreases v, 1
  {
    hide PieceOk, RenderPiece, PieceValue, PieceOf, EscapeOne, IntPart, RenderPieces, PiecesValue;
    match v
    case Null =>
    case Bool(_) =>
    case Int(i) =>
      IntIsDerived(i, n);
    case Double(t) =>
      DoubleIsDerived(t, n);
    case Str(s) =>
      EscapedIsRendered(s);
    case Arr(a) =>
      CanonItemsDerived(a, n - 1);
      assert "[" + "" + RenderItems(CanonItems(a)) + "]" == "[" + PrintItems(a) + "]";
    case Obj(o) =>
      ObjectIsDerived(v, n);
  }

  lemma IntIsDerived(i: int64, n: int)
    requires n >= 0
    ensures var t := CanonTree(Int(i)); TreeOk(t, n) && Render(t) == Print(Int(i)) && Value(t) == Int(i)
  {
    DigitsRoundTrip(Magnitude(i));
    hide IntPart, Digits, DecVal;
  }

  lemma DoubleIsDerived(t: string, n: int)
    requires n >= 0 && DoubleText(t)
    ensures var tr := CanonTree(Double(t)); TreeOk(tr, n) && Render(tr) == Print(Double(t)) && Value(tr) == Settled(Double(t))
  {
    var tr := DoubleTree(t);
    WholeIsInt64(t, tr.neg, tr.ip, tr.frac, tr.exp);
    hide Whole, WholeValue, DecVal;
  }

  lemma {:induction false} CanonItemsDerived(a: seq<Json>, n: int)
    requires forall i | 0 <= i < |a| :: Printable(a[i], n)
    ensures forall i | 0 <= i < |a| :: ItemOk(CanonItems(a)[i], n)
    ensures RenderItems(CanonItems(a)) == PrintItems(a) && ItemsValue(CanonItems(a)) == SettledItems(a)
    decreases a, 0
  {
    hide Printable, TreeOk, Print, CanonTree, Render, Value, Settled;
    if a != [] {
      CanonicalIsDerived(a[0], n);
      CanonItemsDerived(a[1..], n);
      assert CanonItems(a)[1..] == CanonItems(a[1..]);
      assert "" + Print(a[0]) + "" == Print(a[0]);
      assert a == [a[0]] + a[1..];
    }
  }

  lemma {:induction false} ObjectIsDerived(v: Json, n: int)
    requires v.Obj? && Printable(v, n)
    ensures TreeOk(CanonTree(v), n) && Render(CanonTree(v)) == Print(v) && Value(CanonTree(v)) == Settled(v)
    decreases v, 0
  {
    hide *;
    var ks := SortedKeys(v.fields.Keys);
    CanonMembersDerived(v, ks, n, map[]);
    assert map[] + Fields(v, ks) == Fields(v, ks);
    PrintableNests(v, n);
    ObjectAssembles(v, ks, n);
  }

  lemma PrintableNests(v: Json, n: int)
    requires Printable(v, n)
    ensures NestsWithin(v, n)
  {
  }

  lemma ObjectAssembles(v: Json, ks: seq<string>, n: int)
    requires v.Obj? && ks == SortedKeys(v.fields.Keys) && NestsWithin(v, n)
    requires forall i | 0 <= i < |ks| :: MemberOk(CanonMembers(v, ks)[i], n - 1)
    requires RenderMembers(CanonMembers(v, ks)) == PrintFields(v, ks)
    requires MembersValue(CanonMembers(v, ks), map[]) == Fields(v, ks)
    ensures TreeOk(CanonTree(v), n) && Render(CanonTree(v)) == Print(v) && Value(CanonTree(v)) == Settled(v)
  {
    hide CanonMembers, PrintFields, RenderMembers, MembersValue, MemberOk;
    hide Settled;
    SettledFields(v);
    assert Fields(v, ks) == Settled(v).fields;
    NoWs();
    assert "{" + "" + PrintFields(v, ks) + "}" == "{" + PrintFields(v, ks) + "}";
  }

  lemma SettledFields(v: Json)
    requires v.Obj?
    ensures Settled(v) == Obj(map k | k in v.fields :: Settled(v.fields[k]))
  {
  }

  ghost function Fields(v: Json, ks: seq<string>): map<string, Json>
    requires v.Obj? && forall k | k in ks :: k in v.fields
  {
    map k | k in ks :: Settled(v.fields[k])
  }

  lemma {:induction false} CanonMembersDerived(v: Json, ks: seq<string>, n: int, acc: map<string, Json>)
    requires v.Obj? && Printable(v, n) && forall k | k in ks :: k in v.fields
    ensures forall i | 0 <= i < |ks| :: MemberOk(CanonMembers(v, ks)[i], n - 1)
    ensures RenderMembers(CanonMembers(v, ks)) == PrintFields(v, ks)
    ensures MembersValue(CanonMembers(v, ks), acc) == acc + Fields(v, ks)
    decreases v, 0, |ks|
  {
    hide *;
    if ks == [] {
      NoMembers(v, acc);
    } else {
      var k, tail := ks[0], ks[1..];
      FieldPrintable(v, k, n);
      EscapedIsRendered(k);
      CanonicalIsDerived(v.fields[k], n - 1);
      CanonMembersDerived(v, tail, n, acc[k := Settled(v.fields[k])]);
      MembersStep(v, ks, n - 1, acc);
    }
  }

  lemma NoMembers(v: Json, acc: map<string, Json>)
    requires v.Obj?
    ensures CanonMembers(v, []) == [] && RenderMembers([]) == PrintFields(v, []) && MembersValue([], acc) == acc + Fields(v, [])
  {
    assert acc + Fields(v, []) == acc;
  }

  lemma FieldPrintable(v: Json, k: string, n: int)
    requires v.Obj? && Printable(v, n) && k in v.fields
    ensures Valid(k) && Printable(v.fields[k], n - 1)
  {
    hide Valid;
  }

  lemma MembersStep(v: Json, ks: seq<string>, n: int, acc: map<string, Json>)
    requires v.Obj? && ks != [] && forall k | k in ks :: k in v.fields
    requires var k := ks[0]; var x := v.fields[k]; var ps := PrintPieces(k);
             && PiecesOk(ps) && RenderPieces(ps) == Escaped(k) && PiecesValue(ps) == k
             && TreeOk(CanonTree(x), n) && Render(CanonTree(x)) == Print(x) && Value(CanonTree(x)) == Settled(x)
    requires var tail := ks[1..];
             && (forall i | 0 <= i < |tail| :: MemberOk(CanonMembers(v, tail)[i], n))
             && RenderMembers(CanonMembers(v, tail)) == PrintFields(v, tail)
             && MembersValue(CanonMembers(v, tail), acc[ks[0] := Settled(v.fields[ks[0]])]) == acc[ks[0] := Settled(v.fields[ks[0]])] + Fields(v, tail)
    ensures forall i | 0 <= i < |ks| :: MemberOk(CanonMembers(v, ks)[i], n)
    ensures RenderMembers(CanonMembers(v, ks)) == PrintFields(v, ks)
    ensures MembersValue(CanonMembers(v, ks), acc) == acc + Fields(v, ks)
  {
    hide *;
    var k, tail := ks[0], ks[1..];
    MemberSteps(v, ks, acc);
    var m := CanonMember(v, k);
    assert MemberOk(m, n) && RenderMember(m) == Quoted(k) + ":" + Print(v.fields[k]) by { MemberIs(v, k, n); }
    FieldsStep(v, ks, acc);
  }

  ghost function CanonMember(v: Json, k: string): Member
    requires v.Obj? && k in v.fields
  {
    Member("", PrintPieces(k), "", "", CanonTree(v.fields[k]), "")
  }

  lemma MemberSteps(v: Json, ks: seq<string>, acc: map<string, Json>)
    requires v.Obj? && ks != [] && forall k | k in ks :: k in v.fields
    ensures var m := CanonMember(v, ks[0]); var tail := ks[1..];
            && CanonMembers(v, ks) == [m] + CanonMembers(v, tail)
            && RenderMembers(CanonMembers(v, ks)) == RenderMember(m) + (if |ks| == 1 then "" else "," + RenderMembers(CanonMembers(v, tail)))
            && MembersValue(CanonMembers(v, ks), acc) == MembersValue(CanonMembers(v, tail), acc[PiecesValue(PrintPieces(ks[0])) := Value(CanonTree(v.fields[ks[0]]))])
            && PrintFields(v, ks) == Quoted(ks[0]) + ":" + Print(v.fields[ks[0]]) + (if |ks| == 1 then "" else "," + PrintFields(v, tail))
  {
    hide PrintPieces, PiecesValue, Value, CanonTree, Quoted, Print, RenderMember;
    assert CanonMembers(v, ks)[1..] == CanonMembers(v, ks[1..]);
  }

  lemma MemberIs(v: Json, k: string, n: int)
    requires v.Obj? && k in v.fields
    requires PiecesOk(PrintPieces(k)) && RenderPieces(PrintPieces(k)) == Escaped(k)
    requires TreeOk(CanonTree(v.fields[k]), n) && Render(CanonTree(v.fields[k])) == Print(v.fields[k])
    ensures MemberOk(CanonMember(v, k), n) && RenderMember(CanonMember(v, k)) == Quoted(k) + ":" + Print(v.fields[k])
  {
    hide PiecesOk, RenderPieces, Escaped, PrintPieces, TreeOk, Render, Print, CanonTree;
  }

  lemma FieldsStep(v: Json, ks: seq<string>, acc: map<string, Json>)
    requires v.Obj? && ks != [] && forall k | k in ks :: k in v.fields
    ensures acc[ks[0] := Settled(v.fields[ks[0]])] + Fields(v, ks[1..]) == acc + Fields(v, ks)
  {
    hide Settled;
  }

  // What a derivation can denote

  lemma {:induction false} PiecesAreUtf8(ps: seq<Piece>)
    requires PiecesOk(ps)
    ensures Valid(PiecesValue(ps))
  {
    if ps != [] {
      PieceIsUtf8(ps[0]);
      PiecesAreUtf8(ps[1..]);
      hide PieceOk, PieceValue;
      ValidAppend(PieceValue(ps[0]), PiecesValue(ps[1..]));
    }
  }

  lemma PieceIsUtf8(p: Piece)
    requires PieceOk(p)
    ensures Valid(PieceValue(p))
  {
    hide HexVal;
    match p
    case Raw(b) => ValidFirst(b); assert b[..|b|] == b;
    case Esc(c) =>
    case Uni(h) => ValidScalar(HexVal(h));
    case Pair(hi, lo) => ValidScalar(Combine(HexVal(hi), HexVal(lo)));
  }

  lemma {:induction false} DerivedIsClean(t: Tree, n: int)
    requires TreeOk(t, n)
    ensures Utf8Clean(Value(t)) && NestsWithin(Value(t), n)
    decreases t, 1
  {
    hide IntPart, FracPart, ExpPart, PieceOk, PiecesValue, NumFits, DoubleText;
    match t
    case TLit(_) =>
    case TNum(_, _, _, _) =>
    case TStr(ps) => PiecesAreUtf8(ps);
    case TArr(_, items) => ItemsAreClean(items, n - 1);
    case TObj(_, ms) => MembersAreClean(ms, n - 1, map[]);
  }

  lemma {:induction false} ItemsAreClean(items: seq<Item>, n: int)
    requires forall i | 0 <= i < |items| :: ItemOk(items[i], n)
    ensures forall i | 0 <= i < |ItemsValue(items)| :: Utf8Clean(ItemsValue(items)[i]) && NestsWithin(ItemsValue(items)[i], n)
    decreases items, 0
  {
    hide Utf8Clean, NestsWithin, Value, TreeOk;
    if items != [] {
      ItemParts(items[0], n);
      DerivedIsClean(items[0].t, n);
      ItemsAreClean(items[1..], n);
    }
  }

  ghost predicate FieldsClean(o: map<string, Json>, n: int) {
    forall k | k in o :: Valid(k) && Utf8Clean(o[k]) && NestsWithin(o[k], n)
  }

  lemma {:induction false} MembersAreClean(ms: seq<Member>, n: int, acc: map<string, Json>)
    requires forall i | 0 <= i < |ms| :: MemberOk(ms[i], n)
    requires FieldsClean(acc, n)
    ensures FieldsClean(MembersValue(ms, acc), n)
    decreases ms, 0
  {
    hide Utf8Clean, NestsWithin, Value, TreeOk, Valid, PiecesOk, PiecesValue;
    if ms != [] {
      MemberParts(ms[0], n);
      DerivedIsClean(ms[0].t, n);
      PiecesAreUtf8(ms[0].key);
      MembersAreClean(ms[1..], n, acc[PiecesValue(ms[0].key) := Value(ms[0].t)]);
    }
  }

  lemma {:induction false} DerivedDoubles(t: Tree, n: int)
    requires TreeOk(t, n) && DoublesPrint()
    ensures DoublesOk(Value(t))
    decreases t, 1
  {
    hide IntPart, FracPart, ExpPart, PiecesOk, PiecesValue, DoubleText;
    match t
    case TLit(_) =>
    case TNum(_, _, _, _) =>
    case TStr(_) =>
    case TArr(_, items) => ItemsDoubles(items, n - 1);
    case TObj(_, ms) => MembersDoubles(ms, n - 1, map[]);
  }

  lemma {:induction false} ItemsDoubles(items: seq<Item>, n: int)
    requires DoublesPrint() && forall i | 0 <= i < |items| :: ItemOk(items[i], n)
    ensures forall i | 0 <= i < |ItemsValue(items)| :: DoublesOk(ItemsValue(items)[i])
    decreases items, 0
  {
    hide DoublesPrint, DoublesOk, Value, TreeOk;
    if items != [] {
      ItemParts(items[0], n);
      DerivedDoubles(items[0].t, n);
      ItemsDoubles(items[1..], n);
    }
  }

  ghost predicate FieldsDoubles(o: map<string, Json>) { forall k | k in o :: DoublesOk(o[k]) }

  lemma {:induction false} MembersDoubles(ms: seq<Member>, n: int, acc: map<string, Json>)
    requires DoublesPrint() && FieldsDoubles(acc) && forall i | 0 <= i < |ms| :: MemberOk(ms[i], n)
    ensures FieldsDoubles(MembersValue(ms, acc))
    decreases ms, 0
  {
    hide DoublesPrint, DoublesOk, Value, TreeOk, PiecesOk, PiecesValue;
    if ms != [] {
      MemberParts(ms[0], n);
      DerivedDoubles(ms[0].t, n);
      MembersDoubles(ms[1..], n, acc[PiecesValue(ms[0].key) := Value(ms[0].t)]);
    }
  }

  // What a second printing writes

  ghost predicate NoMinusZero(v: Json) {
    match v
    case Double(t) => t != "-0"
    case Arr(a) => forall i | 0 <= i < |a| :: NoMinusZero(a[i])
    case Obj(o) => forall k | k in o :: NoMinusZero(o[k])
    case _ => true
  }

  /** A text that replaces another: the same, or a shorter one. */
  predicate SameOr(now: string, was: string, same: bool) {
    if same then now == was else |now| < |was|
  }

  lemma {:induction false} SettledPrints(v: Json)
    ensures SameOr(Print(Settled(v)), Print(v), NoMinusZero(v))
    decreases v, 1
  {
    match v
    case Double(t) => SettledDoublePrints(t);
    case Arr(a) => SettledItemsPrint(a);
    case Obj(o) =>
      SettledFields(v);
      var ks := SortedKeys(o.Keys);
      SettledFieldsPrint(v, ks);
      hide Settled, PrintFields, Whole;
      assert Settled(v).fields.Keys == o.Keys;
    case _ =>
  }

  lemma SettledDoublePrints(t: string)
    ensures SameOr(Print(Settled(Double(t))), t, t != "-0")
  {
    if t == "-0" {
      assert WholeValue(t) == 0;
      assert Print(Int(0)) == Digits(0);
    } else if Whole(t) {
      hide Digits;
      assert Print(Int(WholeValue(t))) == t;
    }
  }

  lemma {:induction false} SettledItemsPrint(a: seq<Json>)
    ensures SameOr(PrintItems(SettledItems(a)), PrintItems(a), forall i | 0 <= i < |a| :: NoMinusZero(a[i]))
    decreases a, 0
  {
    hide Settled, Print, NoMinusZero;
    if a != [] {
      var tail := a[1..];
      SettledPrints(a[0]);
      SettledItemsPrint(tail);
      assert SettledItems(a)[1..] == SettledItems(tail);
      assert (forall i | 0 <= i < |a| :: NoMinusZero(a[i])) <==> NoMinusZero(a[0]) && forall i | 0 <= i < |tail| :: NoMinusZero(tail[i]) by {
        assert forall i | 0 <= i < |tail| :: tail[i] == a[i + 1];
        assert forall i | 0 < i < |a| :: a[i] == tail[i - 1];
      }
    }
  }

  lemma {:induction false} SettledFieldsPrint(v: Json, ks: seq<string>)
    requires v.Obj? && (forall k | k in ks :: k in v.fields) && Settled(v).Obj? && Settled(v).fields.Keys == v.fields.Keys
    ensures SameOr(PrintFields(Settled(v), ks), PrintFields(v, ks), forall k | k in ks :: NoMinusZero(v.fields[k]))
    decreases v, 0, |ks|
  {
    SettledFields(v);
    hide Settled, Print, NoMinusZero, Quoted;
    if ks != [] {
      SettledPrints(v.fields[ks[0]]);
      SettledFieldsPrint(v, ks[1..]);
      assert forall k :: k in ks <==> k == ks[0] || k in ks[1..];
    }
  }

  // The laws

  /** Whatever is accepted holds only UTF-8 strings and at most 64 levels. */
  lemma AcceptedIsClean(text: string)
    requires Parse(text).Some?
    ensures Utf8Clean(Parse(text).value) && NestsWithin(Parse(text).value, MAX_DEPTH)
  {
    var pre, t, post := ParsedIsDocument(text);
    DerivedIsClean(t, MAX_DEPTH);
  }

  /** The text of a value reads as the value, but for the doubles that are written as integers. */
  lemma Rereads(v: Json)
    requires Printable(v, MAX_DEPTH)
    ensures Parse(Print(v)) == Some(Settled(v))
  {
    CanonicalIsDerived(v, MAX_DEPTH);
    DocumentParses("", CanonTree(v), "");
    hide *;
    assert "" + Print(v) + "" == Print(v);
    NoWs();
  }

  /** A value comes back from its text iff its strings are UTF-8, it nests at most 64 deep and no double is written as an integer. */
  lemma DoublesRoundTrip(v: Json)
    requires DoublesOk(v)
    ensures Parse(Print(v)) == Some(v) <==> Utf8Clean(v) && NestsWithin(v, MAX_DEPTH) && NoWholeDoubles(v)
  {
    hide *;
    SettledIsSame(v);
    if Utf8Clean(v) && NestsWithin(v, MAX_DEPTH) {
      PrintableIs(v, MAX_DEPTH);
      Rereads(v);
    }
    if Parse(Print(v)) == Some(v) { AcceptedIsClean(Print(v)); }
  }

  lemma PrintableIs(v: Json, n: int)
    ensures Printable(v, n) <==> DoublesOk(v) && Utf8Clean(v) && NestsWithin(v, n)
  {
  }

  /** A double-free value comes back from its text iff its strings are UTF-8 and it nests at most 64 deep. */
  lemma RoundTrip(v: Json)
    requires DoubleFree(v)
    ensures Parse(Print(v)) == Some(v) <==> Utf8Clean(v) && NestsWithin(v, MAX_DEPTH)
  {
    hide *;
    DoubleFreeIsFine(v);
    DoublesRoundTrip(v);
  }

  lemma AcceptedDoubles(text: string)
    requires Parse(text).Some? && DoublesPrint()
    ensures DoublesOk(Parse(text).value)
  {
    var pre, t, post := ParsedIsDocument(text);
    DerivedDoubles(t, MAX_DEPTH);
  }

  /**
    Parse-then-print as a normal form. Reading the canonical text gives the same value again, except that a double written
    as an integer comes back as that integer; and that value prints the same bytes, except where -0.0 was written "-0".
   */
  lemma PrintNormalizes(text: string)
    requires Parse(text).Some? && (DoublesPrint() || DoubleFree(Parse(text).value))
    ensures var v := Parse(text).value;
            && Parse(Print(v)) == Some(Settled(v))
            && (Parse(Print(v)) == Parse(text) <==> NoWholeDoubles(v))
            && (Print(Settled(v)) == Print(v) <==> NoMinusZero(v))
  {
    hide *;
    var v := Parse(text).value;
    if DoubleFree(v) { DoubleFreeIsFine(v); } else { AcceptedDoubles(text); }
    AcceptedIsClean(text);
    PrintableIs(v, MAX_DEPTH);
    Rereads(v);
    SettledIsSame(v);
    SettledPrints(v);
    SameOrNot(Print(Settled(v)), Print(v), NoMinusZero(v));
  }

  lemma SameOrNot(now: string, was: string, same: bool)
    requires SameOr(now, was, same)
    ensures now == was <==> same
  {
  }

  /** A double-free value has none of the exceptions. */
  lemma DoubleFreeNormalizes(text: string)
    requires Parse(text).Some? && DoubleFree(Parse(text).value)
    ensures Parse(Print(Parse(text).value)) == Parse(text)
  {
    hide *;
    DoubleFreeIsFine(Parse(text).value);
    PrintNormalizes(text);
  }

  /** 1.0 is written "1", which reads as the integer; -0.0 is written "-0", which reads as 0 and is then written "0". */
  lemma WholeDoublesChange()
    requires READ_DOUBLE("1.0") == Some("1") && READ_DOUBLE("-0.0") == Some("-0")
    ensures Parse("1.0") == Some(Double("1")) && Print(Double("1")) == "1" && Parse("1") == Some(Int(1))
    ensures Parse("-0.0") == Some(Double("-0")) && Print(Double("-0")) == "-0" && Parse("-0") == Some(Int(0)) && Print(Int(0)) == "0"
  {
    hide *;
    SmallNumbers();
    SmallLexemes();
    NumberParses(false, "1", ".0", "");
    NumberParses(false, "1", "", "");
    NumberParses(true, "0", ".0", "");
    NumberParses(true, "0", "", "");
  }

  lemma SmallNumbers()
    requires READ_DOUBLE("1.0") == Some("1") && READ_DOUBLE("-0.0") == Some("-0")
    ensures NumFits(false, "1", ".0", "") && NumValue(false, "1", ".0", "") == Double("1")
    ensures NumFits(true, "0", ".0", "") && NumValue(true, "0", ".0", "") == Double("-0")
    ensures NumFits(false, "1", "", "") && NumValue(false, "1", "", "") == Int(1)
    ensures NumFits(true, "0", "", "") && NumValue(true, "0", "", "") == Int(0)
  {
    SmallLexemes();
    assert DecVal("1") == 1 && DecVal("0") == 0;
    hide Lexeme, DecVal;
  }

  lemma SmallLexemes()
    ensures Lexeme(false, "1", ".0", "") == "1.0" && Lexeme(false, "1", "", "") == "1"
    ensures Lexeme(true, "0", ".0", "") == "-0.0" && Lexeme(true, "0", "", "") == "-0"
    ensures NumberOk("1", ".0", "") && NumberOk("1", "", "") && NumberOk("0", ".0", "") && NumberOk("0", "", "")
    ensures Print(Double("1")) == "1" && Print(Double("-0")) == "-0" && Print(Int(0)) == "0"
  {
  }

  lemma NumberParses(neg: bool, ip: string, frac: string, exp: string)
    requires NumberOk(ip, frac, exp) && NumFits(neg, ip, frac, exp)
    ensures Parse(Lexeme(neg, ip, frac, exp)) == Some(NumValue(neg, ip, frac, exp))
  {
    var t := TNum(neg, ip, frac, exp);
    NoWs();
    DocumentParses("", t, "");
    hide Parse, IntPart, FracPart, ExpPart, NumFits, NumValue;
    assert "" + Render(t) + "" == Render(t);
  }

  /** A number whose double is out of range is refused, and no other. */
  lemma OutOfRangeIsRefused(neg: bool, ip: string, frac: string, exp: string)
    requires NumberOk(ip, frac, exp)
    ensures Parse(Lexeme(neg, ip, frac, exp)).Some? <==> NumFits(neg, ip, frac, exp)
  {
    var text := Lexeme(neg, ip, frac, exp);
    if NumFits(neg, ip, frac, exp) {
      NumberParses(neg, ip, frac, exp);
    } else {
      NumberReads(neg, ip, frac, exp, "");
      assert text + "" == text;
      assert IsDigit(ip[0]) && (neg ==> text[0] == '-') && (!neg ==> text[0] == ip[0]);
      hide PNumber, IntPart, FracPart, ExpPart, NumFits;
      assert SkipWs(text) == text;
    }
  }

  /** Values with the same text settle to the same value. */
  lemma PrintInjective(v: Json, w: Json)
    requires Printable(v, MAX_DEPTH) && Printable(w, MAX_DEPTH) && Print(v) == Print(w)
    ensures Settled(v) == Settled(w) && (NoWholeDoubles(v) && NoWholeDoubles(w) ==> v == w)
  {
    hide *;
    Rereads(v);
    Rereads(w);
    SettledIsSame(v);
    SettledIsSame(w);
  }
}
