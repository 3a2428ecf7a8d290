/** The string and number lexers read exactly their grammar rules. */
module JsonLexers {
  import opened Order
  import opened Utf8
  import opened JsonValue
  import opened JsonGrammar
  import opened JsonParse

  // Whitespace

  lemma {:induction false} SkipWsSplits(s: string) returns (ws: string)
    ensures AllWs(ws) && s == ws + SkipWs(s)
    ensures SkipWs(s) != "" ==> !IsWs(SkipWs(s)[0])
  {
    if s != "" && IsWs(s[0]) {
      var w := SkipWsSplits(s[1..]);
      ws := [s[0]] + w;
      assert s == [s[0]] + s[1..];
    } else {
      ws := "";
    }
  }

  lemma {:induction false} SkipsWs(ws: string, rest: string)
    requires AllWs(ws) && (rest != "" ==> !IsWs(rest[0]))
    ensures SkipWs(ws + rest) == rest
  {
    if ws == "" {
      assert ws + rest == rest;
    } else {
      SkipsWs(ws[1..], rest);
      assert (ws + rest)[1..] == ws[1..] + rest;
    }
  }

  // Strings

  lemma HexValRange(h: string)
    requires IsHex4(h)
    ensures 0 <= HexVal(h) <= 0xFFFF
  {
  }

  lemma EscapeSound(s: string) returns (p: Piece)
    requires UnicodeEscape(s).Chunk?
    ensures PieceOk(p) && "\\u" + s == RenderPiece(p) + UnicodeEscape(s).rest && UnicodeEscape(s).bytes == PieceValue(p)
  {
    HexValRange(s[..4]);
    hide EncodeUtf8, HexVal, Combine, HexDigitVal;
    if HighSurrogate(HexVal(s[..4])) {
      p := Pair(s[..4], s[6..10]);
      assert s == s[..4] + "\\u" + s[6..10] + s[10..];
    } else {
      p := Uni(s[..4]);
      assert s == s[..4] + s[4..];
    }
  }

  lemma StepSound(s: string) returns (p: Piece)
    requires StringStep(s).Chunk?
    ensures PieceOk(p) && s == RenderPiece(p) + StringStep(s).rest && StringStep(s).bytes == PieceValue(p)
  {
    if s[0] == '\\' {
      assert s == [s[0], s[1]] + s[2..];
      if s[1] == 'u' {
        p := EscapeSound(s[2..]);
        assert s == "\\u" + s[2..];
      } else {
        p := Esc(s[1]);
      }
    } else if s[0] as int < 0x80 {
      p := Raw([s[0]]);
      assert s == [s[0]] + s[1..];
    } else {
      p := RawSound(s);
    }
  }

  lemma RawSound(s: string) returns (p: Piece)
    requires StringStep(s).Chunk? && 0x80 <= s[0] as int
    ensures PieceOk(p) && s == RenderPiece(p) + StringStep(s).rest && StringStep(s).bytes == PieceValue(p)
  {
    DecodeIsRfc3629(s);
    hide DecodeUtf8;
    var n := DecodeUtf8(s).len;
    p := Raw(s[..n]);
    FirstCharLen(s);
    assert s == s[..n] + s[n..];
  }

  lemma FirstCharLen(s: string)
    requires CharLen(s) > 0
    ensures CharLen(s[..CharLen(s)]) == CharLen(s)
  {
  }

  lemma StepComplete(p: Piece, rest: string)
    requires PieceOk(p)
    ensures StringStep(RenderPiece(p) + rest) == Chunk(PieceValue(p), rest)
  {
    hide EncodeUtf8, HexVal, Combine, HexDigitVal, CharLen, DecodeUtf8;
    var s := RenderPiece(p) + rest;
    match p
    case Raw(b) => RawComplete(b, rest);
    case Esc(c) => assert s[2..] == rest;
    case Uni(h) =>
      assert s[2..] == h + rest;
      assert (h + rest)[..4] == h && (h + rest)[4..] == rest;
    case Pair(hi, lo) =>
      var t := hi + "\\u" + lo + rest;
      assert s[2..] == t;
      assert t[..4] == hi && t[4] == '\\' && t[5] == 'u' && t[6..10] == lo && t[10..] == rest;
  }

  lemma RawComplete(b: string, rest: string)
    requires PieceOk(Raw(b))
    ensures StringStep(b + rest) == Chunk(b, rest)
  {
    CharLenPrefix(b, rest);
    DecodeIsRfc3629(b + rest);
    hide DecodeUtf8;
    assert (b + rest)[0] == b[0] && (b + rest)[..|b|] == b && (b + rest)[|b|..] == rest;
    if b[0] as int < 0x80 {
      assert |b| == 1;
    } else {
      assert DecodeUtf8(b + rest).len == |b|;
    }
  }

  lemma CloseSound(s: string)
    requires StringStep(s).Close?
    ensures s == "\"" + StringStep(s).rest
  {
    hide DecodeUtf8, UnicodeEscape;
    assert s == [s[0]] + s[1..];
  }

  lemma CloseComplete(rest: string)
    ensures StringStep("\"" + rest) == Close(rest)
  {
  }

  lemma {:induction false} StringSound(s: string, acc: string) returns (ps: seq<Piece>)
    requires PChars(s, acc).Ok?
    ensures PiecesOk(ps) && s == RenderPieces(ps) + "\"" + PChars(s, acc).rest && PChars(s, acc).v == acc + PiecesValue(ps)
    decreases |s|
  {
    hide StringStep, PieceOk, RenderPiece, PieceValue;
    match StringStep(s)
    case Close(rest) =>
      ps := [];
      CloseSound(s);
      assert acc + "" == acc;
    case Chunk(bytes, rest) =>
      var p := StepSound(s);
      var tail := StringSound(rest, acc + bytes);
      ps := [p] + tail;
      assert acc + bytes + PiecesValue(tail) == acc + (bytes + PiecesValue(tail));
      assert RenderPiece(p) + (RenderPieces(tail) + "\"" + PChars(s, acc).rest) == RenderPieces(ps) + "\"" + PChars(s, acc).rest;
  }

  lemma {:induction false} StringComplete(ps: seq<Piece>, rest: string, acc: string)
    requires PiecesOk(ps)
    ensures PChars(RenderPieces(ps) + "\"" + rest, acc) == Ok(acc + PiecesValue(ps), rest)
  {
    hide StringStep, PieceOk, RenderPiece, PieceValue;
    var s := RenderPieces(ps) + "\"" + rest;
    if ps == [] {
      assert s == "\"" + rest;
      CloseComplete(rest);
      assert acc + "" == acc;
    } else {
      var tail := RenderPieces(ps[1..]) + "\"" + rest;
      assert s == RenderPiece(ps[0]) + tail;
      StepComplete(ps[0], tail);
      StringComplete(ps[1..], rest, acc + PieceValue(ps[0]));
      assert acc + PieceValue(ps[0]) + PiecesValue(ps[1..]) == acc + PiecesValue(ps);
    }
  }

  // Numbers

  lemma {:induction false} SkipDigitsSplits(s: string) returns (ds: string)
    ensures AllDigits(ds) && s == ds + SkipDigits(s)
    ensures s != "" && IsDigit(s[0]) ==> ds != "" && ds[0] == s[0]
  {
    if s != "" && IsDigit(s[0]) {
      var w := SkipDigitsSplits(s[1..]);
      ds := [s[0]] + w;
      assert s == [s[0]] + s[1..];
    } else {
      ds := "";
    }
  }

  lemma BeforeSuffix(s: string, a: string, b: string)
    requires s == a + b
    ensures Before(s, b) == a
  {
  }

  lemma {:induction false} SkipsDigits(ds: string, rest: string)
    requires AllDigits(ds) && (rest != "" ==> !IsDigit(rest[0]))
    ensures SkipDigits(ds + rest) == rest
  {
    if ds == "" {
      assert ds + rest == rest;
    } else {
      SkipsDigits(ds[1..], rest);
      assert (ds + rest)[1..] == ds[1..] + rest;
    }
  }

  /** What may stand after a value: nothing, whitespace, or one of the characters that go on or close a container. */
  predicate Follow(rest: string) {
    rest != "" ==> IsWs(rest[0]) || rest[0] == ',' || rest[0] == ']' || rest[0] == '}'
  }

  predicate NumberOk(ip: string, frac: string, exp: string) { IntPart(ip) && FracPart(frac) && ExpPart(exp) }

  lemma NumberSound(s: string) returns (ip: string, frac: string, exp: string)
    requires PNumber(s).Ok?
    ensures NumberOk(ip, frac, exp) && NumFits(Starts(s, '-'), ip, frac, exp)
    ensures var t := TNum(Starts(s, '-'), ip, frac, exp);
            s == Render(t) + PNumber(s).rest && PNumber(s).v == Value(t)
  {
    hide IntPart, FracPart, ExpPart, PInt, PFrac, PExp, NumFits, NumValue, Before;
    var a := if Starts(s, '-') then s[1..] else s;
    var b := PInt(a).rest;
    var c := PFrac(b).rest;
    var d := PExp(c).rest;
    ip := IntSound(a);
    frac := FracSound(b);
    exp := ExpSound(c);
    BeforeSuffix(a, ip, b);
    BeforeSuffix(b, frac, c);
    BeforeSuffix(c, exp, d);
    SignSplits(s);
    Regroup(if Starts(s, '-') then "-" else "", ip, frac, exp, d);
  }

  lemma SignSplits(s: string)
    ensures s == (if Starts(s, '-') then "-" else "") + (if Starts(s, '-') then s[1..] else s)
  {
  }

  lemma Regroup(a: string, b: string, c: string, d: string, e: string)
    ensures (a + b + c + d) + e == a + (b + (c + (d + e)))
  {
  }

  lemma IntSound(a: string) returns (ip: string)
    requires PInt(a).Ok?
    ensures IntPart(ip) && a == ip + PInt(a).rest
  {
    if Starts(a, '0') {
      ip := "0";
    } else {
      ip := SkipDigitsSplits(a);
    }
  }

  lemma FracSound(b: string) returns (frac: string)
    requires PFrac(b).Ok?
    ensures FracPart(frac) && b == frac + PFrac(b).rest
  {
    if Starts(b, '.') {
      var ds := SkipDigitsSplits(b[1..]);
      frac := "." + ds;
      assert frac[1..] == ds;
    } else {
      frac := "";
    }
  }

  lemma ExpShape(head: string, ds: string)
    requires ds != "" && AllDigits(ds)
    requires |head| == 1 || (|head| == 2 && (head[1] == '+' || head[1] == '-'))
    requires head[0] == 'e' || head[0] == 'E'
    ensures ExpPart(head + ds)
  {
    assert (head + ds)[|head|..] == ds;
  }

  lemma ExpSound(c: string) returns (exp: string)
    requires PExp(c).Ok?
    ensures ExpPart(exp) && c == exp + PExp(c).rest
  {
    if Starts(c, 'e') || Starts(c, 'E') {
      var k := if Starts(c[1..], '+') || Starts(c[1..], '-') then 2 else 1;
      assert k == 2 ==> c[1..][0] == c[1];
      exp := ExpDigits(c, k);
    } else {
      exp := "";
    }
  }

  lemma ExpDigits(c: string, k: nat) returns (exp: string)
    requires 1 <= k <= 2 && k <= |c| && PDigits(c[k..]).Ok?
    requires (c[0] == 'e' || c[0] == 'E') && (k == 2 ==> c[1] == '+' || c[1] == '-')
    ensures ExpPart(exp) && c == exp + PDigits(c[k..]).rest
  {
    hide AllDigits, ExpPart;
    var ds := SkipDigitsSplits(c[k..]);
    exp := c[..k] + ds;
    ExpShape(c[..k], ds);
    assert c == c[..k] + c[k..];
  }

  lemma NumberReads(neg: bool, ip: string, frac: string, exp: string, rest: string)
    requires NumberOk(ip, frac, exp) && Follow(rest)
    ensures PNumber(Lexeme(neg, ip, frac, exp) + rest)
            == if NumFits(neg, ip, frac, exp) then Ok(NumValue(neg, ip, frac, exp), rest) else Err
  {
    assert IsDigit(ip[0]);
    hide IntPart, FracPart, ExpPart, PInt, PFrac, PExp, NumFits, NumValue, Before;
    var c := exp + rest;
    var b := frac + c;
    var a := ip + b;
    var s := Lexeme(neg, ip, frac, exp) + rest;
    IntComplete(ip, frac, exp, rest);
    FracComplete(frac, exp, rest);
    ExpComplete(exp, rest);
    BeforeSuffix(a, ip, b);
    BeforeSuffix(b, frac, c);
    BeforeSuffix(c, exp, rest);
    Regroup(if neg then "-" else "", ip, frac, exp, rest);
    SignApart(neg, a);
  }

  lemma NumberComplete(neg: bool, ip: string, frac: string, exp: string, rest: string)
    requires NumberOk(ip, frac, exp) && NumFits(neg, ip, frac, exp) && Follow(rest)
    ensures PNumber(Render(TNum(neg, ip, frac, exp)) + rest) == Ok(NumValue(neg, ip, frac, exp), rest)
  {
    hide *;
    NumberReads(neg, ip, frac, exp, rest);
    NumberText(neg, ip, frac, exp);
  }

  lemma NumberText(neg: bool, ip: string, frac: string, exp: string)
    ensures Render(TNum(neg, ip, frac, exp)) == Lexeme(neg, ip, frac, exp)
  {
  }

  lemma SignApart(neg: bool, a: string)
    requires a != "" && IsDigit(a[0])
    ensures var s := (if neg then "-" else "") + a; Starts(s, '-') == neg && (if neg then s[1..] else s) == a
  {
  }

  lemma IntComplete(ip: string, frac: string, exp: string, rest: string)
    requires NumberOk(ip, frac, exp) && Follow(rest)
    ensures PInt(ip + (frac + (exp + rest))) == Ok((), frac + (exp + rest))
  {
    var b := frac + (exp + rest);
    assert b != "" ==> !IsDigit(b[0]);
    if ip != "0" { SkipsDigits(ip, b); } else { assert ("0" + b)[1..] == b; }
  }

  lemma FracComplete(frac: string, exp: string, rest: string)
    requires FracPart(frac) && ExpPart(exp) && Follow(rest)
    ensures PFrac(frac + (exp + rest)) == Ok((), exp + rest)
  {
    var c := exp + rest;
    assert c != "" ==> !IsDigit(c[0]) && c[0] != '.';
    if frac == "" {
      assert frac + c == c;
    } else {
      SkipsDigits(frac[1..], c);
      assert (frac + c)[1..] == frac[1..] + c;
    }
  }

  lemma ExpComplete(exp: string, rest: string)
    requires ExpPart(exp) && Follow(rest)
    ensures PExp(exp + rest) == Ok((), rest)
  {
    if exp == "" {
      assert exp + rest == rest;
    } else {
      var k := if exp[1] == '+' || exp[1] == '-' then 2 else 1;
      assert IsDigit(exp[1]) || k == 2;
      ExpSkips(exp, k, rest);
      assert (exp + rest)[1..] == exp[1..] + rest;
      hide AllDigits;
      assert (exp + rest)[k..] == exp[k..] + rest;
    }
  }

  lemma ExpSkips(exp: string, k: nat, rest: string)
    requires k < |exp| && AllDigits(exp[k..]) && Follow(rest)
    ensures PDigits(exp[k..] + rest) == Ok((), rest)
  {
    SkipsDigits(exp[k..], rest);
    assert IsDigit(exp[k..][0]);
  }
}
