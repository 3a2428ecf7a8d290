/** UTF-8 as sections 3 and 4 of RFC 3629 define it, and the decoder and encoder of the JSON layer. */
module Utf8 {

  predicate Scalar(cp: int) { 0 <= cp < 0xD800 || 0xDFFF < cp <= 0x10FFFF }

  predicate In(c: char, lo: int, hi: int) { lo <= c as int <= hi }
  predicate Tail(s: string, i: nat) { i < |s| && In(s[i], 0x80, 0xBF) }

  /** The ABNF of RFC 3629 section 4: the length of the UTF8-char that opens `s`, or 0 when none does. */
  function CharLen(s: string): (n: nat)
    ensures n <= 4 && n <= |s|
  {
    if s == "" then 0
    else if In(s[0], 0x00, 0x7F) then 1
    else if In(s[0], 0xC2, 0xDF) && Tail(s, 1) then 2
    else if || (s[0] as int == 0xE0 && |s| > 1 && In(s[1], 0xA0, 0xBF) && Tail(s, 2))
            || (In(s[0], 0xE1, 0xEC) && Tail(s, 1) && Tail(s, 2))
            || (s[0] as int == 0xED && |s| > 1 && In(s[1], 0x80, 0x9F) && Tail(s, 2))
            || (In(s[0], 0xEE, 0xEF) && Tail(s, 1) && Tail(s, 2)) then 3
    else if || (s[0] as int == 0xF0 && |s| > 1 && In(s[1], 0x90, 0xBF) && Tail(s, 2) && Tail(s, 3))
            || (In(s[0], 0xF1, 0xF3) && Tail(s, 1) && Tail(s, 2) && Tail(s, 3))
            || (s[0] as int == 0xF4 && |s| > 1 && In(s[1], 0x80, 0x8F) && Tail(s, 2) && Tail(s, 3)) then 4
    else 0
  }

  /** UTF8-octets = *( UTF8-char ) */
  predicate Valid(s: string)
    decreases |s|
  {
    s == "" || (CharLen(s) > 0 && Valid(s[CharLen(s)..]))
  }

  datatype Decoded = Invalid | Decoded(len: nat, cp: int)

  /** One sequence at the front of `s`, by the lead byte's class and the value it spells. */
  function DecodeUtf8(s: string): Decoded
    requires s != ""
  {
    var c := s[0] as int;
    if c < 0x80 then Decoded(1, c)
    else if 0xC0 <= c < 0xE0 then
      if |s| < 2 || !Tail(s, 1) then Invalid
      else
        var v := (c % 0x20) * 0x40 + s[1] as int % 0x40;
        if v < 0x80 then Invalid else Decoded(2, v)
    else if 0xE0 <= c < 0xF0 then
      if |s| < 3 || !Tail(s, 1) || !Tail(s, 2) then Invalid
      else
        var v := (c % 0x10) * 0x1000 + (s[1] as int % 0x40) * 0x40 + s[2] as int % 0x40;
        if v < 0x800 || 0xD800 <= v <= 0xDFFF then Invalid else Decoded(3, v)
    else if 0xF0 <= c < 0xF8 then
      if |s| < 4 || !Tail(s, 1) || !Tail(s, 2) || !Tail(s, 3) then Invalid
      else
        var v := (c % 8) * 0x40000 + (s[1] as int % 0x40) * 0x1000 + (s[2] as int % 0x40) * 0x40 + s[3] as int % 0x40;
        if v < 0x10000 || v > 0x10FFFF then Invalid else Decoded(4, v)
    else Invalid
  }

  /** Section 3 of RFC 3629: the bit distribution of one to four octets. */
  function EncodeUtf8(cp: int): string
    requires 0 <= cp <= 0x10FFFF
  {
    if cp <= 0x7F then [cp as char]
    else if cp <= 0x7FF then [(0xC0 + cp / 0x40) as char, (0x80 + cp % 0x40) as char]
    else if cp <= 0xFFFF then
      [(0xE0 + cp / 0x1000) as char, (0x80 + cp / 0x40 % 0x40) as char, (0x80 + cp % 0x40) as char]
    else
      [(0xF0 + cp / 0x40000) as char, (0x80 + cp / 0x1000 % 0x40) as char,
       (0x80 + cp / 0x40 % 0x40) as char, (0x80 + cp % 0x40) as char]
  }

  lemma Radix64(a: int, b: int, c: int, d: int)
    requires 0 <= a && 0 <= b < 0x40 && 0 <= c < 0x40 && 0 <= d < 0x40
    ensures (b * 0x40 + d) / 0x40 == b && (b * 0x40 + d) % 0x40 == d
    ensures var v := a * 0x1000 + b * 0x40 + d; v / 0x1000 == a && v / 0x40 % 0x40 == b && v % 0x40 == d
    ensures var v := a * 0x40000 + b * 0x1000 + c * 0x40 + d;
            v / 0x40000 == a && v / 0x1000 % 0x40 == b && v / 0x40 % 0x40 == c && v % 0x40 == d
  {
    var v := a * 0x1000 + b * 0x40 + d;
    assert v / 0x40 == a * 0x40 + b;
    var w := a * 0x40000 + b * 0x1000 + c * 0x40 + d;
    assert w / 0x40 == a * 0x1000 + b * 0x40 + c;
    assert w / 0x1000 == a * 0x40 + b;
  }

  lemma Decode1(s: string)
    requires s != "" && s[0] as int < 0xE0
    ensures DecodeUtf8(s).Decoded? <==> CharLen(s) > 0
    ensures DecodeUtf8(s).Decoded? ==>
              var d := DecodeUtf8(s); d.len == CharLen(s) && Scalar(d.cp) && EncodeUtf8(d.cp) == s[..d.len]
  {
    if s[0] as int >= 0xC0 && |s| > 1 && Tail(s, 1) {
      Radix64(0, s[0] as int % 0x20, 0, s[1] as int % 0x40);
    }
  }

  lemma Decode3(s: string)
    requires s != "" && 0xE0 <= s[0] as int < 0xF0
    ensures DecodeUtf8(s).Decoded? <==> CharLen(s) > 0
    ensures DecodeUtf8(s).Decoded? ==>
              var d := DecodeUtf8(s); d.len == CharLen(s) && Scalar(d.cp) && EncodeUtf8(d.cp) == s[..d.len]
  {
    if |s| > 2 && Tail(s, 1) && Tail(s, 2) {
      var x, y, z := s[0] as int % 0x10, s[1] as int % 0x40, s[2] as int % 0x40;
      Radix64(x, y, 0, z);
      assert s[0] as int == 0xE0 + x && s[1] as int == 0x80 + y && s[2] as int == 0x80 + z;
    }
  }

  lemma Decode4(s: string)
    requires s != "" && 0xF0 <= s[0] as int
    ensures DecodeUtf8(s).Decoded? <==> CharLen(s) > 0
    ensures DecodeUtf8(s).Decoded? ==>
              var d := DecodeUtf8(s); d.len == CharLen(s) && Scalar(d.cp) && EncodeUtf8(d.cp) == s[..d.len]
  {
    if s[0] as int < 0xF8 && |s| > 3 && Tail(s, 1) && Tail(s, 2) && Tail(s, 3) {
      var w, x, y, z := s[0] as int - 0xF0, s[1] as int - 0x80, s[2] as int - 0x80, s[3] as int - 0x80;
      hide CharLen, DecodeUtf8, EncodeUtf8;
      QuadRange(w, x, y, z);
      CharLenQuad(s, w, x);
      DecodeQuad(s, w, x, y, z, w * 0x40000 + x * 0x1000 + y * 0x40 + z);
      if CharLen(s) == 4 { EncodeQuad(s, w, x, y, z); }
    } else {
      hide EncodeUtf8;
    }
  }

  lemma CharLenQuad(s: string, w: int, x: int)
    requires 0 <= w < 8 && 0 <= x < 0x40 && Is(s, 0, 0xF0 + w) && Is(s, 1, 0x80 + x) && Tail(s, 2) && Tail(s, 3)
    ensures CharLen(s) == if (w == 0 && x >= 0x10) || 1 <= w <= 3 || (w == 4 && x < 0x10) then 4 else 0
  {
  }

  lemma EncodeQuad(s: string, w: int, x: int, y: int, z: int)
    requires 0 <= w < 8 && 0 <= x < 0x40 && 0 <= y < 0x40 && 0 <= z < 0x40
    requires Is(s, 0, 0xF0 + w) && Is(s, 1, 0x80 + x) && Is(s, 2, 0x80 + y) && Is(s, 3, 0x80 + z)
    requires 0x10000 <= w * 0x40000 + x * 0x1000 + y * 0x40 + z <= 0x10FFFF
    ensures EncodeUtf8(w * 0x40000 + x * 0x1000 + y * 0x40 + z) == s[..4]
  {
    hide CharLen, DecodeUtf8;
    Radix64(w, x, y, z);
  }

  /** The second octet alone decides whether four octets spell a scalar value. */
  lemma QuadRange(w: int, x: int, y: int, z: int)
    requires 0 <= w < 8 && 0 <= x < 0x40 && 0 <= y < 0x40 && 0 <= z < 0x40
    ensures var v := w * 0x40000 + x * 0x1000 + y * 0x40 + z;
            0x10000 <= v <= 0x10FFFF <==> (w == 0 && x >= 0x10) || 1 <= w <= 3 || (w == 4 && x < 0x10)
  {
  }

  /** The decoder accepts exactly the octets the ABNF derives, and inverts the encoder. */
  lemma DecodeIsRfc3629(s: string)
    requires s != ""
    ensures DecodeUtf8(s).Decoded? <==> CharLen(s) > 0
    ensures DecodeUtf8(s).Decoded? ==>
              var d := DecodeUtf8(s); d.len == CharLen(s) && Scalar(d.cp) && EncodeUtf8(d.cp) == s[..d.len]
  {
    if s[0] as int < 0xE0 { Decode1(s); } else if s[0] as int < 0xF0 { Decode3(s); } else { Decode4(s); }
  }

  lemma Digits64(cp: int)
    requires 0 <= cp <= 0x10FFFF
    ensures cp == cp / 0x40 * 0x40 + cp % 0x40
    ensures cp == cp / 0x1000 * 0x1000 + cp / 0x40 % 0x40 * 0x40 + cp % 0x40
    ensures cp == cp / 0x40000 * 0x40000 + cp / 0x1000 % 0x40 * 0x1000 + cp / 0x40 % 0x40 * 0x40 + cp % 0x40
  {
  }

  predicate Is(s: string, i: nat, v: int) { i < |s| && s[i] as int == v }

  /** Reading back two, three or four octets whose payload bits are given. */
  lemma DecodePair(s: string, w: int, z: int)
    requires 0 <= w < 0x20 && 0 <= z < 0x40 && w * 0x40 + z >= 0x80
    requires Is(s, 0, 0xC0 + w) && Is(s, 1, 0x80 + z)
    ensures DecodeUtf8(s) == Decoded(2, w * 0x40 + z)
  {
  }

  lemma DecodeTriple(s: string, w: int, y: int, z: int, v: int)
    requires 0 <= w < 0x10 && 0 <= y < 0x40 && 0 <= z < 0x40 && v == w * 0x1000 + y * 0x40 + z
    requires v >= 0x800 && Scalar(v)
    requires Is(s, 0, 0xE0 + w) && Is(s, 1, 0x80 + y) && Is(s, 2, 0x80 + z)
    ensures DecodeUtf8(s) == Decoded(3, v)
  {
    assert s[0] as int % 0x10 == w && s[1] as int % 0x40 == y && s[2] as int % 0x40 == z;
  }

  lemma DecodeQuad(s: string, w: int, x: int, y: int, z: int, v: int)
    requires 0 <= w < 8 && 0 <= x < 0x40 && 0 <= y < 0x40 && 0 <= z < 0x40
    requires v == w * 0x40000 + x * 0x1000 + y * 0x40 + z
    requires Is(s, 0, 0xF0 + w) && Is(s, 1, 0x80 + x) && Is(s, 2, 0x80 + y) && Is(s, 3, 0x80 + z)
    ensures DecodeUtf8(s) == if 0x10000 <= v <= 0x10FFFF then Decoded(4, v) else Invalid
  {
    assert s[0] as int % 8 == w && s[1] as int % 0x40 == x && s[2] as int % 0x40 == y && s[3] as int % 0x40 == z;
  }

  lemma EncodeDecodes(cp: int, rest: string)
    requires Scalar(cp)
    ensures DecodeUtf8(EncodeUtf8(cp) + rest) == Decoded(|EncodeUtf8(cp)|, cp)
  {
    var s := EncodeUtf8(cp) + rest;
    Digits64(cp);
    if cp <= 0x7F {
    } else if cp <= 0x7FF {
      DecodePair(s, cp / 0x40, cp % 0x40);
    } else if cp <= 0xFFFF {
      DecodeTriple(s, cp / 0x1000, cp / 0x40 % 0x40, cp % 0x40, cp);
    } else {
      DecodeQuad(s, cp / 0x40000, cp / 0x1000 % 0x40, cp / 0x40 % 0x40, cp % 0x40, cp);
    }
  }

  lemma CharLenPrefix(a: string, b: string)
    requires CharLen(a) > 0
    ensures CharLen(a + b) == CharLen(a)
  {
    assert forall i | 0 <= i < |a| :: (a + b)[i] == a[i];
  }

  lemma {:induction false} ValidAppend(a: string, b: string)
    requires Valid(a) && Valid(b)
    ensures Valid(a + b)
    decreases |a|
  {
    hide CharLen;
    if a == "" {
      assert a + b == b;
    } else {
      var n := CharLen(a);
      CharLenPrefix(a, b);
      ValidAppend(a[n..], b);
      assert (a + b)[n..] == a[n..] + b;
    }
  }

  lemma ValidScalar(cp: int)
    requires Scalar(cp)
    ensures Valid(EncodeUtf8(cp))
  {
    var e := EncodeUtf8(cp);
    EncodeDecodes(cp, "");
    assert e + "" == e;
    DecodeIsRfc3629(e);
    assert e[|e|..] == "";
  }

  /** The sequence at the front of a string is a valid string by itself. */
  lemma ValidFirst(s: string)
    requires s != "" && CharLen(s) > 0
    ensures Valid(s[..CharLen(s)])
  {
    DecodeIsRfc3629(s);
    ValidScalar(DecodeUtf8(s).cp);
  }
}
