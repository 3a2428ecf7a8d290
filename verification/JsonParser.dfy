/** The parser as it runs: a cursor that moves over the text. */
module JsonParser {
  import opened Wrappers
  import opened Order
  import opened Utf8
  import opened JsonValue
  import opened JsonGrammar
  import opened JsonParse

  lemma Suffix(text: string, pos: nat, k: nat)
    requires pos + k <= |text|
    ensures text[pos..][k..] == text[pos + k..]
    ensures text[pos..][..k] == text[pos..pos + k]
    ensures forall i | 0 <= i < |text| - pos :: text[pos..][i] == text[pos + i]
  {
  }

  class Parser {
    const text: string
    var pos: nat

    predicate Valid()
      reads this
    {
      pos <= |text|
    }

    function Rest(): string
      requires Valid()
      reads this
    {
      text[pos..]
    }

    constructor (text: string)
      ensures Valid() && this.text == text && Rest() == text
    {
      this.text := text;
      pos := 0;
    }

    method SkipSpace()
      requires Valid()
      modifies this`pos
      ensures Valid() && Rest() == SkipWs(old(Rest())) && pos >= old(pos)
    {
      while pos < |text|
        invariant old(pos) <= pos <= |text| && SkipWs(text[pos..]) == SkipWs(old(Rest()))
      {
        Suffix(text, pos, 1);
        var c := text[pos];
        if c == ' ' || c == '\t' || c == '\n' || c == '\r' {
          pos := pos + 1;
        } else {
          break;
        }
      }
    }

    method ParseHex4() returns (ok: bool, v: int)
      requires Valid()
      modifies this`pos
      ensures Valid() && pos >= old(pos)
      ensures ok <==> |old(Rest())| >= 4 && AllHex(old(Rest())[..4])
      ensures ok ==> v == HexVal(old(Rest())[..4]) && Rest() == old(Rest())[4..]
    {
      v := 0;
      if pos + 4 > |text| { return false, 0; }
      Suffix(text, pos, 4);
      ghost var h := text[pos..pos + 4];
      var i := 0;
      while i < 4
        invariant 0 <= i <= 4 && pos == old(pos)
        invariant AllHex(h[..i])
        invariant v == (if i > 0 then HexDigitVal(h[0]) else 0) * (if i > 3 then 0x1000 else if i > 2 then 0x100 else if i > 1 then 0x10 else 1)
                     + (if i > 1 then HexDigitVal(h[1]) else 0) * (if i > 3 then 0x100 else if i > 2 then 0x10 else 1)
                     + (if i > 2 then HexDigitVal(h[2]) else 0) * (if i > 3 then 0x10 else 1)
                     + (if i > 3 then HexDigitVal(h[3]) else 0)
      {
        var c := text[pos + i];
        assert h[i] == c;
        v := v * 16;
        if '0' <= c <= '9' { v := v + (c as int - '0' as int); }
        else if 'a' <= c <= 'f' { v := v + (c as int - 'a' as int + 10); }
        else if 'A' <= c <= 'F' { v := v + (c as int - 'A' as int + 10); }
        else {
          assert HexDigitVal(h[i]) < 0;
          return false, 0;
        }
        i := i + 1;
      }
      assert h[..4] == h;
      pos := pos + 4;
      return true, v;
    }

    /** After the `u` of an escape: the bytes it stands for. */
    method ParseUnicode() returns (ok: bool, bytes: string)
      requires Valid()
      modifies this`pos
      ensures Valid() && pos >= old(pos)
      ensures ok <==> UnicodeEscape(old(Rest())).Chunk?
      ensures ok ==> UnicodeEscape(old(Rest())) == Chunk(bytes, Rest())
    {
      hide HexVal, AllHex, Combine, EncodeUtf8;
      bytes := "";
      ghost var s := Rest();
      var cp: int;
      ok, cp := ParseHex4();
      if !ok { return; }
      if 0xD800 <= cp <= 0xDBFF {
        if pos + 1 < |text| && text[pos] == '\\' && text[pos + 1] == 'u' {
          Suffix(s, 4, 2);
          pos := pos + 2;
          var lo: int;
          ok, lo := ParseHex4();
          assert |s| >= 10 ==> s[6..][..4] == s[6..10] && s[6..][4..] == s[10..];
          if !ok { return; }
          if 0xDC00 <= lo <= 0xDFFF {
            bytes := EncodeUtf8(0x10000 + (cp - 0xD800) * 0x400 + (lo - 0xDC00));
            CombineIs(cp, lo);
          } else {
            ok := false;
          }
        } else {
          ok := false;
        }
      } else if 0xDC00 <= cp <= 0xDFFF {
        ok := false;
      } else {
        HexValBound(s[..4]);
        bytes := EncodeUtf8(cp);
      }
    }

    /** At a backslash: the bytes the escape stands for. */
    method ParseEscape() returns (ok: bool, bytes: string)
      requires Valid() && Starts(Rest(), '\\')
      modifies this`pos
      ensures Valid() && pos > old(pos)
      ensures ok <==> StringStep(old(Rest())).Chunk?
      ensures ok ==> StringStep(old(Rest())) == Chunk(bytes, Rest())
    {
      hide DecodeUtf8, UnicodeEscape;
      bytes := "";
      Suffix(text, pos, 1);
      pos := pos + 1;
      if pos >= |text| { return false, ""; }
      Suffix(text, pos - 1, 2);
      ok := true;
      match text[pos] {
        case '"' => bytes := ['"']; pos := pos + 1;
        case '\\' => bytes := ['\\']; pos := pos + 1;
        case '/' => bytes := ['/']; pos := pos + 1;
        case 'b' => bytes := [8 as char]; pos := pos + 1;
        case 'f' => bytes := [12 as char]; pos := pos + 1;
        case 'n' => bytes := ['\n']; pos := pos + 1;
        case 'r' => bytes := ['\r']; pos := pos + 1;
        case 't' => bytes := ['\t']; pos := pos + 1;
        case 'u' =>
          pos := pos + 1;
          ok, bytes := ParseUnicode();
        case _ => ok := false;
      }
    }

    method ParseString() returns (ok: bool, out: string)
      requires Valid() && Starts(Rest(), '"')
      modifies this`pos
      ensures Valid() && pos > old(pos)
      ensures ok <==> PChars(old(Rest())[1..], "").Ok?
      ensures ok ==> PChars(old(Rest())[1..], "") == Ok(out, Rest())
    {
      hide StringStep, DecodeUtf8;
      ghost var start := Rest()[1..];
      Suffix(text, pos, 1);
      pos := pos + 1;
      out := "";
      while true
        invariant old(pos) < pos <= |text| && PChars(text[pos..], out) == PChars(start, "")
        decreases |text| - pos
      {
        PlainStep(text, pos);
        if pos >= |text| { return false, ""; }
        var c := text[pos];
        if c == '"' {
          pos := pos + 1;
          return true, out;
        }
        if c == '\\' {
          var chunk: string;
          ok, chunk := ParseEscape();
          if !ok { return false, ""; }
          out := out + chunk;
          continue;
        }
        if c as int < 0x20 { return false, ""; }
        if c as int < 0x80 {
          out := out + [c];
          pos := pos + 1;
          continue;
        }
        match DecodeUtf8(text[pos..]) {
          case Invalid => return false, "";
          case Decoded(len, _) =>
            out := out + text[pos..pos + len];
            pos := pos + len;
        }
      }
    }

    method SkipDigitsLoop()
      requires Valid()
      modifies this`pos
      ensures Valid() && pos >= old(pos) && Rest() == SkipDigits(old(Rest()))
    {
      while pos < |text| && '0' <= text[pos] <= '9'
        invariant old(pos) <= pos <= |text| && SkipDigits(text[pos..]) == SkipDigits(old(Rest()))
      {
        Suffix(text, pos, 1);
        pos := pos + 1;
      }
      if pos < |text| { Suffix(text, pos, 0); }
    }

    method ParseIntPart() returns (ok: bool)
      requires Valid()
      modifies this`pos
      ensures Valid() && pos >= old(pos)
      ensures ok <==> PInt(old(Rest())).Ok?
      ensures ok ==> PInt(old(Rest())) == Ok((), Rest())
    {
      if pos >= |text| { return false; }
      Suffix(text, pos, 1);
      if text[pos] == '0' {
        pos := pos + 1;
        return !(pos < |text| && '0' <= text[pos] <= '9');
      } else if '1' <= text[pos] <= '9' {
        SkipDigitsLoop();
        return true;
      } else {
        return false;
      }
    }

    method ParseFraction() returns (ok: bool, present: bool)
      requires Valid()
      modifies this`pos
      ensures Valid() && pos >= old(pos)
      ensures ok <==> PFrac(old(Rest())).Ok?
      ensures ok ==> PFrac(old(Rest())) == Ok((), Rest()) && (present <==> pos != old(pos))
    {
      present := false;
      if pos < |text| && text[pos] == '.' {
        present := true;
        Suffix(text, pos, 1);
        pos := pos + 1;
        if pos >= |text| || text[pos] < '0' || text[pos] > '9' { return false, true; }
        SkipDigitsLoop();
      }
      ok := true;
    }

    method ParseExponent() returns (ok: bool, present: bool)
      requires Valid()
      modifies this`pos
      ensures Valid() && pos >= old(pos)
      ensures ok <==> PExp(old(Rest())).Ok?
      ensures ok ==> PExp(old(Rest())) == Ok((), Rest()) && (present <==> pos != old(pos))
    {
      present := false;
      if pos < |text| && (text[pos] == 'e' || text[pos] == 'E') {
        present := true;
        Suffix(text, pos, 1);
        pos := pos + 1;
        if pos < |text| { Suffix(text, pos - 1, 2); }
        if pos < |text| && (text[pos] == '+' || text[pos] == '-') { pos := pos + 1; }
        if pos >= |text| || text[pos] < '0' || text[pos] > '9' { return false, true; }
        SkipDigitsLoop();
      }
      ok := true;
    }

    method ParseNumber() returns (ok: bool, out: Json)
      requires Valid()
      modifies this`pos
      ensures Valid() && pos >= old(pos)
      ensures ok <==> PNumber(old(Rest())).Ok?
      ensures ok ==> PNumber(old(Rest())) == Ok(out, Rest())
    {
      hide PInt, PFrac, PExp, Before, NumFits, NumValue;
      var start := pos;
      out := Null;
      var neg := pos < |text| && text[pos] == '-';
      if neg { Suffix(text, pos, 1); pos := pos + 1; }
      var digitsAt := pos;
      ok := ParseIntPart();
      if !ok { return; }
      var fracAt, isDouble, hasExp := pos, false, false;
      ok, isDouble := ParseFraction();
      if !ok { return; }
      var expAt := pos;
      ok, hasExp := ParseExponent();
      if !ok { return; }
      match NumberOf(neg, text[digitsAt..fracAt], isDouble || hasExp, text[start..pos]) {
        case None => ok := false;
        case Some(v) => out := v;
      }
      LexemeIs(text, start, digitsAt, fracAt, expAt, pos, neg);
      BeforeIs(text, digitsAt, fracAt);
      BeforeIs(text, fracAt, expAt);
      BeforeIs(text, expAt, pos);
    }

    method ParseValue(depth: nat) returns (ok: bool, out: Json)
      requires Valid()
      modifies this`pos
      ensures Valid() && pos >= old(pos)
      ensures ok <==> PValue(old(Rest()), depth).Ok?
      ensures ok ==> PValue(old(Rest()), depth) == Ok(out, Rest()) && pos > old(pos)
      decreases |text| - pos, 1
    {
      hide PObject, PArray, PNumber, PChars;
      out := Null;
      ghost var s := Rest();
      if depth > MAX_DEPTH || pos >= |text| { return false, Null; }
      Suffix(text, pos, 1);
      LiteralAt(text, pos, "true");
      LiteralAt(text, pos, "false");
      LiteralAt(text, pos, "null");
      match text[pos] {
        case '{' => ok, out := ParseObject(depth);
        case '[' => ok, out := ParseArray(depth);
        case '"' =>
          var str: string;
          ok, str := ParseString();
          out := Str(str);
        case 't' =>
          ok := pos + 4 <= |text| && text[pos..pos + 4] == "true";
          if ok { pos := pos + 4; out := Bool(true); }
        case 'f' =>
          ok := pos + 5 <= |text| && text[pos..pos + 5] == "false";
          if ok { pos := pos + 5; out := Bool(false); }
        case 'n' =>
          ok := pos + 4 <= |text| && text[pos..pos + 4] == "null";
          if ok { pos := pos + 4; out := Null; }
        case _ => ok, out := ParseNumber();
      }
    }

    method ParseArray(depth: nat) returns (ok: bool, out: Json)
      requires Valid() && Starts(Rest(), '[')
      modifies this`pos
      ensures Valid() && pos > old(pos)
      ensures ok <==> PArray(old(Rest())[1..], depth).Ok?
      ensures ok ==> PArray(old(Rest())[1..], depth) == Ok(out, Rest())
      decreases |text| - pos, 0
    {
      hide PValue, SkipWs, PItems, PArray;
      Suffix(text, pos, 1);
      pos := pos + 1;
      out := Null;
      ghost var body := Rest();
      ArrayUnfold(body, depth);
      var arr: seq<Json> := [];
      SkipSpace();
      if pos < |text| && text[pos] == ']' {
        pos := pos + 1;
        return true, Arr(arr);
      }
      ghost var items := Rest();
      assert PArray(body, depth) == PItems(items, depth, []);
      var more := true;
      ok := true;
      while more
        invariant Valid() && pos > old(pos) && (more ==> ok)
        invariant PItems(items, depth, []) == if !ok then Err else if more then PItems(Rest(), depth, arr) else Ok(Arr(arr), Rest())
        decreases |text| - pos, more
      {
        ok, more, arr := ParseItem(depth, arr);
      }
      out := Arr(arr);
    }

    /** One turn of the array loop: an element and the separator after it. */
    method ParseItem(depth: nat, arr: seq<Json>) returns (ok: bool, more: bool, arr': seq<Json>)
      requires Valid()
      modifies this`pos
      ensures Valid() && pos >= old(pos) && (more ==> ok && pos > old(pos))
      ensures PItems(old(Rest()), depth, arr) ==
              if !ok then Err else if more then PItems(Rest(), depth, arr') else Ok(Arr(arr'), Rest())
      decreases |text| - pos, 2
    {
      hide PValue, SkipWs, PItems;
      ItemsUnfold(Rest(), depth, arr);
      SkipSpace();
      arr', more := arr, false;
      var val: Json;
      ok, val := ParseValue(depth + 1);
      if !ok { return; }
      arr' := arr + [val];
      SkipSpace();
      if pos >= |text| { return false, false, arr'; }
      Suffix(text, pos, 1);
      if text[pos] == ',' { pos := pos + 1; more := true; return; }
      if text[pos] == ']' { pos := pos + 1; return; }
      ok := false;
    }

    method ParseObject(depth: nat) returns (ok: bool, out: Json)
      requires Valid() && Starts(Rest(), '{')
      modifies this`pos
      ensures Valid() && pos > old(pos)
      ensures ok <==> PObject(old(Rest())[1..], depth).Ok?
      ensures ok ==> PObject(old(Rest())[1..], depth) == Ok(out, Rest())
      decreases |text| - pos, 0
    {
      hide PValue, SkipWs, PKey, PMembers, PObject;
      Suffix(text, pos, 1);
      pos := pos + 1;
      out := Null;
      ghost var body := Rest();
      ObjectUnfold(body, depth);
      var obj: map<string, Json> := map[];
      SkipSpace();
      if pos < |text| && text[pos] == '}' {
        pos := pos + 1;
        return true, Obj(obj);
      }
      ghost var members := Rest();
      assert PObject(body, depth) == PMembers(members, depth, map[]);
      var more := true;
      ok := true;
      while more
        invariant Valid() && pos > old(pos) && (more ==> ok)
        invariant PMembers(members, depth, map[]) == if !ok then Err else if more then PMembers(Rest(), depth, obj) else Ok(Obj(obj), Rest())
        decreases |text| - pos, more
      {
        ok, more, obj := ParseMember(depth, obj);
      }
      out := Obj(obj);
    }

    /** One turn of the object loop: a key, its value and the separator after it; a repeated key is overwritten. */
    method ParseMember(depth: nat, obj: map<string, Json>) returns (ok: bool, more: bool, obj': map<string, Json>)
      requires Valid()
      modifies this`pos
      ensures Valid() && pos >= old(pos) && (more ==> ok && pos > old(pos))
      ensures PMembers(old(Rest()), depth, obj) ==
              if !ok then Err else if more then PMembers(Rest(), depth, obj') else Ok(Obj(obj'), Rest())
      decreases |text| - pos, 2
    {
      hide PValue, SkipWs, PKey, PMembers;
      MembersUnfold(Rest(), depth, obj);
      obj', more := obj, false;
      var key: string;
      ok, key := ParseKey();
      if !ok { return; }
      var val: Json;
      ok, val := ParseValue(depth + 1);
      if !ok { return; }
      obj' := obj[key := val];
      SkipSpace();
      if pos >= |text| { return false, false, obj'; }
      Suffix(text, pos, 1);
      if text[pos] == ',' { pos := pos + 1; more := true; return; }
      if text[pos] == '}' { pos := pos + 1; return; }
      ok := false;
    }

    method ParseKey() returns (ok: bool, key: string)
      requires Valid()
      modifies this`pos
      ensures Valid() && pos >= old(pos)
      ensures ok <==> PKey(old(Rest())).Ok?
      ensures ok ==> PKey(old(Rest())) == Ok(key, Rest()) && pos > old(pos)
    {
      hide PChars, SkipWs;
      key := "";
      SkipSpace();
      if pos >= |text| || text[pos] != '"' { return false, ""; }
      ok, key := ParseString();
      if !ok { return; }
      SkipSpace();
      if pos >= |text| || text[pos] != ':' { return false, ""; }
      Suffix(text, pos, 1);
      pos := pos + 1;
      SkipSpace();
    }

    /** A whole document, from the start of the text. */
    method Run() returns (r: Option<Json>)
      requires Valid() && pos == 0
      modifies this`pos
      ensures r == Parse(text)
    {
      hide PValue, SkipWs;
      assert Rest() == text;
      SkipSpace();
      var ok, root := ParseValue(0);
      if !ok { return None; }
      SkipSpace();
      if pos != |text| { return None; }
      return Some(root);
    }
  }

  lemma ArrayUnfold(s: string, d: nat)
    ensures var s1 := SkipWs(s);
            PArray(s, d) == if s1 != "" && s1[0] == ']' then Ok(Arr([]), s1[1..]) else PItems(s1, d, [])
  {
    hide PItems, SkipWs;
  }

  lemma ObjectUnfold(s: string, d: nat)
    ensures var s1 := SkipWs(s);
            PObject(s, d) == if s1 != "" && s1[0] == '}' then Ok(Obj(map[]), s1[1..]) else PMembers(s1, d, map[])
  {
    hide PMembers, SkipWs;
  }

  lemma ItemsUnfold(s: string, d: nat, acc: seq<Json>)
    ensures PItems(s, d, acc) ==
            match PValue(SkipWs(s), d + 1)
            case Err => Err
            case Ok(v, s1) =>
              var s2 := SkipWs(s1);
              if s2 != "" && s2[0] == ',' then PItems(s2[1..], d, acc + [v])
              else if s2 != "" && s2[0] == ']' then Ok(Arr(acc + [v]), s2[1..])
              else Err
  {
    hide PValue, SkipWs;
  }

  lemma MembersUnfold(s: string, d: nat, acc: map<string, Json>)
    ensures PMembers(s, d, acc) ==
            match PKey(s)
            case Err => Err
            case Ok(key, s1) =>
              match PValue(s1, d + 1)
              case Err => Err
              case Ok(v, s2) =>
                var s3 := SkipWs(s2);
                if s3 != "" && s3[0] == ',' then PMembers(s3[1..], d, acc[key := v])
                else if s3 != "" && s3[0] == '}' then Ok(Obj(acc[key := v]), s3[1..])
                else Err
  {
    hide PValue, SkipWs, PKey;
  }

  lemma LiteralAt(text: string, pos: nat, lit: string)
    requires pos <= |text|
    ensures lit <= text[pos..] <==> pos + |lit| <= |text| && text[pos..pos + |lit|] == lit
    ensures lit <= text[pos..] ==> text[pos..][|lit|..] == text[pos + |lit|..]
  {
    if pos + |lit| <= |text| { Suffix(text, pos, |lit|); }
  }

  lemma BeforeIs(text: string, i: nat, j: nat)
    requires i <= j <= |text|
    ensures Before(text[i..], text[j..]) == text[i..j]
  {
  }

  /** The branches of the string loop that read no escape. */
  lemma PlainStep(text: string, pos: nat)
    requires pos <= |text|
    ensures pos == |text| ==> StringStep(text[pos..]) == Bad
    ensures pos < |text| && text[pos] == '"' ==> StringStep(text[pos..]) == Close(text[pos + 1..])
    ensures pos < |text| && text[pos] == '\\' ==> Starts(text[pos..], '\\') && !StringStep(text[pos..]).Close?
    ensures pos < |text| && text[pos] as int < 0x20 ==> StringStep(text[pos..]) == Bad
    ensures pos < |text| && 0x20 <= text[pos] as int < 0x80 && text[pos] != '"' && text[pos] != '\\'
            ==> StringStep(text[pos..]) == Chunk([text[pos]], text[pos + 1..])
    ensures pos < |text| && text[pos] as int >= 0x80
            ==> match DecodeUtf8(text[pos..])
                case Invalid => StringStep(text[pos..]) == Bad
                case Decoded(len, _) => 0 < len <= |text| - pos && StringStep(text[pos..]) == Chunk(text[pos..pos + len], text[pos + len..])
  {
    if pos < |text| {
      Suffix(text, pos, 1);
      match DecodeUtf8(text[pos..])
      case Invalid =>
      case Decoded(len, _) => DecodedLen(text[pos..]); Suffix(text, pos, len);
    }
    hide DecodeUtf8, UnicodeEscape;
  }

  lemma HexValBound(h: string)
    requires IsHex4(h)
    ensures 0 <= HexVal(h) <= 0xFFFF
  {
  }

  lemma CombineIs(hi: int, lo: int)
    requires HighSurrogate(hi) && LowSurrogate(lo)
    ensures Combine(hi, lo) == 0x10000 + (hi - 0xD800) * 0x400 + (lo - 0xDC00)
  {
  }

  lemma DecodedLen(s: string)
    requires s != "" && DecodeUtf8(s).Decoded?
    ensures 0 < DecodeUtf8(s).len <= |s|
  {
  }

  /** from_chars: a lexeme without fraction and exponent is an int64 when it fits, else a double when that is in range. */
  function NumberOf(neg: bool, digits: string, isDouble: bool, lexeme: string): Option<Json> {
    var n := if neg then -DecVal(digits) else DecVal(digits);
    if !isDouble && INT64_MIN <= n <= INT64_MAX then Some(Int(n))
    else match READ_DOUBLE(lexeme) case Some(t) => Some(Double(t)) case None => None
  }

  lemma LexemeIs(text: string, start: nat, digitsAt: nat, fracAt: nat, expAt: nat, end: nat, neg: bool)
    requires start <= digitsAt <= fracAt <= expAt <= end <= |text|
    requires digitsAt == (if neg then start + 1 else start) && (neg ==> text[start] == '-')
    ensures var n := NumberOf(neg, text[digitsAt..fracAt], fracAt != expAt || expAt != end, text[start..end]);
            && n.Some? == NumFits(neg, text[digitsAt..fracAt], text[fracAt..expAt], text[expAt..end])
            && (n.Some? ==> n.value == NumValue(neg, text[digitsAt..fracAt], text[fracAt..expAt], text[expAt..end]))
  {
    hide DecVal;
    if neg { assert text[start..digitsAt] == [text[start]]; } else { assert text[start..digitsAt] == ""; }
    assert text[start..end] == text[start..digitsAt] + text[digitsAt..fracAt] + text[fracAt..expAt] + text[expAt..end];
    assert text[start..end] == Lexeme(neg, text[digitsAt..fracAt], text[fracAt..expAt], text[expAt..end]);
  }
}
