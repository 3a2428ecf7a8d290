/** The parser accepts exactly the grammar with at most 64 levels of nesting. */
module JsonLaws {
  import opened Wrappers
  import opened Order
  import opened Utf8
  import opened JsonValue
  import opened JsonGrammar
  import opened JsonParse
  import opened JsonLexers

  // Soundness: what is read is derived

  lemma {:induction false} ValueSound(s: string, d: nat) returns (t: Tree)
    requires PValue(s, d).Ok?
    ensures d <= MAX_DEPTH && TreeOk(t, MAX_DEPTH - d)
    ensures s == Render(t) + PValue(s, d).rest && PValue(s, d).v == Value(t)
    decreases |s|, 1
  {
    hide PNumber, NumFits, NumValue, StringStep, PieceOk, PieceValue, RenderPiece, SkipWs, IntPart, FracPart, ExpPart;
    assert s == [s[0]] + s[1..];
    var rest := PValue(s, d).rest;
    if s[0] == '{' {
      t := ObjectSound(s[1..], d);
    } else if s[0] == '[' {
      t := ArraySound(s[1..], d);
    } else if s[0] == '"' {
      var ps := StringSound(s[1..], "");
      t := TStr(ps);
      assert "" + PiecesValue(ps) == PiecesValue(ps);
    } else if s[0] == 't' {
      t := TLit(Bool(true));
    } else if s[0] == 'f' {
      t := TLit(Bool(false));
    } else if s[0] == 'n' {
      t := TLit(Null);
    } else {
      var ip, frac, exp := NumberSound(s);
      t := TNum(Starts(s, '-'), ip, frac, exp);
    }
  }

  lemma {:induction false} ArraySound(s: string, d: nat) returns (t: Tree)
    requires d <= MAX_DEPTH && PArray(s, d).Ok?
    ensures TreeOk(t, MAX_DEPTH - d)
    ensures "[" + s == Render(t) + PArray(s, d).rest && PArray(s, d).v == Value(t)
    decreases |s|, 3
  {
    hide *;
    var ws := SkipWsSplits(s);
    var s1 := SkipWs(s);
    var rest := PArray(s, d).rest;
    ArrayTurn(s, d);
    if PArray(s, d) != PItems(s1, d, []) {
      t := TArr(ws, []);
      ArrayText(ws, [], MAX_DEPTH - d, rest);
    } else {
      var items := ItemsSound(s1, d, []);
      PadItems(items, ws, MAX_DEPTH - d - 1);
      var padded := items[0 := items[0].(pre := ws + items[0].pre)];
      t := TArr("", padded);
      NoWs();
      ArrayText("", padded, MAX_DEPTH - d, rest);
      assert [] + ItemsValue(items) == ItemsValue(items);
      assert s == RenderItems(padded) + "]" + rest;
      assert "" + s == s;
    }
  }

  lemma NoWs()
    ensures AllWs("")
  {
  }

  lemma ArrayTurn(s: string, d: nat)
    requires PArray(s, d).Ok?
    ensures var s1 := SkipWs(s);
            || PArray(s, d) == PItems(s1, d, [])
            || (s1 == RenderItems([]) + "]" + PArray(s, d).rest && PArray(s, d).v == Arr(ItemsValue([])))
    ensures |SkipWs(s)| <= |s|
  {
    hide SkipWs, PItems;
    var s1 := SkipWs(s);
    if Starts(s1, ']') { assert s1 == "]" + s1[1..]; }
  }

  lemma ArrayText(ws: string, items: seq<Item>, n: int, rest: string)
    requires n >= 0 && AllWs(ws) && (items != [] ==> ws == "") && forall i | 0 <= i < |items| :: ItemOk(items[i], n - 1)
    ensures var t := TArr(ws, items);
            && TreeOk(t, n) && Value(t) == Arr(ItemsValue(items))
            && Render(t) + rest == "[" + (ws + (RenderItems(items) + "]" + rest))
  {
    hide RenderItems, ItemsValue, ItemOk;
  }

  lemma PadItems(items: seq<Item>, ws: string, n: int)
    requires items != [] && AllWs(ws) && forall i | 0 <= i < |items| :: ItemOk(items[i], n)
    ensures var padded := items[0 := items[0].(pre := ws + items[0].pre)];
            && RenderItems(padded) == ws + RenderItems(items) && ItemsValue(padded) == ItemsValue(items)
            && forall i | 0 <= i < |padded| :: ItemOk(padded[i], n)
  {
    hide Render, Value, TreeOk;
    var padded := items[0 := items[0].(pre := ws + items[0].pre)];
    assert padded[1..] == items[1..];
  }

  lemma {:induction false} ItemsSound(s: string, d: nat, acc: seq<Json>) returns (items: seq<Item>)
    requires d <= MAX_DEPTH && PItems(s, d, acc).Ok?
    ensures items != [] && forall i | 0 <= i < |items| :: ItemOk(items[i], MAX_DEPTH - d - 1)
    ensures s == RenderItems(items) + "]" + PItems(s, d, acc).rest
    ensures PItems(s, d, acc).v == Arr(acc + ItemsValue(items))
    decreases |s|, 2
  {
    hide *;
    ItemsTurn(s, d, acc);
    var s0 := SkipWs(s);
    var s1 := PValue(s0, d + 1).rest;
    var s2 := SkipWs(s1);
    var v := PValue(s0, d + 1).v;
    var rest := PItems(s, d, acc).rest;
    var pre := SkipWsSplits(s);
    var t := ValueSound(s0, d + 1);
    var post := SkipWsSplits(s1);
    var item := Item(pre, t, post);
    ItemText(item, s0, s1, s2);
    if s2[0] == ',' {
      var tail := ItemsSound(s2[1..], d, acc + [v]);
      items := [item] + tail;
      ItemsCons(item, tail, rest);
      assert acc + [v] + ItemsValue(tail) == acc + ([v] + ItemsValue(tail));
    } else {
      items := [item];
      ItemsOne(item);
    }
    ItemsAllOk(item, items, MAX_DEPTH - d - 1);
  }

  /** One turn of the loop. */
  lemma ItemsTurn(s: string, d: nat, acc: seq<Json>)
    requires PItems(s, d, acc).Ok?
    ensures PValue(SkipWs(s), d + 1).Ok?
    ensures var r := PValue(SkipWs(s), d + 1);
            var s2 := SkipWs(r.rest);
            && s2 != "" && s2 == [s2[0]] + s2[1..] && |s2| < |s|
            && if s2[0] == ',' then PItems(s, d, acc) == PItems(s2[1..], d, acc + [r.v])
               else s2[0] == ']' && PItems(s, d, acc) == Ok(Arr(acc + [r.v]), s2[1..])
  {
    hide PValue, SkipWs;
  }

  lemma ItemText(m: Item, s0: string, s1: string, s2: string)
    requires s0 == Render(m.t) + s1 && s1 == m.post + s2
    ensures m.pre + s0 == RenderItem(m) + s2
  {
    hide Render;
  }

  lemma ItemsOne(m: Item)
    ensures RenderItems([m]) == RenderItem(m) && ItemsValue([m]) == [Value(m.t)]
  {
    hide RenderItem, Value;
  }

  lemma ItemsCons(m: Item, ms: seq<Item>, rest: string)
    requires ms != []
    ensures RenderItems([m] + ms) + "]" + rest == RenderItem(m) + ("," + (RenderItems(ms) + "]" + rest))
    ensures ItemsValue([m] + ms) == [Value(m.t)] + ItemsValue(ms)
  {
    hide RenderItem, Value;
    assert ([m] + ms)[1..] == ms;
  }

  lemma ItemsAllOk(m: Item, items: seq<Item>, n: int)
    requires items != [] && items[0] == m && forall i | 0 < i < |items| :: ItemOk(items[i], n)
    requires AllWs(m.pre) && AllWs(m.post) && TreeOk(m.t, n)
    ensures forall i | 0 <= i < |items| :: ItemOk(items[i], n)
  {
    hide TreeOk, AllWs;
  }

  lemma {:induction false} ObjectSound(s: string, d: nat) returns (t: Tree)
    requires d <= MAX_DEPTH && PObject(s, d).Ok?
    ensures TreeOk(t, MAX_DEPTH - d)
    ensures "{" + s == Render(t) + PObject(s, d).rest && PObject(s, d).v == Value(t)
    decreases |s|, 3
  {
    hide *;
    var ws := SkipWsSplits(s);
    var s1 := SkipWs(s);
    var rest := PObject(s, d).rest;
    ObjectTurn(s, d);
    if PObject(s, d) != PMembers(s1, d, map[]) {
      t := TObj(ws, []);
      ObjectText(ws, [], MAX_DEPTH - d, rest);
    } else {
      var ms := MembersSound(s1, d, map[]);
      PadMembers(ms, ws, MAX_DEPTH - d - 1);
      var padded := ms[0 := ms[0].(pre := ws + ms[0].pre)];
      t := TObj("", padded);
      NoWs();
      ObjectText("", padded, MAX_DEPTH - d, rest);
      assert s == RenderMembers(padded) + "}" + rest;
      assert "" + s == s;
    }
  }

  lemma ObjectTurn(s: string, d: nat)
    requires PObject(s, d).Ok?
    ensures var s1 := SkipWs(s);
            || PObject(s, d) == PMembers(s1, d, map[])
            || (s1 == RenderMembers([]) + "}" + PObject(s, d).rest && PObject(s, d).v == Obj(MembersValue([], map[])))
    ensures |SkipWs(s)| <= |s|
  {
    hide SkipWs, PMembers;
    var s1 := SkipWs(s);
    if Starts(s1, '}') { assert s1 == "}" + s1[1..]; }
  }

  lemma ObjectText(ws: string, ms: seq<Member>, n: int, rest: string)
    requires n >= 0 && AllWs(ws) && (ms != [] ==> ws == "") && forall i | 0 <= i < |ms| :: MemberOk(ms[i], n - 1)
    ensures var t := TObj(ws, ms);
            && TreeOk(t, n) && Value(t) == Obj(MembersValue(ms, map[]))
            && Render(t) + rest == "{" + (ws + (RenderMembers(ms) + "}" + rest))
  {
    hide RenderMembers, MembersValue, MemberOk;
  }

  lemma PadMembers(ms: seq<Member>, ws: string, n: int)
    requires ms != [] && AllWs(ws) && forall i | 0 <= i < |ms| :: MemberOk(ms[i], n)
    ensures var padded := ms[0 := ms[0].(pre := ws + ms[0].pre)];
            && RenderMembers(padded) == ws + RenderMembers(ms)
            && MembersValue(padded, map[]) == MembersValue(ms, map[])
            && forall i | 0 <= i < |padded| :: MemberOk(padded[i], n)
  {
    hide Render, Value, TreeOk, RenderString, PiecesOk, PiecesValue;
    var padded := ms[0 := ms[0].(pre := ws + ms[0].pre)];
    assert padded[1..] == ms[1..];
    assert RenderMember(padded[0]) == ws + RenderMember(ms[0]);
  }

  lemma KeySound(s: string) returns (m: Member)
    requires PKey(s).Ok?
    ensures AllWs(m.pre) && AllWs(m.beforeColon) && AllWs(m.afterColon) && PiecesOk(m.key)
    ensures PKey(s).v == PiecesValue(m.key)
    ensures s == m.pre + RenderString(m.key) + m.beforeColon + ":" + m.afterColon + PKey(s).rest
  {
    hide *;
    KeyTurn(s);
    var s1 := SkipWs(s);
    var s2 := PChars(s1[1..], "").rest;
    var s3 := SkipWs(s2);
    var pre := SkipWsSplits(s);
    var key := StringSound(s1[1..], "");
    var before := SkipWsSplits(s2);
    var after := SkipWsSplits(s3[1..]);
    m := Member(pre, key, before, after, TLit(Null), "");
    assert "" + PiecesValue(key) == PiecesValue(key);
    StringText(key, s2);
    assert s == pre + (RenderString(key) + (before + (":" + (after + PKey(s).rest))));
  }

  lemma KeyTurn(s: string)
    requires PKey(s).Ok?
    ensures var s1 := SkipWs(s);
            && s1 != "" && s1 == "\"" + s1[1..] && PChars(s1[1..], "").Ok?
            && var s2 := PChars(s1[1..], "").rest;
            && var s3 := SkipWs(s2);
            && s3 != "" && s3 == ":" + s3[1..]
            && PKey(s) == Ok(PChars(s1[1..], "").v, SkipWs(s3[1..]))
  {
    hide SkipWs, PChars;
  }

  lemma StringText(ps: seq<Piece>, rest: string)
    ensures "\"" + (RenderPieces(ps) + "\"" + rest) == RenderString(ps) + rest
  {
    hide RenderPieces;
  }

  lemma {:induction false} MembersSound(s: string, d: nat, acc: map<string, Json>) returns (ms: seq<Member>)
    requires d <= MAX_DEPTH && PMembers(s, d, acc).Ok?
    ensures ms != [] && forall i | 0 <= i < |ms| :: MemberOk(ms[i], MAX_DEPTH - d - 1)
    ensures s == RenderMembers(ms) + "}" + PMembers(s, d, acc).rest
    ensures PMembers(s, d, acc).v == Obj(MembersValue(ms, acc))
    decreases |s|, 2
  {
    hide *;
    MembersTurn(s, d, acc);
    var s1 := PKey(s).rest;
    var s2 := PValue(s1, d + 1).rest;
    var s3 := SkipWs(s2);
    var v := PValue(s1, d + 1).v;
    var acc' := acc[PKey(s).v := v];
    var rest := PMembers(s, d, acc).rest;
    var k := KeySound(s);
    var t := ValueSound(s1, d + 1);
    var post := SkipWsSplits(s2);
    var m := k.(t := t, post := post);
    MemberText(m, s1, s2, s3);
    if s3[0] == ',' {
      var tail := MembersSound(s3[1..], d, acc');
      ms := [m] + tail;
      MembersCons(m, tail, acc, rest);
    } else {
      ms := [m];
      MembersOne(m, acc);
    }
    MembersAllOk(m, ms, MAX_DEPTH - d - 1);
  }

  lemma MembersTurn(s: string, d: nat, acc: map<string, Json>)
    requires PMembers(s, d, acc).Ok?
    ensures PKey(s).Ok? && PValue(PKey(s).rest, d + 1).Ok?
    ensures var r := PValue(PKey(s).rest, d + 1);
            var s3 := SkipWs(r.rest);
            && s3 != "" && s3 == [s3[0]] + s3[1..] && |s3| < |s|
            && if s3[0] == ',' then PMembers(s, d, acc) == PMembers(s3[1..], d, acc[PKey(s).v := r.v])
               else s3[0] == '}' && PMembers(s, d, acc) == Ok(Obj(acc[PKey(s).v := r.v]), s3[1..])
  {
    hide PValue, SkipWs, PKey;
  }

  lemma MemberText(m: Member, s1: string, s2: string, s3: string)
    requires s1 == Render(m.t) + s2 && s2 == m.post + s3
    ensures m.pre + RenderString(m.key) + m.beforeColon + ":" + m.afterColon + s1 == RenderMember(m) + s3
  {
    hide Render, RenderString;
  }

  lemma MembersOne(m: Member, acc: map<string, Json>)
    ensures RenderMembers([m]) == RenderMember(m)
    ensures MembersValue([m], acc) == acc[PiecesValue(m.key) := Value(m.t)]
  {
    hide RenderMember, Value, PiecesValue;
  }

  lemma MembersCons(m: Member, ms: seq<Member>, acc: map<string, Json>, rest: string)
    requires ms != []
    ensures RenderMembers([m] + ms) + "}" + rest == RenderMember(m) + ("," + (RenderMembers(ms) + "}" + rest))
    ensures MembersValue([m] + ms, acc) == MembersValue(ms, acc[PiecesValue(m.key) := Value(m.t)])
  {
    hide RenderMember, Value, PiecesValue;
    assert ([m] + ms)[1..] == ms;
  }

  lemma MembersAllOk(m: Member, ms: seq<Member>, n: int)
    requires ms != [] && ms[0] == m && forall i | 0 < i < |ms| :: MemberOk(ms[i], n)
    requires AllWs(m.pre) && AllWs(m.beforeColon) && AllWs(m.afterColon) && AllWs(m.post) && PiecesOk(m.key) && TreeOk(m.t, n)
    ensures forall i | 0 <= i < |ms| :: MemberOk(ms[i], n)
  {
    hide TreeOk, AllWs, PiecesOk;
  }

  // Completeness: what is derived is read

  lemma RenderHead(t: Tree, n: int)
    requires TreeOk(t, n)
    ensures Render(t) != "" && !IsWs(Render(t)[0])
    ensures Render(t)[0] != ']' && Render(t)[0] != '}'
    ensures Render(t)[0] == '{' <==> t.TObj?
    ensures Render(t)[0] == '[' <==> t.TArr?
    ensures Render(t)[0] == '"' <==> t.TStr?
    ensures Render(t)[0] in "tfn" <==> t.TLit?
  {
    hide FracPart, ExpPart, PieceOk, RenderPieces, RenderItems, RenderMembers;
    if t.TNum? { assert IsDigit(t.ip[0]); }
  }

  lemma {:induction false} ValueComplete(t: Tree, d: nat, rest: string)
    requires d <= MAX_DEPTH && TreeOk(t, MAX_DEPTH - d) && Follow(rest)
    ensures PValue(Render(t) + rest, d) == Ok(Value(t), rest)
    decreases t, 2
  {
    hide *;
    match t
    case TLit(_) => LiteralComplete(t, d, rest);
    case TNum(_, _, _, _) => NumComplete(t, d, rest);
    case TStr(_) => StrComplete(t, d, rest);
    case TArr(ws, items) => ArrayComplete(ws, items, d, rest);
    case TObj(ws, ms) => ObjectComplete(ws, ms, d, rest);
  }

  lemma NumComplete(t: Tree, d: nat, rest: string)
    requires d <= MAX_DEPTH && t.TNum? && TreeOk(t, MAX_DEPTH - d) && Follow(rest)
    ensures PValue(Render(t) + rest, d) == Ok(Value(t), rest)
  {
    NumberComplete(t.neg, t.ip, t.frac, t.exp, rest);
    RenderHead(t, MAX_DEPTH - d);
    var c := Render(t)[0];
    assert (Render(t) + rest)[0] == c && c != 't' && c != 'f' && c != 'n' by { assert c in "tfn" <==> t.TLit?; assert "tfn"[0] == 't' && "tfn"[1] == 'f' && "tfn"[2] == 'n'; }
    hide PNumber, NumFits, NumValue, Render, PObject, PArray, PChars;
  }

  lemma LiteralComplete(t: Tree, d: nat, rest: string)
    requires d <= MAX_DEPTH && t.TLit? && TreeOk(t, MAX_DEPTH - d)
    ensures PValue(Render(t) + rest, d) == Ok(Value(t), rest)
  {
    hide PNumber, PObject, PArray, PChars;
    var r := Render(t);
    assert (r + rest)[..|r|] == r && (r + rest)[|r|..] == rest;
  }

  lemma StrComplete(t: Tree, d: nat, rest: string)
    requires d <= MAX_DEPTH && t.TStr? && TreeOk(t, MAX_DEPTH - d)
    ensures PValue(Render(t) + rest, d) == Ok(Value(t), rest)
  {
    hide PValue, PChars, RenderPieces, PiecesValue;
    var ps := t.ps;
    StringText(ps, rest);
    StringComplete(ps, rest, "");
    StringOpens(RenderPieces(ps) + "\"" + rest, d);
    assert "" + PiecesValue(ps) == PiecesValue(ps);
  }

  lemma StringOpens(chars: string, d: nat)
    requires d <= MAX_DEPTH && PChars(chars, "").Ok?
    ensures PValue("\"" + chars, d) == Ok(Str(PChars(chars, "").v), PChars(chars, "").rest)
  {
    hide PNumber, PObject, PArray, PChars;
    assert ("\"" + chars)[1..] == chars;
  }

  lemma {:induction false} ArrayComplete(ws: string, items: seq<Item>, d: nat, rest: string)
    requires d <= MAX_DEPTH && TreeOk(TArr(ws, items), MAX_DEPTH - d)
    ensures PValue(Render(TArr(ws, items)) + rest, d) == Ok(Value(TArr(ws, items)), rest)
    decreases items, 1
  {
    var body := ws + RenderItems(items) + "]" + rest;
    assert (Render(TArr(ws, items)) + rest)[1..] == body;
    var text := RenderItems(items) + "]" + rest;
    assert PValue(Render(TArr(ws, items)) + rest, d) == PArray(body, d);
    if items == [] {
      assert text == "]" + rest && body == ws + text;
      SkipsWs(ws, text);
      hide PItems;
      assert text[1..] == rest;
    } else {
      assert body == text;
      ItemsComplete(items, d, rest, []);
      assert [] + ItemsValue(items) == ItemsValue(items);
      var w := items[0].pre;
      var head := ItemsHead(items, d, rest);
      SkipsWs(w, head);
      hide PItems, RenderItems, ItemsValue;
      assert PArray(body, d) == PItems(head, d, []);
      ItemsSkip(body, d, []);
    }
  }

  /** The loop skips whitespace before every element, so skipping it once more changes nothing. */
  lemma ItemsSkip(s: string, d: nat, acc: seq<Json>)
    ensures PItems(SkipWs(s), d, acc) == PItems(s, d, acc)
  {
    var ws := SkipWsSplits(s);
    SkipsWs("", SkipWs(s));
    assert "" + SkipWs(s) == SkipWs(s);
    hide SkipWs, PValue;
  }

  lemma MembersSkip(s: string, d: nat, acc: map<string, Json>)
    ensures PMembers(SkipWs(s), d, acc) == PMembers(s, d, acc)
  {
    var ws := SkipWsSplits(s);
    SkipsWs("", SkipWs(s));
    assert "" + SkipWs(s) == SkipWs(s);
    hide SkipWs, PValue;
  }

  /** What the text of a nonempty element list leaves after its leading whitespace. */
  lemma ItemsHead(items: seq<Item>, d: nat, rest: string) returns (head: string)
    requires items != [] && ItemOk(items[0], MAX_DEPTH - d - 1)
    ensures RenderItems(items) + "]" + rest == items[0].pre + head
    ensures head != "" && !IsWs(head[0]) && head[0] != ']'
  {
    var m := items[0];
    RenderHead(m.t, MAX_DEPTH - d - 1);
    hide Render, TreeOk;
    head := Render(m.t) + m.post + (if |items| == 1 then "" else "," + RenderItems(items[1..])) + "]" + rest;
  }

  lemma {:induction false} ItemsComplete(items: seq<Item>, d: nat, rest: string, acc: seq<Json>)
    requires d <= MAX_DEPTH && items != []
    requires forall i | 0 <= i < |items| :: ItemOk(items[i], MAX_DEPTH - d - 1)
    ensures PItems(RenderItems(items) + "]" + rest, d, acc) == Ok(Arr(acc + ItemsValue(items)), rest)
    decreases items, 0
  {
    hide *;
    var m := items[0];
    var tail := items[1..];
    assert items == [m] + tail;
    var s3 := if tail == [] then "]" + rest else "," + (RenderItems(tail) + "]" + rest);
    ItemParts(m, MAX_DEPTH - d - 1);
    var s1 := m.post + s3;
    ValueComplete(m.t, d + 1, s1) by { FollowWs(m.post, s3); }
    RenderHead(m.t, MAX_DEPTH - d - 1);
    SkipsWs(m.pre, Render(m.t) + s1);
    SkipsWs(m.post, s3) by { NotWs(s3); }
    var s := m.pre + (Render(m.t) + s1);
    var v := Value(m.t);
    if tail == [] {
      assert items == [m];
      ItemsOne(m);
      ItemText(m, Render(m.t) + s1, s1, s3);
      assert RenderItems(items) + "]" + rest == s;
      ItemsLast(s, d, acc, v, s1, s3);
      assert s3[1..] == rest;
    } else {
      ItemsCons(m, tail, rest);
      ItemText(m, Render(m.t) + s1, s1, s3);
      assert RenderItems(items) + "]" + rest == s;
      assert s3[1..] == RenderItems(tail) + "]" + rest;
      ItemsNext(s, d, acc, v, s1, s3);
      ItemsComplete(tail, d, rest, acc + [v]);
      assert acc + [v] + ItemsValue(tail) == acc + ([v] + ItemsValue(tail));
    }
  }

  lemma ItemParts(m: Item, n: int)
    requires ItemOk(m, n)
    ensures AllWs(m.pre) && AllWs(m.post) && TreeOk(m.t, n) && n >= 0
  {
  }

  lemma FollowWs(ws: string, s: string)
    requires AllWs(ws) && s != "" && (s[0] == ',' || s[0] == ']' || s[0] == '}')
    ensures Follow(ws + s)
  {
    if ws != "" { assert (ws + s)[0] == ws[0]; }
  }

  lemma NotWs(s: string)
    requires s != "" && (s[0] == ',' || s[0] == ']' || s[0] == '}' || s[0] == ':' || s[0] == '"')
    ensures !IsWs(s[0])
  {
  }

  lemma ItemsLast(s: string, d: nat, acc: seq<Json>, v: Json, s1: string, s2: string)
    requires PValue(SkipWs(s), d + 1) == Ok(v, s1) && SkipWs(s1) == s2 && s2 != "" && s2[0] == ']'
    ensures PItems(s, d, acc) == Ok(Arr(acc + [v]), s2[1..])
  {
    hide PValue, SkipWs;
  }

  lemma ItemsNext(s: string, d: nat, acc: seq<Json>, v: Json, s1: string, s2: string)
    requires PValue(SkipWs(s), d + 1) == Ok(v, s1) && SkipWs(s1) == s2 && s2 != "" && s2[0] == ','
    ensures PItems(s, d, acc) == PItems(s2[1..], d, acc + [v])
  {
    hide PValue, SkipWs;
  }

  lemma {:induction false} ObjectComplete(ws: string, ms: seq<Member>, d: nat, rest: string)
    requires d <= MAX_DEPTH && TreeOk(TObj(ws, ms), MAX_DEPTH - d)
    ensures PValue(Render(TObj(ws, ms)) + rest, d) == Ok(Value(TObj(ws, ms)), rest)
    decreases ms, 1
  {
    var body := ws + RenderMembers(ms) + "}" + rest;
    assert (Render(TObj(ws, ms)) + rest)[1..] == body;
    var text := RenderMembers(ms) + "}" + rest;
    hide PMembers;
    assert PValue(Render(TObj(ws, ms)) + rest, d) == PObject(body, d);
    if ms == [] {
      assert text == "}" + rest && body == ws + text;
      SkipsWs(ws, text);
      assert text[1..] == rest;
    } else {
      assert body == text;
      MembersComplete(ms, d, rest, map[]);
      hide RenderMembers, MembersValue;
      var head := MembersHead(ms, rest);
      SkipsWs(ms[0].pre, head);
      assert PObject(body, d) == PMembers(head, d, map[]);
      MembersSkip(body, d, map[]);
    }
  }

  lemma MembersHead(ms: seq<Member>, rest: string) returns (head: string)
    requires ms != []
    ensures RenderMembers(ms) + "}" + rest == ms[0].pre + head
    ensures head != "" && !IsWs(head[0]) && head[0] != '}'
  {
    hide Render, RenderPieces;
    var m := ms[0];
    var tail := (if |ms| == 1 then "" else "," + RenderMembers(ms[1..])) + "}" + rest;
    head := RenderString(m.key) + (m.beforeColon + ":" + m.afterColon + Render(m.t) + m.post + tail);
    assert RenderMember(m) + tail == m.pre + head;
  }

  lemma KeyComplete(m: Member, rest: string)
    requires AllWs(m.pre) && AllWs(m.beforeColon) && AllWs(m.afterColon) && PiecesOk(m.key)
    requires rest != "" && !IsWs(rest[0])
    ensures PKey(m.pre + RenderString(m.key) + m.beforeColon + ":" + m.afterColon + rest) == Ok(PiecesValue(m.key), rest)
  {
    var s4 := m.afterColon + rest;
    var s3 := ":" + s4;
    var s2 := m.beforeColon + s3;
    var chars := RenderPieces(m.key) + "\"" + s2;
    var s1 := "\"" + chars;
    SkipsWs(m.pre, s1);
    SkipsWs(m.beforeColon, s3);
    SkipsWs(m.afterColon, rest);
    StringComplete(m.key, s2, "");
    KeyText(m, rest);
    hide SkipWs, PiecesValue, PiecesOk, PChars, RenderString, RenderPieces;
    assert s1[1..] == chars && s3[1..] == s4;
    assert "" + PiecesValue(m.key) == PiecesValue(m.key);
    assert PKey(m.pre + s1) == Ok(PiecesValue(m.key), rest);
  }

  lemma KeyText(m: Member, rest: string)
    ensures m.pre + RenderString(m.key) + m.beforeColon + ":" + m.afterColon + rest
            == m.pre + ("\"" + (RenderPieces(m.key) + "\"" + (m.beforeColon + (":" + (m.afterColon + rest)))))
  {
    hide RenderPieces;
  }

  lemma {:induction false} MembersComplete(ms: seq<Member>, d: nat, rest: string, acc: map<string, Json>)
    requires d <= MAX_DEPTH && ms != []
    requires forall i | 0 <= i < |ms| :: MemberOk(ms[i], MAX_DEPTH - d - 1)
    ensures PMembers(RenderMembers(ms) + "}" + rest, d, acc) == Ok(Obj(MembersValue(ms, acc)), rest)
    decreases ms, 0
  {
    hide *;
    var m := ms[0];
    var tail := ms[1..];
    assert ms == [m] + tail;
    var s3 := if tail == [] then "}" + rest else "," + (RenderMembers(tail) + "}" + rest);
    MemberParts(m, MAX_DEPTH - d - 1);
    var s2 := m.post + s3;
    ValueComplete(m.t, d + 1, s2) by { FollowWs(m.post, s3); }
    RenderHead(m.t, MAX_DEPTH - d - 1);
    KeyComplete(m, Render(m.t) + s2);
    SkipsWs(m.post, s3) by { NotWs(s3); }
    var s := m.pre + RenderString(m.key) + m.beforeColon + ":" + m.afterColon + (Render(m.t) + s2);
    MemberText(m, Render(m.t) + s2, s2, s3);
    var k, v := PiecesValue(m.key), Value(m.t);
    if tail == [] {
      assert ms == [m];
      MembersOne(m, acc);
      assert RenderMembers(ms) + "}" + rest == s;
      MembersLast(s, d, acc, k, Render(m.t) + s2, v, s2, s3);
      assert s3[1..] == rest;
    } else {
      MembersCons(m, tail, acc, rest);
      assert RenderMembers(ms) + "}" + rest == s;
      assert s3[1..] == RenderMembers(tail) + "}" + rest;
      MembersNext(s, d, acc, k, Render(m.t) + s2, v, s2, s3);
      MembersComplete(tail, d, rest, acc[k := v]);
    }
  }

  lemma MemberParts(m: Member, n: int)
    requires MemberOk(m, n)
    ensures AllWs(m.pre) && AllWs(m.beforeColon) && AllWs(m.afterColon) && AllWs(m.post)
    ensures PiecesOk(m.key) && TreeOk(m.t, n) && n >= 0
  {
  }

  lemma MembersLast(s: string, d: nat, acc: map<string, Json>, k: string, s1: string, v: Json, s2: string, s3: string)
    requires PKey(s) == Ok(k, s1) && PValue(s1, d + 1) == Ok(v, s2) && SkipWs(s2) == s3 && s3 != "" && s3[0] == '}'
    ensures PMembers(s, d, acc) == Ok(Obj(acc[k := v]), s3[1..])
  {
    hide PValue, SkipWs, PKey;
  }

  lemma MembersNext(s: string, d: nat, acc: map<string, Json>, k: string, s1: string, v: Json, s2: string, s3: string)
    requires PKey(s) == Ok(k, s1) && PValue(s1, d + 1) == Ok(v, s2) && SkipWs(s2) == s3 && s3 != "" && s3[0] == ','
    ensures PMembers(s, d, acc) == PMembers(s3[1..], d, acc[k := v])
  {
    hide PValue, SkipWs, PKey;
  }

  // The two directions together, on whole documents

  /** `text` is a JSON document for `v`: a derivation between whitespace, nested at most 64 deep. */
  ghost predicate IsDocument(text: string, pre: string, t: Tree, post: string, v: Json) {
    AllWs(pre) && AllWs(post) && TreeOk(t, MAX_DEPTH) && text == pre + Render(t) + post && v == Value(t)
  }

  /** The accepted language is the grammar, and the value is the one the derivation denotes. */
  lemma ParserAcceptsTheGrammar(text: string, v: Json)
    ensures Parse(text) == Some(v) <==> exists pre, t, post :: IsDocument(text, pre, t, post, v)
  {
    if Parse(text) == Some(v) {
      var pre, t, post := ParsedIsDocument(text);
      assert IsDocument(text, pre, t, post, v);
    }
    if exists pre, t, post :: IsDocument(text, pre, t, post, v) {
      var pre, t, post :| IsDocument(text, pre, t, post, v);
      DocumentParses(pre, t, post);
    }
  }

  lemma ParsedIsDocument(text: string) returns (pre: string, t: Tree, post: string)
    requires Parse(text).Some?
    ensures IsDocument(text, pre, t, post, Parse(text).value)
  {
    hide PValue, SkipWs, Render, Value, TreeOk;
    var s := SkipWs(text);
    pre := SkipWsSplits(text);
    t := ValueSound(s, 0);
    post := SkipWsSplits(PValue(s, 0).rest);
    assert post + "" == post;
  }

  lemma DocumentParses(pre: string, t: Tree, post: string)
    requires AllWs(pre) && AllWs(post) && TreeOk(t, MAX_DEPTH)
    ensures Parse(pre + Render(t) + post) == Some(Value(t))
  {
    RenderHead(t, MAX_DEPTH);
    SkipsWs(pre, Render(t) + post);
    ValueComplete(t, 0, post);
    SkipsWs(post, "");
    hide PValue, SkipWs, Render, Value, TreeOk;
    assert pre + Render(t) + post == pre + (Render(t) + post);
    assert post + "" == post;
  }
}
