/** The canonical printer as it runs: a buffer that grows. */
module JsonPrinter {
  import opened Order
  import opened Utf8
  import opened JsonValue

  lemma Drop(s: string, i: nat)
    requires i < |s|
    ensures s[i..] != "" && s[i..][0] == s[i]
    ensures forall n :: 0 <= n <= |s| - i ==> s[i..][n..] == s[i + n..]
  {
  }

  lemma EscapedTurn(s: string)
    ensures s == "" ==> Escaped(s) == ""
    ensures s != "" ==> Escaped(s) == EscapeOne(s).0 + Escaped(s[EscapeOne(s).1..])
  {
    hide EscapeOne;
  }

  class Printer {
    var out: string

    constructor ()
      ensures out == ""
    {
      out := "";
    }

    method Append(s: string)
      modifies this
      ensures out == old(out) + s
    {
      out := out + s;
    }

    method AppendUnicode(v: int)
      requires 0 <= v <= 0xFFFF
      modifies this
      ensures out == old(out) + ("\\u" + Hex4(v))
    {
      out := out + "\\u";
      out := out + Hex4(v);
    }

    /** The character at `i`, escaped; the result is the position after it. */
    method AppendEscape(s: string, i: nat) returns (next: nat)
      requires i < |s|
      modifies this
      ensures next == i + EscapeOne(s[i..]).1 <= |s|
      ensures out == old(out) + EscapeOne(s[i..]).0
    {
      hide Hex4, DecodeUtf8;
      Drop(s, i);
      var c := s[i] as int;
      if c < 0x80 {
        match c {
          case 0x22 => Append("\\\"");
          case 0x5C => Append("\\\\");
          case 0x08 => Append("\\b");
          case 0x0C => Append("\\f");
          case 0x0A => Append("\\n");
          case 0x0D => Append("\\r");
          case 0x09 => Append("\\t");
          case _ =>
            if c >= 0x20 && c <= 0x7E { Append([s[i]]); } else { AppendUnicode(c); }
        }
        return i + 1;
      }
      match DecodeUtf8(s[i..]) {
        case Invalid =>
          Append("\\ufffd");
          next := i + 1;
        case Decoded(len, cp) =>
          DecodedRange(s[i..]);
          if cp <= 0xFFFF {
            AppendUnicode(cp);
          } else {
            var v := cp - 0x10000;
            AppendUnicode(0xD800 + v / 0x400);
            AppendUnicode(0xDC00 + v % 0x400);
          }
          next := i + len;
      }
    }

    method AppendEscapedString(s: string)
      modifies this
      ensures out == old(out) + Quoted(s)
    {
      hide EscapeOne;
      Append("\"");
      var i := 0;
      ghost var before := out;
      assert s[0..] == s;
      while i < |s|
        invariant 0 <= i <= |s| && out + Escaped(s[i..]) == before + Escaped(s)
      {
        Drop(s, i);
        EscapedTurn(s[i..]);
        hide Escaped;
        ghost var was := out;
        var next := AppendEscape(s, i);
        assert s[i..][EscapeOne(s[i..]).1..] == s[next..];
        assert out + Escaped(s[next..]) == was + (EscapeOne(s[i..]).0 + Escaped(s[next..]));
        i := next;
      }
      EscapedTurn("");
      assert s[i..] == "" && out + "" == out;
      Append("\"");
      assert out == old(out) + ("\"" + Escaped(s) + "\"");
    }

    method AppendCanonicalTo(v: Json)
      modifies this
      ensures out == old(out) + Print(v)
      decreases v, 1
    {
      hide Quoted, Decimal, PrintItems, PrintFields, SortedKeys;
      match v {
        case Null => Append("null");
        case Bool(b) => Append(if b then "true" else "false");
        case Int(i) => Append(Decimal(i));
        case Double(t) => Append(t);
        case Str(s) => AppendEscapedString(s);
        case Arr(items) =>
          Append("[");
          AppendItems(items);
          Append("]");
        case Obj(_) =>
          Append("{");
          AppendFields(v);
          Append("}");
      }
    }

    method AppendItems(items: seq<Json>)
      modifies this
      ensures out == old(out) + PrintItems(items)
      decreases items, 0
    {
      hide *;
      var i := 0;
      ItemsStart(items);
      while i < |items|
        invariant 0 <= i <= |items|
        invariant out + ItemsFrom(items, i) == old(out) + PrintItems(items)
      {
        ItemsTurn(items, i);
        ghost var before := out;
        if i > 0 { Append(","); }
        AppendCanonicalTo(items[i]);
        i := i + 1;
        Glue(before, if i > 1 then "," else "", Print(items[i - 1]), ItemsFrom(items, i));
      }
      ItemsEnd(items);
      assert out + "" == out;
    }

    method AppendFields(v: Json)
      requires v.Obj?
      modifies this
      ensures out == old(out) + PrintFields(v, SortedKeys(v.fields.Keys))
      decreases v, 0
    {
      hide *;
      var keys := KeysInOrder(v.fields.Keys);
      KeysAreFields(v, keys);
      var first := true;
      var i := 0;
      FieldsStart(v, keys);
      while i < |keys|
        invariant 0 <= i <= |keys| && first == (i == 0)
        invariant out + FieldsFrom(v, keys, i) == old(out) + PrintFields(v, keys)
      {
        FieldsTurn(v, keys, i);
        ghost var before := out;
        if !first { Append(","); }
        first := false;
        AppendField(v, keys[i]);
        i := i + 1;
        Glue(before, if i > 1 then "," else "", Quoted(keys[i - 1]) + ":" + Print(v.fields[keys[i - 1]]), FieldsFrom(v, keys, i));
      }
      FieldsEnd(v, keys);
      assert out + "" == out;
    }

    method AppendField(v: Json, key: string)
      requires v.Obj? && key in v.fields
      modifies this
      ensures out == old(out) + (Quoted(key) + ":" + Print(v.fields[key]))
      decreases v, 0, 0
    {
      hide Quoted, Print;
      AppendEscapedString(key);
      Append(":");
      AppendCanonicalTo(v.fields[key]);
    }

    /** The text of a value, in a fresh buffer. */
    static method Canonical(v: Json) returns (text: string)
      ensures text == Print(v)
    {
      var p := new Printer();
      p.AppendCanonicalTo(v);
      text := p.out;
    }
  }

  lemma DecodedRange(s: string)
    requires s != "" && DecodeUtf8(s).Decoded?
    ensures 0 < DecodeUtf8(s).len <= |s| && Scalar(DecodeUtf8(s).cp)
  {
    DecodeIsRfc3629(s);
    hide DecodeUtf8;
  }

  lemma Glue(a: string, b: string, c: string, d: string)
    ensures a + (b + (c + d)) == a + b + c + d
    ensures b == "" ==> a + b == a
  {
  }

  /** The text from element `i` on, with the comma in front of it. */
  ghost function ItemsFrom(items: seq<Json>, i: nat): string
    requires i <= |items|
  {
    (if 0 < i < |items| then "," else "") + PrintItems(items[i..])
  }

  lemma ItemsStart(items: seq<Json>)
    ensures ItemsFrom(items, 0) == PrintItems(items)
  {
    hide PrintItems;
    assert items[0..] == items;
    assert "" + PrintItems(items) == PrintItems(items);
  }

  lemma ItemsTurn(items: seq<Json>, i: nat)
    requires i < |items|
    ensures ItemsFrom(items, i) == (if i > 0 then "," else "") + (Print(items[i]) + ItemsFrom(items, i + 1))
  {
    hide Print;
    assert items[i..][1..] == items[i + 1..];
  }

  lemma ItemsEnd(items: seq<Json>)
    ensures ItemsFrom(items, |items|) == ""
  {
  }

  lemma KeysAreFields(v: Json, keys: seq<string>)
    requires v.Obj? && keys == SortedKeys(v.fields.Keys)
    ensures forall k | k in keys :: k in v.fields
  {
  }

  ghost function FieldsFrom(v: Json, keys: seq<string>, i: nat): string
    requires v.Obj? && i <= |keys| && forall k | k in keys :: k in v.fields
  {
    (if 0 < i < |keys| then "," else "") + PrintFields(v, keys[i..])
  }

  lemma FieldsStart(v: Json, keys: seq<string>)
    requires v.Obj? && forall k | k in keys :: k in v.fields
    ensures FieldsFrom(v, keys, 0) == PrintFields(v, keys)
  {
    hide PrintFields;
    assert keys[0..] == keys;
    assert "" + PrintFields(v, keys) == PrintFields(v, keys);
  }

  lemma FieldsTurn(v: Json, keys: seq<string>, i: nat)
    requires v.Obj? && i < |keys| && forall k | k in keys :: k in v.fields
    ensures FieldsFrom(v, keys, i) ==
            (if i > 0 then "," else "") + (Quoted(keys[i]) + ":" + Print(v.fields[keys[i]]) + FieldsFrom(v, keys, i + 1))
  {
    hide Print, Quoted;
    assert keys[i..][1..] == keys[i + 1..];
  }

  lemma FieldsEnd(v: Json, keys: seq<string>)
    requires v.Obj? && forall k | k in keys :: k in v.fields
    ensures FieldsFrom(v, keys, |keys|) == ""
  {
  }
}
