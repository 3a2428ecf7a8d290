/** The snapshot codec as loops over entries, base maps and delta lists. */
module PolicySnapshotEngine {
  import opened Wrappers
  import opened Order
  import opened JsonValue
  import JsonParse
  import opened JsonParser
  import opened JsonPrinter
  import opened PermissionStore
  import opened PermissionOverlay
  import opened PermissionProjection
  import opened PolicyTypes
  import opened PolicyCodec
  import opened PolicySnapshot
  import opened PolicySnapshotLaws
  import OverlayEngine

  method EntriesArray(es: seq<Entry>) returns (v: Json)
    ensures v == EntriesJson(es)
  {
    hide EntryJson, JsonList;
    var a: seq<Json> := [];
    for i := 0 to |es|
      invariant |a| == i && forall j | 0 <= j < i :: a[j] == EntryJson(es[j])
    {
      a := a + [EntryJson(es[i])];
    }
    assert a == JsonList(es, EntryJson);
    return Arr(a);
  }

  method EntriesHash(H: string -> string, es: seq<Entry>) returns (hash: string)
    ensures hash == StateHash(H, es)
  {
    hide Print, EntriesJson;
    var a := EntriesArray(es);
    var text := Printer.Canonical(Obj(map["entries" := a]));
    return H(text);
  }

  /** The envelope around a payload, within the budget or not at all. */
  method FinishBlob(H: string -> string, kind: string, n: nat, base: nat, payload: Json, state: seq<Entry>) returns (r: Encoded)
    ensures r == Finish(Envelope(kind, n, base, StateHash(H, state), payload))
  {
    hide Print, Envelope, StateHash;
    var hash := EntriesHash(H, state);
    var text := Printer.Canonical(Envelope(kind, n, base, hash, payload));
    if |text| > BUDGET { return OverBudget; }
    return Blob(text);
  }

  method EncodeFullSnapshot(H: string -> string, n: nat, es: seq<Entry>) returns (r: Encoded)
    ensures r == EncodeFull(H, n, es)
  {
    hide Sort, StateHash, Envelope, EntriesJson, Finish;
    var sorted := Sort(es);
    var a := EntriesArray(sorted);
    r := FinishBlob(H, "full", n, n, a, sorted);
  }

  /** Later entries of a key replace earlier ones. */
  method FillMap(es: seq<Entry>) returns (m: map<Key, EffectivePolicy>)
    ensures m == MapOf(es)
  {
    m := map[];
    for i := 0 to |es|
      invariant m == PutAll(map[], es[..i])
    {
      assert es[..i + 1][..i] == es[..i];
      m := m[es[i].key := es[i].policy];
    }
    assert es[..|es|] == es;
  }

  method CompareToBase(s: seq<Entry>, base: map<Key, EffectivePolicy>) returns (added: seq<Json>, changed: seq<Json>)
    ensures added == JsonList(Added(s, base), EntryJson) && changed == JsonList(Changed(s, base), EntryJson)
  {
    hide EntryJson, JsonList;
    added, changed := [], [];
    OverlayEngine.JsonListNone<Entry>(EntryJson);
    for i := 0 to |s|
      invariant added == JsonList(Added(s[..i], base), EntryJson) && changed == JsonList(Changed(s[..i], base), EntryJson)
    {
      var e := s[i];
      assert s[..i + 1][..i] == s[..i];
      ghost var a, c := Added(s[..i], base), Changed(s[..i], base);
      OverlayEngine.JsonListAppend(a, [e], EntryJson);
      OverlayEngine.JsonListAppend(c, [e], EntryJson);
      OverlayEngine.JsonListOne(e, EntryJson);
      assert a + [] == a && c + [] == c;
      if e.key !in base {
        added := added + [EntryJson(e)];
      } else if base[e.key] != e.policy {
        changed := changed + [EntryJson(e)];
      }
    }
    assert s[..|s|] == s;
  }

  lemma RemovedTurn(ks: seq<Key>, now: map<Key, EffectivePolicy>, i: nat)
    requires i < |ks|
    ensures JsonList(Removed(ks[..i + 1], now), KeyJson)
            == JsonList(Removed(ks[..i], now), KeyJson) + (if ks[i] !in now then [KeyJson(ks[i])] else [])
  {
    hide KeyJson, JsonList;
    assert ks[..i + 1][..i] == ks[..i];
    var r := Removed(ks[..i], now);
    OverlayEngine.JsonListAppend(r, [ks[i]], KeyJson);
    OverlayEngine.JsonListOne(ks[i], KeyJson);
    assert r + [] == r;
  }

  lemma RemovedNone(now: map<Key, EffectivePolicy>)
    ensures JsonList(Removed([], now), KeyJson) == []
  {
  }

  method KeysGone(base: map<Key, EffectivePolicy>, now: map<Key, EffectivePolicy>) returns (removed: seq<Json>)
    ensures removed == JsonList(Removed(KeysOf(base), now), KeyJson)
  {
    hide *;
    var ks := WalkKeys(base);
    removed := [];
    RemovedNone(now);
    for i := 0 to |ks|
      invariant removed == JsonList(Removed(ks[..i], now), KeyJson)
    {
      RemovedTurn(ks, now, i);
      if ks[i] !in now { removed := removed + [KeyJson(ks[i])]; }
    }
    assert ks[..|ks|] == ks;
  }

  /** The walk of a map by its keys. */
  method WalkKeys(m: map<Key, EffectivePolicy>) returns (ks: seq<Key>)
    ensures ks == KeysOf(m)
  {
    hide KeyLess, InOrder;
    KeysAreOrdered();
    ks := WalkInOrder(m.Keys, KeyLess);
  }

  method EncodeDiffSnapshot(H: string -> string, n: nat, baseSeq: nat, base: seq<Entry>, es: seq<Entry>) returns (r: Encoded)
    ensures r == EncodeDiff(H, n, baseSeq, base, es)
  {
    hide Sort, StateHash, Envelope, JsonList, Finish, PutAll, Added, Changed, Removed, KeysOf, EntryJson, KeyJson;
    var sorted := Sort(es);
    var baseMap := FillMap(base);
    var added, changed := CompareToBase(sorted, baseMap);
    var newMap := FillMap(sorted);
    var removed := KeysGone(baseMap, newMap);
    r := FinishBlob(H, "diff", n, baseSeq, Obj(map["added" := Arr(added), "changed" := Arr(changed), "removed" := Arr(removed)]), sorted);
  }

  method DecodeFullSnapshot(H: string -> string, text: string) returns (r: Outcome)
    ensures r == DecodeFull(H, text)
  {
    hide JsonParse.Parse, ParseHead, ParseAll, ParseEntry, Sort, StateHash;
    var parser := new Parser(text);
    var parsed := parser.Run();
    if parsed.None? { return Rejected(MalformedInput); }
    var v := parsed.value;
    var head := ParseHead(v, "full");
    if head.None? { return Rejected(MalformedInput); }
    if "entries" !in v.fields || !v.fields["entries"].Arr? { return Rejected(MalformedInput); }
    var es := OverlayEngine.ParseEach(v.fields["entries"].items, ParseEntry);
    if es.None? { return Rejected(InvalidEntry); }
    var sorted := Sort(es.value);
    var hash := EntriesHash(H, sorted);
    if hash != head.value.hash { return Rejected(HashMismatch); }
    return Snapshot(sorted, head.value.seqNo, head.value.baseSeq);
  }

  lemma {:induction false} ParseAllSnoc<T>(a: seq<Json>, item: Json -> Option<T>, i: nat)
    requires i < |a|
    ensures ParseAll(a[..i + 1], item) == match (ParseAll(a[..i], item), item(a[i]))
                                          case (Some(xs), Some(x)) => Some(xs + [x])
                                          case _ => None
  {
    if i == 0 {
      assert a[..1] == [a[0]] && a[..0] == [] && a[..1][1..] == [];
      assert ParseAll<T>([], item) == Some([]);
      if item(a[0]).Some? { assert [item(a[0]).value] + [] == [] + [item(a[0]).value]; }
    } else {
      var b := a[1..];
      ParseAllSnoc(b, item, i - 1);
      assert a[..i + 1][1..] == b[..i] && a[..i][1..] == b[..i - 1] && b[i - 1] == a[i];
      if ParseAll(b[..i - 1], item).Some? && item(a[0]).Some? && item(a[i]).Some? {
        var xs := ParseAll(b[..i - 1], item).value;
        assert [item(a[0]).value] + (xs + [item(a[i]).value]) == ([item(a[0]).value] + xs) + [item(a[i]).value];
      }
    }
  }

  lemma {:induction false} ParseFails<T>(a: seq<Json>, item: Json -> Option<T>, i: nat)
    requires i < |a| && item(a[i]).None?
    ensures ParseAll(a, item).None?
  {
    if i > 0 { ParseFails(a[1..], item, i - 1); }
  }

  lemma ParseNothing<T>(item: Json -> Option<T>)
    ensures ParseAll([], item) == Some([])
  {
  }

  /** One list of a diff that adds or changes entries. */
  method ApplyPuts(m: map<Key, EffectivePolicy>, a: seq<Json>) returns (r: Option<map<Key, EffectivePolicy>>)
    ensures r == match ParseAll(a, ParseEntry) case None => None case Some(es) => Some(PutAll(m, es))
  {
    hide ParseEntry, ParseAll;
    var state := m;
    ghost var done: seq<Entry> := [];
    assert a[..0] == [];
    ParseNothing(ParseEntry);
    for i := 0 to |a|
      invariant ParseAll(a[..i], ParseEntry) == Some(done) && state == PutAll(m, done)
    {
      var e := ParseEntry(a[i]);
      if e.None? {
        ParseFails(a, ParseEntry, i);
        return None;
      }
      ParseAllSnoc(a, ParseEntry, i);
      assert (done + [e.value])[..|done|] == done;
      state := state[e.value.key := e.value.policy];
      done := done + [e.value];
    }
    assert a[..|a|] == a;
    return Some(state);
  }

  /** The list of a diff that removes entries. */
  method ApplyErasures(m: map<Key, EffectivePolicy>, a: seq<Json>) returns (r: Option<map<Key, EffectivePolicy>>)
    ensures r == match ParseAll(a, ParseKey) case None => None case Some(ks) => Some(EraseAll(m, ks))
  {
    hide ParseKey, ParseAll;
    var state := m;
    ghost var done: seq<Key> := [];
    assert a[..0] == [];
    ParseNothing(ParseKey);
    for i := 0 to |a|
      invariant ParseAll(a[..i], ParseKey) == Some(done) && state == EraseAll(m, done)
    {
      var k := ParseKey(a[i]);
      if k.None? {
        ParseFails(a, ParseKey, i);
        return None;
      }
      ParseAllSnoc(a, ParseKey, i);
      assert (done + [k.value])[..|done|] == done;
      state := state - {k.value};
      done := done + [k.value];
    }
    assert a[..|a|] == a;
    return Some(state);
  }

  lemma AlongTurn(ks: seq<Key>, m: map<Key, EffectivePolicy>, i: nat)
    requires i < |ks| && forall k | k in ks :: k in m
    ensures Along(ks[..i + 1], m) == Along(ks[..i], m) + [Entry(ks[i], m[ks[i]])] && Along([], m) == []
  {
    assert ks[..i + 1][..i] == ks[..i];
  }

  method ListEntries(m: map<Key, EffectivePolicy>) returns (es: seq<Entry>)
    ensures es == Listing(m)
  {
    hide Along, KeysOf;
    var ks := WalkKeys(m);
    es := [];
    if |ks| > 0 { AlongTurn(ks, m, 0); } else { AlongNone(m); }
    assert ks[..0] == [];
    for i := 0 to |ks|
      invariant es == Along(ks[..i], m)
    {
      AlongTurn(ks, m, i);
      es := es + [Entry(ks[i], m[ks[i]])];
    }
    assert ks[..|ks|] == ks;
  }

  lemma AlongNone(m: map<Key, EffectivePolicy>)
    ensures Along([], m) == []
  {
  }

  method ApplyDiffSnapshot(H: string -> string, text: string, base: seq<Entry>) returns (r: Outcome)
    ensures r == ApplyDiff(H, text, base)
  {
    hide JsonParse.Parse, ParseHead, ParseAll, ParseEntry, ParseKey, Sort, StateHash, PutAll, EraseAll, Listing;
    var parser := new Parser(text);
    var parsed := parser.Run();
    if parsed.None? { return Rejected(MalformedInput); }
    var v := parsed.value;
    var head := ParseHead(v, "diff");
    if head.None? { return Rejected(MalformedInput); }
    if "delta" !in v.fields || !v.fields["delta"].Obj? { return Rejected(MalformedInput); }
    var d := v.fields["delta"];
    var m := FillMap(base);
    if DeltaList(d, "added").None? { return Rejected(MalformedInput); }
    var added := ApplyPuts(m, DeltaList(d, "added").value);
    if added.None? { return Rejected(InvalidEntry); }
    if DeltaList(d, "changed").None? { return Rejected(MalformedInput); }
    var changed := ApplyPuts(added.value, DeltaList(d, "changed").value);
    if changed.None? { return Rejected(InvalidEntry); }
    if DeltaList(d, "removed").None? { return Rejected(MalformedInput); }
    var removed := ApplyErasures(changed.value, DeltaList(d, "removed").value);
    if removed.None? { return Rejected(MalformedInput); }
    var listed := ListEntries(removed.value);
    var es := Sort(listed);
    SortListing(removed.value);
    var hash := EntriesHash(H, es);
    if hash != head.value.hash { return Rejected(HashMismatch); }
    return Snapshot(es, head.value.seqNo, head.value.baseSeq);
  }
}
