/** What a consumer can rely on: blobs rebuild the state they were made from, exactly, and stay within their budget. */
module PolicySnapshotLaws {
  import opened Wrappers
  import opened Order
  import opened Utf8
  import opened JsonValue
  import JsonParse
  import opened JsonRoundTrip
  import opened PermissionStore
  import opened PermissionOverlay
  import opened PermissionProjection
  import opened PolicyTypes
  import opened PolicyCodec
  import opened PolicySnapshot

  /** The shape of a hexadecimal digest. */
  ghost predicate HashOk(H: string -> string) { forall x :: |H(x)| == 64 && Valid(H(x)) }

  ghost predicate KeyUtf8(k: Key) { Valid(k.identity) && Valid(k.site) && Valid(k.trust) }

  /** An entry that the wire format can carry. */
  ghost predicate EntryOk(e: Entry) { Wire(e.policy) && KeyUtf8(e.key) }

  ghost predicate AllOk(es: seq<Entry>) { forall i | 0 <= i < |es| :: EntryOk(es[i]) }

  ghost predicate AllUtf8(ks: seq<Key>) { forall i | 0 <= i < |ks| :: KeyUtf8(ks[i]) }

  // Entries

  lemma EntryFields(e: Entry)
    ensures var v := EntryJson(e);
            v.Obj? && (forall k | k in v.fields :: k in {"identity", "site", "trust", "policy"})
            && GetStr(v, "identity") == Some(e.key.identity) && GetStr(v, "site") == Some(e.key.site) && GetStr(v, "trust") == Some(e.key.trust)
            && "policy" in v.fields && v.fields["policy"] == ToJson(e.policy)
  {
    hide ToJson;
  }

  lemma EntryReads(e: Entry)
    requires Wire(e.policy)
    ensures ParseEntry(EntryJson(e)) == Some(e)
  {
    EntryFields(e);
    PolicyRoundTrip(e.policy);
    hide EntryJson, ToJson, FromJson, GetStr;
  }

  lemma KeyReads(k: Key)
    ensures ParseKey(KeyJson(k)) == Some(k)
  {
  }

  lemma FieldUtf8(v: Json, k: string)
    requires Utf8Clean(v) && GetStr(v, k).Some?
    ensures Valid(GetStr(v, k).value)
  {
    hide Valid;
    assert Utf8Clean(v.fields[k]);
  }

  lemma ParsedKeyOk(v: Json)
    requires Utf8Clean(v) && ParseKey(v).Some?
    ensures KeyUtf8(ParseKey(v).value)
  {
    hide Valid, GetStr, Utf8Clean;
    FieldUtf8(v, "identity");
    FieldUtf8(v, "site");
    FieldUtf8(v, "trust");
  }

  lemma ParsedEntryOk(v: Json)
    requires Utf8Clean(v) && ParseEntry(v).Some?
    ensures EntryOk(ParseEntry(v).value)
  {
    hide Valid, ParseKey, FromJson, Utf8Clean, KeyUtf8;
    ParsedKeyOk(v);
    PolicyIsCanonical(v.fields["policy"]);
  }

  lemma EntryKeysUtf8(k: string)
    requires k in {"identity", "site", "trust", "policy"}
    ensures Valid(k)
  {
    EntryKeysAscii(k);
    AsciiUtf8(k);
  }

  lemma EntryKeysAscii(k: string)
    requires k in {"identity", "site", "trust", "policy"}
    ensures Ascii(k)
  {
  }

  lemma EntryClean(e: Entry)
    requires KeyUtf8(e.key)
    ensures Clean(EntryJson(e), 3)
  {
    EntryFields(e);
    PolicyClean(e.policy);
    hide Valid, Clean, EntryJson, ToJson;
    var v := EntryJson(e);
    forall k | k in v.fields ensures Valid(k) && Clean(v.fields[k], 2) {
      EntryKeysUtf8(k);
      if k != "policy" { ScalarClean(v.fields[k], 2); }
    }
    ObjectClean(v, 3);
  }

  lemma KeyClean(k: Key)
    requires KeyUtf8(k)
    ensures Clean(KeyJson(k), 3)
  {
    hide Valid, Clean;
    var v := KeyJson(k);
    forall x | x in v.fields ensures Valid(x) && Clean(v.fields[x], 2) {
      EntryKeysUtf8(x);
      ScalarClean(v.fields[x], 2);
    }
    hide KeyJson;
    ObjectClean(v, 3);
  }

  lemma EntriesClean(es: seq<Entry>)
    requires forall i | 0 <= i < |es| :: KeyUtf8(es[i].key)
    ensures Clean(EntriesJson(es), 4)
  {
    hide Clean, EntryJson, KeyUtf8, JsonList;
    forall i | 0 <= i < |es| ensures Clean(JsonList(es, EntryJson)[i], 3) { EntryClean(es[i]); }
    ListClean(JsonList(es, EntryJson), 4);
  }

  lemma KeysClean(ks: seq<Key>)
    requires AllUtf8(ks)
    ensures Clean(Arr(JsonList(ks, KeyJson)), 4)
  {
    hide Clean, KeyJson, KeyUtf8, JsonList;
    forall i | 0 <= i < |ks| ensures Clean(JsonList(ks, KeyJson)[i], 3) { KeyClean(ks[i]); }
    ListClean(JsonList(ks, KeyJson), 4);
  }

  lemma EntriesRead(es: seq<Entry>)
    requires AllOk(es)
    ensures ParseAll(JsonList(es, EntryJson), ParseEntry) == Some(es)
  {
    hide ParseEntry, EntryJson, JsonList, ParseAll, KeyUtf8;
    forall i | 0 <= i < |es| ensures ParseEntry(EntryJson(es[i])) == Some(es[i]) { assert EntryOk(es[i]); EntryReads(es[i]); }
    ListReads(es, EntryJson, ParseEntry);
  }

  lemma KeysRead(ks: seq<Key>)
    ensures ParseAll(JsonList(ks, KeyJson), ParseKey) == Some(ks)
  {
    hide ParseKey, KeyJson, JsonList, ParseAll;
    forall i | 0 <= i < |ks| ensures ParseKey(KeyJson(ks[i])) == Some(ks[i]) { KeyReads(ks[i]); }
    ListReads(ks, KeyJson, ParseKey);
  }

  lemma {:induction false} ParsedItems<T>(a: seq<Json>, item: Json -> Option<T>, i: nat)
    requires ParseAll(a, item).Some? && i < |a|
    ensures item(a[i]) == Some(ParseAll(a, item).value[i])
  {
    if i > 0 { ParsedItems(a[1..], item, i - 1); }
  }

  lemma ParsedEntriesOk(a: seq<Json>)
    requires (forall i | 0 <= i < |a| :: Utf8Clean(a[i])) && ParseAll(a, ParseEntry).Some?
    ensures AllOk(ParseAll(a, ParseEntry).value)
  {
    hide Utf8Clean, ParseEntry, ParseAll, EntryOk;
    var es := ParseAll(a, ParseEntry).value;
    forall i | 0 <= i < |es| ensures EntryOk(es[i]) {
      ParsedItems(a, ParseEntry, i);
      ParsedEntryOk(a[i]);
    }
  }

  lemma ParsedKeysOk(a: seq<Json>)
    requires (forall i | 0 <= i < |a| :: Utf8Clean(a[i])) && ParseAll(a, ParseKey).Some?
    ensures AllUtf8(ParseAll(a, ParseKey).value)
  {
    hide Utf8Clean, ParseKey, ParseAll, KeyUtf8;
    var ks := ParseAll(a, ParseKey).value;
    forall i | 0 <= i < |ks| ensures KeyUtf8(ks[i]) {
      ParsedItems(a, ParseKey, i);
      ParsedKeyOk(a[i]);
    }
  }

  // Envelopes

  lemma HeaderFields(kind: string, n: nat, base: nat, hash: string)
    ensures var h := Header(kind, n, base, hash);
            && h.Keys == {"schema", "schema_version", "kind", "seq", "base_seq", "hash"}
            && |h| == 6
            && h["schema"] == Str("xr-policy-snapshot") && h["schema_version"] == Int(1) && h["kind"] == Str(kind)
            && h["seq"] == Int(Cast(n)) && h["base_seq"] == Int(Cast(base)) && h["hash"] == Str(hash)
  {
    hide Cast;
  }

  lemma EnvelopeReads(kind: string, n: nat, base: nat, hash: string, payload: Json)
    requires n <= INT64_MAX && base <= INT64_MAX && |hash| == 64
    ensures var v := Envelope(kind, n, base, hash, payload);
            var field := if kind == "full" then "entries" else "delta";
            ParseHead(v, kind) == Some(Head(n, base, hash)) && v.Obj? && field in v.fields && v.fields[field] == payload
  {
    HeaderFields(kind, n, base, hash);
    hide Header;
    var v := Envelope(kind, n, base, hash, payload);
    assert |v.fields| == 7;
  }

  lemma EnvelopeKeysUtf8(k: string)
    requires k in {"schema", "schema_version", "kind", "seq", "base_seq", "hash", "entries", "delta", "added", "changed", "removed", "full", "diff"}
             || k == "xr-policy-snapshot"
    ensures Valid(k)
  {
    EnvelopeKeysAscii(k);
    AsciiUtf8(k);
  }

  lemma EnvelopeKeysAscii(k: string)
    requires k in {"schema", "schema_version", "kind", "seq", "base_seq", "hash", "entries", "delta", "added", "changed", "removed", "full", "diff"}
             || k == "xr-policy-snapshot"
    ensures Ascii(k)
  {
  }

  lemma EnvelopeClean(kind: string, n: nat, base: nat, hash: string, payload: Json)
    requires Valid(hash) && Clean(payload, 5) && (kind == "full" || kind == "diff")
    ensures Clean(Envelope(kind, n, base, hash, payload), 6)
  {
    HeaderFields(kind, n, base, hash);
    hide Header, Valid, Clean, Cast;
    var v := Envelope(kind, n, base, hash, payload);
    EnvelopeKeysUtf8(kind);
    EnvelopeKeysUtf8("xr-policy-snapshot");
    forall k | k in v.fields ensures Valid(k) && Clean(v.fields[k], 5) {
      EnvelopeKeysUtf8(k);
      if k != "entries" && k != "delta" { ScalarClean(v.fields[k], 5); }
    }
    ObjectClean(v, 6);
  }

  lemma CleanMore(v: Json, n: int, m: int)
    requires Clean(v, n) && n <= m
    ensures Clean(v, m)
  {
    PlainMore(v, n, m);
  }

  // Full snapshots

  /** The outcome is this state, with these sequence numbers. */
  ghost predicate Carries(o: Outcome, es: seq<Entry>, n: int, base: int) {
    o.Snapshot? && o.entries == es && o.seqNo == n && o.baseSeq == base
  }

  lemma SortedOk(es: seq<Entry>)
    ensures AllOk(Sort(es)) <==> AllOk(es)
  {
    hide EntryOk, Sort;
    forall e ensures e in Sort(es) <==> e in es { SortMembers(es, e); }
    assert AllOk(es) <==> forall e | e in es :: EntryOk(e);
    assert AllOk(Sort(es)) <==> forall e | e in Sort(es) :: EntryOk(e);
  }

  lemma AllKeysUtf8(es: seq<Entry>)
    requires AllOk(es)
    ensures forall i | 0 <= i < |es| :: KeyUtf8(es[i].key)
  {
    hide KeyUtf8;
    forall i | 0 <= i < |es| ensures KeyUtf8(es[i].key) { assert EntryOk(es[i]); }
  }

  lemma FullForward(H: string -> string, n: nat, es: seq<Entry>)
    requires HashOk(H) && DistinctKeys(es) && n <= INT64_MAX && AllOk(es)
    ensures Carries(DecodeFull(H, Print(FullJson(H, n, es))), Sort(es), n, n)
  {
    var s := Sort(es);
    var hash := StateHash(H, s);
    assert |hash| == 64 && Valid(hash);
    SortIsListing(es);
    SortListing(MapOf(es));
    SortedOk(es);
    hide *;
    AllKeysUtf8(s);
    EntriesClean(s);
    CleanMore(EntriesJson(s), 4, 5);
    EnvelopeClean("full", n, n, hash, EntriesJson(s));
    FullIs(H, n, es);
    CleanReads(FullJson(H, n, es), 6);
    EnvelopeReads("full", n, n, hash, EntriesJson(s));
    EntriesRead(s);
    FullDecodes(H, FullJson(H, n, es), s, Head(n, n, hash));
    TextDecodes(H, Print(FullJson(H, n, es)), FullJson(H, n, es));
  }

  lemma FullIs(H: string -> string, n: nat, es: seq<Entry>)
    ensures FullJson(H, n, es) == Envelope("full", n, n, StateHash(H, Sort(es)), EntriesJson(Sort(es)))
  {
    hide Envelope, Sort, StateHash, EntriesJson;
  }

  lemma FullDecodes(H: string -> string, v: Json, es: seq<Entry>, h: Head)
    requires ParseHead(v, "full") == Some(h) && v.Obj? && "entries" in v.fields && v.fields["entries"] == EntriesJson(es)
    requires ParseAll(JsonList(es, EntryJson), ParseEntry) == Some(es) && Sort(es) == es && StateHash(H, es) == h.hash
    ensures DecodeFullJson(H, v) == Snapshot(es, h.seqNo, h.baseSeq)
  {
    hide ParseHead, Sort, StateHash, ParseAll, ParseEntry, EntryJson, JsonList;
  }

  lemma TextDecodes(H: string -> string, text: string, v: Json)
    requires JsonParse.Parse(text) == Some(v)
    ensures DecodeFull(H, text) == DecodeFullJson(H, v)
    ensures forall base :: ApplyDiff(H, text, base) == ApplyDiffJson(H, v, base)
  {
    hide JsonParse.Parse, DecodeFullJson, ApplyDiffJson;
  }

  /** Whatever a full blob decodes to is sorted, made of admitted entries, and hashes to the blob's hash. */
  lemma DecodedIsOk(H: string -> string, text: string)
    requires DecodeFull(H, text).Snapshot?
    ensures AllOk(DecodeFull(H, text).entries)
    ensures exists es :: DecodeFull(H, text).entries == Sort(es)
  {
    hide JsonParse.Parse, ParseHead, Sort, StateHash, ParseAll, ParseEntry, AllOk, Utf8Clean;
    AcceptedIsClean(text);
    var v := JsonParse.Parse(text).value;
    var a := v.fields["entries"].items;
    ItemsClean(v, "entries");
    ParsedEntriesOk(a);
    SortedOk(ParseAll(a, ParseEntry).value);
  }

  lemma ItemsClean(v: Json, k: string)
    requires Utf8Clean(v) && v.Obj? && k in v.fields && v.fields[k].Arr?
    ensures forall i | 0 <= i < |v.fields[k].items| :: Utf8Clean(v.fields[k].items[i])
  {
    assert Utf8Clean(v.fields[k]);
  }

  /**
    A full blob gives the sorted entries back, whatever the hash function, exactly when the wire format can carry
    them: version 1 policies without export, UTF-8 keys, and a sequence number below 2^63.
   */
  lemma FullReconstructs(H: string -> string, n: nat, es: seq<Entry>)
    requires HashOk(H) && DistinctKeys(es) && EncodeFull(H, n, es).Blob?
    ensures var text := EncodeFull(H, n, es).text;
            |text| <= BUDGET && (Carries(DecodeFull(H, text), Sort(es), n, n) <==> n <= INT64_MAX && AllOk(es))
  {
    hide DecodeFull, Print, FullJson, AllOk, Sort;
    var text := EncodeFull(H, n, es).text;
    if n <= INT64_MAX && AllOk(es) { FullForward(H, n, es); }
    if Carries(DecodeFull(H, text), Sort(es), n, n) {
      DecodedIsOk(H, text);
      SortedOk(es);
    }
  }

  // Diffs

  /** The three lists of a diff are exact, and no key is in two of them. */
  lemma {:induction false} AddedContents(es: seq<Entry>, base: map<Key, EffectivePolicy>, e: Entry)
    ensures e in Added(es, base) <==> e in es && e.key !in base
    ensures e in Changed(es, base) <==> e in es && e.key in base && base[e.key] != e.policy
  {
    if es != [] {
      AddedContents(es[..|es| - 1], base, e);
      assert es == es[..|es| - 1] + [es[|es| - 1]];
    }
  }

  lemma {:induction false} RemovedContents(ks: seq<Key>, now: map<Key, EffectivePolicy>, k: Key)
    ensures k in Removed(ks, now) <==> k in ks && k !in now
  {
    if ks != [] {
      RemovedContents(ks[..|ks| - 1], now, k);
      assert ks == ks[..|ks| - 1] + [ks[|ks| - 1]];
    }
  }

  lemma DeltaIsExact(base: seq<Entry>, es: seq<Entry>, e: Entry, k: Key)
    requires DistinctKeys(es)
    ensures var (s, bm) := (Sort(es), MapOf(base));
            && (e in Added(s, bm) <==> e in es && e.key !in bm)
            && (e in Changed(s, bm) <==> e in es && e.key in bm && bm[e.key] != e.policy)
            && (k in Removed(KeysOf(bm), MapOf(s)) <==> k in bm && !HasKey(es, k))
            && !(HasKey(Added(s, bm), k) && HasKey(Changed(s, bm), k))
            && !(HasKey(Added(s, bm), k) && k in Removed(KeysOf(bm), MapOf(s)))
            && !(HasKey(Changed(s, bm), k) && k in Removed(KeysOf(bm), MapOf(s)))
  {
    hide Sort, PutAll, Added, Changed, Removed, KeysOf, DistinctKeys;
    var s, bm := Sort(es), MapOf(base);
    SortMembers(es, e);
    AddedContents(s, bm, e);
    RemovedContents(KeysOf(bm), MapOf(s), k);
    SortIsListing(es);
    ListingMaps(MapOf(es));
    PutContents(map[], es, k);
    if HasKey(Added(s, bm), k) {
      var i :| 0 <= i < |Added(s, bm)| && Added(s, bm)[i].key == k;
      InSorted(es, bm, Added(s, bm)[i]);
    }
    if HasKey(Changed(s, bm), k) {
      var i :| 0 <= i < |Changed(s, bm)| && Changed(s, bm)[i].key == k;
      InSorted(es, bm, Changed(s, bm)[i]);
    }
  }

  lemma InSorted(es: seq<Entry>, bm: map<Key, EffectivePolicy>, e: Entry)
    requires e in Added(Sort(es), bm) || e in Changed(Sort(es), bm)
    ensures HasKey(es, e.key) && (e in Added(Sort(es), bm) ==> e.key !in bm) && (e in Changed(Sort(es), bm) ==> e.key in bm)
  {
    hide Sort, Added, Changed;
    AddedContents(Sort(es), bm, e);
    SortMembers(es, e);
    var i :| 0 <= i < |es| && es[i] == e;
  }

  lemma {:induction false} EraseContents(m: map<Key, EffectivePolicy>, ks: seq<Key>, k: Key)
    ensures k in EraseAll(m, ks) <==> k in m && k !in ks
    ensures k in EraseAll(m, ks) ==> EraseAll(m, ks)[k] == m[k]
  {
    if ks != [] {
      EraseContents(m, ks[..|ks| - 1], k);
      assert ks == ks[..|ks| - 1] + [ks[|ks| - 1]];
    }
  }

  /** A value put into a map is one of the entries, or was there. */
  lemma {:induction false} PutOrigin(m: map<Key, EffectivePolicy>, es: seq<Entry>, k: Key)
    requires k in PutAll(m, es)
    ensures Entry(k, PutAll(m, es)[k]) in es || (k in m && PutAll(m, es)[k] == m[k])
  {
    if es != [] {
      var front, last := es[..|es| - 1], es[|es| - 1];
      if last.key != k { PutOrigin(m, front, k); }
      assert es == front + [last];
    }
  }

  lemma {:induction false} DistinctParts(es: seq<Entry>, base: map<Key, EffectivePolicy>)
    requires DistinctKeys(es)
    ensures DistinctKeys(Added(es, base)) && DistinctKeys(Changed(es, base))
  {
    if es != [] {
      var front, e := es[..|es| - 1], es[|es| - 1];
      DistinctParts(front, base);
      var a, c := Added(front, base), Changed(front, base);
      forall i | 0 <= i < |a| ensures a[i].key != e.key { AddedContents(front, base, a[i]); NotLast(es, a[i]); }
      forall i | 0 <= i < |c| ensures c[i].key != e.key { AddedContents(front, base, c[i]); NotLast(es, c[i]); }
    }
  }

  lemma NotLast(es: seq<Entry>, x: Entry)
    requires es != [] && DistinctKeys(es) && x in es[..|es| - 1]
    ensures x.key != es[|es| - 1].key
  {
    var i :| 0 <= i < |es| - 1 && es[..|es| - 1][i] == x;
    assert es[i] == x;
  }

  ghost predicate SameAt(a: map<Key, EffectivePolicy>, b: map<Key, EffectivePolicy>, k: Key) {
    (k in a <==> k in b) && (k in a ==> a[k] == b[k])
  }

  /** The three lists of the diff from `bm` to `s`, applied to any map. */
  ghost function Patched(m: map<Key, EffectivePolicy>, bm: map<Key, EffectivePolicy>, s: seq<Entry>): map<Key, EffectivePolicy> {
    EraseAll(PutAll(PutAll(m, Added(s, bm)), Changed(s, bm)), Removed(KeysOf(bm), MapOf(s)))
  }

  /** The lists set what differs between base and new state, and leave the rest of whatever they are applied to. */
  lemma PatchAt(m: map<Key, EffectivePolicy>, bm: map<Key, EffectivePolicy>, s: seq<Entry>, k: Key)
    requires DistinctKeys(s)
    ensures SameAt(Patched(m, bm, s), if SameAt(bm, MapOf(s), k) then m else MapOf(s), k)
  {
    DistinctParts(s, bm);
    hide EraseAll, PutAll, Added, Changed, Removed, KeysOf, DistinctKeys;
    var added, changed, removed := Added(s, bm), Changed(s, bm), Removed(KeysOf(bm), MapOf(s));
    var m1 := PutAll(m, added);
    var m2 := PutAll(m1, changed);
    EraseContents(m2, removed, k);
    RemovedContents(KeysOf(bm), MapOf(s), k);
    PutContents(m1, changed, k);
    PutContents(m, added, k);
    PutContents(map[], s, k);
    if HasKey(s, k) {
      var i :| 0 <= i < |s| && s[i].key == k;
      var e := s[i];
      PutDistinct(map[], s, e);
      AddedContents(s, bm, e);
      if e in added { PutDistinct(m, added, e); }
      if e in changed { PutDistinct(m1, changed, e); }
      OneOfKey(s, bm, e);
    } else {
      NoneOfKey(s, bm, k);
    }
  }

  /** Applying the three lists to the base gives the new state. */
  lemma DeltaApplies(s: seq<Entry>, bm: map<Key, EffectivePolicy>)
    requires DistinctKeys(s)
    ensures Patched(bm, bm, s) == MapOf(s)
  {
    hide Patched, PutAll, DistinctKeys;
    var m := Patched(bm, bm, s);
    forall k ensures (k in m <==> k in MapOf(s)) && (k in m ==> m[k] == MapOf(s)[k]) { PatchAt(bm, bm, s, k); }
  }

  lemma NoneOfKey(s: seq<Entry>, bm: map<Key, EffectivePolicy>, k: Key)
    requires !HasKey(s, k)
    ensures !HasKey(Added(s, bm), k) && !HasKey(Changed(s, bm), k)
  {
    hide Added, Changed;
    var a, c := Added(s, bm), Changed(s, bm);
    forall i | 0 <= i < |a| ensures a[i].key != k { AddedContents(s, bm, a[i]); }
    forall i | 0 <= i < |c| ensures c[i].key != k { AddedContents(s, bm, c[i]); }
  }

  /** With distinct keys, an entry is the only one of its key in either list. */
  lemma OneOfKey(s: seq<Entry>, bm: map<Key, EffectivePolicy>, e: Entry)
    requires DistinctKeys(s) && e in s
    ensures HasKey(Added(s, bm), e.key) <==> e in Added(s, bm)
    ensures HasKey(Changed(s, bm), e.key) <==> e in Changed(s, bm)
  {
    hide Added, Changed;
    var a, c := Added(s, bm), Changed(s, bm);
    forall i | 0 <= i < |a| && a[i].key == e.key ensures a[i] == e { AddedContents(s, bm, a[i]); SameEntry(s, a[i], e); }
    forall i | 0 <= i < |c| && c[i].key == e.key ensures c[i] == e { AddedContents(s, bm, c[i]); SameEntry(s, c[i], e); }
  }

  lemma SameEntry(s: seq<Entry>, x: Entry, y: Entry)
    requires DistinctKeys(s) && x in s && y in s && x.key == y.key
    ensures x == y
  {
    var i :| 0 <= i < |s| && s[i] == x;
    var j :| 0 <= j < |s| && s[j] == y;
  }

  /** The entries and keys that a diff puts on the wire. */
  ghost predicate DeltaOk(base: seq<Entry>, es: seq<Entry>) {
    var (s, bm) := (Sort(es), MapOf(base));
    AllOk(Added(s, bm)) && AllOk(Changed(s, bm)) && AllUtf8(Removed(KeysOf(bm), MapOf(s)))
  }

  lemma DeltaFields(added: seq<Entry>, changed: seq<Entry>, removed: seq<Key>)
    ensures var d := DeltaJson(added, changed, removed);
            && DeltaList(d, "added") == Some(JsonList(added, EntryJson))
            && DeltaList(d, "changed") == Some(JsonList(changed, EntryJson))
            && DeltaList(d, "removed") == Some(JsonList(removed, KeyJson))
            && d.Obj? && forall k | k in d.fields :: k in {"added", "changed", "removed"}
  {
    hide JsonList, EntryJson, KeyJson;
  }

  lemma DeltaHolds(added: seq<Entry>, changed: seq<Entry>, removed: seq<Key>)
    ensures var d := DeltaJson(added, changed, removed);
            && d.Obj? && d.fields.Keys == {"added", "changed", "removed"}
            && d.fields["added"] == EntriesJson(added) && d.fields["changed"] == EntriesJson(changed) && d.fields["removed"] == Arr(JsonList(removed, KeyJson))
  {
    hide EntriesJson, JsonList, KeyJson;
  }

  lemma DeltaClean(added: seq<Entry>, changed: seq<Entry>, removed: seq<Key>)
    requires AllOk(added) && AllOk(changed) && AllUtf8(removed)
    ensures Clean(DeltaJson(added, changed, removed), 5)
  {
    hide *;
    DeltaHolds(added, changed, removed);
    AllKeysUtf8(added);
    AllKeysUtf8(changed);
    EntriesClean(added);
    EntriesClean(changed);
    KeysClean(removed);
    var d := DeltaJson(added, changed, removed);
    forall k | k in d.fields ensures Valid(k) && Clean(d.fields[k], 4) { EnvelopeKeysUtf8(k); }
    ObjectClean(d, 5);
  }

  lemma DiffOf(H: string -> string, v: Json, base: seq<Entry>, a: seq<Json>, c: seq<Json>, r: seq<Json>,
               added: seq<Entry>, changed: seq<Entry>, removed: seq<Key>, h: Head)
    requires ParseHead(v, "diff") == Some(h) && v.Obj? && "delta" in v.fields && v.fields["delta"].Obj?
    requires var d := v.fields["delta"]; DeltaList(d, "added") == Some(a) && DeltaList(d, "changed") == Some(c) && DeltaList(d, "removed") == Some(r)
    requires ParseAll(a, ParseEntry) == Some(added) && ParseAll(c, ParseEntry) == Some(changed) && ParseAll(r, ParseKey) == Some(removed)
    ensures ApplyDiffJson(H, v, base) == CheckHash(H, Listing(EraseAll(PutAll(PutAll(MapOf(base), added), changed), removed)), h)
  {
    hide ParseHead, ParseAll, ParseEntry, ParseKey, DeltaList, EraseAll, PutAll, Listing, CheckHash;
  }

  lemma DiffDecodes(H: string -> string, v: Json, base: seq<Entry>, added: seq<Entry>, changed: seq<Entry>, removed: seq<Key>, h: Head)
    requires ParseHead(v, "diff") == Some(h) && v.Obj? && "delta" in v.fields && v.fields["delta"] == DeltaJson(added, changed, removed)
    requires AllOk(added) && AllOk(changed)
    ensures ApplyDiffJson(H, v, base) == CheckHash(H, Listing(EraseAll(PutAll(PutAll(MapOf(base), added), changed), removed)), h)
  {
    hide *;
    DeltaFields(added, changed, removed);
    EntriesRead(added);
    EntriesRead(changed);
    KeysRead(removed);
    DiffOf(H, v, base, JsonList(added, EntryJson), JsonList(changed, EntryJson), JsonList(removed, KeyJson), added, changed, removed, h);
  }

  lemma DiffIs(H: string -> string, n: nat, baseSeq: nat, base: seq<Entry>, es: seq<Entry>)
    ensures var (s, bm) := (Sort(es), MapOf(base));
            DiffJson(H, n, baseSeq, base, es)
            == Envelope("diff", n, baseSeq, StateHash(H, s), DeltaJson(Added(s, bm), Changed(s, bm), Removed(KeysOf(bm), MapOf(s))))
  {
    hide Envelope, Sort, StateHash, DeltaJson, PutAll, Added, Changed, Removed, KeysOf;
  }

  lemma HashShape(H: string -> string, es: seq<Entry>)
    requires HashOk(H)
    ensures |StateHash(H, es)| == 64 && Valid(StateHash(H, es))
  {
    hide Valid, StateText;
  }

  /** What a diff does to any base: its lists are applied, and the result has to hash to what the blob says. */
  lemma DiffOutcome(H: string -> string, n: nat, baseSeq: nat, base: seq<Entry>, es: seq<Entry>, base': seq<Entry>, h: Head)
    requires HashOk(H) && h.seqNo == n && h.baseSeq == baseSeq && h.hash == StateHash(H, Sort(es)) && DeltaOk(base, es)
    ensures ApplyDiff(H, Print(DiffJson(H, n, baseSeq, base, es)), base') == CheckHash(H, Listing(Patched(MapOf(base'), MapOf(base), Sort(es))), h)
  {
    var s, bm := Sort(es), MapOf(base);
    var added, changed, removed := Added(s, bm), Changed(s, bm), Removed(KeysOf(bm), MapOf(s));
    var hash := StateHash(H, s);
    var v := DiffJson(H, n, baseSeq, base, es);
    assert AllOk(added) && AllOk(changed) && AllUtf8(removed);
    PatchedIs(MapOf(base'), bm, s);
    hide *;
    HashShape(H, s);
    DeltaClean(added, changed, removed);
    DiffIs(H, n, baseSeq, base, es);
    EnvelopeClean("diff", n, baseSeq, hash, DeltaJson(added, changed, removed));
    CleanReads(v, 6);
    EnvelopeReads("diff", n, baseSeq, hash, DeltaJson(added, changed, removed));
    DiffDecodes(H, v, base', added, changed, removed, h);
    TextDecodes(H, Print(v), v);
  }

  lemma PatchedIs(m: map<Key, EffectivePolicy>, bm: map<Key, EffectivePolicy>, s: seq<Entry>)
    ensures Patched(m, bm, s) == EraseAll(PutAll(PutAll(m, Added(s, bm)), Changed(s, bm)), Removed(KeysOf(bm), MapOf(s)))
  {
    hide EraseAll, PutAll, Added, Changed, Removed, KeysOf;
  }

  lemma DiffForward(H: string -> string, n: nat, baseSeq: nat, base: seq<Entry>, es: seq<Entry>, base': seq<Entry>)
    requires HashOk(H) && DistinctKeys(es) && MapOf(base') == MapOf(base)
    requires n <= INT64_MAX && baseSeq <= INT64_MAX && DeltaOk(base, es)
    ensures Carries(ApplyDiff(H, Print(DiffJson(H, n, baseSeq, base, es)), base'), Sort(es), n, baseSeq)
  {
    var h := Head(n, baseSeq, StateHash(H, Sort(es)));
    hide *;
    var s, bm := Sort(es), MapOf(base);
    DiffOutcome(H, n, baseSeq, base, es, base', h);
    SortIsListing(es);
    ListingMaps(MapOf(es));
    ListingAscends(MapOf(es));
    DeltaApplies(s, bm);
    HashChecks(H, s, h);
  }

  lemma HashChecks(H: string -> string, es: seq<Entry>, h: Head)
    requires StateHash(H, es) == h.hash
    ensures Carries(CheckHash(H, es, h), es, h.seqNo, h.baseSeq)
  {
    hide StateHash;
  }

  /** What an accepted diff did to its base: three lists of admitted entries and keys. */
  lemma AppliedShape(H: string -> string, text: string, base: seq<Entry>) returns (added: seq<Entry>, changed: seq<Entry>, removed: seq<Key>)
    requires ApplyDiff(H, text, base).Snapshot?
    ensures AllOk(added) && AllOk(changed) && AllUtf8(removed)
    ensures ApplyDiff(H, text, base).entries == Listing(EraseAll(PutAll(PutAll(MapOf(base), added), changed), removed))
  {
    hide JsonParse.Parse, ParseHead, StateHash, ParseAll, ParseEntry, ParseKey, AllOk, AllUtf8, Utf8Clean, Listing, EraseAll, PutAll;
    AcceptedIsClean(text);
    var v := JsonParse.Parse(text).value;
    var d := v.fields["delta"];
    FieldClean(v, "delta");
    ItemsClean(d, "added");
    ItemsClean(d, "changed");
    ItemsClean(d, "removed");
    added := ParseAll(d.fields["added"].items, ParseEntry).value;
    changed := ParseAll(d.fields["changed"].items, ParseEntry).value;
    removed := ParseAll(d.fields["removed"].items, ParseKey).value;
    ParsedEntriesOk(d.fields["added"].items);
    ParsedEntriesOk(d.fields["changed"].items);
    ParsedKeysOk(d.fields["removed"].items);
  }

  lemma FieldClean(v: Json, k: string)
    requires Utf8Clean(v) && v.Obj? && k in v.fields
    ensures Utf8Clean(v.fields[k])
  {
  }

  lemma OkMember(es: seq<Entry>, e: Entry)
    requires AllOk(es) && e in es
    ensures EntryOk(e)
  {
    hide EntryOk;
  }

  /** Lists that turn the base into the new state, in the way a decoder applies them. */
  ghost predicate Rebuilds(base: seq<Entry>, es: seq<Entry>, added: seq<Entry>, changed: seq<Entry>, removed: seq<Key>) {
    EraseAll(PutAll(PutAll(MapOf(base), added), changed), removed) == MapOf(es)
  }

  lemma ChangedIsCarried(base: seq<Entry>, es: seq<Entry>, added: seq<Entry>, changed: seq<Entry>, removed: seq<Key>, e: Entry)
    requires Rebuilds(base, es, added, changed, removed) && DistinctKeys(es) && AllOk(added) && AllOk(changed)
    requires e in es && (e.key !in MapOf(base) || MapOf(base)[e.key] != e.policy)
    ensures EntryOk(e)
  {
    hide PutAll, EraseAll, DistinctKeys, EntryOk, AllOk;
    var m1 := PutAll(MapOf(base), added);
    PutDistinct(map[], es, e);
    EraseContents(PutAll(m1, changed), removed, e.key);
    PutOrigin(m1, changed, e.key);
    if e in changed {
      OkMember(changed, e);
    } else {
      PutOrigin(MapOf(base), added, e.key);
      OkMember(added, e);
    }
  }

  lemma RemovedIsCarried(base: seq<Entry>, es: seq<Entry>, added: seq<Entry>, changed: seq<Entry>, removed: seq<Key>, k: Key)
    requires Rebuilds(base, es, added, changed, removed) && AllUtf8(removed) && k in MapOf(base) && k !in MapOf(es)
    ensures KeyUtf8(k)
  {
    hide PutAll, EraseAll, KeyUtf8;
    var m1 := PutAll(MapOf(base), added);
    EraseContents(PutAll(m1, changed), removed, k);
    PutContents(MapOf(base), added, k);
    PutContents(m1, changed, k);
  }

  /** Whatever lists rebuild the new state carry every entry and key that has to change. */
  lemma NeededOnWire(base: seq<Entry>, es: seq<Entry>, added: seq<Entry>, changed: seq<Entry>, removed: seq<Key>)
    requires Rebuilds(base, es, added, changed, removed) && DistinctKeys(es) && AllOk(added) && AllOk(changed) && AllUtf8(removed)
    ensures DeltaOk(base, es)
  {
    var s, bm := Sort(es), MapOf(base);
    SortIsListing(es);
    ListingMaps(MapOf(es));
    assert MapOf(s) == MapOf(es);
    hide Sort, PutAll, Rebuilds, Added, Changed, Removed, KeysOf, DistinctKeys, EntryOk, KeyUtf8, Listing, MapOf;
    var a, c, r := Added(s, bm), Changed(s, bm), Removed(KeysOf(bm), MapOf(s));
    forall i | 0 <= i < |a| ensures EntryOk(a[i]) {
      AddedContents(s, bm, a[i]);
      SortMembers(es, a[i]);
      ChangedIsCarried(base, es, added, changed, removed, a[i]);
    }
    forall i | 0 <= i < |c| ensures EntryOk(c[i]) {
      AddedContents(s, bm, c[i]);
      SortMembers(es, c[i]);
      ChangedIsCarried(base, es, added, changed, removed, c[i]);
    }
    forall i | 0 <= i < |r| ensures KeyUtf8(r[i]) {
      RemovedContents(KeysOf(bm), MapOf(s), r[i]);
      RemovedIsCarried(base, es, added, changed, removed, r[i]);
    }
  }

  /**
    A diff applied to its base, in any order, gives the sorted new state and a matching hash exactly when the wire
    format can carry what changed.
   */
  lemma DiffReconstructs(H: string -> string, n: nat, baseSeq: nat, base: seq<Entry>, es: seq<Entry>, base': seq<Entry>)
    requires HashOk(H) && DistinctKeys(es) && MapOf(base') == MapOf(base) && EncodeDiff(H, n, baseSeq, base, es).Blob?
    ensures var text := EncodeDiff(H, n, baseSeq, base, es).text;
            |text| <= BUDGET
            && (Carries(ApplyDiff(H, text, base'), Sort(es), n, baseSeq) <==> n <= INT64_MAX && baseSeq <= INT64_MAX && DeltaOk(base, es))
  {
    hide ApplyDiff, Print, DiffJson, DeltaOk, Sort, PutAll, EraseAll, Listing, DistinctKeys, HashOk, AllOk, AllUtf8;
    var text := EncodeDiff(H, n, baseSeq, base, es).text;
    if n <= INT64_MAX && baseSeq <= INT64_MAX && DeltaOk(base, es) { DiffForward(H, n, baseSeq, base, es, base'); }
    if Carries(ApplyDiff(H, text, base'), Sort(es), n, baseSeq) {
      var added, changed, removed := AppliedShape(H, text, base');
      SortIsListing(es);
      ListingMaps(MapOf(es));
      ListingMaps(EraseAll(PutAll(PutAll(MapOf(base'), added), changed), removed));
      assert Rebuilds(base, es, added, changed, removed);
      NeededOnWire(base, es, added, changed, removed);
    }
  }

  /** Entries with distinct keys make the same map in any order. */
  lemma OrderIsIrrelevant(base: seq<Entry>, base': seq<Entry>)
    requires DistinctKeys(base) && DistinctKeys(base') && multiset(base) == multiset(base')
    ensures MapOf(base) == MapOf(base')
  {
    hide PutAll, DistinctKeys;
    forall e ensures e in base <==> e in base' { assert e in multiset(base) <==> e in multiset(base'); }
    forall k ensures (k in MapOf(base) <==> k in MapOf(base')) && (k in MapOf(base) ==> MapOf(base)[k] == MapOf(base')[k]) {
      PutContents(map[], base, k);
      PutContents(map[], base', k);
      if i :| 0 <= i < |base| && base[i].key == k { PutDistinct(map[], base, base[i]); PutDistinct(map[], base', base[i]); }
      if i :| 0 <= i < |base'| && base'[i].key == k { PutDistinct(map[], base, base'[i]); }
    }
  }
}
