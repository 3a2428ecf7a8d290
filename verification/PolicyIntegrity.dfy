/**
  What the integrity hash of a snapshot is for: whatever text and base a decoder is given, what it accepts is the state
  that the hash was made of, or another state with the same hash.
 */
module PolicyIntegrity {
  import opened Wrappers
  import opened Order
  import opened Utf8
  import opened JsonValue
  import JsonParse
  import opened JsonRoundTrip
  import opened PermissionStore
  import opened PermissionOverlay
  import opened PermissionProjection
  import opened PolicyTypes
  import opened PolicyCodec
  import opened PolicySnapshot
  import opened PolicySnapshotLaws

  ghost predicate KeysUtf8(es: seq<Entry>) { forall i | 0 <= i < |es| :: KeyUtf8(es[i].key) }

  /** Two states with different texts and the same hash. */
  ghost predicate Collides(H: string -> string, a: seq<Entry>, b: seq<Entry>) {
    StateText(a) != StateText(b) && StateHash(H, a) == StateHash(H, b)
  }

  // The text of a state determines the state

  lemma EntryJsonInjective(a: Entry, b: Entry)
    requires EntryJson(a) == EntryJson(b)
    ensures a == b
  {
    EntryFields(a);
    EntryFields(b);
    hide EntryJson, ToJson, GetStr;
    ToJsonInjective(a.policy, b.policy);
  }

  lemma EntriesInjective(a: seq<Entry>, b: seq<Entry>)
    requires EntriesJson(a) == EntriesJson(b)
    ensures a == b
  {
    hide EntryJson, JsonList;
    assert JsonList(a, EntryJson) == JsonList(b, EntryJson);
    forall i | 0 <= i < |a| ensures a[i] == b[i] {
      assert JsonList(a, EntryJson)[i] == JsonList(b, EntryJson)[i];
      EntryJsonInjective(a[i], b[i]);
    }
  }

  lemma StateReads(es: seq<Entry>)
    requires KeysUtf8(es)
    ensures JsonParse.Parse(StateText(es)) == Some(Obj(map["entries" := EntriesJson(es)]))
  {
    hide KeyUtf8, Clean, Print, JsonParse.Parse, EntriesJson, Valid;
    EntriesClean(es);
    EnvelopeKeysUtf8("entries");
    ObjectClean(Obj(map["entries" := EntriesJson(es)]), 5);
    CleanReads(Obj(map["entries" := EntriesJson(es)]), 5);
  }

  /** Of states with UTF-8 keys, whatever their policies, only equal ones have the same text. */
  lemma StateTextInjective(a: seq<Entry>, b: seq<Entry>)
    requires KeysUtf8(a) && KeysUtf8(b)
    ensures StateText(a) == StateText(b) <==> a == b
  {
    if StateText(a) == StateText(b) {
      StateReads(a);
      StateReads(b);
      hide KeysUtf8, StateText, EntriesJson, JsonParse.Parse;
      assert Obj(map["entries" := EntriesJson(a)]).fields["entries"] == Obj(map["entries" := EntriesJson(b)]).fields["entries"];
      EntriesInjective(a, b);
    }
  }

  // What is accepted

  /** The hash that a blob names. */
  ghost function HashIn(text: string): Option<string> {
    match JsonParse.Parse(text) case None => None case Some(v) => GetStr(v, "hash")
  }

  lemma HeadHash(v: Json, kind: string)
    requires ParseHead(v, kind).Some?
    ensures GetStr(v, "hash") == Some(ParseHead(v, kind).value.hash)
  {
    hide GetStr, GetInt;
  }

  lemma AcceptedHash(H: string -> string, text: string, base: seq<Entry>)
    ensures DecodeFull(H, text).Snapshot? ==> HashIn(text) == Some(StateHash(H, DecodeFull(H, text).entries))
    ensures ApplyDiff(H, text, base).Snapshot? ==> HashIn(text) == Some(StateHash(H, ApplyDiff(H, text, base).entries))
  {
    hide JsonParse.Parse, ParseHead, StateHash, ParseAll, ParseEntry, ParseKey, Sort, Listing, EraseAll, PutAll, GetStr, DeltaList;
    var parsed := JsonParse.Parse(text);
    if parsed.Some? {
      if ParseHead(parsed.value, "full").Some? { HeadHash(parsed.value, "full"); }
      if ParseHead(parsed.value, "diff").Some? { HeadHash(parsed.value, "diff"); }
    }
  }

  lemma ListingKey(m: map<Key, EffectivePolicy>, i: nat)
    requires i < |Listing(m)|
    ensures Listing(m)[i].key in m
  {
    hide Along, KeysOf;
    assert KeysOf(m)[i] in KeysOf(m);
  }

  lemma OkKeys(es: seq<Entry>, k: Key)
    requires KeysUtf8(es) && HasKey(es, k)
    ensures KeyUtf8(k)
  {
    hide KeyUtf8;
  }

  /** The keys of an accepted state come from its base or from the parser. */
  lemma AcceptedKeys(H: string -> string, text: string, base: seq<Entry>)
    requires KeysUtf8(base) && ApplyDiff(H, text, base).Snapshot?
    ensures KeysUtf8(ApplyDiff(H, text, base).entries)
  {
    hide *;
    var added, changed, removed := AppliedShape(H, text, base);
    AllKeysUtf8(added);
    AllKeysUtf8(changed);
    KeysUtf8Is(added);
    KeysUtf8Is(changed);
    PatchKeys(base, added, changed, removed);
  }

  lemma KeysUtf8Is(es: seq<Entry>)
    ensures KeysUtf8(es) <==> forall i | 0 <= i < |es| :: KeyUtf8(es[i].key)
  {
  }

  lemma PatchKeys(base: seq<Entry>, added: seq<Entry>, changed: seq<Entry>, removed: seq<Key>)
    requires KeysUtf8(base) && KeysUtf8(added) && KeysUtf8(changed)
    ensures KeysUtf8(Listing(EraseAll(PutAll(PutAll(MapOf(base), added), changed), removed)))
  {
    hide KeyUtf8, Listing, EraseAll, PutAll, HasKey;
    var m1 := PutAll(MapOf(base), added);
    var m2 := PutAll(m1, changed);
    var es := Listing(EraseAll(m2, removed));
    forall i | 0 <= i < |es| ensures KeyUtf8(es[i].key) {
      var k := es[i].key;
      ListingKey(EraseAll(m2, removed), i);
      EraseContents(m2, removed, k);
      PutContents(m1, changed, k);
      PutContents(MapOf(base), added, k);
      PutContents(map[], base, k);
      if HasKey(changed, k) { OkKeys(changed, k); } else if HasKey(added, k) { OkKeys(added, k); } else { OkKeys(base, k); }
    }
  }

  lemma DecodedKeys(H: string -> string, text: string)
    requires DecodeFull(H, text).Snapshot?
    ensures KeysUtf8(DecodeFull(H, text).entries)
  {
    hide *;
    DecodedIsOk(H, text);
    AllKeysUtf8(DecodeFull(H, text).entries);
    KeysUtf8Is(DecodeFull(H, text).entries);
  }

  /**
    For any text, however it came about, that names the hash of a state, and for any base: what a decoder accepts is that state,
    or a state with another text and the same hash.
   */
  lemma AcceptedIsIntended(H: string -> string, text: string, base: seq<Entry>, es: seq<Entry>)
    requires KeysUtf8(base) && KeysUtf8(es) && HashIn(text) == Some(StateHash(H, es))
    ensures var o := ApplyDiff(H, text, base); o.Snapshot? ==> o.entries == es || Collides(H, o.entries, es)
    ensures var o := DecodeFull(H, text); o.Snapshot? ==> o.entries == es || Collides(H, o.entries, es)
  {
    hide KeysUtf8, StateText, ApplyDiff, DecodeFull, HashIn;
    AcceptedHash(H, text, base);
    var o := ApplyDiff(H, text, base);
    if o.Snapshot? {
      AcceptedKeys(H, text, base);
      StateTextInjective(o.entries, es);
    }
    var f := DecodeFull(H, text);
    if f.Snapshot? {
      DecodedKeys(H, text);
      StateTextInjective(f.entries, es);
    }
  }

  // A diff on a base that it was not made for

  /** Where old base and new state agree, this base agrees with them; elsewhere it may hold anything. */
  ghost predicate AgreesElsewhere(base: seq<Entry>, es: seq<Entry>, base': seq<Entry>) {
    forall k :: SameAt(MapOf(base), MapOf(es), k) ==> SameAt(MapOf(base'), MapOf(base), k)
  }

  lemma SortedMap(es: seq<Entry>)
    requires DistinctKeys(es)
    ensures MapOf(Sort(es)) == MapOf(es) && DistinctKeys(Sort(es)) && Sort(es) == Listing(MapOf(es))
  {
    hide *;
    SortIsListing(es);
    ListingMaps(MapOf(es));
    ListingAscends(MapOf(es));
  }

  /** The lists of a diff turn exactly those bases into the new state. */
  lemma PatchesWhenAgreeing(base: seq<Entry>, es: seq<Entry>, base': seq<Entry>)
    requires DistinctKeys(es)
    ensures Patched(MapOf(base'), MapOf(base), Sort(es)) == MapOf(es) <==> AgreesElsewhere(base, es, base')
  {
    hide Patched, PutAll, Sort, DistinctKeys, Listing;
    SortedMap(es);
    var m := Patched(MapOf(base'), MapOf(base), Sort(es));
    if AgreesElsewhere(base, es, base') {
      forall k ensures SameAt(m, MapOf(es), k) {
        PatchAt(MapOf(base'), MapOf(base), Sort(es), k);
        if SameAt(MapOf(base), MapOf(es), k) { assert SameAt(MapOf(base'), MapOf(base), k); }
      }
      assert m == MapOf(es) by {
        assert forall k :: SameAt(m, MapOf(es), k);
        forall k ensures (k in m <==> k in MapOf(es)) && (k in m ==> m[k] == MapOf(es)[k]) { assert SameAt(m, MapOf(es), k); }
      }
    }
    if m == MapOf(es) {
      forall k | SameAt(MapOf(base), MapOf(es), k) ensures SameAt(MapOf(base'), MapOf(base), k) { PatchAt(MapOf(base'), MapOf(base), Sort(es), k); }
    }
  }

  lemma HashDecides(H: string -> string, m: map<Key, EffectivePolicy>, h: Head)
    ensures var o := CheckHash(H, Listing(m), h);
            && (o.Snapshot? <==> StateHash(H, Listing(m)) == h.hash)
            && (o.Snapshot? ==> o.entries == Listing(m) && o.seqNo == h.seqNo && o.baseSeq == h.baseSeq)
            && (!o.Snapshot? ==> o == Rejected(HashMismatch))
  {
    hide StateHash, Listing;
  }

  lemma ListingInjective(a: map<Key, EffectivePolicy>, b: map<Key, EffectivePolicy>)
    ensures Listing(a) == Listing(b) <==> a == b
  {
    hide *;
    ListingMaps(a);
    ListingMaps(b);
  }

  /**
    A diff on any base: it gives the new state exactly on the bases that agree with its own wherever the diff says nothing. On
    every other base it is refused for its hash, unless the state it gives there has the hash of the new one.
   */
  lemma DiffOnAnyBase(H: string -> string, n: nat, baseSeq: nat, base: seq<Entry>, es: seq<Entry>, base': seq<Entry>)
    requires HashOk(H) && DistinctKeys(es) && EncodeDiff(H, n, baseSeq, base, es).Blob?
    requires n <= INT64_MAX && baseSeq <= INT64_MAX && DeltaOk(base, es) && KeysUtf8(es) && KeysUtf8(base')
    ensures var o := ApplyDiff(H, EncodeDiff(H, n, baseSeq, base, es).text, base');
            && (Carries(o, Sort(es), n, baseSeq) <==> AgreesElsewhere(base, es, base'))
            && (o.Snapshot? ==> Carries(o, Sort(es), n, baseSeq) || Collides(H, o.entries, Sort(es)))
            && (!o.Snapshot? ==> o == Rejected(HashMismatch))
  {
    hide *;
    EncodedIs(H, n, baseSeq, base, es);
    PrintedOnAnyBase(H, n, baseSeq, base, es, base', EncodeDiff(H, n, baseSeq, base, es).text);
  }

  lemma PrintedOnAnyBase(H: string -> string, n: nat, baseSeq: nat, base: seq<Entry>, es: seq<Entry>, base': seq<Entry>, text: string)
    requires HashOk(H) && DistinctKeys(es) && n <= INT64_MAX && baseSeq <= INT64_MAX && text == Print(DiffJson(H, n, baseSeq, base, es))
    requires DeltaOk(base, es) && KeysUtf8(es) && KeysUtf8(base')
    ensures var o := ApplyDiff(H, text, base');
            && (Carries(o, Sort(es), n, baseSeq) <==> AgreesElsewhere(base, es, base'))
            && (o.Snapshot? ==> Carries(o, Sort(es), n, baseSeq) || Collides(H, o.entries, Sort(es)))
            && (!o.Snapshot? ==> o == Rejected(HashMismatch))
  {
    var h := Head(n, baseSeq, StateHash(H, Sort(es)));
    hide *;
    DiffOutcome(H, n, baseSeq, base, es, base', h);
    OutcomeOnAnyBase(H, text, base, es, base', h);
  }

  lemma OutcomeOnAnyBase(H: string -> string, text: string, base: seq<Entry>, es: seq<Entry>, base': seq<Entry>, h: Head)
    requires DistinctKeys(es) && KeysUtf8(es) && KeysUtf8(base') && h.hash == StateHash(H, Sort(es))
    requires ApplyDiff(H, text, base') == CheckHash(H, Listing(Patched(MapOf(base'), MapOf(base), Sort(es))), h)
    ensures var o := ApplyDiff(H, text, base');
            && (Carries(o, Sort(es), h.seqNo, h.baseSeq) <==> AgreesElsewhere(base, es, base'))
            && (o.Snapshot? ==> Carries(o, Sort(es), h.seqNo, h.baseSeq) || Collides(H, o.entries, Sort(es)))
            && (!o.Snapshot? ==> o == Rejected(HashMismatch))
  {
    hide *;
    var m := Patched(MapOf(base'), MapOf(base), Sort(es));
    var o := ApplyDiff(H, text, base');
    HashDecides(H, m, h);
    SortedMap(es);
    PatchesWhenAgreeing(base, es, base');
    ListingInjective(m, MapOf(es));
    CarriesIs(o, Sort(es), h.seqNo, h.baseSeq);
    if o.Snapshot? { OrCollides(H, text, es, base'); }
  }

  lemma OrCollides(H: string -> string, text: string, es: seq<Entry>, base': seq<Entry>)
    requires ApplyDiff(H, text, base').Snapshot? && KeysUtf8(es) && KeysUtf8(base')
    ensures var o := ApplyDiff(H, text, base'); StateHash(H, o.entries) == StateHash(H, Sort(es)) ==> o.entries == Sort(es) || Collides(H, o.entries, Sort(es))
  {
    hide *;
    AcceptedKeys(H, text, base');
    SortedKeysUtf8(es);
    StateTextInjective(ApplyDiff(H, text, base').entries, Sort(es));
    CollidesIs(H, ApplyDiff(H, text, base').entries, Sort(es));
  }

  lemma EncodedIs(H: string -> string, n: nat, baseSeq: nat, base: seq<Entry>, es: seq<Entry>)
    requires EncodeDiff(H, n, baseSeq, base, es).Blob?
    ensures EncodeDiff(H, n, baseSeq, base, es).text == Print(DiffJson(H, n, baseSeq, base, es))
  {
    hide Print, DiffJson;
  }

  lemma CarriesIs(o: Outcome, es: seq<Entry>, n: int, base: int)
    ensures Carries(o, es, n, base) <==> o.Snapshot? && o.entries == es && o.seqNo == n && o.baseSeq == base
  {
  }

  lemma CollidesIs(H: string -> string, a: seq<Entry>, b: seq<Entry>)
    ensures Collides(H, a, b) <==> StateText(a) != StateText(b) && StateHash(H, a) == StateHash(H, b)
  {
    hide StateText, StateHash;
  }

  lemma SortedKeysUtf8(es: seq<Entry>)
    requires KeysUtf8(es)
    ensures KeysUtf8(Sort(es))
  {
    hide KeyUtf8, Sort;
    var s := Sort(es);
    forall i | 0 <= i < |s| ensures KeyUtf8(s[i].key) {
      SortMembers(es, s[i]);
      var j :| 0 <= j < |es| && es[j] == s[i];
      assert KeyUtf8(es[j].key);
    }
  }

  // Why the keys have to be UTF-8

  lemma {:induction false} SameFieldTexts(v: Json, w: Json, ks: seq<string>)
    requires v.Obj? && w.Obj? && forall k | k in ks :: k in v.fields && k in w.fields && Print(v.fields[k]) == Print(w.fields[k])
    ensures PrintFields(v, ks) == PrintFields(w, ks)
    decreases |ks|
  {
    hide Print;
    if ks != [] { SameFieldTexts(v, w, ks[1..]); }
  }

  lemma SameObjectTexts(v: Json, w: Json)
    requires v.Obj? && w.Obj? && v.fields.Keys == w.fields.Keys && forall k | k in v.fields :: Print(v.fields[k]) == Print(w.fields[k])
    ensures Print(v) == Print(w)
  {
    var ks := SortedKeys(v.fields.Keys);
    SameFieldTexts(v, w, ks);
    hide PrintFields, SortedKeys;
  }

  const STRAY_BYTE := [255 as char]
  const REPLACEMENT := [0xEF as char, 0xBF as char, 0xBD as char]

  lemma StrayDecodes()
    ensures DecodeUtf8(STRAY_BYTE) == Invalid
  {
  }

  lemma ReplacementDecodes()
    ensures DecodeUtf8(REPLACEMENT) == Decoded(3, 0xFFFD)
  {
  }

  lemma StrayEscape()
    ensures EscapeOne(STRAY_BYTE) == ("\\ufffd", 1)
  {
    StrayDecodes();
    hide DecodeUtf8;
  }

  lemma ReplacementEscape()
    ensures EscapeOne(REPLACEMENT) == ("\\ufffd", 3)
  {
    ReplacementDecodes();
    hide DecodeUtf8;
    assert Hex4(0xFFFD) == "fffd";
    assert Unicode(0xFFFD) == "\\u" + "fffd" == "\\ufffd";
    assert REPLACEMENT[0] as int == 0xEF;
  }

  lemma SameEscape()
    ensures Quoted(STRAY_BYTE) == Quoted(REPLACEMENT) && STRAY_BYTE != REPLACEMENT
  {
    StrayEscape();
    ReplacementEscape();
    hide EscapeOne;
    assert STRAY_BYTE[1..] == "" && REPLACEMENT[3..] == "";
    assert Escaped("") == "";
  }

  /** A stray byte and the replacement character print alike, so that two states share a text, and with it every hash. */
  lemma InvalidBytesShareText(p: EffectivePolicy)
    ensures var (a, b) := ([Entry(Key(STRAY_BYTE, "s", "auto"), p)], [Entry(Key(REPLACEMENT, "s", "auto"), p)]);
            a != b && StateText(a) == StateText(b)
  {
    hide *;
    SameEscape();
    SharedText(Entry(Key(STRAY_BYTE, "s", "auto"), p), Entry(Key(REPLACEMENT, "s", "auto"), p));
    assert Entry(Key(STRAY_BYTE, "s", "auto"), p) != Entry(Key(REPLACEMENT, "s", "auto"), p);
  }

  lemma SharedText(x: Entry, y: Entry)
    requires x.policy == y.policy && x.key.site == y.key.site && x.key.trust == y.key.trust && Quoted(x.key.identity) == Quoted(y.key.identity)
    ensures StateText([x]) == StateText([y])
  {
    hide *;
    EntryTexts(x, y);
    OneEntryText(x);
    OneEntryText(y);
    WrappedTexts(EntriesJson([x]), EntriesJson([y]));
    StateTextIs([x]);
    StateTextIs([y]);
  }

  lemma WrappedTexts(v: Json, w: Json)
    requires Print(v) == Print(w)
    ensures Print(Obj(map["entries" := v])) == Print(Obj(map["entries" := w]))
  {
    hide Print;
    SameObjectTexts(Obj(map["entries" := v]), Obj(map["entries" := w]));
  }

  lemma StateTextIs(es: seq<Entry>)
    ensures StateText(es) == Print(Obj(map["entries" := EntriesJson(es)]))
  {
    hide Print, EntriesJson;
  }

  lemma OneEntryText(e: Entry)
    ensures Print(EntriesJson([e])) == "[" + Print(EntryJson(e)) + "]"
  {
    hide EntryJson;
    var a := JsonList([e], EntryJson);
    assert a == [EntryJson(e)];
    assert PrintItems(a) == Print(a[0]) + "";
  }

  lemma EntryTexts(x: Entry, y: Entry)
    requires x.policy == y.policy && x.key.site == y.key.site && x.key.trust == y.key.trust && Quoted(x.key.identity) == Quoted(y.key.identity)
    ensures Print(EntryJson(x)) == Print(EntryJson(y))
  {
    hide ToJson, Quoted;
    var v, w := EntryJson(x), EntryJson(y);
    assert Print(Str(x.key.identity)) == Quoted(x.key.identity) && Print(Str(y.key.identity)) == Quoted(y.key.identity);
    assert v.fields.Keys == w.fields.Keys == {"identity", "site", "trust", "policy"};
    forall k | k in v.fields ensures Print(v.fields[k]) == Print(w.fields[k]) {
      if k == "identity" { assert v.fields[k] == Str(x.key.identity) && w.fields[k] == Str(y.key.identity); } else { assert v.fields[k] == w.fields[k]; }
    }
    hide EntryJson, Print;
    SameObjectTexts(v, w);
  }
}
