/**
  Snapshots of the resolved state: full and diff blobs, their budget, their integrity hash, and the strict decoders.

  The hash is a parameter: nothing here depends on which function it is, only on the shape of its results.
 */
module PolicySnapshot {
  import opened Wrappers
  import opened Order
  import opened Utf8
  import opened JsonValue
  import JsonParse
  import opened PermissionStore
  import opened PermissionOverlay
  import opened PermissionProjection
  import opened PolicyTypes
  import opened PolicyCodec

  datatype Key = Key(identity: string, site: string, trust: string)
  datatype Entry = Entry(key: Key, policy: EffectivePolicy)

  predicate KeyLess(a: Key, b: Key) {
    if a.identity != b.identity then Less(a.identity, b.identity)
    else if a.site != b.site then Less(a.site, b.site)
    else Less(a.trust, b.trust)
  }

  lemma KeysAreOrdered()
    ensures StrictTotal(KeyLess)
  {
    StringsAreOrdered();
    hide Less;
  }

  // Sorted states

  function Insert(e: Entry, es: seq<Entry>): seq<Entry> {
    if es == [] || KeyLess(e.key, es[0].key) then [e] + es else [es[0]] + Insert(e, es[1..])
  }

  function Sort(es: seq<Entry>): seq<Entry> {
    if es == [] then [] else Insert(es[|es| - 1], Sort(es[..|es| - 1]))
  }

  ghost predicate DistinctKeys(es: seq<Entry>) { forall i, j | 0 <= i < j < |es| :: es[i].key != es[j].key }

  ghost predicate HasKey(es: seq<Entry>, k: Key) { exists i :: 0 <= i < |es| && es[i].key == k }

  /** Entries put into a map one after the other. */
  function PutAll(m: map<Key, EffectivePolicy>, es: seq<Entry>): map<Key, EffectivePolicy> {
    if es == [] then m else PutAll(m, es[..|es| - 1])[es[|es| - 1].key := es[|es| - 1].policy]
  }

  function MapOf(es: seq<Entry>): map<Key, EffectivePolicy> { PutAll(map[], es) }

  /** A map as entries, along a list of its keys. */
  function Along(ks: seq<Key>, m: map<Key, EffectivePolicy>): (es: seq<Entry>)
    requires forall k | k in ks :: k in m
    ensures |es| == |ks| && forall i | 0 <= i < |ks| :: es[i] == Entry(ks[i], m[ks[i]])
  {
    if ks == [] then [] else Along(ks[..|ks| - 1], m) + [Entry(ks[|ks| - 1], m[ks[|ks| - 1]])]
  }

  ghost function KeysOf(m: map<Key, EffectivePolicy>): (ks: seq<Key>)
    ensures Ascending(ks, KeyLess) && (forall k :: k in ks <==> k in m) && |ks| == |m|
  {
    KeysAreOrdered();
    InOrder(m.Keys, KeyLess)
  }

  /** The entries of a map in the order of its keys. */
  ghost function Listing(m: map<Key, EffectivePolicy>): seq<Entry> { Along(KeysOf(m), m) }

  // Documents

  function EntryJson(e: Entry): Json {
    Obj(map["identity" := Str(e.key.identity), "site" := Str(e.key.site), "trust" := Str(e.key.trust), "policy" := ToJson(e.policy)])
  }

  function KeyJson(k: Key): Json {
    Obj(map["identity" := Str(k.identity), "site" := Str(k.site), "trust" := Str(k.trust)])
  }

  function EntriesJson(es: seq<Entry>): Json { Arr(JsonList(es, EntryJson)) }

  ghost function StateText(es: seq<Entry>): string { Print(Obj(map["entries" := EntriesJson(es)])) }

  /** The integrity hash covers the canonical text of the sorted state. */
  ghost function StateHash(H: string -> string, es: seq<Entry>): string { H(StateText(es)) }

  const BUDGET: nat := 32768

  datatype Encoded = Blob(text: string) | OverBudget

  function Header(kind: string, n: nat, base: nat, hash: string): map<string, Json> {
    map["schema" := Str("xr-policy-snapshot"), "schema_version" := Int(1), "kind" := Str(kind), "seq" := Int(Cast(n)),
        "base_seq" := Int(Cast(base)), "hash" := Str(hash)]
  }

  function Envelope(kind: string, n: nat, base: nat, hash: string, payload: Json): Json {
    Obj(Header(kind, n, base, hash)[(if kind == "full" then "entries" else "delta") := payload])
  }

  ghost function Finish(root: Json): Encoded {
    var text := Print(root);
    if |text| > BUDGET then OverBudget else Blob(text)
  }

  ghost function FullJson(H: string -> string, n: nat, es: seq<Entry>): Json {
    Envelope("full", n, n, StateHash(H, Sort(es)), EntriesJson(Sort(es)))
  }

  ghost function EncodeFull(H: string -> string, n: nat, es: seq<Entry>): Encoded { Finish(FullJson(H, n, es)) }

  // Diffs

  function Added(es: seq<Entry>, base: map<Key, EffectivePolicy>): seq<Entry> {
    if es == [] then []
    else
      var e := es[|es| - 1];
      Added(es[..|es| - 1], base) + (if e.key !in base then [e] else [])
  }

  function Changed(es: seq<Entry>, base: map<Key, EffectivePolicy>): seq<Entry> {
    if es == [] then []
    else
      var e := es[|es| - 1];
      Changed(es[..|es| - 1], base) + (if e.key in base && base[e.key] != e.policy then [e] else [])
  }

  function Removed(ks: seq<Key>, now: map<Key, EffectivePolicy>): seq<Key> {
    if ks == [] then []
    else
      var k := ks[|ks| - 1];
      Removed(ks[..|ks| - 1], now) + (if k !in now then [k] else [])
  }

  function DeltaJson(added: seq<Entry>, changed: seq<Entry>, removed: seq<Key>): Json {
    Obj(map["added" := EntriesJson(added), "changed" := EntriesJson(changed), "removed" := Arr(JsonList(removed, KeyJson))])
  }

  ghost function DiffJson(H: string -> string, n: nat, baseSeq: nat, base: seq<Entry>, es: seq<Entry>): Json {
    var s := Sort(es);
    Envelope("diff", n, baseSeq, StateHash(H, s),
             DeltaJson(Added(s, MapOf(base)), Changed(s, MapOf(base)), Removed(KeysOf(MapOf(base)), MapOf(s))))
  }

  ghost function EncodeDiff(H: string -> string, n: nat, baseSeq: nat, base: seq<Entry>, es: seq<Entry>): Encoded {
    Finish(DiffJson(H, n, baseSeq, base, es))
  }

  // Decoding

  datatype SnapshotError = MalformedInput | InvalidEntry | HashMismatch
  datatype Outcome = Snapshot(entries: seq<Entry>, seqNo: int64, baseSeq: int64) | Rejected(error: SnapshotError)
  datatype Head = Head(seqNo: int64, baseSeq: int64, hash: string)

  function ParseKey(v: Json): (r: Option<Key>)
    ensures r.Some? ==> v.Obj?
  {
    match (GetStr(v, "identity"), GetStr(v, "site"), GetStr(v, "trust"))
    case (Some(i), Some(s), Some(t)) => Some(Key(i, s, t))
    case _ => None
  }

  function ParseEntry(v: Json): Option<Entry> {
    match ParseKey(v)
    case None => None
    case Some(k) =>
      if "policy" !in v.fields then None else
      match FromJson(v.fields["policy"]) case None => None case Some(p) => Some(Entry(k, p))
  }

  /** Exactly seven fields; the payload is the one that is not checked here. */
  function ParseHead(v: Json, kind: string): (r: Option<Head>)
    ensures r.Some? ==> v.Obj? && r.value.seqNo >= 0 && r.value.baseSeq >= 0
  {
    if !v.Obj? || |v.fields| != 7 then None
    else if GetStr(v, "schema") != Some("xr-policy-snapshot") || GetInt(v, "schema_version") != Some(1) || GetStr(v, "kind") != Some(kind) then None
    else
      match (GetInt(v, "seq"), GetInt(v, "base_seq"), GetStr(v, "hash"))
      case (Some(n), Some(b), Some(h)) => if n < 0 || b < 0 || |h| != 64 then None else Some(Head(n, b, h))
      case _ => None
  }

  /** The decoded state must hash to what the blob says it does. */
  ghost function CheckHash(H: string -> string, es: seq<Entry>, h: Head): Outcome {
    if StateHash(H, es) != h.hash then Rejected(HashMismatch) else Snapshot(es, h.seqNo, h.baseSeq)
  }

  ghost function DecodeFullJson(H: string -> string, v: Json): Outcome {
    match ParseHead(v, "full")
    case None => Rejected(MalformedInput)
    case Some(h) =>
      if "entries" !in v.fields || !v.fields["entries"].Arr? then Rejected(MalformedInput)
      else
        match ParseAll(v.fields["entries"].items, ParseEntry)
        case None => Rejected(InvalidEntry)
        case Some(es) => CheckHash(H, Sort(es), h)
  }

  ghost function DecodeFull(H: string -> string, text: string): Outcome {
    match JsonParse.Parse(text) case None => Rejected(MalformedInput) case Some(v) => DecodeFullJson(H, v)
  }

  function EraseAll(m: map<Key, EffectivePolicy>, ks: seq<Key>): map<Key, EffectivePolicy> {
    if ks == [] then m else EraseAll(m, ks[..|ks| - 1]) - {ks[|ks| - 1]}
  }

  /** A list of the delta that is there and is a list. */
  function DeltaList(delta: Json, field: string): Option<seq<Json>> {
    if delta.Obj? && field in delta.fields && delta.fields[field].Arr? then Some(delta.fields[field].items) else None
  }

  ghost function ApplyDiffJson(H: string -> string, v: Json, base: seq<Entry>): Outcome {
    match ParseHead(v, "diff")
    case None => Rejected(MalformedInput)
    case Some(h) =>
      if "delta" !in v.fields || !v.fields["delta"].Obj? then Rejected(MalformedInput)
      else
        var d := v.fields["delta"];
        if DeltaList(d, "added").None? then Rejected(MalformedInput) else
        match ParseAll(DeltaList(d, "added").value, ParseEntry)
        case None => Rejected(InvalidEntry)
        case Some(added) =>
          if DeltaList(d, "changed").None? then Rejected(MalformedInput) else
          match ParseAll(DeltaList(d, "changed").value, ParseEntry)
          case None => Rejected(InvalidEntry)
          case Some(changed) =>
            if DeltaList(d, "removed").None? then Rejected(MalformedInput) else
            match ParseAll(DeltaList(d, "removed").value, ParseKey)
            case None => Rejected(MalformedInput)
            case Some(removed) => CheckHash(H, Listing(EraseAll(PutAll(PutAll(MapOf(base), added), changed), removed)), h)
  }

  ghost function ApplyDiff(H: string -> string, text: string, base: seq<Entry>): Outcome {
    match JsonParse.Parse(text) case None => Rejected(MalformedInput) case Some(v) => ApplyDiffJson(H, v, base)
  }

  // Sorting

  lemma {:induction false} InsertContents(e: Entry, es: seq<Entry>)
    ensures multiset(Insert(e, es)) == multiset(es) + multiset{e}
  {
    if es != [] && !KeyLess(e.key, es[0].key) {
      InsertContents(e, es[1..]);
      assert es == [es[0]] + es[1..];
    }
  }

  lemma {:induction false} SortContents(es: seq<Entry>)
    ensures multiset(Sort(es)) == multiset(es)
  {
    hide Insert;
    if es != [] {
      SortContents(es[..|es| - 1]);
      InsertContents(es[|es| - 1], Sort(es[..|es| - 1]));
      assert es == es[..|es| - 1] + [es[|es| - 1]];
    }
  }

  lemma SortMembers(es: seq<Entry>, e: Entry)
    ensures e in Sort(es) <==> e in es
  {
    SortContents(es);
    assert e in Sort(es) <==> e in multiset(Sort(es));
    assert e in es <==> e in multiset(es);
  }

  ghost predicate KeysAscend(es: seq<Entry>) { forall i, j | 0 <= i < j < |es| :: KeyLess(es[i].key, es[j].key) }

  lemma {:induction false} InsertAscends(e: Entry, es: seq<Entry>)
    requires KeysAscend(es) && !HasKey(es, e.key)
    ensures KeysAscend(Insert(e, es))
  {
    KeysAreOrdered();
    hide KeyLess;
    if es != [] && !KeyLess(e.key, es[0].key) {
      var rest := es[1..];
      assert !HasKey(rest, e.key) by { forall i | 0 <= i < |rest| ensures rest[i].key != e.key { assert es[i + 1].key != e.key; } }
      InsertAscends(e, rest);
      var ins := Insert(e, rest);
      forall i | 0 <= i < |ins| ensures KeyLess(es[0].key, ins[i].key) {
        InsertContents(e, rest);
        assert ins[i] in multiset(ins);
        if ins[i] != e { var j :| 0 <= j < |rest| && rest[j] == ins[i]; assert es[j + 1] == ins[i]; }
        assert es[0].key != e.key;
      }
    }
  }

  lemma {:induction false} SortAscends(es: seq<Entry>)
    requires DistinctKeys(es)
    ensures KeysAscend(Sort(es))
  {
    if es != [] {
      var front, e := es[..|es| - 1], es[|es| - 1];
      SortAscends(front);
      forall i | 0 <= i < |Sort(front)| ensures Sort(front)[i].key != e.key {
        SortMembers(front, Sort(front)[i]);
        var j :| 0 <= j < |front| && front[j] == Sort(front)[i];
        assert es[j] == front[j];
      }
      InsertAscends(e, Sort(front));
    }
  }

  function KeyList(es: seq<Entry>): (ks: seq<Key>)
    ensures |ks| == |es| && forall i | 0 <= i < |es| :: ks[i] == es[i].key
  {
    seq(|es|, i requires 0 <= i < |es| => es[i].key)
  }

  lemma KeyListHas(es: seq<Entry>, k: Key)
    ensures k in KeyList(es) <==> HasKey(es, k)
  {
    hide KeyList;
    if i :| 0 <= i < |es| && es[i].key == k { assert KeyList(es)[i] == k; }
  }

  /** Entries in ascending order are the listing of the map they make. */
  lemma AscendingIsListing(es: seq<Entry>, m: map<Key, EffectivePolicy>)
    requires KeysAscend(es) && (forall k | k in m :: HasKey(es, k))
    requires forall i | 0 <= i < |es| :: es[i].key in m && m[es[i].key] == es[i].policy
    ensures es == Listing(m)
  {
    var ks := KeyList(es);
    hide KeyLess, Along, KeyList, HasKey, KeysOf;
    KeysAreOrdered();
    forall k ensures k in ks <==> k in m { KeyListHas(es, k); }
    AscendingUnique(ks, KeysOf(m), KeyLess);
    assert es == Along(ks, m);
  }

  lemma {:induction false} PutContents(m: map<Key, EffectivePolicy>, es: seq<Entry>, k: Key)
    ensures k in PutAll(m, es) <==> k in m || HasKey(es, k)
    ensures k in m && !HasKey(es, k) ==> PutAll(m, es)[k] == m[k]
  {
    if es != [] {
      var front := es[..|es| - 1];
      PutContents(m, front, k);
      if HasKey(es, k) { var i :| 0 <= i < |es| && es[i].key == k; if i < |front| { assert front[i].key == k; } }
      if HasKey(front, k) { var i :| 0 <= i < |front| && front[i].key == k; assert es[i].key == k; }
    }
  }

  lemma {:induction false} PutDistinct(m: map<Key, EffectivePolicy>, es: seq<Entry>, e: Entry)
    requires DistinctKeys(es) && e in es
    ensures e.key in PutAll(m, es) && PutAll(m, es)[e.key] == e.policy
  {
    var front, last := es[..|es| - 1], es[|es| - 1];
    if e != last {
      var i :| 0 <= i < |es| && es[i] == e;
      assert front[i] == e;
      PutDistinct(m, front, e);
    }
  }

  lemma SortIsListing(es: seq<Entry>)
    requires DistinctKeys(es)
    ensures Sort(es) == Listing(MapOf(es))
  {
    SortAscends(es);
    hide Sort, PutAll, Listing;
    var s := Sort(es);
    forall k ensures k in MapOf(es) <==> HasKey(s, k) {
      PutContents(map[], es, k);
      if HasKey(s, k) { var i :| 0 <= i < |s| && s[i].key == k; SortMembers(es, s[i]); var j :| 0 <= j < |es| && es[j] == s[i]; assert HasKey(es, k); }
      if HasKey(es, k) { var i :| 0 <= i < |es| && es[i].key == k; SortMembers(es, es[i]); var j :| 0 <= j < |s| && s[j] == es[i]; assert HasKey(s, k); }
    }
    forall i | 0 <= i < |s| ensures MapOf(es)[s[i].key] == s[i].policy {
      SortMembers(es, s[i]);
      PutDistinct(map[], es, s[i]);
    }
    AscendingIsListing(s, MapOf(es));
  }

  lemma ListingAscends(m: map<Key, EffectivePolicy>)
    ensures KeysAscend(Listing(m)) && DistinctKeys(Listing(m))
  {
    KeysAreOrdered();
    hide KeyLess, Along, KeysOf;
  }

  lemma ListingMaps(m: map<Key, EffectivePolicy>)
    ensures MapOf(Listing(m)) == m
  {
    hide KeyLess, PutAll, Along, KeysOf;
    var es := Listing(m);
    ListingAscends(m);
    forall k ensures (k in MapOf(es) <==> k in m) && (k in m ==> MapOf(es)[k] == m[k]) {
      PutContents(map[], es, k);
      if k in m {
        var i :| 0 <= i < |KeysOf(m)| && KeysOf(m)[i] == k;
        assert es[i] == Entry(k, m[k]);
        PutDistinct(map[], es, es[i]);
      }
    }
  }

  /** Sorting a listing changes nothing. */
  lemma SortListing(m: map<Key, EffectivePolicy>)
    ensures Sort(Listing(m)) == Listing(m)
  {
    hide *;
    ListingAscends(m);
    ListingMaps(m);
    SortIsListing(Listing(m));
  }
}
