/**
  The resolver service as a replica protocol: resolutions accumulate a state, full and diff snapshots of it are
  emitted under increasing sequence numbers, and a consumer applies each blob that was emitted.
 */
module PolicyService {
  import opened Wrappers
  import opened Order
  import opened Utf8
  import opened PermissionStore
  import PolicyResolve
  import opened PolicyTypes
  import opened PolicyCodec
  import opened PolicySnapshot
  import opened PolicySnapshotLaws
  import opened PolicySnapshotEngine

  /** The state is kept under one joined string per entry. */
  function StateKey(k: Key): string { k.identity + "|" + k.site + "|" + k.trust }

  datatype Service = Service(state: map<string, Entry>, seqNo: nat, lastSeq: nat, lastState: seq<Entry>)
  datatype Consumer = Consumer(entries: seq<Entry>, seqNo: int)
  datatype Event = Resolved(entry: Entry) | TakeFull | TakeDiff

  const FRESH_SERVICE := Service(map[], 0, 0, [])
  const FRESH_CONSUMER := Consumer([], 0)

  ghost function StateAlong(ks: seq<string>, state: map<string, Entry>): (es: seq<Entry>)
    requires forall k | k in ks :: k in state
    ensures |es| == |ks| && forall i | 0 <= i < |ks| :: es[i] == state[ks[i]]
  {
    if ks == [] then [] else StateAlong(ks[..|ks| - 1], state) + [state[ks[|ks| - 1]]]
  }

  /** The entries in the order of their joined keys. */
  ghost function StateEntries(state: map<string, Entry>): seq<Entry> { StateAlong(SortedKeys(state.Keys), state) }

  lemma EntriesAre(state: map<string, Entry>)
    ensures forall k | k in SortedKeys(state.Keys) :: k in state
    ensures StateEntries(state) == StateAlong(SortedKeys(state.Keys), state)
  {
    hide SortedKeys, StateAlong;
  }

  lemma NoEntries(state: map<string, Entry>)
    ensures StateAlong([], state) == []
  {
  }

  lemma EntriesTurn(ks: seq<string>, n: nat, state: map<string, Entry>)
    requires n < |ks| && forall k | k in ks :: k in state
    ensures StateAlong(ks[..n + 1], state) == StateAlong(ks[..n], state) + [state[ks[n]]]
  {
    assert ks[..n + 1][..n] == ks[..n];
  }

  /** What an event makes the service emit. */
  ghost function Emitted(H: string -> string, s: Service, ev: Event): Encoded
    requires !ev.Resolved?
  {
    if ev.TakeFull? then EncodeFull(H, s.seqNo + 1, StateEntries(s.state))
    else EncodeDiff(H, s.seqNo + 1, s.lastSeq, s.lastState, StateEntries(s.state))
  }

  /** After a full snapshot the service remembers what its own blob decodes to; after a diff, the state it sent. */
  ghost function ServiceStep(H: string -> string, s: Service, ev: Event): Service {
    if ev.Resolved? then s.(state := s.state[StateKey(ev.entry.key) := ev.entry])
    else
      var r := Emitted(H, s, ev);
      if r.OverBudget? then s.(seqNo := s.seqNo + 1)
      else
        var sent := if ev.TakeFull? then (match DecodeFull(H, r.text) case Snapshot(es, _, _) => es case Rejected(_) => []) else StateEntries(s.state);
        s.(seqNo := s.seqNo + 1, lastSeq := s.seqNo + 1, lastState := sent)
  }

  ghost function Receive(c: Consumer, o: Outcome): Consumer {
    match o case Snapshot(es, n, _) => Consumer(es, n) case Rejected(_) => c
  }

  ghost function ConsumerStep(H: string -> string, s: Service, c: Consumer, ev: Event): Consumer {
    if ev.Resolved? || Emitted(H, s, ev).OverBudget? then c
    else
      var text := Emitted(H, s, ev).text;
      Receive(c, if ev.TakeFull? then DecodeFull(H, text) else ApplyDiff(H, text, c.entries))
  }

  ghost function RunBoth(H: string -> string, events: seq<Event>): (Service, Consumer) {
    if events == [] then (FRESH_SERVICE, FRESH_CONSUMER)
    else
      var (s, c) := RunBoth(H, events[..|events| - 1]);
      var ev := events[|events| - 1];
      (ServiceStep(H, s, ev), ConsumerStep(H, s, c, ev))
  }

  /** The service's state at its last successful emission. */
  ghost function LastSent(H: string -> string, events: seq<Event>): seq<Entry> {
    if events == [] then []
    else
      var front, ev := events[..|events| - 1], events[|events| - 1];
      var s := RunBoth(H, front).0;
      if ev.Resolved? || Emitted(H, s, ev).OverBudget? then LastSent(H, front) else StateEntries(s.state)
  }

  // The invariant

  ghost predicate StateOk(state: map<string, Entry>) {
    forall k | k in state :: k == StateKey(state[k].key) && EntryOk(state[k])
  }

  ghost predicate Synced(s: Service, c: Consumer) {
    && StateOk(s.state)
    && DistinctKeys(s.lastState) && AllOk(s.lastState)
    && c.entries == Sort(s.lastState)
    && c.seqNo == s.lastSeq <= s.seqNo
  }

  lemma StateEntriesOk(state: map<string, Entry>)
    requires StateOk(state)
    ensures DistinctKeys(StateEntries(state)) && AllOk(StateEntries(state))
  {
    hide EntryOk, StateKey;
    var ks := SortedKeys(state.Keys);
    StringsAreOrdered();
    hide Less, SortedKeys, StateAlong;
    var es := StateEntries(state);
    forall i, j | 0 <= i < j < |es| ensures es[i].key != es[j].key {
      assert ks[i] != ks[j];
      assert ks[i] in state && ks[j] in state;
    }
    forall i | 0 <= i < |es| ensures EntryOk(es[i]) { assert ks[i] in state; }
  }

  lemma DeltaIsOk(base: seq<Entry>, es: seq<Entry>)
    requires AllOk(base) && AllOk(es) && DistinctKeys(base) && DistinctKeys(es)
    ensures DeltaOk(base, es)
  {
    hide Sort, PutAll, Added, Changed, Removed, KeysOf, DistinctKeys, EntryOk, KeyUtf8;
    var s, bm := Sort(es), MapOf(base);
    var a, c, r := Added(s, bm), Changed(s, bm), Removed(KeysOf(bm), MapOf(s));
    forall i | 0 <= i < |a| ensures EntryOk(a[i]) { AddedContents(s, bm, a[i]); SortMembers(es, a[i]); OkMember(es, a[i]); }
    forall i | 0 <= i < |c| ensures EntryOk(c[i]) { AddedContents(s, bm, c[i]); SortMembers(es, c[i]); OkMember(es, c[i]); }
    forall i | 0 <= i < |r| ensures KeyUtf8(r[i]) {
      RemovedContents(KeysOf(bm), MapOf(s), r[i]);
      PutContents(map[], base, r[i]);
      var j :| 0 <= j < |base| && base[j].key == r[i];
      KeyOfOk(base[j]);
    }
  }

  lemma KeyOfOk(e: Entry)
    requires EntryOk(e)
    ensures KeyUtf8(e.key)
  {
    hide KeyUtf8;
  }

  lemma SortedBase(es: seq<Entry>)
    requires DistinctKeys(es)
    ensures MapOf(Sort(es)) == MapOf(es) && DistinctKeys(Sort(es)) && Sort(Sort(es)) == Sort(es)
  {
    hide *;
    SortIsListing(es);
    ListingMaps(MapOf(es));
    ListingAscends(MapOf(es));
    SortListing(MapOf(es));
  }

  lemma FullStep(H: string -> string, s: Service, c: Consumer, es: seq<Entry>)
    requires es == StateEntries(s.state) && EncodeFull(H, s.seqNo + 1, es).Blob?
    requires Carries(DecodeFull(H, EncodeFull(H, s.seqNo + 1, es).text), Sort(es), s.seqNo + 1, s.seqNo + 1)
    ensures Emitted(H, s, TakeFull) == EncodeFull(H, s.seqNo + 1, es)
    ensures ServiceStep(H, s, TakeFull) == s.(seqNo := s.seqNo + 1, lastSeq := s.seqNo + 1, lastState := Sort(es))
    ensures ConsumerStep(H, s, c, TakeFull) == Consumer(Sort(es), s.seqNo + 1)
  {
    hide EncodeFull, DecodeFull, Sort, StateEntries;
  }

  lemma DiffStep(H: string -> string, s: Service, c: Consumer, es: seq<Entry>)
    requires es == StateEntries(s.state) && EncodeDiff(H, s.seqNo + 1, s.lastSeq, s.lastState, es).Blob?
    requires Carries(ApplyDiff(H, EncodeDiff(H, s.seqNo + 1, s.lastSeq, s.lastState, es).text, c.entries), Sort(es), s.seqNo + 1, s.lastSeq)
    ensures Emitted(H, s, TakeDiff) == EncodeDiff(H, s.seqNo + 1, s.lastSeq, s.lastState, es)
    ensures ServiceStep(H, s, TakeDiff) == s.(seqNo := s.seqNo + 1, lastSeq := s.seqNo + 1, lastState := es)
    ensures ConsumerStep(H, s, c, TakeDiff) == Consumer(Sort(es), s.seqNo + 1)
  {
    hide EncodeDiff, ApplyDiff, Sort, StateEntries;
  }

  lemma SentSynced(s: Service, c: Consumer, s': Service, c': Consumer, es: seq<Entry>, sent: seq<Entry>)
    requires Synced(s, c) && DistinctKeys(sent) && AllOk(sent) && Sort(sent) == Sort(es)
    requires s' == s.(seqNo := s.seqNo + 1, lastSeq := s.seqNo + 1, lastState := sent) && c' == Consumer(Sort(es), s.seqNo + 1)
    ensures Synced(s', c') && c'.seqNo > c.seqNo
  {
    hide StateOk, DistinctKeys, AllOk, Sort;
  }

  lemma EmittedIs(H: string -> string, s: Service)
    ensures Emitted(H, s, TakeFull) == EncodeFull(H, s.seqNo + 1, StateEntries(s.state))
    ensures Emitted(H, s, TakeDiff) == EncodeDiff(H, s.seqNo + 1, s.lastSeq, s.lastState, StateEntries(s.state))
  {
    hide EncodeFull, EncodeDiff, StateEntries;
  }

  lemma SyncedFacts(s: Service, c: Consumer)
    requires Synced(s, c)
    ensures StateOk(s.state) && DistinctKeys(s.lastState) && AllOk(s.lastState) && c.entries == Sort(s.lastState) && s.lastSeq <= s.seqNo
  {
    hide StateOk, DistinctKeys, AllOk, Sort;
  }

  /** One emission: the consumer ends with the service's state, sorted, under the service's sequence number. */
  lemma EmissionAgrees(H: string -> string, s: Service, c: Consumer, ev: Event)
    requires HashOk(H) && Synced(s, c) && !ev.Resolved? && Emitted(H, s, ev).Blob? && s.seqNo < INT64_MAX
    ensures var c' := ConsumerStep(H, s, c, ev);
            c'.entries == Sort(StateEntries(s.state)) && c'.seqNo == s.seqNo + 1 > c.seqNo
    ensures |Emitted(H, s, ev).text| <= BUDGET
    ensures Synced(ServiceStep(H, s, ev), ConsumerStep(H, s, c, ev))
  {
    hide *;
    var es := StateEntries(s.state);
    SyncedFacts(s, c);
    StateEntriesOk(s.state);
    SortedBase(es);
    SortedOk(es);
    EmittedIs(H, s);
    if ev.TakeFull? {
      FullReconstructs(H, s.seqNo + 1, es);
      FullStep(H, s, c, es);
      SentSynced(s, c, ServiceStep(H, s, ev), ConsumerStep(H, s, c, ev), es, Sort(es));
    } else {
      SortedBase(s.lastState);
      DeltaIsOk(s.lastState, es);
      DiffReconstructs(H, s.seqNo + 1, s.lastSeq, s.lastState, es, c.entries);
      DiffStep(H, s, c, es);
      SentSynced(s, c, ServiceStep(H, s, ev), ConsumerStep(H, s, c, ev), es, es);
    }
  }

  lemma QuietStep(H: string -> string, s: Service, c: Consumer, ev: Event)
    requires Synced(s, c) && (if ev.Resolved? then EntryOk(ev.entry) else Emitted(H, s, ev).OverBudget?)
    ensures Synced(ServiceStep(H, s, ev), ConsumerStep(H, s, c, ev)) && ConsumerStep(H, s, c, ev) == c
  {
    hide Sort, EncodeFull, EncodeDiff, StateEntries, DistinctKeys, EntryOk, AllOk, StateKey;
  }

  /** The entry that a successful resolution leaves in the state: its policy under identity, domain and trust input. */
  function EntryFor(r: PolicyResolve.ResolveRequest): Entry {
    Entry(Key(r.req.identity, r.req.domain, if r.hasTrust then r.trust else "auto"), PolicyResolve.Resolve(r).policy)
  }

  /** Requests come out of the JSON parser, so what they leave in the state can always be put on the wire. */
  lemma ResolvedEntryOk(r: PolicyResolve.ResolveRequest)
    requires Valid(r.req.identity) && Valid(r.req.domain) && (r.hasTrust ==> Valid(r.trust))
    ensures EntryOk(EntryFor(r))
  {
    PolicyResolve.ResolvedIsWire(r);
    assert Ascii("auto");
    AsciiUtf8("auto");
    hide PolicyResolve.Resolve, Valid, CharLen;
  }

  ghost predicate EventsOk(events: seq<Event>) { forall i | 0 <= i < |events| && events[i].Resolved? :: EntryOk(events[i].entry) }

  /**
    The replica theorem: over every interleaving of resolutions with full and diff snapshots, including those that fail
    their budget, the consumer holds exactly the state of the service at its last emission.
   */
  lemma {:induction false} ReplicaAgrees(H: string -> string, events: seq<Event>)
    requires HashOk(H) && EventsOk(events) && |events| <= INT64_MAX
    ensures var (s, c) := RunBoth(H, events);
            Synced(s, c) && s.seqNo <= |events| && c.entries == Sort(LastSent(H, events))
  {
    hide Emitted, ServiceStep, ConsumerStep, Synced, EntryOk, StateEntries, HashOk;
    if events == [] {
      StartSynced();
    } else {
      var front, ev := events[..|events| - 1], events[|events| - 1];
      ReplicaAgrees(H, front);
      var (s, c) := RunBoth(H, front);
      if ev.Resolved? || Emitted(H, s, ev).OverBudget? { QuietStep(H, s, c, ev); } else { EmissionAgrees(H, s, c, ev); }
      SeqSteps(H, s, ev);
    }
  }

  lemma StartSynced()
    ensures Synced(FRESH_SERVICE, FRESH_CONSUMER) && Sort([]) == []
  {
  }

  lemma AfterFull(H: string -> string, s: Service)
    ensures var r := Emitted(H, s, TakeFull);
            ServiceStep(H, s, TakeFull)
            == if r.OverBudget? then s.(seqNo := s.seqNo + 1)
               else s.(seqNo := s.seqNo + 1, lastSeq := s.seqNo + 1,
                       lastState := if DecodeFull(H, r.text).Snapshot? then DecodeFull(H, r.text).entries else [])
  {
    hide Emitted, DecodeFull, StateEntries;
  }

  lemma SeqMoves(H: string -> string, s: Service, ev: Event)
    requires !ev.Resolved?
    ensures ServiceStep(H, s, ev).seqNo == s.seqNo + 1
  {
    hide Emitted, StateEntries, DecodeFull;
  }

  lemma SeqSteps(H: string -> string, s: Service, ev: Event)
    ensures ServiceStep(H, s, ev).seqNo <= s.seqNo + 1
  {
    hide Emitted, StateEntries, DecodeFull;
  }

  // The joined key

  lemma FirstBar(a: string, b: string, x: string, y: string)
    requires '|' !in a && '|' !in b && a + "|" + x == b + "|" + y
    ensures a == b && x == y
  {
    var s := a + "|" + x;
    assert forall i | 0 <= i < |a| :: s[i] == a[i] && a[i] != '|';
    assert forall i | 0 <= i < |b| :: s[i] == b[i] && b[i] != '|';
    assert s[|a|] == '|' && s[|b|] == '|';
    assert |a| == |b|;
    assert s[..|a|] == a && s[..|b|] == b && s[|a| + 1..] == x && s[|b| + 1..] == y;
  }

  /** They cannot when neither the identity nor the site holds the separator. */
  lemma JoinedKeysDiffer(a: Key, b: Key)
    requires '|' !in a.identity && '|' !in b.identity && '|' !in a.site && '|' !in b.site
    ensures StateKey(a) == StateKey(b) <==> a == b
  {
    if StateKey(a) == StateKey(b) {
      var x, y := a.site + "|" + a.trust, b.site + "|" + b.trust;
      assert StateKey(a) == a.identity + "|" + x && StateKey(b) == b.identity + "|" + y;
      FirstBar(a.identity, b.identity, x, y);
      FirstBar(a.site, b.site, a.trust, b.trust);
    }
  }

  ghost predicate SharesPlace(a: Key, b: Key) { a != b && StateKey(a) == StateKey(b) }

  /** The separator is not escaped: another key shares the place of this one exactly when it holds a separator. */
  lemma JoinedKeysCollideIff(a: Key)
    ensures (exists b :: SharesPlace(a, b)) <==> '|' in a.identity || '|' in a.site || '|' in a.trust
  {
    if '|' in a.identity || '|' in a.site || '|' in a.trust {
      var b := OtherKey(a);
    }
    if b :| SharesPlace(a, b) {
      if '|' !in a.identity && '|' !in a.site && '|' !in a.trust {
        SameBars(a, b);
        JoinedKeysDiffer(a, b);
      }
    }
  }

  /** Where the bars are does not matter to their number: two of them join the parts. */
  lemma SameBars(a: Key, b: Key)
    requires StateKey(a) == StateKey(b) && '|' !in a.identity && '|' !in a.site && '|' !in a.trust
    ensures '|' !in b.identity && '|' !in b.site && '|' !in b.trust
  {
    Bars(a);
    Bars(b);
  }

  lemma Bars(a: Key)
    ensures multiset(StateKey(a))['|'] == multiset(a.identity)['|'] + multiset(a.site)['|'] + multiset(a.trust)['|'] + 2
  {
  }

  lemma SplitAtBar(s: string) returns (p: string, q: string)
    requires '|' in s
    ensures s == p + "|" + q
  {
    var i :| 0 <= i < |s| && s[i] == '|';
    p, q := s[..i], s[i + 1..];
  }

  lemma OtherKey(a: Key) returns (b: Key)
    requires '|' in a.identity || '|' in a.site || '|' in a.trust
    ensures SharesPlace(a, b)
    ensures '|' in a.identity || '|' in a.site ==> b.trust == a.trust
  {
    if '|' in a.identity {
      var p, q := SplitAtBar(a.identity);
      b := Key(p, q + "|" + a.site, a.trust);
    } else if '|' in a.site {
      var p, q := SplitAtBar(a.site);
      b := Key(a.identity + "|" + p, q, a.trust);
      assert StateKey(a) == a.identity + "|" + p + "|" + q + "|" + a.trust;
    } else {
      var p, q := SplitAtBar(a.trust);
      b := Key(a.identity, a.site + "|" + p, q);
      assert StateKey(a) == a.identity + "|" + a.site + "|" + p + "|" + q;
    }
  }

  /**
    What the request parser lets through: any identity and site, but a trust that names a tier or is blank, and no blank identity in
    the list; a valid request also has a listed identity, a site, and a trust, if any, that names a tier.
   */
  predicate FromWire(r: PolicyResolve.ResolveRequest) {
    && (r.hasTrust ==> r.trust == "" || PolicyResolve.TierIndex(r.trust) >= 0)
    && (forall i | 0 <= i < |r.identities| :: r.identities[i].value != "")
    && (r.coreValid ==> r.req.domain != "" && (r.hasTrust ==> r.trust != "") && exists i :: 0 <= i < |r.identities| && r.identities[i].value == r.req.identity)
  }

  /** Both requests are resolved, under different keys, and the second takes the place of the first in any service. */
  ghost predicate Overwrites(r: PolicyResolve.ResolveRequest, r': PolicyResolve.ResolveRequest) {
    && FromWire(r') && PolicyResolve.Resolve(r').ok && EntryFor(r').key != EntryFor(r).key
    && forall H, s :: ServiceStep(H, ServiceStep(H, s, Resolved(EntryFor(r))), Resolved(EntryFor(r'))) == ServiceStep(H, s, Resolved(EntryFor(r')))
  }

  lemma SamePlaceOverwrites(r: PolicyResolve.ResolveRequest, r': PolicyResolve.ResolveRequest)
    ensures StateKey(EntryFor(r).key) == StateKey(EntryFor(r').key)
            <==> forall H, s :: ServiceStep(H, ServiceStep(H, s, Resolved(EntryFor(r))), Resolved(EntryFor(r'))) == ServiceStep(H, s, Resolved(EntryFor(r')))
  {
    hide EntryFor, StateKey;
    var e, e' := EntryFor(r), EntryFor(r');
    var k, k' := StateKey(e.key), StateKey(e'.key);
    if k == k' {
      forall H, s ensures ServiceStep(H, ServiceStep(H, s, Resolved(e)), Resolved(e')) == ServiceStep(H, s, Resolved(e')) {
        assert s.state[k := e][k' := e'] == s.state[k' := e'];
      }
    } else {
      var H: string -> string := s => s;
      var twice := ServiceStep(H, ServiceStep(H, FRESH_SERVICE, Resolved(e)), Resolved(e'));
      assert k in twice.state && k !in ServiceStep(H, FRESH_SERVICE, Resolved(e')).state;
    }
  }

  /** A resolved request can be overwritten by another one with a different key exactly when its identity or its site holds a separator. */
  lemma OverwrittenIff(r: PolicyResolve.ResolveRequest)
    requires FromWire(r) && r.hasRequest
    ensures (exists r' :: Overwrites(r, r')) <==> '|' in r.req.identity || '|' in r.req.domain
  {
    TrustWithoutBar(r);
    hide *;
    var a := EntryFor(r).key;
    KeyOf(r);
    if '|' in r.req.identity || '|' in r.req.domain {
      var b := OtherKey(a);
      var r' := MovedTo(r, b);
      SamePlaceOverwrites(r, r');
      OverwritesIs(r, r');
      PlacesDiffer(a, b);
    }
    if r' :| Overwrites(r, r') {
      SamePlaceOverwrites(r, r');
      OverwritesIs(r, r');
      PlacesDiffer(a, EntryFor(r').key);
      JoinedKeysCollideIff(a);
    }
  }

  lemma PlacesDiffer(a: Key, b: Key)
    ensures SharesPlace(a, b) <==> a != b && StateKey(a) == StateKey(b)
  {
  }

  lemma OverwritesIs(r: PolicyResolve.ResolveRequest, r': PolicyResolve.ResolveRequest)
    ensures Overwrites(r, r')
            <==> FromWire(r') && PolicyResolve.Resolve(r').ok && EntryFor(r').key != EntryFor(r).key
                 && forall H, s :: ServiceStep(H, ServiceStep(H, s, Resolved(EntryFor(r))), Resolved(EntryFor(r'))) == ServiceStep(H, s, Resolved(EntryFor(r')))
  {
    hide FromWire, PolicyResolve.Resolve, EntryFor, ServiceStep;
  }

  lemma KeyOf(r: PolicyResolve.ResolveRequest)
    ensures EntryFor(r).key == Key(r.req.identity, r.req.domain, if r.hasTrust then r.trust else "auto")
  {
    hide PolicyResolve.Resolve;
  }

  lemma TrustWithoutBar(r: PolicyResolve.ResolveRequest)
    requires FromWire(r)
    ensures '|' !in EntryFor(r).key.trust
  {
    hide PolicyResolve.Resolve;
  }

  /** The request for another identity and site; an invalid one is resolved, and recorded, as well. */
  lemma MovedTo(r: PolicyResolve.ResolveRequest, b: Key) returns (r': PolicyResolve.ResolveRequest)
    requires FromWire(r) && b.trust == EntryFor(r).key.trust
    ensures FromWire(r') && EntryFor(r').key == b && PolicyResolve.Resolve(r').ok
  {
    r' := r.(req := r.req.(identity := b.identity, domain := b.site), coreValid := false, versionMismatch := false);
    KeyOf(r);
    KeyOf(r');
  }

  /** A bar with something on both sides of it, in the identity and the site as they are joined, other than the one that joins them. */
  predicate InnerBar(identity: string, site: string) {
    (identity != "" && '|' in identity[1..]) || (site != "" && '|' in site[..|site| - 1])
  }

  lemma SplitAfterFirst(s: string) returns (p: string, q: string)
    requires s != "" && '|' in s[1..]
    ensures p != "" && s == p + "|" + q
  {
    var i :| 0 <= i < |s[1..]| && s[1..][i] == '|';
    assert s[i + 1] == '|';
    p, q := s[..i + 1], s[i + 2..];
  }

  lemma SplitBeforeLast(s: string) returns (p: string, q: string)
    requires s != "" && '|' in s[..|s| - 1]
    ensures q != "" && s == p + "|" + q
  {
    var i :| 0 <= i < |s[..|s| - 1]| && s[..|s| - 1][i] == '|';
    p, q := s[..i], s[i + 1..];
  }

  lemma OtherFullKey(a: Key) returns (b: Key)
    requires a.identity != "" && a.site != "" && InnerBar(a.identity, a.site)
    ensures SharesPlace(a, b) && b.identity != "" && b.site != "" && b.trust == a.trust
  {
    if '|' in a.identity[1..] {
      var p, q := SplitAfterFirst(a.identity);
      b := Key(p, q + "|" + a.site, a.trust);
    } else {
      var p, q := SplitBeforeLast(a.site);
      b := Key(a.identity + "|" + p, q, a.trust);
      assert StateKey(a) == a.identity + "|" + p + "|" + q + "|" + a.trust;
    }
  }

  /** The last bar that joins a key apart from its trust, which holds none. */
  lemma LastBar(x: string, u: string, y: string, v: string)
    requires '|' !in u && '|' !in v && x + "|" + u == y + "|" + v
    ensures x == y && u == v
  {
    BehindBar(x, u);
    BehindBar(y, v);
    assert |x + "|" + u| == |x| + 1 + |u| == |y| + 1 + |v|;
    SameSplit(x, u, y, v);
  }

  lemma BehindBar(x: string, u: string)
    requires '|' !in u
    ensures var s := x + "|" + u; s[|x|] == '|' && forall i | |x| < i < |s| :: s[i] != '|'
  {
    var s := x + "|" + u;
    forall i | |x| < i < |s| ensures s[i] != '|' { assert s[i] == u[i - |x| - 1]; }
  }

  /** Two joined pairs of which the first identity is the longer one: it holds the bar that joins the other pair. */
  lemma LongerHoldsBar(i: string, s: string, j: string, u: string)
    requires i + "|" + s == j + "|" + u && |j| < |i| && j != ""
    ensures '|' in i[1..]
  {
    var x := i + "|" + s;
    assert x[|j|] == '|' && x[|j|] == i[|j|] && i[1..][|j| - 1] == i[|j|];
  }

  lemma ShorterHoldsBar(i: string, s: string, j: string, u: string)
    requires i + "|" + s == j + "|" + u && |i| < |j| && u != ""
    ensures s != "" && '|' in s[..|s| - 1]
  {
    var x := i + "|" + s;
    var k := |j| - |i| - 1;
    assert |x| == |j| + 1 + |u| == |i| + 1 + |s|;
    assert x[|j|] == '|' && x[|i| + 1 + k] == s[k] && s[..|s| - 1][k] == s[k];
  }

  lemma FullKeysShareOnlyBars(a: Key, b: Key)
    requires SharesPlace(a, b) && '|' !in a.trust && '|' !in b.trust && b.identity != "" && b.site != ""
    ensures InnerBar(a.identity, a.site)
  {
    LastBar(a.identity + "|" + a.site, a.trust, b.identity + "|" + b.site, b.trust);
    SameSplit(a.identity, a.site, b.identity, b.site);
    if |b.identity| < |a.identity| { LongerHoldsBar(a.identity, a.site, b.identity, b.site); }
    if |a.identity| < |b.identity| { ShorterHoldsBar(a.identity, a.site, b.identity, b.site); }
  }

  lemma SameSplit(i: string, s: string, j: string, u: string)
    requires i + "|" + s == j + "|" + u
    ensures |i| == |j| ==> i == j && s == u
  {
    var x := i + "|" + s;
    assert x[..|i|] == i && x[..|j|] == j && x[|i| + 1..] == s && x[|j| + 1..] == u;
  }

  /** A request that is valid and decided. */
  predicate ValidRequest(r: PolicyResolve.ResolveRequest) { FromWire(r) && r.hasRequest && !r.versionMismatch && r.coreValid }

  lemma ValidKeyFull(r: PolicyResolve.ResolveRequest)
    requires ValidRequest(r)
    ensures var a := EntryFor(r).key; a == Key(r.req.identity, r.req.domain, if r.hasTrust then r.trust else "auto") && a.identity != "" && a.site != "" && '|' !in a.trust
  {
    KeyOf(r);
    TrustWithoutBar(r);
    hide EntryFor;
  }

  lemma ValidMovedTo(r: PolicyResolve.ResolveRequest, b: Key) returns (r': PolicyResolve.ResolveRequest)
    requires ValidRequest(r) && b.trust == EntryFor(r).key.trust && b.identity != "" && b.site != ""
    ensures ValidRequest(r') && EntryFor(r').key == b && PolicyResolve.Resolve(r').ok
  {
    var ids := [PolicyResolve.IdentityInfo(b.identity, false, false)];
    r' := r.(req := r.req.(identity := b.identity, domain := b.site), identities := ids);
    assert ids[0].value == b.identity;
    KeyOf(r);
    KeyOf(r');
  }

  /** Among valid requests it takes a separator with something on both sides of it. */
  lemma ValidOverwrittenIff(r: PolicyResolve.ResolveRequest)
    requires ValidRequest(r)
    ensures (exists r' :: ValidRequest(r') && Overwrites(r, r')) <==> InnerBar(r.req.identity, r.req.domain)
  {
    hide *;
    var a := EntryFor(r).key;
    ValidKeyFull(r);
    if InnerBar(r.req.identity, r.req.domain) {
      var b := OtherFullKey(a);
      var r' := ValidMovedTo(r, b);
      FromWireOf(r');
      SamePlaceOverwrites(r, r');
      OverwritesIs(r, r');
      PlacesDiffer(a, b);
    }
    if r' :| ValidRequest(r') && Overwrites(r, r') {
      SamePlaceOverwrites(r, r');
      OverwritesIs(r, r');
      ValidKeyFull(r');
      PlacesDiffer(a, EntryFor(r').key);
      FullKeysShareOnlyBars(a, EntryFor(r').key);
    }
  }

  lemma FromWireOf(r: PolicyResolve.ResolveRequest)
    requires ValidRequest(r)
    ensures FromWire(r)
  {
    hide FromWire;
  }

  /** Two valid requests for different identities and sites, the second of which takes the place of the first. */
  lemma ValidRequestsCollide(r: PolicyResolve.ResolveRequest) returns (r1: PolicyResolve.ResolveRequest, r2: PolicyResolve.ResolveRequest)
    requires r.hasRequest && !r.versionMismatch && !r.hasTrust
    ensures FromWire(r1) && r1.coreValid && r1.req.identity == "a|b" && r1.req.domain == "c"
    ensures FromWire(r2) && r2.coreValid && r2.req.identity == "a" && r2.req.domain == "b|c"
    ensures Overwrites(r1, r2)
  {
    var ids := [PolicyResolve.IdentityInfo("a|b", false, false), PolicyResolve.IdentityInfo("a", false, false)];
    r1 := r.(req := r.req.(identity := "a|b", domain := "c"), coreValid := true, identities := ids);
    r2 := r.(req := r.req.(identity := "a", domain := "b|c"), coreValid := true, identities := ids);
    assert ids[0].value == "a|b" && ids[1].value == "a";
    SamplePlaces();
    KeyOf(r1);
    KeyOf(r2);
    hide EntryFor, StateKey, Overwrites;
    SamePlaceOverwrites(r1, r2);
    OverwritesIs(r1, r2);
  }

  lemma SamplePlaces()
    ensures StateKey(Key("a|b", "c", "auto")) == StateKey(Key("a", "b|c", "auto"))
  {
  }

  /** The service object: resolutions are recorded, snapshots taken. `consumer` has applied every blob emitted so far. */
  class Resolver {
    const H: string -> string
    var state: map<string, Entry>
    var seqNo: nat
    var lastSeq: nat
    var lastState: seq<Entry>
    ghost var consumer: Consumer

    constructor (H: string -> string)
      ensures this.H == H && Now() == FRESH_SERVICE && consumer == FRESH_CONSUMER && InSync()
    {
      this.H := H;
      state, seqNo, lastSeq, lastState := map[], 0, 0, [];
      consumer := FRESH_CONSUMER;
      new;
      StartSynced();
    }

    function Now(): Service
      reads this
    {
      Service(state, seqNo, lastSeq, lastState)
    }

    ghost predicate InSync()
      reads this
    {
      Synced(Now(), consumer)
    }

    /** A successful resolution, under the request's identity, domain and trust input: no other place changes, and nothing is sent. */
    method Record(e: Entry)
      modifies this
      ensures Now() == ServiceStep(H, old(Now()), Resolved(e)) && consumer == old(consumer)
      ensures StateKey(e.key) in state && state[StateKey(e.key)] == e
      ensures forall k | k != StateKey(e.key) :: (k in state <==> k in old(state)) && (k in state ==> state[k] == old(state)[k])
      ensures old(InSync()) && EntryOk(e) ==> InSync()
    {
      ghost var was := Now();
      state := state[StateKey(e.key) := e];
      hide Synced;
      if Synced(was, consumer) && EntryOk(e) { QuietStep(H, was, consumer, Resolved(e)); }
    }

    method Entries() returns (es: seq<Entry>)
      ensures es == StateEntries(state)
    {
      hide *;
      var keys := KeysInOrder(state.Keys);
      EntriesAre(state);
      es := [];
      NoEntries(state);
      for i := 0 to |keys|
        invariant es == StateAlong(keys[..i], state)
      {
        EntriesTurn(keys, i, state);
        es := es + [state[keys[i]]];
      }
      assert keys[..|keys|] == keys;
    }

    /** What an emission promises: the consumer that applies the blob holds the whole state of the service. */
    ghost predicate Delivered(was: Service, before: Consumer, ev: Event, r: Encoded)
      reads this
      requires !ev.Resolved?
    {
      && r == Emitted(H, was, ev) && Now() == ServiceStep(H, was, ev) && consumer == ConsumerStep(H, was, before, ev)
      && (HashOk(H) && Synced(was, before) && was.seqNo < INT64_MAX
          ==> InSync() && if r.Blob? then consumer.entries == Sort(StateEntries(was.state)) && consumer.seqNo == seqNo else consumer == before)
    }

    lemma Delivers(was: Service, before: Consumer, ev: Event)
      requires !ev.Resolved? && HashOk(H) && Synced(was, before) && was.seqNo < INT64_MAX
      ensures Synced(ServiceStep(H, was, ev), ConsumerStep(H, was, before, ev))
      ensures ServiceStep(H, was, ev).seqNo == was.seqNo + 1
      ensures if Emitted(H, was, ev).Blob? then ConsumerStep(H, was, before, ev) == Consumer(Sort(StateEntries(was.state)), was.seqNo + 1)
              else ConsumerStep(H, was, before, ev) == before
    {
      SeqMoves(H, was, ev);
      hide *;
      if Emitted(H, was, ev).Blob? { EmissionAgrees(H, was, before, ev); } else { QuietStep(H, was, before, ev); }
    }

    lemma Finish(was: Service, before: Consumer, ev: Event, r: Encoded)
      requires !ev.Resolved? && r == Emitted(H, was, ev)
      requires Now() == ServiceStep(H, was, ev) && consumer == ConsumerStep(H, was, before, ev)
      ensures Delivered(was, before, ev, r)
    {
      hide Emitted, ServiceStep, ConsumerStep, Synced, HashOk, Sort, StateEntries;
      if HashOk(H) && Synced(was, before) && was.seqNo < INT64_MAX { Delivers(was, before, ev); }
    }

    lemma FullIsStep(was: Service, r: Encoded, decoded: Outcome)
      requires r == EncodeFull(H, was.seqNo + 1, StateEntries(was.state))
      requires r.OverBudget? ==> Now() == was.(seqNo := was.seqNo + 1)
      requires r.Blob? ==> decoded == DecodeFull(H, r.text)
                           && Now() == was.(seqNo := was.seqNo + 1, lastSeq := was.seqNo + 1,
                                            lastState := if decoded.Snapshot? then decoded.entries else [])
      ensures r == Emitted(H, was, TakeFull) && Now() == ServiceStep(H, was, TakeFull)
    {
      hide Emitted, ServiceStep, DecodeFull, EncodeFull, StateEntries;
      EmittedIs(H, was);
      AfterFull(H, was);
    }

    method SnapshotFull() returns (r: Encoded)
      modifies this
      ensures Delivered(old(Now()), old(consumer), TakeFull, r)
    {
      hide EncodeFull, DecodeFull, StateEntries, Emitted, ServiceStep, ConsumerStep, Delivered;
      ghost var was, before := Now(), consumer;
      var entries := Entries();
      seqNo := seqNo + 1;
      r := EncodeFullSnapshot(H, seqNo, entries);
      var decoded := Snapshot([], 0, 0);
      if r.Blob? {
        lastSeq := seqNo;
        decoded := DecodeFullSnapshot(H, r.text);
        lastState := if decoded.Snapshot? then decoded.entries else [];
      }
      consumer := ConsumerStep(H, was, before, TakeFull);
      FullIsStep(was, r, decoded);
      Finish(was, before, TakeFull, r);
    }

    method SnapshotDiff() returns (r: Encoded)
      modifies this
      ensures Delivered(old(Now()), old(consumer), TakeDiff, r)
    {
      hide EncodeDiff, ApplyDiff, StateEntries, ConsumerStep, Delivered;
      ghost var was, before := Now(), consumer;
      var entries := Entries();
      seqNo := seqNo + 1;
      r := EncodeDiffSnapshot(H, seqNo, lastSeq, lastState, entries);
      if r.Blob? {
        lastSeq := seqNo;
        lastState := entries;
      }
      consumer := ConsumerStep(H, was, before, TakeDiff);
      Finish(was, before, TakeDiff, r);
    }
  }
}
