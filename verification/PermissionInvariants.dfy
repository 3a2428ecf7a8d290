/** What every operation keeps: well-formed stores, UTF-8 strings, unique and never reissued ids, dead tombstones. */
module PermissionInvariants {
  import opened Wrappers
  import opened Order
  import opened Utf8
  import opened JsonValue
  import opened JsonGrammar
  import opened JsonRoundTrip
  import opened PermissionTypes
  import opened PermissionStore
  import opened PermissionOps

  // Ids

  ghost predicate UniqueIds(gs: seq<StoredGrant>) {
    forall i, j | 0 <= i < j < |gs| :: gs[i].id != gs[j].id
  }

  ghost predicate HasId(gs: seq<StoredGrant>, id: string) { exists i :: 0 <= i < |gs| && gs[i].id == id }

  lemma DistinctParts(ids: map<string, IdentityRecord>)
    ensures DistinctIds(ids) <==>
            && (forall k | k in ids :: UniqueIds(ids[k].grants))
            && (forall k, k', id | k in ids && k' in ids && k != k' :: !(HasId(ids[k].grants, id) && HasId(ids[k'].grants, id)))
  {
    if DistinctIds(ids) {
      forall k | k in ids ensures UniqueIds(ids[k].grants) { }
      forall k, k', id | k in ids && k' in ids && k != k' ensures !(HasId(ids[k].grants, id) && HasId(ids[k'].grants, id)) { }
    }
    if (forall k | k in ids :: UniqueIds(ids[k].grants))
       && (forall k, k', id | k in ids && k' in ids && k != k' :: !(HasId(ids[k].grants, id) && HasId(ids[k'].grants, id))) {
      forall k, i, k', i' | k in ids && k' in ids && 0 <= i < |ids[k].grants| && 0 <= i' < |ids[k'].grants|
                            && ids[k].grants[i].id == ids[k'].grants[i'].id ensures k == k' && i == i' {
        var id := ids[k].grants[i].id;
        assert HasId(ids[k].grants, id) && HasId(ids[k'].grants, id);
        if k != k' { assert false; }
        assert UniqueIds(ids[k].grants);
      }
    }
  }

  /** `r` keeps ids of the old record or brings new ones. */
  ghost predicate KeepsIds(prior: seq<StoredGrant>, gs: seq<StoredGrant>, added: set<string>) {
    UniqueIds(gs) && forall id :: HasId(gs, id) ==> HasId(prior, id) || id in added
  }

  lemma PutDistinct(s: Store, k: string, r: IdentityRecord, added: set<string>)
    requires DistinctIds(s.identities) && KeepsIds(Record(s, k).grants, r.grants, added)
    requires forall id, x | id in added && x in s.identities :: !HasId(s.identities[x].grants, id)
    ensures DistinctIds(Put(s, k, r).identities)
  {
    DistinctParts(s.identities);
    DistinctParts(Put(s, k, r).identities);
    forall id ensures !HasId([], id) { NoGrants(id); }
    hide DistinctIds, HasId, UniqueIds;
    forall x, id | x in s.identities && x != k && HasId(r.grants, id) ensures !HasId(s.identities[x].grants, id) {
      if k in s.identities && HasId(s.identities[k].grants, id) { assert k != x; }
    }
  }

  lemma PutOk(s: Store, k: string, r: IdentityRecord, added: set<string>)
    requires StoreOk(s) && k != "" && RecordOk(r, k) && KeepsIds(Record(s, k).grants, r.grants, added)
    requires forall id, x | id in added && x in s.identities :: !HasId(s.identities[x].grants, id)
    ensures StoreOk(Put(s, k, r))
  {
    PutDistinct(s, k, r, added);
    hide RecordOk, DistinctIds, KeepsIds, HasId;
  }

  lemma RecordIsOk(s: Store, k: string)
    requires StoreOk(s)
    ensures RecordOk(Record(s, k), k) && UniqueIds(Record(s, k).grants)
  {
    DistinctParts(s.identities);
    hide GrantOk, IsExtraCapability, DistinctIds;
  }

  lemma SameGrantsKeep(s: Store, k: string)
    requires StoreOk(s)
    ensures KeepsIds(Record(s, k).grants, Record(s, k).grants, {})
  {
    RecordIsOk(s, k);
    hide UniqueIds, HasId, StoreOk, RecordOk;
  }

  // Each operation keeps well-formedness

  ghost predicate Keeps(s: Store, o: OpOutcome) {
    && StoreOk(o.store)
    && (o.ok <==> o.error == "")
    && (!o.ok ==> o.store == s && o.rows == [])
  }

  lemma SetDefaultKeeps(s: Store, identity: string, capability: string, state: string, now: int64)
    requires StoreOk(s)
    ensures Keeps(s, SetDefault(s, identity, capability, state, now))
  {
    hide ParseCapability, ParseCapState, KeepsIds, StoreOk, GrantOk;
    var o := SetDefault(s, identity, capability, state, now);
    if o.ok && identity != "" {
      SameGrantsKeep(s, identity);
      RecordIsOk(s, identity);
      PutOk(s, identity, Record(s, identity).(defaults := Record(s, identity).defaults), {});
      if o.rows != [] {
        var r := o.store.identities[identity];
        PutOk(s, identity, r, {});
      }
    }
  }

  lemma SetDeniedKeeps(s: Store, identity: string, denied: bool, now: int64)
    requires StoreOk(s)
    ensures Keeps(s, SetDenied(s, identity, denied, now))
  {
    hide KeepsIds, StoreOk, GrantOk;
    var r := Record(s, identity);
    if identity != "" {
      SameGrantsKeep(s, identity);
      RecordIsOk(s, identity);
      PutOk(s, identity, r.(denied := denied), {});
    }
  }

  lemma {:induction false} GrantIdsDiffer(m: nat, n: nat)
    requires m != n
    ensures GrantId(m) != GrantId(n)
  {
    DigitsRoundTrip(m);
    DigitsRoundTrip(n);
    hide IntPart, Digits, DecVal;
    assert GrantId(m)[1..] == Digits(m) && GrantId(n)[1..] == Digits(n);
  }

  /** The fresh-id loop stops at the first free number. */
  lemma {:induction false} NextFreeIsFree(taken: set<string>, n: nat)
    ensures GrantId(NextFree(taken, n)) !in taken
    ensures forall m | n <= m < NextFree(taken, n) :: GrantId(m) in taken
    decreases |taken|
  {
    hide GrantId;
    if GrantId(n) in taken {
      var m := NextFree(taken, n);
      NextFreeIsFree(taken - {GrantId(n)}, n + 1);
      GrantIdsDiffer(m, n);
    }
  }

  lemma NewGrantOk(id: string, req: GrantRequest, now: int64, s: Store)
    requires GrantRefusal(s, req, now).None? && id != ""
    ensures GrantOk(NewGrant(id, req, now), req.identity)
  {
    hide ParseCapability, ParseScope, LabelsOk;
  }

  lemma StoreIdsAre(ids: map<string, IdentityRecord>, id: string)
    ensures id in StoreIds(ids) <==> exists k :: k in ids && HasId(ids[k].grants, id)
  {
    if k :| k in ids && HasId(ids[k].grants, id) {
      var i :| 0 <= i < |ids[k].grants| && ids[k].grants[i].id == id;
    }
  }

  lemma AppendKeepsIds(prior: seq<StoredGrant>, g: StoredGrant)
    requires UniqueIds(prior) && !HasId(prior, g.id)
    ensures KeepsIds(prior, prior + [g], {g.id})
  {
    var gs := prior + [g];
    forall id | HasId(gs, id) ensures HasId(prior, id) || id == g.id {
      var i :| 0 <= i < |gs| && gs[i].id == id;
      if i < |prior| { assert prior[i].id == id; }
    }
  }

  lemma GrantTempKeeps(s: Store, req: GrantRequest, now: int64)
    requires StoreOk(s)
    ensures Keeps(s, GrantTemp(s, req, now))
    ensures GrantTemp(s, req, now).ok ==> GrantTemp(s, req, now).store.nextSeq > s.nextSeq
  {
    if GrantRefusal(s, req, now).None? {
      var n := NextFree(StoreIds(s.identities), s.nextSeq);
      var g := NewGrant(GrantId(n), req, now);
      var r := Record(s, req.identity);
      NextFreeIsFree(StoreIds(s.identities), s.nextSeq);
      NewGrantOk(GrantId(n), req, now, s);
      forall x | x in s.identities ensures !HasId(s.identities[x].grants, g.id) { StoreIdsAre(s.identities, g.id); }
      RecordIsOk(s, req.identity);
      hide GrantId, NextFree, StoreIds, GrantOk, StoreOk, UniqueIds;
      NoGrants(g.id);
      AppendKeepsIds(r.grants, g);
      assert RecordOk(r.(grants := r.grants + [g]), req.identity);
      PutOk(s, req.identity, r.(grants := r.grants + [g]), {g.id});
      BumpOk(Put(s, req.identity, r.(grants := r.grants + [g])), n + 1);
    } else {
      hide StoreOk;
      RefusalNamed(s, req, now);
    }
  }

  lemma NoGrants(id: string)
    ensures !HasId([], id)
  {
  }

  lemma RefusalNamed(s: Store, req: GrantRequest, now: int64)
    requires GrantRefusal(s, req, now).Some?
    ensures GrantRefusal(s, req, now).value != ""
  {
    hide ParseCapability, ParseScope, RedactOrigin;
  }

  lemma BumpOk(s: Store, n: nat)
    requires StoreOk(s) && n >= 1
    ensures StoreOk(s.(nextSeq := n))
  {
    hide RecordOk, DistinctIds;
  }

  lemma WithoutKeeps(gs: seq<StoredGrant>, i: nat, key: string)
    requires i < |gs| && UniqueIds(gs) && forall j | 0 <= j < |gs| :: GrantOk(gs[j], key)
    ensures KeepsIds(gs, Without(gs, i), {}) && forall j | 0 <= j < |Without(gs, i)| :: GrantOk(Without(gs, i)[j], key)
  {
    hide GrantOk;
    var w := Without(gs, i);
    forall j | 0 <= j < |w| ensures w[j] == gs[if j < i then j else j + 1] { }
    forall id | HasId(w, id) ensures HasId(gs, id) {
      var j :| 0 <= j < |w| && w[j].id == id;
      assert gs[if j < i then j else j + 1].id == id;
    }
  }

  lemma KeyNamed(s: Store, k: string)
    requires StoreOk(s) && k in s.identities
    ensures k != ""
  {
    hide RecordOk, DistinctIds;
  }

  lemma ConsumeKeeps(s: Store, id: string, now: int64)
    requires StoreOk(s)
    ensures Keeps(s, ConsumeOnce(s, id, now))
  {
    hide StoreOk, KeepsIds, Without, FindHolder, FindGrant, GrantOk, UniqueIds, IsExtraCapability, DistinctIds;
    var o := ConsumeOnce(s, id, now);
    if o.ok {
      var k := FindHolder(SortedKeys(s.identities.Keys), s.identities, id).value;
      var r := s.identities[k];
      var i := FindGrant(r.grants, id);
      RecordIsOk(s, k);
      KeyNamed(s, k);
      WithoutKeeps(r.grants, i, k);
      PutOk(s, k, r.(grants := Without(r.grants, i)), {});
    }
  }

  lemma {:induction false} KeptContents(gs: seq<StoredGrant>, now: int64, session: string, g: StoredGrant)
    ensures g in Kept(gs, now, session) <==> g in gs && EndReason(g, now, session).None?
  {
    hide EndReason;
    if gs != [] {
      KeptContents(gs[..|gs| - 1], now, session, g);
      assert gs == gs[..|gs| - 1] + [gs[|gs| - 1]];
    }
  }

  lemma {:induction false} KeptUnique(gs: seq<StoredGrant>, now: int64, session: string)
    requires UniqueIds(gs)
    ensures UniqueIds(Kept(gs, now, session))
  {
    hide EndReason;
    if gs != [] {
      var front, g := gs[..|gs| - 1], gs[|gs| - 1];
      KeptUnique(front, now, session);
      var kept := Kept(front, now, session);
      forall i | 0 <= i < |kept| ensures kept[i].id != g.id {
        KeptContents(front, now, session, kept[i]);
        var j :| 0 <= j < |front| && front[j] == kept[i];
        assert gs[j] == front[j];
      }
    }
  }

  lemma KeptKeeps(gs: seq<StoredGrant>, now: int64, session: string, key: string)
    requires UniqueIds(gs) && forall j | 0 <= j < |gs| :: GrantOk(gs[j], key)
    ensures var kept := Kept(gs, now, session);
            KeepsIds(gs, kept, {}) && forall j | 0 <= j < |kept| :: GrantOk(kept[j], key)
  {
    KeptUnique(gs, now, session);
    hide Kept, GrantOk, EndReason;
    var kept := Kept(gs, now, session);
    forall j | 0 <= j < |kept| ensures kept[j] in gs { KeptContents(gs, now, session, kept[j]); }
    forall id | HasId(kept, id) ensures HasId(gs, id) {
      var j :| 0 <= j < |kept| && kept[j].id == id;
      var i :| 0 <= i < |gs| && gs[i] == kept[j];
    }
  }

  lemma SweepKeeps(s: Store, now: int64, session: string)
    requires StoreOk(s)
    ensures Keeps(s, SweepExpired(s, now, session))
  {
    hide RecordOk, Kept, HasId, UniqueIds, DistinctIds, SweepAllRows;
    var ids := s.identities;
    var swept := SweptRecords(ids, now, session);
    assert swept.Keys == ids.Keys;
    DistinctParts(ids);
    DistinctParts(swept);
    forall k | k in ids ensures RecordOk(swept[k], k) && KeepsIds(ids[k].grants, swept[k].grants, {}) {
      SweptRecordKeeps(ids[k], k, now, session);
    }
  }

  lemma SweptRecordKeeps(r: IdentityRecord, k: string, now: int64, session: string)
    requires RecordOk(r, k) && UniqueIds(r.grants)
    ensures var r' := r.(grants := Kept(r.grants, now, session)); RecordOk(r', k) && KeepsIds(r.grants, r'.grants, {})
  {
    hide Kept, GrantOk, IsExtraCapability, UniqueIds, KeepsIds;
    KeptKeeps(r.grants, now, session, k);
  }

  lemma TombstonesKeep(gs: seq<StoredGrant>, site: Option<string>, now: int64, key: string)
    requires UniqueIds(gs) && forall j | 0 <= j < |gs| :: GrantOk(gs[j], key)
    ensures var ts := Tombstones(gs, site, now);
            KeepsIds(gs, ts, {}) && forall j | 0 <= j < |ts| :: GrantOk(ts[j], key)
  {
    hide Tombstones;
    var ts := Tombstones(gs, site, now);
    forall id | HasId(ts, id) ensures HasId(gs, id) {
      var j :| 0 <= j < |ts| && ts[j].id == id;
      assert gs[j].id == id;
    }
  }

  lemma RevokeKeeps(s: Store, identity: string, site: Option<string>, now: int64, bare: bool)
    requires StoreOk(s) && identity in s.identities
    ensures var r := s.identities[identity];
            StoreOk(Put(s, identity, (if bare then r.(defaults := map[]) else r).(grants := Tombstones(r.grants, site, now))))
  {
    var r := s.identities[identity];
    RecordIsOk(s, identity);
    assert identity != "";
    TombstonesKeep(r.grants, site, now, identity);
    hide StoreOk, KeepsIds, Tombstones, GrantOk, UniqueIds, IsExtraCapability;
    PutOk(s, identity, (if bare then r.(defaults := map[]) else r).(grants := Tombstones(r.grants, site, now)), {});
  }

  /** Every operation keeps the store well-formed; a refusal names a token and changes nothing. */
  lemma EveryOpKeeps(s: Store, op: Op, now: int64)
    requires StoreOk(s)
    ensures Keeps(s, Apply(s, op, now))
    ensures Apply(s, op, now).store.nextSeq >= s.nextSeq
  {
    hide SetDefault, SetDenied, GrantTemp, ConsumeOnce, SweepExpired, StoreOk;
    match op
    case OpSetDefault(id, cap, st) => SetDefaultKeeps(s, id, cap, st, now); SetDefaultSeq(s, id, cap, st, now);
    case OpGrant(req) => GrantTempKeeps(s, req, now);
    case OpSetDenied(id, denied) => SetDeniedKeeps(s, id, denied, now); SetDeniedSeq(s, id, denied, now);
    case OpConsume(id) => ConsumeKeeps(s, id, now); ConsumeSeq(s, id, now);
    case OpSweep(session) => SweepKeeps(s, now, session); SweepSeq(s, now, session);
    case OpRevokeSite(id, domain) => RevokeSiteKeeps(s, id, domain, now);
    case OpRevokeAll(id) => RevokeAllKeeps(s, id, now);
  }

  lemma RevokeSiteKeeps(s: Store, identity: string, domain: string, now: int64)
    requires StoreOk(s)
    ensures Keeps(s, RevokeSite(s, identity, domain, now)) && RevokeSite(s, identity, domain, now).store.nextSeq == s.nextSeq
  {
    hide Tombstones, RevokeRows, RedactOrigin, StoreOk;
    if identity in s.identities { RevokeKeeps(s, identity, Some(domain), now, false); }
  }

  lemma RevokeAllKeeps(s: Store, identity: string, now: int64)
    requires StoreOk(s)
    ensures Keeps(s, RevokeAll(s, identity, now)) && RevokeAll(s, identity, now).store.nextSeq == s.nextSeq
  {
    hide Tombstones, RevokeRows, ClearedRows, StoreOk;
    if identity in s.identities { RevokeKeeps(s, identity, None, now, true); }
  }

  lemma SetDefaultSeq(s: Store, id: string, cap: string, st: string, now: int64)
    ensures SetDefault(s, id, cap, st, now).store.nextSeq == s.nextSeq
  {
    hide ParseCapability, ParseCapState;
  }

  lemma SetDeniedSeq(s: Store, id: string, denied: bool, now: int64)
    ensures SetDenied(s, id, denied, now).store.nextSeq == s.nextSeq
  {
  }

  lemma ConsumeSeq(s: Store, id: string, now: int64)
    ensures ConsumeOnce(s, id, now).store.nextSeq == s.nextSeq
  {
    hide FindHolder, FindGrant;
  }

  lemma SweepSeq(s: Store, now: int64, session: string)
    ensures SweepExpired(s, now, session).store.nextSeq == s.nextSeq
  {
    hide SweptRecords, SweepAllRows;
  }

  // UTF-8 strings stay UTF-8

  ghost predicate OpUtf8(op: Op) {
    match op
    case OpSetDefault(id, _, _) => Valid(id)
    case OpGrant(req) => Valid(req.identity) && Valid(req.sessionId)
    case OpSetDenied(id, _) => Valid(id)
    case _ => true
  }

  lemma {:induction false} LabelsAscii(s: string)
    requires LabelsOk(s)
    ensures Ascii(s)
    decreases |s|
  {
    var d := FirstDot(s);
    if d < |s| { LabelsAscii(s[d + 1..]); }
    forall i | 0 <= i < |s| ensures s[i] as int < 0x80 {
      if i < d { assert s[..d][i] == s[i] && LabelChar(s[..d][i]); }
      else if i > d { assert s[d + 1..][i - d - 1] == s[i]; }
    }
  }

  lemma PutUtf8(s: Store, k: string, r: IdentityRecord)
    requires StoreUtf8(s) && Valid(k) && RecordUtf8(r)
    ensures StoreUtf8(Put(s, k, r))
  {
    hide Valid, RecordUtf8;
  }

  lemma RecordIsUtf8(s: Store, k: string)
    requires StoreUtf8(s)
    ensures RecordUtf8(Record(s, k))
  {
    hide Valid;
  }

  lemma NewGrantUtf8(n: nat, req: GrantRequest, now: int64, s: Store)
    requires GrantRefusal(s, req, now).None? && Valid(req.identity) && Valid(req.sessionId)
    ensures GrantUtf8(NewGrant(GrantId(n), req, now))
  {
    DigitsRoundTrip(n);
    LabelsAscii(req.domain);
    AsciiUtf8(req.domain);
    AsciiUtf8("");
    assert Ascii(GrantId(n)) by {
      forall i | 0 <= i < |GrantId(n)| ensures GrantId(n)[i] as int < 0x80 { if i > 0 { assert GrantId(n)[i] == Digits(n)[i - 1]; } }
    }
    AsciiUtf8(GrantId(n));
    hide Valid, LabelsOk, ParseCapability, ParseScope, Digits, IntPart, DecVal;
  }

  lemma {:induction false} EveryOpUtf8(s: Store, op: Op, now: int64)
    requires StoreOk(s) && StoreUtf8(s) && OpUtf8(op)
    ensures StoreUtf8(Apply(s, op, now).store)
  {
    hide Valid, StoreUtf8, RecordUtf8, Digits, LabelsOk, ParseCapability, ParseCapState, ParseScope, FindHolder, FindGrant, Kept, Tombstones, NextFree;
    var o := Apply(s, op, now);
    match op
    case OpSetDefault(id, cap, st) =>
      RecordIsUtf8(s, id);
      if o.rows != [] {
        var r := o.store.identities[id];
        SameGrantsUtf8(Record(s, id), r);
        PutUtf8(s, id, r);
      }
    case OpSetDenied(id, denied) =>
      RecordIsUtf8(s, id);
      SameGrantsUtf8(Record(s, id), Record(s, id).(denied := denied));
      PutUtf8(s, id, Record(s, id).(denied := denied));
    case OpGrant(req) => GrantTempUtf8(s, req, now);
    case OpConsume(id) => ConsumeUtf8(s, id, now);
    case OpSweep(session) => SweepUtf8(s, now, session);
    case OpRevokeSite(id, domain) => RevokeUtf8(s, id, Some(domain), now);
    case OpRevokeAll(id) => RevokeUtf8(s, id, None, now);
  }

  lemma SameGrantsUtf8(r: IdentityRecord, r': IdentityRecord)
    requires RecordUtf8(r) && r'.grants == r.grants
    ensures RecordUtf8(r')
  {
    hide Valid;
  }

  lemma GrantTempUtf8(s: Store, req: GrantRequest, now: int64)
    requires StoreUtf8(s) && Valid(req.identity) && Valid(req.sessionId)
    ensures StoreUtf8(GrantTemp(s, req, now).store)
  {
    hide Valid, StoreUtf8, GrantUtf8, NextFree, StoreIds, GrantId, NewGrant, GrantRefusal;
    RecordIsUtf8(s, req.identity);
    if GrantRefusal(s, req, now).None? {
      var n := NextFree(StoreIds(s.identities), s.nextSeq);
      NewGrantUtf8(n, req, now, s);
      GrantParses(s, req, now);
      var r := Record(s, req.identity);
      var g := NewGrant(GrantId(n), req, now);
      var r' := r.(grants := r.grants + [g]);
      assert RecordUtf8(r');
      PutUtf8(s, req.identity, r');
      SeqUtf8(Put(s, req.identity, r'), n + 1);
    }
  }

  lemma GrantParses(s: Store, req: GrantRequest, now: int64)
    requires GrantRefusal(s, req, now).None?
    ensures ParseCapability(req.capability).Some? && ParseScope(req.scope).Some?
    ensures ParseScope(req.scope).value == SevenDays ==> now <= INT64_MAX - SEVEN_DAYS_MILLIS
  {
    hide ParseCapability, ParseScope;
  }

  lemma SeqUtf8(s: Store, n: nat)
    requires StoreUtf8(s)
    ensures StoreUtf8(s.(nextSeq := n))
  {
    hide Valid, RecordUtf8;
  }

  lemma ConsumeUtf8(s: Store, id: string, now: int64)
    requires StoreUtf8(s)
    ensures StoreUtf8(ConsumeOnce(s, id, now).store)
  {
    hide Valid, GrantUtf8, FindHolder, FindGrant, SortedKeys, Without;
    if ConsumeOnce(s, id, now).ok {
      var k := FindHolder(SortedKeys(s.identities.Keys), s.identities, id).value;
      var r := s.identities[k];
      var i := FindGrant(r.grants, id);
      WithoutUtf8(r.grants, i);
      assert RecordUtf8(r);
      PutUtf8(s, k, r.(grants := Without(r.grants, i)));
    }
  }

  lemma WithoutUtf8(gs: seq<StoredGrant>, i: nat)
    requires i < |gs| && forall j | 0 <= j < |gs| :: GrantUtf8(gs[j])
    ensures forall j | 0 <= j < |Without(gs, i)| :: GrantUtf8(Without(gs, i)[j])
  {
    hide GrantUtf8;
    var w := Without(gs, i);
    forall j | 0 <= j < |w| ensures GrantUtf8(w[j]) { assert w[j] == gs[if j < i then j else j + 1]; }
  }

  lemma SweepUtf8(s: Store, now: int64, session: string)
    requires StoreUtf8(s)
    ensures StoreUtf8(SweepExpired(s, now, session).store)
  {
    hide Valid, GrantUtf8, Kept, SweepAllRows;
    forall k, j | k in s.identities && 0 <= j < |Kept(s.identities[k].grants, now, session)|
      ensures GrantUtf8(Kept(s.identities[k].grants, now, session)[j])
    {
      KeptContents(s.identities[k].grants, now, session, Kept(s.identities[k].grants, now, session)[j]);
    }
  }

  lemma RevokeUtf8(s: Store, identity: string, site: Option<string>, now: int64)
    requires StoreUtf8(s)
    ensures site.Some? ==> StoreUtf8(RevokeSite(s, identity, site.value, now).store)
    ensures site.None? ==> StoreUtf8(RevokeAll(s, identity, now).store)
  {
    hide Valid, Tombstones, RevokeRows, ClearedRows, LabelsOk;
    if identity in s.identities {
      var gs := s.identities[identity].grants;
      var ts := Tombstones(gs, site, now);
      forall j | 0 <= j < |ts| ensures GrantUtf8(ts[j]) { assert GrantUtf8(gs[j]); }
    }
  }

  // A tombstone is never revived, moved or altered

  ghost predicate TombstonesStay(s: Store, s': Store) {
    forall k, g | k in s.identities && g in s.identities[k].grants && g.revoked :: k in s'.identities && g in s'.identities[k].grants
  }

  /** What an operation does to the grants of one identity. */
  ghost function GrantsAfter(s: Store, op: Op, now: int64, k: string): seq<StoredGrant> {
    var gs := Record(s, k).grants;
    match op
    case OpGrant(req) =>
      if req.identity == k && GrantRefusal(s, req, now).None?
      then gs + [NewGrant(GrantId(NextFree(StoreIds(s.identities), s.nextSeq)), req, now)] else gs
    case OpConsume(id) =>
      if ConsumeOnce(s, id, now).ok && FindHolder(SortedKeys(s.identities.Keys), s.identities, id) == Some(k)
      then Without(gs, FindGrant(gs, id)) else gs
    case OpSweep(session) => if s.corrupt then gs else Kept(gs, now, session)
    case OpRevokeSite(id, domain) =>
      if id == k && RevokeSite(s, id, domain, now).ok then Tombstones(gs, Some(domain), now) else gs
    case OpRevokeAll(id) =>
      if id == k && RevokeAll(s, id, now).ok then Tombstones(gs, None, now) else gs
    case _ => gs
  }

  lemma GrantsEffect(s: Store, op: Op, now: int64, k: string)
    ensures Record(Apply(s, op, now).store, k).grants == GrantsAfter(s, op, now, k)
    ensures k in s.identities ==> k in Apply(s, op, now).store.identities
  {
    hide SetDefault, SetDenied, GrantTemp, ConsumeOnce, SweepExpired, RevokeSite, RevokeAll, Kept, Tombstones, FindGrant, FindHolder, NextFree, GrantRefusal, Without;
    match op
    case OpSetDefault(id, cap, st) => SetDefaultEffect(s, id, cap, st, now, k);
    case OpSetDenied(id, denied) => SetDeniedEffect(s, id, denied, now, k);
    case OpGrant(req) => GrantEffect(s, req, now, k);
    case OpConsume(id) => ConsumeEffect(s, id, now, k);
    case OpSweep(session) => SweepEffect(s, session, now, k);
    case OpRevokeSite(id, domain) => RevokeSiteEffect(s, id, domain, now, k);
    case OpRevokeAll(id) => RevokeAllEffect(s, id, now, k);
  }

  lemma SetDefaultEffect(s: Store, id: string, cap: string, st: string, now: int64, k: string)
    ensures var s' := SetDefault(s, id, cap, st, now).store; Record(s', k).grants == Record(s, k).grants && (k in s.identities ==> k in s'.identities)
  {
    hide ParseCapability, ParseCapState;
  }

  lemma SetDeniedEffect(s: Store, id: string, denied: bool, now: int64, k: string)
    ensures var s' := SetDenied(s, id, denied, now).store; Record(s', k).grants == Record(s, k).grants && (k in s.identities ==> k in s'.identities)
  {
  }

  lemma GrantEffect(s: Store, req: GrantRequest, now: int64, k: string)
    ensures var s' := GrantTemp(s, req, now).store; Record(s', k).grants == GrantsAfter(s, OpGrant(req), now, k) && (k in s.identities ==> k in s'.identities)
  {
    hide GrantRefusal, NextFree, GrantId, StoreIds, NewGrant;
  }

  lemma ConsumeEffect(s: Store, id: string, now: int64, k: string)
    ensures var s' := ConsumeOnce(s, id, now).store; Record(s', k).grants == GrantsAfter(s, OpConsume(id), now, k) && (k in s.identities ==> k in s'.identities)
  {
    hide FindHolder, FindGrant, Without, SortedKeys;
  }

  lemma SweepEffect(s: Store, session: string, now: int64, k: string)
    ensures var s' := SweepExpired(s, now, session).store; Record(s', k).grants == GrantsAfter(s, OpSweep(session), now, k) && (k in s.identities ==> k in s'.identities)
  {
    hide SweepAllRows;
    assert Kept([], now, session) == [];
    hide Kept;
  }

  lemma RevokeSiteEffect(s: Store, id: string, domain: string, now: int64, k: string)
    ensures var s' := RevokeSite(s, id, domain, now).store; Record(s', k).grants == GrantsAfter(s, OpRevokeSite(id, domain), now, k) && (k in s.identities ==> k in s'.identities)
  {
    hide RedactOrigin, RevokeRows;
    assert Tombstones([], Some(domain), now) == [];
    hide Tombstones;
  }

  lemma RevokeAllEffect(s: Store, id: string, now: int64, k: string)
    ensures var s' := RevokeAll(s, id, now).store; Record(s', k).grants == GrantsAfter(s, OpRevokeAll(id), now, k) && (k in s.identities ==> k in s'.identities)
  {
    hide RevokeRows, ClearedRows;
    assert Tombstones([], None, now) == [];
    hide Tombstones;
  }

  lemma EveryOpKeepsTombstones(s: Store, op: Op, now: int64)
    ensures TombstonesStay(s, Apply(s, op, now).store)
  {
    hide Apply, GrantsAfter;
    var s' := Apply(s, op, now).store;
    forall k, g | k in s.identities && g in s.identities[k].grants && g.revoked ensures k in s'.identities && g in s'.identities[k].grants {
      GrantsEffect(s, op, now, k);
      TombstoneStays(s, op, now, k, g);
    }
  }

  lemma TombstoneStays(s: Store, op: Op, now: int64, k: string, g: StoredGrant)
    requires g in Record(s, k).grants && g.revoked
    ensures g in GrantsAfter(s, op, now, k)
  {
    hide ConsumeOnce, RevokeSite, RevokeAll, Kept, Tombstones, FindGrant, FindHolder, NextFree, GrantRefusal, NewGrant, Without, SortedKeys, StoreIds, GrantId;
    var gs := Record(s, k).grants;
    match op
    case OpConsume(id) => if FindGrant(gs, id) < |gs| { WithoutContents(gs, FindGrant(gs, id), g); }
    case OpSweep(session) => KeptContents(gs, now, session, g);
    case OpRevokeSite(id, domain) => DeadStays(gs, Some(domain), now, g);
    case OpRevokeAll(id) => DeadStays(gs, None, now, g);
    case _ =>
  }

  lemma WithoutContents(gs: seq<StoredGrant>, i: nat, g: StoredGrant)
    requires i < |gs|
    ensures g in Without(gs, i) ==> g in gs
    ensures g in gs && g != gs[i] ==> g in Without(gs, i)
  {
    var w := Without(gs, i);
    if g in gs && g != gs[i] {
      var j :| 0 <= j < |gs| && gs[j] == g;
      assert w[if j < i then j else j - 1] == g;
    }
  }

  lemma DeadStays(gs: seq<StoredGrant>, site: Option<string>, now: int64, g: StoredGrant)
    requires g in gs && g.revoked
    ensures g in Tombstones(gs, site, now)
  {
    hide Tombstones;
    var i :| 0 <= i < |gs| && gs[i] == g;
    assert Tombstones(gs, site, now)[i] == g;
  }

  lemma TombstoneIds(gs: seq<StoredGrant>, site: Option<string>, now: int64, id: string)
    requires HasId(Tombstones(gs, site, now), id)
    ensures HasId(gs, id)
  {
    hide Tombstones;
    var i :| 0 <= i < |gs| && Tombstones(gs, site, now)[i].id == id;
    assert gs[i].id == id;
  }

  // Runs, and the ids they issue

  datatype Step = Step(op: Op, now: int64)

  ghost function Run(s: Store, steps: seq<Step>): Store {
    if steps == [] then s else Apply(Run(s, steps[..|steps| - 1]), steps[|steps| - 1].op, steps[|steps| - 1].now).store
  }

  lemma {:induction false} RunOk(s: Store, steps: seq<Step>)
    requires StoreOk(s)
    ensures StoreOk(Run(s, steps)) && Run(s, steps).nextSeq >= s.nextSeq
  {
    hide StoreOk, Apply;
    if steps != [] {
      var front, last := steps[..|steps| - 1], steps[|steps| - 1];
      RunOk(s, front);
      EveryOpKeeps(Run(s, front), last.op, last.now);
    }
  }

  ghost predicate FromCounter(s: Store, id: string) { exists m: nat :: m < s.nextSeq && id == GrantId(m) }

  /** Every id in the store was made from a number below the counter. */
  ghost predicate Minted(s: Store) {
    forall k, i | k in s.identities && 0 <= i < |s.identities[k].grants| :: FromCounter(s, s.identities[k].grants[i].id)
  }

  /** The id that a step issues, if it grants. */
  ghost function Issued(s: Store, step: Step): Option<string> {
    if step.op.OpGrant? && GrantRefusal(s, step.op.req, step.now).None? then Some(GrantId(NextFree(StoreIds(s.identities), s.nextSeq))) else None
  }

  ghost predicate HasGrantId(s: Store, id: string) { exists k :: k in s.identities && HasId(s.identities[k].grants, id) }

  /** Operations bring no ids of their own, except the one a grant issues. */
  lemma OpIds(s: Store, step: Step, id: string)
    requires HasGrantId(Apply(s, step.op, step.now).store, id)
    ensures HasGrantId(s, id) || Issued(s, step) == Some(id)
  {
    hide Apply, GrantsAfter, Issued;
    var s' := Apply(s, step.op, step.now).store;
    var k :| k in s'.identities && HasId(s'.identities[k].grants, id);
    GrantsEffect(s, step.op, step.now, k);
    KeyIds(s, step, k, id);
    if HasId(Record(s, k).grants, id) { NoGrants(id); }
  }

  lemma KeyIds(s: Store, step: Step, k: string, id: string)
    requires HasId(GrantsAfter(s, step.op, step.now, k), id)
    ensures HasId(Record(s, k).grants, id) || Issued(s, step) == Some(id)
  {
    hide ConsumeOnce, RevokeSite, RevokeAll, Kept, Tombstones, FindGrant, FindHolder, NextFree, GrantRefusal, GrantId, Without, SortedKeys, StoreIds;
    var gs, after := Record(s, k).grants, GrantsAfter(s, step.op, step.now, k);
    var i :| 0 <= i < |after| && after[i].id == id;
    match step.op
    case OpConsume(cid) => if FindGrant(gs, cid) < |gs| { WithoutContents(gs, FindGrant(gs, cid), after[i]); }
    case OpSweep(session) => KeptContents(gs, step.now, session, after[i]);
    case OpGrant(req) => if i < |gs| { assert gs[i].id == id; }
    case OpRevokeSite(_, domain) => if after != gs { TombstoneIds(gs, Some(domain), step.now, id); }
    case OpRevokeAll(_) => if after != gs { TombstoneIds(gs, None, step.now, id); }
    case _ =>
  }

  lemma AllFromCounter(s: Store)
    requires forall id | HasGrantId(s, id) :: FromCounter(s, id)
    ensures Minted(s)
  {
    hide FromCounter;
    forall k, i | k in s.identities && 0 <= i < |s.identities[k].grants| ensures FromCounter(s, s.identities[k].grants[i].id) {
      assert HasId(s.identities[k].grants, s.identities[k].grants[i].id);
      assert HasGrantId(s, s.identities[k].grants[i].id);
    }
  }

  /** In a store that minted all its ids the counter itself is free: the loop never skips, and the id is new. */
  lemma MintedStep(s: Store, step: Step)
    requires StoreOk(s) && Minted(s)
    ensures Minted(Apply(s, step.op, step.now).store)
    ensures Issued(s, step).Some? ==> Issued(s, step).value == GrantId(s.nextSeq) && Apply(s, step.op, step.now).store.nextSeq == s.nextSeq + 1
  {
    hide *;
    var s' := Apply(s, step.op, step.now).store;
    forall id | HasGrantId(s', id) ensures FromCounter(s', id) { StaysMinted(s, step, id); }
    AllFromCounter(s');
    if Issued(s, step).Some? { IssuedIs(s, step); CounterIsFree(s); IssuedBumps(s, step); }
  }

  lemma IssuedIs(s: Store, step: Step)
    requires Issued(s, step).Some?
    ensures Issued(s, step).value == GrantId(NextFree(StoreIds(s.identities), s.nextSeq))
  {
    hide GrantId, NextFree, GrantRefusal, StoreIds;
  }

  lemma StaysMinted(s: Store, step: Step, id: string)
    requires StoreOk(s) && Minted(s) && HasGrantId(Apply(s, step.op, step.now).store, id)
    ensures FromCounter(Apply(s, step.op, step.now).store, id)
  {
    EveryOpKeeps(s, step.op, step.now);
    if Issued(s, step).Some? { CounterIsFree(s); IssuedBumps(s, step); }
    OpIds(s, step, id);
    if HasGrantId(s, id) { MintedId(s, id); }
    hide StoreOk, Apply, GrantId, Issued, NextFree, Minted, HasGrantId;
  }

  lemma MintedId(s: Store, id: string)
    requires Minted(s) && HasGrantId(s, id)
    ensures exists m: nat :: m < s.nextSeq && id == GrantId(m)
  {
    hide GrantId;
    var k :| k in s.identities && HasId(s.identities[k].grants, id);
    var i :| 0 <= i < |s.identities[k].grants| && s.identities[k].grants[i].id == id;
  }

  lemma CounterIsFree(s: Store)
    requires Minted(s)
    ensures NextFree(StoreIds(s.identities), s.nextSeq) == s.nextSeq
  {
    hide GrantId;
    if GrantId(s.nextSeq) in StoreIds(s.identities) {
      StoreIdsAre(s.identities, GrantId(s.nextSeq));
      MintedId(s, GrantId(s.nextSeq));
      var m: nat :| m < s.nextSeq && GrantId(s.nextSeq) == GrantId(m);
      GrantIdsDiffer(m, s.nextSeq);
    }
  }

  lemma IssuedBumps(s: Store, step: Step)
    requires Issued(s, step).Some?
    ensures Apply(s, step.op, step.now).store.nextSeq == NextFree(StoreIds(s.identities), s.nextSeq) + 1
  {
    hide GrantRefusal, NextFree, GrantId;
  }

  lemma {:induction false} RunMinted(steps: seq<Step>)
    ensures StoreOk(Run(EMPTY_STORE, steps)) && Minted(Run(EMPTY_STORE, steps))
  {
    hide Apply, StoreOk;
    RunOk(EMPTY_STORE, steps) by { EmptyOk(); }
    if steps != [] {
      var front, last := steps[..|steps| - 1], steps[|steps| - 1];
      RunMinted(front);
      MintedStep(Run(EMPTY_STORE, front), last);
    }
  }

  lemma EmptyOk()
    ensures StoreOk(EMPTY_STORE) && StoreUtf8(EMPTY_STORE)
  {
  }

  /** In a run from the empty store no id is ever issued twice, even after its grant is gone. */
  lemma {:induction false} NeverReissued(steps: seq<Step>, i: nat, j: nat)
    requires i < j < |steps|
    requires Issued(Run(EMPTY_STORE, steps[..i]), steps[i]).Some? && Issued(Run(EMPTY_STORE, steps[..j]), steps[j]).Some?
    ensures Issued(Run(EMPTY_STORE, steps[..i]), steps[i]) != Issued(Run(EMPTY_STORE, steps[..j]), steps[j])
  {
    hide Apply, StoreOk, Issued, GrantId;
    var a, b := Run(EMPTY_STORE, steps[..i]), Run(EMPTY_STORE, steps[..j]);
    RunMinted(steps[..i]);
    RunMinted(steps[..j]);
    MintedStep(a, steps[i]);
    MintedStep(b, steps[j]);
    RunMinted(steps[..i + 1]);
    assert steps[..i + 1][..i] == steps[..i];
    SeqGrows(steps, i + 1, j);
    GrantIdsDiffer(a.nextSeq, b.nextSeq);
  }

  lemma {:induction false} SeqGrows(steps: seq<Step>, i: nat, j: nat)
    requires i <= j <= |steps|
    ensures Run(EMPTY_STORE, steps[..i]).nextSeq <= Run(EMPTY_STORE, steps[..j]).nextSeq
    decreases j
  {
    hide Apply, StoreOk;
    if i < j {
      SeqGrows(steps, i, j - 1);
      assert steps[..j][..j - 1] == steps[..j - 1];
      RunOk(EMPTY_STORE, steps[..j - 1]) by { EmptyOk(); }
      EveryOpKeeps(Run(EMPTY_STORE, steps[..j - 1]), steps[j - 1].op, steps[j - 1].now);
    }
  }
}
