/**
  The operations as the store module runs them: a copy of the store is changed in place, step by step, and rows are
  pushed as things happen. Each one computes the function of the same name.
 */
module PermissionEngine {
  import opened Wrappers
  import opened Order
  import opened JsonValue
  import opened PermissionTypes
  import opened PermissionOps
  import Spec = PermissionOps
  import opened PermissionInvariants

  /** A success leaves the default set and everything else alone, and there is a row exactly when the store changed. */
  method SetDefault(s: Store, identity: string, capability: string, state: string, now: int64) returns (o: OpOutcome)
    ensures o == Spec.SetDefault(s, identity, capability, state, now)
    ensures o.rows == [] <==> o.store == s
    ensures o.ok ==> identity in o.store.identities && ParseCapability(capability).Some?
                     && Record(s, identity).defaults[ParseCapability(capability).value := ParseCapState(state).value] == Record(o.store, identity).defaults
    ensures forall x | x != identity :: Record(o.store, x) == Record(s, x)
    ensures Record(o.store, identity).denied == Record(s, identity).denied && Record(o.store, identity).grants == Record(s, identity).grants
    ensures StoreOk(s) ==> Keeps(s, o)
  {
    if StoreOk(s) { SetDefaultKeeps(s, identity, capability, state, now); }
    hide StoreOk, Keeps, ParseCapability, ParseCapState;
    if s.corrupt { return Refuse(s, "corrupt-store"); }
    if identity == "" { return Refuse(s, "bad-identity"); }
    var c := ParseCapability(capability);
    if c.None? { return Refuse(s, "bad-capability"); }
    var st := ParseCapState(state);
    if st.None? { return Refuse(s, "bad-state"); }
    o := Done(s, []);
    if identity in s.identities {
      var d := s.identities[identity].defaults;
      if c.value in d && d[c.value] == st.value { return; }
    }
    var r := Record(s, identity);
    o := o.(store := Put(o.store, identity, r.(defaults := r.defaults[c.value := st.value])));
    var event := if st.value == Allow then Grant else Revoke;
    o := o.(rows := o.rows + [AuditRow(event, identity, c.value, "", "identity_default", now, 0, "user-default", IdentityOverlay)]);
  }

  method SetDenied(s: Store, identity: string, denied: bool, now: int64) returns (o: OpOutcome)
    ensures o == Spec.SetDenied(s, identity, denied, now)
  {
    if s.corrupt { return Refuse(s, "corrupt-store"); }
    if identity == "" { return Refuse(s, "bad-identity"); }
    o := Done(s, []);
    var prev := identity in s.identities && s.identities[identity].denied;
    if prev == denied { return; }
    o := o.(store := Put(o.store, identity, Record(s, identity).(denied := denied)));
    var event := if denied then Revoke else Grant;
    var order := [Geolocation, Camera, Microphone, Notifications];
    for i := 0 to 4
      invariant o.ok && o.error == "" && o.store == Put(s, identity, Record(s, identity).(denied := denied))
      invariant o.rows == Spec.SetDenied(s, identity, denied, now).rows[..i]
    {
      o := o.(rows := o.rows + [AuditRow(event, identity, order[i], "", "identity_deny_list", now, 0, "fortress-deny-list", IdentityOverlay)]);
    }
  }

  // The fresh id of a grant

  method AnyHasId(gs: seq<StoredGrant>, id: string) returns (found: bool)
    ensures found <==> HasId(gs, id)
  {
    for i := 0 to |gs|
      invariant forall j | 0 <= j < i :: gs[j].id != id
    {
      if gs[i].id == id { return true; }
    }
    return false;
  }

  method IdTaken(s: Store, id: string) returns (taken: bool)
    ensures taken <==> id in StoreIds(s.identities)
  {
    StoreIdsAre(s.identities, id);
    hide StoreIds, HasId, SortedKeys;
    var keys := KeysInOrder(s.identities.Keys);
    for n := 0 to |keys|
      invariant forall m | 0 <= m < n :: !HasId(s.identities[keys[m]].grants, id)
    {
      var found := AnyHasId(s.identities[keys[n]].grants, id);
      if found { return true; }
    }
    forall k | k in s.identities ensures !HasId(s.identities[k].grants, id) { assert k in keys; }
    return false;
  }

  lemma FreeTurn(taken: set<string>, n: nat)
    ensures NextFree(taken, n) == if GrantId(n) in taken then NextFree(taken - {GrantId(n)}, n + 1) else n
  {
  }

  /** The do-while of the source: count up until the id is not in the store. */
  method FreshId(s: Store) returns (id: string, next: nat)
    ensures var n := NextFree(StoreIds(s.identities), s.nextSeq); id == GrantId(n) && next == n + 1
  {
    ghost var ids := StoreIds(s.identities);
    ghost var rest := ids;
    hide NextFree, GrantId, StoreIds;
    next := s.nextSeq;
    while true
      invariant NextFree(rest, next) == NextFree(ids, s.nextSeq)
      invariant rest <= ids && forall m: nat | next <= m && GrantId(m) in ids :: GrantId(m) in rest
      decreases |rest|
    {
      FreeTurn(rest, next);
      id := GrantId(next);
      next := next + 1;
      var taken := IdTaken(s, id);
      if !taken { return; }
      forall m: nat | next <= m && GrantId(m) in ids ensures GrantId(m) != id { GrantIdsDiffer(next - 1, m); }
      rest := rest - {id};
    }
  }

  method GrantTemp(s: Store, req: GrantRequest, now: int64) returns (o: OpOutcome)
    ensures o == Spec.GrantTemp(s, req, now)
  {
    hide StoreIds, NextFree, GrantId, RedactOrigin, ParseCapability, ParseScope, Record;
    if s.corrupt { return Refuse(s, "corrupt-store"); }
    if req.identity == "" { return Refuse(s, "bad-identity"); }
    var origin := RedactOrigin(req.domain);
    if origin.None? { return Refuse(s, "bad-domain"); }
    var c := ParseCapability(req.capability);
    if c.None? { return Refuse(s, "bad-capability"); }
    var sc := ParseScope(req.scope);
    if sc.None? { return Refuse(s, "bad-scope"); }
    if sc.value == Session && req.sessionId == "" { return Refuse(s, "bad-session"); }
    if sc.value != Session && req.sessionId != "" { return Refuse(s, "bad-session"); }
    if sc.value == SevenDays && now > INT64_MAX - SEVEN_DAYS_MILLIS { return Refuse(s, "bad-time"); }
    var g := StoredGrant("", req.identity, req.domain, c.value, sc.value, now, 0, "", 0, false, 0);
    match sc.value {
      case Once => g := g.(remainingUses := 1);
      case Session => g := g.(sessionId := req.sessionId);
      case SevenDays => g := g.(expiresAt := now + SEVEN_DAYS_MILLIS);
    }
    o := Done(s, []);
    var id, next := FreshId(s);
    g := g.(id := id);
    var r := Record(s, req.identity);
    o := o.(store := Put(o.store, req.identity, r.(grants := r.grants + [g])).(nextSeq := next));
    o := o.(rows := o.rows + [TempRow(Grant, req.identity, g, now, "user-grant", IdentityOverlay)]);
    assert g == NewGrant(id, req, now);
  }

  // Spending

  lemma {:induction false} HolderIs(ks: seq<string>, ids: map<string, IdentityRecord>, id: string, n: nat)
    requires (forall k | k in ks :: k in ids) && n <= |ks| && forall m | 0 <= m < n :: !Holds(ids[ks[m]], id)
    ensures n < |ks| && Holds(ids[ks[n]], id) ==> FindHolder(ks, ids, id) == Some(ks[n])
    ensures n == |ks| ==> FindHolder(ks, ids, id).None?
  {
    hide Holds;
    if 0 < n { HolderIs(ks[1..], ids, id, n - 1); }
  }

  /** The position of the first live grant with this id, or the length. */
  method FindLive(gs: seq<StoredGrant>, id: string) returns (i: nat)
    ensures i == FindGrant(gs, id)
  {
    i := 0;
    while i < |gs| && (gs[i].revoked || gs[i].id != id)
      invariant i <= |gs| && forall j | 0 <= j < i :: gs[j].revoked || gs[j].id != id
    {
      i := i + 1;
    }
    ghost var j := FindGrant(gs, id);
    assert !(i < j) && !(j < i);
  }

  lemma SpecOfConsume(s: Store, id: string, now: int64, keys: seq<string>, n: nat)
    requires !s.corrupt && keys == SortedKeys(s.identities.Keys) && n <= |keys|
    requires forall m | 0 <= m < n :: !Holds(s.identities[keys[m]], id)
    ensures n == |keys| ==> Spec.ConsumeOnce(s, id, now) == Refuse(s, "unknown-grant")
    ensures n < |keys| && Holds(s.identities[keys[n]], id) ==>
              var r := s.identities[keys[n]];
              var g := r.grants[FindGrant(r.grants, id)];
              Spec.ConsumeOnce(s, id, now)
              == (if g.scope != Once || g.remainingUses <= 0 then Refuse(s, "unknown-grant")
                  else Done(Put(s, keys[n], r.(grants := Without(r.grants, FindGrant(r.grants, id)))),
                            [TempRow(Expiry, keys[n], g, now, "used", DecidingAfter(r, g.capability))]))
  {
    hide FindHolder, FindGrant, SortedKeys, TempRow, Without, DecidingAfter;
    HolderIs(keys, s.identities, id, n);
  }

  lemma HoldsIs(r: IdentityRecord, id: string)
    ensures Holds(r, id) <==> FindGrant(r.grants, id) < |r.grants|
  {
  }

  lemma SpecOfCorrupt(s: Store, id: string, now: int64, session: string)
    requires s.corrupt
    ensures Spec.ConsumeOnce(s, id, now) == Refuse(s, "corrupt-store") == Spec.SweepExpired(s, now, session)
  {
  }

  method ConsumeOnce(s: Store, id: string, now: int64) returns (o: OpOutcome)
    ensures o == Spec.ConsumeOnce(s, id, now)
  {
    hide *;
    if s.corrupt {
      SpecOfCorrupt(s, id, now, "");
      return Refuse(s, "corrupt-store");
    }
    var ids := s.identities;
    var keys := KeysInOrder(ids.Keys);
    for n := 0 to |keys|
      invariant forall m | 0 <= m < n :: !Holds(ids[keys[m]], id)
    {
      var r := ids[keys[n]];
      var i := FindLive(r.grants, id);
      HoldsIs(r, id);
      if i < |r.grants| {
        SpecOfConsume(s, id, now, keys, n);
        var g := r.grants[i];
        if g.scope != Once || g.remainingUses <= 0 { return Refuse(s, "unknown-grant"); }
        var row := TempRow(Expiry, keys[n], g, now, "used", DecidingAfter(r, g.capability));
        return Done(Put(s, keys[n], r.(grants := Without(r.grants, i))), [row]);
      }
    }
    SpecOfConsume(s, id, now, keys, |keys|);
    return Refuse(s, "unknown-grant");
  }

  // Sweeping

  /** One identity: what is kept, and a row for each grant that ended. */
  method SweepRecord(key: string, r: IdentityRecord, now: int64, session: string) returns (kept: seq<StoredGrant>, rows: seq<AuditRow>)
    ensures kept == Kept(r.grants, now, session) && rows == SweepRows(key, r, r.grants, now, session)
  {
    kept, rows := [], [];
    var gs := r.grants;
    for i := 0 to |gs|
      invariant kept == Kept(gs[..i], now, session) && rows == SweepRows(key, r, gs[..i], now, session)
    {
      hide TempRow, DecidingAfter;
      var g := gs[i];
      assert gs[..i + 1][..i] == gs[..i];
      if g.revoked { kept := kept + [g]; continue; }
      var reason := None;
      if g.scope == Once && g.remainingUses <= 0 { reason := Some("used"); }
      else if g.scope == SevenDays && g.expiresAt <= now { reason := Some("ttl"); }
      else if g.scope == Session && g.sessionId != session { reason := Some("session_end"); }
      if reason.None? { kept := kept + [g]; continue; }
      rows := rows + [TempRow(Expiry, key, g, now, reason.value, DecidingAfter(r, g.capability))];
    }
    assert gs[..|gs|] == gs;
  }

  /** The records once the first identities have been swept. */
  ghost predicate SweptUpTo(ids: map<string, IdentityRecord>, swept: map<string, IdentityRecord>, done: seq<string>, now: int64, session: string) {
    swept.Keys == ids.Keys
    && forall k | k in ids :: swept[k] == if k in done then ids[k].(grants := Kept(ids[k].grants, now, session)) else ids[k]
  }

  lemma SweptTurn(ids: map<string, IdentityRecord>, swept: map<string, IdentityRecord>, keys: seq<string>, n: nat, now: int64, session: string)
    requires n < |keys| && keys[n] in ids && SweptUpTo(ids, swept, keys[..n], now, session)
    ensures SweptUpTo(ids, swept[keys[n] := ids[keys[n]].(grants := Kept(ids[keys[n]].grants, now, session))], keys[..n + 1], now, session)
  {
    hide Kept;
    forall x ensures x in keys[..n + 1] <==> x in keys[..n] || x == keys[n] { assert keys[..n + 1] == keys[..n] + [keys[n]]; }
  }

  lemma RowsTurn(keys: seq<string>, ids: map<string, IdentityRecord>, n: nat, now: int64, session: string)
    requires n < |keys| && forall k | k in keys :: k in ids
    ensures SweepAllRows(keys[..n + 1], ids, now, session)
            == SweepAllRows(keys[..n], ids, now, session) + SweepRows(keys[n], ids[keys[n]], ids[keys[n]].grants, now, session)
  {
    hide SweepRows;
    assert keys[..n + 1][..n] == keys[..n];
  }

  method SweepExpired(s: Store, now: int64, session: string) returns (o: OpOutcome)
    ensures o == Spec.SweepExpired(s, now, session)
  {
    hide *;
    if s.corrupt {
      SpecOfCorrupt(s, "", now, session);
      return Refuse(s, "corrupt-store");
    }
    var ids := s.identities;
    var keys := KeysInOrder(ids.Keys);
    var swept, rows := ids, [];
    NoRows(ids, now, session);
    for n := 0 to |keys|
      invariant rows == SweepAllRows(keys[..n], ids, now, session) && SweptUpTo(ids, swept, keys[..n], now, session)
    {
      var kept, some := SweepRecord(keys[n], ids[keys[n]], now, session);
      RowsTurn(keys, ids, n, now, session);
      SweptTurn(ids, swept, keys, n, now, session);
      rows := rows + some;
      swept := swept[keys[n] := ids[keys[n]].(grants := kept)];
    }
    assert keys[..|keys|] == keys;
    SpecOfSweep(s, now, session, keys, swept);
    return Done(s.(identities := swept), rows);
  }

  lemma NoRows(ids: map<string, IdentityRecord>, now: int64, session: string)
    ensures SweepAllRows([], ids, now, session) == []
    ensures SweptUpTo(ids, ids, [], now, session)
  {
  }

  lemma SpecOfSweep(s: Store, now: int64, session: string, keys: seq<string>, swept: map<string, IdentityRecord>)
    requires !s.corrupt && keys == SortedKeys(s.identities.Keys) && SweptUpTo(s.identities, swept, keys, now, session)
    ensures Spec.SweepExpired(s, now, session) == Done(s.(identities := swept), SweepAllRows(keys, s.identities, now, session))
  {
    hide SweepAllRows, Kept, SortedKeys;
    assert swept == SweptRecords(s.identities, now, session);
  }

  // Revoking

  lemma RevokeTurn(key: string, r: IdentityRecord, gs: seq<StoredGrant>, i: nat, site: Option<string>, now: int64, reason: string)
    requires i < |gs|
    ensures RevokeRows(key, r, gs[..i + 1], site, now, reason)
            == RevokeRows(key, r, gs[..i], site, now, reason)
               + (if ToRevoke(gs[i], site) then [TempRow(Revoke, key, gs[i], now, reason, DecidingAfter(r, gs[i].capability))] else [])
    ensures RevokeRows(key, r, [], site, now, reason) == []
  {
    hide TempRow, DecidingAfter, ToRevoke;
    assert gs[..i + 1][..i] == gs[..i];
  }

  lemma NoneRevoked(key: string, r: IdentityRecord, site: Option<string>, now: int64, reason: string)
    ensures RevokeRows(key, r, [], site, now, reason) == []
  {
  }

  /** The loop of both revocations: live grants (of one site, or all) become tombstones, with a row each. */
  method RevokeGrants(key: string, r: IdentityRecord, site: Option<string>, now: int64, reason: string) returns (gs: seq<StoredGrant>, rows: seq<AuditRow>)
    ensures gs == Tombstones(r.grants, site, now) && rows == RevokeRows(key, r, r.grants, site, now, reason)
  {
    hide Tombstones, TempRow, DecidingAfter, RevokeRows;
    gs, rows := r.grants, [];
    NoneRevoked(key, r, site, now, reason);
    assert r.grants[..0] == [];
    for i := 0 to |gs|
      invariant |gs| == |r.grants| && rows == RevokeRows(key, r, r.grants[..i], site, now, reason)
      invariant forall j | 0 <= j < i :: gs[j] == Tombstone(r.grants[j], site, now)
      invariant forall j | i <= j < |gs| :: gs[j] == r.grants[j]
    {
      RevokeTurn(key, r, r.grants, i, site, now, reason);
      var g := gs[i];
      if g.revoked || (site.Some? && g.domain != site.value) { continue; }
      gs := gs[i := g.(revoked := true, revokedAt := now)];
      rows := rows + [TempRow(Revoke, key, g, now, reason, DecidingAfter(r, g.capability))];
    }
    assert r.grants[..|r.grants|] == r.grants;
    assert gs == Tombstones(r.grants, site, now);
  }

  method RevokeSite(s: Store, identity: string, domain: string, now: int64) returns (o: OpOutcome)
    ensures o == Spec.RevokeSite(s, identity, domain, now)
  {
    hide RedactOrigin, Tombstones, RevokeRows;
    if s.corrupt { return Refuse(s, "corrupt-store"); }
    if identity == "" { return Refuse(s, "bad-identity"); }
    if RedactOrigin(domain).None? { return Refuse(s, "bad-domain"); }
    if identity !in s.identities { return Done(s, []); }
    var r := s.identities[identity];
    var gs, rows := RevokeGrants(identity, r, Some(domain), now, "revoke_site");
    return Done(Put(s, identity, r.(grants := gs)), rows);
  }

  /** The rows of the first `n` capabilities. */
  ghost function ClearedUpTo(identity: string, r: IdentityRecord, now: int64, n: nat): seq<AuditRow> {
    (if n > 0 then ClearedRow(identity, r, Geolocation, now) else []) + (if n > 1 then ClearedRow(identity, r, Camera, now) else [])
    + (if n > 2 then ClearedRow(identity, r, Microphone, now) else []) + (if n > 3 then ClearedRow(identity, r, Notifications, now) else [])
  }

  lemma ClearedTurn(identity: string, r: IdentityRecord, now: int64, c: Capability, n: nat)
    requires n < 4 && c == [Geolocation, Camera, Microphone, Notifications][n]
    ensures ClearedUpTo(identity, r, now, n + 1) == ClearedUpTo(identity, r, now, n) + ClearedRow(identity, r, c, now)
    ensures ClearedUpTo(identity, r, now, 0) == [] && ClearedUpTo(identity, r, now, 4) == ClearedRows(identity, r, now)
  {
    hide ClearedRow;
  }

  method ClearDefaults(identity: string, r: IdentityRecord, now: int64) returns (defaults: map<Capability, CapState>, rows: seq<AuditRow>)
    ensures defaults == map[] && rows == ClearedRows(identity, r, now)
  {
    hide ClearedUpTo, ClearedRows;
    var order := [Geolocation, Camera, Microphone, Notifications];
    defaults, rows := r.defaults, [];
    ClearedTurn(identity, r, now, Geolocation, 0);
    for i := 0 to 4
      invariant forall c: Capability :: c in defaults <==> c in r.defaults && c !in order[..i]
      invariant rows == ClearedUpTo(identity, r, now, i)
    {
      var c := order[i];
      assert order[..i + 1] == order[..i] + [c] && c !in order[..i];
      ClearedTurn(identity, r, now, c, i);
      if c in defaults {
        rows := rows + [AuditRow(Revoke, identity, c, "", "identity_default", now, 0, "revoke_all", GlobalFallback)];
        defaults := defaults - {c};
      }
    }
    forall c: Capability ensures c !in defaults { AllCapabilities(c); }
    assert defaults == map[];
  }

  /** The defaults are cleared first, one row each, so the rows of the grants see none. */
  method RevokeAll(s: Store, identity: string, now: int64) returns (o: OpOutcome)
    ensures o == Spec.RevokeAll(s, identity, now)
  {
    hide Tombstones, RevokeRows, ClearedRows;
    if s.corrupt { return Refuse(s, "corrupt-store"); }
    if identity == "" { return Refuse(s, "bad-identity"); }
    if identity !in s.identities { return Done(s, []); }
    var r := s.identities[identity];
    var defaults, rows := ClearDefaults(identity, r, now);
    var bare := r.(defaults := defaults);
    var gs, revoked := RevokeGrants(identity, bare, None, now, "revoke_all");
    return Done(Put(s, identity, bare.(grants := gs)), rows + revoked);
  }

  lemma AllCapabilities(c: Capability)
    ensures c in [Geolocation, Camera, Microphone, Notifications][..4]
  {
    var order := [Geolocation, Camera, Microphone, Notifications];
    assert order[..4] == order && order[0] == Geolocation && order[1] == Camera && order[2] == Microphone && order[3] == Notifications;
  }
}
