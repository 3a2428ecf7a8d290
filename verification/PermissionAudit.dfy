/**
  The audit rows account for the live grants: replaying them, row by row, turns the live grants before an
  operation into the live grants after it, and never removes one that is not there.
 */
module PermissionAudit {
  import opened Wrappers
  import opened Order
  import opened PermissionTypes
  import opened PermissionOps
  import opened PermissionInvariants

  /** What a row can say about a grant. */
  datatype Sig = Sig(domain: string, capability: Capability, scope: string)

  function SigOf(g: StoredGrant): Sig { Sig(g.domain, g.capability, ScopeName(g.scope)) }

  function LiveSig(g: StoredGrant): multiset<Sig> { if g.revoked then multiset{} else multiset{SigOf(g)} }

  /** The grants of one identity that are not tombstones, with repetitions. */
  function LiveSigs(gs: seq<StoredGrant>): multiset<Sig> {
    if gs == [] then multiset{} else LiveSigs(gs[..|gs| - 1]) + LiveSig(gs[|gs| - 1])
  }

  predicate IsTemporary(row: AuditRow) { ParseScope(row.scope).Some? }

  /** One row read back: a temporary grant adds, a revocation or expiry takes one away that must be there. */
  function ReplayRow(m: Option<multiset<Sig>>, row: AuditRow, identity: string): Option<multiset<Sig>> {
    if m.None? || row.identity != identity || !IsTemporary(row) then m
    else
      var sig := Sig(row.origin, row.capability, row.scope);
      if row.event == Grant then Some(m.value + multiset{sig})
      else if sig in m.value then Some(m.value - multiset{sig})
      else None
  }

  function Replay(m: Option<multiset<Sig>>, rows: seq<AuditRow>, identity: string): Option<multiset<Sig>> {
    if rows == [] then m else ReplayRow(Replay(m, rows[..|rows| - 1], identity), rows[|rows| - 1], identity)
  }

  lemma {:induction false} ReplayAppend(m: Option<multiset<Sig>>, a: seq<AuditRow>, b: seq<AuditRow>, identity: string)
    ensures Replay(m, a + b, identity) == Replay(Replay(m, a, identity), b, identity)
  {
    hide ReplayRow;
    if b == [] {
      assert a + b == a;
    } else {
      var front := b[..|b| - 1];
      assert (a + b)[..|a + b| - 1] == a + front;
      ReplayAppend(m, a, front, identity);
    }
  }

  /** Grants that no row mentions stay. */
  lemma {:induction false} ReplayFrame(m: multiset<Sig>, x: multiset<Sig>, rows: seq<AuditRow>, identity: string)
    requires Replay(Some(m), rows, identity).Some?
    ensures Replay(Some(m + x), rows, identity) == Some(Replay(Some(m), rows, identity).value + x)
  {
    if rows != [] {
      var front, row := rows[..|rows| - 1], rows[|rows| - 1];
      assert Replay(Some(m), front, identity).Some?;
      ReplayFrame(m, x, front, identity);
      var n := Replay(Some(m), front, identity).value;
      var sig := Sig(row.origin, row.capability, row.scope);
      hide Replay, IsTemporary;
      if sig in n { assert (n + x) - multiset{sig} == (n - multiset{sig}) + x; }
      assert (n + x) + multiset{sig} == (n + multiset{sig}) + x;
    }
  }

  /** Rows about other identities, or about no temporary grant, change nothing. */
  ghost predicate Silent(row: AuditRow, identity: string) { row.identity != identity || !IsTemporary(row) }

  lemma {:induction false} ReplaySilent(m: Option<multiset<Sig>>, rows: seq<AuditRow>, identity: string)
    requires forall i | 0 <= i < |rows| :: Silent(rows[i], identity)
    ensures Replay(m, rows, identity) == m
  {
    if rows != [] { ReplaySilent(m, rows[..|rows| - 1], identity); }
  }

  lemma TempRowReplays(m: multiset<Sig>, e: AuditEvent, key: string, g: StoredGrant, now: int64, reason: string, layer: DecidingLayer)
    ensures var r := ReplayRow(Some(m), TempRow(e, key, g, now, reason, layer), key);
            && (e == Grant ==> r == Some(m + multiset{SigOf(g)}))
            && (e != Grant && SigOf(g) in m ==> r == Some(m - multiset{SigOf(g)}))
    ensures Replay(Some(m), [TempRow(e, key, g, now, reason, layer)], key) == ReplayRow(Some(m), TempRow(e, key, g, now, reason, layer), key)
  {
    NamesRoundTrip(Deny, g.capability, g.scope, "");
    var row := TempRow(e, key, g, now, reason, layer);
    assert [row][..0] == [];
    hide ScopeName, ParseScope;
  }

  lemma {:induction false} LiveAppend(a: seq<StoredGrant>, b: seq<StoredGrant>)
    ensures LiveSigs(a + b) == LiveSigs(a) + LiveSigs(b)
  {
    hide LiveSig;
    if b == [] {
      assert a + b == a;
    } else {
      assert (a + b)[..|a + b| - 1] == a + b[..|b| - 1];
      LiveAppend(a, b[..|b| - 1]);
    }
  }

  lemma OneLive(g: StoredGrant)
    ensures LiveSigs([g]) == LiveSig(g)
  {
    assert [g][..0] == [];
  }

  lemma LiveWithout(gs: seq<StoredGrant>, i: nat)
    requires i < |gs| && !gs[i].revoked
    ensures LiveSigs(gs) == LiveSigs(Without(gs, i)) + multiset{SigOf(gs[i])}
  {
    hide LiveSigs;
    LiveAppend(gs[..i], [gs[i]]);
    LiveAppend(gs[..i] + [gs[i]], gs[i + 1..]);
    LiveAppend(gs[..i], gs[i + 1..]);
    OneLive(gs[i]);
    assert gs[..i] + [gs[i]] + gs[i + 1..] == gs;
  }

  /** The row of an ended grant, after the rows of the grants before it. */
  lemma ReplayEnds(m: multiset<Sig>, n: multiset<Sig>, rows: seq<AuditRow>, e: AuditEvent, key: string, g: StoredGrant, now: int64, reason: string, layer: DecidingLayer)
    requires Replay(Some(m), rows, key) == Some(n) && e != Grant && !g.revoked
    ensures Replay(Some(m + LiveSig(g)), rows + [TempRow(e, key, g, now, reason, layer)], key) == Some(n)
  {
    ReplayFrame(m, LiveSig(g), rows, key);
    TempRowReplays(n + LiveSig(g), e, key, g, now, reason, layer);
    ReplayAppend(Some(m + LiveSig(g)), rows, [TempRow(e, key, g, now, reason, layer)], key);
    hide Replay, ReplayRow, SigOf;
    assert n + multiset{SigOf(g)} - multiset{SigOf(g)} == n;
  }

  // The rows of a sweep and of a revocation

  lemma {:induction false} SweepRowsReplay(key: string, r: IdentityRecord, gs: seq<StoredGrant>, now: int64, session: string)
    ensures Replay(Some(LiveSigs(gs)), SweepRows(key, r, gs, now, session), key) == Some(LiveSigs(Kept(gs, now, session)))
  {
    hide Replay, LiveSig, TempRow;
    if gs == [] {
      ReplaySilent(Some(multiset{}), [], key);
    } else {
      var front, g := gs[..|gs| - 1], gs[|gs| - 1];
      var rows, kept := SweepRows(key, r, front, now, session), Kept(front, now, session);
      SweepRowsReplay(key, r, front, now, session);
      if EndReason(g, now, session).Some? {
        ReplayEnds(LiveSigs(front), LiveSigs(kept), rows, Expiry, key, g, now, EndReason(g, now, session).value, DecidingAfter(r, g.capability));
        assert kept + [] == kept;
      } else {
        ReplayFrame(LiveSigs(front), LiveSig(g), rows, key);
        LiveAppend(kept, [g]);
        OneLive(g);
        assert rows + [] == rows;
      }
    }
  }

  lemma {:induction false} RevokeRowsReplay(key: string, r: IdentityRecord, gs: seq<StoredGrant>, site: Option<string>, now: int64, reason: string)
    ensures Replay(Some(LiveSigs(gs)), RevokeRows(key, r, gs, site, now, reason), key) == Some(LiveSigs(Tombstones(gs, site, now)))
  {
    hide Replay, TempRow, LiveSig;
    if gs == [] {
      ReplaySilent(Some(multiset{}), [], key);
    } else {
      var front, g := gs[..|gs| - 1], gs[|gs| - 1];
      var rows, ts, t := RevokeRows(key, r, front, site, now, reason), Tombstones(front, site, now), Tombstone(g, site, now);
      RevokeRowsReplay(key, r, front, site, now, reason);
      LiveAppend(ts, [t]);
      OneLive(t);
      DeadCountsNothing(t);
      hide LiveSigs;
      if ToRevoke(g, site) {
        ReplayEnds(LiveSigs(front), LiveSigs(ts), rows, Revoke, key, g, now, reason, DecidingAfter(r, g.capability));
      } else {
        ReplayFrame(LiveSigs(front), LiveSig(g), rows, key);
        assert rows + [] == rows;
      }
      assert LiveSigs(gs) == LiveSigs(front) + LiveSig(g) by { LiveTurn(gs); }
    }
  }

  lemma LiveTurn(gs: seq<StoredGrant>)
    requires gs != []
    ensures LiveSigs(gs) == LiveSigs(gs[..|gs| - 1]) + LiveSig(gs[|gs| - 1])
  {
  }

  lemma DeadCountsNothing(t: StoredGrant)
    ensures t.revoked ==> forall m: multiset<Sig> :: m + LiveSig(t) == m
  {
  }

  lemma {:induction false} SweepRowsName(key: string, r: IdentityRecord, gs: seq<StoredGrant>, now: int64, session: string)
    ensures forall i | 0 <= i < |SweepRows(key, r, gs, now, session)| :: SweepRows(key, r, gs, now, session)[i].identity == key
  {
    if gs != [] { SweepRowsName(key, r, gs[..|gs| - 1], now, session); }
  }

  lemma {:induction false} RevokeRowsName(key: string, r: IdentityRecord, gs: seq<StoredGrant>, site: Option<string>, now: int64, reason: string)
    ensures forall i | 0 <= i < |RevokeRows(key, r, gs, site, now, reason)| :: RevokeRows(key, r, gs, site, now, reason)[i].identity == key
  {
    if gs != [] { RevokeRowsName(key, r, gs[..|gs| - 1], site, now, reason); }
  }

  lemma {:induction false} SweepAllReplay(ks: seq<string>, ids: map<string, IdentityRecord>, now: int64, session: string, key: string)
    requires forall k | k in ks :: k in ids
    requires forall i, j | 0 <= i < j < |ks| :: ks[i] != ks[j]
    ensures key in ks ==> Replay(Some(LiveSigs(ids[key].grants)), SweepAllRows(ks, ids, now, session), key)
                          == Some(LiveSigs(Kept(ids[key].grants, now, session)))
    ensures key !in ks ==> forall m :: Replay(m, SweepAllRows(ks, ids, now, session), key) == m
  {
    hide SweepRows, LiveSigs, Kept, Replay;
    if ks == [] {
      forall m ensures Replay(m, [], key) == m { ReplaySilent(m, [], key); }
    } else {
      var front, k := ks[..|ks| - 1], ks[|ks| - 1];
      SweepAllReplay(front, ids, now, session, key);
      var before, rows := SweepAllRows(front, ids, now, session), SweepRows(k, ids[k], ids[k].grants, now, session);
      SweepRowsReplay(k, ids[k], ids[k].grants, now, session);
      SweepRowsName(k, ids[k], ids[k].grants, now, session);
      forall m ensures Replay(m, before + rows, key) == Replay(Replay(m, before, key), rows, key) { ReplayAppend(m, before, rows, key); }
      if key != k { forall m ensures Replay(m, rows, key) == m { ReplaySilent(m, rows, key); } }
      assert key in ks <==> key in front || key == k by { assert ks == front + [k]; }
    }
  }

  // Every operation

  lemma GrantReplays(s: Store, req: GrantRequest, now: int64, key: string)
    ensures Replay(Some(LiveSigs(Record(s, key).grants)), GrantTemp(s, req, now).rows, key)
            == Some(LiveSigs(GrantsAfter(s, OpGrant(req), now, key)))
  {
    var gs := Record(s, key).grants;
    hide NextFree, GrantId, StoreIds, GrantRefusal, Replay, LiveSigs;
    if GrantRefusal(s, req, now).None? {
      GrantParses(s, req, now);
      var g := NewGrant(GrantId(NextFree(StoreIds(s.identities), s.nextSeq)), req, now);
      var row := TempRow(Grant, req.identity, g, now, "user-grant", IdentityOverlay);
      assert GrantTemp(s, req, now).rows == [row];
      if req.identity == key {
        TempRowReplays(LiveSigs(gs), Grant, key, g, now, "user-grant", IdentityOverlay);
        LiveAppend(gs, [g]);
        OneLive(g);
      } else {
        ReplaySilent(Some(LiveSigs(gs)), [row], key);
      }
    } else {
      ReplaySilent(Some(LiveSigs(gs)), [], key);
    }
  }

  lemma ConsumeReplays(s: Store, id: string, now: int64, key: string)
    ensures Replay(Some(LiveSigs(Record(s, key).grants)), ConsumeOnce(s, id, now).rows, key)
            == Some(LiveSigs(GrantsAfter(s, OpConsume(id), now, key)))
  {
    var gs := Record(s, key).grants;
    hide FindHolder, FindGrant, Replay, LiveSigs, Without, SortedKeys, DecidingAfter, TempRow;
    var o := ConsumeOnce(s, id, now);
    if o.ok {
      var k := FindHolder(SortedKeys(s.identities.Keys), s.identities, id).value;
      if k == key {
        UseReplays(key, gs, FindGrant(gs, id), now, DecidingAfter(s.identities[k], gs[FindGrant(gs, id)].capability));
      } else {
        assert o.rows[0].identity == k by { hide ConsumeOnce; TempRowNames(s, id, now); }
        ReplaySilent(Some(LiveSigs(gs)), o.rows, key);
      }
    } else {
      ReplaySilent(Some(LiveSigs(gs)), [], key);
    }
  }

  lemma TempRowNames(s: Store, id: string, now: int64)
    requires ConsumeOnce(s, id, now).ok
    ensures |ConsumeOnce(s, id, now).rows| == 1
    ensures Some(ConsumeOnce(s, id, now).rows[0].identity) == FindHolder(SortedKeys(s.identities.Keys), s.identities, id)
  {
    hide FindHolder, FindGrant, Without, SortedKeys, DecidingAfter;
  }

  lemma UseReplays(key: string, gs: seq<StoredGrant>, i: nat, now: int64, layer: DecidingLayer)
    requires i < |gs| && !gs[i].revoked
    ensures Replay(Some(LiveSigs(gs)), [TempRow(Expiry, key, gs[i], now, "used", layer)], key) == Some(LiveSigs(Without(gs, i)))
  {
    hide Replay, ReplayRow, LiveSigs, Without, TempRow, SigOf;
    LiveWithout(gs, i);
    TempRowReplays(LiveSigs(gs), Expiry, key, gs[i], now, "used", layer);
    var rest := LiveSigs(Without(gs, i));
    assert rest + multiset{SigOf(gs[i])} - multiset{SigOf(gs[i])} == rest;
  }

  lemma SweepReplays(s: Store, session: string, now: int64, key: string)
    ensures Replay(Some(LiveSigs(Record(s, key).grants)), SweepExpired(s, now, session).rows, key)
            == Some(LiveSigs(GrantsAfter(s, OpSweep(session), now, key)))
  {
    if s.corrupt {
      ReplaySilent(Some(LiveSigs(Record(s, key).grants)), [], key);
    } else {
      var ks := SortedKeys(s.identities.Keys);
      KeysDiffer(s.identities.Keys);
      hide Replay, LiveSigs, Kept, SweepAllRows, SortedKeys;
      SweepAllReplay(ks, s.identities, now, session, key);
      KeptNone(now, session);
    }
  }

  lemma KeysDiffer(keys: set<string>)
    ensures var ks := SortedKeys(keys); forall i, j | 0 <= i < j < |ks| :: ks[i] != ks[j]
  {
    StringsAreOrdered();
    hide Less, SortedKeys;
  }

  lemma KeptNone(now: int64, session: string)
    ensures Kept([], now, session) == []
  {
  }

  lemma RevokeSiteReplays(s: Store, id: string, domain: string, now: int64, key: string)
    ensures Replay(Some(LiveSigs(Record(s, key).grants)), RevokeSite(s, id, domain, now).rows, key)
            == Some(LiveSigs(GrantsAfter(s, OpRevokeSite(id, domain), now, key)))
  {
    var gs := Record(s, key).grants;
    hide Replay, LiveSigs, RevokeRows, Tombstones, RedactOrigin, Silent;
    var o := RevokeSite(s, id, domain, now);
    if o.ok && id in s.identities {
      var r := s.identities[id];
      RevokeRowsReplay(id, r, r.grants, Some(domain), now, "revoke_site");
      RevokeRowsName(id, r, r.grants, Some(domain), now, "revoke_site");
      if id != key { OthersSilent(o.rows, id, key); ReplaySilent(Some(LiveSigs(gs)), o.rows, key); }
    } else {
      NoTombstones(Some(domain), now);
      ReplaySilent(Some(LiveSigs(gs)), [], key);
    }
  }

  lemma NoTombstones(site: Option<string>, now: int64)
    ensures Tombstones([], site, now) == []
  {
  }

  lemma OthersSilent(rows: seq<AuditRow>, id: string, key: string)
    requires id != key && forall i | 0 <= i < |rows| :: rows[i].identity == id
    ensures forall i | 0 <= i < |rows| :: Silent(rows[i], key)
  {
  }

  lemma ClearedSilent(id: string, r: IdentityRecord, now: int64, key: string)
    ensures forall i | 0 <= i < |ClearedRows(id, r, now)| :: Silent(ClearedRows(id, r, now)[i], key) && ClearedRows(id, r, now)[i].identity == id
  {
    var rows := ClearedRows(id, r, now);
    forall i | 0 <= i < |rows| ensures rows[i].scope == "identity_default" && rows[i].identity == id { }
  }

  lemma RevokeAllReplays(s: Store, id: string, now: int64, key: string)
    ensures Replay(Some(LiveSigs(Record(s, key).grants)), RevokeAll(s, id, now).rows, key)
            == Some(LiveSigs(GrantsAfter(s, OpRevokeAll(id), now, key)))
  {
    var gs := Record(s, key).grants;
    hide Replay, LiveSigs, RevokeRows, Tombstones, ClearedRows, Silent;
    var o := RevokeAll(s, id, now);
    if o.ok && id in s.identities {
      var r := s.identities[id];
      var bare := r.(defaults := map[]);
      var cleared, revoked := ClearedRows(id, r, now), RevokeRows(id, bare, r.grants, None, now, "revoke_all");
      ClearedSilent(id, r, now, key);
      ReplaySilent(Some(LiveSigs(gs)), cleared, key);
      ReplayAppend(Some(LiveSigs(gs)), cleared, revoked, key);
      RevokeRowsReplay(id, bare, r.grants, None, now, "revoke_all");
      RevokeRowsName(id, bare, r.grants, None, now, "revoke_all");
      if id != key { OthersSilent(revoked, id, key); ReplaySilent(Some(LiveSigs(gs)), revoked, key); }
    } else {
      NoTombstones(None, now);
      ReplaySilent(Some(LiveSigs(gs)), [], key);
    }
  }

  lemma PlainReplays(s: Store, op: Op, now: int64, key: string)
    requires op.OpSetDefault? || op.OpSetDenied?
    ensures Replay(Some(LiveSigs(Record(s, key).grants)), Apply(s, op, now).rows, key) == Some(LiveSigs(GrantsAfter(s, op, now, key)))
  {
    hide Replay, LiveSigs, ParseCapability, ParseCapState;
    var rows := Apply(s, op, now).rows;
    forall i | 0 <= i < |rows| ensures Silent(rows[i], key) { assert rows[i].scope == "identity_default" || rows[i].scope == "identity_deny_list"; }
    ReplaySilent(Some(LiveSigs(Record(s, key).grants)), rows, key);
  }

  /** Conservation, one operation: its rows turn the live grants before it into the live grants after it. */
  lemma EveryOpAccounts(s: Store, op: Op, now: int64, key: string)
    ensures Replay(Some(LiveSigs(Record(s, key).grants)), Apply(s, op, now).rows, key)
            == Some(LiveSigs(Record(Apply(s, op, now).store, key).grants))
  {
    GrantsEffect(s, op, now, key);
    hide Replay, LiveSigs, GrantsAfter, SetDefault, SetDenied, GrantTemp, ConsumeOnce, SweepExpired, RevokeSite, RevokeAll;
    match op
    case OpSetDefault(_, _, _) => PlainReplays(s, op, now, key);
    case OpSetDenied(_, _) => PlainReplays(s, op, now, key);
    case OpGrant(req) => GrantReplays(s, req, now, key);
    case OpConsume(id) => ConsumeReplays(s, id, now, key);
    case OpSweep(session) => SweepReplays(s, session, now, key);
    case OpRevokeSite(id, domain) => RevokeSiteReplays(s, id, domain, now, key);
    case OpRevokeAll(id) => RevokeAllReplays(s, id, now, key);
  }

  // Whole runs

  ghost function RunRows(s: Store, steps: seq<Step>): seq<AuditRow> {
    if steps == [] then []
    else
      var front, last := steps[..|steps| - 1], steps[|steps| - 1];
      RunRows(s, front) + Apply(Run(s, front), last.op, last.now).rows
  }

  /** Conservation over every run and for every identity. */
  lemma {:induction false} RunAccounts(s: Store, steps: seq<Step>, key: string)
    ensures Replay(Some(LiveSigs(Record(s, key).grants)), RunRows(s, steps), key) == Some(LiveSigs(Record(Run(s, steps), key).grants))
  {
    hide Apply, Replay, LiveSigs;
    if steps == [] {
      ReplaySilent(Some(LiveSigs(Record(s, key).grants)), [], key);
    } else {
      var front, last := steps[..|steps| - 1], steps[|steps| - 1];
      RunAccounts(s, front, key);
      EveryOpAccounts(Run(s, front), last.op, last.now, key);
      ReplayAppend(Some(LiveSigs(Record(s, key).grants)), RunRows(s, front), Apply(Run(s, front), last.op, last.now).rows, key);
    }
  }

  /** Replaying the log of a run from the empty store, from nothing, rebuilds the live grants. */
  lemma LogRebuilds(steps: seq<Step>, key: string)
    ensures Replay(Some(multiset{}), RunRows(EMPTY_STORE, steps), key) == Some(LiveSigs(Record(Run(EMPTY_STORE, steps), key).grants))
  {
    RunAccounts(EMPTY_STORE, steps, key);
    assert LiveSigs(Record(EMPTY_STORE, key).grants) == multiset{};
  }
}
