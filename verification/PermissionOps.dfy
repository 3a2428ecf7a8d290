/**
  The operations on the overlay store, as functions from a store to an outcome: a new store and the audit rows
  of what changed, or a refusal token and the store as it was.
 */
module PermissionOps {
  import opened Wrappers
  import opened Order
  import opened JsonValue
  import opened PermissionTypes

  datatype OpOutcome = OpOutcome(ok: bool, error: string, store: Store, rows: seq<AuditRow>)

  function Refuse(s: Store, token: string): OpOutcome { OpOutcome(false, token, s, []) }
  function Done(s: Store, rows: seq<AuditRow>): OpOutcome { OpOutcome(true, "", s, rows) }

  // Origins: bare registrable domains

  predicate LabelChar(c: char) { 'a' <= c <= 'z' || '0' <= c <= '9' || c == '-' }

  predicate LabelOk(l: string) {
    0 < |l| <= 63 && l[0] != '-' && l[|l| - 1] != '-' && forall i | 0 <= i < |l| :: LabelChar(l[i])
  }

  function FirstDot(s: string): (d: nat)
    ensures d <= |s| && (d < |s| ==> s[d] == '.') && forall i | 0 <= i < d :: s[i] != '.'
  {
    if s == "" || s[0] == '.' then 0 else 1 + FirstDot(s[1..])
  }

  predicate LabelsOk(s: string)
    decreases |s|
  {
    var d := FirstDot(s);
    LabelOk(s[..d]) && (d < |s| ==> LabelsOk(s[d + 1..]))
  }

  function RedactOrigin(input: string): Option<string> {
    if 0 < |input| <= 253 && LabelsOk(input) then Some(input) else None
  }

  // Shared parts

  function Record(s: Store, identity: string): IdentityRecord {
    if identity in s.identities then s.identities[identity] else NO_RECORD
  }

  function Put(s: Store, identity: string, r: IdentityRecord): Store {
    s.(identities := s.identities[identity := r])
  }

  function DecidingAfter(r: IdentityRecord, c: Capability): DecidingLayer {
    if c in r.defaults then IdentityOverlay else GlobalFallback
  }

  function Ttl(sc: Scope): int { if sc == SevenDays then SEVEN_DAYS_MILLIS else 0 }

  // Defaults and the deny-list

  function DefaultRow(identity: string, c: Capability, st: CapState, now: int64): AuditRow {
    AuditRow(if st == Allow then Grant else Revoke, identity, c, "", "identity_default", now, 0, "user-default", IdentityOverlay)
  }

  function SetDefault(s: Store, identity: string, capability: string, state: string, now: int64): OpOutcome {
    if s.corrupt then Refuse(s, "corrupt-store")
    else if identity == "" then Refuse(s, "bad-identity")
    else if ParseCapability(capability).None? then Refuse(s, "bad-capability")
    else if ParseCapState(state).None? then Refuse(s, "bad-state")
    else
      var c, st := ParseCapability(capability).value, ParseCapState(state).value;
      var r := Record(s, identity);
      if c in r.defaults && r.defaults[c] == st then Done(s, [])
      else Done(Put(s, identity, r.(defaults := r.defaults[c := st])), [DefaultRow(identity, c, st, now)])
  }

  function DenyRow(identity: string, c: Capability, denied: bool, now: int64): AuditRow {
    AuditRow(if denied then Revoke else Grant, identity, c, "", "identity_deny_list", now, 0, "fortress-deny-list", IdentityOverlay)
  }

  function SetDenied(s: Store, identity: string, denied: bool, now: int64): OpOutcome {
    if s.corrupt then Refuse(s, "corrupt-store")
    else if identity == "" then Refuse(s, "bad-identity")
    else
      var r := Record(s, identity);
      if r.denied == denied then Done(s, [])
      else Done(Put(s, identity, r.(denied := denied)),
                [DenyRow(identity, Geolocation, denied, now), DenyRow(identity, Camera, denied, now),
                 DenyRow(identity, Microphone, denied, now), DenyRow(identity, Notifications, denied, now)])
  }

  // Temporary grants

  function GrantId(n: nat): string { "g" + Digits(n) }

  ghost function StoreIds(ids: map<string, IdentityRecord>): set<string> {
    set k, i | k in ids && 0 <= i < |ids[k].grants| :: ids[k].grants[i].id
  }

  /** The first number from `n` on whose id is free. */
  function NextFree(taken: set<string>, n: nat): (m: nat)
    ensures m >= n
    decreases |taken|
  {
    if GrantId(n) in taken then NextFree(taken - {GrantId(n)}, n + 1) else n
  }

  datatype GrantRequest = GrantRequest(identity: string, domain: string, capability: string, scope: string, sessionId: string)

  function GrantRefusal(s: Store, req: GrantRequest, now: int64): Option<string> {
    if s.corrupt then Some("corrupt-store")
    else if req.identity == "" then Some("bad-identity")
    else if RedactOrigin(req.domain).None? then Some("bad-domain")
    else if ParseCapability(req.capability).None? then Some("bad-capability")
    else if ParseScope(req.scope).None? then Some("bad-scope")
    else
      var sc := ParseScope(req.scope).value;
      if sc == Session && req.sessionId == "" then Some("bad-session")
      else if sc != Session && req.sessionId != "" then Some("bad-session")
      else if sc == SevenDays && now > INT64_MAX - SEVEN_DAYS_MILLIS then Some("bad-time")
      else None
  }

  function NewGrant(id: string, req: GrantRequest, now: int64): StoredGrant
    requires ParseCapability(req.capability).Some? && ParseScope(req.scope).Some?
    requires ParseScope(req.scope).value == SevenDays ==> now <= INT64_MAX - SEVEN_DAYS_MILLIS
  {
    var sc := ParseScope(req.scope).value;
    StoredGrant(id, req.identity, req.domain, ParseCapability(req.capability).value, sc, now,
                if sc == SevenDays then now + SEVEN_DAYS_MILLIS else 0,
                if sc == Session then req.sessionId else "",
                if sc == Once then 1 else 0, false, 0)
  }

  function TempRow(e: AuditEvent, identity: string, g: StoredGrant, now: int64, reason: string, layer: DecidingLayer): AuditRow {
    AuditRow(e, identity, g.capability, g.domain, ScopeName(g.scope), now, Ttl(g.scope), reason, layer)
  }

  ghost function GrantTemp(s: Store, req: GrantRequest, now: int64): OpOutcome {
    match GrantRefusal(s, req, now)
    case Some(token) => Refuse(s, token)
    case None =>
      var n := NextFree(StoreIds(s.identities), s.nextSeq);
      var g := NewGrant(GrantId(n), req, now);
      var r := Record(s, req.identity);
      Done(Put(s, req.identity, r.(grants := r.grants + [g])).(nextSeq := n + 1),
           [TempRow(Grant, req.identity, g, now, "user-grant", IdentityOverlay)])
  }

  // Spending a once grant

  /** The position of the first grant with this id that is not a tombstone. */
  function FindGrant(gs: seq<StoredGrant>, id: string): (i: nat)
    ensures i <= |gs| && (i < |gs| ==> !gs[i].revoked && gs[i].id == id)
    ensures forall j | 0 <= j < i :: gs[j].revoked || gs[j].id != id
  {
    if gs == [] || (!gs[0].revoked && gs[0].id == id) then 0 else 1 + FindGrant(gs[1..], id)
  }

  predicate Holds(r: IdentityRecord, id: string) { FindGrant(r.grants, id) < |r.grants| }

  /** The first identity, in key order, that holds it. */
  function FindHolder(ks: seq<string>, ids: map<string, IdentityRecord>, id: string): (k: Option<string>)
    requires forall k | k in ks :: k in ids
    ensures k.Some? ==> k.value in ids && Holds(ids[k.value], id)
    ensures k.None? ==> forall x | x in ks :: !Holds(ids[x], id)
  {
    if ks == [] then None else if Holds(ids[ks[0]], id) then Some(ks[0]) else FindHolder(ks[1..], ids, id)
  }

  function Without(gs: seq<StoredGrant>, i: nat): seq<StoredGrant>
    requires i < |gs|
  {
    gs[..i] + gs[i + 1..]
  }

  ghost function ConsumeOnce(s: Store, id: string, now: int64): OpOutcome {
    if s.corrupt then Refuse(s, "corrupt-store") else
    match FindHolder(SortedKeys(s.identities.Keys), s.identities, id)
    case None => Refuse(s, "unknown-grant")
    case Some(k) =>
      var r := s.identities[k];
      var i := FindGrant(r.grants, id);
      var g := r.grants[i];
      if g.scope != Once || g.remainingUses <= 0 then Refuse(s, "unknown-grant")
      else Done(Put(s, k, r.(grants := Without(r.grants, i))), [TempRow(Expiry, k, g, now, "used", DecidingAfter(r, g.capability))])
  }

  // Sweeping what has ended

  /** Why a grant has ended, or nothing; a tombstone never ends. */
  function EndReason(g: StoredGrant, now: int64, session: string): Option<string> {
    if g.revoked then None
    else if g.scope == Once && g.remainingUses <= 0 then Some("used")
    else if g.scope == SevenDays && g.expiresAt <= now then Some("ttl")
    else if g.scope == Session && g.sessionId != session then Some("session_end")
    else None
  }

  function Kept(gs: seq<StoredGrant>, now: int64, session: string): seq<StoredGrant> {
    if gs == [] then []
    else
      var front, g := gs[..|gs| - 1], gs[|gs| - 1];
      Kept(front, now, session) + (if EndReason(g, now, session).None? then [g] else [])
  }

  function ExpiryRow(key: string, r: IdentityRecord, g: StoredGrant, now: int64, session: string): AuditRow
    requires EndReason(g, now, session).Some?
  {
    TempRow(Expiry, key, g, now, EndReason(g, now, session).value, DecidingAfter(r, g.capability))
  }

  function SweepRows(key: string, r: IdentityRecord, gs: seq<StoredGrant>, now: int64, session: string): seq<AuditRow> {
    if gs == [] then []
    else
      var front, g := gs[..|gs| - 1], gs[|gs| - 1];
      SweepRows(key, r, front, now, session) + (if EndReason(g, now, session).Some? then [ExpiryRow(key, r, g, now, session)] else [])
  }

  function SweepAllRows(ks: seq<string>, ids: map<string, IdentityRecord>, now: int64, session: string): seq<AuditRow>
    requires forall k | k in ks :: k in ids
  {
    if ks == [] then []
    else
      var front, k := ks[..|ks| - 1], ks[|ks| - 1];
      SweepAllRows(front, ids, now, session) + SweepRows(k, ids[k], ids[k].grants, now, session)
  }

  function SweptRecords(ids: map<string, IdentityRecord>, now: int64, session: string): map<string, IdentityRecord> {
    map k | k in ids :: ids[k].(grants := Kept(ids[k].grants, now, session))
  }

  ghost function SweepExpired(s: Store, now: int64, session: string): OpOutcome {
    if s.corrupt then Refuse(s, "corrupt-store")
    else Done(s.(identities := SweptRecords(s.identities, now, session)),
              SweepAllRows(SortedKeys(s.identities.Keys), s.identities, now, session))
  }

  // Revocation: grants become tombstones

  /** `site` is the domain to revoke, or nothing for all of them. */
  predicate ToRevoke(g: StoredGrant, site: Option<string>) { !g.revoked && (site.Some? ==> g.domain == site.value) }

  function Tombstone(g: StoredGrant, site: Option<string>, now: int64): StoredGrant {
    if ToRevoke(g, site) then g.(revoked := true, revokedAt := now) else g
  }

  function Tombstones(gs: seq<StoredGrant>, site: Option<string>, now: int64): (r: seq<StoredGrant>)
    ensures |r| == |gs| && forall i | 0 <= i < |gs| :: r[i] == Tombstone(gs[i], site, now)
  {
    if gs == [] then [] else Tombstones(gs[..|gs| - 1], site, now) + [Tombstone(gs[|gs| - 1], site, now)]
  }

  function RevokeRows(key: string, r: IdentityRecord, gs: seq<StoredGrant>, site: Option<string>, now: int64, reason: string): seq<AuditRow> {
    if gs == [] then []
    else
      var front, g := gs[..|gs| - 1], gs[|gs| - 1];
      RevokeRows(key, r, front, site, now, reason)
      + (if ToRevoke(g, site) then [TempRow(Revoke, key, g, now, reason, DecidingAfter(r, g.capability))] else [])
  }

  function RevokeSite(s: Store, identity: string, domain: string, now: int64): OpOutcome {
    if s.corrupt then Refuse(s, "corrupt-store")
    else if identity == "" then Refuse(s, "bad-identity")
    else if RedactOrigin(domain).None? then Refuse(s, "bad-domain")
    else if identity !in s.identities then Done(s, [])
    else
      var r := s.identities[identity];
      Done(Put(s, identity, r.(grants := Tombstones(r.grants, Some(domain), now))),
           RevokeRows(identity, r, r.grants, Some(domain), now, "revoke_site"))
  }

  function ClearedRow(identity: string, r: IdentityRecord, c: Capability, now: int64): seq<AuditRow> {
    if c in r.defaults then [AuditRow(Revoke, identity, c, "", "identity_default", now, 0, "revoke_all", GlobalFallback)] else []
  }

  function ClearedRows(identity: string, r: IdentityRecord, now: int64): seq<AuditRow> {
    ClearedRow(identity, r, Geolocation, now) + ClearedRow(identity, r, Camera, now)
    + ClearedRow(identity, r, Microphone, now) + ClearedRow(identity, r, Notifications, now)
  }

  /** Defaults go first, so the rows of the grants name the layer that decides after both are gone. */
  function RevokeAll(s: Store, identity: string, now: int64): OpOutcome {
    if s.corrupt then Refuse(s, "corrupt-store")
    else if identity == "" then Refuse(s, "bad-identity")
    else if identity !in s.identities then Done(s, [])
    else
      var r := s.identities[identity];
      var bare := r.(defaults := map[]);
      Done(Put(s, identity, bare.(grants := Tombstones(r.grants, None, now))),
           ClearedRows(identity, r, now) + RevokeRows(identity, bare, r.grants, None, now, "revoke_all"))
  }

  /** The monotone evaluation clock. */
  function EffectiveNow(lastSeen: int64, observed: int64): int64 { if observed > lastSeen then observed else lastSeen }

  // One type for all of them

  datatype Op =
    | OpSetDefault(identity: string, capability: string, state: string)
    | OpGrant(req: GrantRequest)
    | OpSetDenied(identity: string, denied: bool)
    | OpConsume(id: string)
    | OpSweep(session: string)
    | OpRevokeSite(identity: string, domain: string)
    | OpRevokeAll(identity: string)

  ghost function Apply(s: Store, op: Op, now: int64): OpOutcome {
    match op
    case OpSetDefault(id, cap, st) => SetDefault(s, id, cap, st, now)
    case OpGrant(req) => GrantTemp(s, req, now)
    case OpSetDenied(id, denied) => SetDenied(s, id, denied, now)
    case OpConsume(id) => ConsumeOnce(s, id, now)
    case OpSweep(session) => SweepExpired(s, now, session)
    case OpRevokeSite(id, domain) => RevokeSite(s, id, domain, now)
    case OpRevokeAll(id) => RevokeAll(s, id, now)
  }
}
