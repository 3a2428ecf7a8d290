/**
  What each operation does, written out: which requests are refused and why, which fields of the store change and to what,
  and every field of every row.
 */
module PermissionMeaning {
  import opened Wrappers
  import opened Order
  import opened JsonValue
  import opened JsonText
  import opened Selection
  import opened PermissionTypes
  import opened PermissionOps
  import opened PermissionInvariants

  // Names

  ghost predicate CapabilityNamed(name: string, c: Capability) {
    || (name == "geolocation" && c == Geolocation) || (name == "camera" && c == Camera)
    || (name == "microphone" && c == Microphone) || (name == "notifications" && c == Notifications)
  }

  ghost predicate StateNamed(name: string, st: CapState) {
    (name == "kDeny" && st == Deny) || (name == "kAsk" && st == Ask) || (name == "kAllow" && st == Allow)
  }

  ghost predicate ScopeNamed(name: string, sc: Scope) {
    (name == "once" && sc == Once) || (name == "session" && sc == Session) || (name == "7d" && sc == SevenDays)
  }

  lemma NamesAre(name: string)
    ensures forall c :: ParseCapability(name) == Some(c) <==> CapabilityNamed(name, c)
    ensures forall st :: ParseCapState(name) == Some(st) <==> StateNamed(name, st)
    ensures forall sc :: ParseScope(name) == Some(sc) <==> ScopeNamed(name, sc)
  {
  }

  // Domains

  /** The label of `d` between two dots, or a dot and an end. */
  ghost predicate Label(d: string, i: int, j: int) {
    && 0 <= i <= j <= |d| && (i == 0 || d[i - 1] == '.') && (j == |d| || d[j] == '.')
    && forall k | i <= k < j :: d[k] != '.'
  }

  /** One to sixty-three lower-case letters, digits and hyphens, no hyphen at either end. */
  ghost predicate LabelText(l: string) {
    1 <= |l| <= 63 && l[0] != '-' && l[|l| - 1] != '-' && forall i | 0 <= i < |l| :: 'a' <= l[i] <= 'z' || '0' <= l[i] <= '9' || l[i] == '-'
  }

  ghost predicate LabelsText(d: string) { forall i, j | Label(d, i, j) :: LabelText(d[i..j]) }

  ghost predicate DomainText(d: string) { 1 <= |d| <= 253 && LabelsText(d) }

  lemma FirstLabel(d: string)
    ensures Label(d, 0, FirstDot(d))
    ensures forall j | Label(d, 0, j) :: j == FirstDot(d)
  {
  }

  lemma LaterLabels(d: string, f: nat, i: int, j: int)
    requires f == FirstDot(d) < |d| && 0 <= i <= j <= |d| - f - 1
    ensures Label(d[f + 1..], i, j) <==> Label(d, i + f + 1, j + f + 1)
  {
    var rest := d[f + 1..];
    hide FirstDot;
    assert i > 0 ==> rest[i - 1] == d[i + f];
    assert j < |rest| ==> rest[j] == d[j + f + 1];
    SameText(d, f + 1, i, j);
    NoDotIn(rest, i, j);
    NoDotIn(d, i + f + 1, j + f + 1);
  }

  lemma SameText(d: string, n: nat, i: int, j: int)
    requires n <= |d| && 0 <= i <= j <= |d| - n
    ensures d[n..][i..j] == d[i + n..j + n]
  {
  }

  lemma NoDotIn(d: string, i: int, j: int)
    requires 0 <= i <= j <= |d|
    ensures (forall k | i <= k < j :: d[k] != '.') <==> '.' !in d[i..j]
  {
    if '.' in d[i..j] { var k :| 0 <= k < j - i && d[i..j][k] == '.'; assert d[i + k] == '.'; }
    if '.' !in d[i..j] { forall k | i <= k < j ensures d[k] != '.' { assert d[i..j][k - i] == d[k]; } }
  }

  lemma NoLabelBetween(d: string, f: nat, i: int, j: int)
    requires f == FirstDot(d) && Label(d, i, j) && 0 < i
    ensures f < |d| && f + 1 <= i
  {
    assert d[i - 1] == '.';
  }

  lemma {:induction false} LabelsAre(d: string)
    ensures LabelsOk(d) <==> LabelsText(d)
    decreases |d|
  {
    var f := FirstDot(d);
    FirstLabel(d);
    assert d[..f] == d[0..f];
    assert LabelOk(d[..f]) <==> LabelText(d[0..f]);
    if f < |d| {
      LabelsAre(d[f + 1..]);
      hide FirstDot, LabelOk, LabelText, Label;
      LabelsSplit(d, f);
    } else {
      hide LabelOk, LabelText;
      assert '.' !in d;
      forall i, j | Label(d, i, j) ensures i == 0 { LabelDot(d, i, j); }
    }
  }

  lemma LabelDot(d: string, i: int, j: int)
    requires Label(d, i, j)
    ensures i > 0 ==> '.' in d
  {
    if i > 0 { assert d[i - 1] == '.'; }
  }

  lemma LabelsSplit(d: string, f: nat)
    requires f == FirstDot(d) < |d| && (forall j | Label(d, 0, j) :: j == f) && Label(d, 0, f)
    ensures LabelsText(d) <==> LabelText(d[0..f]) && LabelsText(d[f + 1..])
  {
    hide FirstDot, LabelText, LabelsText, Label;
    if LabelText(d[0..f]) && LabelsText(d[f + 1..]) { LabelsJoin(d, f); }
    if LabelsText(d) { LabelsPart(d, f); }
  }

  lemma LabelBounds(d: string, i: int, j: int)
    requires Label(d, i, j)
    ensures 0 <= i <= j <= |d|
  {
  }

  lemma LabelsJoin(d: string, f: nat)
    requires f == FirstDot(d) < |d| && (forall j | Label(d, 0, j) :: j == f) && LabelText(d[0..f]) && LabelsText(d[f + 1..])
    ensures LabelsText(d)
  {
    hide FirstDot, LabelText, Label;
    forall i, j | Label(d, i, j) ensures 0 <= i <= j <= |d| && LabelText(d[i..j]) {
      LabelBounds(d, i, j);
      if i > 0 {
        NoLabelBetween(d, f, i, j);
        LaterLabels(d, f, i - f - 1, j - f - 1);
        SameText(d, f + 1, i - f - 1, j - f - 1);
      }
    }
  }

  lemma LabelsPart(d: string, f: nat)
    requires f == FirstDot(d) < |d| && Label(d, 0, f) && LabelsText(d)
    ensures LabelText(d[0..f]) && LabelsText(d[f + 1..])
  {
    hide FirstDot, LabelText, Label;
    var rest := d[f + 1..];
    forall i, j | Label(rest, i, j) ensures 0 <= i <= j <= |rest| && LabelText(rest[i..j]) {
      LabelBounds(rest, i, j);
      LaterLabels(d, f, i, j);
      SameText(d, f + 1, i, j);
    }
  }

  /** A domain is accepted, unchanged, exactly when all of its labels are well-formed. */
  lemma DomainIs(d: string)
    ensures RedactOrigin(d) == if DomainText(d) then Some(d) else None
  {
    LabelsAre(d);
    hide LabelsOk, Label, LabelText;
  }

  // Defaults and the deny-list

  /** The store with one record changed. */
  ghost predicate OnlyRecord(s: Store, s': Store, identity: string, r: IdentityRecord) {
    s' == s.(identities := s.identities[identity := r])
  }

  ghost predicate Refused(s: Store, o: OpOutcome, token: string) { !o.ok && o.error == token && o.store == s && o.rows == [] }

  ghost predicate Unchanged(s: Store, o: OpOutcome) { o.ok && o.error == "" && o.store == s && o.rows == [] }

  ghost predicate DefaultSet(s: Store, identity: string, c: Capability, st: CapState, now: int64, o: OpOutcome) {
    var r := if identity in s.identities then s.identities[identity] else IdentityRecord(map[], map[], false, []);
    if c in r.defaults && r.defaults[c] == st then Unchanged(s, o)
    else
      && o.ok && o.error == "" && OnlyRecord(s, o.store, identity, r.(defaults := r.defaults[c := st]))
      && o.rows == [AuditRow(if st == Allow then Grant else Revoke, identity, c, "", "identity_default", now, 0, "user-default", IdentityOverlay)]
  }

  lemma SetDefaultMeans(s: Store, identity: string, capability: string, state: string, now: int64)
    ensures var o := SetDefault(s, identity, capability, state, now);
            if s.corrupt then Refused(s, o, "corrupt-store")
            else if identity == "" then Refused(s, o, "bad-identity")
            else if !exists c :: CapabilityNamed(capability, c) then Refused(s, o, "bad-capability")
            else if !exists st :: StateNamed(state, st) then Refused(s, o, "bad-state")
            else forall c, st | CapabilityNamed(capability, c) && StateNamed(state, st) :: DefaultSet(s, identity, c, st, now, o)
  {
    NamesAre(capability);
    NamesAre(state);
    hide ParseCapability, ParseCapState, ParseScope, CapabilityNamed, StateNamed;
    if ParseCapability(capability).Some? { assert CapabilityNamed(capability, ParseCapability(capability).value); }
    if ParseCapState(state).Some? { assert StateNamed(state, ParseCapState(state).value); }
  }

  ghost function DenyListRow(identity: string, c: Capability, denied: bool, now: int64): AuditRow {
    AuditRow(if denied then Revoke else Grant, identity, c, "", "identity_deny_list", now, 0, "fortress-deny-list", IdentityOverlay)
  }

  lemma SetDeniedMeans(s: Store, identity: string, denied: bool, now: int64)
    ensures var o := SetDenied(s, identity, denied, now);
            var r := if identity in s.identities then s.identities[identity] else IdentityRecord(map[], map[], false, []);
            if s.corrupt then Refused(s, o, "corrupt-store")
            else if identity == "" then Refused(s, o, "bad-identity")
            else if r.denied == denied then Unchanged(s, o)
            else
              && o.ok && o.error == "" && OnlyRecord(s, o.store, identity, r.(denied := denied)) && |o.rows| == 4
              && o.rows[0] == DenyListRow(identity, Geolocation, denied, now) && o.rows[1] == DenyListRow(identity, Camera, denied, now)
              && o.rows[2] == DenyListRow(identity, Microphone, denied, now) && o.rows[3] == DenyListRow(identity, Notifications, denied, now)
  {
  }

  // Temporary grants

  ghost predicate TermsOk(scope: string, sessionId: string, now: int64) {
    || (scope == "once" && sessionId == "")
    || (scope == "session" && sessionId != "")
    || (scope == "7d" && sessionId == "" && now <= 0x7FFF_FFFF_FFFF_FFFF - 604800000)
  }

  /** Exactly which requests are granted. */
  lemma GrantedIff(s: Store, req: GrantRequest, now: int64)
    ensures GrantTemp(s, req, now).ok
            <==> !s.corrupt && req.identity != "" && DomainText(req.domain) && (exists c :: CapabilityNamed(req.capability, c)) && TermsOk(req.scope, req.sessionId, now)
  {
    DomainIs(req.domain);
    NamesAre(req.capability);
    hide DomainText, RedactOrigin, ParseCapability, CapabilityNamed, NextFree, StoreIds, GrantId;
    if ParseCapability(req.capability).Some? { assert CapabilityNamed(req.capability, ParseCapability(req.capability).value); }
    assert GrantTemp(s, req, now).ok <==> GrantRefusal(s, req, now).None?;
  }

  /** The token of a refusal, in the order in which the request is looked at. */
  lemma GrantTokens(s: Store, req: GrantRequest, now: int64)
    ensures !GrantTemp(s, req, now).ok ==>
              Refused(s, GrantTemp(s, req, now),
                      if s.corrupt then "corrupt-store" else if req.identity == "" then "bad-identity"
                      else if !DomainText(req.domain) then "bad-domain"
                      else if !exists c :: CapabilityNamed(req.capability, c) then "bad-capability"
                      else if req.scope != "once" && req.scope != "session" && req.scope != "7d" then "bad-scope"
                      else if req.scope == "session" <==> req.sessionId == "" then "bad-session"
                      else "bad-time")
  {
    DomainIs(req.domain);
    NamesAre(req.capability);
    hide DomainText, RedactOrigin, ParseCapability, CapabilityNamed, NextFree, StoreIds, GrantId;
    if ParseCapability(req.capability).Some? { assert CapabilityNamed(req.capability, ParseCapability(req.capability).value); }
  }

  /** Some grant of some identity, a tombstone or not, has this id. */
  ghost predicate IdInUse(s: Store, id: string) {
    exists k, i :: k in s.identities && 0 <= i < |s.identities[k].grants| && s.identities[k].grants[i].id == id
  }

  lemma IdsAre(s: Store, id: string)
    ensures id in StoreIds(s.identities) <==> IdInUse(s, id)
  {
    if IdInUse(s, id) { var k, i :| k in s.identities && 0 <= i < |s.identities[k].grants| && s.identities[k].grants[i].id == id; }
    if id in StoreIds(s.identities) { var k, i :| k in s.identities && 0 <= i < |s.identities[k].grants| && s.identities[k].grants[i].id == id; }
  }

  /** The grant that is recorded, with its fields by scope, and its row. */
  ghost predicate GrantMade(s: Store, req: GrantRequest, now: int64, n: nat, c: Capability, sc: Scope, o: OpOutcome) {
    var r := if req.identity in s.identities then s.identities[req.identity] else IdentityRecord(map[], map[], false, []);
    var g := StoredGrant("g" + Digits(n), req.identity, req.domain, c, sc, now,
                         if sc == SevenDays && now + 604800000 <= INT64_MAX then now + 604800000 else 0, req.sessionId, if sc == Once then 1 else 0, false, 0);
    && o.ok && o.error == "" && o.store == s.(nextSeq := n + 1, identities := s.identities[req.identity := r.(grants := r.grants + [g])])
    && o.rows == [AuditRow(Grant, req.identity, c, req.domain, req.scope, now, if sc == SevenDays then 604800000 else 0, "user-grant", IdentityOverlay)]
  }

  /** The number of a new grant is the least one, from the counter on, whose id is not in use. */
  ghost predicate FirstFree(s: Store, n: nat) {
    n >= s.nextSeq && !IdInUse(s, "g" + Digits(n)) && forall m: nat | s.nextSeq <= m < n :: IdInUse(s, "g" + Digits(m))
  }

  lemma GrantTempMeans(s: Store, req: GrantRequest, now: int64) returns (n: nat)
    requires GrantTemp(s, req, now).ok
    ensures FirstFree(s, n)
    ensures forall c, sc | CapabilityNamed(req.capability, c) && ScopeNamed(req.scope, sc) :: GrantMade(s, req, now, n, c, sc, GrantTemp(s, req, now))
  {
    NamesAre(req.capability);
    NamesAre(req.scope);
    n := NextFree(StoreIds(s.identities), s.nextSeq);
    NextFreeIsFree(StoreIds(s.identities), s.nextSeq);
    forall m: nat ensures GrantId(m) in StoreIds(s.identities) <==> IdInUse(s, "g" + Digits(m)) { IdsAre(s, GrantId(m)); }
    hide NextFree, StoreIds, IdInUse, Digits, RedactOrigin, CapabilityNamed, ScopeNamed, ParseCapability, ParseScope;
    forall c, sc | CapabilityNamed(req.capability, c) && ScopeNamed(req.scope, sc) ensures GrantMade(s, req, now, n, c, sc, GrantTemp(s, req, now)) {
      DomainScope(req, now, c, sc);
    }
  }

  lemma DomainScope(req: GrantRequest, now: int64, c: Capability, sc: Scope)
    requires CapabilityNamed(req.capability, c) && ScopeNamed(req.scope, sc)
    ensures ParseCapability(req.capability) == Some(c) && ParseScope(req.scope) == Some(sc) && ScopeName(sc) == req.scope
  {
  }

  // Spending a once grant

  ghost predicate Spendable(g: StoredGrant) { !g.revoked && g.scope == Once && g.remainingUses > 0 }

  ghost predicate SpentAt(s: Store, k: string, i: nat, now: int64, o: OpOutcome)
    requires k in s.identities && i < |s.identities[k].grants|
  {
    var r := s.identities[k];
    var g := r.grants[i];
    && o.ok && o.error == "" && OnlyRecord(s, o.store, k, r.(grants := r.grants[..i] + r.grants[i + 1..]))
    && o.rows == [AuditRow(Expiry, k, g.capability, g.domain, "once", now, 0, "used", if g.capability in r.defaults then IdentityOverlay else GlobalFallback)]
  }

  /** In a well-formed store: the grant with the id is removed if it is a once grant with a use left, and nothing happens otherwise. */
  lemma ConsumeOnceMeans(s: Store, id: string, now: int64)
    requires StoreOk(s)
    ensures forall k, i | k in s.identities && 0 <= i < |s.identities[k].grants| && s.identities[k].grants[i].id == id && Spendable(s.identities[k].grants[i]) ::
              SpentAt(s, k, i, now, ConsumeOnce(s, id, now))
    ensures (forall k, i | k in s.identities && 0 <= i < |s.identities[k].grants| && s.identities[k].grants[i].id == id :: !Spendable(s.identities[k].grants[i])) ==>
              Refused(s, ConsumeOnce(s, id, now), "unknown-grant")
  {
    if k, i :| k in s.identities && 0 <= i < |s.identities[k].grants| && s.identities[k].grants[i].id == id && !s.identities[k].grants[i].revoked {
      HolderFound(s, id, k, i);
      ConsumeAt(s, id, now, k, i);
      forall k', i' | k' in s.identities && 0 <= i' < |s.identities[k'].grants| && s.identities[k'].grants[i'].id == id ensures k' == k && i' == i {
        OneGrant(s, k, i, k', i');
      }
      hide ConsumeOnce, StoreOk, SpentAt;
    } else {
      NoHolder(s, id, now);
    }
  }

  lemma OneGrant(s: Store, k: string, i: int, k': string, i': int)
    requires StoreOk(s) && k in s.identities && k' in s.identities && 0 <= i < |s.identities[k].grants| && 0 <= i' < |s.identities[k'].grants|
    requires s.identities[k].grants[i].id == s.identities[k'].grants[i'].id
    ensures k == k' && i == i'
  {
  }

  lemma HolderFound(s: Store, id: string, k: string, i: int)
    requires StoreOk(s) && k in s.identities && 0 <= i < |s.identities[k].grants| && s.identities[k].grants[i].id == id && !s.identities[k].grants[i].revoked
    ensures FindHolder(SortedKeys(s.identities.Keys), s.identities, id) == Some(k) && FindGrant(s.identities[k].grants, id) == i
  {
    var ks := SortedKeys(s.identities.Keys);
    var holder := FindHolder(ks, s.identities, id);
    hide SortedKeys, StoreOk, FindHolder, FindGrant;
    assert Holds(s.identities[k], id) && k in ks;
    var at := FindGrant(s.identities[holder.value].grants, id);
    OneGrant(s, holder.value, at, k, i);
  }

  lemma ConsumeAt(s: Store, id: string, now: int64, k: string, i: int)
    requires StoreOk(s) && k in s.identities && 0 <= i < |s.identities[k].grants|
    requires FindHolder(SortedKeys(s.identities.Keys), s.identities, id) == Some(k) && FindGrant(s.identities[k].grants, id) == i
    ensures Spendable(s.identities[k].grants[i]) ==> SpentAt(s, k, i, now, ConsumeOnce(s, id, now))
    ensures !s.identities[k].grants[i].revoked && !Spendable(s.identities[k].grants[i]) ==> Refused(s, ConsumeOnce(s, id, now), "unknown-grant")
  {
    assert !s.corrupt;
    hide SortedKeys, FindHolder, FindGrant, StoreOk;
  }

  lemma NoHolder(s: Store, id: string, now: int64)
    requires StoreOk(s)
    requires forall k, i | k in s.identities && 0 <= i < |s.identities[k].grants| && s.identities[k].grants[i].id == id :: s.identities[k].grants[i].revoked
    ensures Refused(s, ConsumeOnce(s, id, now), "unknown-grant")
  {
    assert !s.corrupt;
    var holder := FindHolder(SortedKeys(s.identities.Keys), s.identities, id);
    hide SortedKeys, StoreOk, FindHolder, FindGrant;
    assert holder.None?;
  }

  // Sweeping

  predicate Stays(g: StoredGrant, now: int64, session: string) {
    || g.revoked
    || (g.scope == Once && g.remainingUses > 0)
    || (g.scope == SevenDays && g.expiresAt > now)
    || (g.scope == Session && g.sessionId == session)
  }

  function SweepRow(key: string, r: IdentityRecord, g: StoredGrant, now: int64): AuditRow {
    AuditRow(Expiry, key, g.capability, g.domain,
             match g.scope case Once => "once" case Session => "session" case SevenDays => "7d",
             now, if g.scope == SevenDays then 604800000 else 0,
             match g.scope case Once => "used" case Session => "session_end" case SevenDays => "ttl",
             if g.capability in r.defaults then IdentityOverlay else GlobalFallback)
  }

  lemma {:induction false} KeptMeans(gs: seq<StoredGrant>, now: int64, session: string)
    ensures Maps(gs, (g: StoredGrant) => Stays(g, now, session), (g: StoredGrant) => g, Kept(gs, now, session))
  {
    hide Maps;
    var keep := (g: StoredGrant) => Stays(g, now, session);
    var same := (g: StoredGrant) => g;
    if gs == [] {
      MapsNothing(keep, same);
    } else {
      KeptMeans(gs[..|gs| - 1], now, session);
      MapsSnoc(gs, keep, same, Kept(gs[..|gs| - 1], now, session));
    }
  }

  lemma {:induction false} SweepRowsMean(key: string, r: IdentityRecord, gs: seq<StoredGrant>, now: int64, session: string)
    ensures Maps(gs, (g: StoredGrant) => !Stays(g, now, session), (g: StoredGrant) => SweepRow(key, r, g, now), SweepRows(key, r, gs, now, session))
  {
    hide Maps;
    var keep := (g: StoredGrant) => !Stays(g, now, session);
    var row := (g: StoredGrant) => SweepRow(key, r, g, now);
    if gs == [] {
      MapsNothing(keep, row);
    } else {
      SweepRowsMean(key, r, gs[..|gs| - 1], now, session);
      MapsSnoc(gs, keep, row, SweepRows(key, r, gs[..|gs| - 1], now, session));
    }
  }

  /** Rows record after record. */
  ghost function Flat(parts: seq<seq<AuditRow>>): seq<AuditRow> { if parts == [] then [] else Flat(parts[..|parts| - 1]) + parts[|parts| - 1] }

  lemma {:induction false} AllRowsFlat(ks: seq<string>, ids: map<string, IdentityRecord>, now: int64, session: string) returns (parts: seq<seq<AuditRow>>)
    requires forall k | k in ks :: k in ids
    ensures |parts| == |ks| && SweepAllRows(ks, ids, now, session) == Flat(parts)
    ensures forall n | 0 <= n < |ks| :: parts[n] == SweepRows(ks[n], ids[ks[n]], ids[ks[n]].grants, now, session)
  {
    hide SweepRows;
    if ks == [] {
      parts := [];
    } else {
      var front := AllRowsFlat(ks[..|ks| - 1], ids, now, session);
      var k := ks[|ks| - 1];
      parts := front + [SweepRows(k, ids[k], ids[k].grants, now, session)];
      assert parts[..|front|] == front;
    }
  }

  /** The grants that stay are those of this record that `Stays` holds of, in order; nothing else of the store changes. */
  lemma SweptGrants(s: Store, now: int64, session: string, k: string)
    requires !s.corrupt
    ensures var s' := SweepExpired(s, now, session).store;
            && SweepExpired(s, now, session).ok && s' == s.(identities := s'.identities) && s'.identities.Keys == s.identities.Keys
            && (k in s.identities ==>
                  && s'.identities[k] == s.identities[k].(grants := s'.identities[k].grants)
                  && Picks(s.identities[k].grants, (g: StoredGrant) => Stays(g, now, session), s'.identities[k].grants))
  {
    hide Maps, Picks, SweepAllRows, SortedKeys;
    if k in s.identities {
      KeptMeans(s.identities[k].grants, now, session);
      MapsIsPicks(s.identities[k].grants, (g: StoredGrant) => Stays(g, now, session), (g: StoredGrant) => g, Kept(s.identities[k].grants, now, session));
    }
    hide Kept;
  }

  /** There is one row for each grant that goes, record after record in byte order of identities, grant after grant. */
  lemma SweptRows(s: Store, now: int64, session: string) returns (ks: seq<string>, parts: seq<seq<AuditRow>>)
    requires !s.corrupt
    ensures InByteOrder(ks) && (forall k :: k in ks <==> k in s.identities)
    ensures |parts| == |ks| && SweepExpired(s, now, session).rows == Flat(parts)
    ensures forall n | 0 <= n < |ks| ::
              Maps(s.identities[ks[n]].grants, (g: StoredGrant) => !Stays(g, now, session),
                   (g: StoredGrant) => SweepRow(ks[n], s.identities[ks[n]], g, now), parts[n])
  {
    ks := SortedKeys(s.identities.Keys);
    AscendingIsByteOrder(ks);
    hide Maps, SweepAllRows, SortedKeys, SweptRecords, SweepRow, SweepRows, Stays, InByteOrder;
    parts := AllRowsFlat(ks, s.identities, now, session);
    forall n | 0 <= n < |ks|
      ensures Maps(s.identities[ks[n]].grants, (g: StoredGrant) => !Stays(g, now, session),
                   (g: StoredGrant) => SweepRow(ks[n], s.identities[ks[n]], g, now), parts[n])
    {
      SweepRowsMean(ks[n], s.identities[ks[n]], s.identities[ks[n]].grants, now, session);
    }
  }

  lemma SweepRefused(s: Store, now: int64, session: string)
    requires s.corrupt
    ensures Refused(s, SweepExpired(s, now, session), "corrupt-store")
  {
    hide SweptRecords, SweepAllRows, SortedKeys;
  }

  // Revoking

  predicate GoesAt(g: StoredGrant, domain: string) { !g.revoked && g.domain == domain }

  function RevokedRow(identity: string, r: IdentityRecord, g: StoredGrant, now: int64, reason: string): AuditRow {
    AuditRow(Revoke, identity, g.capability, g.domain,
             match g.scope case Once => "once" case Session => "session" case SevenDays => "7d",
             now, if g.scope == SevenDays then 604800000 else 0, reason, if g.capability in r.defaults then IdentityOverlay else GlobalFallback)
  }

  /** Where `goes`, a live grant becomes a tombstone of this time; every other grant stays as it is, and so does the order. */
  ghost predicate Buried(gs: seq<StoredGrant>, gs': seq<StoredGrant>, goes: StoredGrant -> bool, now: int64) {
    |gs'| == |gs| && forall i | 0 <= i < |gs| :: gs'[i] == if goes(gs[i]) then gs[i].(revoked := true, revokedAt := now) else gs[i]
  }

  lemma {:induction false} RevokeRowsMean(key: string, r: IdentityRecord, gs: seq<StoredGrant>, site: Option<string>, now: int64, reason: string, goes: StoredGrant -> bool)
    requires forall g :: goes(g) <==> ToRevoke(g, site)
    ensures Maps(gs, goes, (g: StoredGrant) => RevokedRow(key, r, g, now, reason), RevokeRows(key, r, gs, site, now, reason))
  {
    hide Maps;
    var row := (g: StoredGrant) => RevokedRow(key, r, g, now, reason);
    if gs == [] {
      MapsNothing(goes, row);
    } else {
      RevokeRowsMean(key, r, gs[..|gs| - 1], site, now, reason, goes);
      MapsSnoc(gs, goes, row, RevokeRows(key, r, gs[..|gs| - 1], site, now, reason));
    }
  }

  ghost predicate SiteRevoked(s: Store, identity: string, domain: string, now: int64, o: OpOutcome)
    requires identity in s.identities
  {
    var r := s.identities[identity];
    && o.ok && o.error == "" && identity in o.store.identities
    && OnlyRecord(s, o.store, identity, r.(grants := o.store.identities[identity].grants))
    && Buried(r.grants, o.store.identities[identity].grants, (g: StoredGrant) => GoesAt(g, domain), now)
    && Maps(r.grants, (g: StoredGrant) => GoesAt(g, domain), (g: StoredGrant) => RevokedRow(identity, r, g, now, "revoke_site"), o.rows)
  }

  lemma RevokeSiteMeans(s: Store, identity: string, domain: string, now: int64)
    ensures var o := RevokeSite(s, identity, domain, now);
            if s.corrupt then Refused(s, o, "corrupt-store")
            else if identity == "" then Refused(s, o, "bad-identity")
            else if !DomainText(domain) then Refused(s, o, "bad-domain")
            else if identity !in s.identities then Unchanged(s, o)
            else SiteRevoked(s, identity, domain, now, o)
  {
    DomainIs(domain);
    hide DomainText, RedactOrigin, Maps, RevokedRow;
    if identity in s.identities {
      var r := s.identities[identity];
      RevokeRowsMean(identity, r, r.grants, Some(domain), now, "revoke_site", (g: StoredGrant) => GoesAt(g, domain));
    }
    hide Tombstones, RevokeRows;
  }

  /** The rows of the defaults that are cleared: those there are, in the order of the enumeration. */
  ghost predicate ClearRows(identity: string, r: IdentityRecord, now: int64, rows: seq<AuditRow>) {
    Maps([Geolocation, Camera, Microphone, Notifications], (c: Capability) => c in r.defaults,
         (c: Capability) => AuditRow(Revoke, identity, c, "", "identity_default", now, 0, "revoke_all", GlobalFallback), rows)
  }

  lemma ClearedRowsMean(identity: string, r: IdentityRecord, now: int64)
    ensures ClearRows(identity, r, now, ClearedRows(identity, r, now))
  {
    hide Maps;
    var keep := (c: Capability) => c in r.defaults;
    var row := (c: Capability) => AuditRow(Revoke, identity, c, "", "identity_default", now, 0, "revoke_all", GlobalFallback);
    var a, b, c, d := [Geolocation], [Geolocation, Camera], [Geolocation, Camera, Microphone], [Geolocation, Camera, Microphone, Notifications];
    assert a[..0] == [] && b[..1] == a && c[..2] == b && d[..3] == c;
    MapsNothing(keep, row);
    MapsSnoc(a, keep, row, []);
    var ra := ClearedRow(identity, r, Geolocation, now);
    assert [] + ra == ra;
    MapsSnoc(b, keep, row, ra);
    MapsSnoc(c, keep, row, ra + ClearedRow(identity, r, Camera, now));
    MapsSnoc(d, keep, row, ra + ClearedRow(identity, r, Camera, now) + ClearedRow(identity, r, Microphone, now));
  }

  ghost predicate AllRevoked(s: Store, identity: string, now: int64, o: OpOutcome, cleared: seq<AuditRow>, revoked: seq<AuditRow>)
    requires identity in s.identities
  {
    var r := s.identities[identity];
    var bare := r.(defaults := map[]);
    && o.ok && o.error == "" && identity in o.store.identities
    && OnlyRecord(s, o.store, identity, r.(defaults := map[], grants := o.store.identities[identity].grants))
    && Buried(r.grants, o.store.identities[identity].grants, (g: StoredGrant) => !g.revoked, now)
    && o.rows == cleared + revoked && ClearRows(identity, r, now, cleared)
    && Maps(r.grants, (g: StoredGrant) => !g.revoked, (g: StoredGrant) => RevokedRow(identity, bare, g, now, "revoke_all"), revoked)
  }

  lemma RevokeAllMeans(s: Store, identity: string, now: int64)
    ensures var o := RevokeAll(s, identity, now);
            if s.corrupt then Refused(s, o, "corrupt-store")
            else if identity == "" then Refused(s, o, "bad-identity")
            else if identity !in s.identities then Unchanged(s, o)
            else exists cleared, revoked :: AllRevoked(s, identity, now, o, cleared, revoked)
  {
    hide Maps, RevokedRow, ClearRows;
    if !s.corrupt && identity != "" && identity in s.identities {
      var r := s.identities[identity];
      var bare := r.(defaults := map[]);
      ClearedRowsMean(identity, r, now);
      RevokeRowsMean(identity, bare, r.grants, None, now, "revoke_all", (g: StoredGrant) => !g.revoked);
      hide Tombstones, RevokeRows, ClearedRows;
      var o := RevokeAll(s, identity, now);
      assert o.store.identities[identity].grants == Tombstones(r.grants, None, now);
      assert Buried(r.grants, o.store.identities[identity].grants, (g: StoredGrant) => !g.revoked, now);
      assert AllRevoked(s, identity, now, o, ClearedRows(identity, r, now), RevokeRows(identity, bare, r.grants, None, now, "revoke_all"));
    }
  }

  // Time

  /** An operation is evaluated at the later of the two times. */
  lemma ClockIsLater(lastSeen: int64, observed: int64)
    ensures EffectiveNow(lastSeen, observed) >= lastSeen && EffectiveNow(lastSeen, observed) >= observed
    ensures EffectiveNow(lastSeen, observed) == lastSeen || EffectiveNow(lastSeen, observed) == observed
  {
  }
}
