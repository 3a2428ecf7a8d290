/**
  What the operations do to the answers of the resolver: end-to-end statements, from an operation on the store,
  through the projected text and its strict parser, to the policy that is enforced.
 */
module PermissionEffects {
  import opened Wrappers
  import opened Order
  import opened PermissionTypes
  import opened PermissionStore
  import opened PermissionOverlay
  import opened PermissionProjection
  import opened PermissionOps
  import opened PermissionInvariants
  import opened PolicyTypes

  /** The answer of one record; an identity without a record has an empty one. */
  ghost function RecordAnswer(r: IdentityRecord, req: Request, p: EffectivePolicy, c: Capability): CapState {
    if r.denied then Deny
    else if HasLive(r.grants, req, c) then Allow
    else if c in r.defaults then r.defaults[c]
    else Slot(p, c)
  }

  lemma AnswerOfRecord(s: Store, req: Request, p: EffectivePolicy, c: Capability)
    requires !s.corrupt
    ensures Answer(s, req, p, c) == RecordAnswer(Record(s, req.identity), req, p, c)
  {
    hide Slot;
  }

  lemma OpSound(s: Store, op: Op, now: int64)
    requires Sound(s) && OpUtf8(op)
    ensures Sound(Apply(s, op, now).store) && (Apply(s, op, now).store.corrupt <==> s.corrupt)
  {
    if s.corrupt {
      CorruptRefuses(s, op, now);
    } else {
      EveryOpKeeps(s, op, now);
      EveryOpUtf8(s, op, now);
      hide Apply, StoreUtf8, OpUtf8;
    }
  }

  lemma CorruptRefuses(s: Store, op: Op, now: int64)
    requires s.corrupt
    ensures Apply(s, op, now) == Refuse(s, "corrupt-store")
  {
  }

  /** Equal answers of the records, and so equal enforcement. */
  lemma SameRecordAnswers(s: Store, s': Store, req: Request, req': Request, p: EffectivePolicy)
    requires Sound(s) && Sound(s') && !s.corrupt && !s'.corrupt
    requires forall c: Capability :: RecordAnswer(Record(s, req.identity), req, p, c) == RecordAnswer(Record(s', req'.identity), req', p, c)
    ensures Enforced(s, req, p) == Enforced(s', req', p)
  {
    hide Sound, Answer, Enforced, RecordAnswer;
    forall c: Capability ensures Answer(s, req, p, c) == Answer(s', req', p, c) {
      AnswerOfRecord(s, req, p, c);
      AnswerOfRecord(s', req', p, c);
      assert RecordAnswer(Record(s, req.identity), req, p, c) == RecordAnswer(Record(s', req'.identity), req', p, c);
    }
    SameAnswers(s, s', req, req', p);
  }

  // Sweeping

  lemma {:induction false} KeptAppend(a: seq<StoredGrant>, b: seq<StoredGrant>, now: int64, session: string)
    ensures Kept(a + b, now, session) == Kept(a, now, session) + Kept(b, now, session)
  {
    hide EndReason;
    if b == [] {
      assert a + b == a;
    } else {
      var front := b[..|b| - 1];
      assert (a + b)[..|a + b| - 1] == a + front;
      KeptAppend(a, front, now, session);
    }
  }

  lemma KeptOne(g: StoredGrant, now: int64, session: string)
    ensures Kept([g], now, session) == if EndReason(g, now, session).None? then [g] else []
  {
    assert [g][..0] == [];
    hide EndReason;
  }

  /** What has ended stays ended. */
  lemma EndedStays(g: StoredGrant, t1: int64, t2: int64, session: string)
    requires t1 <= t2 && EndReason(g, t1, session).Some?
    ensures EndReason(g, t2, session).Some?
  {
  }

  lemma {:induction false} KeptTwice(gs: seq<StoredGrant>, t1: int64, t2: int64, session: string)
    requires t1 <= t2
    ensures Kept(Kept(gs, t1, session), t2, session) == Kept(gs, t2, session)
  {
    hide EndReason;
    if gs != [] {
      var front, g := gs[..|gs| - 1], gs[|gs| - 1];
      KeptTwice(front, t1, t2, session);
      if EndReason(g, t1, session).None? {
        KeptAppend(Kept(front, t1, session), [g], t2, session);
        KeptOne(g, t2, session);
      } else {
        EndedStays(g, t1, t2, session);
        assert Kept(front, t1, session) + [] == Kept(front, t1, session);
      }
    }
  }

  /** A sweep followed by a later one leaves the store that the later one alone leaves. */
  lemma SweepAbsorbs(s: Store, t1: int64, t2: int64, session: string)
    requires t1 <= t2
    ensures SweepExpired(SweepExpired(s, t1, session).store, t2, session).store == SweepExpired(s, t2, session).store
  {
    hide Kept, SweepAllRows;
    if !s.corrupt {
      var once, twice := SweptRecords(s.identities, t2, session), SweptRecords(SweptRecords(s.identities, t1, session), t2, session);
      forall k | k in s.identities ensures once[k] == twice[k] { KeptTwice(s.identities[k].grants, t1, t2, session); }
      assert once == twice;
    }
  }

  lemma LiveIsKept(g: StoredGrant, t: int64, req: Request, c: Capability)
    requires req.now >= t && Live(g, req, c)
    ensures EndReason(g, t, req.session).None?
  {
  }

  lemma KeptLive(gs: seq<StoredGrant>, t: int64, req: Request, c: Capability)
    requires req.now >= t
    ensures HasLive(Kept(gs, t, req.session), req, c) <==> HasLive(gs, req, c)
  {
    hide Kept, Live, EndReason;
    var kept := Kept(gs, t, req.session);
    if i :| 0 <= i < |gs| && Live(gs[i], req, c) {
      LiveIsKept(gs[i], t, req, c);
      KeptContents(gs, t, req.session, gs[i]);
      assert exists j :: 0 <= j < |kept| && kept[j] == gs[i];
    }
    if j :| 0 <= j < |kept| && Live(kept[j], req, c) {
      KeptContents(gs, t, req.session, kept[j]);
      assert exists i :: 0 <= i < |gs| && gs[i] == kept[j];
    }
  }

  /** Sweeping is invisible to every request of that session at that time or later. */
  lemma SweepInvisible(s: Store, t: int64, req: Request, p: EffectivePolicy)
    requires Sound(s) && req.now >= t
    ensures Enforced(SweepExpired(s, t, req.session).store, req, p) == Enforced(s, req, p)
  {
    hide *;
    var s' := SweepExpired(s, t, req.session).store;
    ApplySweep(s, t, req.session);
    if !s.corrupt {
      OpSound(s, OpSweep(req.session), t);
      SweptRecord(s, t, req.session, req.identity);
      forall c: Capability ensures RecordAnswer(Record(s, req.identity), req, p, c) == RecordAnswer(Record(s', req.identity), req, p, c) {
        KeptLive(Record(s, req.identity).grants, t, req, c);
        SameButGrants(Record(s, req.identity), Record(s', req.identity), req, p, c);
      }
      SameRecordAnswers(s, s', req, req, p);
    }
  }

  lemma ApplySweep(s: Store, t: int64, session: string)
    ensures Apply(s, OpSweep(session), t) == SweepExpired(s, t, session) && OpUtf8(OpSweep(session))
    ensures s.corrupt ==> SweepExpired(s, t, session).store == s
  {
    hide SweepAllRows;
  }

  lemma SweptRecord(s: Store, t: int64, session: string, k: string)
    requires !s.corrupt
    ensures Record(SweepExpired(s, t, session).store, k) == Record(s, k).(grants := Kept(Record(s, k).grants, t, session))
  {
    hide SweepAllRows;
    assert Kept([], t, session) == [];
    hide Kept;
  }

  lemma SameButGrants(r: IdentityRecord, r': IdentityRecord, req: Request, p: EffectivePolicy, c: Capability)
    requires r.denied == r'.denied && r.defaults == r'.defaults && (HasLive(r.grants, req, c) <==> HasLive(r'.grants, req, c))
    ensures RecordAnswer(r, req, p, c) == RecordAnswer(r', req, p, c)
  {
    hide HasLive, Slot;
  }

  // Corruption, deny-list, revocation

  /** A corrupt store denies all four permissions to every request, whatever the base policy says. */
  lemma CorruptDeniesAll(s: Store, req: Request, p: EffectivePolicy)
    requires s.corrupt
    ensures Enforced(s, req, p) == DenyAll(p)
  {
    ProjectionAgrees(s, req, p);
    forall c: Capability ensures Slot(Enforced(s, req, p), c) == Slot(DenyAll(p), c) {
      assert Slot(Enforced(s, req, p), c) == Answer(s, req, p, c);
      SlotLaws(p, c, c, Deny);
    }
    hide Enforced;
    SlotsDetermine(Enforced(s, req, p), DenyAll(p));
  }

  /** Every stored grant of a list for this domain is a tombstone. */
  ghost predicate DeadFor(gs: seq<StoredGrant>, domain: string) {
    forall i | 0 <= i < |gs| && gs[i].domain == domain :: gs[i].revoked
  }

  lemma DeadNeverLive(gs: seq<StoredGrant>, req: Request, c: Capability)
    requires DeadFor(gs, req.domain)
    ensures !HasLive(gs, req, c)
  {
  }

  /** Whether a step grants something to this identity on this domain. */
  predicate GrantsTo(op: Op, identity: string, domain: string) {
    op.OpGrant? && op.req.identity == identity && op.req.domain == domain
  }

  lemma DeadStaysDead(s: Store, op: Op, now: int64, identity: string, domain: string)
    requires DeadFor(Record(s, identity).grants, domain) && !GrantsTo(op, identity, domain)
    ensures DeadFor(Record(Apply(s, op, now).store, identity).grants, domain)
  {
    GrantsEffect(s, op, now, identity);
    hide Apply, ConsumeOnce, RevokeSite, RevokeAll, Kept, Tombstones, FindGrant, FindHolder, NextFree, GrantRefusal, GrantId, StoreIds, Without, SortedKeys;
    var gs, after := Record(s, identity).grants, GrantsAfter(s, op, now, identity);
    forall i | 0 <= i < |after| && after[i].domain == domain ensures after[i].revoked {
      match op
      case OpConsume(id) => if FindGrant(gs, id) < |gs| { WithoutContents(gs, FindGrant(gs, id), after[i]); }
      case OpSweep(session) => KeptContents(gs, now, session, after[i]);
      case OpGrant(req) => GrantParsesIfNew(s, req, now);
      case OpRevokeSite(_, d) =>
      case OpRevokeAll(_) =>
      case _ =>
    }
  }

  lemma GrantParsesIfNew(s: Store, req: GrantRequest, now: int64)
    ensures GrantRefusal(s, req, now).None? ==>
              ParseCapability(req.capability).Some? && ParseScope(req.scope).Some?
              && (ParseScope(req.scope).value == SevenDays ==> now <= INT64_MAX - SEVEN_DAYS_MILLIS)
  {
    if GrantRefusal(s, req, now).None? { GrantParses(s, req, now); }
  }

  lemma RevokedIsDead(s: Store, identity: string, domain: string, now: int64)
    requires RevokeSite(s, identity, domain, now).ok
    ensures DeadFor(Record(RevokeSite(s, identity, domain, now).store, identity).grants, domain)
  {
    hide RevokeRows, RedactOrigin, Tombstones;
  }

  lemma {:induction false} DeadOverRuns(s: Store, steps: seq<Step>, identity: string, domain: string)
    requires DeadFor(Record(s, identity).grants, domain)
    requires forall i | 0 <= i < |steps| :: !GrantsTo(steps[i].op, identity, domain)
    ensures DeadFor(Record(Run(s, steps), identity).grants, domain)
  {
    hide DeadFor, Apply, GrantsTo;
    if steps != [] {
      var front, last := steps[..|steps| - 1], steps[|steps| - 1];
      DeadOverRuns(s, front, identity, domain);
      DeadStaysDead(Run(s, front), last.op, last.now, identity, domain);
    }
  }

  ghost predicate StepsUtf8(steps: seq<Step>) { forall i | 0 <= i < |steps| :: OpUtf8(steps[i].op) }

  lemma {:induction false} RunSound(s: Store, steps: seq<Step>)
    requires Sound(s) && StepsUtf8(steps)
    ensures Sound(Run(s, steps)) && (Run(s, steps).corrupt <==> s.corrupt)
  {
    hide Sound, Apply, OpUtf8;
    if steps != [] {
      var front, last := steps[..|steps| - 1], steps[|steps| - 1];
      RunSound(s, front);
      OpSound(Run(s, front), last.op, last.now);
    }
  }

  /** The store with the grants of one identity forgotten. */
  function Forget(s: Store, identity: string): Store {
    if identity in s.identities then Put(s, identity, s.identities[identity].(grants := [])) else s
  }

  lemma ForgetSound(s: Store, identity: string)
    requires Sound(s) && !s.corrupt
    ensures Sound(Forget(s, identity)) && !Forget(s, identity).corrupt
    ensures Record(Forget(s, identity), identity) == Record(s, identity).(grants := [])
  {
    if identity in s.identities {
      var r := s.identities[identity];
      RecordIsOk(s, identity);
      KeyNamed(s, identity);
      assert UniqueIds([]) && forall id :: !HasId([], id);
      PutOk(s, identity, r.(grants := []), {});
      RecordIsUtf8(s, identity);
      assert RecordUtf8(r.(grants := []));
      PutUtf8(s, identity, r.(grants := []));
    }
  }

  /**
    Revocation is final: after a successful RevokeSite and any run that does not grant there again, every
    request on that site, at any time and in any session, is answered as if the identity held no grants.
   */
  lemma RevocationIsFinal(s: Store, identity: string, domain: string, now: int64, steps: seq<Step>, req: Request, p: EffectivePolicy)
    requires Sound(s) && StepsUtf8(steps) && RevokeSite(s, identity, domain, now).ok
    requires forall i | 0 <= i < |steps| :: !GrantsTo(steps[i].op, identity, domain)
    requires req.identity == identity && req.domain == domain
    ensures var s' := Run(RevokeSite(s, identity, domain, now).store, steps); Enforced(s', req, p) == Enforced(Forget(s', identity), req, p)
  {
    hide *;
    var o := RevokeSite(s, identity, domain, now);
    RevokedSound(s, identity, domain, now);
    RevokedIsDead(s, identity, domain, now);
    DeadOverRuns(o.store, steps, identity, domain);
    RunSound(o.store, steps);
    var s' := Run(o.store, steps);
    ForgetSound(s', identity);
    forall c: Capability ensures RecordAnswer(Record(s', identity), req, p, c) == RecordAnswer(Record(Forget(s', identity), identity), req, p, c) {
      DeadNeverLive(Record(s', identity).grants, req, c);
      NothingLive(req, c);
      SameButGrants(Record(s', identity), Record(Forget(s', identity), identity), req, p, c);
    }
    SameRecordAnswers(s', Forget(s', identity), req, req, p);
  }

  lemma RevokedSound(s: Store, identity: string, domain: string, now: int64)
    requires Sound(s) && RevokeSite(s, identity, domain, now).ok
    ensures !s.corrupt && Sound(RevokeSite(s, identity, domain, now).store) && !RevokeSite(s, identity, domain, now).store.corrupt
  {
    hide RedactOrigin, RevokeRows, Tombstones, Sound;
    OpSound(s, OpRevokeSite(identity, domain), now);
  }

  lemma NothingLive(req: Request, c: Capability)
    ensures !HasLive([], req, c)
  {
  }

  /** After RevokeAll the identity gets the base policy back, or the deny-list. */
  lemma RevokeAllResets(s: Store, identity: string, now: int64, req: Request, p: EffectivePolicy)
    requires Sound(s) && RevokeAll(s, identity, now).ok && req.identity == identity
    ensures Enforced(RevokeAll(s, identity, now).store, req, p) == if Record(s, identity).denied then DenyAll(p) else p
  {
    hide *;
    var s' := RevokeAll(s, identity, now).store;
    var q := if Record(s, identity).denied then DenyAll(p) else p;
    AllRevokedSound(s, identity, now);
    ProjectionAgrees(s', req, p);
    AllRevoked(s, identity, now);
    forall c: Capability ensures Slot(Enforced(s', req, p), c) == Slot(q, c) {
      assert Slot(Enforced(s', req, p), c) == Answer(s', req, p, c);
      AnswerOfRecord(s', req, p, c);
      BareAnswer(Record(s', identity), req, p, c);
      SlotLaws(p, c, c, Deny);
    }
    TwiceDenied(p);
    SlotsDetermine(Enforced(s', req, p), q);
  }

  lemma TwiceDenied(p: EffectivePolicy)
    ensures DenyAll(DenyAll(p)) == DenyAll(p)
  {
  }

  lemma AllRevokedSound(s: Store, identity: string, now: int64)
    requires Sound(s) && RevokeAll(s, identity, now).ok
    ensures Sound(RevokeAll(s, identity, now).store) && !RevokeAll(s, identity, now).store.corrupt
  {
    hide ClearedRows, RevokeRows, Tombstones, Sound;
    OpSound(s, OpRevokeAll(identity), now);
  }

  lemma AllRevoked(s: Store, identity: string, now: int64)
    requires RevokeAll(s, identity, now).ok
    ensures var r := Record(RevokeAll(s, identity, now).store, identity);
            r.denied == Record(s, identity).denied && r.defaults == map[] && forall i | 0 <= i < |r.grants| :: r.grants[i].revoked
  {
    hide RevokeRows, ClearedRows, Tombstones;
  }

  lemma BareAnswer(r: IdentityRecord, req: Request, p: EffectivePolicy, c: Capability)
    requires r.defaults == map[] && forall i | 0 <= i < |r.grants| :: r.grants[i].revoked
    ensures RecordAnswer(r, req, p, c) == if r.denied then Deny else Slot(p, c)
  {
  }

  /** A denied identity is denied everything, whatever grants and defaults it holds. */
  lemma DenyListIsFinal(s: Store, identity: string, now: int64, req: Request, p: EffectivePolicy)
    requires Sound(s) && OpUtf8(OpSetDenied(identity, true)) && SetDenied(s, identity, true, now).ok && req.identity == identity
    ensures Enforced(SetDenied(s, identity, true, now).store, req, p) == DenyAll(p)
  {
    hide *;
    var s' := SetDenied(s, identity, true, now).store;
    DeniedSound(s, identity, now);
    ProjectionAgrees(s', req, p);
    forall c: Capability ensures Slot(Enforced(s', req, p), c) == Slot(DenyAll(p), c) {
      assert Slot(Enforced(s', req, p), c) == Answer(s', req, p, c);
      AnswerOfRecord(s', req, p, c);
      DeniedAnswer(Record(s', identity), req, p, c);
      SlotLaws(p, c, c, Deny);
    }
    TwiceDenied(p);
    SlotsDetermine(Enforced(s', req, p), DenyAll(p));
  }

  lemma DeniedAnswer(r: IdentityRecord, req: Request, p: EffectivePolicy, c: Capability)
    requires r.denied
    ensures RecordAnswer(r, req, p, c) == Deny
  {
  }

  lemma DeniedSound(s: Store, identity: string, now: int64)
    requires Sound(s) && OpUtf8(OpSetDenied(identity, true)) && SetDenied(s, identity, true, now).ok
    ensures var s' := SetDenied(s, identity, true, now).store; Sound(s') && !s'.corrupt && Record(s', identity).denied
  {
    hide Sound, OpUtf8;
    OpSound(s, OpSetDenied(identity, true), now);
  }

  /** A default decides exactly where neither the deny-list nor a live grant does, and touches no other capability. */
  lemma DefaultTakesEffect(s: Store, identity: string, capability: string, state: string, now: int64, q: Request, p: EffectivePolicy, c: Capability)
    requires Sound(s) && OpUtf8(OpSetDefault(identity, capability, state)) && SetDefault(s, identity, capability, state, now).ok && q.identity == identity
    ensures ParseCapState(state).Some?
    ensures Slot(Enforced(SetDefault(s, identity, capability, state, now).store, q, p), c)
            == if ParseCapability(capability) == Some(c) && !Record(s, identity).denied && !HasLive(Record(s, identity).grants, q, c)
               then ParseCapState(state).value else Slot(Enforced(s, q, p), c)
  {
    hide *;
    var s' := SetDefault(s, identity, capability, state, now).store;
    DefaultRecord(s, identity, capability, state, now);
    assert Sound(s') by { OpSound(s, OpSetDefault(identity, capability, state), now); ApplyDefault(s, identity, capability, state, now); }
    ProjectionAgrees(s', q, p);
    ProjectionAgrees(s, q, p);
    assert Slot(Enforced(s', q, p), c) == Answer(s', q, p, c) && Slot(Enforced(s, q, p), c) == Answer(s, q, p, c);
    AnswerOfRecord(s', q, p, c);
    AnswerOfRecord(s, q, p, c);
    DefaultAnswers(Record(s, identity), ParseCapability(capability).value, ParseCapState(state).value, q, p, c);
  }

  lemma ApplyDefault(s: Store, identity: string, capability: string, state: string, now: int64)
    ensures Apply(s, OpSetDefault(identity, capability, state), now) == SetDefault(s, identity, capability, state, now)
  {
  }

  lemma DefaultRecord(s: Store, identity: string, capability: string, state: string, now: int64)
    requires SetDefault(s, identity, capability, state, now).ok
    ensures ParseCapability(capability).Some? && ParseCapState(state).Some? && !s.corrupt
    ensures !SetDefault(s, identity, capability, state, now).store.corrupt
    ensures Record(SetDefault(s, identity, capability, state, now).store, identity)
            == Record(s, identity).(defaults := Record(s, identity).defaults[ParseCapability(capability).value := ParseCapState(state).value])
  {
    hide ParseCapability, ParseCapState;
    var r := Record(s, identity);
    var c, st := ParseCapability(capability).value, ParseCapState(state).value;
    if c in r.defaults && r.defaults[c] == st { assert r.defaults[c := st] == r.defaults; }
  }

  lemma DefaultAnswers(r: IdentityRecord, cap: Capability, st: CapState, q: Request, p: EffectivePolicy, c: Capability)
    ensures RecordAnswer(r.(defaults := r.defaults[cap := st]), q, p, c)
            == if cap == c && !r.denied && !HasLive(r.grants, q, c) then st else RecordAnswer(r, q, p, c)
  {
    hide HasLive, Slot;
  }

  // Isolation of identities

  /** The identity an operation is about; a sweep is about all of them. */
  ghost predicate About(s: Store, op: Op, identity: string) {
    match op
    case OpSetDefault(id, _, _) => id == identity
    case OpGrant(req) => req.identity == identity
    case OpSetDenied(id, _) => id == identity
    case OpConsume(id) => FindHolder(SortedKeys(s.identities.Keys), s.identities, id) == Some(identity)
    case OpSweep(_) => true
    case OpRevokeSite(id, _) => id == identity
    case OpRevokeAll(id) => id == identity
  }

  lemma OthersUntouched(s: Store, op: Op, now: int64, identity: string)
    requires !About(s, op, identity)
    ensures Record(Apply(s, op, now).store, identity) == Record(s, identity)
  {
    hide ParseCapability, ParseCapState, GrantRefusal, NextFree, GrantId, StoreIds, NewGrant, FindHolder, FindGrant, Without, SortedKeys,
         RedactOrigin, Tombstones, RevokeRows, ClearedRows, TempRow, DefaultRow, DenyRow;
    if op.OpGrant? { GrantParsesIfNew(s, op.req, now); }
  }

  /** An operation about one identity never changes what another identity gets. */
  lemma NonInterference(s: Store, op: Op, now: int64, req: Request, p: EffectivePolicy)
    requires Sound(s) && OpUtf8(op) && !About(s, op, req.identity)
    ensures Enforced(Apply(s, op, now).store, req, p) == Enforced(s, req, p)
  {
    var s' := Apply(s, op, now).store;
    OpSound(s, op, now);
    if s.corrupt {
      CorruptRefuses(s, op, now);
    } else {
      OthersUntouched(s, op, now, req.identity);
      hide *;
      SameRecordAnswers(s', s, req, req, p);
    }
  }

  // Granting and spending

  /** The requests that a grant of this kind answers. */
  predicate Covers(req: GrantRequest, now: int64, q: Request, c: Capability)
    requires ParseScope(req.scope).Some?
  {
    && q.domain == req.domain && ParseCapability(req.capability) == Some(c)
    && match ParseScope(req.scope).value
       case Once => true
       case Session => q.session == req.sessionId
       case SevenDays => q.now < now + SEVEN_DAYS_MILLIS
  }

  /** A grant allows exactly what it covers: nothing more on this identity, and nothing less unless deny-listed. */
  lemma GrantTakesEffect(s: Store, req: GrantRequest, now: int64, q: Request, p: EffectivePolicy, c: Capability)
    requires Sound(s) && OpUtf8(OpGrant(req)) && GrantTemp(s, req, now).ok && q.identity == req.identity
    ensures ParseScope(req.scope).Some?
    ensures Slot(Enforced(GrantTemp(s, req, now).store, q, p), c)
            == if Covers(req, now, q, c) && !Record(s, q.identity).denied then Allow else Slot(Enforced(s, q, p), c)
  {
    hide *;
    var s' := GrantTemp(s, req, now).store;
    GrantedRecord(s, req, now);
    assert Sound(s') by { OpSound(s, OpGrant(req), now); ApplyGrant(s, req, now); }
    ProjectionAgrees(s', q, p);
    ProjectionAgrees(s, q, p);
    assert Slot(Enforced(s', q, p), c) == Answer(s', q, p, c) && Slot(Enforced(s, q, p), c) == Answer(s, q, p, c);
    var id := GrantId(NextFree(StoreIds(s.identities), s.nextSeq));
    var g := NewGrant(id, req, now);
    NewCovers(id, req, now, q, c);
    AnswerOfRecord(s', q, p, c);
    AnswerOfRecord(s, q, p, c);
    LiveAdds(Record(s, q.identity), g, q, p, c);
  }

  lemma ApplyGrant(s: Store, req: GrantRequest, now: int64)
    ensures Apply(s, OpGrant(req), now) == GrantTemp(s, req, now)
  {
  }

  lemma GrantedRecord(s: Store, req: GrantRequest, now: int64)
    requires GrantTemp(s, req, now).ok
    ensures GrantRefusal(s, req, now).None? && !s.corrupt
    ensures ParseCapability(req.capability).Some? && ParseScope(req.scope).Some?
            && (ParseScope(req.scope).value == SevenDays ==> now <= INT64_MAX - SEVEN_DAYS_MILLIS)
    ensures Record(GrantTemp(s, req, now).store, req.identity)
            == Record(s, req.identity).(grants := Record(s, req.identity).grants + [NewGrant(GrantId(NextFree(StoreIds(s.identities), s.nextSeq)), req, now)])
    ensures !GrantTemp(s, req, now).store.corrupt
  {
    GrantParsesIfNew(s, req, now);
    hide NextFree, GrantId, StoreIds, NewGrant, ParseCapability, ParseScope, RedactOrigin;
  }

  lemma NewCovers(id: string, req: GrantRequest, now: int64, q: Request, c: Capability)
    requires ParseCapability(req.capability).Some? && ParseScope(req.scope).Some?
    requires ParseScope(req.scope).value == SevenDays ==> now <= INT64_MAX - SEVEN_DAYS_MILLIS
    ensures Live(NewGrant(id, req, now), q, c) <==> Covers(req, now, q, c)
  {
    hide ParseCapability, ParseScope;
  }

  lemma LiveAdds(r: IdentityRecord, g: StoredGrant, q: Request, p: EffectivePolicy, c: Capability)
    ensures RecordAnswer(r.(grants := r.grants + [g]), q, p, c)
            == if Live(g, q, c) && !r.denied then Allow else RecordAnswer(r, q, p, c)
  {
    hide Live, Slot;
    var gs := r.grants + [g];
    if Live(g, q, c) { assert gs[|r.grants|] == g; }
    if i :| 0 <= i < |r.grants| && Live(r.grants[i], q, c) { assert gs[i] == r.grants[i]; }
  }

  lemma {:induction false} NotHeld(gs: seq<StoredGrant>, id: string)
    requires !HasId(gs, id)
    ensures FindGrant(gs, id) == |gs|
  {
    if gs != [] {
      assert gs[0].id != id;
      assert !HasId(gs[1..], id) by { forall i | 0 <= i < |gs[1..]| ensures gs[1..][i].id != id { assert gs[i + 1].id != id; } }
      NotHeld(gs[1..], id);
    }
  }

  lemma UniqueWithout(gs: seq<StoredGrant>, i: nat)
    requires i < |gs| && UniqueIds(gs)
    ensures !HasId(Without(gs, i), gs[i].id)
  {
    var w := Without(gs, i);
    forall j | 0 <= j < |w| ensures w[j].id != gs[i].id { assert w[j] == gs[if j < i then j else j + 1]; }
  }

  /** A once grant is spent at most once: its id is gone, and a second attempt is refused at any later time. */
  lemma SpentOnce(s: Store, id: string, now: int64, later: int64)
    requires StoreOk(s) && ConsumeOnce(s, id, now).ok
    ensures var s' := ConsumeOnce(s, id, now).store; !HasGrantId(s', id) && ConsumeOnce(s', id, later) == Refuse(s', "unknown-grant")
  {
    hide FindGrant, FindHolder, Without, SortedKeys, UniqueIds, HasId, RecordOk, DistinctIds;
    var ids := s.identities;
    var k := FindHolder(SortedKeys(ids.Keys), ids, id).value;
    var i := FindGrant(ids[k].grants, id);
    var s' := ConsumeOnce(s, id, now).store;
    DistinctParts(ids);
    UniqueWithout(ids[k].grants, i);
    assert HasId(ids[k].grants, id) by { HeldHere(ids[k].grants, i); }
    forall x | x in s'.identities ensures !HasId(s'.identities[x].grants, id) { }
    forall x | x in s'.identities ensures !Holds(s'.identities[x], id) { NotHeld(s'.identities[x].grants, id); }
    assert FindHolder(SortedKeys(s'.identities.Keys), s'.identities, id).None?;
  }

  lemma HeldHere(gs: seq<StoredGrant>, i: nat)
    requires i < |gs|
    ensures HasId(gs, gs[i].id)
  {
  }
}
