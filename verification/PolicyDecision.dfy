/**
  What the resolver answers, written out over the request: which entry decides the tier, what each tier says in every field,
  and what the enterprise layer, the identity, the request class and an extension change.
 */
module PolicyDecision {
  import opened Wrappers
  import opened Order
  import opened JsonText
  import opened PermissionTypes
  import opened PermissionOverlay
  import opened PolicyTypes
  import opened PolicyCodec
  import opened PolicyResolve

  // Who decides the tier

  ghost predicate Concerns(domain: string, identity: string, req: Request) {
    domain == req.domain && (identity == "" || identity == req.identity)
  }

  /** A once exception has uses left, a session one is of this session, a seven-day one ends later, a permanent one is from the settings. */
  ghost predicate InForce(e: ExceptionEntry, req: Request) {
    || (e.scope == "once" && e.remainingUses > 0)
    || (e.scope == "session" && e.sessionId != "" && e.sessionId == req.session)
    || (e.scope == "7d" && req.now < e.expiresAt)
    || (e.scope == "permanent" && e.grantedBy == "settings")
  }

  /** The younger entry, or of two of one age that with the name later in byte order. */
  ghost predicate Beats(created: int64, name: string, created': int64, name': string) {
    created' < created || (created == created' && ByteBefore(name', name))
  }

  ghost predicate Candidate(es: seq<ExceptionEntry>, req: Request, i: int) {
    0 <= i < |es| && Concerns(es[i].domain, es[i].identity, req) && InForce(es[i], req)
  }

  /** No candidate beats this one, and it beats those before it in the list. */
  ghost predicate ExceptionDecides(es: seq<ExceptionEntry>, req: Request, i: int) {
    Candidate(es, req, i)
    && forall j | Candidate(es, req, j) ::
         !Beats(es[j].createdAt, es[j].id, es[i].createdAt, es[i].id) && (j < i ==> Beats(es[i].createdAt, es[i].id, es[j].createdAt, es[j].id))
  }

  ghost predicate BindingCandidate(bs: seq<TrustBinding>, req: Request, i: int) {
    0 <= i < |bs| && Concerns(bs[i].domain, bs[i].identity, req)
  }

  ghost predicate BindingDecides(bs: seq<TrustBinding>, req: Request, i: int) {
    BindingCandidate(bs, req, i)
    && forall j | BindingCandidate(bs, req, j) ::
         !Beats(bs[j].createdAt, bs[j].identity, bs[i].createdAt, bs[i].identity)
         && (j < i ==> Beats(bs[i].createdAt, bs[i].identity, bs[j].createdAt, bs[j].identity))
  }

  lemma PreferIsBeats(a: int64, x: string, b: int64, y: string)
    ensures Prefer(a, x, b, y) <==> Beats(a, x, b, y)
  {
    LessIsByteOrder(y, x);
    LessIsByteOrder(x, y);
    StringsAreOrdered();
    hide Less, ByteBefore;
  }

  lemma CountsIsInForce(e: ExceptionEntry, req: Request)
    ensures ExceptionCounts(e, req) <==> Concerns(e.domain, e.identity, req) && InForce(e, req)
  {
  }

  lemma BeatsIsOrder(a: int64, x: string, b: int64, y: string, c: int64, z: string)
    ensures !Beats(a, x, a, x) && (Beats(a, x, b, y) ==> !Beats(b, y, a, x))
    ensures Beats(a, x, b, y) && Beats(b, y, c, z) ==> Beats(a, x, c, z)
    ensures Beats(a, x, b, y) && !Beats(c, z, b, y) ==> Beats(a, x, c, z)
    ensures !Beats(a, x, b, y) && Beats(c, z, b, y) ==> Beats(c, z, a, x)
  {
    PreferIsBeats(a, x, a, x);
    PreferIsBeats(a, x, b, y);
    PreferIsBeats(b, y, a, x);
    PreferIsBeats(b, y, c, z);
    PreferIsBeats(a, x, c, z);
    PreferIsBeats(c, z, b, y);
    PreferIsBeats(c, z, a, x);
    PreferIsOrder(a, x, b, y, c, z);
    PreferIsOrder(c, z, a, x, b, y);
    PreferIsOrder(b, y, a, x, c, z);
    PreferIsOrder(c, z, b, y, a, x);
    PreferIsOrder(b, y, c, z, a, x);
    hide Prefer, Beats;
  }

  lemma {:induction false} ExceptionScan(es: seq<ExceptionEntry>, req: Request)
    ensures match WinningException(es, req)
            case None => forall i :: !Candidate(es, req, i)
            case Some(e) => exists i :: ExceptionDecides(es, req, i) && es[i] == e
  {
    hide ExceptionCounts, Prefer, Concerns, InForce, Beats;
    if es != [] {
      var front, n := es[..|es| - 1], |es| - 1;
      var e := es[n];
      ExceptionScan(front, req);
      CountsIsInForce(e, req);
      forall i ensures Candidate(es, req, i) <==> Candidate(front, req, i) || (i == n && Concerns(e.domain, e.identity, req) && InForce(e, req)) {
        if 0 <= i < n { assert front[i] == es[i]; }
      }
      var w := WinningException(front, req);
      if w.Some? {
        var i :| ExceptionDecides(front, req, i) && front[i] == w.value;
        PreferIsBeats(e.createdAt, e.id, w.value.createdAt, w.value.id);
        NewException(es, req, i);
      } else if ExceptionCounts(e, req) {
        BeatsIsOrder(e.createdAt, e.id, e.createdAt, e.id, e.createdAt, e.id);
        assert ExceptionDecides(es, req, n);
      }
    }
  }

  lemma NewException(es: seq<ExceptionEntry>, req: Request, i: int)
    requires es != [] && ExceptionDecides(es[..|es| - 1], req, i)
    requires forall j :: Candidate(es, req, j) <==> Candidate(es[..|es| - 1], req, j) || (j == |es| - 1 && Candidate(es, req, j))
    ensures var (n, e, w) := (|es| - 1, es[|es| - 1], es[i]);
            if Candidate(es, req, n) && Beats(e.createdAt, e.id, w.createdAt, w.id) then ExceptionDecides(es, req, n) else ExceptionDecides(es, req, i)
  {
    hide Beats, Concerns, InForce;
    var front, n := es[..|es| - 1], |es| - 1;
    var e, w := es[n], es[i];
    assert front[i] == w;
    forall j | Candidate(es, req, j)
      ensures BestOf(e, w, es[j], j == n)
    {
      if j < n { assert front[j] == es[j] && Candidate(front, req, j); }
      BeatsIsOrder(e.createdAt, e.id, w.createdAt, w.id, es[j].createdAt, es[j].id);
      BeatsIsOrder(w.createdAt, w.id, e.createdAt, e.id, es[j].createdAt, es[j].id);
      BeatsIsOrder(e.createdAt, e.id, e.createdAt, e.id, e.createdAt, e.id);
    }
    if !(Candidate(es, req, n) && Beats(e.createdAt, e.id, w.createdAt, w.id)) {
      forall j | Candidate(es, req, j)
        ensures !Beats(es[j].createdAt, es[j].id, w.createdAt, w.id) && (j < i ==> Beats(w.createdAt, w.id, es[j].createdAt, es[j].id))
      {
        if j < n { assert front[j] == es[j] && Candidate(front, req, j); }
      }
    }
  }

  ghost predicate BestOf(e: ExceptionEntry, w: ExceptionEntry, x: ExceptionEntry, same: bool) {
    Beats(e.createdAt, e.id, w.createdAt, w.id) ==>
      !Beats(x.createdAt, x.id, e.createdAt, e.id) && (!same ==> Beats(e.createdAt, e.id, x.createdAt, x.id))
  }

  lemma {:induction false} BindingScan(bs: seq<TrustBinding>, req: Request)
    ensures match WinningBinding(bs, req)
            case None => forall i :: !BindingCandidate(bs, req, i)
            case Some(b) => exists i :: BindingDecides(bs, req, i) && bs[i] == b
  {
    hide Prefer, Beats;
    if bs != [] {
      var front, n := bs[..|bs| - 1], |bs| - 1;
      var b := bs[n];
      BindingScan(front, req);
      forall i ensures BindingCandidate(bs, req, i) <==> BindingCandidate(front, req, i) || (i == n && Concerns(b.domain, b.identity, req)) {
        if 0 <= i < n { assert front[i] == bs[i]; }
      }
      hide Concerns;
      var w := WinningBinding(front, req);
      if w.Some? {
        var i :| BindingDecides(front, req, i) && front[i] == w.value;
        PreferIsBeats(b.createdAt, b.identity, w.value.createdAt, w.value.identity);
        NewBinding(bs, req, i);
      } else if BindingCounts(b, req) {
        BeatsIsOrder(b.createdAt, b.identity, b.createdAt, b.identity, b.createdAt, b.identity);
        assert BindingDecides(bs, req, n);
      }
    }
  }

  lemma NewBinding(bs: seq<TrustBinding>, req: Request, i: int)
    requires bs != [] && BindingDecides(bs[..|bs| - 1], req, i)
    requires forall j :: BindingCandidate(bs, req, j) <==> BindingCandidate(bs[..|bs| - 1], req, j) || (j == |bs| - 1 && BindingCandidate(bs, req, j))
    ensures var (n, b, w) := (|bs| - 1, bs[|bs| - 1], bs[i]);
            if BindingCandidate(bs, req, n) && Beats(b.createdAt, b.identity, w.createdAt, w.identity) then BindingDecides(bs, req, n) else BindingDecides(bs, req, i)
  {
    hide Beats, Concerns;
    var front, n := bs[..|bs| - 1], |bs| - 1;
    var b, w := bs[n], bs[i];
    assert front[i] == w;
    forall j | BindingCandidate(bs, req, j) ensures BestBinding(b, w, bs[j], j == n) {
      if j < n { assert front[j] == bs[j] && BindingCandidate(front, req, j); }
      BeatsIsOrder(b.createdAt, b.identity, w.createdAt, w.identity, bs[j].createdAt, bs[j].identity);
      BeatsIsOrder(w.createdAt, w.identity, b.createdAt, b.identity, bs[j].createdAt, bs[j].identity);
      BeatsIsOrder(b.createdAt, b.identity, b.createdAt, b.identity, b.createdAt, b.identity);
    }
    if !(BindingCandidate(bs, req, n) && Beats(b.createdAt, b.identity, w.createdAt, w.identity)) {
      forall j | BindingCandidate(bs, req, j)
        ensures !Beats(bs[j].createdAt, bs[j].identity, w.createdAt, w.identity) && (j < i ==> Beats(w.createdAt, w.identity, bs[j].createdAt, bs[j].identity))
      {
        if j < n { assert front[j] == bs[j] && BindingCandidate(front, req, j); }
      }
    }
  }

  ghost predicate BestBinding(e: TrustBinding, w: TrustBinding, x: TrustBinding, same: bool) {
    Beats(e.createdAt, e.identity, w.createdAt, w.identity) ==>
      !Beats(x.createdAt, x.identity, e.createdAt, e.identity) && (!same ==> Beats(e.createdAt, e.identity, x.createdAt, x.identity))
  }

  /** A name that is no tier is the strictest. */
  ghost predicate Named(trust: string, t: int) {
    if trust == "kStandard" then t == 0 else if trust == "kShield" then t == 1 else t == 2
  }

  /** Explicit trust decides; else the exception that does, if any is in force; else the binding, if any applies; else the tier is standard. */
  ghost predicate Selected(r: ResolveRequest, t: int) {
    if r.hasTrust then Named(r.trust, t)
    else if exists i :: Candidate(r.exceptions, r.req, i) then exists i :: ExceptionDecides(r.exceptions, r.req, i) && Named(r.exceptions[i].trust, t)
    else if exists i :: BindingCandidate(r.bindings, r.req, i) then exists i :: BindingDecides(r.bindings, r.req, i) && Named(r.bindings[i].trust, t)
    else t == 0
  }

  lemma TierNamed(trust: string)
    ensures var t := TierIndex(trust); Named(trust, if t < 0 then 2 else t)
  {
  }

  lemma SelectedIs(r: ResolveRequest)
    ensures Selected(r, SelectedTier(r))
  {
    ExceptionScan(r.exceptions, r.req);
    BindingScan(r.bindings, r.req);
    hide WinningException, WinningBinding, Concerns, InForce, Beats, Named, TierIndex;
    TierNamed(r.trust);
    if !r.hasTrust {
      match WinningException(r.exceptions, r.req)
      case Some(e) =>
        TierNamed(e.trust);
        var i :| ExceptionDecides(r.exceptions, r.req, i) && r.exceptions[i] == e;
        assert Candidate(r.exceptions, r.req, i);
        StandardTier();
      case None =>
        match WinningBinding(r.bindings, r.req)
        case Some(b) =>
          TierNamed(b.trust);
          var i :| BindingDecides(r.bindings, r.req, i) && r.bindings[i] == b;
          assert BindingCandidate(r.bindings, r.req, i);
        case None =>
    }
  }

  lemma StandardTier()
    ensures TierIndex("kStandard") == 0
  {
  }

  /** The enterprise floor raises the tier to its own, if that is higher. */
  ghost predicate Raised(r: ResolveRequest, t: int, u: int) {
    if r.enterprise.present && r.enterprise.trustFloor == "kFortress" then u == 2
    else if r.enterprise.present && r.enterprise.trustFloor == "kShield" && t == 0 then u == 1
    else u == t
  }

  // What a tier says

  /** The identity's flags are those of its first entry in the list. */
  ghost predicate Flags(r: ResolveRequest, ephemeral: bool, fortress: bool) {
    if exists i :: FirstEntry(r, i) then exists i :: FirstEntry(r, i) && ephemeral == r.identities[i].ephemeral && fortress == r.identities[i].fortress
    else !ephemeral && !fortress
  }

  ghost predicate FirstEntry(r: ResolveRequest, i: int) {
    0 <= i < |r.identities| && r.identities[i].value == r.req.identity && forall j | 0 <= j < i :: r.identities[j].value != r.req.identity
  }

  /** Every field of the answer, before the overlay. */
  ghost predicate Says(r: ResolveRequest, t: int, ephemeral: bool, fortress: bool, p: EffectivePolicy) {
    var ent := r.enterprise;
    && p.contractVersion == 1 && p.blockNetworkAds && p.blockTrackers && p.upgradeToHttps && !p.exportAllowed && p.siteIsolated
    && p.hideCosmetic == (t != 0) && p.blockScriptlets == (t != 0)
    && p.geolocation == p.camera == p.microphone == (if t == 0 then Ask else Deny)
    && p.notifications == (if t == 2 then Deny else Ask)
    && p.blockThirdParty == (t != 0 || (ent.present && ent.forceBlockThirdParty))
    && p.route == (if ent.present && ent.forceRoute == "kDirect" then Direct else if ent.present && ent.forceRoute == "kProxy" then Proxy
                   else if ent.present && ent.forceRoute == "kWireguard" then Wireguard else if ent.present && ent.forceRoute == "kTor" then Tor
                   else if t == 0 then Direct else if t == 1 then Proxy else Tor)
    && p.fingerprintMode == (if ent.present && ent.forceFingerprint == "kOff" then Off else if ent.present && ent.forceFingerprint == "kReduce" then Reduce
                             else if ent.present && ent.forceFingerprint == "kStrict" then Strict else if t == 2 then Strict else Reduce)
    && p.storageScope == (if ephemeral then Ephemeral else if fortress || t == 2 then FortressPartition else IdentityScoped)
    && p.inMemory == ephemeral
    && p.autofillAllowed == ((r.requestClass == "kNavigation" || r.requestClass == "kPermission") && !r.extensionPresent)
    && p.dedicatedProcess == (fortress || t == 2)
    && p.letterbox == (t == 2 || (ent.present && ent.forceLetterbox))
  }

  lemma {:induction false} InfoIsFirst(ids: seq<IdentityInfo>, identity: string) returns (n: int)
    ensures n == -1 ==> (forall i | 0 <= i < |ids| :: ids[i].value != identity) && InfoOf(ids, identity) == IdentityInfo(identity, false, false)
    ensures n != -1 ==> 0 <= n < |ids| && ids[n].value == identity && (forall i | 0 <= i < n :: ids[i].value != identity) && InfoOf(ids, identity) == ids[n]
  {
    if ids == [] {
      n := -1;
    } else if ids[0].value == identity {
      n := 0;
    } else {
      n := InfoIsFirst(ids[1..], identity);
      assert forall i | 1 <= i < |ids| :: ids[i] == ids[1..][i - 1];
      if n != -1 { n := n + 1; }
    }
  }

  lemma FlagsAre(r: ResolveRequest)
    ensures var info := InfoOf(r.identities, r.req.identity); Flags(r, info.ephemeral, info.fortress)
  {
    var n := InfoIsFirst(r.identities, r.req.identity);
    hide InfoOf;
    if n != -1 { assert FirstEntry(r, n); }
  }

  lemma SameFields(p: EffectivePolicy)
    ensures p.(fingerprintMode := p.fingerprintMode) == p && p.(route := p.route) == p
    ensures p.(fingerprintMode := p.fingerprintMode, route := p.route, letterbox := p.letterbox, blockThirdParty := p.blockThirdParty) == p
  {
  }

  lemma ModeParsed(e: Enterprise, m: FingerprintMode)
    requires e.present
    ensures ForcedMode(e, m) == match ParseMode(e.forceFingerprint) case Some(x) => x case None => m
  {
  }

  lemma RouteParsed(e: Enterprise, m: RouteClass)
    requires e.present
    ensures ForcedRoute(e, m) == match ParseRoute(e.forceRoute) case Some(x) => x case None => m
  {
  }

  lemma ModeForced(e: Enterprise, p: EffectivePolicy)
    requires e.present
    ensures ForceMode(p, e.forceFingerprint) == p.(fingerprintMode := ForcedMode(e, p.fingerprintMode))
  {
    ModeParsed(e, p.fingerprintMode);
    SameFields(p);
    hide ParseMode, ForcedMode;
    match ParseMode(e.forceFingerprint)
    case Some(x) => assert ForceMode(p, e.forceFingerprint) == p.(fingerprintMode := x);
    case None => assert ForceMode(p, e.forceFingerprint) == p;
  }

  lemma RouteForced(e: Enterprise, p: EffectivePolicy)
    requires e.present
    ensures ForceRoute(p, e.forceRoute) == p.(route := ForcedRoute(e, p.route))
  {
    RouteParsed(e, p.route);
    SameFields(p);
    hide ParseRoute, ForcedRoute;
    match ParseRoute(e.forceRoute)
    case Some(x) => assert ForceRoute(p, e.forceRoute) == p.(route := x);
    case None => assert ForceRoute(p, e.forceRoute) == p;
  }

  lemma NotForced(e: Enterprise, p: EffectivePolicy)
    requires !e.present
    ensures ForcedMode(e, p.fingerprintMode) == p.fingerprintMode && ForcedRoute(e, p.route) == p.route
  {
  }

  lemma ForcedInTurn(p: EffectivePolicy, m: FingerprintMode, x: RouteClass, letterbox: bool, third: bool)
    ensures p.(fingerprintMode := m).(route := x).(letterbox := letterbox, blockThirdParty := third)
            == p.(fingerprintMode := m, route := x, letterbox := letterbox, blockThirdParty := third)
  {
  }

  ghost function ForcedMode(e: Enterprise, m: FingerprintMode): FingerprintMode {
    if e.present && e.forceFingerprint == "kOff" then Off else if e.present && e.forceFingerprint == "kReduce" then Reduce
    else if e.present && e.forceFingerprint == "kStrict" then Strict else m
  }

  ghost function ForcedRoute(e: Enterprise, x: RouteClass): RouteClass {
    if e.present && e.forceRoute == "kDirect" then Direct else if e.present && e.forceRoute == "kProxy" then Proxy
    else if e.present && e.forceRoute == "kWireguard" then Wireguard else if e.present && e.forceRoute == "kTor" then Tor else x
  }

  lemma ForcedFields(r: ResolveRequest, p: EffectivePolicy)
    ensures var e := r.enterprise;
            Forced(r, p) == p.(fingerprintMode := ForcedMode(e, p.fingerprintMode), route := ForcedRoute(e, p.route),
                               letterbox := p.letterbox || (e.present && e.forceLetterbox),
                               blockThirdParty := p.blockThirdParty || (e.present && e.forceBlockThirdParty))
  {
    var e := r.enterprise;
    SameFields(p);
    var m, x := ForcedMode(e, p.fingerprintMode), ForcedRoute(e, p.route);
    hide ForceMode, ForceRoute, ForcedMode, ForcedRoute;
    if e.present {
      ModeForced(e, p);
      RouteForced(e, ForceMode(p, e.forceFingerprint));
      ForcedInTurn(p, m, x, p.letterbox || e.forceLetterbox, p.blockThirdParty || e.forceBlockThirdParty);
      assert Forced(r, p) == ForceFlags(p.(fingerprintMode := m).(route := x), e);
    } else {
      NotForced(e, p);
    }
  }

  lemma TieredFields(t: int, ephemeral: bool, fortress: bool, requestClass: string)
    requires 0 <= t <= 2
    ensures TieredPolicy(t, ephemeral, fortress, requestClass)
            == EffectivePolicy(1, true, true, true, t != 0, t != 0, if t == 0 then Ask else Deny, if t == 0 then Ask else Deny, if t == 0 then Ask else Deny,
                               if t == 2 then Deny else Ask, t != 0, if t == 0 then Direct else if t == 1 then Proxy else Tor, if t == 2 then Strict else Reduce,
                               if ephemeral then Ephemeral else if fortress || t == 2 then FortressPartition else IdentityScoped, ephemeral,
                               requestClass == "kNavigation" || requestClass == "kPermission", false, true, fortress || t == 2, t == 2)
  {
  }

  lemma TierSays(r: ResolveRequest, t: int, ephemeral: bool, fortress: bool)
    requires 0 <= t <= 2
    ensures var p := Forced(r, TieredPolicy(t, ephemeral, fortress, r.requestClass));
            Says(r, t, ephemeral, fortress, if r.extensionPresent then p.(autofillAllowed := false) else p)
  {
    TieredFields(t, ephemeral, fortress, r.requestClass);
    ForcedFields(r, TieredPolicy(t, ephemeral, fortress, r.requestClass));
    hide Forced, TieredPolicy, ForcedMode, ForcedRoute;
    ForcesWrittenOut(r.enterprise, if t == 2 then Strict else Reduce, if t == 0 then Direct else if t == 1 then Proxy else Tor);
  }

  lemma ForcesWrittenOut(e: Enterprise, m: FingerprintMode, x: RouteClass)
    ensures ForcedMode(e, m) == (if e.present && e.forceFingerprint == "kOff" then Off else if e.present && e.forceFingerprint == "kReduce" then Reduce
                                 else if e.present && e.forceFingerprint == "kStrict" then Strict else m)
    ensures ForcedRoute(e, x) == (if e.present && e.forceRoute == "kDirect" then Direct else if e.present && e.forceRoute == "kProxy" then Proxy
                                  else if e.present && e.forceRoute == "kWireguard" then Wireguard else if e.present && e.forceRoute == "kTor" then Tor else x)
  {
  }

  lemma RaisedIs(r: ResolveRequest)
    ensures Raised(r, SelectedTier(r), EffectiveTier(r))
  {
    hide SelectedTier;
  }

  /**
    The answer to a decided request: some tier is selected and raised, its fields are those that the request asks for, and the
    overlay has the last word.
   */
  lemma DecisionIs(r: ResolveRequest) returns (selected: int, t: int, ephemeral: bool, fortress: bool, p: EffectivePolicy)
    requires r.hasRequest && !r.versionMismatch && r.coreValid
    ensures Selected(r, selected) && Raised(r, selected, t) && Flags(r, ephemeral, fortress) && Says(r, t, ephemeral, fortress, p)
    ensures Resolve(r) == ResolveOutput(true, "", ApplyOverlay(r.overlay, r.req, p))
    ensures !r.overlay.present ==> Resolve(r).policy == p
  {
    selected := SelectedTier(r);
    t := EffectiveTier(r);
    var info := InfoOf(r.identities, r.req.identity);
    ephemeral, fortress := info.ephemeral, info.fortress;
    p := BasePolicy(r);
    SelectedIs(r);
    RaisedIs(r);
    FlagsAre(r);
    TierSays(r, t, ephemeral, fortress);
    hide SelectedTier, EffectiveTier, InfoOf, TieredPolicy, Forced, Selected, Raised, Flags, Says, ApplyGrants, ApplyDefaults;
  }

  // The answer is one answer

  lemma OneDecides(es: seq<ExceptionEntry>, req: Request, i: int, j: int)
    requires ExceptionDecides(es, req, i) && ExceptionDecides(es, req, j)
    ensures i == j
  {
    hide Beats, Candidate;
    assert Candidate(es, req, i) && Candidate(es, req, j);
  }

  lemma OneBindingDecides(bs: seq<TrustBinding>, req: Request, i: int, j: int)
    requires BindingDecides(bs, req, i) && BindingDecides(bs, req, j)
    ensures i == j
  {
    hide Beats, BindingCandidate;
    assert BindingCandidate(bs, req, i) && BindingCandidate(bs, req, j);
  }

  lemma NamedOnce(trust: string, t: int, u: int)
    ensures Named(trust, t) && Named(trust, u) ==> t == u
  {
  }

  /** The conditions select one tier. */
  lemma SelectedOnce(r: ResolveRequest, t: int, u: int)
    requires Selected(r, t) && Selected(r, u)
    ensures t == u
  {
    hide Concerns, InForce, Beats, Named;
    NamedOnce(r.trust, t, u);
    if !r.hasTrust {
      if exists i :: Candidate(r.exceptions, r.req, i) {
        var i :| ExceptionDecides(r.exceptions, r.req, i) && Named(r.exceptions[i].trust, t);
        var j :| ExceptionDecides(r.exceptions, r.req, j) && Named(r.exceptions[j].trust, u);
        OneDecides(r.exceptions, r.req, i, j);
        NamedOnce(r.exceptions[i].trust, t, u);
      } else if exists i :: BindingCandidate(r.bindings, r.req, i) {
        var i :| BindingDecides(r.bindings, r.req, i) && Named(r.bindings[i].trust, t);
        var j :| BindingDecides(r.bindings, r.req, j) && Named(r.bindings[j].trust, u);
        OneBindingDecides(r.bindings, r.req, i, j);
        NamedOnce(r.bindings[i].trust, t, u);
      }
    }
  }

  /** A request that is not decided gets the policy that denies, and an error only for its version. */
  lemma UndecidedIs(r: ResolveRequest)
    requires !(r.hasRequest && !r.versionMismatch && r.coreValid)
    ensures var o := Resolve(r);
            && o.ok == !(r.hasRequest && r.versionMismatch) && o.error == (if o.ok then "" else "kVersionMismatch")
            && o.policy == EffectivePolicy(1, true, true, true, true, true, Deny, Deny, Deny, Deny, true, Direct, Strict, Ephemeral, true, false, false, true, true, true)
  {
  }
}
