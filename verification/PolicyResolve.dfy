/** The resolver: which trust tier decides, the tier table, the enterprise layer, and the overlay as the last word. */
module PolicyResolve {
  import opened Wrappers
  import opened Order
  import opened PermissionTypes
  import opened PermissionOverlay
  import opened PolicyTypes
  import opened PolicyCodec
  import OverlayEngine

  datatype IdentityInfo = IdentityInfo(value: string, ephemeral: bool, fortress: bool)
  datatype TrustBinding = TrustBinding(domain: string, identity: string, trust: string, createdAt: int64)
  datatype ExceptionEntry = ExceptionEntry(id: string, domain: string, identity: string, scope: string, trust: string, createdAt: int64,
                                           expiresAt: int64, sessionId: string, remainingUses: int64, grantedBy: string)
  datatype Enterprise = Enterprise(present: bool, trustFloor: string, forceFingerprint: string, forceRoute: string,
                                   forceLetterbox: bool, forceBlockThirdParty: bool)

  datatype ResolveRequest = ResolveRequest(
    hasRequest: bool, versionMismatch: bool, coreValid: bool,
    req: Request, requestClass: string, hasTrust: bool, trust: string,
    identities: seq<IdentityInfo>, bindings: seq<TrustBinding>, exceptions: seq<ExceptionEntry>,
    enterprise: Enterprise, extensionPresent: bool, overlay: OverlayView)

  datatype ResolveOutput = ResolveOutput(ok: bool, error: string, policy: EffectivePolicy)

  function TierIndex(trust: string): int {
    if trust == "kStandard" then 0 else if trust == "kShield" then 1 else if trust == "kFortress" then 2 else -1
  }

  // The tier table

  function TieredPolicy(t: int, ephemeral: bool, fortress: bool, requestClass: string): EffectivePolicy
    requires 0 <= t <= 2
  {
    var def := if t == 0 then Ask else Deny;
    var (scope, inMemory) :=
      if ephemeral then (Ephemeral, true) else if fortress || t == 2 then (FortressPartition, false) else (IdentityScoped, false);
    EffectivePolicy(1, true, true, true, t >= 1, t >= 1, def, def, def, if t <= 1 then Ask else Deny, t >= 1,
                    if t == 0 then Direct else if t == 1 then Proxy else Tor, if t == 2 then Strict else Reduce, scope, inMemory,
                    requestClass == "kNavigation" || requestClass == "kPermission", false, true, fortress || t == 2, t == 2)
  }

  // Who decides the tier

  function ExceptionActive(e: ExceptionEntry, req: Request): bool {
    if e.scope == "once" then e.remainingUses > 0
    else if e.scope == "session" then e.sessionId != "" && e.sessionId == req.session
    else if e.scope == "7d" then e.expiresAt > req.now
    else if e.scope == "permanent" then e.grantedBy == "settings"
    else false
  }

  predicate ExceptionCounts(e: ExceptionEntry, req: Request) {
    e.domain == req.domain && (e.identity == "" || e.identity == req.identity) && ExceptionActive(e, req)
  }

  predicate BindingCounts(b: TrustBinding, req: Request) { b.domain == req.domain && (b.identity == "" || b.identity == req.identity) }

  /** Younger first, then the greater name. */
  predicate Prefer(created: int64, name: string, created': int64, name': string) {
    if created != created' then created > created' else Less(name', name)
  }

  function WinningException(es: seq<ExceptionEntry>, req: Request): Option<ExceptionEntry> {
    if es == [] then None
    else
      var w, e := WinningException(es[..|es| - 1], req), es[|es| - 1];
      if ExceptionCounts(e, req) && (w.None? || Prefer(e.createdAt, e.id, w.value.createdAt, w.value.id)) then Some(e) else w
  }

  function WinningBinding(bs: seq<TrustBinding>, req: Request): Option<TrustBinding> {
    if bs == [] then None
    else
      var w, b := WinningBinding(bs[..|bs| - 1], req), bs[|bs| - 1];
      if BindingCounts(b, req) && (w.None? || Prefer(b.createdAt, b.identity, w.value.createdAt, w.value.identity)) then Some(b) else w
  }

  /** Explicit trust, else an active exception, else a binding, else standard; a trust that names no tier is the strictest. */
  function SelectedTier(r: ResolveRequest): (t: int)
    ensures 0 <= t <= 2
  {
    var t :=
      if r.hasTrust then TierIndex(r.trust)
      else
        match WinningException(r.exceptions, r.req)
        case Some(e) => TierIndex(e.trust)
        case None => match WinningBinding(r.bindings, r.req) case Some(b) => TierIndex(b.trust) case None => 0;
    if t < 0 then 2 else t
  }

  /** The enterprise floor raises the tier and never lowers it. */
  function EffectiveTier(r: ResolveRequest): (t: int)
    ensures 0 <= t <= 2
  {
    var t := SelectedTier(r);
    if r.enterprise.present && TierIndex(r.enterprise.trustFloor) > t then TierIndex(r.enterprise.trustFloor) else t
  }

  /** The first entry of the identity list for this identity. */
  function InfoOf(ids: seq<IdentityInfo>, identity: string): IdentityInfo {
    if ids == [] then IdentityInfo(identity, false, false)
    else if ids[0].value == identity then ids[0]
    else InfoOf(ids[1..], identity)
  }

  function ForceMode(p: EffectivePolicy, name: string): EffectivePolicy {
    match ParseMode(name) case Some(m) => p.(fingerprintMode := m) case None => p
  }

  function ForceRoute(p: EffectivePolicy, name: string): EffectivePolicy {
    match ParseRoute(name) case Some(x) => p.(route := x) case None => p
  }

  function ForceFlags(p: EffectivePolicy, e: Enterprise): EffectivePolicy {
    p.(letterbox := p.letterbox || e.forceLetterbox, blockThirdParty := p.blockThirdParty || e.forceBlockThirdParty)
  }

  /** The forces of the managed layer; a name that is not one of the enumeration forces nothing. */
  function Forced(r: ResolveRequest, p: EffectivePolicy): EffectivePolicy {
    if !r.enterprise.present then p
    else ForceFlags(ForceRoute(ForceMode(p, r.enterprise.forceFingerprint), r.enterprise.forceRoute), r.enterprise)
  }

  /** Everything but the overlay. */
  function BasePolicy(r: ResolveRequest): EffectivePolicy {
    var info := InfoOf(r.identities, r.req.identity);
    var p := Forced(r, TieredPolicy(EffectiveTier(r), info.ephemeral, info.fortress, r.requestClass));
    if r.extensionPresent then p.(autofillAllowed := false) else p
  }

  function Resolve(r: ResolveRequest): ResolveOutput {
    if !r.hasRequest then ResolveOutput(true, "", DENY_POLICY)
    else if r.versionMismatch then ResolveOutput(false, "kVersionMismatch", DENY_POLICY)
    else if !r.coreValid then ResolveOutput(true, "", DENY_POLICY)
    else ResolveOutput(true, "", ApplyOverlay(r.overlay, r.req, BasePolicy(r)))
  }

  // The winner of a scan

  lemma PreferIsOrder(a: int64, x: string, b: int64, y: string, c: int64, z: string)
    ensures !Prefer(a, x, a, x)
    ensures Prefer(a, x, b, y) ==> !Prefer(b, y, a, x)
    ensures Prefer(a, x, b, y) && Prefer(b, y, c, z) ==> Prefer(a, x, c, z)
    ensures Prefer(a, x, b, y) || Prefer(b, y, a, x) || (a == b && x == y)
  {
    StringsAreOrdered();
    hide Less;
  }

  /** The winning exception counts, and no other that counts is preferred to it; there is none only when none counts. */
  lemma {:induction false} ExceptionIsBest(es: seq<ExceptionEntry>, req: Request)
    ensures match WinningException(es, req)
            case None => forall e | e in es :: !ExceptionCounts(e, req)
            case Some(w) => w in es && ExceptionCounts(w, req)
                            && forall e | e in es && ExceptionCounts(e, req) :: !Prefer(e.createdAt, e.id, w.createdAt, w.id)
  {
    hide ExceptionCounts, Prefer;
    if es != [] {
      var front, e := es[..|es| - 1], es[|es| - 1];
      ExceptionIsBest(front, req);
      assert es == front + [e];
      PreferIsOrder(e.createdAt, e.id, e.createdAt, e.id, e.createdAt, e.id);
      var w := WinningException(front, req);
      if w.Some? {
        forall x | x in front && ExceptionCounts(x, req) && Prefer(e.createdAt, e.id, w.value.createdAt, w.value.id)
          ensures !Prefer(x.createdAt, x.id, e.createdAt, e.id)
        {
          PreferIsOrder(x.createdAt, x.id, e.createdAt, e.id, w.value.createdAt, w.value.id);
        }
      }
    }
  }

  lemma {:induction false} BindingIsBest(bs: seq<TrustBinding>, req: Request)
    ensures match WinningBinding(bs, req)
            case None => forall b | b in bs :: !BindingCounts(b, req)
            case Some(w) => w in bs && BindingCounts(w, req)
                            && forall b | b in bs && BindingCounts(b, req) :: !Prefer(b.createdAt, b.identity, w.createdAt, w.identity)
  {
    hide BindingCounts, Prefer;
    if bs != [] {
      var front, b := bs[..|bs| - 1], bs[|bs| - 1];
      BindingIsBest(front, req);
      assert bs == front + [b];
      PreferIsOrder(b.createdAt, b.identity, b.createdAt, b.identity, b.createdAt, b.identity);
      var w := WinningBinding(front, req);
      if w.Some? {
        forall x | x in front && BindingCounts(x, req) && Prefer(b.createdAt, b.identity, w.value.createdAt, w.value.identity)
          ensures !Prefer(x.createdAt, x.identity, b.createdAt, b.identity)
        {
          PreferIsOrder(x.createdAt, x.identity, b.createdAt, b.identity, w.value.createdAt, w.value.identity);
        }
      }
    }
  }

  /** With one entry per creation time and id, the winner does not depend on the order of the list. */
  lemma WinnerIgnoresOrder(es: seq<ExceptionEntry>, fs: seq<ExceptionEntry>, req: Request)
    requires forall e :: e in es <==> e in fs
    requires forall e, f | e in es && f in es && e.createdAt == f.createdAt && e.id == f.id :: e == f
    ensures WinningException(es, req) == WinningException(fs, req)
  {
    ExceptionIsBest(es, req);
    ExceptionIsBest(fs, req);
    var v, w := WinningException(es, req), WinningException(fs, req);
    hide WinningException, ExceptionCounts, Prefer;
    if v.Some? && w.Some? { PreferIsOrder(v.value.createdAt, v.value.id, w.value.createdAt, w.value.id, v.value.createdAt, v.value.id); }
  }

  /** The same for bindings, with one entry per creation time and identity among those of the site. */
  lemma BindingIgnoresOrder(bs: seq<TrustBinding>, cs: seq<TrustBinding>, req: Request)
    requires forall b :: b in bs <==> b in cs
    requires forall b, c | b in bs && c in bs && b.domain == c.domain && b.createdAt == c.createdAt && b.identity == c.identity :: b == c
    ensures WinningBinding(bs, req) == WinningBinding(cs, req)
  {
    BindingIsBest(bs, req);
    BindingIsBest(cs, req);
    var v, w := WinningBinding(bs, req), WinningBinding(cs, req);
    hide WinningBinding, Prefer;
    if v.Some? && w.Some? {
      PreferIsOrder(v.value.createdAt, v.value.identity, w.value.createdAt, w.value.identity, v.value.createdAt, v.value.identity);
    }
  }

  ghost predicate OfIdentity(b: TrustBinding, bs: seq<TrustBinding>, req: Request) {
    b in bs && BindingCounts(b, req) && b.identity == req.identity
  }

  ghost predicate OfSite(b: TrustBinding, bs: seq<TrustBinding>, req: Request) { b in bs && BindingCounts(b, req) && b.identity == "" }

  /** No default of the site is younger than `b`. */
  ghost predicate NoYoungerDefault(b: TrustBinding, bs: seq<TrustBinding>, req: Request) {
    forall d | OfSite(d, bs, req) :: d.createdAt <= b.createdAt
  }

  /**
    The ladder "binding of the identity before default of the site" against the code, which compares age first: a binding of
    the identity wins exactly when there is one than which no default of the site is younger.
   */
  lemma IdentityWinsUnlessOlder(bs: seq<TrustBinding>, req: Request)
    requires req.identity != ""
    ensures (WinningBinding(bs, req).Some? && WinningBinding(bs, req).value.identity == req.identity)
            <==> exists b :: OfIdentity(b, bs, req) && NoYoungerDefault(b, bs, req)
  {
    BindingIsBest(bs, req);
    hide WinningBinding;
    var w := WinningBinding(bs, req);
    if w.Some? && w.value.identity == req.identity {
      assert OfIdentity(w.value, bs, req) && NoYoungerDefault(w.value, bs, req);
    }
    if b :| OfIdentity(b, bs, req) && NoYoungerDefault(b, bs, req) {
      assert !Prefer(b.createdAt, b.identity, w.value.createdAt, w.value.identity);
      assert w.value.identity == "" ==> OfSite(w.value, bs, req) && Less("", b.identity);
    }
  }

  /** The ladder as a claim about one list: when the identity has a binding here, such a binding wins. */
  ghost predicate LadderHolds(bs: seq<TrustBinding>, req: Request) {
    (exists b :: OfIdentity(b, bs, req)) ==> WinningBinding(bs, req).Some? && WinningBinding(bs, req).value.identity == req.identity
  }

  /** It holds of a list exactly when no default of the site is younger than every binding of the identity. */
  lemma LadderIff(bs: seq<TrustBinding>, req: Request)
    requires req.identity != ""
    ensures LadderHolds(bs, req)
            <==> forall d | OfSite(d, bs, req) && (exists b :: OfIdentity(b, bs, req)) :: exists b :: OfIdentity(b, bs, req) && d.createdAt <= b.createdAt
  {
    IdentityWinsUnlessOlder(bs, req);
    BindingIsBest(bs, req);
    hide WinningBinding;
    var w := WinningBinding(bs, req);
    if !LadderHolds(bs, req) {
      assert OfSite(w.value, bs, req);
      forall b | OfIdentity(b, bs, req) ensures b.createdAt < w.value.createdAt {
        assert !Prefer(b.createdAt, b.identity, w.value.createdAt, w.value.identity) && Less("", b.identity);
      }
    }
  }

  /** A list on which it fails. */
  lemma YoungerDefaultWins()
    ensures var bs := [TrustBinding("example.com", "a", "kFortress", 1), TrustBinding("example.com", "", "kStandard", 2)];
            var req := Request("a", "example.com", 0, "");
            WinningBinding(bs, req) == Some(bs[1]) && !LadderHolds(bs, req)
  {
    var bs := [TrustBinding("example.com", "a", "kFortress", 1), TrustBinding("example.com", "", "kStandard", 2)];
    assert bs[..1] == [bs[0]] && bs[..1][..0] == [];
    assert WinningBinding(bs[..1], Request("a", "example.com", 0, "")) == Some(bs[0]);
    assert OfIdentity(bs[0], bs, Request("a", "example.com", 0, ""));
  }

  // What the layers can do

  function RouteRank(r: RouteClass): int { match r case Direct => 0 case Proxy => 1 case Wireguard => 2 case Tor => 3 }
  function ModeRank(m: FingerprintMode): int { match m case Off => 0 case Reduce => 1 case Strict => 2 }

  /** `q` allows nothing that `p` does not: the four permissions apart. */
  predicate RestAsStrict(q: EffectivePolicy, p: EffectivePolicy) {
    && (p.blockNetworkAds ==> q.blockNetworkAds) && (p.blockTrackers ==> q.blockTrackers) && (p.upgradeToHttps ==> q.upgradeToHttps)
    && (p.hideCosmetic ==> q.hideCosmetic) && (p.blockScriptlets ==> q.blockScriptlets) && (p.blockThirdParty ==> q.blockThirdParty)
    && RouteRank(q.route) >= RouteRank(p.route) && ModeRank(q.fingerprintMode) >= ModeRank(p.fingerprintMode)
    && (q.autofillAllowed ==> p.autofillAllowed) && (q.exportAllowed ==> p.exportAllowed)
    && (p.siteIsolated ==> q.siteIsolated) && (p.dedicatedProcess ==> q.dedicatedProcess) && (p.letterbox ==> q.letterbox)
    && (p.storageScope == FortressPartition ==> q.storageScope == FortressPartition)
  }

  predicate AtLeastAsStrict(q: EffectivePolicy, p: EffectivePolicy) {
    RestAsStrict(q, p) && forall c: Capability :: Rank(Slot(q, c)) <= Rank(Slot(p, c))
  }

  /** The tier table is a ladder: a higher tier is at least as strict in every field. */
  lemma TiersAreALadder(t: int, u: int, ephemeral: bool, fortress: bool, requestClass: string)
    requires 0 <= t <= u <= 2
    ensures AtLeastAsStrict(TieredPolicy(u, ephemeral, fortress, requestClass), TieredPolicy(t, ephemeral, fortress, requestClass))
  {
    var p, q := TieredPolicy(t, ephemeral, fortress, requestClass), TieredPolicy(u, ephemeral, fortress, requestClass);
    forall c: Capability ensures Rank(Slot(q, c)) <= Rank(Slot(p, c)) { }
  }

  /** The request under a managed layer with this floor, and with the forces it has. */
  function WithFloor(r: ResolveRequest, floor: string): ResolveRequest {
    r.(enterprise := r.enterprise.(present := true, trustFloor := floor))
  }

  predicate NoForces(e: Enterprise) {
    e.forceFingerprint == "" && e.forceRoute == "" && !e.forceLetterbox && !e.forceBlockThirdParty
  }

  /** The floor goes up, or comes with a layer that forces nothing. */
  predicate RaisesFloor(r: ResolveRequest, floor: string) {
    if r.enterprise.present then TierIndex(floor) >= TierIndex(r.enterprise.trustFloor) else NoForces(r.enterprise)
  }

  lemma FloorRaisesTier(r: ResolveRequest, floor: string)
    requires RaisesFloor(r, floor)
    ensures EffectiveTier(WithFloor(r, floor)) >= EffectiveTier(r)
  {
    assert SelectedTier(WithFloor(r, floor)) == SelectedTier(r) by { hide WinningException, WinningBinding; }
    hide SelectedTier;
  }

  lemma ForcedTightens(r: ResolveRequest, floor: string, q: EffectivePolicy, p: EffectivePolicy)
    requires RaisesFloor(r, floor) && AtLeastAsStrict(q, p)
    ensures AtLeastAsStrict(Forced(WithFloor(r, floor), q), Forced(r, p))
  {
    var e := r.enterprise;
    ModeTightens(q, p, e.forceFingerprint);
    RouteTightens(ForceMode(q, e.forceFingerprint), ForceMode(p, e.forceFingerprint), e.forceRoute);
    FlagsTighten(ForceRoute(ForceMode(q, e.forceFingerprint), e.forceRoute), ForceRoute(ForceMode(p, e.forceFingerprint), e.forceRoute), e);
    hide ForceMode, ForceRoute, ForceFlags, AtLeastAsStrict, TierIndex;
    if !e.present { NothingForced(p, e); }
  }

  lemma ModeTightens(q: EffectivePolicy, p: EffectivePolicy, name: string)
    requires AtLeastAsStrict(q, p)
    ensures AtLeastAsStrict(ForceMode(q, name), ForceMode(p, name))
  {
    hide ParseMode, Rank;
    var a, b := ForceMode(q, name), ForceMode(p, name);
    forall c: Capability ensures Slot(a, c) == Slot(q, c) && Slot(b, c) == Slot(p, c) { }
  }

  lemma RouteTightens(q: EffectivePolicy, p: EffectivePolicy, name: string)
    requires AtLeastAsStrict(q, p)
    ensures AtLeastAsStrict(ForceRoute(q, name), ForceRoute(p, name))
  {
    hide ParseRoute, Rank;
    var a, b := ForceRoute(q, name), ForceRoute(p, name);
    forall c: Capability ensures Slot(a, c) == Slot(q, c) && Slot(b, c) == Slot(p, c) { }
  }

  lemma FlagsTighten(q: EffectivePolicy, p: EffectivePolicy, e: Enterprise)
    requires AtLeastAsStrict(q, p)
    ensures AtLeastAsStrict(ForceFlags(q, e), ForceFlags(p, e))
  {
    hide Rank;
    var a, b := ForceFlags(q, e), ForceFlags(p, e);
    forall c: Capability ensures Slot(a, c) == Slot(q, c) && Slot(b, c) == Slot(p, c) { }
  }

  lemma NothingForced(p: EffectivePolicy, e: Enterprise)
    requires NoForces(e)
    ensures ForceFlags(ForceRoute(ForceMode(p, e.forceFingerprint), e.forceRoute), e) == p
  {
    assert ParseMode("").None? && ParseRoute("").None?;
    hide ParseMode, ParseRoute;
  }

  lemma BaseTightens(r: ResolveRequest, floor: string)
    requires RaisesFloor(r, floor)
    ensures AtLeastAsStrict(BasePolicy(WithFloor(r, floor)), BasePolicy(r))
  {
    hide *;
    var s := WithFloor(r, floor);
    FloorKeepsRequest(r, floor);
    FloorRaisesTier(r, floor);
    var info := InfoOf(r.identities, r.req.identity);
    var p, q := TieredPolicy(EffectiveTier(r), info.ephemeral, info.fortress, r.requestClass), TieredPolicy(EffectiveTier(s), info.ephemeral, info.fortress, r.requestClass);
    TiersAreALadder(EffectiveTier(r), EffectiveTier(s), info.ephemeral, info.fortress, r.requestClass);
    ForcedTightens(r, floor, q, p);
    BaseIs(r);
    BaseIs(s);
    AutofillTightens(Forced(s, q), Forced(r, p));
  }

  lemma FloorKeepsRequest(r: ResolveRequest, floor: string)
    ensures var s := WithFloor(r, floor);
            s.identities == r.identities && s.req == r.req && s.requestClass == r.requestClass && s.extensionPresent == r.extensionPresent
            && s.hasRequest == r.hasRequest && s.versionMismatch == r.versionMismatch && s.coreValid == r.coreValid && s.overlay == r.overlay
  {
  }

  lemma AutofillTightens(q: EffectivePolicy, p: EffectivePolicy)
    requires AtLeastAsStrict(q, p)
    ensures AtLeastAsStrict(SetAutofill(q, false), SetAutofill(p, false))
  {
    hide Rank;
    forall c: Capability ensures Slot(SetAutofill(q, false), c) == Slot(q, c) && Slot(SetAutofill(p, false), c) == Slot(p, c) { AutofillSlots(q, false, c); AutofillSlots(p, false, c); }
  }

  lemma RestWithoutSlots(q: EffectivePolicy, p: EffectivePolicy, q': EffectivePolicy, p': EffectivePolicy)
    requires RestAsStrict(q, p) && DenyAll(q') == DenyAll(q) && DenyAll(p') == DenyAll(p)
    ensures RestAsStrict(q', p')
  {
    assert RestAsStrict(DenyAll(q), DenyAll(p)) && (RestAsStrict(DenyAll(q'), DenyAll(p')) ==> RestAsStrict(q', p'));
  }

  /** The overlay, whatever it is, keeps the order of strictness. */
  lemma OverlayTightens(view: OverlayView, req: Request, q: EffectivePolicy, p: EffectivePolicy)
    requires AtLeastAsStrict(q, p)
    ensures AtLeastAsStrict(ApplyOverlay(view, req, q), ApplyOverlay(view, req, p))
  {
    var q', p' := ApplyOverlay(view, req, q), ApplyOverlay(view, req, p);
    OverlayKeepsRest(view, req, q);
    OverlayKeepsRest(view, req, p);
    forall c: Capability ensures Rank(Slot(q', c)) <= Rank(Slot(p', c)) { SlotTightens(view, req, q, p, c); }
    hide ApplyOverlay, RestAsStrict, DenyAll, Rank, Slot;
    RestWithoutSlots(q, p, q', p');
  }

  lemma SlotTightens(view: OverlayView, req: Request, q: EffectivePolicy, p: EffectivePolicy, c: Capability)
    requires Rank(Slot(q, c)) <= Rank(Slot(p, c))
    ensures Rank(Slot(ApplyOverlay(view, req, q), c)) <= Rank(Slot(ApplyOverlay(view, req, p), c))
  {
    SlotLaws(q, c, c, Deny);
    SlotLaws(p, c, c, Deny);
    DefaultsMeaning(view.defaults, req.identity, q, c);
    DefaultsMeaning(view.defaults, req.identity, p, c);
    GrantsMeaning(view.grants, req, ApplyDefaults(view.defaults, req.identity, q).0, c);
    GrantsMeaning(view.grants, req, ApplyDefaults(view.defaults, req.identity, p).0, c);
    hide ApplyDefaults, ApplyGrants, Slot, GrantApplies, DefaultMatches, ParseCapability, ParseCapState, DefaultState, DenyAll, Rank;
  }

  lemma SameStrictness(p: EffectivePolicy)
    ensures AtLeastAsStrict(p, p)
  {
  }

  /** Raising the floor, or adding a layer that has nothing but a floor, never makes any answer laxer, overlay included. */
  lemma RaisingFloorTightens(r: ResolveRequest, floor: string)
    requires RaisesFloor(r, floor)
    ensures Resolve(WithFloor(r, floor)).ok == Resolve(r).ok
    ensures AtLeastAsStrict(Resolve(WithFloor(r, floor)).policy, Resolve(r).policy)
  {
    FloorKeepsRequest(r, floor);
    BaseTightens(r, floor);
    OverlayTightens(r.overlay, r.req, BasePolicy(WithFloor(r, floor)), BasePolicy(r));
    SameStrictness(DENY_POLICY);
    hide BasePolicy, ApplyOverlay, AtLeastAsStrict, WithFloor;
  }

  lemma OverlayKeepsRest(view: OverlayView, req: Request, p: EffectivePolicy)
    ensures DenyAll(ApplyOverlay(view, req, p)) == DenyAll(p)
  {
    var (q, seen) := ApplyDefaults(view.defaults, req.identity, p);
    DefaultsMeaning(view.defaults, req.identity, p, Camera);
    GrantsMeaning(view.grants, req, q, Camera);
    hide ApplyDefaults, ApplyGrants, DefaultMatches, GrantApplies, ParseCapability;
  }

  /** Whatever a request asks, the answer is one that the wire format can carry: version 1 and no export. */
  lemma ResolvedIsWire(r: ResolveRequest)
    ensures Wire(Resolve(r).policy)
  {
    var p := BasePolicy(r);
    OverlayKeepsRest(r.overlay, r.req, p);
    BaseIsWire(r);
    hide BasePolicy, ApplyOverlay;
    var q := ApplyOverlay(r.overlay, r.req, p);
    assert DenyAll(q).contractVersion == q.contractVersion && DenyAll(q).exportAllowed == q.exportAllowed;
    assert DenyAll(p).contractVersion == p.contractVersion && DenyAll(p).exportAllowed == p.exportAllowed;
  }

  predicate KeepsWire(p: EffectivePolicy, q: EffectivePolicy) {
    q.contractVersion == p.contractVersion && q.exportAllowed == p.exportAllowed && q.autofillAllowed == p.autofillAllowed
  }

  function SetAutofill(p: EffectivePolicy, autofill: bool): EffectivePolicy { p.(autofillAllowed := autofill) }

  lemma ModeKeeps(p: EffectivePolicy, name: string)
    ensures KeepsWire(p, ForceMode(p, name))
  {
    hide ParseMode;
    match ParseMode(name)
    case Some(m) => assert ForceMode(p, name) == p.(fingerprintMode := m);
    case None =>
  }

  lemma ModeCommutes(p: EffectivePolicy, name: string, autofill: bool)
    ensures ForceMode(SetAutofill(p, autofill), name) == SetAutofill(ForceMode(p, name), autofill)
  {
    hide ParseMode;
  }

  lemma RouteKeeps(p: EffectivePolicy, name: string)
    ensures KeepsWire(p, ForceRoute(p, name))
  {
    hide ParseRoute;
    match ParseRoute(name)
    case Some(x) => assert ForceRoute(p, name) == p.(route := x);
    case None =>
  }

  lemma RouteCommutes(p: EffectivePolicy, name: string, autofill: bool)
    ensures ForceRoute(SetAutofill(p, autofill), name) == SetAutofill(ForceRoute(p, name), autofill)
  {
    hide ParseRoute;
  }

  lemma FlagsKeeps(p: EffectivePolicy, e: Enterprise)
    ensures KeepsWire(p, ForceFlags(p, e))
  {
  }

  lemma FlagsCommutes(p: EffectivePolicy, e: Enterprise, autofill: bool)
    ensures ForceFlags(SetAutofill(p, autofill), e) == SetAutofill(ForceFlags(p, e), autofill)
  {
  }

  lemma KeepsChain(p: EffectivePolicy, q: EffectivePolicy, r: EffectivePolicy)
    requires KeepsWire(p, q) && KeepsWire(q, r)
    ensures KeepsWire(p, r)
  {
  }

  lemma ForcedKeeps(r: ResolveRequest, p: EffectivePolicy, autofill: bool)
    ensures KeepsWire(p, Forced(r, p)) && Forced(r, SetAutofill(p, autofill)) == SetAutofill(Forced(r, p), autofill)
  {
    hide ForceMode, ForceRoute, ForceFlags, SetAutofill, KeepsWire;
    KeepsSelf(p);
    if r.enterprise.present {
      var e := r.enterprise;
      var p1 := ForceMode(p, e.forceFingerprint);
      var p2 := ForceRoute(p1, e.forceRoute);
      ModeKeeps(p, e.forceFingerprint);
      RouteKeeps(p1, e.forceRoute);
      FlagsKeeps(p2, e);
      KeepsChain(p, p1, p2);
      KeepsChain(p, p2, ForceFlags(p2, e));
      ModeCommutes(p, e.forceFingerprint, autofill);
      RouteCommutes(p1, e.forceRoute, autofill);
      FlagsCommutes(p2, e, autofill);
    }
  }

  lemma KeepsSelf(p: EffectivePolicy)
    ensures KeepsWire(p, p)
  {
  }

  lemma TieredFacts(t: int, ephemeral: bool, fortress: bool, a: string, b: string)
    requires 0 <= t <= 2
    ensures var (p, q) := (TieredPolicy(t, ephemeral, fortress, a), TieredPolicy(t, ephemeral, fortress, b));
            Wire(p) && SetAutofill(p, q.autofillAllowed) == q
  {
  }

  lemma BaseIsWire(r: ResolveRequest)
    ensures Wire(BasePolicy(r))
  {
    var info := InfoOf(r.identities, r.req.identity);
    var p := TieredPolicy(EffectiveTier(r), info.ephemeral, info.fortress, r.requestClass);
    TieredFacts(EffectiveTier(r), info.ephemeral, info.fortress, r.requestClass, r.requestClass);
    ForcedKeeps(r, p, false);
    hide EffectiveTier, InfoOf, TieredPolicy, Forced;
  }

  /** The request class, which cache keys leave out, decides autofill and nothing else. */
  lemma ClassDecidesAutofillOnly(r: ResolveRequest, requestClass: string)
    ensures var (p, q) := (Resolve(r).policy, Resolve(r.(requestClass := requestClass)).policy);
            SetAutofill(p, q.autofillAllowed) == q
  {
    var s := r.(requestClass := requestClass);
    var p, q := BasePolicy(r), BasePolicy(s);
    BaseClass(r, requestClass);
    OverlayCommutes(r.overlay, r.req, p, q.autofillAllowed);
    AutofillTwice(ApplyOverlay(r.overlay, r.req, p), q.autofillAllowed, q.autofillAllowed);
    AutofillTwice(DENY_POLICY, false, false);
    hide BasePolicy, ApplyOverlay, SetAutofill;
  }

  predicate FillsForms(requestClass: string) { requestClass == "kNavigation" || requestClass == "kPermission" }

  predicate Decided(r: ResolveRequest) { r.hasRequest && !r.versionMismatch && r.coreValid }

  /** So a policy cached for one class is the policy of another exactly when the two agree on autofill, or nothing is decided by class. */
  lemma ClassMattersIff(r: ResolveRequest, requestClass: string)
    ensures Resolve(r) == Resolve(r.(requestClass := requestClass))
            <==> !Decided(r) || r.extensionPresent || FillsForms(r.requestClass) == FillsForms(requestClass)
  {
    var s := r.(requestClass := requestClass);
    ClassDecidesAutofillOnly(r, requestClass);
    if Decided(r) {
      AutofillIs(r);
      AutofillIs(s);
    }
    hide BasePolicy, ApplyOverlay;
    SameAutofill(Resolve(r).policy, Resolve(s).policy);
  }

  lemma SameAutofill(p: EffectivePolicy, q: EffectivePolicy)
    requires SetAutofill(p, q.autofillAllowed) == q
    ensures p == q <==> p.autofillAllowed == q.autofillAllowed
  {
  }

  lemma AutofillIs(r: ResolveRequest)
    requires Decided(r)
    ensures Resolve(r).policy.autofillAllowed == (FillsForms(r.requestClass) && !r.extensionPresent)
  {
    var info := InfoOf(r.identities, r.req.identity);
    var p := TieredPolicy(EffectiveTier(r), info.ephemeral, info.fortress, r.requestClass);
    assert p.autofillAllowed == FillsForms(r.requestClass);
    hide EffectiveTier, InfoOf, TieredPolicy;
    ForcedKeeps(r, p, false);
    BaseIs(r);
    var base := BasePolicy(r);
    OverlayKeepsRest(r.overlay, r.req, base);
    hide BasePolicy, Forced, ApplyOverlay;
    var q := ApplyOverlay(r.overlay, r.req, base);
    assert DenyAll(q).autofillAllowed == q.autofillAllowed && DenyAll(base).autofillAllowed == base.autofillAllowed;
  }

  lemma SameTier(r: ResolveRequest, requestClass: string)
    ensures EffectiveTier(r.(requestClass := requestClass)) == EffectiveTier(r)
    ensures forall p :: Forced(r.(requestClass := requestClass), p) == Forced(r, p)
  {
    hide WinningException, WinningBinding, ParseMode, ParseRoute;
  }

  lemma BaseIs(r: ResolveRequest)
    ensures var info := InfoOf(r.identities, r.req.identity);
            var p := Forced(r, TieredPolicy(EffectiveTier(r), info.ephemeral, info.fortress, r.requestClass));
            BasePolicy(r) == if r.extensionPresent then SetAutofill(p, false) else p
  {
    hide EffectiveTier, InfoOf, TieredPolicy, Forced;
  }

  lemma AutofillTwice(p: EffectivePolicy, a: bool, b: bool)
    ensures SetAutofill(SetAutofill(p, a), b) == SetAutofill(p, b) && SetAutofill(p, a).autofillAllowed == a && SetAutofill(p, p.autofillAllowed) == p
  {
  }

  lemma BaseClass(r: ResolveRequest, requestClass: string)
    ensures var (p, q) := (BasePolicy(r), BasePolicy(r.(requestClass := requestClass))); SetAutofill(p, q.autofillAllowed) == q
  {
    hide *;
    var s := r.(requestClass := requestClass);
    var info := InfoOf(r.identities, r.req.identity);
    var t := EffectiveTier(r);
    var a, b := TieredPolicy(t, info.ephemeral, info.fortress, r.requestClass), TieredPolicy(t, info.ephemeral, info.fortress, requestClass);
    SameTier(r, requestClass);
    TieredFacts(t, info.ephemeral, info.fortress, r.requestClass, requestClass);
    ForcedKeeps(r, a, b.autofillAllowed);
    BaseIs(r);
    BaseIs(s);
    AutofillTwice(Forced(r, a), false, false);
    AutofillTwice(Forced(r, a), b.autofillAllowed, false);
    AutofillTwice(Forced(r, b), b.autofillAllowed, b.autofillAllowed);
  }

  lemma DenyAutofill(p: EffectivePolicy, autofill: bool)
    ensures DenyAll(SetAutofill(p, autofill)) == SetAutofill(DenyAll(p), autofill)
  {
  }

  lemma AutofillApart(a: EffectivePolicy, q: EffectivePolicy, p: EffectivePolicy, autofill: bool)
    requires DenyAll(a) == DenyAll(SetAutofill(p, autofill)) && DenyAll(q) == DenyAll(p)
    ensures DenyAll(a) == DenyAll(SetAutofill(q, autofill))
  {
    hide DenyAll, SetAutofill;
    DenyAutofill(q, autofill);
    DenyAutofill(p, autofill);
  }

  lemma AutofillSlots(p: EffectivePolicy, autofill: bool, c: Capability)
    ensures Slot(SetAutofill(p, autofill), c) == Slot(p, c)
  {
  }

  lemma OverlayCommutes(view: OverlayView, req: Request, p: EffectivePolicy, autofill: bool)
    ensures ApplyOverlay(view, req, SetAutofill(p, autofill)) == SetAutofill(ApplyOverlay(view, req, p), autofill)
  {
    hide *;
    var p', q := SetAutofill(p, autofill), ApplyOverlay(view, req, p);
    var a := ApplyOverlay(view, req, p');
    OverlayKeepsRest(view, req, p);
    OverlayKeepsRest(view, req, p');
    AutofillApart(a, q, p, autofill);
    forall c: Capability ensures Slot(p, c) == Slot(p', c) { AutofillSlots(p, autofill, c); }
    forall c: Capability ensures Slot(a, c) == Slot(SetAutofill(q, autofill), c) {
      OverlaySlot(view, req, p, p', c);
      AutofillSlots(q, autofill, c);
    }
    SlotsDetermine(a, SetAutofill(q, autofill));
  }

  /** The overlay decides each permission from the overlay and that permission alone. */
  lemma OverlaySlot(view: OverlayView, req: Request, p: EffectivePolicy, q: EffectivePolicy, c: Capability)
    requires forall x: Capability :: Slot(p, x) == Slot(q, x)
    ensures Slot(ApplyOverlay(view, req, p), c) == Slot(ApplyOverlay(view, req, q), c)
  {
    SlotLaws(p, c, c, Deny);
    SlotLaws(q, c, c, Deny);
    GrantsMeaning(view.grants, req, ApplyDefaults(view.defaults, req.identity, p).0, c);
    GrantsMeaning(view.grants, req, ApplyDefaults(view.defaults, req.identity, q).0, c);
    DefaultsSlot(view.defaults, req.identity, p, q, c);
    hide ApplyDefaults, ApplyGrants, Slot, GrantApplies, ParseCapability, DenyAll;
  }

  lemma {:induction false} DefaultsSlot(ds: seq<OverlayDefault>, identity: string, p: EffectivePolicy, q: EffectivePolicy, c: Capability)
    requires forall x: Capability :: Slot(p, x) == Slot(q, x)
    ensures var (a, b) := (ApplyDefaults(ds, identity, p), ApplyDefaults(ds, identity, q)); a.1 == b.1 && Slot(a.0, c) == Slot(b.0, c)
  {
    hide ParseCapability, ParseCapState, Slot, SetSlot, Rank;
    if ds == [] {
      assert Slot(p, c) == Slot(q, c);
    } else {
      var front, d := ds[..|ds| - 1], ds[|ds| - 1];
      DefaultsSlot(front, identity, p, q, c);
      if ParseCapability(d.capability).Some? {
        var x := ParseCapability(d.capability).value;
        DefaultsSlot(front, identity, p, q, x);
        var st := match ParseCapState(d.state) case Some(s) => s case None => Deny;
        SlotLaws(ApplyDefaults(front, identity, p).0, x, c, st);
        SlotLaws(ApplyDefaults(front, identity, q).0, x, c, st);
      }
    }
  }

  // The scans as loops

  method ScanExceptions(es: seq<ExceptionEntry>, req: Request) returns (w: Option<ExceptionEntry>)
    ensures w == WinningException(es, req)
  {
    hide ExceptionActive, Prefer;
    w := None;
    for i := 0 to |es|
      invariant w == WinningException(es[..i], req)
    {
      var e := es[i];
      assert es[..i + 1][..i] == es[..i];
      if e.domain != req.domain || !(e.identity == "" || e.identity == req.identity) { continue; }
      if !ExceptionActive(e, req) { continue; }
      if w.None? || Prefer(e.createdAt, e.id, w.value.createdAt, w.value.id) { w := Some(e); }
    }
    assert es[..|es|] == es;
  }

  method ScanBindings(bs: seq<TrustBinding>, req: Request) returns (w: Option<TrustBinding>)
    ensures w == WinningBinding(bs, req)
  {
    hide Prefer;
    w := None;
    for i := 0 to |bs|
      invariant w == WinningBinding(bs[..i], req)
    {
      var b := bs[i];
      assert bs[..i + 1][..i] == bs[..i];
      if b.domain != req.domain { continue; }
      if b.identity != "" && b.identity != req.identity { continue; }
      if w.None? || Prefer(b.createdAt, b.identity, w.value.createdAt, w.value.identity) { w := Some(b); }
    }
    assert bs[..|bs|] == bs;
  }

  method FindInfo(ids: seq<IdentityInfo>, identity: string) returns (info: IdentityInfo)
    ensures info == InfoOf(ids, identity)
  {
    assert ids[0..] == ids;
    for i := 0 to |ids|
      invariant InfoOf(ids, identity) == InfoOf(ids[i..], identity)
    {
      assert ids[i..][0] == ids[i] && ids[i..][1..] == ids[i + 1..];
      if ids[i].value == identity { return ids[i]; }
    }
    return IdentityInfo(identity, false, false);
  }

  method PickTier(r: ResolveRequest) returns (t: int)
    ensures t == EffectiveTier(r)
  {
    hide WinningException, WinningBinding;
    t := 0;
    if r.hasTrust {
      t := TierIndex(r.trust);
    } else {
      var e := ScanExceptions(r.exceptions, r.req);
      var b := ScanBindings(r.bindings, r.req);
      if e.Some? { t := TierIndex(e.value.trust); } else if b.Some? { t := TierIndex(b.value.trust); }
    }
    if t < 0 { t := 2; }
    if r.enterprise.present {
      var floor := TierIndex(r.enterprise.trustFloor);
      if floor > t { t := floor; }
    }
  }

  method ResolveOne(r: ResolveRequest) returns (o: ResolveOutput)
    ensures o == Resolve(r)
  {
    hide EffectiveTier, InfoOf, TieredPolicy, ApplyOverlay, ParseMode, ParseRoute;
    if !r.hasRequest { return ResolveOutput(true, "", DENY_POLICY); }
    if r.versionMismatch { return ResolveOutput(false, "kVersionMismatch", DENY_POLICY); }
    if !r.coreValid { return ResolveOutput(true, "", DENY_POLICY); }
    var t := PickTier(r);
    var info := FindInfo(r.identities, r.req.identity);
    var p := TieredPolicy(t, info.ephemeral, info.fortress, r.requestClass);
    p := Forced(r, p);
    if r.extensionPresent { p := p.(autofillAllowed := false); }
    p := OverlayEngine.ApplyPermissionOverlay(r.overlay, r.req, p);
    return ResolveOutput(true, "", p);
  }
}
