/**
  The seam between the permission store and the policy resolver: the projection the one writes, the strict
  parser and the application rules of the other, and the agreement between them.
 */
module PermissionOverlay {
  import opened Wrappers
  import opened Order
  import opened Utf8
  import opened JsonValue
  import opened JsonParse
  import opened JsonRoundTrip
  import opened PermissionTypes
  import opened PermissionStore
  import opened PolicyTypes

  datatype OverlayDefault = OverlayDefault(identity: string, capability: string, state: string)
  datatype OverlayGrant = OverlayGrant(identity: string, domain: string, capability: string, scope: string,
                                       expiresAt: int64, sessionId: string, remainingUses: int64)
  datatype OverlayView = OverlayView(present: bool, corrupt: bool, denied: seq<string>,
                                     defaults: seq<OverlayDefault>, grants: seq<OverlayGrant>)

  const ABSENT := OverlayView(false, false, [], [], [])
  const CORRUPT := OverlayView(true, true, [], [], [])

  datatype Request = Request(identity: string, domain: string, now: int64, session: string)

  // The resolver's parser

  predicate OnlyKeys(o: map<string, Json>, keys: set<string>) { o.Keys <= keys }

  function ParseDefault(v: Json): Option<OverlayDefault> {
    if v.Obj? && OnlyKeys(v.fields, {"identity", "capability", "state"}) then
      match (GetStr(v, "identity"), GetStr(v, "capability"), GetStr(v, "state"))
      case (Some(id), Some(cap), Some(st)) =>
        if id != "" && ParseCapability(cap).Some? && ParseCapState(st).Some? then Some(OverlayDefault(id, cap, st)) else None
      case _ => None
    else None
  }

  /** Each scope admits its own field and no other. */
  function ParseOverlayGrant(v: Json): Option<OverlayGrant> {
    match (GetStr(v, "scope"), GetStr(v, "identity"), GetStr(v, "domain"), GetStr(v, "capability"))
    case (Some(scope), Some(id), Some(domain), Some(cap)) =>
      if id == "" || domain == "" || ParseCapability(cap).None? then None
      else if scope == "once" then
        if OnlyKeys(v.fields, {"identity", "domain", "capability", "scope", "remaining_uses"}) && GetInt(v, "remaining_uses").Some?
        then Some(OverlayGrant(id, domain, cap, scope, 0, "", GetInt(v, "remaining_uses").value)) else None
      else if scope == "session" then
        if OnlyKeys(v.fields, {"identity", "domain", "capability", "scope", "session_id"})
           && GetStr(v, "session_id").Some? && GetStr(v, "session_id").value != ""
        then Some(OverlayGrant(id, domain, cap, scope, 0, GetStr(v, "session_id").value, 0)) else None
      else if scope == "7d" then
        if OnlyKeys(v.fields, {"identity", "domain", "capability", "scope", "expires_at"}) && GetInt(v, "expires_at").Some?
        then Some(OverlayGrant(id, domain, cap, scope, GetInt(v, "expires_at").value, "", 0)) else None
      else None
    case _ => None
  }

  /** An absent list is empty; a present one must be a list whose every entry parses. */
  function ParseList<T>(v: Json, key: string, item: Json -> Option<T>): Option<seq<T>>
    requires v.Obj?
  {
    if key !in v.fields then Some([])
    else if !v.fields[key].Arr? then None
    else ParseAll(v.fields[key].items, item)
  }

  function ParseAll<T>(a: seq<Json>, item: Json -> Option<T>): (r: Option<seq<T>>)
    ensures r.Some? ==> |r.value| == |a|
  {
    if a == [] then Some([])
    else
      match (item(a[0]), ParseAll(a[1..], item))
      case (Some(x), Some(xs)) => Some([x] + xs)
      case _ => None
  }

  function ParseDenied(v: Json): Option<string> {
    if v.Str? && v.s != "" then Some(v.s) else None
  }

  /** A repeated (identity, capability) pair is a defect, not a choice. */
  predicate NoRepeats(ds: seq<OverlayDefault>) {
    forall i, j | 0 <= i < j < |ds| :: !(ds[i].identity == ds[j].identity && ds[i].capability == ds[j].capability)
  }

  function ParseOverlay(v: Json): Option<OverlayView> {
    if !v.Obj? || !OnlyKeys(v.fields, {"contract_version", "corrupt", "denied_identities", "defaults", "grants"}) then None
    else if "contract_version" in v.fields && v.fields["contract_version"] != Int(1) then None
    else if "corrupt" in v.fields && !v.fields["corrupt"].Bool? then None
    else if "corrupt" in v.fields && v.fields["corrupt"].b then Some(CORRUPT)
    else
      match (ParseList(v, "denied_identities", ParseDenied), ParseList(v, "defaults", ParseDefault), ParseList(v, "grants", ParseOverlayGrant))
      case (Some(denied), Some(defaults), Some(grants)) =>
        if NoRepeats(defaults) then Some(OverlayView(true, false, denied, defaults, grants)) else None
      case _ => None
  }

  /** The overlay of a request: absent is inert, present but malformed is corrupt. */
  function RequestOverlay(field: Option<Json>): OverlayView {
    match field
    case None => ABSENT
    case Some(v) => match ParseOverlay(v) case None => CORRUPT case Some(view) => view
  }

  // The resolver's application rules

  function GrantActive(g: OverlayGrant, req: Request): bool {
    if g.scope == "once" then g.remainingUses > 0
    else if g.scope == "session" then g.sessionId != "" && g.sessionId == req.session
    else if g.scope == "7d" then g.expiresAt > req.now
    else false
  }

  /** One turn of the defaults loop: the policy so far and the capabilities already seen. */
  function DefaultStep(acc: (EffectivePolicy, set<Capability>), d: OverlayDefault, identity: string): (EffectivePolicy, set<Capability>) {
    var (p, seen) := acc;
    if d.identity != identity || ParseCapability(d.capability).None? then acc
    else
      var c := ParseCapability(d.capability).value;
      var st := match ParseCapState(d.state) case Some(x) => x case None => Deny;
      if c in seen then (if Rank(st) < Rank(Slot(p, c)) then SetSlot(p, c, st) else p, seen)
      else (SetSlot(p, c, st), seen + {c})
  }

  function ApplyDefaults(ds: seq<OverlayDefault>, identity: string, p: EffectivePolicy): (EffectivePolicy, set<Capability>) {
    if ds == [] then (p, {}) else DefaultStep(ApplyDefaults(ds[..|ds| - 1], identity, p), ds[|ds| - 1], identity)
  }

  predicate GrantApplies(g: OverlayGrant, req: Request) {
    g.identity == req.identity && g.domain == req.domain && GrantActive(g, req)
  }

  function GrantStep(p: EffectivePolicy, g: OverlayGrant, req: Request): EffectivePolicy {
    if GrantApplies(g, req) && ParseCapability(g.capability).Some? then SetSlot(p, ParseCapability(g.capability).value, Allow) else p
  }

  function ApplyGrants(gs: seq<OverlayGrant>, req: Request, p: EffectivePolicy): EffectivePolicy {
    if gs == [] then p else GrantStep(ApplyGrants(gs[..|gs| - 1], req, p), gs[|gs| - 1], req)
  }

  /** Corrupt and deny-listed are final; then defaults; then active grants, which widen. */
  function ApplyOverlay(view: OverlayView, req: Request, p: EffectivePolicy): EffectivePolicy {
    if !view.present then p
    else if view.corrupt || req.identity in view.denied then DenyAll(p)
    else ApplyGrants(view.grants, req, ApplyDefaults(view.defaults, req.identity, p).0)
  }

  // What the two loops compute, independent of order

  predicate DefaultMatches(d: OverlayDefault, identity: string, c: Capability) {
    d.identity == identity && ParseCapability(d.capability) == Some(c)
  }

  function DefaultState(d: OverlayDefault): CapState {
    match ParseCapState(d.state) case Some(x) => x case None => Deny
  }

  /** Several defaults for one capability resolve to the most restrictive of them. */
  lemma {:induction false} DefaultsMeaning(ds: seq<OverlayDefault>, identity: string, p: EffectivePolicy, c: Capability)
    ensures var (q, seen) := ApplyDefaults(ds, identity, p);
            && DenyAll(q) == DenyAll(p)
            && (c in seen <==> exists d :: d in ds && DefaultMatches(d, identity, c))
            && (c !in seen ==> Slot(q, c) == Slot(p, c))
            && (c in seen ==> exists d :: d in ds && DefaultMatches(d, identity, c) && DefaultState(d) == Slot(q, c))
            && (forall d | d in ds && DefaultMatches(d, identity, c) :: Rank(Slot(q, c)) <= Rank(DefaultState(d)))
  {
    hide ParseCapability, ParseCapState, Slot, SetSlot, DenyAll;
    if ds != [] {
      var front, d := ds[..|ds| - 1], ds[|ds| - 1];
      assert ds == front + [d];
      DefaultsMeaning(front, identity, p, c);
      var (q, seen) := ApplyDefaults(front, identity, p);
      if d.identity == identity && ParseCapability(d.capability).Some? {
        SlotLaws(q, ParseCapability(d.capability).value, c, DefaultState(d));
        assert DefaultMatches(d, identity, c) <==> ParseCapability(d.capability).value == c;
      }
    }
  }

  lemma {:induction false} GrantsMeaning(gs: seq<OverlayGrant>, req: Request, p: EffectivePolicy, c: Capability)
    ensures var q := ApplyGrants(gs, req, p);
            && DenyAll(q) == DenyAll(p)
            && Slot(q, c) == if exists g :: g in gs && GrantApplies(g, req) && ParseCapability(g.capability) == Some(c) then Allow else Slot(p, c)
  {
    hide ParseCapability, GrantApplies, Slot, SetSlot, DenyAll;
    if gs != [] {
      var front, g := gs[..|gs| - 1], gs[|gs| - 1];
      assert gs == front + [g];
      GrantsMeaning(front, req, p, c);
      if ParseCapability(g.capability).Some? {
        SlotLaws(ApplyGrants(front, req, p), ParseCapability(g.capability).value, c, Allow);
      }
    }
  }
}
