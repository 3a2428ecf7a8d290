/**
  The projection of a store and what it means to the resolver.

  The store module writes the projection, the policy module parses and applies it; neither sees the other.
  The agreement theorem says that the resolver's answer is the one the store's own records call for.
 */
module PermissionProjection {
  import opened Wrappers
  import opened Order
  import opened Utf8
  import opened JsonValue
  import opened JsonParse
  import opened JsonRoundTrip
  import opened PermissionTypes
  import opened PermissionStore
  import opened PermissionOverlay
  import opened PolicyTypes

  // What is projected

  function DefaultFor(key: string, d: map<Capability, CapState>, c: Capability): seq<OverlayDefault> {
    if c in d then [OverlayDefault(key, CapabilityName(c), CapStateName(d[c]))] else []
  }

  /** The defaults of one identity, in the order of the capability enumeration. */
  function DefaultsFor(key: string, d: map<Capability, CapState>): seq<OverlayDefault> {
    DefaultFor(key, d, Geolocation) + DefaultFor(key, d, Camera) + DefaultFor(key, d, Microphone) + DefaultFor(key, d, Notifications)
  }

  /** Tombstoned and spent grants are never projected. */
  predicate Projectable(g: StoredGrant) { !g.revoked && !(g.scope == Once && g.remainingUses <= 0) }

  function ProjectGrant(g: StoredGrant): OverlayGrant {
    OverlayGrant(g.identity, g.domain, CapabilityName(g.capability), ScopeName(g.scope),
                 if g.scope == SevenDays then g.expiresAt else 0,
                 if g.scope == Session then g.sessionId else "",
                 if g.scope == Once then g.remainingUses else 0)
  }

  function GrantsFor(gs: seq<StoredGrant>): seq<OverlayGrant> {
    if gs == [] then []
    else (if Projectable(gs[0]) then [ProjectGrant(gs[0])] else []) + GrantsFor(gs[1..])
  }

  function DeniedOf(ks: seq<string>, ids: map<string, IdentityRecord>): seq<string>
    requires forall k | k in ks :: k in ids
  {
    if ks == [] then [] else (if ids[ks[0]].denied then [ks[0]] else []) + DeniedOf(ks[1..], ids)
  }

  function DefaultsOf(ks: seq<string>, ids: map<string, IdentityRecord>): seq<OverlayDefault>
    requires forall k | k in ks :: k in ids
  {
    if ks == [] then [] else DefaultsFor(ks[0], ids[ks[0]].defaults) + DefaultsOf(ks[1..], ids)
  }

  function GrantsOf(ks: seq<string>, ids: map<string, IdentityRecord>): seq<OverlayGrant>
    requires forall k | k in ks :: k in ids
  {
    if ks == [] then [] else GrantsFor(ids[ks[0]].grants) + GrantsOf(ks[1..], ids)
  }

  ghost function ProjectView(s: Store): OverlayView {
    var ks := SortedKeys(s.identities.Keys);
    if s.corrupt then CORRUPT
    else OverlayView(true, false, DeniedOf(ks, s.identities), DefaultsOf(ks, s.identities), GrantsOf(ks, s.identities))
  }

  // Its document

  function DefaultJson(d: OverlayDefault): Json {
    Obj(map["identity" := Str(d.identity), "capability" := Str(d.capability), "state" := Str(d.state)])
  }

  function OverlayGrantJson(g: OverlayGrant): Json {
    Obj(map["identity" := Str(g.identity), "domain" := Str(g.domain), "capability" := Str(g.capability), "scope" := Str(g.scope)]
        [(if g.scope == "once" then "remaining_uses" else if g.scope == "session" then "session_id" else "expires_at") :=
           if g.scope == "once" then Int(g.remainingUses) else if g.scope == "session" then Str(g.sessionId) else Int(g.expiresAt)])
  }

  function DeniedJson(id: string): Json { Str(id) }

  function JsonList<T>(xs: seq<T>, f: T -> Json): (a: seq<Json>)
    ensures |a| == |xs| && forall i | 0 <= i < |xs| :: a[i] == f(xs[i])
  {
    if xs == [] then [] else [f(xs[0])] + JsonList(xs[1..], f)
  }

  function ViewJson(v: OverlayView): Json {
    if v.corrupt then Obj(map["contract_version" := Int(1), "corrupt" := Bool(true)])
    else Obj(map["contract_version" := Int(1), "denied_identities" := Arr(JsonList(v.denied, DeniedJson)),
                 "defaults" := Arr(JsonList(v.defaults, DefaultJson)), "grants" := Arr(JsonList(v.grants, OverlayGrantJson))])
  }

  ghost function ProjectText(s: Store): string { Print(ViewJson(ProjectView(s))) }

  // The strict parser accepts it and reads the same view

  predicate DefaultOk(d: OverlayDefault) {
    d.identity != "" && ParseCapability(d.capability).Some? && ParseCapState(d.state).Some?
  }

  predicate OverlayGrantOk(g: OverlayGrant) {
    && g.identity != "" && g.domain != "" && ParseCapability(g.capability).Some? && ParseScope(g.scope).Some?
    && (g.scope == "session" <==> g.sessionId != "")
    && (g.scope != "7d" ==> g.expiresAt == 0) && (g.scope != "once" ==> g.remainingUses == 0)
  }

  predicate ViewOk(v: OverlayView) {
    && v.present
    && (v.corrupt ==> v == CORRUPT)
    && (forall i | 0 <= i < |v.denied| :: v.denied[i] != "")
    && (forall i | 0 <= i < |v.defaults| :: DefaultOk(v.defaults[i]))
    && (forall i | 0 <= i < |v.grants| :: OverlayGrantOk(v.grants[i]))
    && NoRepeats(v.defaults)
  }

  lemma {:induction false} ListReads<T>(xs: seq<T>, f: T -> Json, item: Json -> Option<T>)
    requires forall i | 0 <= i < |xs| :: item(f(xs[i])) == Some(xs[i])
    ensures ParseAll(JsonList(xs, f), item) == Some(xs)
  {
    if xs != [] {
      forall i | 0 <= i < |xs[1..]| ensures item(f(xs[1..][i])) == Some(xs[1..][i]) { assert xs[1..][i] == xs[i + 1]; }
      ListReads(xs[1..], f, item);
      assert JsonList(xs, f)[1..] == JsonList(xs[1..], f);
      assert [xs[0]] + xs[1..] == xs;
    }
  }

  lemma DefaultReads(d: OverlayDefault)
    requires DefaultOk(d)
    ensures ParseDefault(DefaultJson(d)) == Some(d)
  {
    hide ParseCapability, ParseCapState;
  }

  lemma OverlayGrantReads(g: OverlayGrant)
    requires OverlayGrantOk(g)
    ensures ParseOverlayGrant(OverlayGrantJson(g)) == Some(g)
  {
    ScopeNames(g.scope);
    hide ParseCapability, ParseScope;
  }

  lemma ScopeNames(s: string)
    ensures ParseScope(s).Some? <==> s == "once" || s == "session" || s == "7d"
  {
  }

  lemma ViewReads(v: OverlayView)
    requires ViewOk(v)
    ensures ParseOverlay(ViewJson(v)) == Some(v)
  {
    hide DefaultOk, OverlayGrantOk, ParseDefault, ParseOverlayGrant, DefaultJson, OverlayGrantJson, NoRepeats, ParseAll, JsonList, ParseDenied, DeniedJson, ViewJson;
    ViewFields(v);
    if !v.corrupt {
      forall i | 0 <= i < |v.denied| ensures ParseDenied(DeniedJson(v.denied[i])) == Some(v.denied[i]) { DeniedReads(v.denied[i]); }
      forall i | 0 <= i < |v.defaults| ensures ParseDefault(DefaultJson(v.defaults[i])) == Some(v.defaults[i]) { DefaultReads(v.defaults[i]); }
      forall i | 0 <= i < |v.grants| ensures ParseOverlayGrant(OverlayGrantJson(v.grants[i])) == Some(v.grants[i]) { OverlayGrantReads(v.grants[i]); }
      ListReads(v.denied, DeniedJson, ParseDenied);
      ListReads(v.defaults, DefaultJson, ParseDefault);
      ListReads(v.grants, OverlayGrantJson, ParseOverlayGrant);
    }
  }

  lemma DeniedReads(id: string)
    requires id != ""
    ensures ParseDenied(DeniedJson(id)) == Some(id)
  {
  }

  lemma ViewFields(v: OverlayView)
    ensures var j := ViewJson(v);
            && j.Obj? && "contract_version" in j.fields && j.fields["contract_version"] == Int(1)
            && (v.corrupt ==> KeysExactly(j, {"contract_version", "corrupt"}) && j.fields["corrupt"] == Bool(true))
            && (!v.corrupt ==> KeysExactly(j, {"contract_version", "denied_identities", "defaults", "grants"})
                               && j.fields["denied_identities"] == Arr(JsonList(v.denied, DeniedJson))
                               && j.fields["defaults"] == Arr(JsonList(v.defaults, DefaultJson))
                               && j.fields["grants"] == Arr(JsonList(v.grants, OverlayGrantJson)))
  {
    hide JsonList;
  }

  // What the projection contains

  lemma DefaultsForContents(key: string, d: map<Capability, CapState>, x: OverlayDefault)
    ensures x in DefaultsFor(key, d) <==> exists c :: c in d && x == OverlayDefault(key, CapabilityName(c), CapStateName(d[c]))
  {
    hide CapabilityName, CapStateName;
    if c :| c in d && x == OverlayDefault(key, CapabilityName(c), CapStateName(d[c])) {
      match c case Geolocation => case Camera => case Microphone => case Notifications =>
    }
  }

  lemma {:induction false} DefaultsContents(ks: seq<string>, ids: map<string, IdentityRecord>, x: OverlayDefault)
    requires forall k | k in ks :: k in ids
    ensures x in DefaultsOf(ks, ids) <==> exists k :: k in ks && x in DefaultsFor(k, ids[k].defaults)
  {
    hide DefaultsFor;
    if ks != [] {
      DefaultsContents(ks[1..], ids, x);
      assert ks == [ks[0]] + ks[1..];
    }
  }

  lemma {:induction false} GrantsForContents(gs: seq<StoredGrant>, x: OverlayGrant)
    ensures x in GrantsFor(gs) <==> exists i :: 0 <= i < |gs| && Projectable(gs[i]) && x == ProjectGrant(gs[i])
  {
    hide ProjectGrant, Projectable;
    if gs != [] {
      GrantsForContents(gs[1..], x);
      if x in GrantsFor(gs[1..]) {
        var i :| 0 <= i < |gs[1..]| && Projectable(gs[1..][i]) && x == ProjectGrant(gs[1..][i]);
        assert gs[i + 1] == gs[1..][i];
      }
      if i :| 0 <= i < |gs| && Projectable(gs[i]) && x == ProjectGrant(gs[i]) {
        if i > 0 { assert gs[1..][i - 1] == gs[i]; }
      }
    }
  }

  lemma {:induction false} GrantsContents(ks: seq<string>, ids: map<string, IdentityRecord>, x: OverlayGrant)
    requires forall k | k in ks :: k in ids
    ensures x in GrantsOf(ks, ids) <==> exists k :: k in ks && x in GrantsFor(ids[k].grants)
  {
    hide GrantsFor;
    if ks != [] {
      GrantsContents(ks[1..], ids, x);
      assert ks == [ks[0]] + ks[1..];
    }
  }

  lemma {:induction false} DeniedContents(ks: seq<string>, ids: map<string, IdentityRecord>, x: string)
    requires forall k | k in ks :: k in ids
    ensures x in DeniedOf(ks, ids) <==> x in ks && ids[x].denied
  {
    if ks != [] {
      DeniedContents(ks[1..], ids, x);
      assert ks == [ks[0]] + ks[1..];
    }
  }

  // A well-formed store projects to a view the parser accepts

  lemma ProjectedGrantOk(g: StoredGrant, key: string)
    requires GrantOk(g, key) && key != ""
    ensures OverlayGrantOk(ProjectGrant(g))
  {
    NamesRoundTrip(Deny, g.capability, g.scope, "");
    hide ParseCapability, CapabilityName;
  }

  lemma CapabilityNamesDiffer(c: Capability, c': Capability)
    requires c != c'
    ensures CapabilityName(c) != CapabilityName(c')
  {
    NamesRoundTrip(Deny, c, Once, "");
    NamesRoundTrip(Deny, c', Once, "");
  }

  lemma DefaultsForDistinct(key: string, d: map<Capability, CapState>)
    ensures NoRepeats(DefaultsFor(key, d))
  {
    forall c: Capability, c': Capability | c != c' ensures CapabilityName(c) != CapabilityName(c') { CapabilityNamesDiffer(c, c'); }
    hide CapabilityName, CapStateName;
    var a, b, e, f := DefaultFor(key, d, Geolocation), DefaultFor(key, d, Camera), DefaultFor(key, d, Microphone), DefaultFor(key, d, Notifications);
    NoRepeatsAppend(a, b);
    NoRepeatsAppend(a + b, e);
    NoRepeatsAppend(a + b + e, f);
  }

  lemma NoRepeatsAppend(a: seq<OverlayDefault>, b: seq<OverlayDefault>)
    requires NoRepeats(a) && NoRepeats(b)
    requires forall x, y | x in a && y in b :: !(x.identity == y.identity && x.capability == y.capability)
    ensures NoRepeats(a + b)
  {
    var c := a + b;
    forall i, j | 0 <= i < j < |c| ensures !(c[i].identity == c[j].identity && c[i].capability == c[j].capability) {
      if j < |a| { assert c[i] == a[i] && c[j] == a[j]; }
      else if i >= |a| { assert c[i] == b[i - |a|] && c[j] == b[j - |a|]; }
      else { assert c[i] in a && c[j] in b; }
    }
  }

  lemma {:induction false} DefaultsDistinct(ks: seq<string>, ids: map<string, IdentityRecord>)
    requires forall k | k in ks :: k in ids
    requires forall i, j | 0 <= i < j < |ks| :: ks[i] != ks[j]
    ensures NoRepeats(DefaultsOf(ks, ids))
  {
    if ks != [] {
      var a, b := DefaultsFor(ks[0], ids[ks[0]].defaults), DefaultsOf(ks[1..], ids);
      DefaultsForDistinct(ks[0], ids[ks[0]].defaults);
      forall i, j | 0 <= i < j < |ks[1..]| ensures ks[1..][i] != ks[1..][j] { assert ks[i + 1] != ks[j + 1]; }
      DefaultsDistinct(ks[1..], ids);
      forall x, y | x in a && y in b ensures !(x.identity == y.identity && x.capability == y.capability) {
        DefaultsForContents(ks[0], ids[ks[0]].defaults, x);
        DefaultsContents(ks[1..], ids, y);
        var k :| k in ks[1..] && y in DefaultsFor(k, ids[k].defaults);
        DefaultsForContents(k, ids[k].defaults, y);
        var i :| 0 <= i < |ks[1..]| && ks[1..][i] == k;
        assert ks[i + 1] == k && ks[0] != ks[i + 1];
      }
      hide DefaultsFor, NoRepeats;
      NoRepeatsAppend(a, b);
    }
  }

  lemma KeysDiffer(s: set<string>)
    ensures var ks := SortedKeys(s); forall i, j | 0 <= i < j < |ks| :: ks[i] != ks[j]
  {
    StringsAreOrdered();
    hide Less;
  }

  /** Every well-formed store's projection is accepted by the resolver's strict parser, and read as it was meant. */
  lemma ProjectionAccepted(s: Store)
    requires s.corrupt || StoreOk(s)
    ensures ViewOk(ProjectView(s))
    ensures ParseOverlay(ViewJson(ProjectView(s))) == Some(ProjectView(s))
  {
    if !s.corrupt { ProjectViewOk(s); }
    hide ViewOk, ProjectView, ParseOverlay, ViewJson;
    if s.corrupt { CorruptViewOk(s); }
    ViewReads(ProjectView(s));
  }

  lemma CorruptViewOk(s: Store)
    requires s.corrupt
    ensures ViewOk(ProjectView(s))
  {
  }

  lemma ProjectViewOk(s: Store)
    requires StoreOk(s)
    ensures ViewOk(ProjectView(s))
  {
    hide DefaultOk, OverlayGrantOk, DefaultsFor, GrantsFor, DefaultsOf, GrantsOf, DeniedOf, NoRepeats, DistinctIds, SortedKeys, GrantOk;
    var ids := s.identities;
    var ks := SortedKeys(ids.Keys);
    var v := ProjectView(s);
    forall i | 0 <= i < |v.denied| ensures v.denied[i] != "" { DeniedContents(ks, ids, v.denied[i]); }
    forall i | 0 <= i < |v.defaults| ensures DefaultOk(v.defaults[i]) {
      var x := v.defaults[i];
      DefaultsContents(ks, ids, x);
      var k :| k in ks && x in DefaultsFor(k, ids[k].defaults);
      DefaultsForContents(k, ids[k].defaults, x);
      var c :| c in ids[k].defaults && x == OverlayDefault(k, CapabilityName(c), CapStateName(ids[k].defaults[c]));
      ProjectedDefaultOk(k, c, ids[k].defaults[c]);
    }
    forall i | 0 <= i < |v.grants| ensures OverlayGrantOk(v.grants[i]) {
      var x := v.grants[i];
      GrantsContents(ks, ids, x);
      var k :| k in ks && x in GrantsFor(ids[k].grants);
      GrantsForContents(ids[k].grants, x);
      var j :| 0 <= j < |ids[k].grants| && Projectable(ids[k].grants[j]) && x == ProjectGrant(ids[k].grants[j]);
      assert RecordOk(ids[k], k);
      ProjectedGrantOk(ids[k].grants[j], k);
    }
    KeysDiffer(ids.Keys);
    DefaultsDistinct(ks, ids);
  }

  lemma ProjectedDefaultOk(k: string, c: Capability, st: CapState)
    requires k != ""
    ensures DefaultOk(OverlayDefault(k, CapabilityName(c), CapStateName(st)))
  {
    NamesRoundTrip(st, c, Once, "");
    hide CapabilityName, CapStateName, ParseCapability, ParseCapState;
  }

  // What the resolver then answers

  /** A stored grant that counts for a request, in the store's own terms. */
  predicate Live(g: StoredGrant, req: Request, c: Capability) {
    && !g.revoked && g.domain == req.domain && g.capability == c
    && match g.scope
       case Once => g.remainingUses > 0
       case Session => g.sessionId == req.session
       case SevenDays => g.expiresAt > req.now
  }

  ghost predicate HasLive(gs: seq<StoredGrant>, req: Request, c: Capability) {
    exists i :: 0 <= i < |gs| && Live(gs[i], req, c)
  }

  /** What the records of a store call for, capability by capability, over a base policy `p`. */
  ghost function Answer(s: Store, req: Request, p: EffectivePolicy, c: Capability): CapState {
    if s.corrupt then Deny
    else if req.identity !in s.identities then Slot(p, c)
    else
      var r := s.identities[req.identity];
      if r.denied then Deny
      else if HasLive(r.grants, req, c) then Allow
      else if c in r.defaults then r.defaults[c]
      else Slot(p, c)
  }

  /** The policy the resolver produces when it is handed this store's projection as text. */
  ghost function Enforced(s: Store, req: Request, p: EffectivePolicy): EffectivePolicy {
    ApplyOverlay(RequestOverlay(Parse(ProjectText(s))), req, p)
  }

  ghost predicate Sound(s: Store) { s.corrupt || (StoreOk(s) && StoreUtf8(s)) }

  lemma LiveIsApplied(g: StoredGrant, key: string, req: Request, c: Capability)
    requires GrantOk(g, key)
    ensures Live(g, req, c) && key == req.identity
            <==> Projectable(g) && GrantApplies(ProjectGrant(g), req) && ParseCapability(ProjectGrant(g).capability) == Some(c)
  {
    NamesRoundTrip(Deny, g.capability, g.scope, "");
    hide ParseCapability, CapabilityName, ParseScope;
  }

  lemma GrantsAnswer(s: Store, req: Request, c: Capability)
    requires StoreOk(s)
    ensures var gs := ProjectView(s).grants;
            (exists g :: g in gs && GrantApplies(g, req) && ParseCapability(g.capability) == Some(c))
            <==> req.identity in s.identities && HasLive(s.identities[req.identity].grants, req, c)
  {
    hide ParseCapability, GrantApplies, ProjectGrant, Projectable, GrantsFor, GrantsOf, DefaultsOf, DeniedOf, SortedKeys, Live, GrantOk, DistinctIds;
    var ids := s.identities;
    var ks := SortedKeys(ids.Keys);
    var gs := ProjectView(s).grants;
    if g :| g in gs && GrantApplies(g, req) && ParseCapability(g.capability) == Some(c) {
      GrantsContents(ks, ids, g);
      var k :| k in ks && g in GrantsFor(ids[k].grants);
      GrantsForContents(ids[k].grants, g);
      var i :| 0 <= i < |ids[k].grants| && Projectable(ids[k].grants[i]) && g == ProjectGrant(ids[k].grants[i]);
      assert RecordOk(ids[k], k);
      LiveIsApplied(ids[k].grants[i], k, req, c);
    }
    if req.identity in ids && HasLive(ids[req.identity].grants, req, c) {
      var k := req.identity;
      var i :| 0 <= i < |ids[k].grants| && Live(ids[k].grants[i], req, c);
      assert RecordOk(ids[k], k);
      LiveIsApplied(ids[k].grants[i], k, req, c);
      var g := ProjectGrant(ids[k].grants[i]);
      GrantsForContents(ids[k].grants, g);
      GrantsContents(ks, ids, g);
    }
  }

  lemma DefaultsAnswer(s: Store, identity: string, c: Capability, d: OverlayDefault)
    requires !s.corrupt
    ensures d in ProjectView(s).defaults && DefaultMatches(d, identity, c)
            <==> identity in s.identities && c in s.identities[identity].defaults
                 && d == OverlayDefault(identity, CapabilityName(c), CapStateName(s.identities[identity].defaults[c]))
  {
    hide CapabilityName, CapStateName, ParseCapability, DefaultsFor, DefaultsOf, GrantsOf, DeniedOf, SortedKeys;
    var ids := s.identities;
    var ks := SortedKeys(ids.Keys);
    NamesRoundTrip(Deny, c, Once, d.capability);
    DefaultsContents(ks, ids, d);
    if d in ProjectView(s).defaults && DefaultMatches(d, identity, c) {
      var k :| k in ks && d in DefaultsFor(k, ids[k].defaults);
      DefaultsForContents(k, ids[k].defaults, d);
      var c' :| c' in ids[k].defaults && d == OverlayDefault(k, CapabilityName(c'), CapStateName(ids[k].defaults[c']));
      NamesRoundTrip(Deny, c', Once, "");
    }
    if identity in ids { DefaultsForContents(identity, ids[identity].defaults, d); }
  }

  /** The two modules agree on data: applying the projected view gives the answer of the records. */
  lemma ViewAgrees(s: Store, req: Request, p: EffectivePolicy, c: Capability)
    requires s.corrupt || StoreOk(s)
    ensures var q := ApplyOverlay(ProjectView(s), req, p); DenyAll(q) == DenyAll(p) && Slot(q, c) == Answer(s, req, p, c)
  {
    var v := ProjectView(s);
    SlotLaws(p, c, c, Deny);
    if !s.corrupt {
      var ids := s.identities;
      DeniedContents(SortedKeys(ids.Keys), ids, req.identity);
      assert req.identity in v.denied <==> req.identity in ids && ids[req.identity].denied;
      var (q, seen) := ApplyDefaults(v.defaults, req.identity, p);
      DefaultsMeaning(v.defaults, req.identity, p, c);
      GrantsMeaning(v.grants, req, q, c);
      GrantsAnswer(s, req, c);
      DefaultSlot(s, req.identity, c, q, seen, p);
      hide ProjectView, ApplyDefaults, ApplyGrants, HasLive, DenyAll, Slot, GrantApplies, DefaultMatches, ParseCapability, StoreOk;
    }
  }

  lemma DefaultSlot(s: Store, identity: string, c: Capability, q: EffectivePolicy, seen: set<Capability>, p: EffectivePolicy)
    requires !s.corrupt && (q, seen) == ApplyDefaults(ProjectView(s).defaults, identity, p)
    ensures Slot(q, c) == if identity in s.identities && c in s.identities[identity].defaults then s.identities[identity].defaults[c] else Slot(p, c)
  {
    hide ProjectView, ApplyDefaults, Slot, DenyAll, DefaultMatches, CapabilityName, CapStateName, ParseCapState;
    var ds := ProjectView(s).defaults;
    DefaultsMeaning(ds, identity, p, c);
    if identity in s.identities && c in s.identities[identity].defaults {
      var st := s.identities[identity].defaults[c];
      NamesRoundTrip(st, c, Once, "");
      DefaultsAnswer(s, identity, c, OverlayDefault(identity, CapabilityName(c), CapStateName(st)));
      var d :| d in ds && DefaultMatches(d, identity, c) && DefaultState(d) == Slot(q, c);
      DefaultsAnswer(s, identity, c, d);
    } else if c in seen {
      var d :| d in ds && DefaultMatches(d, identity, c) && DefaultState(d) == Slot(q, c);
      DefaultsAnswer(s, identity, c, d);
    }
  }

  // ... and so do the two modules through text

  ghost predicate Clean(v: Json, n: int) { PlainWithin(v, n) && Utf8Clean(v) }

  lemma ViewKeysUtf8(k: string)
    requires k in {"contract_version", "corrupt", "denied_identities", "defaults", "grants", "identity", "capability", "state", "domain", "scope",
                   "remaining_uses", "session_id", "expires_at", "once", "session", "7d"}
    ensures Valid(k)
  {
    hide Valid, CharLen;
    if k in GRANT_KEYS || k in RECORD_KEYS || k in STORE_KEYS || k == "corrupt" { KeysUtf8(k); } else { NewKeysAscii(k); AsciiUtf8(k); }
  }

  lemma NewKeysAscii(k: string)
    requires k in {"denied_identities", "state", "once", "session", "7d"}
    ensures Ascii(k)
  {
  }

  lemma ObjectClean(v: Json, n: int)
    requires v.Obj? && n >= 0 && forall k | k in v.fields :: Valid(k) && Clean(v.fields[k], n - 1)
    ensures Clean(v, n)
  {
    hide PlainWithin, Utf8Clean, Valid;
    ObjectPlain(v, n);
  }

  lemma ListClean(a: seq<Json>, n: int)
    requires n >= 0 && forall i | 0 <= i < |a| :: Clean(a[i], n - 1)
    ensures Clean(Arr(a), n)
  {
    hide Valid;
  }

  lemma ScalarClean(v: Json, n: int)
    requires n >= 0 && ((v.Str? && Valid(v.s)) || v.Int? || v.Bool?)
    ensures Clean(v, n)
  {
    hide Valid;
  }

  ghost predicate ViewUtf8(v: OverlayView) {
    && (forall i | 0 <= i < |v.denied| :: Valid(v.denied[i]))
    && (forall i | 0 <= i < |v.defaults| :: var d := v.defaults[i]; Valid(d.identity) && Valid(d.capability) && Valid(d.state))
    && (forall i | 0 <= i < |v.grants| :: var g := v.grants[i]; Valid(g.identity) && Valid(g.domain) && Valid(g.capability) && Valid(g.scope) && Valid(g.sessionId))
  }

  lemma DefaultClean(d: OverlayDefault)
    requires Valid(d.identity) && Valid(d.capability) && Valid(d.state)
    ensures Clean(DefaultJson(d), 1)
  {
    hide Valid, Clean;
    var v := DefaultJson(d);
    forall k | k in v.fields ensures Valid(k) && Clean(v.fields[k], 0) { ViewKeysUtf8(k); ScalarClean(v.fields[k], 0); }
    hide DefaultJson;
    ObjectClean(v, 1);
  }

  lemma OverlayGrantClean(g: OverlayGrant)
    requires Valid(g.identity) && Valid(g.domain) && Valid(g.capability) && Valid(g.scope) && Valid(g.sessionId)
    ensures Clean(OverlayGrantJson(g), 1)
  {
    hide Valid, Clean;
    var v := OverlayGrantJson(g);
    forall k | k in v.fields ensures Valid(k) && Clean(v.fields[k], 0) { ViewKeysUtf8(k); ScalarClean(v.fields[k], 0); }
    hide OverlayGrantJson;
    ObjectClean(v, 1);
  }

  lemma ViewClean(v: OverlayView)
    requires ViewUtf8(v)
    ensures Clean(ViewJson(v), 3)
  {
    hide Valid, Clean, ViewJson, DefaultJson, OverlayGrantJson, JsonList;
    ViewFields(v);
    var j := ViewJson(v);
    if !v.corrupt {
      forall i | 0 <= i < |v.denied| ensures Clean(DeniedJson(v.denied[i]), 1) { ScalarClean(DeniedJson(v.denied[i]), 1); }
      forall i | 0 <= i < |v.defaults| ensures Clean(DefaultJson(v.defaults[i]), 1) { DefaultClean(v.defaults[i]); }
      forall i | 0 <= i < |v.grants| ensures Clean(OverlayGrantJson(v.grants[i]), 1) { OverlayGrantClean(v.grants[i]); }
      ListClean(JsonList(v.denied, DeniedJson), 2);
      ListClean(JsonList(v.defaults, DefaultJson), 2);
      ListClean(JsonList(v.grants, OverlayGrantJson), 2);
    }
    hide ViewUtf8, DeniedJson;
    forall k | k in j.fields ensures Valid(k) && Clean(j.fields[k], 2) {
      ViewKeysUtf8(k);
      if k == "contract_version" || k == "corrupt" { ScalarClean(j.fields[k], 2); }
    }
    ObjectClean(j, 3);
  }

  ghost predicate RecordsUtf8(ids: map<string, IdentityRecord>) {
    forall k | k in ids :: Valid(k) && RecordUtf8(ids[k]) && forall i | 0 <= i < |ids[k].grants| :: ids[k].grants[i].identity == k
  }

  lemma DefaultUtf8(ks: seq<string>, ids: map<string, IdentityRecord>, x: OverlayDefault)
    requires (forall k | k in ks :: k in ids) && RecordsUtf8(ids) && x in DefaultsOf(ks, ids)
    ensures Valid(x.identity) && Valid(x.capability) && Valid(x.state)
  {
    hide DefaultsFor, DefaultsOf, Valid, CapabilityName, CapStateName, RecordUtf8;
    DefaultsContents(ks, ids, x);
    var k :| k in ks && x in DefaultsFor(k, ids[k].defaults);
    DefaultsForContents(k, ids[k].defaults, x);
    var c :| c in ids[k].defaults && x == OverlayDefault(k, CapabilityName(c), CapStateName(ids[k].defaults[c]));
    CapabilityNameUtf8(c);
    StateNameUtf8(ids[k].defaults[c]);
  }

  lemma GrantViewUtf8(ks: seq<string>, ids: map<string, IdentityRecord>, x: OverlayGrant)
    requires (forall k | k in ks :: k in ids) && RecordsUtf8(ids) && x in GrantsOf(ks, ids)
    ensures Valid(x.identity) && Valid(x.domain) && Valid(x.capability) && Valid(x.scope) && Valid(x.sessionId)
  {
    hide GrantsFor, GrantsOf, Valid, CapabilityName, ScopeName, Projectable;
    GrantsContents(ks, ids, x);
    var k :| k in ks && x in GrantsFor(ids[k].grants);
    GrantsForContents(ids[k].grants, x);
    var j :| 0 <= j < |ids[k].grants| && Projectable(ids[k].grants[j]) && x == ProjectGrant(ids[k].grants[j]);
    var g := ids[k].grants[j];
    assert RecordUtf8(ids[k]) && GrantUtf8(g);
    CapabilityNameUtf8(g.capability);
    ScopeNameUtf8(g.scope);
    EmptyUtf8();
  }

  lemma StoreRecordsUtf8(s: Store)
    requires StoreOk(s) && StoreUtf8(s)
    ensures RecordsUtf8(s.identities)
  {
    hide Valid, DistinctIds, IsExtraCapability;
    forall k | k in s.identities ensures forall i | 0 <= i < |s.identities[k].grants| :: s.identities[k].grants[i].identity == k {
      assert RecordOk(s.identities[k], k);
    }
  }

  lemma ProjectionUtf8(s: Store)
    requires Sound(s)
    ensures ViewUtf8(ProjectView(s))
  {
    if s.corrupt { CorruptUtf8(s); return; }
    StoreRecordsUtf8(s);
    hide *;
    var ids := s.identities;
    var ks := SortedKeys(ids.Keys);
    ListsUtf8(ks, ids);
    ViewShape(s);
  }

  lemma CorruptUtf8(s: Store)
    requires s.corrupt
    ensures ViewUtf8(ProjectView(s))
  {
  }

  lemma ViewShape(s: Store)
    requires !s.corrupt
    ensures var ks := SortedKeys(s.identities.Keys);
            ProjectView(s) == OverlayView(true, false, DeniedOf(ks, s.identities), DefaultsOf(ks, s.identities), GrantsOf(ks, s.identities))
  {
    hide DeniedOf, DefaultsOf, GrantsOf, SortedKeys;
  }

  lemma ListsUtf8(ks: seq<string>, ids: map<string, IdentityRecord>)
    requires (forall k | k in ks :: k in ids) && RecordsUtf8(ids)
    ensures ViewUtf8(OverlayView(true, false, DeniedOf(ks, ids), DefaultsOf(ks, ids), GrantsOf(ks, ids)))
  {
    hide DefaultsOf, GrantsOf, DeniedOf, Valid, RecordUtf8;
    var denied, defaults, grants := DeniedOf(ks, ids), DefaultsOf(ks, ids), GrantsOf(ks, ids);
    forall i | 0 <= i < |denied| ensures Valid(denied[i]) { DeniedContents(ks, ids, denied[i]); }
    hide RecordsUtf8;
    forall i | 0 <= i < |defaults| ensures var d := defaults[i]; Valid(d.identity) && Valid(d.capability) && Valid(d.state) {
      DefaultUtf8(ks, ids, defaults[i]);
    }
    forall i | 0 <= i < |grants| ensures var g := grants[i]; Valid(g.identity) && Valid(g.domain) && Valid(g.capability) && Valid(g.scope) && Valid(g.sessionId) {
      GrantViewUtf8(ks, ids, grants[i]);
    }
  }

  lemma EmptyUtf8()
    ensures Valid("")
  {
  }

  /** The projected text is read back as the projected view. */
  lemma ProjectionTextReads(s: Store)
    requires Sound(s)
    ensures RequestOverlay(Parse(ProjectText(s))) == ProjectView(s)
  {
    hide Parse, Print, ViewJson, ParseOverlay, ProjectView, Valid, StoreOk, StoreUtf8;
    ProjectionUtf8(s);
    ViewClean(ProjectView(s));
    ProjectionAccepted(s);
    CleanReads(ViewJson(ProjectView(s)), 3);
  }

  lemma CleanReads(v: Json, n: int)
    requires Clean(v, n) && n <= MAX_DEPTH
    ensures Parse(Print(v)) == Some(v)
  {
    PlainMore(v, n, MAX_DEPTH);
    RoundTrip(v);
  }

  /**
    The agreement theorem: for every sound store, request and base policy, what the resolver enforces after
    parsing the projected text is, field by field, what the store's records call for, and nothing else changes.
   */
  lemma ProjectionAgrees(s: Store, req: Request, p: EffectivePolicy)
    requires Sound(s)
    ensures DenyAll(Enforced(s, req, p)) == DenyAll(p)
    ensures forall c: Capability :: Slot(Enforced(s, req, p), c) == Answer(s, req, p, c)
  {
    ProjectionTextReads(s);
    ViewAgrees(s, req, p, Camera);
    forall c: Capability ensures Slot(Enforced(s, req, p), c) == Answer(s, req, p, c) { ViewAgrees(s, req, p, c); }
  }

  /** Two stores whose records call for the same answers are enforced alike. */
  lemma SameAnswers(s: Store, s': Store, req: Request, req': Request, p: EffectivePolicy)
    requires Sound(s) && Sound(s') && forall c: Capability :: Answer(s, req, p, c) == Answer(s', req', p, c)
    ensures Enforced(s, req, p) == Enforced(s', req', p)
  {
    ProjectionAgrees(s, req, p);
    ProjectionAgrees(s', req', p);
    hide Enforced, Answer, Slot, DenyAll, Sound;
    forall c: Capability ensures Slot(Enforced(s, req, p), c) == Slot(Enforced(s', req', p), c) { assert Answer(s, req, p, c) == Answer(s', req', p, c); }
    SlotsDetermine(Enforced(s, req, p), Enforced(s', req', p));
  }
}
