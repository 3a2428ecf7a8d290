/** Which overlays a request may carry, and what a carried one does to a policy, written out. */
module OverlayMeaning {
  import opened Wrappers
  import opened Order
  import opened JsonValue
  import opened PermissionTypes
  import opened PermissionStore
  import opened PermissionMeaning
  import opened PermissionOverlay
  import opened PolicyTypes

  // What is accepted

  ghost predicate Field(v: Json, k: string, w: Json) { v.Obj? && k in v.fields && v.fields[k] == w }

  ghost predicate Only(v: Json, names: set<string>) { v.Obj? && forall k | k in v.fields :: k in names }

  ghost predicate KnownCapability(name: string) { name == "geolocation" || name == "camera" || name == "microphone" || name == "notifications" }

  ghost predicate KnownState(name: string) { name == "kDeny" || name == "kAsk" || name == "kAllow" }

  lemma KnownNames(name: string)
    ensures ParseCapability(name).Some? <==> KnownCapability(name)
    ensures ParseCapState(name).Some? <==> KnownState(name)
  {
  }

  lemma FieldsAreGot(v: Json, k: string)
    ensures forall s :: GetStr(v, k) == Some(s) <==> Field(v, k, Str(s))
    ensures forall i: int64 :: GetInt(v, k) == Some(i) <==> Field(v, k, Int(i))
  {
  }

  ghost predicate IsDefault(v: Json, d: OverlayDefault) {
    && Only(v, {"identity", "capability", "state"})
    && Field(v, "identity", Str(d.identity)) && Field(v, "capability", Str(d.capability)) && Field(v, "state", Str(d.state))
    && d.identity != "" && KnownCapability(d.capability) && KnownState(d.state)
  }

  lemma DefaultExact(v: Json, d: OverlayDefault)
    ensures ParseDefault(v) == Some(d) <==> IsDefault(v, d)
  {
    FieldsAreGot(v, "identity");
    FieldsAreGot(v, "capability");
    FieldsAreGot(v, "state");
    KnownNames(d.capability);
    KnownNames(d.state);
    hide GetStr, Field, ParseCapability, ParseCapState, KnownCapability, KnownState;
  }

  ghost predicate IsOnce(v: Json, g: OverlayGrant) {
    && Only(v, {"identity", "domain", "capability", "scope", "remaining_uses"})
    && Field(v, "remaining_uses", Int(g.remainingUses)) && g.expiresAt == 0 && g.sessionId == ""
  }

  ghost predicate IsSession(v: Json, g: OverlayGrant) {
    && Only(v, {"identity", "domain", "capability", "scope", "session_id"})
    && Field(v, "session_id", Str(g.sessionId)) && g.sessionId != "" && g.expiresAt == 0 && g.remainingUses == 0
  }

  ghost predicate IsSevenDays(v: Json, g: OverlayGrant) {
    && Only(v, {"identity", "domain", "capability", "scope", "expires_at"})
    && Field(v, "expires_at", Int(g.expiresAt)) && g.sessionId == "" && g.remainingUses == 0
  }

  ghost predicate IsGrant(v: Json, g: OverlayGrant) {
    && Field(v, "identity", Str(g.identity)) && Field(v, "domain", Str(g.domain))
    && Field(v, "capability", Str(g.capability)) && Field(v, "scope", Str(g.scope))
    && g.identity != "" && g.domain != "" && KnownCapability(g.capability)
    && ((g.scope == "once" && IsOnce(v, g)) || (g.scope == "session" && IsSession(v, g)) || (g.scope == "7d" && IsSevenDays(v, g)))
  }

  lemma GrantIsRead(v: Json, g: OverlayGrant)
    requires IsGrant(v, g)
    ensures ParseOverlayGrant(v) == Some(g)
  {
    KnownNames(g.capability);
    hide ParseCapability, KnownCapability;
  }

  lemma ReadIsGrant(v: Json, g: OverlayGrant)
    requires ParseOverlayGrant(v) == Some(g)
    ensures IsGrant(v, g)
  {
    KnownNames(g.capability);
    hide ParseCapability, KnownCapability;
  }

  lemma GrantExact(v: Json, g: OverlayGrant)
    ensures ParseOverlayGrant(v) == Some(g) <==> IsGrant(v, g)
  {
    hide *;
    if IsGrant(v, g) { GrantIsRead(v, g); }
    if ParseOverlayGrant(v) == Some(g) { ReadIsGrant(v, g); }
  }

  /** A list that is not there is empty; one that is there is read item by item. */
  ghost predicate Listed<T(!new)>(v: Json, key: string, xs: seq<T>, item: (Json, T) -> bool)
    requires v.Obj?
  {
    if key !in v.fields then xs == [] else v.fields[key].Arr? && Each(v.fields[key].items, xs, item)
  }

  ghost predicate Each<T(!new)>(a: seq<Json>, xs: seq<T>, item: (Json, T) -> bool) { |a| == |xs| && forall i | 0 <= i < |a| :: item(a[i], xs[i]) }

  ghost predicate Reads<T(!new)>(read: Json -> Option<T>, item: (Json, T) -> bool) { forall v, x :: read(v) == Some(x) <==> item(v, x) }

  lemma {:induction false} EachExact<T(!new)>(a: seq<Json>, xs: seq<T>, read: Json -> Option<T>, item: (Json, T) -> bool)
    requires Reads(read, item)
    ensures ParseAll(a, read) == Some(xs) <==> Each(a, xs, item)
  {
    if a != [] && xs != [] {
      EachExact(a[1..], xs[1..], read, item);
      assert a == [a[0]] + a[1..] && xs == [xs[0]] + xs[1..];
      if Each(a[1..], xs[1..], item) && item(a[0], xs[0]) {
        forall i | 0 <= i < |a| ensures item(a[i], xs[i]) { if i > 0 { assert item(a[1..][i - 1], xs[1..][i - 1]); } }
      }
      assert read(a[0]) == Some(xs[0]) <==> item(a[0], xs[0]);
    }
  }

  lemma ListExact<T(!new)>(v: Json, key: string, xs: seq<T>, read: Json -> Option<T>, item: (Json, T) -> bool)
    requires v.Obj? && Reads(read, item)
    ensures ParseList(v, key, read) == Some(xs) <==> Listed(v, key, xs, item)
  {
    if key in v.fields && v.fields[key].Arr? { EachExact(v.fields[key].items, xs, read, item); }
    hide Reads, ParseAll, Each;
  }

  ghost predicate IsDenied(v: Json, id: string) { v == Str(id) && id != "" }

  ghost predicate IsOverlay(v: Json, view: OverlayView) {
    && Only(v, {"contract_version", "corrupt", "denied_identities", "defaults", "grants"})
    && ("contract_version" in v.fields ==> v.fields["contract_version"] == Int(1))
    && ("corrupt" in v.fields ==> v.fields["corrupt"].Bool?)
    && if Field(v, "corrupt", Bool(true)) then view == OverlayView(true, true, [], [], [])
       else view.present && !view.corrupt && IsBody(v, view)
  }

  ghost predicate IsBody(v: Json, view: OverlayView)
    requires v.Obj?
  {
    && Listed(v, "denied_identities", view.denied, IsDenied)
    && Listed(v, "defaults", view.defaults, IsDefault)
    && Listed(v, "grants", view.grants, IsGrant)
    && (forall i, j | 0 <= i < |view.defaults| && 0 <= j < |view.defaults| && view.defaults[i].identity == view.defaults[j].identity
                      && view.defaults[i].capability == view.defaults[j].capability :: i == j)
  }

  lemma BodyExact(v: Json, view: OverlayView)
    requires v.Obj?
    ensures (&& ParseList(v, "denied_identities", ParseDenied) == Some(view.denied)
             && ParseList(v, "defaults", ParseDefault) == Some(view.defaults)
             && ParseList(v, "grants", ParseOverlayGrant) == Some(view.grants) && NoRepeats(view.defaults)) <==> IsBody(v, view)
  {
    forall w, d ensures ParseDefault(w) == Some(d) <==> IsDefault(w, d) { DefaultExact(w, d); }
    forall w, g ensures ParseOverlayGrant(w) == Some(g) <==> IsGrant(w, g) { GrantExact(w, g); }
    hide ParseDefault, IsDefault, ParseOverlayGrant, IsGrant, ParseList, Listed;
    ListExact(v, "denied_identities", view.denied, ParseDenied, IsDenied);
    ListExact(v, "defaults", view.defaults, ParseDefault, IsDefault);
    ListExact(v, "grants", view.grants, ParseOverlayGrant, IsGrant);
  }

  /** A document is taken for an overlay exactly when it has this shape, and reads as this one. */
  lemma OverlayExact(v: Json, view: OverlayView)
    ensures ParseOverlay(v) == Some(view) <==> IsOverlay(v, view)
  {
    if v.Obj? { BodyExact(v, view); }
    hide ParseList, Listed, IsBody, NoRepeats;
  }

  /** No overlay leaves a request alone; one that has no such shape denies all. */
  lemma MalformedDenies(field: Option<Json>)
    ensures field.None? ==> RequestOverlay(field) == OverlayView(false, false, [], [], [])
    ensures field.Some? && !(exists view :: IsOverlay(field.value, view)) ==> RequestOverlay(field) == OverlayView(true, true, [], [], [])
    ensures forall view | field.Some? && IsOverlay(field.value, view) :: RequestOverlay(field) == view
  {
    if field.Some? {
      forall view ensures ParseOverlay(field.value) == Some(view) <==> IsOverlay(field.value, view) { OverlayExact(field.value, view); }
      hide ParseOverlay, IsOverlay;
      if ParseOverlay(field.value).Some? { assert IsOverlay(field.value, ParseOverlay(field.value).value); }
    }
  }

  // What it does

  ghost predicate Active(g: OverlayGrant, req: Request) {
    || (g.scope == "once" && g.remainingUses > 0)
    || (g.scope == "session" && g.sessionId != "" && g.sessionId == req.session)
    || (g.scope == "7d" && g.expiresAt > req.now)
  }

  ghost predicate Granted(gs: seq<OverlayGrant>, req: Request, name: string) {
    exists g :: g in gs && g.identity == req.identity && g.domain == req.domain && g.capability == name && Active(g, req)
  }

  /** A default for this identity and capability with this state; any other name than the two laxer ones denies. */
  ghost predicate Asks(ds: seq<OverlayDefault>, identity: string, name: string, st: CapState) {
    exists d :: d in ds && d.identity == identity && d.capability == name
                && (match st case Allow => d.state == "kAllow" case Ask => d.state == "kAsk" case Deny => d.state != "kAllow" && d.state != "kAsk")
  }

  /** The four permission fields decide the rest. */
  ghost predicate OnlyPermissions(p: EffectivePolicy, q: EffectivePolicy) {
    q == p.(geolocation := q.geolocation, camera := q.camera, microphone := q.microphone, notifications := q.notifications)
  }

  ghost predicate FieldNamed(p: EffectivePolicy, name: string, st: CapState) {
    || (name == "geolocation" && p.geolocation == st) || (name == "camera" && p.camera == st)
    || (name == "microphone" && p.microphone == st) || (name == "notifications" && p.notifications == st)
  }

  lemma AsksIs(ds: seq<OverlayDefault>, identity: string, c: Capability, name: string, st: CapState)
    requires CapabilityNamed(name, c)
    ensures Asks(ds, identity, name, st) <==> exists d :: d in ds && DefaultMatches(d, identity, c) && DefaultState(d) == st
  {
    forall d: OverlayDefault ensures ParseCapability(d.capability) == Some(c) <==> d.capability == name { NamesAre(d.capability); NamedOnce(d.capability, name, c); }
    forall d: OverlayDefault ensures (DefaultState(d) == Allow <==> d.state == "kAllow") && (DefaultState(d) == Ask <==> d.state == "kAsk") { }
    hide ParseCapability, ParseCapState, DefaultState, CapabilityNamed;
  }

  lemma NamedOnce(name: string, name': string, c: Capability)
    requires CapabilityNamed(name', c)
    ensures CapabilityNamed(name, c) <==> name == name'
  {
  }

  lemma GrantedIs(gs: seq<OverlayGrant>, req: Request, c: Capability, name: string)
    requires CapabilityNamed(name, c)
    ensures Granted(gs, req, name) <==> exists g :: g in gs && GrantApplies(g, req) && ParseCapability(g.capability) == Some(c)
  {
    forall g: OverlayGrant ensures ParseCapability(g.capability) == Some(c) <==> g.capability == name { NamesAre(g.capability); NamedOnce(g.capability, name, c); }
    forall g ensures GrantActive(g, req) <==> Active(g, req) { }
    hide ParseCapability, GrantActive, Active, CapabilityNamed;
  }

  lemma FieldIsSlot(p: EffectivePolicy, name: string, c: Capability, st: CapState)
    requires CapabilityNamed(name, c)
    ensures FieldNamed(p, name, st) <==> Slot(p, c) == st
  {
  }

  ghost predicate Denies(view: OverlayView, req: Request) { view.corrupt || exists i :: 0 <= i < |view.denied| && view.denied[i] == req.identity }

  ghost function Overlaid(view: OverlayView, req: Request, name: string, was: CapState): CapState {
    if !view.present then was
    else if Denies(view, req) then Deny
    else if Granted(view.grants, req, name) then Allow
    else if Asks(view.defaults, req.identity, name, Deny) then Deny
    else if Asks(view.defaults, req.identity, name, Ask) then Ask
    else if Asks(view.defaults, req.identity, name, Allow) then Allow
    else was
  }

  lemma LoopsDecide(view: OverlayView, req: Request, p: EffectivePolicy, c: Capability, name: string)
    requires CapabilityNamed(name, c) && view.present && !Denies(view, req)
    ensures Slot(ApplyGrants(view.grants, req, ApplyDefaults(view.defaults, req.identity, p).0), c) == Overlaid(view, req, name, Slot(p, c))
  {
    var q := ApplyDefaults(view.defaults, req.identity, p).0;
    DefaultsMeaning(view.defaults, req.identity, p, c);
    GrantsMeaning(view.grants, req, q, c);
    GrantedIs(view.grants, req, c, name);
    forall st ensures Asks(view.defaults, req.identity, name, st) <==> exists d :: d in view.defaults && DefaultMatches(d, req.identity, c) && DefaultState(d) == st {
      AsksIs(view.defaults, req.identity, c, name, st);
    }
    hide Granted, Asks, GrantApplies, DefaultMatches, DefaultState, ApplyGrants, ApplyDefaults, Slot, DenyAll, ParseCapability, CapabilityNamed, Denies;
    assert Asks(view.defaults, req.identity, name, Deny) || Asks(view.defaults, req.identity, name, Ask) || Asks(view.defaults, req.identity, name, Allow)
           <==> exists d :: d in view.defaults && DefaultMatches(d, req.identity, c);
  }

  lemma AlikeElsewhere(p: EffectivePolicy, q: EffectivePolicy)
    requires DenyAll(q) == DenyAll(p)
    ensures OnlyPermissions(p, q)
  {
  }

  lemma SlotDecides(view: OverlayView, req: Request, p: EffectivePolicy, c: Capability, name: string)
    requires CapabilityNamed(name, c)
    ensures DenyAll(ApplyOverlay(view, req, p)) == DenyAll(p)
    ensures Slot(ApplyOverlay(view, req, p), c) == Overlaid(view, req, name, Slot(p, c))
  {
    SlotLaws(p, c, c, Deny);
    DenyTwice(p);
    hide Slot, DenyAll, Granted, Asks, ApplyGrants, ApplyDefaults, CapabilityNamed;
    DeniesIs(view, req);
    if view.present && !Denies(view, req) {
      LoopsDecide(view, req, p, c, name);
      DefaultsMeaning(view.defaults, req.identity, p, c);
      GrantsMeaning(view.grants, req, ApplyDefaults(view.defaults, req.identity, p).0, c);
    }
  }

  lemma DenyTwice(p: EffectivePolicy)
    ensures DenyAll(DenyAll(p)) == DenyAll(p) && forall c :: Slot(DenyAll(p), c) == Deny
  {
  }

  lemma DeniesIs(view: OverlayView, req: Request)
    ensures Denies(view, req) <==> view.corrupt || req.identity in view.denied
  {
  }

  /** Every capability of a policy after the overlay, whatever the overlay; no other field moves. */
  lemma OverlayDecides(view: OverlayView, req: Request, p: EffectivePolicy, name: string, was: CapState)
    requires FieldNamed(p, name, was)
    ensures OnlyPermissions(p, ApplyOverlay(view, req, p))
    ensures FieldNamed(ApplyOverlay(view, req, p), name, Overlaid(view, req, name, was))
  {
    hide *;
    NameIsCapability(p, name, was);
    var c :| CapabilityNamed(name, c);
    FieldIsSlot(p, name, c, was);
    FieldIsSlot(ApplyOverlay(view, req, p), name, c, Overlaid(view, req, name, was));
    SlotDecides(view, req, p, c, name);
    AlikeElsewhere(p, ApplyOverlay(view, req, p));
  }

  lemma NameIsCapability(p: EffectivePolicy, name: string, was: CapState)
    requires FieldNamed(p, name, was)
    ensures exists c :: CapabilityNamed(name, c)
  {
    if name == "geolocation" { assert CapabilityNamed(name, Geolocation); }
    else if name == "camera" { assert CapabilityNamed(name, Camera); }
    else if name == "microphone" { assert CapabilityNamed(name, Microphone); }
    else { assert CapabilityNamed(name, Notifications); }
  }
}
