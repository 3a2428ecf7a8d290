/**
  Both sides of the seam as loops: the store module's projection, and the resolver's strict parser and its
  application of the overlay to the four permission fields.
 */
module OverlayEngine {
  import opened Wrappers
  import opened Order
  import opened JsonValue
  import opened JsonPrinter
  import opened PermissionTypes
  import opened PermissionStore
  import opened PermissionOverlay
  import opened PermissionProjection
  import opened PolicyTypes

  // Projecting

  lemma {:induction false} JsonListAppend<T>(a: seq<T>, b: seq<T>, f: T -> Json)
    ensures JsonList(a + b, f) == JsonList(a, f) + JsonList(b, f)
  {
    if a == [] {
      assert a + b == b;
    } else {
      assert (a + b)[1..] == a[1..] + b;
      JsonListAppend(a[1..], b, f);
    }
  }

  lemma JsonListOne<T>(x: T, f: T -> Json)
    ensures JsonList([x], f) == [f(x)]
  {
  }

  method ProjectDefaults(identity: string, d: map<Capability, CapState>) returns (a: seq<Json>)
    ensures a == JsonList(DefaultsFor(identity, d), DefaultJson)
  {
    hide *;
    a := [];
    var order := [Geolocation, Camera, Microphone, Notifications];
    DefaultsAhead(identity, d);
    for i := 0 to 4
      invariant a + JsonList(DefaultsFrom(identity, d, i), DefaultJson) == JsonList(DefaultsFor(identity, d), DefaultJson)
    {
      var c := order[i];
      DefaultsTurn(identity, d, c, i);
      ghost var rest := JsonList(DefaultsFrom(identity, d, i + 1), DefaultJson);
      if c in d {
        var x := DefaultJson(OverlayDefault(identity, CapabilityName(c), CapStateName(d[c])));
        Reassociate(a, [x], rest);
        a := a + [x];
      }
    }
    DefaultsAhead(identity, d);
    assert a + [] == a;
  }

  /** The defaults still to be projected after the first `i` capabilities. */
  ghost function DefaultsFrom(identity: string, d: map<Capability, CapState>, i: nat): seq<OverlayDefault> {
    (if i < 1 then DefaultFor(identity, d, Geolocation) else [])
    + ((if i < 2 then DefaultFor(identity, d, Camera) else [])
       + ((if i < 3 then DefaultFor(identity, d, Microphone) else []) + (if i < 4 then DefaultFor(identity, d, Notifications) else [])))
  }

  lemma DefaultsAhead(identity: string, d: map<Capability, CapState>)
    ensures [] + JsonList(DefaultsFrom(identity, d, 0), DefaultJson) == JsonList(DefaultsFor(identity, d), DefaultJson)
    ensures JsonList(DefaultsFrom(identity, d, 4), DefaultJson) == []
  {
    hide DefaultFor, DefaultJson;
    assert DefaultsFrom(identity, d, 0) == DefaultsFor(identity, d);
    assert DefaultsFrom(identity, d, 4) == [];
  }

  lemma DefaultsTurn(identity: string, d: map<Capability, CapState>, c: Capability, i: nat)
    requires i < 4 && c == [Geolocation, Camera, Microphone, Notifications][i]
    ensures JsonList(DefaultsFrom(identity, d, i), DefaultJson)
            == (if c in d then [DefaultJson(OverlayDefault(identity, CapabilityName(c), CapStateName(d[c])))] else [])
               + JsonList(DefaultsFrom(identity, d, i + 1), DefaultJson)
  {
    hide DefaultJson, CapabilityName, CapStateName, JsonList;
    JsonListAppend(DefaultFor(identity, d, c), DefaultsFrom(identity, d, i + 1), DefaultJson);
    JsonListNone(DefaultJson);
    if c in d { JsonListOne(OverlayDefault(identity, CapabilityName(c), CapStateName(d[c])), DefaultJson); }
    assert DefaultsFrom(identity, d, i) == DefaultFor(identity, d, c) + DefaultsFrom(identity, d, i + 1);
  }

  /** The document of one grant: only the field its scope admits. */
  method ProjectOne(g: StoredGrant) returns (v: Json)
    ensures v == OverlayGrantJson(ProjectGrant(g))
  {
    hide CapabilityName;
    var o := map["identity" := Str(g.identity), "domain" := Str(g.domain), "capability" := Str(CapabilityName(g.capability)), "scope" := Str(ScopeName(g.scope))];
    if g.scope == Once { o := o["remaining_uses" := Int(g.remainingUses)]; }
    else if g.scope == Session { o := o["session_id" := Str(g.sessionId)]; }
    else { o := o["expires_at" := Int(g.expiresAt)]; }
    v := Obj(o);
  }

  method ProjectGrants(gs: seq<StoredGrant>) returns (a: seq<Json>)
    ensures a == JsonList(GrantsFor(gs), OverlayGrantJson)
  {
    hide OverlayGrantJson, JsonList, ProjectGrant;
    a := [];
    ghost var done: seq<OverlayGrant> := [];
    JsonListNone<OverlayGrant>(OverlayGrantJson);
    assert gs[0..] == gs;
    for i := 0 to |gs|
      invariant done + GrantsFor(gs[i..]) == GrantsFor(gs) && a == JsonList(done, OverlayGrantJson)
    {
      var g := gs[i];
      assert gs[i..][1..] == gs[i + 1..];
      if g.revoked { continue; }
      if g.scope == Once && g.remainingUses <= 0 { continue; }
      var v := ProjectOne(g);
      JsonListAppend(done, [ProjectGrant(g)], OverlayGrantJson);
      JsonListOne(ProjectGrant(g), OverlayGrantJson);
      a := a + [v];
      done := done + [ProjectGrant(g)];
    }
    assert done == GrantsFor(gs);
  }

  lemma JsonListNone<T>(f: T -> Json)
    ensures JsonList([], f) == []
  {
  }

  function ViewDocument(denied: seq<Json>, defaults: seq<Json>, grants: seq<Json>): Json {
    Obj(map["contract_version" := Int(1), "denied_identities" := Arr(denied), "defaults" := Arr(defaults), "grants" := Arr(grants)])
  }

  function CorruptDocument(): Json { Obj(map["contract_version" := Int(1), "corrupt" := Bool(true)]) }

  /** What has been projected, and what is left to project. */
  ghost predicate ProjectedSoFar(ids: map<string, IdentityRecord>, ks: seq<string>, rest: seq<string>, denied: seq<Json>, defaults: seq<Json>, grants: seq<Json>)
    requires (forall k | k in ks :: k in ids) && forall k | k in rest :: k in ids
  {
    && denied + JsonList(DeniedOf(rest, ids), DeniedJson) == JsonList(DeniedOf(ks, ids), DeniedJson)
    && defaults + JsonList(DefaultsOf(rest, ids), DefaultJson) == JsonList(DefaultsOf(ks, ids), DefaultJson)
    && grants + JsonList(GrantsOf(rest, ids), OverlayGrantJson) == JsonList(GrantsOf(ks, ids), OverlayGrantJson)
  }

  lemma ProjectedTurn(ids: map<string, IdentityRecord>, ks: seq<string>, rest: seq<string>, denied: seq<Json>, defaults: seq<Json>, grants: seq<Json>)
    requires (forall k | k in ks :: k in ids) && (forall k | k in rest :: k in ids) && rest != []
    requires ProjectedSoFar(ids, ks, rest, denied, defaults, grants)
    ensures var r := ids[rest[0]];
            ProjectedSoFar(ids, ks, rest[1..], if r.denied then denied + [Str(rest[0])] else denied,
                           defaults + JsonList(DefaultsFor(rest[0], r.defaults), DefaultJson), grants + JsonList(GrantsFor(r.grants), OverlayGrantJson))
  {
    var k, r, tail := rest[0], ids[rest[0]], rest[1..];
    var now := if r.denied then [k] else [];
    hide DefaultJson, OverlayGrantJson, GrantsFor, DefaultsFor, JsonList;
    JsonListAppend(now, DeniedOf(tail, ids), DeniedJson);
    JsonListAppend(DefaultsFor(k, r.defaults), DefaultsOf(tail, ids), DefaultJson);
    JsonListAppend(GrantsFor(r.grants), GrantsOf(tail, ids), OverlayGrantJson);
    JsonListOne(k, DeniedJson);
    JsonListNone(DeniedJson);
    Reassociate(denied, JsonList(now, DeniedJson), JsonList(DeniedOf(tail, ids), DeniedJson));
    Reassociate(defaults, JsonList(DefaultsFor(k, r.defaults), DefaultJson), JsonList(DefaultsOf(tail, ids), DefaultJson));
    Reassociate(grants, JsonList(GrantsFor(r.grants), OverlayGrantJson), JsonList(GrantsOf(tail, ids), OverlayGrantJson));
    assert denied + [] == denied;
  }

  lemma Reassociate(a: seq<Json>, b: seq<Json>, c: seq<Json>)
    ensures a + (b + c) == (a + b) + c
  {
  }

  lemma ProjectedStart(ids: map<string, IdentityRecord>, ks: seq<string>)
    requires forall k | k in ks :: k in ids
    ensures ProjectedSoFar(ids, ks, ks, [], [], [])
  {
  }

  lemma ProjectedEnd(s: Store, ks: seq<string>, denied: seq<Json>, defaults: seq<Json>, grants: seq<Json>)
    requires !s.corrupt && ks == SortedKeys(s.identities.Keys) && ProjectedSoFar(s.identities, ks, [], denied, defaults, grants)
    ensures ViewDocument(denied, defaults, grants) == ViewJson(ProjectView(s))
  {
    var ids := s.identities;
    JsonListNone(DeniedJson);
    JsonListNone(DefaultJson);
    JsonListNone(OverlayGrantJson);
    Nothing(ids);
    hide DeniedOf, DefaultsOf, GrantsOf, JsonList, DefaultJson, OverlayGrantJson, SortedKeys;
    assert denied + [] == denied && defaults + [] == defaults && grants + [] == grants;
  }

  lemma Nothing(ids: map<string, IdentityRecord>)
    ensures DeniedOf([], ids) == [] && DefaultsOf([], ids) == [] && GrantsOf([], ids) == []
  {
  }

  method ProjectViewJson(s: Store) returns (text: string)
    ensures text == ProjectText(s)
  {
    hide *;
    if s.corrupt {
      CorruptProjection(s);
      text := Printer.Canonical(CorruptDocument());
      return;
    }
    var ids := s.identities;
    var keys := KeysInOrder(ids.Keys);
    var denied, defaults, grants := [], [], [];
    assert keys[0..] == keys;
    ProjectedStart(ids, keys);
    for n := 0 to |keys|
      invariant forall k | k in keys[n..] :: k in ids
      invariant ProjectedSoFar(ids, keys, keys[n..], denied, defaults, grants)
    {
      var identity, r := keys[n], ids[keys[n]];
      assert keys[n..][0] == identity && keys[n..][1..] == keys[n + 1..];
      ProjectedTurn(ids, keys, keys[n..], denied, defaults, grants);
      if r.denied { denied := denied + [Str(identity)]; }
      var ds := ProjectDefaults(identity, r.defaults);
      defaults := defaults + ds;
      var gs := ProjectGrants(r.grants);
      grants := grants + gs;
    }
    assert keys[|keys|..] == [];
    ProjectedEnd(s, keys, denied, defaults, grants);
    ProjectionText(s);
    text := Printer.Canonical(ViewDocument(denied, defaults, grants));
  }

  lemma ProjectionText(s: Store)
    ensures ProjectText(s) == Print(ViewJson(ProjectView(s)))
  {
  }

  lemma CorruptProjection(s: Store)
    requires s.corrupt
    ensures ProjectText(s) == Print(CorruptDocument())
  {
    hide Print;
  }

  // Parsing

  /** The three list loops: every entry must parse, and the first that does not ends the parse. */
  method ParseEach<T>(a: seq<Json>, item: Json -> Option<T>) returns (r: Option<seq<T>>)
    ensures r == ParseAll(a, item)
  {
    var out: seq<T> := [];
    assert a[0..] == a && (ParseAll(a, item).Some? ==> out + ParseAll(a, item).value == ParseAll(a, item).value);
    for i := 0 to |a|
      invariant ParseAll(a, item) == match ParseAll(a[i..], item) case None => None case Some(xs) => Some(out + xs)
    {
      assert a[i..][1..] == a[i + 1..] && a[i..][0] == a[i];
      var x := item(a[i]);
      if x.None? { return None; }
      ghost var before := out;
      out := out + [x.value];
      assert ParseAll(a[i + 1..], item).Some? ==> before + ([x.value] + ParseAll(a[i + 1..], item).value) == out + ParseAll(a[i + 1..], item).value;
    }
    assert out + [] == out;
    return Some(out);
  }

  method SeenBefore(ds: seq<OverlayDefault>, d: OverlayDefault) returns (seen: bool)
    ensures seen <==> exists i :: 0 <= i < |ds| && ds[i].identity == d.identity && ds[i].capability == d.capability
  {
    for i := 0 to |ds|
      invariant forall j | 0 <= j < i :: !(ds[j].identity == d.identity && ds[j].capability == d.capability)
    {
      if ds[i].identity == d.identity && ds[i].capability == d.capability { return true; }
    }
    return false;
  }

  lemma {:induction false} ParsedAt<T>(a: seq<Json>, item: Json -> Option<T>, i: nat)
    requires ParseAll(a, item).Some? && i < |a|
    ensures item(a[i]) == Some(ParseAll(a, item).value[i])
  {
    if i > 0 { ParsedAt(a[1..], item, i - 1); }
  }

  lemma RepeatFound(a: seq<Json>, i: nat, j: nat)
    requires j < i < |a| && ParseDefault(a[i]).Some? && ParseDefault(a[j]).Some?
    requires ParseDefault(a[i]).value.identity == ParseDefault(a[j]).value.identity
    requires ParseDefault(a[i]).value.capability == ParseDefault(a[j]).value.capability
    ensures ParseAll(a, ParseDefault).Some? ==> !NoRepeats(ParseAll(a, ParseDefault).value)
  {
    hide ParseDefault, ParseAll;
    if ParseAll(a, ParseDefault).Some? {
      ParsedAt(a, ParseDefault, i);
      ParsedAt(a, ParseDefault, j);
    }
  }

  /** Defaults: a duplicate is refused as soon as it is met. */
  method ParseDefaultsList(a: seq<Json>) returns (r: Option<seq<OverlayDefault>>)
    ensures r == match ParseAll(a, ParseDefault) case None => None case Some(ds) => if NoRepeats(ds) then Some(ds) else None
  {
    hide ParseDefault, ParseAll;
    var out: seq<OverlayDefault> := [];
    for i := 0 to |a|
      invariant |out| == i && forall j | 0 <= j < i :: ParseDefault(a[j]) == Some(out[j])
      invariant NoRepeats(out)
    {
      var d := ParseDefault(a[i]);
      if d.None? {
        if ParseAll(a, ParseDefault).Some? { ParsedAt(a, ParseDefault, i); }
        return None;
      }
      var seen := SeenBefore(out, d.value);
      if seen {
        ghost var j :| 0 <= j < i && out[j].identity == d.value.identity && out[j].capability == d.value.capability;
        RepeatFound(a, i, j);
        return None;
      }
      out := out + [d.value];
    }
    AllParsed(a, ParseDefault, out);
    return Some(out);
  }

  lemma {:induction false} AllParsed<T>(a: seq<Json>, item: Json -> Option<T>, out: seq<T>)
    requires |out| == |a| && forall j | 0 <= j < |a| :: item(a[j]) == Some(out[j])
    ensures ParseAll(a, item) == Some(out)
  {
    if a != [] {
      AllParsed(a[1..], item, out[1..]);
      assert [out[0]] + out[1..] == out;
    }
  }

  method ParsePermissionOverlay(v: Json) returns (r: Option<OverlayView>)
    ensures r == ParseOverlay(v)
  {
    hide ParseDefault, ParseOverlayGrant, ParseDenied, ParseAll, NoRepeats;
    if !v.Obj? { return None; }
    var o := v.fields;
    if !OnlyKeys(o, {"contract_version", "corrupt", "denied_identities", "defaults", "grants"}) { return None; }
    if "contract_version" in o && o["contract_version"] != Int(1) { return None; }
    if "corrupt" in o {
      if !o["corrupt"].Bool? { return None; }
      if o["corrupt"].b { return Some(CORRUPT); }
    }
    var view := OverlayView(true, false, [], [], []);
    if "denied_identities" in o {
      if !o["denied_identities"].Arr? { return None; }
      var xs := ParseEach(o["denied_identities"].items, ParseDenied);
      if xs.None? { return None; }
      view := view.(denied := xs.value);
    }
    NoRepeatsNone();
    if "defaults" in o {
      if !o["defaults"].Arr? { return None; }
      var xs := ParseDefaultsList(o["defaults"].items);
      if xs.None? { return None; }
      view := view.(defaults := xs.value);
    }
    if "grants" in o {
      if !o["grants"].Arr? { return None; }
      var xs := ParseEach(o["grants"].items, ParseOverlayGrant);
      if xs.None? { return None; }
      view := view.(grants := xs.value);
    }
    return Some(view);
  }

  lemma NoRepeatsNone()
    ensures NoRepeats([])
  {
  }

  // Applying

  method ApplyPermissionOverlay(view: OverlayView, req: Request, p: EffectivePolicy) returns (q: EffectivePolicy)
    ensures q == ApplyOverlay(view, req, p)
  {
    hide ParseCapability, ParseCapState, GrantActive, DenyAll, Slot, SetSlot, Rank;
    q := p;
    if !view.present { return; }
    if view.corrupt { return DenyAll(q); }
    for i := 0 to |view.denied|
      invariant forall j | 0 <= j < i :: view.denied[j] != req.identity
    {
      if view.denied[i] == req.identity { return DenyAll(q); }
    }
    q := ApplyDefaultsLoop(view.defaults, req.identity, q);
    q := ApplyGrantsLoop(view.grants, req, q);
  }

  method ApplyDefaultsLoop(ds: seq<OverlayDefault>, identity: string, p: EffectivePolicy) returns (q: EffectivePolicy)
    ensures q == ApplyDefaults(ds, identity, p).0
  {
    hide ParseCapability, ParseCapState, Slot, SetSlot, Rank;
    q := p;
    var seen: set<Capability> := {};
    for i := 0 to |ds|
      invariant (q, seen) == ApplyDefaults(ds[..i], identity, p)
    {
      var d := ds[i];
      assert ds[..i + 1][..i] == ds[..i];
      if d.identity != identity { continue; }
      var c := ParseCapability(d.capability);
      if c.None? { continue; }
      var st := Deny;
      var named := ParseCapState(d.state);
      if named.Some? { st := named.value; }
      if c.value in seen {
        if Rank(st) < Rank(Slot(q, c.value)) { q := SetSlot(q, c.value, st); }
      } else {
        q := SetSlot(q, c.value, st);
        seen := seen + {c.value};
      }
    }
    assert ds[..|ds|] == ds;
  }

  method ApplyGrantsLoop(gs: seq<OverlayGrant>, req: Request, p: EffectivePolicy) returns (q: EffectivePolicy)
    ensures q == ApplyGrants(gs, req, p)
  {
    hide ParseCapability, GrantActive, SetSlot;
    q := p;
    for i := 0 to |gs|
      invariant q == ApplyGrants(gs[..i], req, p)
    {
      var g := gs[i];
      assert gs[..i + 1][..i] == gs[..i];
      if g.identity != req.identity || g.domain != req.domain { continue; }
      if !GrantActive(g, req) { continue; }
      var c := ParseCapability(g.capability);
      if c.Some? { q := SetSlot(q, c.value, Allow); }
    }
    assert gs[..|gs|] == gs;
  }
}
