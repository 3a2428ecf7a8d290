/** What a store projects, entry by entry. */
module ProjectionMeaning {
  import opened Wrappers
  import opened Order
  import opened JsonText
  import opened Selection
  import opened PermissionTypes
  import opened PermissionMeaning
  import opened PermissionOverlay
  import opened PermissionProjection

  ghost function Joined<T>(parts: seq<seq<T>>): seq<T> { if parts == [] then [] else parts[0] + Joined(parts[1..]) }

  // Grants

  /** A grant is shown unless it is a tombstone or a once grant without a use left. */
  ghost predicate Shown(g: StoredGrant) { !g.revoked && (g.scope == Once ==> g.remainingUses >= 1) }

  ghost function CapabilityWord(c: Capability): string {
    match c case Geolocation => "geolocation" case Camera => "camera" case Microphone => "microphone" case Notifications => "notifications"
  }

  ghost function StateWord(st: CapState): string { match st case Deny => "kDeny" case Ask => "kAsk" case Allow => "kAllow" }

  /** It is shown with the one field of its scope. */
  ghost function ShownAs(g: StoredGrant): OverlayGrant {
    match g.scope
    case Once => OverlayGrant(g.identity, g.domain, CapabilityWord(g.capability), "once", 0, "", g.remainingUses)
    case Session => OverlayGrant(g.identity, g.domain, CapabilityWord(g.capability), "session", 0, g.sessionId, 0)
    case SevenDays => OverlayGrant(g.identity, g.domain, CapabilityWord(g.capability), "7d", g.expiresAt, "", 0)
  }

  lemma ShownIs(g: StoredGrant)
    ensures (Projectable(g) <==> Shown(g)) && ProjectGrant(g) == ShownAs(g)
  {
  }

  lemma {:induction false} GrantsForSnoc(gs: seq<StoredGrant>)
    requires gs != []
    ensures var last := gs[|gs| - 1]; GrantsFor(gs) == GrantsFor(gs[..|gs| - 1]) + if Shown(last) then [ShownAs(last)] else []
  {
    ShownIs(gs[0]);
    hide Projectable, ProjectGrant, Shown, ShownAs;
    if |gs| > 1 {
      GrantsForSnoc(gs[1..]);
      assert gs[1..][..|gs| - 2] == gs[..|gs| - 1][1..] && gs[1..][|gs| - 2] == gs[|gs| - 1];
    } else {
      assert gs[1..] == [] && gs[..0] == [];
    }
  }

  lemma {:induction false} GrantsForMaps(gs: seq<StoredGrant>)
    ensures Maps(gs, Shown, ShownAs, GrantsFor(gs))
  {
    hide Maps;
    if gs == [] {
      MapsNothing(Shown, ShownAs);
    } else {
      GrantsForMaps(gs[..|gs| - 1]);
      GrantsForSnoc(gs);
      MapsSnoc(gs, Shown, ShownAs, GrantsFor(gs[..|gs| - 1]));
    }
  }

  lemma {:induction false} GrantsJoined(ks: seq<string>, ids: map<string, IdentityRecord>) returns (parts: seq<seq<OverlayGrant>>)
    requires forall k | k in ks :: k in ids
    ensures |parts| == |ks| && GrantsOf(ks, ids) == Joined(parts)
    ensures forall n | 0 <= n < |ks| :: Maps(ids[ks[n]].grants, Shown, ShownAs, parts[n])
  {
    hide Maps, GrantsFor;
    if ks == [] {
      parts := [];
    } else {
      var rest := GrantsJoined(ks[1..], ids);
      GrantsForMaps(ids[ks[0]].grants);
      parts := [GrantsFor(ids[ks[0]].grants)] + rest;
      assert parts[1..] == rest;
    }
  }

  // Defaults

  ghost function IsSet(d: map<Capability, CapState>): Capability -> bool { c => c in d }

  ghost function DefaultAs(key: string, d: map<Capability, CapState>): Capability -> OverlayDefault {
    c => OverlayDefault(key, CapabilityWord(c), if c in d then StateWord(d[c]) else "")
  }

  lemma DefaultForIs(key: string, d: map<Capability, CapState>, c: Capability)
    ensures DefaultFor(key, d, c) == if IsSet(d)(c) then [DefaultAs(key, d)(c)] else []
  {
  }

  /** One default for each capability that has one, in the order geolocation, camera, microphone, notifications. */
  ghost predicate DefaultPart(key: string, d: map<Capability, CapState>, part: seq<OverlayDefault>) {
    Maps([Geolocation, Camera, Microphone, Notifications], IsSet(d), DefaultAs(key, d), part)
  }

  lemma DefaultPartIs(key: string, d: map<Capability, CapState>)
    ensures DefaultPart(key, d, DefaultsFor(key, d))
  {
    hide Maps, DefaultFor, IsSet, DefaultAs;
    MapsNothing(IsSet(d), DefaultAs(key, d));
    var a, b, c := DefaultFor(key, d, Geolocation), DefaultFor(key, d, Camera), DefaultFor(key, d, Microphone);
    OneMoreDefault(key, d, [], [], Geolocation);
    assert [] + [Geolocation] == [Geolocation] && [] + a == a;
    OneMoreDefault(key, d, [Geolocation], a, Camera);
    assert [Geolocation] + [Camera] == [Geolocation, Camera];
    OneMoreDefault(key, d, [Geolocation, Camera], a + b, Microphone);
    assert [Geolocation, Camera] + [Microphone] == [Geolocation, Camera, Microphone];
    OneMoreDefault(key, d, [Geolocation, Camera, Microphone], a + b + c, Notifications);
    assert [Geolocation, Camera, Microphone] + [Notifications] == [Geolocation, Camera, Microphone, Notifications];
  }

  lemma OneMoreDefault(key: string, d: map<Capability, CapState>, front: seq<Capability>, us: seq<OverlayDefault>, c: Capability)
    requires Maps(front, IsSet(d), DefaultAs(key, d), us)
    ensures Maps(front + [c], IsSet(d), DefaultAs(key, d), us + DefaultFor(key, d, c))
  {
    DefaultForIs(key, d, c);
    hide Maps, DefaultFor, IsSet, DefaultAs;
    assert (front + [c])[..|front|] == front;
    MapsSnoc(front + [c], IsSet(d), DefaultAs(key, d), us);
  }

  lemma {:induction false} DefaultsJoined(ks: seq<string>, ids: map<string, IdentityRecord>) returns (parts: seq<seq<OverlayDefault>>)
    requires forall k | k in ks :: k in ids
    ensures |parts| == |ks| && DefaultsOf(ks, ids) == Joined(parts)
    ensures forall n | 0 <= n < |ks| :: DefaultPart(ks[n], ids[ks[n]].defaults, parts[n])
  {
    hide DefaultPart, DefaultsFor;
    if ks == [] {
      parts := [];
    } else {
      var rest := DefaultsJoined(ks[1..], ids);
      DefaultPartIs(ks[0], ids[ks[0]].defaults);
      parts := [DefaultsFor(ks[0], ids[ks[0]].defaults)] + rest;
      assert parts[1..] == rest;
    }
  }

  // The deny list

  lemma {:induction false} DeniedOfSnoc(ks: seq<string>, ids: map<string, IdentityRecord>)
    requires ks != [] && forall k | k in ks :: k in ids
    ensures var last := ks[|ks| - 1]; DeniedOf(ks, ids) == DeniedOf(ks[..|ks| - 1], ids) + if ids[last].denied then [last] else []
  {
    if |ks| > 1 {
      DeniedOfSnoc(ks[1..], ids);
      assert ks[1..][..|ks| - 2] == ks[..|ks| - 1][1..] && ks[1..][|ks| - 2] == ks[|ks| - 1];
    } else {
      assert ks[1..] == [] && ks[..0] == [];
    }
  }

  ghost function OnDenyList(ids: map<string, IdentityRecord>): string -> bool { k => k in ids && ids[k].denied }

  lemma {:induction false} DeniedMaps(ks: seq<string>, ids: map<string, IdentityRecord>)
    requires forall k | k in ks :: k in ids
    ensures Maps(ks, OnDenyList(ids), (k: string) => k, DeniedOf(ks, ids))
  {
    hide Maps;
    if ks == [] {
      MapsNothing(OnDenyList(ids), (k: string) => k);
    } else {
      DeniedMaps(ks[..|ks| - 1], ids);
      DeniedOfSnoc(ks, ids);
      MapsSnoc(ks, OnDenyList(ids), (k: string) => k, DeniedOf(ks[..|ks| - 1], ids));
    }
  }

  /** What is projected, identity after identity in byte order: the deny list, the defaults that are set, and the grants that are shown. */
  lemma ProjectedIs(s: Store) returns (ks: seq<string>, defaults: seq<seq<OverlayDefault>>, grants: seq<seq<OverlayGrant>>)
    ensures s.corrupt ==> ProjectView(s) == OverlayView(true, true, [], [], [])
    ensures InByteOrder(ks) && (forall k :: k in ks <==> k in s.identities) && |defaults| == |ks| && |grants| == |ks|
    ensures !s.corrupt ==> ProjectView(s) == OverlayView(true, false, ProjectView(s).denied, Joined(defaults), Joined(grants))
    ensures !s.corrupt ==> Picks(ks, OnDenyList(s.identities), ProjectView(s).denied)
    ensures forall n | 0 <= n < |ks| :: DefaultPart(ks[n], s.identities[ks[n]].defaults, defaults[n])
    ensures forall n | 0 <= n < |ks| :: Maps(s.identities[ks[n]].grants, Shown, ShownAs, grants[n])
  {
    ks := SortedKeys(s.identities.Keys);
    AscendingIsByteOrder(ks);
    hide Maps, Picks, SortedKeys, InByteOrder, DefaultPart, DeniedOf, DefaultsOf, GrantsOf, OnDenyList;
    DeniedMaps(ks, s.identities);
    MapsIsPicks(ks, OnDenyList(s.identities), (k: string) => k, DeniedOf(ks, s.identities));
    defaults := DefaultsJoined(ks, s.identities);
    grants := GrantsJoined(ks, s.identities);
  }
}
