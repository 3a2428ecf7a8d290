/**
  The overlay store as a document: strict loading, canonical saving.

  A document is accepted only when it parses, is its own canonical text, and has exactly the schema.
 */
module PermissionStore {
  import opened Wrappers
  import opened Order
  import opened Utf8
  import opened JsonValue
  import opened JsonParse
  import opened JsonRoundTrip
  import opened PermissionTypes

  const STORE_KEYS := {"contract", "contract_version", "identities", "next_seq"}
  const RECORD_KEYS := {"denied", "defaults", "extras", "grants"}
  const GRANT_KEYS := {"id", "identity", "domain", "capability", "scope", "created_at", "expires_at", "session_id",
                       "remaining_uses", "revoked", "revoked_at"}

  predicate KeysExactly(v: Json, keys: set<string>) { v.Obj? && v.fields.Keys == keys }

  function GetStr(v: Json, k: string): Option<string> {
    if v.Obj? && k in v.fields && v.fields[k].Str? then Some(v.fields[k].s) else None
  }

  function GetInt(v: Json, k: string): Option<int64> {
    if v.Obj? && k in v.fields && v.fields[k].Int? then Some(v.fields[k].i) else None
  }

  function GetBool(v: Json, k: string): Option<bool> {
    if v.Obj? && k in v.fields && v.fields[k].Bool? then Some(v.fields[k].b) else None
  }

  // Saving

  function GrantJson(g: StoredGrant): Json {
    Obj(map["id" := Str(g.id), "identity" := Str(g.identity), "domain" := Str(g.domain),
            "capability" := Str(CapabilityName(g.capability)), "scope" := Str(ScopeName(g.scope)),
            "created_at" := Int(g.createdAt), "expires_at" := Int(g.expiresAt), "session_id" := Str(g.sessionId),
            "remaining_uses" := Int(g.remainingUses), "revoked" := Bool(g.revoked), "revoked_at" := Int(g.revokedAt)])
  }

  function DefaultsJson(d: map<Capability, CapState>): Json {
    Obj(map k | k in {"geolocation", "camera", "microphone", "notifications"} && ParseCapability(k).value in d ::
          Str(CapStateName(d[ParseCapability(k).value])))
  }

  function ExtrasJson(x: map<string, CapState>): Json {
    Obj(map k | k in x :: Str(CapStateName(x[k])))
  }

  function GrantsJson(gs: seq<StoredGrant>): (a: seq<Json>)
    ensures |a| == |gs| && forall i | 0 <= i < |gs| :: a[i] == GrantJson(gs[i])
  {
    if gs == [] then [] else [GrantJson(gs[0])] + GrantsJson(gs[1..])
  }

  function RecordJson(r: IdentityRecord): Json {
    Obj(map["denied" := Bool(r.denied), "defaults" := DefaultsJson(r.defaults), "extras" := ExtrasJson(r.extras),
            "grants" := Arr(GrantsJson(r.grants))])
  }

  /** static_cast<int64_t> of an unsigned 64-bit value. */
  function Cast(n: nat): int64 {
    var m := n % 0x1_0000_0000_0000_0000;
    if m <= INT64_MAX then m else m - 0x1_0000_0000_0000_0000
  }

  function IdentitiesJson(ids: map<string, IdentityRecord>): Json {
    Obj(map k | k in ids :: RecordJson(ids[k]))
  }

  function StoreJson(s: Store): Json {
    Obj(map["contract" := Str("permission-store"), "contract_version" := Int(1), "next_seq" := Int(Cast(s.nextSeq)),
            "identities" := IdentitiesJson(s.identities)])
  }

  /** A corrupt store is written as a marker that never loads. */
  const CORRUPT_MARKER := Obj(map["contract" := Str("permission-store"), "corrupt" := Bool(true)])

  ghost function SerializeStore(s: Store): string {
    Print(if s.corrupt then CORRUPT_MARKER else StoreJson(s))
  }

  // Loading

  function ParseGrant(v: Json, key: string): Option<StoredGrant> {
    if !KeysExactly(v, GRANT_KEYS) then None else
    match (GetStr(v, "id"), GetStr(v, "identity"), GetStr(v, "domain"), GetStr(v, "capability"), GetStr(v, "scope"), GetStr(v, "session_id"))
    case (Some(id), Some(identity), Some(domain), Some(cap), Some(scope), Some(session)) =>
      (match (GetInt(v, "created_at"), GetInt(v, "expires_at"), GetInt(v, "remaining_uses"), GetInt(v, "revoked_at"), GetBool(v, "revoked"))
       case (Some(created), Some(expires), Some(uses), Some(revokedAt), Some(revoked)) =>
         (match (ParseCapability(cap), ParseScope(scope))
          case (Some(c), Some(sc)) =>
            var g := StoredGrant(id, identity, domain, c, sc, created, expires, session, uses, revoked, revokedAt);
            if GrantOk(g, key) then Some(g) else None
          case _ => None)
       case _ => None)
    case _ => None
  }

  ghost predicate DefaultsParse(o: map<string, Json>) {
    forall k | k in o :: ParseCapability(k).Some? && o[k].Str? && ParseCapState(o[k].s).Some?
  }

  ghost function ParsedDefaults(o: map<string, Json>): map<Capability, CapState>
    requires DefaultsParse(o)
  {
    map c | c in CAPABILITIES && CapabilityName(c) in o :: ParseCapState(o[CapabilityName(c)].s).value
  }

  ghost predicate ExtrasParse(o: map<string, Json>) {
    forall k | k in o :: IsExtraCapability(k) && o[k].Str? && ParseExtraState(o[k].s).Some?
  }

  ghost function ParsedExtras(o: map<string, Json>): map<string, CapState>
    requires ExtrasParse(o)
  {
    map k | k in o :: ParseExtraState(o[k].s).value
  }

  ghost predicate GrantsParse(a: seq<Json>, key: string) {
    forall i | 0 <= i < |a| :: ParseGrant(a[i], key).Some?
  }

  ghost function ParsedGrants(a: seq<Json>, key: string): (gs: seq<StoredGrant>)
    requires GrantsParse(a, key)
    ensures |gs| == |a| && forall i | 0 <= i < |a| :: gs[i] == ParseGrant(a[i], key).value
  {
    seq(|a|, i requires 0 <= i < |a| => ParseGrant(a[i], key).value)
  }

  ghost function ParseRecord(v: Json, key: string): Option<IdentityRecord> {
    if !KeysExactly(v, RECORD_KEYS) then None else
    var denied, defaults, extras, grants := v.fields["denied"], v.fields["defaults"], v.fields["extras"], v.fields["grants"];
    if denied.Bool? && defaults.Obj? && extras.Obj? && grants.Arr?
       && DefaultsParse(defaults.fields) && ExtrasParse(extras.fields) && GrantsParse(grants.items, key)
    then Some(IdentityRecord(ParsedDefaults(defaults.fields), ParsedExtras(extras.fields), denied.b, ParsedGrants(grants.items, key)))
    else None
  }

  ghost predicate RecordsParse(o: map<string, Json>) {
    forall k | k in o :: k != "" && ParseRecord(o[k], k).Some?
  }

  ghost function ParsedRecords(o: map<string, Json>): map<string, IdentityRecord>
    requires RecordsParse(o)
  {
    map k | k in o :: ParseRecord(o[k], k).value
  }

  ghost function ParseStore(v: Json): Option<Store> {
    if !KeysExactly(v, STORE_KEYS) then None else
    var seqNo, ids := v.fields["next_seq"], v.fields["identities"];
    if v.fields["contract"] == Str("permission-store") && v.fields["contract_version"] == Int(1)
       && seqNo.Int? && seqNo.i >= 1 && ids.Obj? && RecordsParse(ids.fields) && DistinctIds(ParsedRecords(ids.fields))
    then Some(Store(false, seqNo.i, ParsedRecords(ids.fields)))
    else None
  }

  ghost function LoadStore(text: string): Store {
    match Parse(text)
    case None => BAD_STORE
    case Some(v) =>
      if Print(v) != text then BAD_STORE
      else match ParseStore(v)
           case None => BAD_STORE
           case Some(s) => s
  }

  // The two directions of the schema, bottom up

  ghost predicate GrantUtf8(g: StoredGrant) { Valid(g.id) && Valid(g.identity) && Valid(g.domain) && Valid(g.sessionId) }

  ghost predicate StoreUtf8(s: Store) {
    forall k | k in s.identities :: Valid(k) && RecordUtf8(s.identities[k])
  }

  lemma GrantReads(g: StoredGrant, key: string)
    requires GrantOk(g, key)
    ensures ParseGrant(GrantJson(g), key) == Some(g)
  {
    NamesRoundTrip(Deny, g.capability, g.scope, "");
    hide CapabilityName, ScopeName, ParseCapability, ParseScope, GrantOk;
  }

  lemma GrantWrites(v: Json, key: string)
    requires ParseGrant(v, key).Some?
    ensures GrantOk(ParseGrant(v, key).value, key) && GrantJson(ParseGrant(v, key).value) == v
  {
    NamesRoundTrip(Deny, Camera, Once, v.fields["capability"].s);
    NamesRoundTrip(Deny, Camera, Once, v.fields["scope"].s);
    hide CapabilityName, ScopeName, ParseCapability, ParseScope, GrantOk;
    assert GrantJson(ParseGrant(v, key).value).fields == v.fields;
  }

  lemma DefaultsRead(d: map<Capability, CapState>)
    ensures DefaultsParse(DefaultsJson(d).fields) && ParsedDefaults(DefaultsJson(d).fields) == d
  {
    hide CapabilityName, CapStateName, ParseCapState, ParseCapability;
    var o := DefaultsJson(d).fields;
    forall k | k in o ensures ParseCapability(k).Some? && o[k].Str? && ParseCapState(o[k].s).Some? {
      FrozenNames(k);
      NamesRoundTrip(d[ParseCapability(k).value], Camera, Once, "");
    }
    hide DefaultsJson, DefaultsParse;
    var back := ParsedDefaults(o);
    forall c: Capability ensures (c in d <==> c in back) && (c in d ==> back[c] == d[c]) {
      DefaultRead(d, c);
      assert c in CAPABILITIES by { match c case Geolocation => case Camera => case Microphone => case Notifications => }
    }
    hide ParsedDefaults;
    assert back == d;
  }

  lemma DefaultRead(d: map<Capability, CapState>, c: Capability)
    ensures var o := DefaultsJson(d).fields;
            && (CapabilityName(c) in o <==> c in d)
            && (c in d ==> o[CapabilityName(c)] == Str(CapStateName(d[c])) && ParseCapState(CapStateName(d[c])) == Some(d[c]))
  {
    NamesRoundTrip(if c in d then d[c] else Deny, c, Once, "");
    FrozenNames(CapabilityName(c));
    hide CapabilityName, CapStateName, ParseCapState, ParseCapability;
  }

  lemma FrozenNames(k: string)
    ensures ParseCapability(k).Some? <==> k in {"geolocation", "camera", "microphone", "notifications"}
  {
  }

  lemma DefaultsWrite(o: map<string, Json>)
    requires DefaultsParse(o)
    ensures DefaultsJson(ParsedDefaults(o)) == Obj(o)
  {
    hide *;
    var d := ParsedDefaults(o);
    var back := DefaultsJson(d);
    DefaultWritten(o, "");
    forall k: string ensures (k in o <==> k in back.fields) && (k in o ==> back.fields[k] == o[k]) {
      DefaultWritten(o, k);
    }
    assert back.fields == o;
  }

  lemma DefaultWritten(o: map<string, Json>, k: string)
    requires DefaultsParse(o)
    ensures var back := DefaultsJson(ParsedDefaults(o)); back.Obj? && (k in o <==> k in back.fields) && (k in o ==> back.fields[k] == o[k])
  {
    NamesRoundTrip(Deny, Camera, Once, k);
    FrozenNames(k);
    if k in o { NamesRoundTrip(Deny, Camera, Once, o[k].s); }
    hide CapabilityName, CapStateName, ParseCapState, ParseCapability;
  }

  lemma ExtrasRead(x: map<string, CapState>)
    requires forall k | k in x :: IsExtraCapability(k) && x[k] != Allow
    ensures ExtrasParse(ExtrasJson(x).fields) && ParsedExtras(ExtrasJson(x).fields) == x
  {
    forall k | k in x ensures ParseExtraState(CapStateName(x[k])) == Some(x[k]) {
      NamesRoundTrip(x[k], Camera, Once, CapStateName(x[k]));
    }
    hide CapStateName, ParseExtraState, IsExtraCapability;
    var o := ExtrasJson(x).fields;
    assert o.Keys == x.Keys;
  }

  lemma ExtrasWrite(o: map<string, Json>)
    requires ExtrasParse(o)
    ensures ExtrasJson(ParsedExtras(o)) == Obj(o)
    ensures forall k | k in ParsedExtras(o) :: IsExtraCapability(k) && ParsedExtras(o)[k] != Allow
  {
    var x := ParsedExtras(o);
    forall k | k in o ensures x[k] != Allow && Str(CapStateName(x[k])) == o[k] {
      NamesRoundTrip(Deny, Camera, Once, o[k].s);
    }
    hide CapStateName, ParseExtraState, IsExtraCapability;
    var back := ExtrasJson(x).fields;
    assert back.Keys == o.Keys;
    assert back == o;
  }

  lemma RecordFields(r: IdentityRecord)
    ensures var v := RecordJson(r);
            && KeysExactly(v, RECORD_KEYS)
            && v.fields["denied"] == Bool(r.denied) && v.fields["defaults"] == DefaultsJson(r.defaults)
            && v.fields["extras"] == ExtrasJson(r.extras) && v.fields["grants"] == Arr(GrantsJson(r.grants))
  {
    hide DefaultsJson, ExtrasJson, GrantsJson;
  }

  lemma RecordReads(r: IdentityRecord, key: string)
    requires RecordOk(r, key)
    ensures ParseRecord(RecordJson(r), key) == Some(r)
  {
    hide DefaultsJson, ExtrasJson, GrantsJson, RecordJson, DefaultsParse, ExtrasParse, ParsedDefaults, ParsedExtras, ParsedGrants, GrantsParse;
    hide ParseGrant, GrantJson, GrantOk, IsExtraCapability;
    RecordFields(r);
    DefaultsRead(r.defaults);
    ExtrasRead(r.extras);
    GrantsRead(r.grants, key);
    var v := RecordJson(r);
    assert v.fields["defaults"].Obj? && v.fields["extras"].Obj? by { hide ParseRecord; ObjectShapes(r); }
  }

  lemma ObjectShapes(r: IdentityRecord)
    ensures DefaultsJson(r.defaults).Obj? && ExtrasJson(r.extras).Obj?
  {
  }

  lemma GrantsRead(gs: seq<StoredGrant>, key: string)
    requires forall i | 0 <= i < |gs| :: GrantOk(gs[i], key)
    ensures GrantsParse(GrantsJson(gs), key) && ParsedGrants(GrantsJson(gs), key) == gs
  {
    hide ParseGrant, GrantJson, GrantOk, GrantsJson, ParsedGrants;
    forall i | 0 <= i < |gs| ensures ParseGrant(GrantJson(gs[i]), key) == Some(gs[i]) {
      GrantReads(gs[i], key);
    }
  }

  lemma RecordWrites(v: Json, key: string)
    requires ParseRecord(v, key).Some?
    ensures RecordOk(ParseRecord(v, key).value, key) && RecordJson(ParseRecord(v, key).value) == v
  {
    hide DefaultsJson, ExtrasJson, GrantsJson, DefaultsParse, ExtrasParse, ParsedDefaults, ParsedExtras, ParsedGrants, ParseGrant, GrantJson, RecordJson, GrantOk;
    var r := ParseRecord(v, key).value;
    var items := v.fields["grants"].items;
    DefaultsWrite(v.fields["defaults"].fields);
    ExtrasWrite(v.fields["extras"].fields);
    forall i | 0 <= i < |items| ensures GrantOk(r.grants[i], key) && GrantJson(r.grants[i]) == items[i] {
      GrantWrites(items[i], key);
    }
    assert GrantsJson(r.grants) == items;
    RecordFields(r);
    SameFields(RecordJson(r), v, RECORD_KEYS);
  }

  lemma SameFields(a: Json, b: Json, keys: set<string>)
    requires KeysExactly(a, keys) && KeysExactly(b, keys) && forall k | k in keys :: a.fields[k] == b.fields[k]
    ensures a == b
  {
    assert a.fields == b.fields;
  }

  lemma StoreFields(s: Store)
    ensures var v := StoreJson(s);
            && KeysExactly(v, STORE_KEYS)
            && v.fields["contract"] == Str("permission-store") && v.fields["contract_version"] == Int(1)
            && v.fields["next_seq"] == Int(Cast(s.nextSeq)) && v.fields["identities"] == IdentitiesJson(s.identities)
  {
    hide IdentitiesJson, Cast;
  }

  lemma StoreReads(s: Store)
    requires StoreOk(s) && s.nextSeq <= INT64_MAX
    ensures ParseStore(StoreJson(s)) == Some(s)
  {
    StoreFields(s);
    IdentitiesRead(s.identities);
    assert Cast(s.nextSeq) == s.nextSeq;
    hide ParseRecord, RecordJson, RecordOk, IdentitiesJson, StoreJson, RecordsParse, ParsedRecords, DistinctIds, Cast;
  }

  lemma IdentitiesRead(ids: map<string, IdentityRecord>)
    requires forall k | k in ids :: k != "" && RecordOk(ids[k], k)
    ensures var o := IdentitiesJson(ids).fields; RecordsParse(o) && ParsedRecords(o) == ids
  {
    hide ParseRecord, RecordJson, RecordOk;
    forall k | k in ids ensures ParseRecord(RecordJson(ids[k]), k) == Some(ids[k]) {
      RecordReads(ids[k], k);
    }
    var o := IdentitiesJson(ids).fields;
    assert o.Keys == ids.Keys;
  }

  lemma IdentitiesWrite(o: map<string, Json>)
    requires RecordsParse(o)
    ensures var ids := ParsedRecords(o); IdentitiesJson(ids) == Obj(o) && forall k | k in ids :: k != "" && RecordOk(ids[k], k)
  {
    hide ParseRecord, RecordJson, RecordOk;
    var ids := ParsedRecords(o);
    forall k | k in o ensures RecordOk(ids[k], k) && RecordJson(ids[k]) == o[k] {
      RecordWrites(o[k], k);
    }
    assert ids.Keys == o.Keys;
    assert IdentitiesJson(ids).fields == o;
  }

  lemma StoreWrites(v: Json)
    requires ParseStore(v).Some?
    ensures var s := ParseStore(v).value; StoreOk(s) && s.nextSeq <= INT64_MAX && StoreJson(s) == v
  {
    hide ParseRecord, RecordJson, RecordOk, IdentitiesJson, StoreJson, RecordsParse, ParsedRecords, DistinctIds;
    var s := ParseStore(v).value;
    IdentitiesWrite(v.fields["identities"].fields);
    StoreFields(s);
    assert Cast(s.nextSeq) == s.nextSeq;
    SameFields(StoreJson(s), v, STORE_KEYS);
  }

  // A store's document is plain exactly when the store's strings are UTF-8

  predicate Ascii(s: string) { forall i | 0 <= i < |s| :: s[i] as int < 0x80 }

  /** ASCII text is UTF-8. */
  lemma {:induction false} AsciiUtf8(s: string)
    requires Ascii(s)
    ensures Valid(s)
  {
    if s != "" {
      AsciiUtf8(s[1..]);
      assert CharLen(s) == 1;
    }
  }

  lemma StateNameUtf8(st: CapState)
    ensures Valid(CapStateName(st))
  {
    hide Valid, CharLen;
    AsciiUtf8(CapStateName(st));
  }

  lemma CapabilityNameUtf8(c: Capability)
    ensures Valid(CapabilityName(c))
  {
    hide Valid, CharLen;
    AsciiUtf8(CapabilityName(c));
  }

  lemma ScopeNameUtf8(sc: Scope)
    ensures Valid(ScopeName(sc))
  {
    hide Valid, CharLen;
    AsciiUtf8(ScopeName(sc));
  }

  lemma KeysUtf8(k: string)
    requires k in GRANT_KEYS || k in RECORD_KEYS || k in STORE_KEYS || IsExtraCapability(k) || ParseCapability(k).Some?
             || k in {"permission-store", "corrupt"}
    ensures Valid(k)
  {
    hide Valid, CharLen;
    if k in GRANT_KEYS { GrantKeysAscii(k); }
    else if ParseCapability(k).Some? { FrozenAscii(k); }
    else { OtherKeysAscii(k); }
    hide Ascii, ParseCapability, IsExtraCapability;
    AsciiUtf8(k);
  }

  lemma GrantKeysAscii(k: string)
    requires k in GRANT_KEYS
    ensures Ascii(k)
  {
  }

  lemma FrozenAscii(k: string)
    requires ParseCapability(k).Some?
    ensures Ascii(k)
  {
  }

  lemma OtherKeysAscii(k: string)
    requires k in RECORD_KEYS || k in STORE_KEYS || IsExtraCapability(k) || k in {"permission-store", "corrupt"}
    ensures Ascii(k)
  {
  }

  ghost predicate PlainWithin(v: Json, n: int) { DoubleFree(v) && NestsWithin(v, n) }

  /** An object with good keys is as plain as its members. */
  lemma ObjectPlain(v: Json, n: int)
    requires v.Obj? && n >= 0 && forall k | k in v.fields :: Valid(k) && PlainWithin(v.fields[k], n - 1)
    ensures PlainWithin(v, n)
    ensures Utf8Clean(v) <==> forall k | k in v.fields :: Utf8Clean(v.fields[k])
  {
    hide Valid;
  }

  lemma ScalarPlain(v: Json, n: int)
    requires n >= 0 && (v.Str? || v.Int? || v.Bool?)
    ensures PlainWithin(v, n)
    ensures Utf8Clean(v) <==> (v.Str? ==> Valid(v.s))
  {
    hide Valid;
  }

  lemma DefaultsPlain(d: map<Capability, CapState>)
    ensures PlainWithin(DefaultsJson(d), 1) && Utf8Clean(DefaultsJson(d))
  {
    var v := DefaultsJson(d);
    forall k | k in v.fields ensures Valid(k) && PlainWithin(v.fields[k], 0) && Utf8Clean(v.fields[k]) {
      FrozenNames(k);
      KeysUtf8(k);
      StateNameUtf8(d[ParseCapability(k).value]);
      ScalarPlain(v.fields[k], 0);
      hide Valid, PlainWithin, Utf8Clean, CapStateName, ParseCapability;
    }
    hide DefaultsJson, PlainWithin, Utf8Clean, Valid;
    ObjectPlain(v, 1);
  }

  lemma ExtrasPlain(x: map<string, CapState>)
    requires forall k | k in x :: IsExtraCapability(k)
    ensures PlainWithin(ExtrasJson(x), 1) && Utf8Clean(ExtrasJson(x))
  {
    var v := ExtrasJson(x);
    forall k | k in v.fields ensures Valid(k) && PlainWithin(v.fields[k], 0) && Utf8Clean(v.fields[k]) {
      KeysUtf8(k);
      StateNameUtf8(x[k]);
      ScalarPlain(v.fields[k], 0);
      hide Valid, PlainWithin, Utf8Clean, CapStateName, IsExtraCapability;
    }
    hide ExtrasJson, PlainWithin, Utf8Clean, Valid;
    ObjectPlain(v, 1);
  }

  lemma GrantFields(g: StoredGrant)
    ensures var v := GrantJson(g);
            && KeysExactly(v, GRANT_KEYS)
            && (forall k | k in v.fields :: v.fields[k].Str? || v.fields[k].Int? || v.fields[k].Bool?)
            && (forall k | k in v.fields && v.fields[k].Str? :: v.fields[k].s in {g.id, g.identity, g.domain, CapabilityName(g.capability), ScopeName(g.scope), g.sessionId})
            && v.fields["id"] == Str(g.id) && v.fields["identity"] == Str(g.identity) && v.fields["domain"] == Str(g.domain)
            && v.fields["session_id"] == Str(g.sessionId)
  {
    hide CapabilityName, ScopeName;
  }

  lemma GrantJsonPlain(g: StoredGrant)
    ensures PlainWithin(GrantJson(g), 1)
    ensures Utf8Clean(GrantJson(g)) <==> GrantUtf8(g)
  {
    hide Valid, CapabilityName, ScopeName, GrantJson, PlainWithin, Utf8Clean;
    CapabilityNameUtf8(g.capability);
    ScopeNameUtf8(g.scope);
    GrantFields(g);
    var v := GrantJson(g);
    forall k | k in v.fields ensures Valid(k) && PlainWithin(v.fields[k], 0) && (Utf8Clean(v.fields[k]) <==> (v.fields[k].Str? ==> Valid(v.fields[k].s))) {
      KeysUtf8(k);
      ScalarPlain(v.fields[k], 0);
    }
    ObjectPlain(v, 1);
    if Utf8Clean(v) {
      assert Utf8Clean(v.fields["id"]) && Utf8Clean(v.fields["identity"]) && Utf8Clean(v.fields["domain"]) && Utf8Clean(v.fields["session_id"]);
    }
  }

  ghost predicate RecordUtf8(r: IdentityRecord) { forall i | 0 <= i < |r.grants| :: GrantUtf8(r.grants[i]) }

  lemma GrantsPlain(gs: seq<StoredGrant>)
    ensures PlainWithin(Arr(GrantsJson(gs)), 2)
    ensures Utf8Clean(Arr(GrantsJson(gs))) <==> forall i | 0 <= i < |gs| :: GrantUtf8(gs[i])
  {
    hide GrantJson, GrantsJson, GrantUtf8;
    var a := GrantsJson(gs);
    forall i | 0 <= i < |gs| ensures DoubleFree(a[i]) && NestsWithin(a[i], 1) && (Utf8Clean(a[i]) <==> GrantUtf8(gs[i])) {
      GrantJsonPlain(gs[i]);
      assert PlainWithin(a[i], 1);
    }
  }

  lemma RecordJsonPlain(r: IdentityRecord, key: string)
    requires RecordOk(r, key)
    ensures PlainWithin(RecordJson(r), 3)
    ensures Utf8Clean(RecordJson(r)) <==> RecordUtf8(r)
  {
    hide GrantsJson, DefaultsJson, ExtrasJson, RecordJson, Valid, GrantUtf8, GrantOk, PlainWithin, Utf8Clean, IsExtraCapability;
    RecordFields(r);
    var v := RecordJson(r);
    DefaultsPlain(r.defaults);
    ExtrasPlain(r.extras);
    GrantsPlain(r.grants);
    forall k | k in v.fields ensures Valid(k) && PlainWithin(v.fields[k], 2) && (k != "grants" ==> Utf8Clean(v.fields[k])) {
      KeysUtf8(k);
      if k == "denied" { ScalarPlain(v.fields[k], 2); }
      else if k != "grants" { PlainMore(v.fields[k], 1, 2); }
    }
    ObjectPlain(v, 3);
    assert "grants" in v.fields;
  }

  lemma PlainMore(v: Json, n: int, m: int)
    requires PlainWithin(v, n) && n <= m
    ensures PlainWithin(v, m)
  {
    NestsMore(v, n, m);
  }

  lemma {:induction false} NestsMore(v: Json, n: int, m: int)
    requires NestsWithin(v, n) && n <= m
    ensures NestsWithin(v, m)
    decreases v
  {
    match v
    case Arr(a) => forall i | 0 <= i < |a| ensures NestsWithin(a[i], m - 1) { NestsMore(a[i], n - 1, m - 1); }
    case Obj(o) => forall k | k in o ensures NestsWithin(o[k], m - 1) { NestsMore(o[k], n - 1, m - 1); }
    case _ =>
  }

  lemma IdentitiesPlain(ids: map<string, IdentityRecord>)
    requires forall k | k in ids :: RecordOk(ids[k], k)
    ensures DoubleFree(IdentitiesJson(ids)) && NestsWithin(IdentitiesJson(ids), 4)
    ensures Utf8Clean(IdentitiesJson(ids)) <==> forall k | k in ids :: Valid(k) && RecordUtf8(ids[k])
  {
    var v := IdentitiesJson(ids);
    assert v.fields.Keys == ids.Keys;
    forall k | k in ids ensures DoubleFree(v.fields[k]) && NestsWithin(v.fields[k], 3) && (Utf8Clean(v.fields[k]) <==> RecordUtf8(ids[k])) {
      RecordJsonPlain(ids[k], k);
    }
    hide IdentitiesJson, RecordJson, RecordUtf8, Valid, RecordOk;
  }

  lemma StoreJsonPlain(s: Store)
    requires StoreOk(s)
    ensures PlainWithin(StoreJson(s), 5)
    ensures Utf8Clean(StoreJson(s)) <==> StoreUtf8(s)
  {
    hide IdentitiesJson, StoreJson, RecordOk, Valid, RecordUtf8, PlainWithin, Utf8Clean, Cast, DistinctIds;
    StoreFields(s);
    var v := StoreJson(s);
    IdentitiesPlain(s.identities);
    PlainIs(v.fields["identities"], 4);
    forall k | k in v.fields ensures Valid(k) && PlainWithin(v.fields[k], 4) && (k != "identities" ==> Utf8Clean(v.fields[k])) {
      KeysUtf8(k);
      KeysUtf8("permission-store");
      if k != "identities" { ScalarPlain(v.fields[k], 4); }
    }
    ObjectPlain(v, 5);
    assert "identities" in v.fields;
  }

  lemma PlainIs(v: Json, n: int)
    requires DoubleFree(v) && NestsWithin(v, n)
    ensures PlainWithin(v, n)
  {
  }

  // The laws of the codec

  /** A store is what its own document loads to, exactly when it is well-formed, UTF-8, and its counter fits int64. */
  lemma StoreRoundTrip(s: Store)
    requires !s.corrupt
    ensures LoadStore(SerializeStore(s)) == s <==> StoreOk(s) && StoreUtf8(s) && s.nextSeq <= INT64_MAX
  {
    var text := SerializeStore(s);
    hide Parse, Print, ParseStore, StoreJson, StoreOk, StoreUtf8;
    if StoreOk(s) && StoreUtf8(s) && s.nextSeq <= INT64_MAX {
      StoreJsonPlain(s);
      PlainMore(StoreJson(s), 5, MAX_DEPTH);
      RoundTrip(StoreJson(s));
      StoreReads(s);
    }
    if LoadStore(text) == s {
      LoadedIsCanonical(text);
    }
  }

  /** Any text that loads re-serialises to exactly the same bytes. */
  lemma LoadedIsCanonical(text: string)
    requires !LoadStore(text).corrupt
    ensures var s := LoadStore(text); SerializeStore(s) == text && StoreOk(s) && StoreUtf8(s) && s.nextSeq <= INT64_MAX
  {
    var v := Parse(text).value;
    LoadedParses(text);
    StoreWrites(v);
    AcceptedIsClean(text);
    StoreJsonPlain(LoadStore(text));
    hide Parse, Print, ParseStore, StoreJson, StoreOk, StoreUtf8;
  }

  lemma LoadedParses(text: string)
    requires !LoadStore(text).corrupt
    ensures Parse(text).Some? && Print(Parse(text).value) == text && ParseStore(Parse(text).value) == Some(LoadStore(text))
  {
    hide Parse, Print;
  }

  /** A corrupt store stays corrupt on disk. */
  lemma CorruptStaysCorrupt(s: Store)
    requires s.corrupt
    ensures LoadStore(SerializeStore(s)) == BAD_STORE
  {
    hide Parse, Print, Valid, PlainWithin, Utf8Clean;
    var v := CORRUPT_MARKER;
    forall k | k in v.fields ensures Valid(k) && PlainWithin(v.fields[k], 0) && Utf8Clean(v.fields[k]) {
      KeysUtf8(k);
      KeysUtf8("permission-store");
      ScalarPlain(v.fields[k], 0);
    }
    ObjectPlain(v, 1);
    PlainMore(v, 1, MAX_DEPTH);
    MarkerRefused();
    MarkerRoundTrip();
  }

  lemma MarkerRefused()
    ensures ParseStore(CORRUPT_MARKER).None?
  {
    assert "corrupt" in CORRUPT_MARKER.fields && "corrupt" !in STORE_KEYS;
  }

  lemma MarkerRoundTrip()
    requires PlainWithin(CORRUPT_MARKER, MAX_DEPTH) && Utf8Clean(CORRUPT_MARKER)
    ensures Parse(Print(CORRUPT_MARKER)) == Some(CORRUPT_MARKER)
  {
    RoundTrip(CORRUPT_MARKER);
  }
}
