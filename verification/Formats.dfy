/** The documents as they are written: every name, in the order in which it stands, and the text of every value. */
module Formats {
  import opened Wrappers
  import opened Order
  import opened JsonValue
  import opened JsonText
  import opened PermissionTypes
  import opened PermissionStore
  import opened PermissionOverlay
  import opened PermissionProjection
  import opened PermissionMeaning
  import opened PolicyTypes
  import opened PolicyCodec
  import opened PolicySnapshot

  // Objects with fixed names

  predicate PlainName(s: string) { forall i | 0 <= i < |s| :: PlainByte(s[i]) }

  predicate PlainByte(c: char) { 'a' <= c <= 'z' || 'A' <= c <= 'Z' || '0' <= c <= '9' || c == '_' || c == '-' }

  lemma {:induction false} PlainEscaped(s: string)
    requires PlainName(s)
    ensures Escaped(s) == s
  {
    hide Utf8.DecodeUtf8, Hex4;
    if s != "" {
      assert PlainName(s[1..]);
      PlainEscaped(s[1..]);
      assert EscapeOne(s) == ([s[0]], 1);
      assert s == [s[0]] + s[1..];
    }
  }

  /** `a` is `b` up to position `n`, where it ends or has the smaller byte. */
  predicate BeforeAt(a: string, b: string, n: int) {
    0 <= n <= |a| && n < |b| && a[..n] == b[..n] && (n < |a| ==> (a[n] as int) < (b[n] as int))
  }

  lemma BeforeAtIs(a: string, b: string, n: int)
    requires BeforeAt(a, b, n)
    ensures ByteBefore(a, b)
  {
    if n < |a| { assert FirstDifference(a, b, n); } else { assert a[..n] == a; }
  }

  lemma BeforeChain(a: string, b: string, c: string)
    requires ByteBefore(a, b) && ByteBefore(b, c)
    ensures ByteBefore(a, c)
  {
    LessIsByteOrder(a, b);
    LessIsByteOrder(b, c);
    LessIsByteOrder(a, c);
    StringsAreOrdered();
    hide Less, ByteBefore;
  }

  ghost predicate StepsUp(ks: seq<string>) { forall i | 0 < i < |ks| :: ByteBefore(ks[i - 1], ks[i]) }

  lemma {:induction false} StepsAreOrder(ks: seq<string>)
    requires StepsUp(ks)
    ensures InByteOrder(ks)
  {
    hide ByteBefore;
    if |ks| > 1 {
      var front := ks[..|ks| - 1];
      forall i | 0 < i < |front| ensures ByteBefore(front[i - 1], front[i]) { assert ByteBefore(ks[i - 1], ks[i]); }
      StepsAreOrder(front);
      forall i, j | 0 <= i < j < |ks| ensures ByteBefore(ks[i], ks[j]) {
        if j < |front| {
          assert ByteBefore(front[i], front[j]);
        } else if i < j - 1 {
          assert ByteBefore(front[i], front[j - 1]);
          BeforeChain(ks[i], ks[j - 1], ks[j]);
        }
      }
    }
  }

  /** Names and the texts of their values, between commas and braces. */
  ghost function Document(names: seq<string>, texts: seq<string>): string
    requires |names| == |texts|
  {
    "{" + Commas(seq(|names|, i requires 0 <= i < |names| => "\"" + names[i] + "\":" + texts[i])) + "}"
  }

  lemma DocumentIs(v: Json, names: seq<string>, texts: seq<string>)
    requires v.Obj? && StepsUp(names) && (forall k :: k in names <==> k in v.fields) && |texts| == |names|
    requires forall i | 0 <= i < |names| :: PlainName(names[i]) && texts[i] == Print(v.fields[names[i]])
    ensures Print(v) == Document(names, texts)
  {
    StepsAreOrder(names);
    forall i | 0 <= i < |names| ensures Escaped(names[i]) == names[i] { PlainEscaped(names[i]); }
    hide StepsUp, InByteOrder, Print, Escaped, Commas, PlainName;
    ObjectText(v, names);
    assert MemberTexts(v, names) == seq(|names|, i requires 0 <= i < |names| => "\"" + names[i] + "\":" + texts[i]);
  }

  ghost predicate PlainNames(names: seq<string>) { forall i | 0 <= i < |names| :: PlainName(names[i]) }

  lemma PlainQuoted(s: string)
    requires PlainName(s)
    ensures Quoted(s) == "\"" + s + "\""
  {
    PlainEscaped(s);
    hide Escaped, PlainName;
  }

  ghost function Truth(b: bool): string { if b then "true" else "false" }

  lemma TextsAre(s: string, i: int64, b: bool)
    ensures Print(Str(s)) == Quoted(s) && Print(Int(i)) == Decimal(i) && Print(Bool(b)) == Truth(b)
  {
    hide Quoted, Decimal;
  }

  ghost predicate FieldText(v: Json, k: string, text: string) { v.Obj? && k in v.fields && Print(v.fields[k]) == text }

  lemma StringText(v: Json, k: string, s: string)
    requires v.Obj? && k in v.fields && v.fields[k] == Str(s)
    ensures FieldText(v, k, Quoted(s))
  {
    TextsAre(s, 0, false);
    hide Quoted, Print;
  }

  lemma NumberFieldText(v: Json, k: string, i: int64)
    requires v.Obj? && k in v.fields && v.fields[k] == Int(i)
    ensures FieldText(v, k, Decimal(i))
  {
    TextsAre("", i, false);
    hide Decimal, Print;
  }

  lemma TruthText(v: Json, k: string, b: bool)
    requires v.Obj? && k in v.fields && v.fields[k] == Bool(b)
    ensures FieldText(v, k, Truth(b))
  {
    TextsAre("", 0, b);
    hide Truth, Print;
  }

  ghost predicate FieldTexts(v: Json, names: seq<string>, texts: seq<string>)
    requires |names| == |texts|
  {
    forall i | 0 <= i < |names| :: FieldText(v, names[i], texts[i])
  }

  ghost predicate NamesListed(names: seq<string>, keys: set<string>) { forall k :: k in names <==> k in keys }

  lemma NamedDocument(v: Json, names: seq<string>, texts: seq<string>)
    requires v.Obj? && |texts| == |names| && StepsUp(names) && PlainNames(names) && NamesListed(names, v.fields.Keys) && FieldTexts(v, names, texts)
    ensures Print(v) == Document(names, texts)
  {
    hide StepsUp, Print, Document, PlainName;
    forall i | 0 <= i < |names| ensures PlainName(names[i]) && texts[i] == Print(v.fields[names[i]]) { assert FieldText(v, names[i], texts[i]); }
    DocumentIs(v, names, texts);
  }

  // The permission store

  ghost function NameOfCapability(c: Capability): string {
    match c case Geolocation => "\"geolocation\"" case Camera => "\"camera\"" case Microphone => "\"microphone\"" case Notifications => "\"notifications\""
  }

  ghost function NameOfScope(sc: Scope): string { match sc case Once => "\"once\"" case Session => "\"session\"" case SevenDays => "\"7d\"" }

  ghost function GrantNames(): (names: seq<string>)
    ensures |names| == 11
  {
    ["capability", "created_at", "domain", "expires_at", "id", "identity", "remaining_uses", "revoked", "revoked_at", "scope", "session_id"]
  }

  lemma GrantNames1()
    ensures ByteBefore("capability", "created_at") && ByteBefore("created_at", "domain") && ByteBefore("domain", "expires_at")
  {
    BeforeAtIs("capability", "created_at", 1);
    BeforeAtIs("created_at", "domain", 0);
    BeforeAtIs("domain", "expires_at", 0);
  }

  lemma GrantNames2()
    ensures ByteBefore("expires_at", "id") && ByteBefore("id", "identity") && ByteBefore("identity", "remaining_uses")
  {
    BeforeAtIs("expires_at", "id", 0);
    BeforeAtIs("id", "identity", 2);
    BeforeAtIs("identity", "remaining_uses", 0);
  }

  lemma GrantNames3()
    ensures ByteBefore("remaining_uses", "revoked")
  {
    BeforeAtIs("remaining_uses", "revoked", 2);
  }

  lemma GrantNames4()
    ensures ByteBefore("revoked", "revoked_at") && ByteBefore("revoked_at", "scope") && ByteBefore("scope", "session_id")
  {
    BeforeAtIs("revoked", "revoked_at", 7);
    BeforeAtIs("revoked_at", "scope", 0);
    BeforeAtIs("scope", "session_id", 1);
  }

  lemma GrantPlain1()
    ensures PlainName("capability") && PlainName("created_at") && PlainName("domain") && PlainName("expires_at") && PlainName("id") && PlainName("identity")
  {
  }

  lemma GrantPlain2()
    ensures PlainName("remaining_uses") && PlainName("revoked") && PlainName("revoked_at") && PlainName("scope") && PlainName("session_id")
  {
  }

  lemma GrantNamesOrdered()
    ensures StepsUp(GrantNames())
  {
    GrantNames1();
    GrantNames2();
    GrantNames3();
    GrantNames4();
    hide ByteBefore;
  }

  lemma GrantNamesPlain()
    ensures PlainNames(GrantNames())
  {
    GrantPlain1();
    GrantPlain2();
    hide PlainName;
  }

  lemma CapabilityQuoted(c: Capability)
    ensures Quoted(CapabilityName(c)) == NameOfCapability(c)
  {
    hide Escaped, PlainName, Quoted;
    CapabilityPlain(c);
    PlainQuoted(CapabilityName(c));
  }

  lemma CapabilityPlain(c: Capability)
    ensures PlainName(CapabilityName(c))
  {
  }

  lemma ScopePlain(sc: Scope)
    ensures PlainName(ScopeName(sc))
  {
  }

  lemma ScopeQuoted(sc: Scope)
    ensures Quoted(ScopeName(sc)) == NameOfScope(sc)
  {
    hide Escaped, PlainName, Quoted;
    ScopePlain(sc);
    PlainQuoted(ScopeName(sc));
  }

  lemma GrantKeys(g: StoredGrant)
    ensures GrantJson(g).Obj? && GrantJson(g).fields.Keys == GRANT_KEYS
  {
    hide CapabilityName, ScopeName;
  }

  lemma GrantKeysListed(k: string)
    ensures k in GrantNames() <==> k in GRANT_KEYS
  {
  }

  lemma GrantFields1(g: StoredGrant)
    ensures GrantJson(g).Obj?
    ensures var o := GrantJson(g).fields;
            && "capability" in o && o["capability"] == Str(CapabilityName(g.capability)) && "created_at" in o && o["created_at"] == Int(g.createdAt)
            && "domain" in o && o["domain"] == Str(g.domain) && "expires_at" in o && o["expires_at"] == Int(g.expiresAt)
            && "id" in o && o["id"] == Str(g.id) && "identity" in o && o["identity"] == Str(g.identity)
  {
    hide CapabilityName, ScopeName;
  }

  lemma GrantFields2(g: StoredGrant)
    ensures GrantJson(g).Obj?
    ensures var o := GrantJson(g).fields;
            && "remaining_uses" in o && o["remaining_uses"] == Int(g.remainingUses) && "revoked" in o && o["revoked"] == Bool(g.revoked)
            && "revoked_at" in o && o["revoked_at"] == Int(g.revokedAt) && "scope" in o && o["scope"] == Str(ScopeName(g.scope))
            && "session_id" in o && o["session_id"] == Str(g.sessionId)
  {
    hide CapabilityName, ScopeName;
  }

  ghost function GrantTexts(g: StoredGrant): (texts: seq<string>)
    ensures |texts| == 11
  {
    [NameOfCapability(g.capability), Decimal(g.createdAt), Quoted(g.domain), Decimal(g.expiresAt), Quoted(g.id), Quoted(g.identity),
     Decimal(g.remainingUses), Truth(g.revoked), Decimal(g.revokedAt), NameOfScope(g.scope), Quoted(g.sessionId)]
  }

  lemma GrantTexts1(g: StoredGrant)
    ensures var v := GrantJson(g);
            && FieldText(v, "capability", NameOfCapability(g.capability)) && FieldText(v, "created_at", Decimal(g.createdAt))
            && FieldText(v, "domain", Quoted(g.domain))
  {
    hide *;
    var v := GrantJson(g);
    GrantFields1(g);
    CapabilityQuoted(g.capability);
    StringText(v, "capability", CapabilityName(g.capability));
    NumberFieldText(v, "created_at", g.createdAt);
    StringText(v, "domain", g.domain);
  }

  lemma GrantTexts2(g: StoredGrant)
    ensures var v := GrantJson(g);
            && FieldText(v, "expires_at", Decimal(g.expiresAt)) && FieldText(v, "id", Quoted(g.id)) && FieldText(v, "identity", Quoted(g.identity))
  {
    hide *;
    var v := GrantJson(g);
    GrantFields1(g);
    NumberFieldText(v, "expires_at", g.expiresAt);
    StringText(v, "id", g.id);
    StringText(v, "identity", g.identity);
  }

  lemma GrantTexts3(g: StoredGrant)
    ensures var v := GrantJson(g);
            && FieldText(v, "remaining_uses", Decimal(g.remainingUses)) && FieldText(v, "revoked", Truth(g.revoked))
            && FieldText(v, "revoked_at", Decimal(g.revokedAt))
  {
    hide *;
    var v := GrantJson(g);
    GrantFields2(g);
    NumberFieldText(v, "remaining_uses", g.remainingUses);
    TruthText(v, "revoked", g.revoked);
    NumberFieldText(v, "revoked_at", g.revokedAt);
  }

  lemma GrantTexts4(g: StoredGrant)
    ensures var v := GrantJson(g); FieldText(v, "scope", NameOfScope(g.scope)) && FieldText(v, "session_id", Quoted(g.sessionId))
  {
    hide *;
    var v := GrantJson(g);
    GrantFields2(g);
    ScopeQuoted(g.scope);
    StringText(v, "scope", ScopeName(g.scope));
    StringText(v, "session_id", g.sessionId);
  }

  lemma GrantTextsAre(g: StoredGrant)
    ensures FieldTexts(GrantJson(g), GrantNames(), GrantTexts(g))
  {
    GrantTexts1(g);
    GrantTexts2(g);
    GrantTexts3(g);
    GrantTexts4(g);
    hide FieldText, GrantJson, Quoted, Decimal, NameOfCapability, NameOfScope, Truth;
  }

  lemma GrantNamesListed()
    ensures NamesListed(GrantNames(), GRANT_KEYS)
  {
    forall k ensures k in GrantNames() <==> k in GRANT_KEYS { GrantKeysListed(k); }
  }

  /** A grant of the store. */
  lemma GrantText(g: StoredGrant)
    ensures Print(GrantJson(g)) == Document(GrantNames(), GrantTexts(g))
  {
    hide *;
    GrantNamesOrdered();
    GrantNamesPlain();
    GrantKeys(g);
    GrantNamesListed();
    GrantTextsAre(g);
    NamedDocument(GrantJson(g), GrantNames(), GrantTexts(g));
  }

  lemma DefaultsWritten(d: map<Capability, CapState>, k: string, c: Capability)
    requires CapabilityNamed(k, c)
    ensures var o := DefaultsJson(d); o.Obj? && (k in o.fields <==> c in d) && (c in d ==> o.fields[k].Str? && StateNamed(o.fields[k].s, d[c]))
  {
    if c in d { StateNames(d[c]); }
    NamesAre(k);
    assert ParseCapability(k) == Some(c) && k in {"geolocation", "camera", "microphone", "notifications"};
    hide CapStateName, StateNamed, ParseCapability, CapabilityNamed;
  }

  lemma StateNames(st: CapState)
    ensures StateNamed(CapStateName(st), st)
  {
  }

  lemma RecordText(r: IdentityRecord)
    ensures Print(RecordJson(r)) == Document(["defaults", "denied", "extras", "grants"],
              [Print(DefaultsJson(r.defaults)), Truth(r.denied), Print(ExtrasJson(r.extras)), Print(Arr(GrantsJson(r.grants)))])
  {
    var v, names := RecordJson(r), ["defaults", "denied", "extras", "grants"];
    hide *;
    RecordOrder();
    RecordPlain();
    RecordFields(r);
    RecordListed();
    RecordHas(r);
    TruthText(v, "denied", r.denied);
    Member(v, "defaults");
    Member(v, "extras");
    Member(v, "grants");
    FourTexts(v, names, [Print(DefaultsJson(r.defaults)), Truth(r.denied), Print(ExtrasJson(r.extras)), Print(Arr(GrantsJson(r.grants)))]);
    NamedDocument(v, names, [Print(DefaultsJson(r.defaults)), Truth(r.denied), Print(ExtrasJson(r.extras)), Print(Arr(GrantsJson(r.grants)))]);
  }

  lemma RecordHas(r: IdentityRecord)
    ensures var v := RecordJson(r);
            v.Obj? && v.fields.Keys == RECORD_KEYS && "denied" in v.fields && "defaults" in v.fields && "extras" in v.fields && "grants" in v.fields
  {
    RecordFields(r);
    hide RecordJson;
  }

  lemma Member(v: Json, k: string)
    requires v.Obj? && k in v.fields
    ensures FieldText(v, k, Print(v.fields[k]))
  {
    hide Print;
  }

  lemma FourTexts(v: Json, names: seq<string>, texts: seq<string>)
    requires |names| == 4 && |texts| == 4 && FieldText(v, names[0], texts[0]) && FieldText(v, names[1], texts[1])
    requires FieldText(v, names[2], texts[2]) && FieldText(v, names[3], texts[3])
    ensures FieldTexts(v, names, texts)
  {
    hide FieldText;
  }

  lemma RecordOrder()
    ensures StepsUp(["defaults", "denied", "extras", "grants"])
  {
    BeforeAtIs("defaults", "denied", 2);
    BeforeAtIs("denied", "extras", 0);
    BeforeAtIs("extras", "grants", 0);
    hide ByteBefore;
  }

  lemma RecordPlain()
    ensures PlainNames(["defaults", "denied", "extras", "grants"])
  {
    assert PlainName("defaults") && PlainName("denied") && PlainName("extras") && PlainName("grants");
    hide PlainName;
  }

  lemma RecordListed()
    ensures NamesListed(["defaults", "denied", "extras", "grants"], RECORD_KEYS)
  {
  }

  /** A store that is whole. */
  lemma StoreText(s: Store)
    ensures Print(StoreJson(s)) == Document(["contract", "contract_version", "identities", "next_seq"],
              ["\"permission-store\"", "1", Print(IdentitiesJson(s.identities)), Decimal(Cast(s.nextSeq))])
  {
    var v, names := StoreJson(s), ["contract", "contract_version", "identities", "next_seq"];
    hide *;
    StoreOrder();
    StorePlain();
    StoreFields(s);
    StoreListed();
    StoreHas(s);
    ContractText();
    StringText(v, "contract", "permission-store");
    NumberFieldText(v, "next_seq", Cast(s.nextSeq));
    Member(v, "identities");
    FourTexts(v, names, ["\"permission-store\"", "1", Print(IdentitiesJson(s.identities)), Decimal(Cast(s.nextSeq))]);
    NamedDocument(v, names, ["\"permission-store\"", "1", Print(IdentitiesJson(s.identities)), Decimal(Cast(s.nextSeq))]);
  }

  /** A store that is corrupt. */
  lemma CorruptText(s: Store)
    requires s.corrupt
    ensures SerializeStore(s) == Document(["contract", "corrupt"], ["\"permission-store\"", "true"])
  {
    hide *;
    var v, names := CORRUPT_MARKER, ["contract", "corrupt"];
    CorruptHas();
    CorruptNames();
    CorruptIsMarker(s);
    NamedDocument(v, names, ["\"permission-store\"", "true"]);
  }

  lemma CorruptIsMarker(s: Store)
    requires s.corrupt
    ensures SerializeStore(s) == Print(CORRUPT_MARKER)
  {
    hide Print;
  }

  lemma CorruptHas()
    ensures var v := CORRUPT_MARKER; v.Obj? && NamesListed(["contract", "corrupt"], v.fields.Keys)
    ensures FieldTexts(CORRUPT_MARKER, ["contract", "corrupt"], ["\"permission-store\"", "true"])
  {
    ContractText();
    hide Decimal, Quoted;
    StringText(CORRUPT_MARKER, "contract", "permission-store");
    TruthText(CORRUPT_MARKER, "corrupt", true);
    hide FieldText;
  }

  lemma CorruptNames()
    ensures StepsUp(["contract", "corrupt"]) && PlainNames(["contract", "corrupt"])
  {
    BeforeAtIs("contract", "corrupt", 2);
    hide ByteBefore;
    assert PlainName("contract") && PlainName("corrupt");
    hide PlainName;
  }

  lemma ContractText()
    ensures Quoted("permission-store") == "\"permission-store\"" && Decimal(1) == "1"
  {
    hide Escaped;
    assert PlainName("permission-store");
    PlainQuoted("permission-store");
  }

  lemma StoreOrder()
    ensures StepsUp(["contract", "contract_version", "identities", "next_seq"])
  {
    BeforeAtIs("contract", "contract_version", 8);
    BeforeAtIs("contract_version", "identities", 0);
    BeforeAtIs("identities", "next_seq", 0);
    hide ByteBefore;
  }

  lemma StorePlain()
    ensures PlainNames(["contract", "contract_version", "identities", "next_seq"])
  {
    assert PlainName("contract") && PlainName("contract_version") && PlainName("identities") && PlainName("next_seq");
    hide PlainName;
  }

  lemma StoreHas(s: Store)
    ensures var v := StoreJson(s);
            && v.Obj? && v.fields.Keys == STORE_KEYS && "contract" in v.fields && "contract_version" in v.fields && "next_seq" in v.fields
            && "identities" in v.fields && FieldText(v, "contract_version", "1")
  {
    StoreFields(s);
    ContractText();
    hide StoreJson, Decimal;
    NumberFieldText(StoreJson(s), "contract_version", 1);
  }

  lemma StoreListed()
    ensures NamesListed(["contract", "contract_version", "identities", "next_seq"], STORE_KEYS)
  {
  }

  // Which stores are written and read

  /** The fields that a grant of each scope carries; a seven-day grant lives 604800000 milliseconds. */
  ghost predicate GrantAdmitted(g: StoredGrant, key: string) {
    && g.id != "" && g.identity == key && g.domain != ""
    && (g.scope == Once ==> (g.remainingUses == 0 || g.remainingUses == 1) && g.expiresAt == 0 && g.sessionId == "")
    && (g.scope == Session ==> g.sessionId != "" && g.expiresAt == 0 && g.remainingUses == 0)
    && (g.scope == SevenDays ==> g.expiresAt - g.createdAt == 604800000 && g.sessionId == "" && g.remainingUses == 0)
    && (g.revoked || g.revokedAt == 0)
  }

  ghost predicate ExtraAdmitted(name: string, st: CapState) {
    (name == "clipboard-read-write" || name == "sensors" || name == "midi" || name == "pics") && (st == Deny || st == Ask)
  }

  ghost predicate RecordAdmitted(key: string, r: IdentityRecord) {
    && key != ""
    && (forall i | 0 <= i < |r.grants| :: GrantAdmitted(r.grants[i], key))
    && (forall x | x in r.extras :: ExtraAdmitted(x, r.extras[x]))
  }

  ghost predicate Admitted(s: Store) {
    && s.nextSeq >= 1
    && (forall k | k in s.identities :: RecordAdmitted(k, s.identities[k]))
    && (forall k, i, k', i' | k in s.identities && k' in s.identities && (k != k' || i != i')
                              && 0 <= i < |s.identities[k].grants| && 0 <= i' < |s.identities[k'].grants|
          :: s.identities[k].grants[i].id != s.identities[k'].grants[i'].id)
  }

  lemma RecordAdmittedIs(key: string, r: IdentityRecord)
    ensures RecordAdmitted(key, r) <==> key != "" && RecordOk(r, key)
  {
    forall g ensures GrantAdmitted(g, key) <==> GrantOk(g, key) { }
    forall x, st ensures ExtraAdmitted(x, st) <==> IsExtraCapability(x) && st != Allow { }
    hide GrantAdmitted, GrantOk, ExtraAdmitted, IsExtraCapability;
  }

  lemma AdmittedIs(s: Store)
    requires !s.corrupt
    ensures Admitted(s) <==> StoreOk(s)
  {
    forall k, r ensures RecordAdmitted(k, r) <==> k != "" && RecordOk(r, k) { RecordAdmittedIs(k, r); }
    hide RecordAdmitted, RecordOk;
  }

  /** A text loads as a store exactly when the store is admitted, its strings are UTF-8, its counter is an int64, and the text is its own. */
  lemma LoadedExactly(text: string, s: Store)
    requires !s.corrupt
    ensures LoadStore(text) == s <==> Admitted(s) && StoreUtf8(s) && s.nextSeq <= 0x7FFF_FFFF_FFFF_FFFF && text == Print(StoreJson(s))
  {
    AdmittedIs(s);
    StoreRoundTrip(s);
    hide LoadStore, Admitted, StoreOk, StoreUtf8, Print, StoreJson;
    if LoadStore(text) == s { LoadedIsCanonical(text); }
  }

  // A policy

  ghost function RouteWord(r: RouteClass): string { match r case Direct => "kDirect" case Proxy => "kProxy" case Wireguard => "kWireguard" case Tor => "kTor" }

  ghost function ModeWord(m: FingerprintMode): string { match m case Off => "kOff" case Reduce => "kReduce" case Strict => "kStrict" }

  ghost function PlaceWord(s: StorageScope): string {
    match s case Ephemeral => "kEphemeral" case IdentityScoped => "kIdentityScoped" case FortressPartition => "kFortressPartition"
  }

  ghost function StateWord(st: CapState): string { match st case Deny => "kDeny" case Ask => "kAsk" case Allow => "kAllow" }

  lemma WordsAre(r: RouteClass, m: FingerprintMode, s: StorageScope, st: CapState)
    ensures RouteName(r) == RouteWord(r) && ModeName(m) == ModeWord(m) && StorageName(s) == PlaceWord(s) && CapStateName(st) == StateWord(st)
  {
  }

  ghost predicate Under(v: Json, group: string, k: string, w: Json) {
    && v.Obj? && group in v.fields && v.fields[group].Obj?
    && k in v.fields[group].fields && v.fields[group].fields[k] == w
  }

  /** The groups of a policy that name a value, or guard one. */
  lemma PolicyWords(p: EffectivePolicy)
    ensures var v := ToJson(p);
            && Under(v, "version", "contract_version", Int(p.contractVersion))
            && Under(v, "egress", "route", Str(RouteWord(p.route))) && Under(v, "egress", "block_third_party", Bool(p.blockThirdParty))
            && Under(v, "fingerprint", "mode", Str(ModeWord(p.fingerprintMode)))
            && Under(v, "storage_scope", "scope", Str(PlaceWord(p.storageScope))) && Under(v, "storage_scope", "in_memory", Bool(p.inMemory))
  {
    RootHasGroups(p);
    VersionFields(p);
    EgressFields(p);
    FingerprintFields(p);
    StorageFields(p);
    WordsAre(p.route, p.fingerprintMode, p.storageScope, Deny);
    hide ToJson, VersionJson, EgressJson, FingerprintJson, StorageJson, BlockingJson, CosmeticJson, PermissionsJson, VaultJson, ProcessJson;
    hide RouteName, RouteWord, ModeName, ModeWord, StorageName, PlaceWord, CapStateName, StateWord;
  }

  lemma PolicyPermissions(p: EffectivePolicy)
    ensures var v := ToJson(p);
            && Under(v, "permissions", "camera", Str(StateWord(p.camera))) && Under(v, "permissions", "geolocation", Str(StateWord(p.geolocation)))
            && Under(v, "permissions", "microphone", Str(StateWord(p.microphone)))
            && Under(v, "permissions", "notifications", Str(StateWord(p.notifications)))
  {
    RootHasGroups(p);
    PermissionsFields(p);
    forall st ensures CapStateName(st) == StateWord(st) { WordsAre(Direct, Off, Ephemeral, st); }
    hide ToJson, VersionJson, EgressJson, FingerprintJson, StorageJson, BlockingJson, CosmeticJson, PermissionsJson, VaultJson, ProcessJson;
    hide CapStateName, StateWord;
  }

  lemma PolicyFlags(p: EffectivePolicy)
    ensures var v := ToJson(p);
            && Under(v, "blocking", "block_network_ads", Bool(p.blockNetworkAds)) && Under(v, "blocking", "block_trackers", Bool(p.blockTrackers))
            && Under(v, "blocking", "upgrade_to_https", Bool(p.upgradeToHttps))
            && Under(v, "cosmetic", "hide_cosmetic", Bool(p.hideCosmetic)) && Under(v, "cosmetic", "block_scriptlets", Bool(p.blockScriptlets))
  {
    RootHasGroups(p);
    BlockingFields(p);
    CosmeticFields(p);
    hide ToJson, VersionJson, EgressJson, FingerprintJson, StorageJson, BlockingJson, CosmeticJson, PermissionsJson, VaultJson, ProcessJson;
  }

  lemma PolicyGuards(p: EffectivePolicy)
    ensures var v := ToJson(p);
            && Under(v, "vault_scope", "autofill_allowed", Bool(p.autofillAllowed)) && Under(v, "vault_scope", "export_allowed", Bool(p.exportAllowed))
            && Under(v, "process_policy", "site_isolated", Bool(p.siteIsolated)) && Under(v, "process_policy", "dedicated_process", Bool(p.dedicatedProcess))
            && "letterbox" in v.fields && v.fields["letterbox"] == Bool(p.letterbox)
  {
    RootHasGroups(p);
    VaultFields(p);
    ProcessFields(p);
    hide ToJson, VersionJson, EgressJson, FingerprintJson, StorageJson, BlockingJson, CosmeticJson, PermissionsJson, VaultJson, ProcessJson;
  }

  // Snapshots

  /** Identity first, then site, then trust, each in byte order. */
  ghost predicate KeyBefore(a: Key, b: Key) {
    || ByteBefore(a.identity, b.identity)
    || (a.identity == b.identity && ByteBefore(a.site, b.site))
    || (a.identity == b.identity && a.site == b.site && ByteBefore(a.trust, b.trust))
  }

  lemma KeyLessIs(a: Key, b: Key)
    ensures KeyLess(a, b) <==> KeyBefore(a, b)
  {
    LessIsByteOrder(a.identity, b.identity);
    LessIsByteOrder(a.site, b.site);
    LessIsByteOrder(a.trust, b.trust);
    LessIsByteOrder(a.identity, a.identity);
    LessIsByteOrder(a.site, a.site);
    StringsAreOrdered();
    hide Less, ByteBefore;
  }

  ghost predicate InKeyOrder(es: seq<Entry>) { forall i, j | 0 <= i < j < |es| :: KeyBefore(es[i].key, es[j].key) }

  /** Sorting is the one arrangement of the entries in which their keys ascend. */
  lemma SortedExactly(es: seq<Entry>, s: seq<Entry>)
    requires DistinctKeys(es)
    ensures s == Sort(es) <==> multiset(s) == multiset(es) && InKeyOrder(s)
  {
    SortContents(es);
    SortAscends(es);
    forall a, b ensures KeyLess(a, b) <==> KeyBefore(a, b) { KeyLessIs(a, b); }
    hide KeyLess, KeyBefore, Sort;
    assert KeysAscend(s) <==> InKeyOrder(s);
    if multiset(s) == multiset(es) && KeysAscend(s) {
      SameListing(es, s);
      SameListing(es, Sort(es));
    }
  }

  lemma SameListing(es: seq<Entry>, s: seq<Entry>)
    requires DistinctKeys(es) && multiset(s) == multiset(es) && KeysAscend(s)
    ensures s == Listing(MapOf(es))
  {
    hide KeyLess, Listing;
    var m := MapOf(es);
    forall k | k in m ensures HasKey(s, k) {
      PutContents(map[], es, k);
      var i :| 0 <= i < |es| && es[i].key == k;
      assert es[i] in multiset(s);
      var j :| 0 <= j < |s| && s[j] == es[i];
    }
    forall i | 0 <= i < |s| ensures s[i].key in m && m[s[i].key] == s[i].policy {
      assert s[i] in multiset(es);
      var j :| 0 <= j < |es| && es[j] == s[i];
      PutDistinct(map[], es, s[i]);
    }
    AscendingIsListing(s, m);
  }

  /** A snapshot of either kind is cut when it is longer than 32768 bytes, and is its own text otherwise. */
  lemma BudgetIs(H: string -> string, n: nat, baseSeq: nat, base: seq<Entry>, es: seq<Entry>)
    ensures var full, diff := Print(FullJson(H, n, es)), Print(DiffJson(H, n, baseSeq, base, es));
            && EncodeFull(H, n, es) == (if |full| <= 32768 then Blob(full) else OverBudget)
            && EncodeDiff(H, n, baseSeq, base, es) == (if |diff| <= 32768 then Blob(diff) else OverBudget)
  {
    hide Print, FullJson, DiffJson;
  }
}
