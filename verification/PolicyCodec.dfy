/** EffectivePolicy version 1 as a document: ten groups, strict on every one of them. */
module PolicyCodec {
  import opened Wrappers
  import opened Order
  import opened Utf8
  import opened JsonValue
  import opened JsonRoundTrip
  import opened PermissionTypes
  import opened PermissionStore
  import opened PermissionProjection
  import opened PolicyTypes

  // Enumerations by name

  function RouteName(r: RouteClass): string {
    match r case Direct => "kDirect" case Proxy => "kProxy" case Wireguard => "kWireguard" case Tor => "kTor"
  }

  function ParseRoute(s: string): Option<RouteClass> {
    if s == "kDirect" then Some(Direct) else if s == "kProxy" then Some(Proxy)
    else if s == "kWireguard" then Some(Wireguard) else if s == "kTor" then Some(Tor) else None
  }

  function ModeName(m: FingerprintMode): string {
    match m case Off => "kOff" case Reduce => "kReduce" case Strict => "kStrict"
  }

  function ParseMode(s: string): Option<FingerprintMode> {
    if s == "kOff" then Some(Off) else if s == "kReduce" then Some(Reduce) else if s == "kStrict" then Some(Strict) else None
  }

  function StorageName(s: StorageScope): string {
    match s case Ephemeral => "kEphemeral" case IdentityScoped => "kIdentityScoped" case FortressPartition => "kFortressPartition"
  }

  function ParseStorage(s: string): Option<StorageScope> {
    if s == "kEphemeral" then Some(Ephemeral) else if s == "kIdentityScoped" then Some(IdentityScoped)
    else if s == "kFortressPartition" then Some(FortressPartition) else None
  }

  lemma EnumsRoundTrip(r: RouteClass, m: FingerprintMode, s: StorageScope, name: string)
    ensures ParseRoute(RouteName(r)) == Some(r) && ParseMode(ModeName(m)) == Some(m) && ParseStorage(StorageName(s)) == Some(s)
    ensures ParseRoute(name).Some? ==> RouteName(ParseRoute(name).value) == name
    ensures ParseMode(name).Some? ==> ModeName(ParseMode(name).value) == name
    ensures ParseStorage(name).Some? ==> StorageName(ParseStorage(name).value) == name
  {
  }

  lemma EnumsAscii(r: RouteClass, m: FingerprintMode, s: StorageScope)
    ensures Ascii(RouteName(r)) && Ascii(ModeName(m)) && Ascii(StorageName(s))
  {
  }

  /** A string field that names a value of an enumeration. */
  function GetEnum<T>(v: Json, key: string, parse: string -> Option<T>): Option<T> {
    match GetStr(v, key) case None => None case Some(s) => parse(s)
  }

  // The groups, written and read

  function VersionJson(p: EffectivePolicy): Json { Obj(map["contract_version" := Int(p.contractVersion)]) }

  function BlockingJson(p: EffectivePolicy): Json {
    Obj(map["block_network_ads" := Bool(p.blockNetworkAds), "block_trackers" := Bool(p.blockTrackers), "upgrade_to_https" := Bool(p.upgradeToHttps)])
  }

  function CosmeticJson(p: EffectivePolicy): Json {
    Obj(map["hide_cosmetic" := Bool(p.hideCosmetic), "block_scriptlets" := Bool(p.blockScriptlets)])
  }

  function PermissionsJson(p: EffectivePolicy): Json {
    Obj(map["geolocation" := Str(CapStateName(p.geolocation)), "camera" := Str(CapStateName(p.camera)),
            "microphone" := Str(CapStateName(p.microphone)), "notifications" := Str(CapStateName(p.notifications))])
  }

  function EgressJson(p: EffectivePolicy): Json {
    Obj(map["block_third_party" := Bool(p.blockThirdParty), "route" := Str(RouteName(p.route))])
  }

  function FingerprintJson(p: EffectivePolicy): Json { Obj(map["mode" := Str(ModeName(p.fingerprintMode))]) }

  function StorageJson(p: EffectivePolicy): Json {
    Obj(map["scope" := Str(StorageName(p.storageScope)), "in_memory" := Bool(p.inMemory)])
  }

  function VaultJson(p: EffectivePolicy): Json {
    Obj(map["autofill_allowed" := Bool(p.autofillAllowed), "export_allowed" := Bool(p.exportAllowed)])
  }

  function ProcessJson(p: EffectivePolicy): Json {
    Obj(map["site_isolated" := Bool(p.siteIsolated), "dedicated_process" := Bool(p.dedicatedProcess)])
  }

  function ToJson(p: EffectivePolicy): Json {
    Obj(map["version" := VersionJson(p), "blocking" := BlockingJson(p), "cosmetic" := CosmeticJson(p), "permissions" := PermissionsJson(p),
            "egress" := EgressJson(p), "fingerprint" := FingerprintJson(p), "storage_scope" := StorageJson(p), "vault_scope" := VaultJson(p),
            "process_policy" := ProcessJson(p), "letterbox" := Bool(p.letterbox)])
  }

  const ROOT_KEYS := {"version", "blocking", "cosmetic", "permissions", "egress", "fingerprint", "storage_scope", "vault_scope",
                      "process_policy", "letterbox"}

  // Each reader fills its fields of a policy, or gives up.

  function ReadVersion(v: Json, p: EffectivePolicy): Option<EffectivePolicy> {
    if KeysExactly(v, {"contract_version"}) && GetInt(v, "contract_version") == Some(1) then Some(p.(contractVersion := 1)) else None
  }

  function ReadBlocking(v: Json, p: EffectivePolicy): Option<EffectivePolicy> {
    if !KeysExactly(v, {"block_network_ads", "block_trackers", "upgrade_to_https"}) then None else
    match (GetBool(v, "block_network_ads"), GetBool(v, "block_trackers"), GetBool(v, "upgrade_to_https"))
    case (Some(a), Some(b), Some(c)) => Some(p.(blockNetworkAds := a, blockTrackers := b, upgradeToHttps := c))
    case _ => None
  }

  function ReadCosmetic(v: Json, p: EffectivePolicy): Option<EffectivePolicy> {
    if !KeysExactly(v, {"hide_cosmetic", "block_scriptlets"}) then None else
    match (GetBool(v, "hide_cosmetic"), GetBool(v, "block_scriptlets"))
    case (Some(a), Some(b)) => Some(p.(hideCosmetic := a, blockScriptlets := b))
    case _ => None
  }

  function ReadPermissions(v: Json, p: EffectivePolicy): Option<EffectivePolicy> {
    if !KeysExactly(v, {"geolocation", "camera", "microphone", "notifications"}) then None else
    match (GetEnum(v, "geolocation", ParseCapState), GetEnum(v, "camera", ParseCapState),
           GetEnum(v, "microphone", ParseCapState), GetEnum(v, "notifications", ParseCapState))
    case (Some(a), Some(b), Some(c), Some(d)) => Some(p.(geolocation := a, camera := b, microphone := c, notifications := d))
    case _ => None
  }

  function ReadEgress(v: Json, p: EffectivePolicy): Option<EffectivePolicy> {
    if !KeysExactly(v, {"block_third_party", "route"}) then None else
    match (GetBool(v, "block_third_party"), GetEnum(v, "route", ParseRoute))
    case (Some(a), Some(b)) => Some(p.(blockThirdParty := a, route := b))
    case _ => None
  }

  function ReadFingerprint(v: Json, p: EffectivePolicy): Option<EffectivePolicy> {
    if !KeysExactly(v, {"mode"}) then None else
    match GetEnum(v, "mode", ParseMode) case Some(a) => Some(p.(fingerprintMode := a)) case None => None
  }

  function ReadStorage(v: Json, p: EffectivePolicy): Option<EffectivePolicy> {
    if !KeysExactly(v, {"scope", "in_memory"}) then None else
    match (GetEnum(v, "scope", ParseStorage), GetBool(v, "in_memory"))
    case (Some(a), Some(b)) => Some(p.(storageScope := a, inMemory := b))
    case _ => None
  }

  /** An export that is allowed is a violation of the schema. */
  function ReadVault(v: Json, p: EffectivePolicy): Option<EffectivePolicy> {
    if !KeysExactly(v, {"autofill_allowed", "export_allowed"}) then None else
    match (GetBool(v, "autofill_allowed"), GetBool(v, "export_allowed"))
    case (Some(a), Some(b)) => if b then None else Some(p.(autofillAllowed := a, exportAllowed := b))
    case _ => None
  }

  function ReadProcess(v: Json, p: EffectivePolicy): Option<EffectivePolicy> {
    if !KeysExactly(v, {"site_isolated", "dedicated_process"}) then None else
    match (GetBool(v, "site_isolated"), GetBool(v, "dedicated_process"))
    case (Some(a), Some(b)) => Some(p.(siteIsolated := a, dedicatedProcess := b))
    case _ => None
  }

  /** The default-constructed policy, which denies. */
  const DENY_POLICY := EffectivePolicy(1, true, true, true, true, true, Deny, Deny, Deny, Deny, true, Direct, Strict, Ephemeral,
                                       true, false, false, true, true, true)

  function ReadGroups(o: map<string, Json>): Option<EffectivePolicy>
    requires o.Keys == ROOT_KEYS && o["letterbox"].Bool?
  {
    match ReadVersion(o["version"], DENY_POLICY.(letterbox := o["letterbox"].b)) case None => None case Some(p1) =>
    match ReadBlocking(o["blocking"], p1) case None => None case Some(p2) =>
    match ReadCosmetic(o["cosmetic"], p2) case None => None case Some(p3) =>
    match ReadPermissions(o["permissions"], p3) case None => None case Some(p4) => ReadRest(o, p4)
  }

  function ReadRest(o: map<string, Json>, p4: EffectivePolicy): Option<EffectivePolicy>
    requires o.Keys == ROOT_KEYS
  {
    match ReadEgress(o["egress"], p4) case None => None case Some(p5) =>
    match ReadFingerprint(o["fingerprint"], p5) case None => None case Some(p6) =>
    match ReadStorage(o["storage_scope"], p6) case None => None case Some(p7) =>
    match ReadVault(o["vault_scope"], p7) case None => None case Some(p8) =>
    ReadProcess(o["process_policy"], p8)
  }

  function FromJson(v: Json): Option<EffectivePolicy> {
    if !KeysExactly(v, ROOT_KEYS) || !v.fields["letterbox"].Bool? then None else ReadGroups(v.fields)
  }

  // Each group comes back as written, and is written back as read

  lemma VersionFields(p: EffectivePolicy)
    ensures var v := VersionJson(p); KeysExactly(v, {"contract_version"}) && v.fields["contract_version"] == Int(p.contractVersion)
  {
  }

  lemma VersionReads(p: EffectivePolicy, q: EffectivePolicy)
    ensures ReadVersion(VersionJson(p), q) == if p.contractVersion == 1 then Some(q.(contractVersion := p.contractVersion)) else None
  {
    VersionFields(p);
    hide VersionJson;
  }

  lemma VersionWrites(v: Json, q: EffectivePolicy)
    requires ReadVersion(v, q).Some?
    ensures var r := ReadVersion(v, q).value; v == VersionJson(r) && r == q.(contractVersion := r.contractVersion) && r.contractVersion == 1
  {
    var r := ReadVersion(v, q).value;
    VersionFields(r);
    hide VersionJson;
    SameFields(v, VersionJson(r), {"contract_version"});
  }

  lemma BlockingFields(p: EffectivePolicy)
    ensures var v := BlockingJson(p); KeysExactly(v, {"block_network_ads", "block_trackers", "upgrade_to_https"}) && v.fields["block_network_ads"] == Bool(p.blockNetworkAds) && v.fields["block_trackers"] == Bool(p.blockTrackers) && v.fields["upgrade_to_https"] == Bool(p.upgradeToHttps)
  {
  }

  lemma BlockingReads(p: EffectivePolicy, q: EffectivePolicy)
    ensures ReadBlocking(BlockingJson(p), q) == Some(q.(blockNetworkAds := p.blockNetworkAds, blockTrackers := p.blockTrackers, upgradeToHttps := p.upgradeToHttps))
  {
    BlockingFields(p);
    hide BlockingJson;
  }

  lemma BlockingWrites(v: Json, q: EffectivePolicy)
    requires ReadBlocking(v, q).Some?
    ensures var r := ReadBlocking(v, q).value; v == BlockingJson(r) && r == q.(blockNetworkAds := r.blockNetworkAds, blockTrackers := r.blockTrackers, upgradeToHttps := r.upgradeToHttps)
  {
    var r := ReadBlocking(v, q).value;
    BlockingFields(r);
    hide BlockingJson;
    SameFields(v, BlockingJson(r), {"block_network_ads", "block_trackers", "upgrade_to_https"});
  }

  lemma CosmeticFields(p: EffectivePolicy)
    ensures var v := CosmeticJson(p); KeysExactly(v, {"hide_cosmetic", "block_scriptlets"}) && v.fields["hide_cosmetic"] == Bool(p.hideCosmetic) && v.fields["block_scriptlets"] == Bool(p.blockScriptlets)
  {
  }

  lemma CosmeticReads(p: EffectivePolicy, q: EffectivePolicy)
    ensures ReadCosmetic(CosmeticJson(p), q) == Some(q.(hideCosmetic := p.hideCosmetic, blockScriptlets := p.blockScriptlets))
  {
    CosmeticFields(p);
    hide CosmeticJson;
  }

  lemma CosmeticWrites(v: Json, q: EffectivePolicy)
    requires ReadCosmetic(v, q).Some?
    ensures var r := ReadCosmetic(v, q).value; v == CosmeticJson(r) && r == q.(hideCosmetic := r.hideCosmetic, blockScriptlets := r.blockScriptlets)
  {
    var r := ReadCosmetic(v, q).value;
    CosmeticFields(r);
    hide CosmeticJson;
    SameFields(v, CosmeticJson(r), {"hide_cosmetic", "block_scriptlets"});
  }

  lemma EgressFields(p: EffectivePolicy)
    ensures var v := EgressJson(p); KeysExactly(v, {"block_third_party", "route"}) && v.fields["block_third_party"] == Bool(p.blockThirdParty) && v.fields["route"] == Str(RouteName(p.route))
  {
    hide RouteName, ParseRoute;
  }

  lemma EgressReads(p: EffectivePolicy, q: EffectivePolicy)
    ensures ReadEgress(EgressJson(p), q) == Some(q.(blockThirdParty := p.blockThirdParty, route := p.route))
  {
    EgressFields(p);
    EnumsRoundTrip(p.route, p.fingerprintMode, p.storageScope, "");
    hide EgressJson, RouteName, ParseRoute;
  }

  lemma EgressWrites(v: Json, q: EffectivePolicy)
    requires ReadEgress(v, q).Some?
    ensures var r := ReadEgress(v, q).value; v == EgressJson(r) && r == q.(blockThirdParty := r.blockThirdParty, route := r.route)
  {
    var r := ReadEgress(v, q).value;
    EgressFields(r);
    EnumsRoundTrip(r.route, r.fingerprintMode, r.storageScope, v.fields["route"].s);
    hide EgressJson, RouteName, ParseRoute;
    SameFields(v, EgressJson(r), {"block_third_party", "route"});
  }

  lemma FingerprintFields(p: EffectivePolicy)
    ensures var v := FingerprintJson(p); KeysExactly(v, {"mode"}) && v.fields["mode"] == Str(ModeName(p.fingerprintMode))
  {
    hide ModeName, ParseMode;
  }

  lemma FingerprintReads(p: EffectivePolicy, q: EffectivePolicy)
    ensures ReadFingerprint(FingerprintJson(p), q) == Some(q.(fingerprintMode := p.fingerprintMode))
  {
    FingerprintFields(p);
    EnumsRoundTrip(p.route, p.fingerprintMode, p.storageScope, "");
    hide FingerprintJson, ModeName, ParseMode;
  }

  lemma FingerprintWrites(v: Json, q: EffectivePolicy)
    requires ReadFingerprint(v, q).Some?
    ensures var r := ReadFingerprint(v, q).value; v == FingerprintJson(r) && r == q.(fingerprintMode := r.fingerprintMode)
  {
    var r := ReadFingerprint(v, q).value;
    FingerprintFields(r);
    EnumsRoundTrip(r.route, r.fingerprintMode, r.storageScope, v.fields["mode"].s);
    hide FingerprintJson, ModeName, ParseMode;
    SameFields(v, FingerprintJson(r), {"mode"});
  }

  lemma StorageFields(p: EffectivePolicy)
    ensures var v := StorageJson(p); KeysExactly(v, {"scope", "in_memory"}) && v.fields["scope"] == Str(StorageName(p.storageScope)) && v.fields["in_memory"] == Bool(p.inMemory)
  {
    hide StorageName, ParseStorage;
  }

  lemma StorageReads(p: EffectivePolicy, q: EffectivePolicy)
    ensures ReadStorage(StorageJson(p), q) == Some(q.(storageScope := p.storageScope, inMemory := p.inMemory))
  {
    StorageFields(p);
    EnumsRoundTrip(p.route, p.fingerprintMode, p.storageScope, "");
    hide StorageJson, StorageName, ParseStorage;
  }

  lemma StorageWrites(v: Json, q: EffectivePolicy)
    requires ReadStorage(v, q).Some?
    ensures var r := ReadStorage(v, q).value; v == StorageJson(r) && r == q.(storageScope := r.storageScope, inMemory := r.inMemory)
  {
    var r := ReadStorage(v, q).value;
    StorageFields(r);
    EnumsRoundTrip(r.route, r.fingerprintMode, r.storageScope, v.fields["scope"].s);
    hide StorageJson, StorageName, ParseStorage;
    SameFields(v, StorageJson(r), {"scope", "in_memory"});
  }

  lemma VaultFields(p: EffectivePolicy)
    ensures var v := VaultJson(p); KeysExactly(v, {"autofill_allowed", "export_allowed"}) && v.fields["autofill_allowed"] == Bool(p.autofillAllowed) && v.fields["export_allowed"] == Bool(p.exportAllowed)
  {
  }

  lemma VaultReads(p: EffectivePolicy, q: EffectivePolicy)
    ensures ReadVault(VaultJson(p), q) == if !p.exportAllowed then Some(q.(autofillAllowed := p.autofillAllowed, exportAllowed := p.exportAllowed)) else None
  {
    VaultFields(p);
    hide VaultJson;
  }

  lemma VaultWrites(v: Json, q: EffectivePolicy)
    requires ReadVault(v, q).Some?
    ensures var r := ReadVault(v, q).value; v == VaultJson(r) && r == q.(autofillAllowed := r.autofillAllowed, exportAllowed := r.exportAllowed) && !r.exportAllowed
  {
    var r := ReadVault(v, q).value;
    VaultFields(r);
    hide VaultJson;
    SameFields(v, VaultJson(r), {"autofill_allowed", "export_allowed"});
  }

  lemma ProcessFields(p: EffectivePolicy)
    ensures var v := ProcessJson(p); KeysExactly(v, {"site_isolated", "dedicated_process"}) && v.fields["site_isolated"] == Bool(p.siteIsolated) && v.fields["dedicated_process"] == Bool(p.dedicatedProcess)
  {
  }

  lemma ProcessReads(p: EffectivePolicy, q: EffectivePolicy)
    ensures ReadProcess(ProcessJson(p), q) == Some(q.(siteIsolated := p.siteIsolated, dedicatedProcess := p.dedicatedProcess))
  {
    ProcessFields(p);
    hide ProcessJson;
  }

  lemma ProcessWrites(v: Json, q: EffectivePolicy)
    requires ReadProcess(v, q).Some?
    ensures var r := ReadProcess(v, q).value; v == ProcessJson(r) && r == q.(siteIsolated := r.siteIsolated, dedicatedProcess := r.dedicatedProcess)
  {
    var r := ReadProcess(v, q).value;
    ProcessFields(r);
    hide ProcessJson;
    SameFields(v, ProcessJson(r), {"site_isolated", "dedicated_process"});
  }

  lemma PermissionsFields(p: EffectivePolicy)
    ensures var v := PermissionsJson(p);
            KeysExactly(v, {"geolocation", "camera", "microphone", "notifications"})
            && v.fields["geolocation"] == Str(CapStateName(p.geolocation)) && v.fields["camera"] == Str(CapStateName(p.camera))
            && v.fields["microphone"] == Str(CapStateName(p.microphone)) && v.fields["notifications"] == Str(CapStateName(p.notifications))
  {
    hide CapStateName;
  }

  lemma PermissionsReads(p: EffectivePolicy, q: EffectivePolicy)
    ensures ReadPermissions(PermissionsJson(p), q)
            == Some(q.(geolocation := p.geolocation, camera := p.camera, microphone := p.microphone, notifications := p.notifications))
  {
    NamesRoundTrip(p.geolocation, Camera, Once, "");
    NamesRoundTrip(p.camera, Camera, Once, "");
    NamesRoundTrip(p.microphone, Camera, Once, "");
    NamesRoundTrip(p.notifications, Camera, Once, "");
    hide CapStateName, ParseCapState;
  }

  lemma PermissionsWrites(v: Json, q: EffectivePolicy)
    requires ReadPermissions(v, q).Some?
    ensures var r := ReadPermissions(v, q).value;
            && v == PermissionsJson(r)
            && r == q.(geolocation := r.geolocation, camera := r.camera, microphone := r.microphone, notifications := r.notifications)
  {
    var keys := {"geolocation", "camera", "microphone", "notifications"};
    forall k | k in keys ensures v.fields[k] == Str(CapStateName(ParseCapState(v.fields[k].s).value)) {
      NamesRoundTrip(Deny, Camera, Once, v.fields[k].s);
    }
    hide CapStateName, ParseCapState;
    SameFields(v, PermissionsJson(ReadPermissions(v, q).value), keys);
  }

  // The whole policy

  /** What version 1 of the schema admits. */
  predicate Wire(p: EffectivePolicy) { p.contractVersion == 1 && !p.exportAllowed }

  /** The ten fields of a root object are those of the document of `p`. */
  ghost predicate HasGroups(o: map<string, Json>, p: EffectivePolicy) {
    && o.Keys == ROOT_KEYS
    && o["version"] == VersionJson(p) && o["blocking"] == BlockingJson(p) && o["cosmetic"] == CosmeticJson(p)
    && o["permissions"] == PermissionsJson(p) && o["egress"] == EgressJson(p) && o["fingerprint"] == FingerprintJson(p)
    && o["storage_scope"] == StorageJson(p) && o["vault_scope"] == VaultJson(p) && o["process_policy"] == ProcessJson(p)
    && o["letterbox"] == Bool(p.letterbox)
  }

  lemma RootHasGroups(p: EffectivePolicy)
    ensures ToJson(p).Obj? && HasGroups(ToJson(p).fields, p)
  {
    hide VersionJson, BlockingJson, CosmeticJson, PermissionsJson, EgressJson, FingerprintJson, StorageJson, VaultJson, ProcessJson;
  }

  lemma GroupsDetermine(a: map<string, Json>, b: map<string, Json>, p: EffectivePolicy)
    requires HasGroups(a, p) && HasGroups(b, p)
    ensures a == b
  {
    hide VersionJson, BlockingJson, CosmeticJson, PermissionsJson, EgressJson, FingerprintJson, StorageJson, VaultJson, ProcessJson;
    forall k | k in ROOT_KEYS ensures a[k] == b[k] { }
  }

  lemma GroupsRead(o: map<string, Json>, p: EffectivePolicy)
    requires HasGroups(o, p)
    ensures ReadGroups(o) == if Wire(p) then Some(p) else None
  {
    hide VersionJson, BlockingJson, CosmeticJson, PermissionsJson, EgressJson, FingerprintJson, StorageJson, VaultJson, ProcessJson,
         ReadVersion, ReadBlocking, ReadCosmetic, ReadPermissions, ReadRest;
    var q := DENY_POLICY.(letterbox := p.letterbox);
    VersionReads(p, q);
    var q1 := q.(contractVersion := p.contractVersion);
    BlockingReads(p, q1);
    var q2 := q1.(blockNetworkAds := p.blockNetworkAds, blockTrackers := p.blockTrackers, upgradeToHttps := p.upgradeToHttps);
    CosmeticReads(p, q2);
    var q3 := q2.(hideCosmetic := p.hideCosmetic, blockScriptlets := p.blockScriptlets);
    PermissionsReads(p, q3);
    RestRead(o, p, q3.(geolocation := p.geolocation, camera := p.camera, microphone := p.microphone, notifications := p.notifications));
  }

  lemma RestRead(o: map<string, Json>, p: EffectivePolicy, q4: EffectivePolicy)
    requires HasGroups(o, p)
    ensures ReadRest(o, q4) == if p.exportAllowed then None else
              Some(q4.(blockThirdParty := p.blockThirdParty, route := p.route, fingerprintMode := p.fingerprintMode, storageScope := p.storageScope,
                       inMemory := p.inMemory, autofillAllowed := p.autofillAllowed, exportAllowed := p.exportAllowed,
                       siteIsolated := p.siteIsolated, dedicatedProcess := p.dedicatedProcess))
  {
    hide VersionJson, BlockingJson, CosmeticJson, PermissionsJson, EgressJson, FingerprintJson, StorageJson, VaultJson, ProcessJson,
         ReadEgress, ReadFingerprint, ReadStorage, ReadVault, ReadProcess;
    EgressReads(p, q4);
    var q5 := q4.(blockThirdParty := p.blockThirdParty, route := p.route);
    FingerprintReads(p, q5);
    var q6 := q5.(fingerprintMode := p.fingerprintMode);
    StorageReads(p, q6);
    var q7 := q6.(storageScope := p.storageScope, inMemory := p.inMemory);
    VaultReads(p, q7);
    ProcessReads(p, q7.(autofillAllowed := p.autofillAllowed, exportAllowed := p.exportAllowed));
  }

  /** A policy comes back from its document exactly when the schema admits it. */
  lemma PolicyRoundTrip(p: EffectivePolicy)
    ensures FromJson(ToJson(p)) == if Wire(p) then Some(p) else None
  {
    hide *;
    RootHasGroups(p);
    GroupsRead(ToJson(p).fields, p);
    FromGroups(ToJson(p), p);
  }

  lemma FromGroups(v: Json, p: EffectivePolicy)
    requires v.Obj? && HasGroups(v.fields, p)
    ensures FromJson(v) == ReadGroups(v.fields)
  {
    hide ReadGroups, VersionJson, BlockingJson, CosmeticJson, PermissionsJson, EgressJson, FingerprintJson, StorageJson, VaultJson, ProcessJson;
  }

  /** Only the document of an admitted policy reads as one, so the schema has one document per policy. */
  lemma PolicyIsCanonical(v: Json)
    requires FromJson(v).Some?
    ensures Wire(FromJson(v).value) && ToJson(FromJson(v).value) == v
  {
    ToGroups(v);
    var p := FromJson(v).value;
    hide *;
    RootHasGroups(p);
    GroupsDetermine(v.fields, ToJson(p).fields, p);
  }

  lemma ToGroups(v: Json)
    requires FromJson(v).Some?
    ensures v.Obj? && HasGroups(v.fields, FromJson(v).value) && Wire(FromJson(v).value)
  {
    GroupsWritten(v.fields);
    hide ReadGroups;
  }

  lemma GroupsWritten(o: map<string, Json>)
    requires o.Keys == ROOT_KEYS && o["letterbox"].Bool? && ReadGroups(o).Some?
    ensures Wire(ReadGroups(o).value) && HasGroups(o, ReadGroups(o).value)
  {
    hide VersionJson, BlockingJson, CosmeticJson, PermissionsJson, EgressJson, FingerprintJson, StorageJson, VaultJson, ProcessJson, ToJson,
         ReadVersion, ReadBlocking, ReadCosmetic, ReadPermissions, ReadEgress, ReadFingerprint, ReadStorage, ReadVault, ReadProcess;
    var p := ReadGroups(o).value;
    var p0 := DENY_POLICY.(letterbox := o["letterbox"].b);
    VersionWrites(o["version"], p0);
    var p1 := ReadVersion(o["version"], p0).value;
    BlockingWrites(o["blocking"], p1);
    var p2 := ReadBlocking(o["blocking"], p1).value;
    CosmeticWrites(o["cosmetic"], p2);
    var p3 := ReadCosmetic(o["cosmetic"], p2).value;
    PermissionsWrites(o["permissions"], p3);
    var p4 := ReadPermissions(o["permissions"], p3).value;
    EgressWrites(o["egress"], p4);
    var p5 := ReadEgress(o["egress"], p4).value;
    FingerprintWrites(o["fingerprint"], p5);
    var p6 := ReadFingerprint(o["fingerprint"], p5).value;
    StorageWrites(o["storage_scope"], p6);
    var p7 := ReadStorage(o["storage_scope"], p6).value;
    VaultWrites(o["vault_scope"], p7);
    var p8 := ReadVault(o["vault_scope"], p7).value;
    ProcessWrites(o["process_policy"], p8);
    SameGroups(p1, p);
    SameGroups(p2, p);
    SameGroups(p3, p);
    SameGroups(p4, p);
    SameGroups(p5, p);
    SameGroups(p6, p);
    SameGroups(p7, p);
    SameGroups(p8, p);
  }

  /** A group of a document depends on its own fields only. */
  lemma SameGroups(p: EffectivePolicy, q: EffectivePolicy)
    ensures p.contractVersion == q.contractVersion ==> VersionJson(p) == VersionJson(q)
    ensures p.blockNetworkAds == q.blockNetworkAds && p.blockTrackers == q.blockTrackers && p.upgradeToHttps == q.upgradeToHttps ==> BlockingJson(p) == BlockingJson(q)
    ensures p.hideCosmetic == q.hideCosmetic && p.blockScriptlets == q.blockScriptlets ==> CosmeticJson(p) == CosmeticJson(q)
    ensures p.geolocation == q.geolocation && p.camera == q.camera && p.microphone == q.microphone && p.notifications == q.notifications ==> PermissionsJson(p) == PermissionsJson(q)
    ensures p.blockThirdParty == q.blockThirdParty && p.route == q.route ==> EgressJson(p) == EgressJson(q)
    ensures p.fingerprintMode == q.fingerprintMode ==> FingerprintJson(p) == FingerprintJson(q)
    ensures p.storageScope == q.storageScope && p.inMemory == q.inMemory ==> StorageJson(p) == StorageJson(q)
    ensures p.autofillAllowed == q.autofillAllowed && p.exportAllowed == q.exportAllowed ==> VaultJson(p) == VaultJson(q)
  {
  }

  // Its text

  predicate Plain(v: Json) { (v.Str? && Ascii(v.s)) || v.Int? || v.Bool? }

  lemma GroupClean(v: Json)
    requires v.Obj? && forall k | k in v.fields :: Ascii(k) && Plain(v.fields[k])
    ensures Clean(v, 1)
  {
    hide Valid, Clean, Ascii;
    forall k | k in v.fields ensures Valid(k) && Clean(v.fields[k], 0) {
      AsciiUtf8(k);
      if v.fields[k].Str? { AsciiUtf8(v.fields[k].s); }
      ScalarClean(v.fields[k], 0);
    }
    ObjectClean(v, 1);
  }

  lemma GroupKeysAscii1(k: string)
    requires k in {"contract_version", "block_network_ads", "block_trackers", "upgrade_to_https", "hide_cosmetic"}
    ensures Ascii(k)
  {
  }

  lemma GroupKeysAscii2(k: string)
    requires k in {"block_scriptlets", "geolocation", "camera", "microphone", "notifications"}
    ensures Ascii(k)
  {
  }

  lemma GroupKeysAscii3(k: string)
    requires k in {"block_third_party", "route", "mode", "scope", "in_memory"}
    ensures Ascii(k)
  {
  }

  lemma GroupKeysAscii4(k: string)
    requires k in {"autofill_allowed", "export_allowed", "site_isolated", "dedicated_process"}
    ensures Ascii(k)
  {
  }

  lemma GroupKeysAscii(k: string)
    requires k in {"contract_version", "block_network_ads", "block_trackers", "upgrade_to_https", "hide_cosmetic"} || k in {"block_scriptlets", "geolocation", "camera", "microphone", "notifications"} || k in {"block_third_party", "route", "mode", "scope", "in_memory"} || k in {"autofill_allowed", "export_allowed", "site_isolated", "dedicated_process"}
    ensures Ascii(k)
  {
    hide Ascii;
    if k in {"contract_version", "block_network_ads", "block_trackers", "upgrade_to_https", "hide_cosmetic"} { GroupKeysAscii1(k); }
    if k in {"block_scriptlets", "geolocation", "camera", "microphone", "notifications"} { GroupKeysAscii2(k); }
    if k in {"block_third_party", "route", "mode", "scope", "in_memory"} { GroupKeysAscii3(k); }
    if k in {"autofill_allowed", "export_allowed", "site_isolated", "dedicated_process"} { GroupKeysAscii4(k); }
  }

  lemma StateAscii(st: CapState)
    ensures Ascii(CapStateName(st))
  {
  }

  lemma VersionClean(p: EffectivePolicy)
    ensures Clean(VersionJson(p), 1)
  {
    VersionFields(p);
    hide Clean, Ascii, VersionJson;
    var v := VersionJson(p);
    forall k | k in v.fields ensures Ascii(k) && Plain(v.fields[k]) { GroupKeysAscii(k); }
    GroupClean(v);
  }

  lemma BlockingClean(p: EffectivePolicy)
    ensures Clean(BlockingJson(p), 1)
  {
    BlockingFields(p);
    hide Clean, Ascii, BlockingJson;
    var v := BlockingJson(p);
    forall k | k in v.fields ensures Ascii(k) && Plain(v.fields[k]) { GroupKeysAscii(k); }
    GroupClean(v);
  }

  lemma CosmeticClean(p: EffectivePolicy)
    ensures Clean(CosmeticJson(p), 1)
  {
    CosmeticFields(p);
    hide Clean, Ascii, CosmeticJson;
    var v := CosmeticJson(p);
    forall k | k in v.fields ensures Ascii(k) && Plain(v.fields[k]) { GroupKeysAscii(k); }
    GroupClean(v);
  }

  lemma PermissionsClean(p: EffectivePolicy)
    ensures Clean(PermissionsJson(p), 1)
  {
    PermissionsFields(p);
    StateAscii(p.geolocation);
    StateAscii(p.camera);
    StateAscii(p.microphone);
    StateAscii(p.notifications);
    hide Clean, Ascii, PermissionsJson, CapStateName;
    var v := PermissionsJson(p);
    forall k | k in v.fields ensures Ascii(k) && Plain(v.fields[k]) { GroupKeysAscii(k); }
    GroupClean(v);
  }

  lemma EgressClean(p: EffectivePolicy)
    ensures Clean(EgressJson(p), 1)
  {
    EgressFields(p);
    EnumsAscii(p.route, p.fingerprintMode, p.storageScope);
    hide Clean, Ascii, EgressJson, RouteName;
    var v := EgressJson(p);
    forall k | k in v.fields ensures Ascii(k) && Plain(v.fields[k]) { GroupKeysAscii(k); }
    GroupClean(v);
  }

  lemma FingerprintClean(p: EffectivePolicy)
    ensures Clean(FingerprintJson(p), 1)
  {
    FingerprintFields(p);
    EnumsAscii(p.route, p.fingerprintMode, p.storageScope);
    hide Clean, Ascii, FingerprintJson, ModeName;
    var v := FingerprintJson(p);
    forall k | k in v.fields ensures Ascii(k) && Plain(v.fields[k]) { GroupKeysAscii(k); }
    GroupClean(v);
  }

  lemma StorageClean(p: EffectivePolicy)
    ensures Clean(StorageJson(p), 1)
  {
    StorageFields(p);
    EnumsAscii(p.route, p.fingerprintMode, p.storageScope);
    hide Clean, Ascii, StorageJson, StorageName;
    var v := StorageJson(p);
    forall k | k in v.fields ensures Ascii(k) && Plain(v.fields[k]) { GroupKeysAscii(k); }
    GroupClean(v);
  }

  lemma VaultClean(p: EffectivePolicy)
    ensures Clean(VaultJson(p), 1)
  {
    VaultFields(p);
    hide Clean, Ascii, VaultJson;
    var v := VaultJson(p);
    forall k | k in v.fields ensures Ascii(k) && Plain(v.fields[k]) { GroupKeysAscii(k); }
    GroupClean(v);
  }

  lemma ProcessClean(p: EffectivePolicy)
    ensures Clean(ProcessJson(p), 1)
  {
    ProcessFields(p);
    hide Clean, Ascii, ProcessJson;
    var v := ProcessJson(p);
    forall k | k in v.fields ensures Ascii(k) && Plain(v.fields[k]) { GroupKeysAscii(k); }
    GroupClean(v);
  }

  lemma RootKeysUtf8(k: string)
    requires k in ROOT_KEYS
    ensures Valid(k)
  {
    RootKeysAscii(k);
    AsciiUtf8(k);
  }

  lemma RootKeysAscii(k: string)
    requires k in ROOT_KEYS
    ensures Ascii(k)
  {
  }

  lemma PolicyClean(p: EffectivePolicy)
    ensures Clean(ToJson(p), 2)
  {
    RootHasGroups(p);
    VersionClean(p);
    BlockingClean(p);
    CosmeticClean(p);
    PermissionsClean(p);
    EgressClean(p);
    FingerprintClean(p);
    StorageClean(p);
    VaultClean(p);
    ProcessClean(p);
    var v := ToJson(p);
    hide Valid, Clean, VersionJson, BlockingJson, CosmeticJson, PermissionsJson, EgressJson, FingerprintJson, StorageJson, VaultJson, ProcessJson, ToJson;
    forall k | k in v.fields ensures Valid(k) && Clean(v.fields[k], 1) {
      RootKeysUtf8(k);
      if k == "letterbox" { ScalarClean(v.fields[k], 1); }
    }
    ObjectClean(v, 2);
  }

  // Documents of any policies

  /** The policy with the two fields set that the schema fixes. */
  function Admitted(p: EffectivePolicy): EffectivePolicy { p.(contractVersion := 1, exportAllowed := false) }

  lemma AdmittedGroups(o: map<string, Json>, p: EffectivePolicy)
    requires HasGroups(o, p)
    ensures HasGroups(o["version" := VersionJson(Admitted(p))]["vault_scope" := VaultJson(Admitted(p))], Admitted(p))
  {
    AdmittedSame(p);
    hide VersionJson, BlockingJson, CosmeticJson, PermissionsJson, EgressJson, FingerprintJson, StorageJson, VaultJson, ProcessJson, Admitted;
    AdmittedBox(p);
  }

  lemma AdmittedBox(p: EffectivePolicy)
    ensures Admitted(p).letterbox == p.letterbox
  {
  }

  lemma AdmittedSame(p: EffectivePolicy)
    ensures var a := Admitted(p);
            && BlockingJson(a) == BlockingJson(p) && CosmeticJson(a) == CosmeticJson(p) && PermissionsJson(a) == PermissionsJson(p)
            && EgressJson(a) == EgressJson(p) && FingerprintJson(a) == FingerprintJson(p) && StorageJson(a) == StorageJson(p)
            && ProcessJson(a) == ProcessJson(p)
  {
    hide CapStateName, RouteName, ModeName, StorageName;
  }

  lemma FixedFields(p: EffectivePolicy, q: EffectivePolicy)
    requires VersionJson(p) == VersionJson(q) && VaultJson(p) == VaultJson(q)
    ensures p.contractVersion == q.contractVersion && p.exportAllowed == q.exportAllowed
    ensures VersionJson(Admitted(p)) == VersionJson(Admitted(q)) && VaultJson(Admitted(p)) == VaultJson(Admitted(q))
  {
    assert VersionJson(p).fields["contract_version"] == VersionJson(q).fields["contract_version"];
    VaultFields(p);
    VaultFields(q);
    assert VaultJson(p).fields["autofill_allowed"] == VaultJson(q).fields["autofill_allowed"];
    assert VaultJson(p).fields["export_allowed"] == VaultJson(q).fields["export_allowed"];
  }

  lemma AdmittedBack(p: EffectivePolicy, q: EffectivePolicy)
    requires p.contractVersion == q.contractVersion && p.exportAllowed == q.exportAllowed && Admitted(p) == Admitted(q)
    ensures p == q
  {
  }

  /** Different policies have different documents, even those that the schema does not admit. */
  lemma ToJsonInjective(p: EffectivePolicy, q: EffectivePolicy)
    requires ToJson(p) == ToJson(q)
    ensures p == q
  {
    RootHasGroups(p);
    RootHasGroups(q);
    hide ToJson, VersionJson, BlockingJson, CosmeticJson, PermissionsJson, EgressJson, FingerprintJson, StorageJson, VaultJson, ProcessJson, ReadGroups, Admitted;
    var o := ToJson(p).fields;
    FixedFields(p, q);
    AdmittedGroups(o, p);
    AdmittedGroups(o, q);
    var o' := o["version" := VersionJson(Admitted(p))]["vault_scope" := VaultJson(Admitted(p))];
    GroupsRead(o', Admitted(p));
    GroupsRead(o', Admitted(q));
    AdmittedIsWire(p);
    AdmittedIsWire(q);
    AdmittedBack(p, q);
  }

  lemma AdmittedIsWire(p: EffectivePolicy)
    ensures Wire(Admitted(p))
  {
  }
}
