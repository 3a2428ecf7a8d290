/** The vocabulary of the permission overlay: names that are parsed strictly, grants, identities, stores, audit rows. */
module PermissionTypes {
  import opened Wrappers
  import opened Order

  datatype CapState = Deny | Ask | Allow
  datatype Capability = Geolocation | Camera | Microphone | Notifications
  datatype Scope = Once | Session | SevenDays

  const SEVEN_DAYS_MILLIS: int := 604800000
  const CAPABILITIES: set<Capability> := {Geolocation, Camera, Microphone, Notifications}

  function CapStateName(s: CapState): string {
    match s case Deny => "kDeny" case Ask => "kAsk" case Allow => "kAllow"
  }

  function ParseCapState(s: string): Option<CapState> {
    if s == "kDeny" then Some(Deny) else if s == "kAsk" then Some(Ask) else if s == "kAllow" then Some(Allow) else None
  }

  function CapabilityName(c: Capability): string {
    match c
    case Geolocation => "geolocation"
    case Camera => "camera"
    case Microphone => "microphone"
    case Notifications => "notifications"
  }

  function ParseCapability(s: string): Option<Capability> {
    if s == "geolocation" then Some(Geolocation)
    else if s == "camera" then Some(Camera)
    else if s == "microphone" then Some(Microphone)
    else if s == "notifications" then Some(Notifications)
    else None
  }

  function ScopeName(s: Scope): string {
    match s case Once => "once" case Session => "session" case SevenDays => "7d"
  }

  function ParseScope(s: string): Option<Scope> {
    if s == "once" then Some(Once) else if s == "session" then Some(Session) else if s == "7d" then Some(SevenDays) else None
  }

  predicate IsExtraCapability(name: string) {
    name == "clipboard-read-write" || name == "sensors" || name == "midi" || name == "pics"
  }

  /** Extras are recorded as deny or ask; an allow is refused. */
  function ParseExtraState(s: string): Option<CapState> {
    if s == "kDeny" then Some(Deny) else if s == "kAsk" then Some(Ask) else None
  }

  /** The name tables are inverse to their parsers, in both directions. */
  lemma NamesRoundTrip(st: CapState, c: Capability, sc: Scope, name: string)
    ensures ParseCapState(CapStateName(st)) == Some(st)
    ensures ParseCapability(CapabilityName(c)) == Some(c)
    ensures ParseScope(ScopeName(sc)) == Some(sc)
    ensures ParseCapState(name).Some? ==> CapStateName(ParseCapState(name).value) == name
    ensures ParseCapability(name).Some? ==> CapabilityName(ParseCapability(name).value) == name
    ensures ParseScope(name).Some? ==> ScopeName(ParseScope(name).value) == name
    ensures ParseExtraState(name).Some? <==> ParseCapState(name).Some? && ParseCapState(name) != Some(Allow)
    ensures ParseExtraState(name).Some? ==> ParseExtraState(name) == ParseCapState(name)
  {
  }

  datatype StoredGrant = StoredGrant(
    id: string,
    identity: string,
    domain: string,
    capability: Capability,
    scope: Scope,
    createdAt: int64,
    expiresAt: int64,
    sessionId: string,
    remainingUses: int64,
    revoked: bool,
    revokedAt: int64)

  datatype IdentityRecord = IdentityRecord(
    defaults: map<Capability, CapState>,
    extras: map<string, CapState>,
    denied: bool,
    grants: seq<StoredGrant>)

  datatype Store = Store(corrupt: bool, nextSeq: nat, identities: map<string, IdentityRecord>)

  const NO_RECORD := IdentityRecord(map[], map[], false, [])
  const EMPTY_STORE := Store(false, 1, map[])
  /** What a document that fails to load reads as. */
  const BAD_STORE := Store(true, 1, map[])

  datatype AuditEvent = Grant | Revoke | Expiry
  datatype DecidingLayer = IdentityOverlay | GlobalFallback

  datatype AuditRow = AuditRow(
    event: AuditEvent,
    identity: string,
    capability: Capability,
    origin: string,
    scope: string,
    ts: int64,
    ttl: int,
    reason: string,
    layer: DecidingLayer)

  // Well-formed stores

  /** Each scope admits its own field and no other; the lifetime of a seven-day grant is fixed. */
  predicate GrantOk(g: StoredGrant, key: string) {
    && g.id != "" && g.identity == key && g.domain != ""
    && (match g.scope
        case Once => g.expiresAt == 0 && g.sessionId == "" && 0 <= g.remainingUses <= 1
        case Session => g.expiresAt == 0 && g.remainingUses == 0 && g.sessionId != ""
        case SevenDays => g.remainingUses == 0 && g.sessionId == "" && g.expiresAt == g.createdAt + SEVEN_DAYS_MILLIS)
    && (!g.revoked ==> g.revokedAt == 0)
  }

  ghost predicate RecordOk(r: IdentityRecord, key: string) {
    && (forall i | 0 <= i < |r.grants| :: GrantOk(r.grants[i], key))
    && (forall x | x in r.extras :: IsExtraCapability(x) && r.extras[x] != Allow)
  }

  /** No two grants of a store share an id. */
  ghost predicate DistinctIds(ids: map<string, IdentityRecord>) {
    forall k, i, k', i' | k in ids && k' in ids && 0 <= i < |ids[k].grants| && 0 <= i' < |ids[k'].grants|
                          && ids[k].grants[i].id == ids[k'].grants[i'].id :: k == k' && i == i'
  }

  ghost predicate StoreOk(s: Store) {
    && !s.corrupt && 1 <= s.nextSeq
    && (forall k | k in s.identities :: k != "" && RecordOk(s.identities[k], k))
    && DistinctIds(s.identities)
  }
}
