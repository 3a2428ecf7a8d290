/** EffectivePolicy version 1 and the four permission fields the overlay can write. */
module PolicyTypes {
  import opened Order
  import opened PermissionTypes

  datatype RouteClass = Direct | Proxy | Wireguard | Tor
  datatype FingerprintMode = Off | Reduce | Strict
  datatype StorageScope = Ephemeral | IdentityScoped | FortressPartition

  datatype EffectivePolicy = EffectivePolicy(
    contractVersion: int64,
    blockNetworkAds: bool,
    blockTrackers: bool,
    upgradeToHttps: bool,
    hideCosmetic: bool,
    blockScriptlets: bool,
    geolocation: CapState,
    camera: CapState,
    microphone: CapState,
    notifications: CapState,
    blockThirdParty: bool,
    route: RouteClass,
    fingerprintMode: FingerprintMode,
    storageScope: StorageScope,
    inMemory: bool,
    autofillAllowed: bool,
    exportAllowed: bool,
    siteIsolated: bool,
    dedicatedProcess: bool,
    letterbox: bool)

  function Slot(p: EffectivePolicy, c: Capability): CapState {
    match c
    case Geolocation => p.geolocation
    case Camera => p.camera
    case Microphone => p.microphone
    case Notifications => p.notifications
  }

  function SetSlot(p: EffectivePolicy, c: Capability, st: CapState): EffectivePolicy {
    match c
    case Geolocation => p.(geolocation := st)
    case Camera => p.(camera := st)
    case Microphone => p.(microphone := st)
    case Notifications => p.(notifications := st)
  }

  /** The policy with all four permission fields denied and everything else as it was. */
  function DenyAll(p: EffectivePolicy): EffectivePolicy {
    p.(geolocation := Deny, camera := Deny, microphone := Deny, notifications := Deny)
  }

  lemma SlotLaws(p: EffectivePolicy, c: Capability, c': Capability, st: CapState)
    ensures Slot(SetSlot(p, c, st), c') == if c == c' then st else Slot(p, c')
    ensures DenyAll(SetSlot(p, c, st)) == DenyAll(p)
    ensures Slot(DenyAll(p), c) == Deny
  {
  }

  /** A policy is its four permission fields and the rest. */
  lemma SlotsDetermine(p: EffectivePolicy, q: EffectivePolicy)
    requires DenyAll(p) == DenyAll(q) && forall c: Capability :: Slot(p, c) == Slot(q, c)
    ensures p == q
  {
    assert Slot(p, Geolocation) == Slot(q, Geolocation) && Slot(p, Camera) == Slot(q, Camera);
    assert Slot(p, Microphone) == Slot(q, Microphone) && Slot(p, Notifications) == Slot(q, Notifications);
  }

  function Rank(st: CapState): int { match st case Deny => 0 case Ask => 1 case Allow => 2 }
}
