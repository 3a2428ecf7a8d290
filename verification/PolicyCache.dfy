/**
  The generational cache of resolved policies: what a hit means over every run of puts, lookups and invalidations, and
  why the cache never outgrows its cap.
 */
module PolicyCache {
  import opened Wrappers
  import opened PolicyTypes
  import opened PolicyCodec
  import opened PolicySnapshot

  /** A cached policy and the generations it was put under. */
  datatype Slot = Slot(policy: EffectivePolicy, globalGen: nat, identityGen: nat)
  datatype Version = Version(globalGen: nat, identityGen: nat)
  datatype Lookup = Miss | Hit(policy: EffectivePolicy, version: Version)
  datatype Stats = Stats(hits: nat, misses: nat, evictions: nat, invalidationsAll: nat, invalidationsIdentity: nat)

  datatype Cache = Cache(slots: map<Key, Slot>, order: seq<Key>, identityGens: map<string, nat>, globalGen: nat, cap: nat, stats: Stats)

  datatype CacheOp = DoPut(key: Key, policy: EffectivePolicy) | DoGet(key: Key, identity: string) | DoInvalidateAll | DoInvalidate(identity: string)

  function EmptyCache(maxEntries: nat): Cache {
    Cache(map[], [], map[], 0, if maxEntries == 0 then 1 else maxEntries, Stats(0, 0, 0, 0, 0))
  }

  function IdentityGen(c: Cache, identity: string): nat { if identity in c.identityGens then c.identityGens[identity] else 0 }

  function CurrentVersion(c: Cache, identity: string): Version { Version(c.globalGen, IdentityGen(c, identity)) }

  function DropFront(c: Cache): Cache
    requires c.order != []
  {
    c.(slots := c.slots - {c.order[0]}, order := c.order[1..], stats := c.stats.(evictions := c.stats.evictions + 1))
  }

  /** The eviction loop: the front of the queue leaves until there is room. */
  function Evict(c: Cache): Cache
    decreases |c.order|
  {
    if c.order == [] || |c.slots| < c.cap then c else Evict(DropFront(c))
  }

  function Put(c: Cache, key: Key, policy: EffectivePolicy): Cache {
    var slot := Slot(policy, c.globalGen, IdentityGen(c, key.identity));
    if key in c.slots then c.(slots := c.slots[key := slot])
    else
      var roomy := Evict(c);
      roomy.(slots := roomy.slots[key := slot], order := roomy.order + [key])
  }

  /** A stale slot is dropped from the map and stays in the queue. */
  function Get(c: Cache, key: Key, identity: string): (Cache, Lookup) {
    var missed := c.(stats := c.stats.(misses := c.stats.misses + 1));
    if key !in c.slots then (missed, Miss)
    else if Version(c.slots[key].globalGen, c.slots[key].identityGen) != CurrentVersion(c, identity) then (missed.(slots := c.slots - {key}), Miss)
    else (c.(stats := c.stats.(hits := c.stats.hits + 1)), Hit(c.slots[key].policy, CurrentVersion(c, identity)))
  }

  function InvalidateAll(c: Cache): Cache {
    c.(globalGen := c.globalGen + 1, stats := c.stats.(invalidationsAll := c.stats.invalidationsAll + 1))
  }

  function Invalidate(c: Cache, identity: string): Cache {
    c.(identityGens := c.identityGens[identity := IdentityGen(c, identity) + 1],
       stats := c.stats.(invalidationsIdentity := c.stats.invalidationsIdentity + 1))
  }

  function CacheStep(c: Cache, op: CacheOp): Cache {
    match op
    case DoPut(key, policy) => Put(c, key, policy)
    case DoGet(key, identity) => Get(c, key, identity).0
    case DoInvalidateAll => InvalidateAll(c)
    case DoInvalidate(identity) => Invalidate(c, identity)
  }

  function RunCache(c: Cache, ops: seq<CacheOp>): Cache {
    if ops == [] then c else CacheStep(RunCache(c, ops[..|ops| - 1]), ops[|ops| - 1])
  }

  lemma EvictTurn(c: Cache)
    ensures Evict(c) == if c.order == [] || |c.slots| < c.cap then c else Evict(DropFront(c))
  {
  }

  // What a hit means

  predicate Clears(op: CacheOp, identity: string) { op.DoInvalidateAll? || op == DoInvalidate(identity) }

  /** The last policy put for a key with no invalidation of everything or of its identity since. */
  function LastPut(ops: seq<CacheOp>, key: Key): Option<EffectivePolicy> {
    if ops == [] then None
    else
      var op := ops[|ops| - 1];
      if op.DoPut? && op.key == key then Some(op.policy)
      else if Clears(op, key.identity) then None
      else LastPut(ops[..|ops| - 1], key)
  }

  predicate Current(c: Cache, key: Key)
    requires key in c.slots
  {
    Version(c.slots[key].globalGen, c.slots[key].identityGen) == CurrentVersion(c, key.identity)
  }

  /** No slot is from the future, all are queued, and there are no more than the cap. */
  predicate CacheOk(c: Cache) {
    1 <= c.cap && |c.slots| <= c.cap && forall k | k in c.slots :: k in c.order && Timely(c, k)
  }

  predicate Timely(c: Cache, key: Key)
    requires key in c.slots
  {
    c.slots[key].globalGen <= c.globalGen && c.slots[key].identityGen <= IdentityGen(c, key.identity)
  }

  ghost predicate Refines(c: Cache, ops: seq<CacheOp>) {
    forall k | k in c.slots && Current(c, k) :: LastPut(ops, k) == Some(c.slots[k].policy)
  }

  function KeySet(ks: seq<Key>): set<Key> { set k | k in ks }

  lemma KeySetGrows(order: seq<Key>, m: nat)
    requires m < |order|
    ensures KeySet(order[..m + 1]) == {order[0]} + KeySet(order[1..][..m])
    ensures order[1..][m..] == order[m + 1..]
  {
    assert order[..m + 1] == [order[0]] + order[1..][..m];
  }

  lemma RemoveTwice(slots: map<Key, Slot>, a: set<Key>, b: set<Key>)
    ensures slots - a - b == slots - (a + b)
  {
  }

  ghost predicate PrefixTaken(c: Cache, c': Cache, n: nat) {
    && n <= |c.order|
    && c'.slots == c.slots - KeySet(c.order[..n]) && c'.order == c.order[n..]
    && c'.identityGens == c.identityGens && c'.globalGen == c.globalGen && c'.cap == c.cap
    && c'.stats == c.stats.(evictions := c.stats.evictions + n)
    && (n > 0 ==> |c.slots - KeySet(c.order[..n - 1])| >= c.cap)
  }

  lemma SlotsExtend(slots: map<Key, Slot>, order: seq<Key>, m: nat)
    requires m < |order|
    ensures slots - {order[0]} - KeySet(order[1..][..m]) == slots - KeySet(order[..m + 1])
  {
    hide KeySet;
    KeySetGrows(order, m);
    RemoveTwice(slots, {order[0]}, KeySet(order[1..][..m]));
  }

  lemma StillFull(c: Cache, m: nat)
    requires c.order != [] && |c.slots| >= c.cap && m < |c.order|
    requires m > 0 ==> |DropFront(c).slots - KeySet(DropFront(c).order[..m - 1])| >= c.cap
    ensures |c.slots - KeySet(c.order[..m])| >= c.cap
  {
    hide KeySet;
    if m > 0 { SlotsExtend(c.slots, c.order, m - 1); } else { NoKeys(c.slots, c.order); }
  }

  lemma PrefixExtends(c: Cache, c': Cache, m: nat)
    requires c.order != [] && |c.slots| >= c.cap && PrefixTaken(DropFront(c), c', m)
    ensures PrefixTaken(c, c', m + 1)
  {
    hide KeySet;
    StillFull(c, m);
    SlotsExtend(c.slots, c.order, m);
    assert c.order[1..][m..] == c.order[m + 1..];
  }

  /** Eviction takes a prefix of the queue, no longer than it takes to make room. */
  lemma {:induction false} EvictTakesPrefix(c: Cache) returns (n: nat)
    ensures PrefixTaken(c, Evict(c), n)
    decreases |c.order|
  {
    if c.order == [] || |c.slots| < c.cap {
      n := 0;
      NoKeys(c.slots, c.order);
    } else {
      var m := EvictTakesPrefix(DropFront(c));
      hide PrefixTaken, DropFront;
      PrefixExtends(c, Evict(c), m);
      n := m + 1;
    }
  }

  lemma NoKeys(slots: map<Key, Slot>, order: seq<Key>)
    ensures slots - KeySet(order[..0]) == slots && order[0..] == order
  {
    assert order[..0] == [];
  }

  lemma DropKeepsOk(c: Cache)
    requires CacheOk(c) && c.order != []
    ensures CacheOk(DropFront(c))
  {
    var next := DropFront(c);
    SmallerMap(c.slots, c.order[0]);
    forall k | k in next.slots ensures k in next.order && Timely(next, k) {
      assert Timely(c, k);
      var i :| 0 <= i < |c.order| && c.order[i] == k;
      assert next.order[i - 1] == k;
    }
  }

  /** The loop always makes room, because every mapped key is queued. */
  lemma {:induction false} EvictMakesRoom(c: Cache)
    requires CacheOk(c)
    ensures CacheOk(Evict(c)) && |Evict(c).slots| < c.cap
    ensures forall k | k in Evict(c).slots :: k in c.slots && Evict(c).slots[k] == c.slots[k]
    ensures Evict(c).identityGens == c.identityGens && Evict(c).globalGen == c.globalGen && Evict(c).cap == c.cap
    decreases |c.order|
  {
    if c.order == [] {
      NoneQueued(c);
    } else if |c.slots| >= c.cap {
      DropKeepsOk(c);
      hide CacheOk;
      EvictMakesRoom(DropFront(c));
    }
  }

  lemma NoneQueued(c: Cache)
    requires CacheOk(c) && c.order == []
    ensures |c.slots| == 0
  {
    assert c.slots.Keys == {};
  }

  lemma SmallerMap(m: map<Key, Slot>, k: Key)
    ensures |m - {k}| <= |m|
  {
    assert (m - {k}).Keys <= m.Keys;
    KeysCount((m - {k}).Keys, m.Keys);
  }

  lemma {:induction false} KeysCount(a: set<Key>, b: set<Key>)
    requires a <= b
    ensures |a| <= |b|
  {
    if a != {} {
      var x :| x in a;
      KeysCount(a - {x}, b - {x});
    }
  }

  lemma LastPutSnoc(ops: seq<CacheOp>, op: CacheOp, key: Key)
    ensures LastPut(ops + [op], key) == if op.DoPut? && op.key == key then Some(op.policy) else if Clears(op, key.identity) then None else LastPut(ops, key)
  {
    assert (ops + [op])[..|ops|] == ops;
  }

  lemma PutOk(c: Cache, key: Key, policy: EffectivePolicy)
    requires CacheOk(c)
    ensures CacheOk(Put(c, key, policy))
    ensures forall k | k in Put(c, key, policy).slots && k != key :: k in c.slots && Put(c, key, policy).slots[k] == c.slots[k]
  {
    var c' := Put(c, key, policy);
    if key in c.slots {
      assert c'.slots.Keys == c.slots.Keys;
      forall k | k in c'.slots ensures Timely(c', k) { assert Timely(c, k); }
    } else {
      EvictMakesRoom(c);
      hide Evict;
      var roomy := Evict(c);
      forall k | k in c'.slots ensures k in c'.order && Timely(c', k) { if k != key { assert Timely(roomy, k); } }
    }
  }

  lemma PutGens(c: Cache, key: Key, policy: EffectivePolicy)
    requires CacheOk(c)
    ensures var c' := Put(c, key, policy); c'.identityGens == c.identityGens && c'.globalGen == c.globalGen && c'.cap == c.cap
    ensures var c' := Put(c, key, policy); key in c'.slots && c'.slots[key] == Slot(policy, c.globalGen, IdentityGen(c, key.identity))
  {
    EvictMakesRoom(c);
    hide Evict, CacheOk;
  }

  lemma PutKeeps(c: Cache, ops: seq<CacheOp>, key: Key, policy: EffectivePolicy)
    requires CacheOk(c) && Refines(c, ops)
    ensures CacheOk(Put(c, key, policy)) && Refines(Put(c, key, policy), ops + [DoPut(key, policy)])
  {
    PutOk(c, key, policy);
    PutGens(c, key, policy);
    hide Put, LastPut, CacheOk;
    var c' := Put(c, key, policy);
    forall k | k in c'.slots && Current(c', k) ensures LastPut(ops + [DoPut(key, policy)], k) == Some(c'.slots[k].policy) {
      LastPutSnoc(ops, DoPut(key, policy), k);
      if k != key { assert k in c.slots && Current(c, k); }
    }
  }

  lemma GetKeeps(c: Cache, ops: seq<CacheOp>, key: Key, identity: string)
    requires CacheOk(c) && Refines(c, ops)
    ensures CacheOk(Get(c, key, identity).0) && Refines(Get(c, key, identity).0, ops + [DoGet(key, identity)])
  {
    StepOk(c, DoGet(key, identity));
    hide LastPut, CacheOk;
    var c' := Get(c, key, identity).0;
    forall k | k in c'.slots && Current(c', k) ensures LastPut(ops + [DoGet(key, identity)], k) == Some(c'.slots[k].policy) {
      LastPutSnoc(ops, DoGet(key, identity), k);
      assert k in c.slots && Current(c, k);
    }
  }

  lemma InvalidationKeeps(c: Cache, ops: seq<CacheOp>, op: CacheOp)
    requires CacheOk(c) && Refines(c, ops) && (op.DoInvalidateAll? || op.DoInvalidate?)
    ensures CacheOk(CacheStep(c, op)) && Refines(CacheStep(c, op), ops + [op])
  {
    StepOk(c, op);
    assert forall k | k in c.slots :: Timely(c, k);
    hide LastPut, CacheOk;
    var c' := CacheStep(c, op);
    forall k | k in c'.slots && Current(c', k) ensures LastPut(ops + [op], k) == Some(c'.slots[k].policy) {
      LastPutSnoc(ops, op, k);
      assert Current(c, k);
    }
  }

  /** Over every run, the current slots refine "last put since the last invalidation", within the cap. */
  lemma {:induction false} RunRefines(maxEntries: nat, ops: seq<CacheOp>)
    ensures var c := RunCache(EmptyCache(maxEntries), ops); CacheOk(c) && Refines(c, ops) && |c.slots| <= c.cap
  {
    hide CacheOk, Refines, Put, Get, InvalidateAll, Invalidate;
    var c0 := EmptyCache(maxEntries);
    if ops == [] {
      StartsEmpty(maxEntries);
    } else {
      var front, op := ops[..|ops| - 1], ops[|ops| - 1];
      RunRefines(maxEntries, front);
      var c := RunCache(c0, front);
      assert ops == front + [op];
      match op
      case DoPut(key, policy) => PutKeeps(c, front, key, policy);
      case DoGet(key, identity) => GetKeeps(c, front, key, identity);
      case _ => InvalidationKeeps(c, front, op);
    }
    OkCounts(RunCache(c0, ops));
  }

  lemma StartsEmpty(maxEntries: nat)
    ensures CacheOk(EmptyCache(maxEntries)) && Refines(EmptyCache(maxEntries), [])
  {
  }

  lemma OkCounts(c: Cache)
    requires CacheOk(c)
    ensures |c.slots| <= c.cap
  {
  }

  /** A hit under the key's own identity is the last policy put for it, with no invalidation of it since. */
  lemma HitIsLastPut(maxEntries: nat, ops: seq<CacheOp>, key: Key)
    ensures var l := Get(RunCache(EmptyCache(maxEntries), ops), key, key.identity).1; l.Hit? ==> LastPut(ops, key) == Some(l.policy)
  {
    RunRefines(maxEntries, ops);
    hide RunCache, LastPut;
  }

  /** What is put can be read at once, in any reachable cache. */
  lemma PutThenHit(c: Cache, key: Key, policy: EffectivePolicy)
    requires CacheOk(c)
    ensures Get(Put(c, key, policy), key, key.identity).1 == Hit(policy, CurrentVersion(c, key.identity))
  {
    PutGens(c, key, policy);
    hide Put, CacheOk;
  }

  // Versions

  lemma StepVersion(c: Cache, op: CacheOp, identity: string)
    requires CacheOk(c)
    ensures var (v, w) := (CurrentVersion(c, identity), CurrentVersion(CacheStep(c, op), identity));
            && v.globalGen <= w.globalGen && v.identityGen <= w.identityGen && (v == w <==> !Clears(op, identity))
  {
    if op.DoPut? { PutGens(c, op.key, op.policy); }
    hide Put, CacheOk;
  }

  lemma StepOk(c: Cache, op: CacheOp)
    requires CacheOk(c)
    ensures CacheOk(CacheStep(c, op))
  {
    if op.DoPut? { PutOk(c, op.key, op.policy); }
    if op.DoGet? { SmallerMap(c.slots, op.key); }
    hide Put, Timely;
    var c' := CacheStep(c, op);
    if !op.DoPut? {
      forall k | k in c'.slots ensures k in c'.order && Timely(c', k) { assert Timely(c, k); StillTimely(c, op, k); }
    }
  }

  lemma StillTimely(c: Cache, op: CacheOp, k: Key)
    requires !op.DoPut? && k in c.slots && k in CacheStep(c, op).slots && Timely(c, k)
    ensures Timely(CacheStep(c, op), k)
  {
  }

  /** A reported version stays current exactly until the next invalidation of everything or of that identity. */
  lemma {:induction false} VersionHolds(c: Cache, ops: seq<CacheOp>, identity: string)
    requires CacheOk(c)
    ensures var (v, w) := (CurrentVersion(c, identity), CurrentVersion(RunCache(c, ops), identity));
            && v.globalGen <= w.globalGen && v.identityGen <= w.identityGen
            && (v == w <==> forall i | 0 <= i < |ops| :: !Clears(ops[i], identity))
    ensures CacheOk(RunCache(c, ops))
  {
    hide CacheOk, CacheStep, Clears, CurrentVersion;
    if ops != [] {
      var front, op := ops[..|ops| - 1], ops[|ops| - 1];
      VersionHolds(c, front, identity);
      StepVersion(RunCache(c, front), op, identity);
      StepOk(RunCache(c, front), op);
      assert ops == front + [op];
    }
  }

  // Lookups under another identity

  /** After this run, a hit of this lookup is the last policy put, with no invalidation of it since. */
  ghost predicate SoundLookup(maxEntries: nat, ops: seq<CacheOp>, key: Key, identity: string) {
    var l := Get(RunCache(EmptyCache(maxEntries), ops), key, identity).1;
    l.Hit? ==> LastPut(ops, key) == Some(l.policy)
  }

  /** A lookup checks the generation of the identity it is given, so it is sound over every run exactly when that is the key's own. */
  lemma LookupSoundIff(key: Key, identity: string)
    ensures (forall maxEntries: nat, ops: seq<CacheOp> :: SoundLookup(maxEntries, ops, key, identity)) <==> identity == key.identity
  {
    if identity == key.identity {
      forall maxEntries: nat, ops: seq<CacheOp> ensures SoundLookup(maxEntries, ops, key, identity) { HitIsLastPut(maxEntries, ops, key); }
    } else {
      ForeignLookupIsUnchecked(1, key, identity, DENY_POLICY);
      assert !SoundLookup(1, [DoPut(key, DENY_POLICY), DoInvalidate(key.identity)], key, identity);
    }
  }

  /** Under any other identity a lookup hits what was invalidated. */
  lemma ForeignLookupIsUnchecked(maxEntries: nat, key: Key, identity: string, policy: EffectivePolicy)
    requires identity != key.identity
    ensures var ops := [DoPut(key, policy), DoInvalidate(key.identity)];
            var c := RunCache(EmptyCache(maxEntries), ops);
            LastPut(ops, key).None? && Get(c, key, key.identity).1 == Miss && Get(c, key, identity).1 == Hit(policy, Version(0, 0))
  {
    var ops := [DoPut(key, policy), DoInvalidate(key.identity)];
    assert ops[..1] == [DoPut(key, policy)] && ops[..1][..0] == [];
    assert RunCache(EmptyCache(maxEntries), ops[..1]) == Put(EmptyCache(maxEntries), key, policy);
  }

  // The queue against the map

  /** The queue lists the mapped keys, each once. */
  ghost predicate Tidy(c: Cache) {
    (forall k :: k in c.order <==> k in c.slots) && forall i, j | 0 <= i < j < |c.order| :: c.order[i] != c.order[j]
  }

  predicate DropsStale(c: Cache, op: CacheOp) { op.DoGet? && op.key in c.slots && Get(c, op.key, op.identity).1 == Miss }

  /** Only a lookup that drops a stale slot puts the queue out of step with the map. */
  lemma TidyUntilStale(c: Cache, op: CacheOp)
    requires Tidy(c)
    ensures Tidy(CacheStep(c, op)) <==> !DropsStale(c, op)
  {
    if op.DoPut? && op.key !in c.slots {
      TidyEvict(c);
      hide Evict;
    } else if DropsStale(c, op) {
      assert op.key in CacheStep(c, op).order && op.key !in CacheStep(c, op).slots;
    } else {
      hide Evict;
    }
  }

  lemma {:induction false} TidyEvict(c: Cache)
    requires Tidy(c)
    ensures Tidy(Evict(c)) && forall k | k in Evict(c).slots :: k in c.slots
    decreases |c.order|
  {
    if c.order != [] && |c.slots| >= c.cap {
      TidyDrop(c);
      hide Tidy;
      TidyEvict(DropFront(c));
    }
  }

  lemma TidyDrop(c: Cache)
    requires Tidy(c) && c.order != []
    ensures Tidy(DropFront(c))
  {
    var next := DropFront(c);
    assert forall i | 0 <= i < |next.order| :: next.order[i] == c.order[i + 1];
    forall k ensures k in next.order <==> k in next.slots {
      if k in next.order { var i :| 0 <= i < |next.order| && next.order[i] == k; assert c.order[i + 1] == k; }
      if k in next.slots { var i :| 0 <= i < |c.order| && c.order[i] == k; assert next.order[i - 1] == k; }
    }
  }

  lemma RunSnoc(c: Cache, ops: seq<CacheOp>, op: CacheOp)
    ensures RunCache(c, ops + [op]) == CacheStep(RunCache(c, ops), op)
  {
    hide CacheStep;
    assert (ops + [op])[..|ops|] == ops;
  }

  /** A put of a new key when there is room. */
  lemma PutRoomy(c: Cache, key: Key, policy: EffectivePolicy)
    requires key !in c.slots && |c.slots| < c.cap
    ensures Put(c, key, policy) == c.(slots := c.slots[key := Slot(policy, c.globalGen, IdentityGen(c, key.identity))], order := c.order + [key])
  {
  }

  /** A put of a new key when there is not, and one place is enough. */
  lemma PutFull(c: Cache, key: Key, policy: EffectivePolicy)
    requires key !in c.slots && |c.slots| >= c.cap && c.order != [] && |DropFront(c).slots| < c.cap
    ensures Put(c, key, policy)
            == DropFront(c).(slots := DropFront(c).slots[key := Slot(policy, c.globalGen, IdentityGen(c, key.identity))], order := c.order[1..] + [key])
  {
    EvictTurn(c);
    EvictTurn(DropFront(c));
    hide Evict;
  }

  /** Put, invalidate, look up: the key is gone from the map and stays in the queue. */
  function ComeAndGo(key: Key, policy: EffectivePolicy): seq<CacheOp> {
    [DoPut(key, policy), DoInvalidate(key.identity), DoGet(key, key.identity)]
  }

  lemma ComesAndGoes(c: Cache, ops: seq<CacheOp>, key: Key, policy: EffectivePolicy)
    requires RunCache(c, ops).slots == map[] && RunCache(c, ops).cap >= 1
    ensures var (c0, c') := (RunCache(c, ops), RunCache(c, ops + ComeAndGo(key, policy)));
            c'.slots == map[] && c'.order == c0.order + [key] && c'.cap == c0.cap
  {
    var c0 := RunCache(c, ops);
    PutRoomy(c0, key, policy);
    RunSnoc(c, ops, DoPut(key, policy));
    RunSnoc(c, ops + [DoPut(key, policy)], DoInvalidate(key.identity));
    RunSnoc(c, ops + [DoPut(key, policy)] + [DoInvalidate(key.identity)], DoGet(key, key.identity));
    assert ops + [DoPut(key, policy)] + [DoInvalidate(key.identity)] + [DoGet(key, key.identity)] == ops + ComeAndGo(key, policy);
    hide RunCache, Put;
    var c1 := Put(c0, key, policy);
    assert Get(Invalidate(c1, key.identity), key, key.identity).0.slots == c1.slots - {key} == map[];
  }

  function Churn(key: Key, policy: EffectivePolicy, n: nat): seq<CacheOp> {
    if n == 0 then [] else Churn(key, policy, n - 1) + ComeAndGo(key, policy)
  }

  /** The cap bounds the map and not the queue, which can reach any length over an empty map. */
  lemma {:induction false} QueueOutgrowsCap(maxEntries: nat, key: Key, policy: EffectivePolicy, n: nat)
    ensures var c := RunCache(EmptyCache(maxEntries), Churn(key, policy, n)); c.cap >= 1 && c.slots == map[] && |c.order| == n
  {
    hide RunCache, ComeAndGo;
    if n > 0 {
      QueueOutgrowsCap(maxEntries, key, policy, n - 1);
      ComesAndGoes(EmptyCache(maxEntries), Churn(key, policy, n - 1), key, policy);
    } else {
      RunNone(EmptyCache(maxEntries));
    }
  }

  lemma RunNone(c: Cache)
    ensures RunCache(c, []) == c
  {
  }

  /** A key that was dropped as stale and put again keeps its old place too, so that it can go before a key put earlier: `b` stays, `a` goes. */
  lemma EvictedEarly(a: Key, b: Key, d: Key, policy: EffectivePolicy)
    requires a != b && b != d && a != d
    ensures RunCache(EmptyCache(2), ComeAndGo(a, policy) + [DoPut(b, policy)] + [DoPut(a, policy)] + [DoPut(d, policy)]).slots.Keys == {b, d}
  {
    var c0, ops := EmptyCache(2), ComeAndGo(a, policy);
    RunNone(c0);
    ComesAndGoes(c0, [], a, policy);
    assert [] + ops == ops;
    RunSnoc(c0, ops, DoPut(b, policy));
    RunSnoc(c0, ops + [DoPut(b, policy)], DoPut(a, policy));
    RunSnoc(c0, ops + [DoPut(b, policy)] + [DoPut(a, policy)], DoPut(d, policy));
    hide RunCache, Put, ComeAndGo;
    var c := RunCache(c0, ops);
    PutTwo(c, a, b, policy);
    var ca := Put(Put(c, b, policy), a, policy);
    PutThird(ca, a, b, d, policy);
  }

  lemma PutTwo(c: Cache, a: Key, b: Key, policy: EffectivePolicy)
    requires c.slots == map[] && c.order == [a] && c.cap == 2 && a != b
    ensures var ca := Put(Put(c, b, policy), a, policy); ca.slots.Keys == {a, b} && ca.order == [a, b, a] && ca.cap == 2
  {
    PutRoomy(c, b, policy);
    hide Put;
    var cb := Put(c, b, policy);
    assert cb.slots.Keys == {b};
    OneKey(cb.slots, b);
    PutRoomy(cb, a, policy);
  }

  lemma PutThird(ca: Cache, a: Key, b: Key, d: Key, policy: EffectivePolicy)
    requires ca.slots.Keys == {a, b} && ca.order == [a, b, a] && ca.cap == 2 && a != b && b != d && a != d
    ensures Put(ca, d, policy).slots.Keys == {b, d}
  {
    TwoKeys(ca.slots, a, b);
    assert DropFront(ca).slots.Keys == {b};
    OneKey(DropFront(ca).slots, b);
    PutFull(ca, d, policy);
    hide Put;
  }

  lemma OneKey(m: map<Key, Slot>, k: Key)
    requires m.Keys == {k}
    ensures |m| == 1
  {
    assert |m| == |m.Keys|;
  }

  lemma TwoKeys(m: map<Key, Slot>, k: Key, l: Key)
    requires m.Keys == {k, l} && k != l
    ensures |m| == 2
  {
    assert |m| == |m.Keys| == |{k} + {l}|;
  }

  /** The cache object. `history` is what was done to it. */
  class PolicyCacheObject {
    var slots: map<Key, Slot>
    var order: seq<Key>
    var identityGens: map<string, nat>
    var globalGen: nat
    const cap: nat
    var stats: Stats
    ghost const limit: nat
    ghost var history: seq<CacheOp>

    ghost predicate Valid()
      reads this
    {
      Now() == RunCache(EmptyCache(limit), history)
    }

    constructor (maxEntries: nat)
      ensures Valid() && limit == maxEntries && history == [] && Now() == EmptyCache(maxEntries)
    {
      cap := if maxEntries == 0 then 1 else maxEntries;
      slots, order, identityGens, globalGen, stats := map[], [], map[], 0, Stats(0, 0, 0, 0, 0);
      limit, history := maxEntries, [];
    }

    function Now(): Cache
      reads this
    {
      Cache(slots, order, identityGens, globalGen, cap, stats)
    }

    /** What every operation keeps: the object has run its history, and the map is within the cap. */
    ghost predicate Ran(was: seq<CacheOp>, op: CacheOp)
      reads this
    {
      Valid() && history == was + [op] && |slots| <= cap
    }

    lemma Advance(was: Cache, op: CacheOp)
      requires was == RunCache(EmptyCache(limit), history) && Now() == CacheStep(was, op)
      ensures Now() == RunCache(EmptyCache(limit), history + [op]) && |slots| <= cap
    {
      assert (history + [op])[..|history|] == history;
      RunRefines(limit, history + [op]);
      hide CacheStep, RunCache, CacheOk, Refines;
    }

    /** Pop the front of the queue until the map has room. */
    method MakeRoom()
      modifies this
      ensures Now() == Evict(old(Now())) && history == old(history)
    {
      hide Evict;
      while order != [] && |slots| >= cap
        invariant Evict(Now()) == Evict(old(Now())) && history == old(history)
        decreases |order|
      {
        EvictTurn(Now());
        var victim := order[0];
        order := order[1..];
        slots := slots - {victim};
        stats := stats.(evictions := stats.evictions + 1);
      }
      EvictTurn(Now());
    }

    /** What was put can be read at once, under the version of before: no version moves. */
    method Insert(key: Key, policy: EffectivePolicy)
      requires Valid()
      modifies this
      ensures Ran(old(history), DoPut(key, policy)) && Now() == Put(old(Now()), key, policy)
      ensures Get(Now(), key, key.identity).1 == Hit(policy, CurrentVersion(old(Now()), key.identity))
    {
      hide Evict, RunCache;
      ghost var was := Now();
      RunRefines(limit, history);
      PutThenHit(was, key, policy);
      var slot := Slot(policy, globalGen, if key.identity in identityGens then identityGens[key.identity] else 0);
      if key in slots {
        slots := slots[key := slot];
      } else {
        MakeRoom();
        slots := slots[key := slot];
        order := order + [key];
      }
      Advance(was, DoPut(key, policy));
      history := history + [DoPut(key, policy)];
    }

    /** Under the key's own identity, only the last policy put, with no invalidation since, is ever returned. */
    method Find(key: Key, identity: string) returns (r: Lookup)
      requires Valid()
      modifies this
      ensures Ran(old(history), DoGet(key, identity)) && (Now(), r) == Get(old(Now()), key, identity)
      ensures r.Hit? && identity == key.identity ==> LastPut(old(history), key) == Some(r.policy)
      ensures r.Hit? ==> r.version == CurrentVersion(Now(), identity)
      ensures r.Miss? ==> key !in slots
    {
      hide RunCache, LastPut;
      ghost var was := Now();
      HitIsLastPut(limit, history, key);
      r := Miss;
      if key !in slots {
        stats := stats.(misses := stats.misses + 1);
      } else {
        var gen := if identity in identityGens then identityGens[identity] else 0;
        var slot := slots[key];
        if slot.globalGen != globalGen || slot.identityGen != gen {
          stats := stats.(misses := stats.misses + 1);
          slots := slots - {key};
        } else {
          stats := stats.(hits := stats.hits + 1);
          r := Hit(slot.policy, Version(globalGen, gen));
        }
      }
      Advance(was, DoGet(key, identity));
      history := history + [DoGet(key, identity)];
    }

    method VersionIsCurrent(v: Version, identity: string) returns (ok: bool)
      ensures ok <==> v == CurrentVersion(Now(), identity)
    {
      var gen := if identity in identityGens then identityGens[identity] else 0;
      return v == Version(globalGen, gen);
    }

    /** No lookup of a key under its own identity hits, and every version in use is stale. */
    method DropAll()
      requires Valid()
      modifies this
      ensures Ran(old(history), DoInvalidateAll) && Now() == InvalidateAll(old(Now()))
      ensures forall key: Key :: Get(Now(), key, key.identity).1 == Miss
      ensures forall identity :: CurrentVersion(Now(), identity) != CurrentVersion(old(Now()), identity)
    {
      ghost var was := Now();
      globalGen := globalGen + 1;
      stats := stats.(invalidationsAll := stats.invalidationsAll + 1);
      hide RunCache;
      Advance(was, DoInvalidateAll);
      history := history + [DoInvalidateAll];
      forall key: Key ensures Get(Now(), key, key.identity).1 == Miss { HitIsLastPut(limit, history, key); }
    }

    /** The keys of this identity stop hitting, its versions are stale, and nothing else is touched. */
    method DropIdentity(identity: string)
      requires Valid()
      modifies this
      ensures Ran(old(history), DoInvalidate(identity)) && Now() == Invalidate(old(Now()), identity)
      ensures forall key: Key | key.identity == identity :: Get(Now(), key, identity).1 == Miss
      ensures forall key: Key | key.identity != identity :: Get(Now(), key, key.identity).1 == Get(old(Now()), key, key.identity).1
      ensures forall other :: CurrentVersion(Now(), other) == CurrentVersion(old(Now()), other) <==> other != identity
    {
      ghost var was := Now();
      var gen := if identity in identityGens then identityGens[identity] else 0;
      identityGens := identityGens[identity := gen + 1];
      stats := stats.(invalidationsIdentity := stats.invalidationsIdentity + 1);
      hide RunCache;
      Advance(was, DoInvalidate(identity));
      history := history + [DoInvalidate(identity)];
      forall key: Key | key.identity == identity ensures Get(Now(), key, identity).1 == Miss { HitIsLastPut(limit, history, key); }
    }
  }
}
