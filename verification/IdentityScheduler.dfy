/** The soft cap on active identities: a least-recently-activated queue over the identity store. */
module IdentityScheduler {
  import opened Wrappers
  import opened IdentityModel

  datatype Eviction = Eviction(domain: string, tick: nat, reason: string)

  /** `order` lists the active domains, least recently activated first. */
  datatype Sched = Sched(store: IdentityStore, order: seq<string>, cap: nat, evictions: seq<Eviction>)

  datatype SchedOp =
    | DoActivate(domain: string, tick: nat)
    | DoHibernate(domain: string, tick: nat)
    | DoWake(domain: string, tick: nat)
    | DoCreate(identity: Identity)
    | DoDestroy(domain: string)

  function Remove(order: seq<string>, d: string): seq<string> {
    if order == [] then [] else Remove(order[..|order| - 1], d) + (if order[|order| - 1] != d then [order[|order| - 1]] else [])
  }

  /** A victim that is gone, or already asleep, only leaves the queue. */
  function EvictLru(s: Sched, tick: nat): Sched
    requires s.order != []
  {
    var victim := s.order[0];
    if victim in s.store.records && s.store.records[victim].state == Active then
      s.(store := ManagerHibernate(s.store, victim).0, order := s.order[1..], evictions := s.evictions + [Eviction(victim, tick, "cap")])
    else s.(order := s.order[1..])
  }

  function EvictDown(s: Sched, tick: nat): Sched
    decreases |s.order|
  {
    if s.order == [] || |s.order| + 1 <= s.cap then s else EvictDown(EvictLru(s, tick), tick)
  }

  function Activate(s: Sched, d: string, tick: nat): (Sched, CallResult) {
    if d !in s.store.records then (s, Failed("kUnknownIdentity"))
    else if s.store.records[d].state == Destroyed then (s, Failed("kNotPermitted"))
    else
      var roomy := EvictDown(s.(order := Remove(s.order, d)), tick);
      var (store, r) := ManagerActivate(roomy.store, d);
      (roomy.(store := store, order := if r == Ok then roomy.order + [d] else roomy.order), r)
  }

  function Hibernate(s: Sched, d: string, tick: nat): (Sched, CallResult) {
    var (store, r) := ManagerHibernate(s.store, d);
    if r == Ok then (s.(store := store, order := Remove(s.order, d), evictions := s.evictions + [Eviction(d, tick, "user")]), r) else (s, r)
  }

  function Wake(s: Sched, d: string, tick: nat): (Sched, CallResult) {
    if d !in s.store.records then (s, Failed("kUnknownIdentity"))
    else if s.store.records[d].state == Destroyed then (s, Failed("kNotPermitted"))
    else if s.store.records[d].state == Active then (s, Ok)
    else Activate(s, d, tick)
  }

  function SchedStep(s: Sched, op: SchedOp): Sched {
    match op
    case DoActivate(d, tick) => Activate(s, d, tick).0
    case DoHibernate(d, tick) => Hibernate(s, d, tick).0
    case DoWake(d, tick) => Wake(s, d, tick).0
    case DoCreate(r) => s.(store := Insert(s.store, r).0)
    case DoDestroy(d) => s.(store := ManagerDestroy(s.store, d).0)
  }

  function RunSched(s: Sched, ops: seq<SchedOp>): Sched {
    if ops == [] then s else SchedStep(RunSched(s, ops[..|ops| - 1]), ops[|ops| - 1])
  }

  // The queue

  predicate NoDuplicates(order: seq<string>) { forall i, j | 0 <= i < j < |order| :: order[i] != order[j] }

  /** Within the cap, without duplicates, and every member still in the store is active; no record is in the destroyed state. */
  predicate SchedOk(s: Sched) {
    && 1 <= s.cap && |s.order| <= s.cap && NoDuplicates(s.order)
    && (forall d | d in s.order && d in s.store.records :: s.store.records[d].state == Active)
    && (forall d | d in s.store.records :: s.store.records[d].state != Destroyed)
  }

  lemma {:induction false} RemoveContents(order: seq<string>, d: string, x: string)
    ensures x in Remove(order, d) <==> x in order && x != d
    ensures |Remove(order, d)| <= |order|
  {
    if order != [] {
      RemoveContents(order[..|order| - 1], d, x);
      assert order == order[..|order| - 1] + [order[|order| - 1]];
    }
  }

  lemma {:induction false} RemoveDistinct(order: seq<string>, d: string)
    requires NoDuplicates(order)
    ensures NoDuplicates(Remove(order, d))
  {
    if order != [] {
      var front, last := order[..|order| - 1], order[|order| - 1];
      RemoveDistinct(front, d);
      var r := Remove(front, d);
      hide Remove;
      forall i | 0 <= i < |r| ensures r[i] != last {
        RemoveContents(front, d, r[i]);
        var j :| 0 <= j < |front| && front[j] == r[i];
        assert order[j] == front[j];
      }
      RemoveTurn(order, d);
    }
  }

  lemma RemoveTurn(order: seq<string>, d: string)
    requires order != []
    ensures Remove(order, d) == Remove(order[..|order| - 1], d) + (if order[|order| - 1] != d then [order[|order| - 1]] else [])
  {
  }

  function Excess(s: Sched): nat { if |s.order| + 1 > s.cap then |s.order| + 1 - s.cap else 0 }

  /** The active ones of `gone` are asleep, and no other record has changed. */
  ghost predicate SleptOnly(before: map<string, Identity>, after: map<string, Identity>, gone: seq<string>) {
    forall d | d in before ::
      d in after && after[d] == if d in gone && before[d].state == Active then before[d].(state := Hibernated, surface := NoCache(before[d].surface)) else before[d]
  }

  lemma SleepsFirst(before: map<string, Identity>, next: map<string, Identity>, after: map<string, Identity>, victim: string, rest: seq<string>)
    requires SleptOnly(before, next, [victim]) && SleptOnly(next, after, rest) && victim !in rest
    ensures SleptOnly(before, after, [victim] + rest)
  {
    hide NoCache;
  }

  lemma LruSleeps(s: Sched, tick: nat)
    requires s.order != []
    ensures var s' := EvictLru(s, tick);
            && SleptOnly(s.store.records, s'.store.records, [s.order[0]]) && s'.store.records.Keys == s.store.records.Keys
            && s'.store.residual == s.store.residual && s'.order == s.order[1..] && s'.cap == s.cap
  {
    hide NoCache;
  }

  lemma NobodySleeps(records: map<string, Identity>)
    ensures SleptOnly(records, records, [])
  {
  }

  /** Eviction takes exactly the oldest members that do not fit, and changes no other record. */
  lemma {:induction false} EvictTakesOldest(s: Sched, tick: nat)
    requires 1 <= s.cap && NoDuplicates(s.order)
    ensures Excess(s) <= |s.order|
    ensures var s' := EvictDown(s, tick);
            && s'.order == s.order[Excess(s)..] && s'.cap == s.cap && s'.store.residual == s.store.residual
            && s'.store.records.Keys == s.store.records.Keys && SleptOnly(s.store.records, s'.store.records, s.order[..Excess(s)])
    decreases |s.order|
  {
    NobodySleeps(s.store.records);
    EvictTurn(s, tick);
    hide EvictDown, EvictLru, NoDuplicates, SleptOnly;
    assert s.order[..0] == [] && s.order[0..] == s.order;
    if s.order != [] && |s.order| + 1 > s.cap {
      var next := EvictLru(s, tick);
      var n := Excess(s);
      LruSleeps(s, tick);
      TailDistinct(s.order);
      EvictTakesOldest(next, tick);
      assert next.order[n - 1..] == s.order[n..];
      assert s.order[..n] == [s.order[0]] + next.order[..n - 1];
      assert forall x | x in next.order[..n - 1] :: x in next.order;
      SleepsFirst(s.store.records, next.store.records, EvictDown(s, tick).store.records, s.order[0], next.order[..n - 1]);
    }
  }

  /** What the cap puts to sleep is on record, and nothing else is. */
  lemma {:induction false} EvictionsAreRecorded(s: Sched, tick: nat, d: string)
    requires 1 <= s.cap && NoDuplicates(s.order)
    ensures Excess(s) <= |s.order| && s.evictions <= EvictDown(s, tick).evictions
    ensures Eviction(d, tick, "cap") in EvictDown(s, tick).evictions[|s.evictions|..]
            <==> d in s.order[..Excess(s)] && d in s.store.records && s.store.records[d].state == Active
    decreases |s.order|
  {
    EvictTurn(s, tick);
    hide EvictDown, EvictLru, NoDuplicates, SleptOnly;
    assert s.order[..0] == [];
    if s.order != [] && |s.order| + 1 > s.cap {
      var next, n, victim := EvictLru(s, tick), Excess(s), s.order[0];
      LruSleeps(s, tick);
      LruRecords(s, tick);
      TailDistinct(s.order);
      EvictionsAreRecorded(next, tick, d);
      assert s.order[..n] == [victim] + next.order[..n - 1];
      var first, rest := next.evictions[|s.evictions|..], EvictDown(s, tick).evictions[|next.evictions|..];
      assert EvictDown(s, tick).evictions[|s.evictions|..] == first + rest;
      if d in next.order[..n - 1] { assert d in next.order; assert d != victim; }
      if d in s.store.records { VictimOnly(s.store.records, next.store.records, victim, d); }
    }
  }

  lemma LruRecords(s: Sched, tick: nat)
    requires s.order != []
    ensures var (s', victim) := (EvictLru(s, tick), s.order[0]);
            s'.evictions == s.evictions + if victim in s.store.records && s.store.records[victim].state == Active then [Eviction(victim, tick, "cap")] else []
  {
    hide NoCache;
    assert s.evictions + [] == s.evictions;
  }

  lemma VictimOnly(before: map<string, Identity>, after: map<string, Identity>, victim: string, d: string)
    requires SleptOnly(before, after, [victim]) && d in before
    ensures d in after && (d != victim ==> after[d] == before[d])
  {
    hide NoCache;
  }

  lemma TailDistinct(order: seq<string>)
    requires NoDuplicates(order) && order != []
    ensures NoDuplicates(order[1..]) && order[0] !in order[1..]
  {
    forall i, j | 0 <= i < j < |order[1..]| ensures order[1..][i] != order[1..][j] { assert order[i + 1] != order[j + 1]; }
    forall i | 0 <= i < |order[1..]| ensures order[1..][i] != order[0] { assert order[i + 1] != order[0]; }
  }

  lemma ActivateIs(s: Sched, d: string, tick: nat)
    requires d in s.store.records && s.store.records[d].state != Destroyed
    requires var roomy := EvictDown(s.(order := Remove(s.order, d)), tick);
             d in roomy.store.records && roomy.store.records[d].state != Destroyed
    ensures var roomy := EvictDown(s.(order := Remove(s.order, d)), tick);
            Activate(s, d, tick) == (roomy.(store := roomy.store.(records := roomy.store.records[d := roomy.store.records[d].(state := Active)]),
                                            order := roomy.order + [d]), Ok)
  {
    hide EvictDown, Remove;
  }

  lemma RestIs(s: Sched, d: string)
    requires SchedOk(s)
    ensures NoDuplicates(Remove(s.order, d)) && d !in Remove(s.order, d)
    ensures forall x :: x in Remove(s.order, d) ==> x in s.order && (x in s.store.records ==> s.store.records[x].state == Active)
  {
    RemoveDistinct(s.order, d);
    hide NoDuplicates, Remove;
    forall x ensures x in Remove(s.order, d) <==> x in s.order && x != d { RemoveContents(s.order, d, x); }
  }

  lemma StaysAwake(before: map<string, Identity>, after: map<string, Identity>, gone: seq<string>, d: string)
    requires SleptOnly(before, after, gone) && d in before && d !in gone
    ensures d in after && after[d] == before[d]
  {
    hide NoCache;
  }

  lemma ActivateOrder(s: Sched, d: string, tick: nat)
    requires SchedOk(s) && d in s.store.records
    ensures var (s', r) := Activate(s, d, tick);
            var rest := s.(order := Remove(s.order, d));
            && r == Ok && Excess(rest) <= |rest.order| && s'.order == rest.order[Excess(rest)..] + [d]
            && s'.cap == s.cap && s'.store.records.Keys == s.store.records.Keys && s'.store.residual == s.store.residual
            && d !in rest.order[..Excess(rest)]
            && s'.store.records == EvictDown(rest, tick).store.records[d := s.store.records[d].(state := Active)]
            && SleptOnly(s.store.records, EvictDown(rest, tick).store.records, rest.order[..Excess(rest)])
            && EvictDown(rest, tick).store.records.Keys == s.store.records.Keys
            && forall k | k in rest.order[..Excess(rest)] && k in s.store.records :: s.store.records[k].state == Active
  {
    RestIs(s, d);
    var rest := s.(order := Remove(s.order, d));
    assert s.store.records[d].state != Destroyed;
    hide Activate, EvictDown, Remove, NoCache, NoDuplicates, SleptOnly, SchedOk;
    EvictTakesOldest(rest, tick);
    assert forall k | k in rest.order[..Excess(rest)] :: k in rest.order;
    StaysAwake(s.store.records, EvictDown(rest, tick).store.records, rest.order[..Excess(rest)], d);
    ActivateIs(s, d, tick);
  }

  /** What an activation does to the queue: the domain moves to the back, and the oldest beyond the cap leave the front. */
  lemma ActivateQueue(s: Sched, d: string, tick: nat)
    requires SchedOk(s) && d in s.store.records
    ensures var (s', r) := Activate(s, d, tick);
            var rest := s.(order := Remove(s.order, d));
            && r == Ok && Excess(rest) <= |rest.order| && s'.order == rest.order[Excess(rest)..] + [d]
            && s'.cap == s.cap && s'.store.records.Keys == s.store.records.Keys && s'.store.residual == s.store.residual
            && s'.store.records[d] == s.store.records[d].(state := Active)
            && (forall k | k in s.store.records && k != d && k !in rest.order[..Excess(rest)] :: s'.store.records[k] == s.store.records[k])
            && (forall k | k in s.store.records && k in rest.order[..Excess(rest)] ::
                  s'.store.records[k] == s.store.records[k].(state := Hibernated, surface := NoCache(s.store.records[k].surface)))
  {
    ActivateOrder(s, d, tick);
    var rest := s.(order := Remove(s.order, d));
    hide Activate, EvictDown, Remove, NoCache, NoDuplicates, SchedOk, Excess, SleptOnly;
    RecordsAfter(s.store.records, EvictDown(rest, tick).store.records, rest.order[..Excess(rest)], d);
  }

  lemma RecordsAfter(before: map<string, Identity>, evicted: map<string, Identity>, gone: seq<string>, d: string)
    requires SleptOnly(before, evicted, gone) && evicted.Keys == before.Keys && d in before && d !in gone
    requires forall k | k in gone && k in before :: before[k].state == Active
    ensures var after := evicted[d := before[d].(state := Active)];
            && (forall k | k in before && k != d && k !in gone :: after[k] == before[k])
            && (forall k | k in before && k in gone :: after[k] == before[k].(state := Hibernated, surface := NoCache(before[k].surface)))
  {
    hide NoCache;
  }

  lemma BackDistinct(rest: seq<string>, n: nat, d: string)
    requires n <= |rest| && NoDuplicates(rest) && d !in rest
    ensures NoDuplicates(rest[n..] + [d])
    ensures forall k | k in rest[n..] :: k in rest && k !in rest[..n]
  {
    var order := rest[n..] + [d];
    forall i, j | 0 <= i < j < |order| ensures order[i] != order[j] {
      assert order[i] == rest[n + i];
      if j < |order| - 1 { assert order[j] == rest[n + j]; }
    }
    forall k | k in rest[n..] ensures k in rest && k !in rest[..n] {
      var i :| 0 <= i < |rest[n..]| && rest[n..][i] == k;
      assert rest[n + i] == k;
      forall j | 0 <= j < n ensures rest[j] != k { }
    }
  }

  lemma ListedAreActive(s: Sched, s': Sched, rest: seq<string>, n: nat, d: string)
    requires SchedOk(s) && n <= |rest| && d in s.store.records && s'.order == rest[n..] + [d]
    requires (forall k | k in rest :: k in s.order) && forall k | k in rest[n..] :: k in rest && k !in rest[..n]
    requires s'.store.records.Keys == s.store.records.Keys && s'.store.records[d].state == Active
    requires forall k | k in s.store.records && k != d && k !in rest[..n] :: s'.store.records[k] == s.store.records[k]
    requires forall k | k in s.store.records && k in rest[..n] :: s'.store.records[k].state == Hibernated
    ensures forall k | k in s'.order && k in s'.store.records :: s'.store.records[k].state == Active
    ensures forall k | k in s'.store.records :: s'.store.records[k].state != Destroyed
  {
    hide NoDuplicates;
  }

  lemma ActivateOk(s: Sched, d: string, tick: nat)
    requires SchedOk(s) && d in s.store.records
    ensures SchedOk(Activate(s, d, tick).0)
  {
    ActivateQueue(s, d, tick);
    RestIs(s, d);
    hide Activate, Remove, NoCache, NoDuplicates;
    var s', rest := Activate(s, d, tick).0, Remove(s.order, d);
    var n := Excess(s.(order := rest));
    BackDistinct(rest, n, d);
    ListedAreActive(s, s', rest, n, d);
  }

  predicate OpOk(op: SchedOp) { op.DoCreate? ==> op.identity.state == Active }

  lemma HibernateOk(s: Sched, d: string, tick: nat)
    requires SchedOk(s)
    ensures SchedOk(Hibernate(s, d, tick).0)
  {
    RemoveDistinct(s.order, d);
    forall x ensures x in Remove(s.order, d) <==> x in s.order && x != d { RemoveContents(s.order, d, x); }
    RemoveContents(s.order, d, d);
    hide Remove, NoCache, NoDuplicates;
  }

  lemma StoreOpsOk(s: Sched, op: SchedOp)
    requires SchedOk(s) && OpOk(op) && (op.DoCreate? || op.DoDestroy?)
    ensures SchedOk(SchedStep(s, op))
  {
    hide LooksOpaque, ResidualBytes, NoDuplicates;
  }

  /** Every operation keeps the queue within the cap, free of duplicates, and listing only active identities. */
  lemma StepKeeps(s: Sched, op: SchedOp)
    requires SchedOk(s) && OpOk(op)
    ensures SchedOk(SchedStep(s, op)) && SchedStep(s, op).cap == s.cap
  {
    hide SchedOk, Activate, Hibernate, Insert, ManagerDestroy;
    match op
    case DoActivate(d, tick) => UnknownStays(s, d, tick); if d in s.store.records { ActivateOk(s, d, tick); ActivateQueue(s, d, tick); }
    case DoWake(d, tick) => UnknownStays(s, d, tick); if d in s.store.records { ActivateOk(s, d, tick); ActivateQueue(s, d, tick); }
    case DoHibernate(d, tick) => HibernateOk(s, d, tick); HibernateCap(s, d, tick);
    case _ => StoreOpsOk(s, op);
  }

  lemma HibernateCap(s: Sched, d: string, tick: nat)
    ensures Hibernate(s, d, tick).0.cap == s.cap
  {
    hide Remove, NoCache;
  }

  lemma UnknownStays(s: Sched, d: string, tick: nat)
    ensures d !in s.store.records ==> Activate(s, d, tick).0 == s
  {
    hide EvictDown, Remove;
  }

  ghost predicate OpsOk(ops: seq<SchedOp>) { forall i | 0 <= i < |ops| :: OpOk(ops[i]) }

  lemma {:induction false} RunKeepsQueue(s: Sched, ops: seq<SchedOp>)
    requires SchedOk(s) && OpsOk(ops)
    ensures SchedOk(RunSched(s, ops)) && RunSched(s, ops).cap == s.cap
  {
    hide SchedOk, SchedStep, OpOk;
    if ops != [] {
      var front, op := ops[..|ops| - 1], ops[|ops| - 1];
      RunKeepsQueue(s, front);
      StepKeeps(RunSched(s, front), op);
    }
  }

  // The active records against the queue

  function ActiveOnes(s: Sched): set<string> { set d | d in s.store.records && s.store.records[d].state == Active }

  /** Listed, and still there. */
  function ListedOnes(s: Sched): set<string> { set d | d in s.order && d in s.store.records }

  /** What was created while it was not listed, and has not been activated, hibernated or destroyed since. */
  function Unlisted(s: Sched, ops: seq<SchedOp>): set<string> {
    if ops == [] then {}
    else
      var u, before := Unlisted(s, ops[..|ops| - 1]), RunSched(s, ops[..|ops| - 1]);
      match ops[|ops| - 1]
      case DoCreate(r) => if Insert(before.store, r).1 == Ok && r.domain !in before.order then u + {r.domain} else u
      case DoActivate(d, _) => u - {d}
      case DoHibernate(d, _) => u - {d}
      case DoDestroy(d) => u - {d}
      case DoWake(_, _) => u
  }

  /** The active records are the listed ones and those of `u`, and no domain is both. */
  ghost predicate Accounted(s: Sched, u: set<string>) {
    forall d :: (d in u ==> d !in s.order)
                && (d in s.store.records && s.store.records[d].state == Active <==> (d in s.order && d in s.store.records) || d in u)
  }

  lemma ActivateAccounts(s: Sched, d: string, tick: nat, u: set<string>)
    requires SchedOk(s) && d in s.store.records && Accounted(s, u)
    ensures Accounted(Activate(s, d, tick).0, u - {d})
  {
    ActivateQueue(s, d, tick);
    RestIs(s, d);
    var s', rest := Activate(s, d, tick).0, Remove(s.order, d);
    var n := Excess(s.(order := rest));
    forall x ensures x in rest <==> x in s.order && x != d { RemoveContents(s.order, d, x); }
    hide Activate, Remove, NoCache, NoDuplicates, Excess;
    BackDistinct(rest, n, d);
    assert rest == rest[..n] + rest[n..];
    forall x ensures x in s'.order <==> x == d || (x in rest && x !in rest[..n]) { }
    forall x ensures (x in u - {d} ==> x !in s'.order)
                     && (x in s'.store.records && s'.store.records[x].state == Active <==> (x in s'.order && x in s'.store.records) || x in u - {d})
    {
    }
  }

  lemma HibernateAccounts(s: Sched, d: string, tick: nat, u: set<string>)
    requires SchedOk(s) && Accounted(s, u)
    ensures Accounted(Hibernate(s, d, tick).0, u - {d})
  {
    forall x ensures x in Remove(s.order, d) <==> x in s.order && x != d { RemoveContents(s.order, d, x); }
    hide Remove, NoCache, NoDuplicates;
  }

  lemma {:induction false} RunAccounts(s: Sched, ops: seq<SchedOp>)
    requires SchedOk(s) && s.store.records == map[] && s.order == [] && OpsOk(ops)
    ensures Accounted(RunSched(s, ops), Unlisted(s, ops))
  {
    hide SchedOk, Activate, Hibernate, Insert, ManagerDestroy, Accounted;
    if ops == [] {
      NoneAccounted(s);
    } else {
      var front, op := ops[..|ops| - 1], ops[|ops| - 1];
      var before, u := RunSched(s, front), Unlisted(s, front);
      RunKeepsQueue(s, front);
      RunAccounts(s, front);
      match op
      case DoActivate(d, tick) => UnknownStays(before, d, tick); if d in before.store.records { ActivateAccounts(before, d, tick, u); } else { AbsentUnlisted(before, u, d); }
      case DoWake(d, tick) =>
        UnknownStays(before, d, tick);
        if d in before.store.records && before.store.records[d].state == Hibernated {
          ActivateAccounts(before, d, tick, u);
          AsleepUnlisted(before, u, d);
        }
      case DoHibernate(d, tick) => HibernateAccounts(before, d, tick, u);
      case DoCreate(r) => CreateAccounts(before, r, u);
      case DoDestroy(d) => DestroyAccounts(before, d, u);
    }
  }

  lemma NoneAccounted(s: Sched)
    requires s.store.records == map[] && s.order == []
    ensures Accounted(s, {})
  {
  }

  lemma AbsentUnlisted(s: Sched, u: set<string>, d: string)
    requires Accounted(s, u) && d !in s.store.records
    ensures u - {d} == u
  {
    assert d !in u;
  }

  lemma AsleepUnlisted(s: Sched, u: set<string>, d: string)
    requires Accounted(s, u) && d in s.store.records && s.store.records[d].state != Active
    ensures u - {d} == u
  {
    assert d !in u;
  }

  lemma CreateAccounts(s: Sched, r: Identity, u: set<string>)
    requires Accounted(s, u) && r.state == Active
    ensures Accounted(s.(store := Insert(s.store, r).0), if Insert(s.store, r).1 == Ok && r.domain !in s.order then u + {r.domain} else u)
  {
    hide LooksOpaque;
  }

  lemma DestroyAccounts(s: Sched, d: string, u: set<string>)
    requires Accounted(s, u)
    ensures Accounted(s.(store := ManagerDestroy(s.store, d).0), u - {d})
  {
    hide ResidualBytes;
    if d !in s.store.records { AbsentUnlisted(s, u, d); }
  }

  /**
    Over every run from an empty store the active records are the listed ones that are still there, and the unlisted creations.
    So the cap, which bounds the queue, bounds the active records exactly when the unlisted creations fit beside the listed ones.
   */
  lemma ActiveRecordsCount(s: Sched, ops: seq<SchedOp>)
    requires SchedOk(s) && s.store.records == map[] && s.order == [] && OpsOk(ops)
    ensures var s', u := RunSched(s, ops), Unlisted(s, ops);
            && ActiveOnes(s') == ListedOnes(s') + u && ListedOnes(s') * u == {}
            && |ActiveOnes(s')| == |ListedOnes(s')| + |u| && |ListedOnes(s')| <= s.cap
            && (|ActiveOnes(s')| <= s.cap <==> |u| <= s.cap - |ListedOnes(s')|)
  {
    RunAccounts(s, ops);
    RunKeepsQueue(s, ops);
    var s', u := RunSched(s, ops), Unlisted(s, ops);
    hide RunSched, Unlisted, NoDuplicates;
    assert forall d :: d in ListedOnes(s') ==> d in s'.order;
    ListedAtMost(s', s'.order);
  }

  lemma {:induction false} ListedAtMost(s: Sched, order: seq<string>)
    ensures |set d | d in order && d in s.store.records| <= |order|
  {
    if order != [] {
      var front, last := order[..|order| - 1], order[|order| - 1];
      ListedAtMost(s, front);
      var fewer, all := set d | d in front && d in s.store.records, set d | d in order && d in s.store.records;
      assert order == front + [last];
      assert all == if last in s.store.records then fewer + {last} else fewer;
    }
  }

  /** Two creations under a cap of one: both records are active, and the queue is empty. */
  lemma CreationsIgnoreCap(s: Sched, a: Identity, b: Identity)
    requires s == Sched(IdentityStore(map[], map[]), [], 1, []) && a.state == b.state == Active && a.domain != b.domain
    requires LooksOpaque(a.domain, a.displayName) && LooksOpaque(b.domain, b.displayName)
    ensures var s' := RunSched(s, [DoCreate(a), DoCreate(b)]); s'.order == [] && |ActiveOnes(s')| == 2
  {
    hide LooksOpaque;
    var ops := [DoCreate(a), DoCreate(b)];
    assert ops[..1] == [DoCreate(a)] && ops[..1][..0] == [];
    assert RunSched(s, []) == s;
    assert RunSched(s, [DoCreate(a)]) == SchedStep(s, DoCreate(a)) by { assert [DoCreate(a)][..0] == []; }
    assert RunSched(s, ops) == SchedStep(SchedStep(s, DoCreate(a)), DoCreate(b));
    hide RunSched;
    var s' := RunSched(s, ops);
    assert s'.store.records == map[a.domain := a, b.domain := b];
    assert ActiveOnes(s') == {a.domain, b.domain};
  }

  // The order is that of the last activations

  /** The domain that an operation puts at the back of the queue. */
  function Moves(s: Sched, op: SchedOp): Option<string> {
    if op.DoActivate? && op.domain in s.store.records && s.store.records[op.domain].state != Destroyed then Some(op.domain)
    else if op.DoWake? && op.domain in s.store.records && s.store.records[op.domain].state == Hibernated then Some(op.domain)
    else None
  }

  /** The step at which a domain was last put at the back, or -1. */
  function LastMoved(s: Sched, ops: seq<SchedOp>, d: string): int {
    if ops == [] then -1
    else if Moves(RunSched(s, ops[..|ops| - 1]), ops[|ops| - 1]) == Some(d) then |ops| - 1
    else LastMoved(s, ops[..|ops| - 1], d)
  }

  lemma {:induction false} MovedBefore(s: Sched, ops: seq<SchedOp>, d: string)
    ensures LastMoved(s, ops, d) < |ops|
  {
    hide Moves, RunSched;
    if ops != [] { MovedBefore(s, ops[..|ops| - 1], d); }
  }

  /** `p` stands somewhere before `q`. */
  ghost predicate Before(a: seq<string>, p: string, q: string) { exists x, y :: 0 <= x < y < |a| && a[x] == p && a[y] == q }

  /** `b` is made of members of `a`, in the order they have there. */
  ghost predicate Subsequence(b: seq<string>, a: seq<string>) { forall i, j | 0 <= i < j < |b| :: Before(a, b[i], b[j]) }

  lemma {:induction false} RemoveKeepsOrder(order: seq<string>, d: string)
    ensures Subsequence(Remove(order, d), order)
  {
    if order != [] {
      var front, last := order[..|order| - 1], order[|order| - 1];
      RemoveKeepsOrder(front, d);
      RemoveTurn(order, d);
      var r, r0 := Remove(order, d), Remove(front, d);
      hide Remove;
      forall i, j | 0 <= i < j < |r| ensures Before(order, r[i], r[j]) {
        if j < |r0| {
          assert Before(front, r0[i], r0[j]);
          var x, y :| 0 <= x < y < |front| && front[x] == r0[i] && front[y] == r0[j];
          assert order[x] == r[i] && order[y] == r[j];
        } else {
          RemoveContents(front, d, r0[i]);
          var x :| 0 <= x < |front| && front[x] == r0[i];
          assert order[x] == r[i] && order[|order| - 1] == r[j];
        }
      }
    }
  }

  lemma DropKeepsOrder(a: seq<string>, b: seq<string>, n: nat)
    requires Subsequence(b, a) && n <= |b|
    ensures Subsequence(b[n..], a)
  {
    hide Before;
    forall i, j | 0 <= i < j < |b[n..]| ensures Before(a, b[n..][i], b[n..][j]) { assert Before(a, b[n + i], b[n + j]); }
  }

  ghost predicate MovesBack(s: Sched, s': Sched, moved: Option<string>) {
    && (forall d | d in s'.order :: d in s.order || moved == Some(d))
    && match moved
       case None => Subsequence(s'.order, s.order)
       case Some(d) =>
         s'.order != [] && s'.order[|s'.order| - 1] == d && Subsequence(s'.order[..|s'.order| - 1], s.order) && d !in s'.order[..|s'.order| - 1]
  }

  lemma ActivateMoves(s: Sched, d: string, tick: nat)
    requires SchedOk(s) && d in s.store.records
    ensures MovesBack(s, Activate(s, d, tick).0, Some(d))
  {
    var rest := Remove(s.order, d);
    ActivateQueue(s, d, tick);
    RemoveKeepsOrder(s.order, d);
    forall x ensures x in rest <==> x in s.order && x != d { RemoveContents(s.order, d, x); }
    hide Remove, Activate, SchedOk, NoCache, Before;
    var n := Excess(s.(order := rest));
    DropKeepsOrder(s.order, rest, n);
    hide Subsequence;
    BackOf(s, Activate(s, d, tick).0, rest[n..], d);
  }

  lemma BackOf(s: Sched, s': Sched, rest: seq<string>, d: string)
    requires s'.order == rest + [d] && Subsequence(rest, s.order) && forall x | x in rest :: x in s.order && x != d
    ensures MovesBack(s, s', Some(d))
  {
    hide Subsequence;
    assert s'.order[..|s'.order| - 1] == rest;
  }

  lemma HibernateMoves(s: Sched, d: string, tick: nat)
    ensures MovesBack(s, Hibernate(s, d, tick).0, None)
  {
    SelfSubsequence(s.order);
    RemoveKeepsOrder(s.order, d);
    forall x ensures x in Remove(s.order, d) <==> x in s.order && x != d { RemoveContents(s.order, d, x); }
    hide Remove, NoCache, Subsequence;
  }

  lemma NothingMoves(s: Sched)
    ensures MovesBack(s, s, None)
  {
    SelfSubsequence(s.order);
    hide Subsequence;
  }

  /** A step leaves the rest of the queue in order, and puts what it moves at the back. */
  lemma StepOrder(s: Sched, op: SchedOp)
    requires SchedOk(s) && OpOk(op)
    ensures MovesBack(s, SchedStep(s, op), Moves(s, op))
  {
    NothingMoves(s);
    match op {
      case DoActivate(d, tick) => if d in s.store.records { ActivateMoves(s, d, tick); }
      case DoWake(d, tick) => if d in s.store.records { ActivateMoves(s, d, tick); }
      case DoHibernate(d, tick) => HibernateMoves(s, d, tick);
      case _ => StoreOpsOrder(s, op);
    }
    hide Activate, Hibernate, MovesBack;
    if op.DoActivate? { UnknownStays(s, op.domain, op.tick); }
  }

  lemma StoreOpsOrder(s: Sched, op: SchedOp)
    requires op.DoCreate? || op.DoDestroy?
    ensures MovesBack(s, SchedStep(s, op), None)
  {
    SelfSubsequence(s.order);
    hide LooksOpaque, ResidualBytes, Subsequence;
  }

  lemma SelfSubsequence(a: seq<string>)
    ensures Subsequence(a, a)
  {
    forall i, j | 0 <= i < j < |a| ensures Before(a, a[i], a[j]) { }
  }

  ghost predicate ByLastMove(s: Sched, ops: seq<SchedOp>, order: seq<string>) {
    && (forall i | 0 <= i < |order| :: 0 <= LastMoved(s, ops, order[i]))
    && forall i, j | 0 <= i < j < |order| :: LastMoved(s, ops, order[i]) < LastMoved(s, ops, order[j])
  }

  /** Over every run from an empty queue, the queue is ordered by last activation: its front is the least recently activated. */
  lemma {:induction false} QueueIsByActivation(s: Sched, ops: seq<SchedOp>)
    requires SchedOk(s) && s.order == [] && OpsOk(ops)
    ensures ByLastMove(s, ops, RunSched(s, ops).order)
  {
    hide SchedOk, SchedStep, OpOk, Moves, MovesBack;
    if ops != [] {
      var front, op := ops[..|ops| - 1], ops[|ops| - 1];
      var before := RunSched(s, front);
      RunKeepsQueue(s, front);
      QueueIsByActivation(s, front);
      StepOrder(before, op);
      MovesBackOrder(before, SchedStep(before, op), before, Moves(before, op));
      OrderGrows(s, ops, before.order, SchedStep(before, op).order, Moves(before, op));
    }
  }

  lemma MovesBackOrder(s: Sched, s': Sched, t: Sched, moved: Option<string>)
    requires MovesBack(s, s', moved)
    ensures MovesBack(t.(order := s.order), t.(order := s'.order), moved)
  {
    hide Subsequence;
  }

  lemma OrderGrows(s: Sched, ops: seq<SchedOp>, prior: seq<string>, order: seq<string>, moved: Option<string>)
    requires ops != [] && ByLastMove(s, ops[..|ops| - 1], prior) && moved == Moves(RunSched(s, ops[..|ops| - 1]), ops[|ops| - 1])
    requires MovesBack(RunSched(s, ops[..|ops| - 1]).(order := prior), RunSched(s, ops[..|ops| - 1]).(order := order), moved)
    ensures ByLastMove(s, ops, order)
  {
    hide Moves, RunSched;
    var front := ops[..|ops| - 1];
    var m := if moved.None? then |order| else |order| - 1;
    forall i | 0 <= i < |order| ensures 0 <= LastMoved(s, ops, order[i]) && (i < m ==> LastMoved(s, ops, order[i]) == LastMoved(s, front, order[i])) {
      if i < m { assert order[..m][i] == order[i]; assert order[i] in prior; }
    }
    forall i, j | 0 <= i < j < |order| ensures LastMoved(s, ops, order[i]) < LastMoved(s, ops, order[j]) {
      if j < m {
        assert order[..m] == if moved.None? then order else order[..|order| - 1];
        assert Before(prior, order[..m][i], order[..m][j]);
        var x, y :| 0 <= x < y < |prior| && prior[x] == order[..m][i] && prior[y] == order[..m][j];
      } else {
        MovedBefore(s, front, order[i]);
      }
    }
  }

  // What sleeping and waking keep

  /** Everything but the state and the cache: each blob of another kind as often as before, in the same order. */
  ghost predicate Keeps(r: Identity, r': Identity) {
    r' == r.(state := r'.state, surface := r'.surface) && SameButCache(r.surface, r'.surface)
  }

  lemma KeepsChain(a: Identity, b: Identity, c: Identity)
    requires Keeps(a, b) && Keeps(b, c)
    ensures Keeps(a, c)
  {
    SameButCacheChain(a.surface, b.surface, c.surface);
    hide SameButCache;
  }

  lemma SleepKeeps(r: Identity)
    ensures Keeps(r, r.(state := Hibernated, surface := NoCache(r.surface)))
  {
    DiscardKeeps(r.surface);
    hide NoCache, SameButCache;
  }

  lemma StepKeepsRecord(s: Sched, op: SchedOp, d: string)
    requires SchedOk(s) && OpOk(op) && d in s.store.records && op != DoDestroy(d)
    ensures d in SchedStep(s, op).store.records && Keeps(s.store.records[d], SchedStep(s, op).store.records[d])
  {
    SleepKeeps(s.store.records[d]);
    KeepsSelf(s.store.records[d]);
    match op
    case DoActivate(x, tick) => ActivationKeeps(s, x, tick, d);
    case DoWake(x, tick) => ActivationKeeps(s, x, tick, d);
    case DoHibernate(x, tick) => { hide Keeps, NoCache, Remove, SchedOk; }
    case DoCreate(r) => { hide Keeps, LooksOpaque, SchedOk; }
    case DoDestroy(x) => { hide Keeps, ResidualBytes, SchedOk; }
  }

  lemma ActivationKeeps(s: Sched, x: string, tick: nat, d: string)
    requires SchedOk(s) && d in s.store.records
    ensures d in Activate(s, x, tick).0.store.records && Keeps(s.store.records[d], Activate(s, x, tick).0.store.records[d])
    ensures d in Wake(s, x, tick).0.store.records && Keeps(s.store.records[d], Wake(s, x, tick).0.store.records[d])
  {
    SleepKeeps(s.store.records[d]);
    KeepsSelf(s.store.records[d]);
    UnknownStays(s, x, tick);
    if x in s.store.records { ActivateQueue(s, x, tick); }
    hide SchedOk, Activate, Keeps, NoCache, Remove;
  }

  lemma KeepsSelf(r: Identity)
    ensures Keeps(r, r) && Keeps(r, r.(state := Active))
  {
    SameAsItself(r.surface);
    hide SameButCache;
  }

  /** Any number of evictions and wakes leaves the prefs and everything but the cache of a live identity as they were. */
  lemma RunKeepsRecord(s: Sched, ops: seq<SchedOp>, d: string)
    requires SchedOk(s) && OpsOk(ops) && d in s.store.records && forall i | 0 <= i < |ops| :: ops[i] != DoDestroy(d)
    ensures d in RunSched(s, ops).store.records && Keeps(s.store.records[d], RunSched(s, ops).store.records[d])
    ensures forall b: Blob | b.kind != "cache" :: multiset(RunSched(s, ops).store.records[d].surface)[b] == multiset(s.store.records[d].surface)[b]
  {
    RunKeeps(s, ops, d);
    hide RunSched, SameButCache;
    forall b: Blob | b.kind != "cache" ensures multiset(RunSched(s, ops).store.records[d].surface)[b] == multiset(s.store.records[d].surface)[b] {
      SameButCacheCounts(s.store.records[d].surface, RunSched(s, ops).store.records[d].surface, b);
    }
  }

  lemma {:induction false} RunKeeps(s: Sched, ops: seq<SchedOp>, d: string)
    requires SchedOk(s) && OpsOk(ops) && d in s.store.records && forall i | 0 <= i < |ops| :: ops[i] != DoDestroy(d)
    ensures d in RunSched(s, ops).store.records && Keeps(s.store.records[d], RunSched(s, ops).store.records[d])
  {
    KeepsSelf(s.store.records[d]);
    hide SchedOk, SchedStep, OpOk, Keeps;
    if ops != [] {
      var front, op := ops[..|ops| - 1], ops[|ops| - 1];
      RunKeepsQueue(s, front);
      RunKeeps(s, front, d);
      StepKeepsRecord(RunSched(s, front), op, d);
      KeepsChain(s.store.records[d], RunSched(s, front).store.records[d], RunSched(s, ops).store.records[d]);
    }
  }

  lemma StepCreatesNothing(s: Sched, op: SchedOp, d: string)
    requires SchedOk(s) && d !in s.store.records && !(op.DoCreate? && op.identity.domain == d)
    ensures d !in SchedStep(s, op).store.records
  {
    if (op.DoActivate? || op.DoWake?) && op.domain in s.store.records { ActivateQueue(s, op.domain, op.tick); }
    hide Remove, EvictDown, NoCache, LooksOpaque, ResidualBytes, SchedOk, Activate;
    if op.DoActivate? || op.DoWake? { UnknownStays(s, op.domain, op.tick); }
  }

  /** What is gone stays gone: no activation, eviction or wake brings a missing identity back. */
  lemma {:induction false} NoResurrection(s: Sched, ops: seq<SchedOp>, d: string)
    requires SchedOk(s) && OpsOk(ops) && d !in s.store.records
    requires forall i | 0 <= i < |ops| :: !(ops[i].DoCreate? && ops[i].identity.domain == d)
    ensures d !in RunSched(s, ops).store.records
    ensures forall tick :: Wake(RunSched(s, ops), d, tick) == (RunSched(s, ops), Failed("kUnknownIdentity"))
  {
    hide SchedOk, SchedStep, OpOk;
    if ops != [] {
      var front, op := ops[..|ops| - 1], ops[|ops| - 1];
      RunKeepsQueue(s, front);
      NoResurrection(s, front, d);
      StepCreatesNothing(RunSched(s, front), op, d);
    }
  }

  lemma StepKeepsShape(s: Sched, op: SchedOp)
    requires SchedOk(s) && OpOk(op) && StoreShaped(s.store)
    ensures StoreShaped(SchedStep(s, op).store)
  {
    if op.DoCreate? {
      InsertKeepsShape(s.store, op.identity);
      hide Insert, StoreShaped;
    } else {
      var s' := SchedStep(s, op);
      hide SchedStep, SchedOk, DomainShapeOk, NoCache;
      forall k | k in s'.store.records ensures DomainShapeOk(k) && s'.store.records[k].domain == k {
        if k !in s.store.records { StepCreatesNothing(s, op, k); }
        if op == DoDestroy(k) { DestroyRemoves(s, k); } else { StepKeepsRecord(s, op, k); }
      }
    }
  }

  lemma DestroyRemoves(s: Sched, d: string)
    ensures d !in SchedStep(s, DoDestroy(d)).store.records
  {
    hide ResidualBytes;
  }

  /** Over every run, every key in the store is a domain of the right shape. */
  lemma {:induction false} RunKeepsShape(s: Sched, ops: seq<SchedOp>)
    requires SchedOk(s) && OpsOk(ops) && StoreShaped(s.store)
    ensures StoreShaped(RunSched(s, ops).store)
  {
    hide SchedOk, SchedStep, OpOk, StoreShaped;
    if ops != [] {
      var front, op := ops[..|ops| - 1], ops[|ops| - 1];
      RunKeepsQueue(s, front);
      RunKeepsShape(s, front);
      StepKeepsShape(RunSched(s, front), op);
    }
  }

  /** The scheduler object, over the manager it drives. */
  class Scheduler {
    const manager: Manager
    const cap: nat
    var order: seq<string>
    var evictions: seq<Eviction>

    constructor (manager: Manager, activeCap: nat)
      ensures this.manager == manager && Now() == Sched(manager.Now(), [], if activeCap == 0 then 1 else activeCap, [])
    {
      this.manager := manager;
      cap := if activeCap == 0 then 1 else activeCap;
      order, evictions := [], [];
    }

    function Now(): Sched
      reads this, manager
    {
      Sched(manager.Now(), order, cap, evictions)
    }

    method Unlist(d: string)
      modifies this
      ensures Now() == old(Now()).(order := Remove(old(order), d))
    {
      var rest: seq<string> := [];
      for i := 0 to |order|
        invariant rest == Remove(order[..i], d)
        invariant Now() == old(Now())
      {
        assert order[..i + 1][..i] == order[..i];
        if order[i] != d { rest := rest + [order[i]]; }
      }
      assert order[..|order|] == order;
      order := rest;
    }

    method EvictOldest(tick: nat)
      requires order != []
      modifies this, manager
      ensures Now() == EvictLru(old(Now()), tick)
    {
      hide NoCache;
      var victim := order[0];
      if victim in manager.records && manager.records[victim].state == Active {
        var r := manager.Hibernate(victim);
        evictions := evictions + [Eviction(victim, tick, "cap")];
      }
      order := order[1..];
    }

    /** Evict until one more fits. */
    method MakeRoom(tick: nat)
      requires cap >= 1
      modifies this, manager
      ensures Now() == EvictDown(old(Now()), tick)
    {
      hide EvictDown, EvictLru;
      while |order| + 1 > cap
        invariant EvictDown(Now(), tick) == EvictDown(old(Now()), tick)
        decreases |order|
      {
        EvictTurn(Now(), tick);
        LruShrinks(Now(), tick);
        EvictOldest(tick);
      }
      EvictTurn(Now(), tick);
    }

    method ActivateIdentity(d: string, tick: nat) returns (result: CallResult)
      requires cap >= 1
      modifies this, manager
      ensures (Now(), result) == Activate(old(Now()), d, tick)
    {
      hide EvictDown, Remove;
      if d !in manager.records { return Failed("kUnknownIdentity"); }
      if manager.records[d].state == Destroyed { return Failed("kNotPermitted"); }
      Unlist(d);
      MakeRoom(tick);
      result := manager.Activate(d);
      if result == Ok { order := order + [d]; }
    }

    method HibernateIdentity(d: string, tick: nat) returns (result: CallResult)
      modifies this, manager
      ensures (Now(), result) == Hibernate(old(Now()), d, tick)
    {
      hide Remove, NoCache;
      result := manager.Hibernate(d);
      if result == Ok {
        Unlist(d);
        evictions := evictions + [Eviction(d, tick, "user")];
      }
    }

    method WakeIdentity(d: string, tick: nat) returns (result: CallResult)
      requires cap >= 1
      modifies this, manager
      ensures (Now(), result) == Wake(old(Now()), d, tick)
    {
      hide Activate;
      if d !in manager.records { return Failed("kUnknownIdentity"); }
      if manager.records[d].state == Destroyed { return Failed("kNotPermitted"); }
      if manager.records[d].state == Active { return Ok; }
      result := ActivateIdentity(d, tick);
    }

    /** History keeps its most recent events; the queue and the records are untouched. */
    method CompactEvictions(keep: nat) returns (dropped: nat)
      modifies this
      ensures dropped == if |old(evictions)| <= keep then 0 else |old(evictions)| - keep
      ensures Now() == old(Now()).(evictions := old(evictions)[dropped..])
    {
      if |evictions| <= keep { return 0; }
      dropped := |evictions| - keep;
      evictions := evictions[dropped..];
    }
  }

  lemma EvictTurn(s: Sched, tick: nat)
    ensures EvictDown(s, tick) == if s.order == [] || |s.order| + 1 <= s.cap then s else EvictDown(EvictLru(s, tick), tick)
  {
    hide EvictLru;
  }

  lemma LruShrinks(s: Sched, tick: nat)
    requires s.order != []
    ensures |EvictLru(s, tick).order| == |s.order| - 1 && EvictLru(s, tick).cap == s.cap
  {
  }
}
