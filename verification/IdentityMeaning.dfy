/** Identities written out: the characters of a minted domain, which domains are opaque, and what each call answers and changes. */
module IdentityMeaning {
  import opened Wrappers
  import opened Order
  import opened Selection
  import opened IdentityModel
  import opened IdentityScheduler

  // Minted domains

  ghost predicate HexDigit(c: char, n: int) {
    (0 <= n < 10 && c as int == '0' as int + n) || (10 <= n < 16 && c as int == 'a' as int + n - 10)
  }

  lemma HexOfDigits(b: byte)
    ensures HexDigit(HexOf(b)[0], b / 16) && HexDigit(HexOf(b)[1], b % 16)
  {
    HexDigits(b / 16);
    HexDigits(b % 16);
  }

  lemma HexDigits(n: nat)
    requires n < 16
    ensures HexDigit(HEX[n], n)
  {
  }

  lemma {:induction false} HexAllAt(b: seq<byte>, k: nat)
    requires k < |b|
    ensures HexAll(b)[2 * k] == HexOf(b[k])[0] && HexAll(b)[2 * k + 1] == HexOf(b[k])[1]
  {
    hide HexOf;
    if k < |b| - 1 { HexAllAt(b[..|b| - 1], k); }
  }

  /** Where the two digits of byte `k` stand: after "xr:", and one dash further from the fifth, seventh, ninth and eleventh byte on. */
  ghost function Column(k: nat): nat { 3 + 2 * k + (if k < 4 then 0 else if k < 6 then 1 else if k < 8 then 2 else if k < 10 then 3 else 4) }

  ghost predicate Spelled(s: string, k: nat, x: byte) { Column(k) + 1 < |s| && HexDigit(s[Column(k)], x / 16) && HexDigit(s[Column(k) + 1], x % 16) }

  lemma UuidColumns(a: string, b: string, c: string, d: string, e: string)
    requires |a| == 8 && |b| == 4 && |c| == 4 && |d| == 4 && |e| == 12
    ensures var s := "xr:" + a + "-" + b + "-" + c + "-" + d + "-" + e;
            && |s| == 39 && s[..3] == "xr:" && s[11] == '-' && s[16] == '-' && s[21] == '-' && s[26] == '-'
            && s[3..11] == a && s[12..16] == b && s[17..21] == c && s[22..26] == d && s[27..39] == e
  {
  }

  lemma GroupSpelled(r: seq<byte>, s: string, lo: nat, hi: nat, k: nat)
    requires lo <= k < hi <= |r| && Column(k) == Column(lo) + 2 * (k - lo)
    requires Column(lo) + 2 * (hi - lo) <= |s| && s[Column(lo)..Column(lo) + 2 * (hi - lo)] == HexAll(r[lo..hi])
    ensures Spelled(s, k, r[k])
  {
    var part := s[Column(lo)..Column(lo) + 2 * (hi - lo)];
    HexAllAt(r[lo..hi], k - lo);
    HexOfDigits(r[k]);
    hide HexAll, HexOf, HexDigit;
    assert r[lo..hi][k - lo] == r[k];
    assert part[2 * (k - lo)] == s[Column(k)] && part[2 * (k - lo) + 1] == s[Column(k) + 1];
  }

  /** The bytes that are spelled: the seventh carries version 4, the ninth the variant bits 10, the others are the entropy. */
  ghost function Spoken(b: seq<byte>, k: nat): byte
    requires |b| == 16 && k < 16
  {
    if k == 6 then 64 + b[6] % 16 else if k == 8 then 128 + b[8] % 64 else b[k]
  }

  /** Every character of a minted domain. */
  lemma MintedText(b: seq<byte>, k: nat)
    requires |b| == 16 && k < 16
    ensures var s := Uuid(b);
            && |s| == 39 && s[..3] == "xr:" && s[11] == '-' && s[16] == '-' && s[21] == '-' && s[26] == '-'
            && Spelled(s, k, Spoken(b, k))
  {
    var r, s := Stamped(b), Uuid(b);
    assert r[k] == Spoken(b, k);
    UuidColumns(HexAll(r[..4]), HexAll(r[4..6]), HexAll(r[6..8]), HexAll(r[8..10]), HexAll(r[10..]));
    hide HexAll, Stamped, Spelled, Uuid, Spoken;
    assert r[0..4] == r[..4] && r[10..16] == r[10..];
    if k < 4 { GroupSpelled(r, s, 0, 4, k); }
    else if k < 6 { GroupSpelled(r, s, 4, 6, k); }
    else if k < 8 { GroupSpelled(r, s, 6, 8, k); }
    else if k < 10 { GroupSpelled(r, s, 8, 10, k); }
    else { GroupSpelled(r, s, 10, 16, k); }
  }

  // Opaque domains

  /** The same letter, whatever its case; any other character only itself. */
  ghost predicate SameLetter(a: char, b: char) {
    || a == b || ('A' <= a <= 'Z' && b as int == a as int + 32) || ('A' <= b <= 'Z' && a as int == b as int + 32)
  }

  ghost predicate Embedded(d: string, probe: string) {
    exists i :: EmbeddedAt(d, probe, i)
  }

  ghost predicate EmbeddedAt(d: string, probe: string, i: int) {
    0 <= i && i + |probe| <= |d| && forall k | 0 <= k < |probe| :: SameLetter(d[i + k], probe[k])
  }

  /** Fewer than eight characters, each a dash or a hexadecimal digit of either case. */
  ghost predicate ByChance(probe: string) {
    |probe| <= 7 && forall k | 0 <= k < |probe| :: probe[k] == '-' || '0' <= probe[k] <= '9' || 'a' <= probe[k] <= 'f' || 'A' <= probe[k] <= 'F'
  }

  ghost predicate Shaped(d: string) {
    && (|d| == 39 || |d| == 40) && d[0] == 'x' && d[1] == 'r' && d[2] == ':'
    && (forall i | 3 <= i < |d| && i != 11 && i != 16 && i != 21 && i != 26 :: '0' <= d[i] <= '9' || 'a' <= d[i] <= 'f')
    && (forall i | i == 11 || i == 16 || i == 21 || i == 26 :: d[i] == '-' || '0' <= d[i] <= '9' || 'a' <= d[i] <= 'f')
    && d[17] == '4' && (d[22] == '8' || d[22] == '9' || d[22] == 'a' || d[22] == 'b')
  }

  lemma ShapedIs(d: string)
    ensures DomainShapeOk(d) <==> Shaped(d)
  {
    if |d| == 39 || |d| == 40 { assert d[..3] == [d[0], d[1], d[2]]; }
  }

  lemma LowerAlike(a: char, b: char)
    ensures Lower(a) == Lower(b) <==> SameLetter(a, b)
  {
  }

  lemma EmbeddedIs(d: string, probe: string, i: int)
    requires 0 <= i <= |d| - |probe|
    ensures LowerAll(d)[i..][..|probe|] == LowerAll(probe) <==> EmbeddedAt(d, probe, i)
  {
    var part := LowerAll(d)[i..][..|probe|];
    forall k | 0 <= k < |probe| ensures part[k] == LowerAll(probe)[k] <==> SameLetter(d[i + k], probe[k]) { LowerAlike(d[i + k], probe[k]); }
    hide SameLetter, Lower;
    if EmbeddedAt(d, probe, i) {
      assert part == LowerAll(probe);
    } else {
      var k :| 0 <= k < |probe| && !SameLetter(d[i + k], probe[k]);
      assert part[k] != LowerAll(probe)[k];
    }
  }

  lemma ContainsIs(d: string, probe: string)
    ensures Contains(LowerAll(d), LowerAll(probe)) <==> Embedded(d, probe)
  {
    forall i | 0 <= i <= |d| - |probe| ensures LowerAll(d)[i..][..|probe|] == LowerAll(probe) <==> EmbeddedAt(d, probe, i) { EmbeddedIs(d, probe, i); }
    var p, q := LowerAll(d), LowerAll(probe);
    if Embedded(d, probe) { var i :| EmbeddedAt(d, probe, i); assert p[i..][..|q|] == q; }
    if Contains(p, q) { var i :| 0 <= i <= |p| - |q| && p[i..][..|q|] == q; assert EmbeddedAt(d, probe, i); }
  }

  lemma ByChanceIs(probe: string)
    ensures |probe| < 8 && ChanceAlphabet(probe) <==> ByChance(probe)
  {
  }

  /** Which domains are admitted under which display names. */
  lemma OpaqueExactly(d: string, probe: string)
    ensures LooksOpaque(d, probe) <==> Shaped(d) && (probe == "" || ByChance(probe) || !Embedded(d, probe))
  {
    ShapedIs(d);
    ContainsIs(d, probe);
    ByChanceIs(probe);
    hide DomainShapeOk, Shaped, Contains, Embedded, ChanceAlphabet, ByChance;
  }

  // Calls on the store

  /** What each call answers, and the one record it touches. */
  lemma CallsMean(s: IdentityStore, r: Identity, d: string)
    ensures Insert(s, r) == if !(Shaped(r.domain) && (r.displayName == "" || ByChance(r.displayName) || !Embedded(r.domain, r.displayName)))
                            then (s, Failed("kNotPermitted"))
                            else if r.domain in s.records then (s, Failed("kAlreadyExists"))
                            else (IdentityStore(s.records[r.domain := r], s.residual), Ok)
    ensures d !in s.records ==> ManagerActivate(s, d) == (s, Failed("kUnknownIdentity")) && ManagerHibernate(s, d) == (s, Failed("kUnknownIdentity"))
                                && ManagerDestroy(s, d) == (s, Failed("kUnknownIdentity"))
    ensures d in s.records && s.records[d].state == Destroyed
            ==> ManagerActivate(s, d) == (s, Failed("kNotPermitted")) && ManagerHibernate(s, d) == (s, Failed("kNotPermitted"))
    ensures d in s.records && s.records[d].state != Destroyed
            ==> ManagerActivate(s, d) == (IdentityStore(s.records[d := s.records[d].(state := Active)], s.residual), Ok)
    ensures d in s.records ==> ManagerDestroy(s, d).0 == IdentityStore(s.records - {d}, s.residual)
                               && (ManagerDestroy(s, d).1 == Ok || ManagerDestroy(s, d).1 == Failed("kInternal"))
  {
    OpaqueExactly(r.domain, r.displayName);
    hide LooksOpaque, Shaped, ByChance, Embedded, NoCache, ResidualBytes;
  }

  // Calls on the scheduler

  ghost function Other(d: string): string -> bool { x => x != d }

  lemma {:induction false} RemoveMaps(order: seq<string>, d: string)
    ensures Maps(order, Other(d), (x: string) => x, Remove(order, d))
  {
    hide Maps;
    if order == [] {
      MapsNothing(Other(d), (x: string) => x);
    } else {
      RemoveMaps(order[..|order| - 1], d);
      MapsSnoc(order, Other(d), (x: string) => x, Remove(order[..|order| - 1], d));
    }
  }

  lemma RemoveIs(order: seq<string>, d: string)
    ensures Picks(order, Other(d), Remove(order, d))
  {
    RemoveMaps(order, d);
    hide Remove, Maps, Picks, Other;
    MapsIsPicks(order, Other(d), (x: string) => x, Remove(order, d));
  }

  /** A user's hibernation: refused as the store refuses it, else the record sleeps, leaves the queue, and is noted once. */
  lemma HibernateMeans(s: Sched, d: string, tick: nat)
    ensures d !in s.store.records ==> Hibernate(s, d, tick) == (s, Failed("kUnknownIdentity"))
    ensures d in s.store.records && s.store.records[d].state == Destroyed ==> Hibernate(s, d, tick) == (s, Failed("kNotPermitted"))
    ensures d in s.store.records && s.store.records[d].state != Destroyed ==>
              var (s', r) := Hibernate(s, d, tick);
              && r == Ok && s'.cap == s.cap && s'.evictions == s.evictions + [Eviction(d, tick, "user")]
              && Picks(s.order, Other(d), s'.order)
              && SleepsAlone(s.store, s'.store, d)
  {
    RemoveIs(s.order, d);
    hide Picks, Remove, NoCache, SleepsAlone;
    if d in s.store.records && s.store.records[d].state != Destroyed { SleepsAlready(s.store, d); }
  }

  /** One record sleeps without its cache; nothing else changes. */
  ghost predicate SleepsAlone(t: IdentityStore, t': IdentityStore, d: string)
    requires d in t.records
  {
    && t'.residual == t.residual && t'.records.Keys == t.records.Keys
    && (forall x | x in t.records && x != d :: t'.records[x] == t.records[x])
    && t'.records[d] == t.records[d].(state := Hibernated, surface := t'.records[d].surface)
    && Picks(t.records[d].surface, NotCache, t'.records[d].surface)
  }

  lemma SleepsAlready(t: IdentityStore, d: string)
    requires d in t.records && t.records[d].state != Destroyed
    ensures SleepsAlone(t, ManagerHibernate(t, d).0, d)
  {
    NoCacheIsRest(t.records[d].surface);
    hide Picks, NoCache;
  }

  /** Waking: a sleeper is activated, one that is awake stays so, one that is gone or destroyed is refused. */
  lemma WakeMeans(s: Sched, d: string, tick: nat)
    ensures d !in s.store.records ==> Wake(s, d, tick) == (s, Failed("kUnknownIdentity")) == Activate(s, d, tick)
    ensures d in s.store.records && s.store.records[d].state == Destroyed ==> Wake(s, d, tick) == (s, Failed("kNotPermitted")) == Activate(s, d, tick)
    ensures d in s.store.records && s.store.records[d].state == Active ==> Wake(s, d, tick) == (s, Ok)
    ensures d in s.store.records && s.store.records[d].state == Hibernated ==> Wake(s, d, tick) == Activate(s, d, tick)
  {
    hide EvictDown, Remove;
  }

  // Evictions

  ghost function Awake(records: map<string, Identity>): string -> bool { x => x in records && records[x].state == Active }

  ghost function Noted(tick: nat): string -> Eviction { x => Eviction(x, tick, "cap") }

  lemma OthersAwake(before: map<string, Identity>, after: map<string, Identity>, victim: string, rest: seq<string>)
    requires SleptOnly(before, after, [victim]) && after.Keys == before.Keys && victim !in rest
    ensures forall x | x in rest :: Awake(before)(x) <==> Awake(after)(x)
  {
    hide NoCache;
    forall x | x in rest ensures Awake(before)(x) <==> Awake(after)(x) { if x in before { VictimOnly(before, after, victim, x); } }
  }

  lemma FirstNoted(was: seq<Eviction>, gone: seq<string>, records: map<string, Identity>, tick: nat)
    requires gone != []
    ensures was + CapRows(gone, records, tick)
            == was + (if gone[0] in records && records[gone[0]].state == Active then [Eviction(gone[0], tick, "cap")] else []) + CapRows(gone[1..], records, tick)
  {
  }

  /** The rows that making room adds: one for each member that is put to sleep, in the order of the queue. */
  lemma {:induction false} EvictionsNoted(s: Sched, tick: nat)
    requires 1 <= s.cap && NoDuplicates(s.order)
    ensures Excess(s) <= |s.order|
    ensures EvictDown(s, tick).evictions == s.evictions + CapRows(s.order[..Excess(s)], s.store.records, tick)
    decreases |s.order|
  {
    EvictTurn(s, tick);
    hide EvictDown, EvictLru, NoDuplicates, SleptOnly, Awake, CapRows;
    if s.order != [] && |s.order| + 1 > s.cap {
      var next, n := EvictLru(s, tick), Excess(s);
      var gone, rest := s.order[..n], s.order[1..][..n - 1];
      LruSleeps(s, tick);
      LruRecords(s, tick);
      TailDistinct(s.order);
      EvictionsNoted(next, tick);
      assert gone[1..] == rest && gone[0] == s.order[0];
      assert s.order[0] !in rest by { assert forall x | x in rest :: x in s.order[1..]; }
      OthersAwake(s.store.records, next.store.records, s.order[0], rest);
      CapRowsAlike(rest, s.store.records, next.store.records, tick);
      FirstNoted(s.evictions, gone, s.store.records, tick);
    } else {
      NothingNoted(s, tick);
    }
  }

  lemma NothingNoted(s: Sched, tick: nat)
    ensures s.evictions + CapRows(s.order[..0], s.store.records, tick) == s.evictions
  {
    assert s.order[..0] == [];
  }

  ghost function CapRows(gone: seq<string>, records: map<string, Identity>, tick: nat): seq<Eviction> {
    if gone == [] then []
    else (if gone[0] in records && records[gone[0]].state == Active then [Eviction(gone[0], tick, "cap")] else []) + CapRows(gone[1..], records, tick)
  }

  lemma {:induction false} CapRowsAlike(gone: seq<string>, a: map<string, Identity>, b: map<string, Identity>, tick: nat)
    requires forall x | x in gone :: Awake(a)(x) <==> Awake(b)(x)
    ensures CapRows(gone, a, tick) == CapRows(gone, b, tick)
  {
    if gone != [] {
      CapRowsAlike(gone[1..], a, b, tick);
      assert Awake(a)(gone[0]) <==> Awake(b)(gone[0]);
    }
  }

  lemma {:induction false} CapRowsMaps(gone: seq<string>, records: map<string, Identity>, tick: nat)
    ensures Maps(gone, Awake(records), Noted(tick), CapRows(gone, records, tick))
  {
    hide Maps;
    if gone == [] {
      MapsNothing(Awake(records), Noted(tick));
    } else {
      CapRowsMaps(gone[..|gone| - 1], records, tick);
      MapsSnoc(gone, Awake(records), Noted(tick), CapRows(gone[..|gone| - 1], records, tick));
      CapRowsSnoc(gone, records, tick);
    }
  }

  lemma {:induction false} CapRowsSnoc(gone: seq<string>, records: map<string, Identity>, tick: nat)
    requires gone != []
    ensures var last := gone[|gone| - 1];
            CapRows(gone, records, tick)
            == CapRows(gone[..|gone| - 1], records, tick) + if last in records && records[last].state == Active then [Eviction(last, tick, "cap")] else []
  {
    if |gone| > 1 {
      CapRowsSnoc(gone[1..], records, tick);
      assert gone[1..][..|gone| - 2] == gone[..|gone| - 1][1..];
      assert gone[1..][|gone| - 2] == gone[|gone| - 1];
    } else {
      assert gone == [gone[0]] && gone[1..] == [];
    }
  }

  /**
    An activation within the invariant: the queue without the domain loses its oldest beyond the cap, the domain goes to the
    back, and one row per member that was put to sleep is added, in the order of the queue.
   */
  lemma ActivationMeans(s: Sched, d: string, tick: nat, rest: seq<string>)
    requires SchedOk(s) && d in s.store.records && Picks(s.order, Other(d), rest)
    ensures var (s', r) := Activate(s, d, tick);
            var n := if |rest| >= s.cap then |rest| + 1 - s.cap else 0;
            && r == Ok && n <= |rest| && s'.order == rest[n..] + [d]
            && s.evictions <= s'.evictions && Maps(rest[..n], Awake(s.store.records), Noted(tick), s'.evictions[|s.evictions|..])
  {
    RemoveIs(s.order, d);
    PicksUnique(s.order, Other(d), rest, Remove(s.order, d));
    ActivateQueue(s, d, tick);
    RestIs(s, d);
    var left := s.(order := Remove(s.order, d));
    EvictionsNoted(left, tick);
    CapRowsMaps(rest[..Excess(left)], s.store.records, tick);
    hide Picks, Maps, Other, Awake, Noted, EvictDown, Remove, CapRows, NoCache;
    var s' := Activate(s, d, tick).0;
    assert s'.evictions == EvictDown(left, tick).evictions;
    assert s'.evictions[|s.evictions|..] == CapRows(rest[..Excess(left)], s.store.records, tick);
  }
}
