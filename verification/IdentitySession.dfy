/** The session: what a quit writes down, the text it is written as, and what a restore may do with any text at all. */
module IdentitySession {
  import opened Wrappers
  import opened Order
  import opened JsonValue
  import opened JsonGrammar
  import opened JsonRoundTrip
  import opened IdentityModel
  import opened IdentityBinding
  import IdentityScheduler

  datatype Tab = Tab(id: uint64, window: string, domain: string)
  datatype SessionDoc = SessionDoc(tabs: seq<Tab>, durable: seq<string>)

  // What a quit writes down

  /** The latest row of each tab whose target is still in the store. */
  function LatestLive(store: IdentityStore, changes: seq<Change>): map<uint64, string> {
    if changes == [] then map[]
    else
      var m, c := LatestLive(store, changes[..|changes| - 1]), changes[|changes| - 1];
      if c.to != "" && c.to in store.records then m[c.tab := c.to] else m
  }

  predicate Durable(store: IdentityStore, d: string) { d in store.records && !store.records[d].inMemory }

  /** Tabs of in-memory identities are dropped. */
  function KeptTabs(store: IdentityStore, ts: seq<uint64>, m: map<uint64, string>): seq<Tab>
    requires forall t | t in ts :: t in m
  {
    if ts == [] then []
    else
      var t := ts[|ts| - 1];
      KeptTabs(store, ts[..|ts| - 1], m) + (if Durable(store, m[t]) then [Tab(t, "", m[t])] else [])
  }

  function DroppedTabs(store: IdentityStore, ts: seq<uint64>, m: map<uint64, string>): seq<uint64>
    requires forall t | t in ts :: t in m
  {
    if ts == [] then []
    else
      var t := ts[|ts| - 1];
      DroppedTabs(store, ts[..|ts| - 1], m) + (if Durable(store, m[t]) then [] else [t])
  }

  function DomainsOf(tabs: seq<Tab>): set<string> { set i | 0 <= i < |tabs| :: tabs[i].domain }

  ghost function Snapshot(store: IdentityStore, changes: seq<Change>): (SessionDoc, seq<uint64>) {
    var m := LatestLive(store, changes);
    var ts := TabsInOrder(m.Keys);
    var tabs := KeptTabs(store, ts, m);
    (SessionDoc(tabs, SortedKeys(DomainsOf(tabs))), DroppedTabs(store, ts, m))
  }

  // Its text

  function InsertTab(t: Tab, tabs: seq<Tab>): seq<Tab> {
    if tabs == [] || t.id < tabs[0].id then [t] + tabs else [tabs[0]] + InsertTab(t, tabs[1..])
  }

  function SortTabs(tabs: seq<Tab>): seq<Tab> {
    if tabs == [] then [] else InsertTab(tabs[|tabs| - 1], SortTabs(tabs[..|tabs| - 1]))
  }

  function InsertName(d: string, ds: seq<string>): seq<string> {
    if ds == [] || Less(d, ds[0]) then [d] + ds else [ds[0]] + InsertName(d, ds[1..])
  }

  function SortNames(ds: seq<string>): seq<string> {
    if ds == [] then [] else InsertName(ds[|ds| - 1], SortNames(ds[..|ds| - 1]))
  }

  function TabRow(t: Tab): string { Digits(t.id) + ":" + t.window + ":" + t.domain }

  function TabRows(tabs: seq<Tab>): string { if tabs == [] then "" else TabRow(tabs[0]) + ";" + TabRows(tabs[1..]) }

  function NameRows(ds: seq<string>): string { if ds == [] then "" else ds[0] + ";" + NameRows(ds[1..]) }

  function Serialize(doc: SessionDoc): string { "v1|" + TabRows(SortTabs(doc.tabs)) + "|" + NameRows(SortNames(doc.durable)) }

  // Reading any text

  function FindChar(s: string, c: char): (i: nat)
    ensures i <= |s| && (i < |s| ==> s[i] == c) && forall j | 0 <= j < i :: s[j] != c
  {
    if s == "" || s[0] == c then 0 else 1 + FindChar(s[1..], c)
  }

  predicate Space(c: char) { c == ' ' || 9 <= c as int <= 13 }

  function SkipSpaces(s: string): string { if s != "" && Space(s[0]) then SkipSpaces(s[1..]) else s }

  function DigitRun(s: string): string { if s != "" && '0' <= s[0] <= '9' then [s[0]] + DigitRun(s[1..]) else "" }

  /** std::stoull: leading blanks and a sign are taken, what follows the digits is not looked at; it throws on none, or too many. */
  function StoUll(s: string): Option<uint64> {
    var t := SkipSpaces(s);
    var neg := t != "" && t[0] == '-';
    var ds := DigitRun(if t != "" && (t[0] == '-' || t[0] == '+') then t[1..] else t);
    var v := DecVal(ds);
    if ds == "" || v < 0 || v >= 0x1_0000_0000_0000_0000 then None
    else Some(if neg && v != 0 then 0x1_0000_0000_0000_0000 - v else v)
  }

  datatype Parsed<T> = Read(value: T) | Malformed | Threw

  function ParseRow(row: string): Parsed<Tab> {
    var c1 := FindChar(row, ':');
    if c1 == |row| then Malformed
    else
      var rest := row[c1 + 1..];
      var c2 := FindChar(rest, ':');
      if c2 == |rest| then Malformed
      else match StoUll(row[..c1]) case None => Threw case Some(id) => Read(Tab(id, rest[..c2], rest[c2 + 1..]))
  }

  function ParseTabs(s: string): Parsed<seq<Tab>>
    decreases |s|
  {
    if s == "" then Read([])
    else
      var end := FindChar(s, ';');
      if end == |s| then Malformed
      else
        match ParseRow(s[..end])
        case Malformed => Malformed
        case Threw => Threw
        case Read(t) =>
          match ParseTabs(s[end + 1..])
          case Malformed => Malformed
          case Threw => Threw
          case Read(ts) => Read([t] + ts)
  }

  function ParseNames(s: string): Option<seq<string>>
    decreases |s|
  {
    if s == "" then Some([])
    else
      var end := FindChar(s, ';');
      if end == |s| then None
      else match ParseNames(s[end + 1..]) case None => None case Some(ds) => Some([s[..end]] + ds)
  }

  predicate AllDurable(store: IdentityStore, tabs: seq<Tab>) { forall i | 0 <= i < |tabs| :: Durable(store, tabs[i].domain) }

  function Restore(wire: string, store: IdentityStore): Parsed<SessionDoc> {
    if |wire| < 3 || wire[..3] != "v1|" then Malformed
    else
      var rest := wire[3..];
      var mid := FindChar(rest, '|');
      if mid == |rest| then Malformed
      else
        match ParseTabs(rest[..mid])
        case Malformed => Malformed
        case Threw => Threw
        case Read(tabs) =>
          match ParseNames(rest[mid + 1..])
          case None => Malformed
          case Some(ds) => if AllDurable(store, tabs) then Read(SessionDoc(tabs, ds)) else Malformed
  }

  /** Whatever the text, a restore binds tabs only to live identities that are not in-memory. */
  lemma RestoreNeverBleeds(wire: string, store: IdentityStore)
    requires Restore(wire, store).Read?
    ensures forall i | 0 <= i < |Restore(wire, store).value.tabs| ::
              var d := Restore(wire, store).value.tabs[i].domain; d in store.records && !store.records[d].inMemory
  {
    hide ParseTabs, ParseNames, FindChar;
    var tabs := Restore(wire, store).value.tabs;
    forall i | 0 <= i < |tabs| ensures Durable(store, tabs[i].domain) { assert AllDurable(store, tabs); }
  }

  // Round trip

  /** A tab that its row can carry. */
  predicate TabOk(t: Tab) {
    (forall i | 0 <= i < |t.window| :: t.window[i] != ':' && t.window[i] != ';' && t.window[i] != '|')
    && (forall i | 0 <= i < |t.domain| :: t.domain[i] != ';' && t.domain[i] != '|')
  }

  predicate NameOk(d: string) { forall i | 0 <= i < |d| :: d[i] != ';' }

  predicate Digital(s: string) { forall i | 0 <= i < |s| :: '0' <= s[i] <= '9' }

  lemma DigitsDigital(n: nat)
    ensures Digital(Digits(n)) && Digits(n) != "" && DecVal(Digits(n)) == n
  {
    DigitsRoundTrip(n);
    hide Digits, DecVal;
  }

  lemma {:induction false} RunOfDigits(s: string)
    requires Digital(s)
    ensures DigitRun(s) == s
  {
    if s != "" {
      assert Digital(s[1..]);
      RunOfDigits(s[1..]);
    }
  }

  lemma NumberReads(n: uint64)
    ensures StoUll(Digits(n)) == Some(n)
  {
    DigitsDigital(n);
    RunOfDigits(Digits(n));
    hide Digits, DecVal;
    assert !Space(Digits(n)[0]);
  }

  lemma {:induction false} FindIs(s: string, c: char, i: nat)
    requires i < |s| && s[i] == c && forall j | 0 <= j < i :: s[j] != c
    ensures FindChar(s, c) == i
  {
    var k := FindChar(s, c);
    assert !(k < i) && !(i < k);
  }

  lemma RowSplits(n: string, w: string, d: string)
    requires (forall i | 0 <= i < |n| :: n[i] != ':') && forall i | 0 <= i < |w| :: w[i] != ':'
    ensures var row := n + ":" + w + ":" + d;
            && FindChar(row, ':') == |n| < |row| && row[..|n|] == n
            && var rest := row[|n| + 1..];
               FindChar(rest, ':') == |w| < |rest| && rest[..|w|] == w && rest[|w| + 1..] == d
  {
    hide FindChar;
    var row := n + ":" + w + ":" + d;
    assert forall i | 0 <= i < |n| :: row[i] == n[i];
    FindIs(row, ':', |n|);
    var rest := row[|n| + 1..];
    assert rest == w + ":" + d;
    FindIs(rest, ':', |w|);
  }

  lemma RowReads(t: Tab)
    requires TabOk(t)
    ensures ParseRow(TabRow(t)) == Read(t)
  {
    DigitsDigital(t.id);
    NumberReads(t.id);
    hide Digits, DecVal, StoUll, FindChar;
    RowSplits(Digits(t.id), t.window, t.domain);
  }

  lemma RowChars(t: Tab)
    requires TabOk(t)
    ensures forall i | 0 <= i < |TabRow(t)| :: TabRow(t)[i] != ';' && TabRow(t)[i] != '|'
  {
    var n, row := Digits(t.id), TabRow(t);
    DigitsDigital(t.id);
    hide Digits;
    forall i | 0 <= i < |row| ensures row[i] != ';' && row[i] != '|' {
      if i < |n| { assert row[i] == n[i]; }
      else if |n| < i <= |n| + |t.window| { assert row[i] == t.window[i - |n| - 1]; }
      else if i > |n| + |t.window| + 1 { assert row[i] == t.domain[i - |n| - |t.window| - 2]; }
    }
  }

  lemma {:induction false} TabsRead(tabs: seq<Tab>)
    requires forall i | 0 <= i < |tabs| :: TabOk(tabs[i])
    ensures ParseTabs(TabRows(tabs)) == Read(tabs)
    ensures forall i | 0 <= i < |TabRows(tabs)| :: TabRows(tabs)[i] != '|'
  {
    hide FindChar, TabRow, ParseRow, TabOk;
    if tabs != [] {
      var row, rest := TabRow(tabs[0]), TabRows(tabs[1..]);
      TabsRead(tabs[1..]);
      RowReads(tabs[0]);
      RowChars(tabs[0]);
      var s := TabRows(tabs);
      assert s == row + ";" + rest;
      FindIs(s, ';', |row|);
      assert s[..|row|] == row && s[|row| + 1..] == rest;
      assert [tabs[0]] + tabs[1..] == tabs;
    }
  }

  lemma {:induction false} NamesRead(ds: seq<string>)
    requires forall i | 0 <= i < |ds| :: NameOk(ds[i])
    ensures ParseNames(NameRows(ds)) == Some(ds)
  {
    hide FindChar;
    if ds != [] {
      var d, rest := ds[0], NameRows(ds[1..]);
      NamesRead(ds[1..]);
      var s := NameRows(ds);
      assert s == d + ";" + rest;
      assert NameOk(d);
      FindIs(s, ';', |d|);
      assert s[..|d|] == d && s[|d| + 1..] == rest;
      assert [ds[0]] + ds[1..] == ds;
    }
  }

  lemma WireSplits(t: string, d: string)
    requires forall i | 0 <= i < |t| :: t[i] != '|'
    ensures var wire := "v1|" + t + "|" + d;
            |wire| >= 3 && wire[..3] == "v1|" && FindChar(wire[3..], '|') == |t| < |wire[3..]| && wire[3..][..|t|] == t && wire[3..][|t| + 1..] == d
  {
    hide FindChar;
    var wire := "v1|" + t + "|" + d;
    var rest := wire[3..];
    assert rest == t + "|" + d;
    FindIs(rest, '|', |t|);
  }

  lemma RestoreOf(t: string, d: string, store: IdentityStore, tabs: seq<Tab>, ds: seq<string>)
    requires (forall i | 0 <= i < |t| :: t[i] != '|') && ParseTabs(t) == Read(tabs) && ParseNames(d) == Some(ds)
    ensures Restore("v1|" + t + "|" + d, store) == if AllDurable(store, tabs) then Read(SessionDoc(tabs, ds)) else Malformed
  {
    WireSplits(t, d);
    hide FindChar, ParseTabs, ParseNames, AllDurable;
  }

  /** Any document in serial order whose fields hold no separators comes back, if its tabs are durable. */
  lemma DocumentReads(doc: SessionDoc, store: IdentityStore)
    requires SortTabs(doc.tabs) == doc.tabs && SortNames(doc.durable) == doc.durable
    requires (forall i | 0 <= i < |doc.tabs| :: TabOk(doc.tabs[i])) && forall i | 0 <= i < |doc.durable| :: NameOk(doc.durable[i])
    ensures Restore(Serialize(doc), store) == if AllDurable(store, doc.tabs) then Read(doc) else Malformed
  {
    TabsRead(doc.tabs);
    NamesRead(doc.durable);
    hide TabRows, NameRows, ParseTabs, ParseNames, SortTabs, SortNames, TabOk, NameOk, AllDurable, Restore;
    RestoreOf(TabRows(doc.tabs), NameRows(doc.durable), store, doc.tabs, doc.durable);
  }

  // What a snapshot holds

  lemma {:induction false} KeptContents(store: IdentityStore, ts: seq<uint64>, m: map<uint64, string>, x: Tab)
    requires forall t | t in ts :: t in m
    ensures x in KeptTabs(store, ts, m) <==> x.id in ts && x == Tab(x.id, "", m[x.id]) && Durable(store, m[x.id])
  {
    hide Durable;
    if ts != [] {
      KeptContents(store, ts[..|ts| - 1], m, x);
      assert ts == ts[..|ts| - 1] + [ts[|ts| - 1]];
    }
  }

  ghost predicate IdsAscend(tabs: seq<Tab>) { forall i, j | 0 <= i < j < |tabs| :: tabs[i].id < tabs[j].id }

  lemma {:induction false} KeptAscend(store: IdentityStore, ts: seq<uint64>, m: map<uint64, string>)
    requires (forall t | t in ts :: t in m) && forall i, j | 0 <= i < j < |ts| :: ts[i] < ts[j]
    ensures IdsAscend(KeptTabs(store, ts, m))
  {
    hide Durable;
    if ts != [] {
      var front, last := ts[..|ts| - 1], ts[|ts| - 1];
      KeptAscend(store, front, m);
      var k := KeptTabs(store, front, m);
      forall i | 0 <= i < |k| ensures k[i].id < last {
        KeptContents(store, front, m, k[i]);
        var j :| 0 <= j < |front| && front[j] == k[i].id;
        assert ts[j] < ts[|ts| - 1];
      }
    }
  }

  lemma {:induction false} InsertLast(t: Tab, tabs: seq<Tab>)
    requires forall i | 0 <= i < |tabs| :: tabs[i].id < t.id
    ensures InsertTab(t, tabs) == tabs + [t]
  {
    if tabs != [] {
      InsertLast(t, tabs[1..]);
      assert tabs == [tabs[0]] + tabs[1..];
    }
  }

  lemma {:induction false} SortedTabsStay(tabs: seq<Tab>)
    requires IdsAscend(tabs)
    ensures SortTabs(tabs) == tabs
  {
    if tabs != [] {
      SortedTabsStay(tabs[..|tabs| - 1]);
      InsertLast(tabs[|tabs| - 1], tabs[..|tabs| - 1]);
    }
  }

  lemma {:induction false} InsertNameLast(d: string, ds: seq<string>)
    requires StrictTotal(Less) && forall i | 0 <= i < |ds| :: Less(ds[i], d)
    ensures InsertName(d, ds) == ds + [d]
  {
    hide Less;
    if ds != [] {
      assert Less(ds[0], d) && !Less(d, ds[0]);
      InsertNameLast(d, ds[1..]);
      assert ds == [ds[0]] + ds[1..];
    }
  }

  lemma {:induction false} SortedNamesStay(ds: seq<string>)
    requires StrictTotal(Less) && Ascending(ds, Less)
    ensures SortNames(ds) == ds
  {
    hide Less, StrictTotal;
    if ds != [] {
      SortedNamesStay(ds[..|ds| - 1]);
      InsertNameLast(ds[|ds| - 1], ds[..|ds| - 1]);
    }
  }

  lemma {:induction false} LiveTargets(store: IdentityStore, changes: seq<Change>, t: uint64)
    ensures t in LatestLive(store, changes) ==> LatestLive(store, changes)[t] in store.records
  {
    if changes != [] { LiveTargets(store, changes[..|changes| - 1], t); }
  }

  lemma StoredDomainOk(store: IdentityStore, d: string)
    requires StoreShaped(store) && d in store.records
    ensures TabOk(Tab(0, "", d)) && NameOk(d)
  {
    hide DomainShapeOk;
    DomainChars(d);
  }

  lemma SnapshotOk(store: IdentityStore, changes: seq<Change>)
    requires StoreShaped(store)
    ensures var doc := Snapshot(store, changes).0;
            && SortTabs(doc.tabs) == doc.tabs && SortNames(doc.durable) == doc.durable
            && (forall i | 0 <= i < |doc.tabs| :: TabOk(doc.tabs[i]) && Durable(store, doc.tabs[i].domain))
            && (forall i | 0 <= i < |doc.durable| :: NameOk(doc.durable[i]))
  {
    var m := LatestLive(store, changes);
    var ts := TabsInOrder(m.Keys);
    var doc := Snapshot(store, changes).0;
    TabsAscend(m.Keys);
    SnapshotAscends(store, changes);
    hide LatestLive, KeptTabs, DroppedTabs, TabsInOrder, SortedKeys, Less, SortTabs, SortNames, TabOk, NameOk, DomainShapeOk, StoreShaped;
    SortedTabsStay(doc.tabs);
    StringsAreOrdered();
    SortedNamesStay(doc.durable);
    forall i | 0 <= i < |doc.tabs| ensures TabOk(doc.tabs[i]) && NameOk(doc.tabs[i].domain) && Durable(store, doc.tabs[i].domain) {
      KeptContents(store, ts, m, doc.tabs[i]);
      StoredDomainOk(store, doc.tabs[i].domain);
      SameDomainOk(doc.tabs[i]);
    }
    forall i | 0 <= i < |doc.durable| ensures NameOk(doc.durable[i]) { assert doc.durable[i] in DomainsOf(doc.tabs); }
  }

  lemma SameDomainOk(t: Tab)
    requires t.window == "" && TabOk(Tab(0, "", t.domain))
    ensures TabOk(t)
  {
  }

  /**
    The session round trip: for every store whose records were admitted by Insert, and every history of bindings,
    restoring the text of the snapshot gives exactly the snapshot.
   */
  lemma SessionRoundTrip(store: IdentityStore, changes: seq<Change>)
    requires StoreShaped(store)
    ensures Restore(Serialize(Snapshot(store, changes).0), store) == Read(Snapshot(store, changes).0)
  {
    hide *;
    SnapshotOk(store, changes);
    var doc := Snapshot(store, changes).0;
    DurableTabs(store, doc.tabs);
    DocumentReads(doc, store);
  }

  /** The same over whole lives: any run of creations, activations, hibernations, wakes and destructions, and any bindings. */
  lemma LifecycleRoundTrip(cap: nat, ops: seq<IdentityScheduler.SchedOp>, bindings: seq<BindingOp>)
    requires IdentityScheduler.OpsOk(ops)
    ensures var start := IdentityScheduler.Sched(IdentityStore(map[], map[]), [], if cap == 0 then 1 else cap, []);
            var store := IdentityScheduler.RunSched(start, ops).store;
            var doc := Snapshot(store, RunBinding(bindings).changes).0;
            Restore(Serialize(doc), store) == Read(doc)
  {
    var start := IdentityScheduler.Sched(IdentityStore(map[], map[]), [], if cap == 0 then 1 else cap, []);
    assert IdentityScheduler.SchedOk(start) && StoreShaped(start.store);
    hide *;
    IdentityScheduler.RunKeepsShape(start, ops);
    SessionRoundTrip(IdentityScheduler.RunSched(start, ops).store, RunBinding(bindings).changes);
  }

  lemma DurableTabs(store: IdentityStore, tabs: seq<Tab>)
    requires forall i | 0 <= i < |tabs| :: Durable(store, tabs[i].domain)
    ensures AllDurable(store, tabs)
  {
    hide Durable;
  }

  // Snapshots and compaction

  /** In a compacted log the latest live target of a tab is its last target, if that is live. */
  lemma {:induction false} LiveOfRows(store: IdentityStore, rows: seq<Change>, t: uint64)
    requires forall i, j | 0 <= i < j < |rows| :: rows[i].tab < rows[j].tab
    ensures t in LatestLive(store, rows) <==> t in Latest(rows) && Latest(rows)[t].to != "" && Latest(rows)[t].to in store.records
    ensures t in LatestLive(store, rows) ==> LatestLive(store, rows)[t] == Latest(rows)[t].to
  {
    if rows != [] {
      var front, last := rows[..|rows| - 1], rows[|rows| - 1];
      LiveOfRows(store, front, t);
      AscendingRows(front, last.tab);
      assert last.tab !in Latest(front);
    }
  }

  /** A live last target is the latest live target. */
  lemma {:induction false} LiveLast(store: IdentityStore, changes: seq<Change>, t: uint64)
    requires t in Latest(changes) && Latest(changes)[t].to != "" && Latest(changes)[t].to in store.records
    ensures t in LatestLive(store, changes) && LatestLive(store, changes)[t] == Latest(changes)[t].to
  {
    if changes[|changes| - 1].tab != t { LiveLast(store, changes[..|changes| - 1], t); }
  }

  lemma {:induction false} LiveHasRow(store: IdentityStore, changes: seq<Change>, t: uint64)
    ensures t in LatestLive(store, changes) ==> t in Latest(changes)
  {
    if changes != [] { LiveHasRow(store, changes[..|changes| - 1], t); }
  }

  lemma TabInSnapshot(store: IdentityStore, changes: seq<Change>, x: Tab)
    ensures var m := LatestLive(store, changes);
            x in Snapshot(store, changes).0.tabs <==> x.id in m && x == Tab(x.id, "", m[x.id]) && Durable(store, m[x.id])
  {
    var m := LatestLive(store, changes);
    KeptContents(store, TabsInOrder(m.Keys), m, x);
    hide LatestLive, KeptTabs, DroppedTabs, TabsInOrder, SortedKeys, Durable;
  }

  function LastTarget(changes: seq<Change>, t: uint64): string { if t in Latest(changes) then Latest(changes)[t].to else "" }

  /** No tab has a live, durable target behind a last target that is dead. */
  ghost predicate NothingBehind(store: IdentityStore, changes: seq<Change>) {
    forall t | t in LatestLive(store, changes) && Durable(store, LatestLive(store, changes)[t]) :: LatestLive(store, changes)[t] == LastTarget(changes, t)
  }

  lemma {:induction false} AscendingSame(a: seq<Tab>, b: seq<Tab>)
    requires IdsAscend(a) && IdsAscend(b)
    requires forall x :: x in a <==> x in b
    ensures a == b
  {
    assert a != [] ==> a[0] in b;
    assert b != [] ==> b[0] in a;
    if a != [] {
      assert a[0] == b[0];
      forall x ensures x in a[1..] <==> x in b[1..] {
        if x in a[1..] { var i :| 0 <= i < |a[1..]| && a[1..][i] == x; assert a[i + 1] == x; assert x in b; }
        if x in b[1..] { var i :| 0 <= i < |b[1..]| && b[1..][i] == x; assert b[i + 1] == x; assert x in a; }
      }
      AscendingSame(a[1..], b[1..]);
    }
  }

  lemma SnapshotAscends(store: IdentityStore, changes: seq<Change>)
    ensures IdsAscend(Snapshot(store, changes).0.tabs)
  {
    var m := LatestLive(store, changes);
    var ts := TabsInOrder(m.Keys);
    hide LatestLive, KeptTabs, DroppedTabs, TabsInOrder, SortedKeys;
    TabsAscend(m.Keys);
    KeptAscend(store, ts, m);
    hide IdsAscend;
  }

  lemma SameTabsSameDoc(store: IdentityStore, a: seq<Change>, b: seq<Change>)
    requires Snapshot(store, a).0.tabs == Snapshot(store, b).0.tabs
    ensures Snapshot(store, a).0 == Snapshot(store, b).0
  {
    hide LatestLive, KeptTabs, DroppedTabs, TabsInOrder, SortedKeys;
  }

  /** Compaction leaves the session document as it was exactly when no tab has a live, durable target behind a dead last one. */
  lemma CompactionKeepsSnapshot(store: IdentityStore, changes: seq<Change>)
    ensures Snapshot(store, Compacted(changes)).0 == Snapshot(store, changes).0 <==> NothingBehind(store, changes)
  {
    var rows := Compacted(changes);
    CompactionKeepsLatest(changes);
    hide Snapshot, LatestLive, Compacted, Latest, Durable;
    forall x ensures x in Snapshot(store, rows).0.tabs ==> x in Snapshot(store, changes).0.tabs {
      TabInSnapshot(store, rows, x);
      TabInSnapshot(store, changes, x);
      LiveOfRows(store, rows, x.id);
      if x.id in LatestLive(store, rows) { LiveLast(store, changes, x.id); }
    }
    if NothingBehind(store, changes) {
      forall x ensures x in Snapshot(store, changes).0.tabs <==> x in Snapshot(store, rows).0.tabs { BehindTab(store, changes, rows, x); }
      SnapshotAscends(store, changes);
      SnapshotAscends(store, rows);
      AscendingSame(Snapshot(store, changes).0.tabs, Snapshot(store, rows).0.tabs);
      SameTabsSameDoc(store, rows, changes);
    }
    if Snapshot(store, rows).0 == Snapshot(store, changes).0 {
      var m := LatestLive(store, changes);
      forall t | t in m && Durable(store, m[t]) ensures m[t] == LastTarget(changes, t) {
        TabInSnapshot(store, changes, Tab(t, "", m[t]));
        TabInSnapshot(store, rows, Tab(t, "", m[t]));
        LiveOfRows(store, rows, t);
      }
    }
  }

  lemma BehindTab(store: IdentityStore, changes: seq<Change>, rows: seq<Change>, x: Tab)
    requires NothingBehind(store, changes) && rows == Compacted(changes)
    ensures x in Snapshot(store, changes).0.tabs <==> x in Snapshot(store, rows).0.tabs
  {
    CompactionKeepsLatest(changes);
    hide Snapshot, LatestLive, Compacted, Latest, Durable;
    TabInSnapshot(store, rows, x);
    TabInSnapshot(store, changes, x);
    LiveOfRows(store, rows, x.id);
    LiveTargets(store, changes, x.id);
    LiveHasRow(store, changes, x.id);
    if x.id in LatestLive(store, rows) { LiveLast(store, changes, x.id); }
    if x.id in LatestLive(store, changes) { LiveIsNamed(store, changes, x.id); }
  }

  lemma {:induction false} LiveIsNamed(store: IdentityStore, changes: seq<Change>, t: uint64)
    requires t in LatestLive(store, changes)
    ensures LatestLive(store, changes)[t] != ""
  {
    var front, c := changes[..|changes| - 1], changes[|changes| - 1];
    if !(c.to != "" && c.to in store.records && c.tab == t) { LiveIsNamed(store, front, t); }
  }

  /**
    A snapshot and the live map: the snapshot gives every tab it keeps the identity the tab has, exactly when no tab has a
    live, durable target behind a dead last one.
   */
  lemma SnapshotTellsLiveMap(store: IdentityStore, ops: seq<BindingOp>)
    ensures var b := RunBinding(ops);
            TellsTruth(Snapshot(store, b.changes).0.tabs, b.tabs) <==> NothingBehind(store, b.changes)
  {
    LogAlwaysAgrees(ops);
    var b := RunBinding(ops);
    var tabs, m := Snapshot(store, b.changes).0.tabs, LatestLive(store, b.changes);
    hide RunBinding, Snapshot, LatestLive, Latest, Durable;
    if NothingBehind(store, b.changes) {
      forall x | x in tabs ensures x.id in b.tabs && b.tabs[x.id] == x.domain {
        TabInSnapshot(store, b.changes, x);
        LiveHasRow(store, b.changes, x.id);
      }
    }
    if TellsTruth(tabs, b.tabs) {
      forall t | t in m && Durable(store, m[t]) ensures m[t] == LastTarget(b.changes, t) {
        TabInSnapshot(store, b.changes, Tab(t, "", m[t]));
      }
    }
  }

  ghost predicate TellsTruth(tabs: seq<Tab>, live: map<uint64, string>) {
    forall x | x in tabs :: x.id in live && live[x.id] == x.domain
  }

  // A life in which compaction does change the session

  predicate Admitted(r: Identity) { LooksOpaque(r.domain, r.displayName) && !r.inMemory }

  function MoveAndDestroy(a: Identity, b: Identity): seq<IdentityScheduler.SchedOp> {
    [IdentityScheduler.DoCreate(a), IdentityScheduler.DoCreate(b), IdentityScheduler.DoDestroy(b.domain)]
  }

  /** Open a tab in one identity and move it to the other. */
  function OpenAndMove(a: Identity, b: Identity, tab: uint64): seq<BindingOp> {
    [DoOpen("w", tab, a.domain), DoMove(a.domain, b.domain, tab, false, map[])]
  }

  /**
    A tab is opened in `a` and moved to `b`, and `b` is destroyed. The session still lists the tab, under `a`, although the tab
    is not in `a`; after compaction the session does not list it.
   */
  lemma MovedThenDestroyed(a: Identity, b: Identity, tab: uint64, cap: nat)
    requires Admitted(a) && Admitted(b) && a.domain != b.domain
    ensures var start := IdentityScheduler.Sched(IdentityStore(map[], map[]), [], if cap == 0 then 1 else cap, []);
            var store := IdentityScheduler.RunSched(start, MoveAndDestroy(a, b)).store;
            var log := RunBinding(OpenAndMove(a, b, tab));
            && Snapshot(store, log.changes).0.tabs == [Tab(tab, "", a.domain)]
            && log.tabs == map[tab := b.domain]
            && Snapshot(store, Compacted(log.changes)).0.tabs == []
  {
    var start := IdentityScheduler.Sched(IdentityStore(map[], map[]), [], if cap == 0 then 1 else cap, []);
    var store := IdentityScheduler.RunSched(start, MoveAndDestroy(a, b)).store;
    StoreOfLife(start, a, b);
    LogOfLife(a, b, tab);
    var changes := RunBinding(OpenAndMove(a, b, tab)).changes;
    hide IdentityScheduler.RunSched, RunBinding, DomainShapeOk, LooksOpaque;
    LiveOfLife(store, changes, a, b, tab);
    OneTab(store, changes, a.domain, tab);
    NoTabAfter(store, changes, b.domain, tab);
  }

  lemma StoreOfLife(start: IdentityScheduler.Sched, a: Identity, b: Identity)
    requires start.store == IdentityStore(map[], map[]) && Admitted(a) && Admitted(b) && a.domain != b.domain
    ensures IdentityScheduler.RunSched(start, MoveAndDestroy(a, b)).store == IdentityStore(map[a.domain := a], map[])
  {
    hide DomainShapeOk, LooksOpaque;
    var s1 := IdentityScheduler.RunSched(start, [IdentityScheduler.DoCreate(a)]);
    var s2 := IdentityScheduler.RunSched(start, [IdentityScheduler.DoCreate(a), IdentityScheduler.DoCreate(b)]);
    SchedSnoc(start, [], IdentityScheduler.DoCreate(a));
    SchedSnoc(start, [IdentityScheduler.DoCreate(a)], IdentityScheduler.DoCreate(b));
    SchedSnoc(start, [IdentityScheduler.DoCreate(a), IdentityScheduler.DoCreate(b)], IdentityScheduler.DoDestroy(b.domain));
    assert IdentityScheduler.RunSched(start, []) == start;
    assert [] + [IdentityScheduler.DoCreate(a)] == [IdentityScheduler.DoCreate(a)];
    assert [IdentityScheduler.DoCreate(a)] + [IdentityScheduler.DoCreate(b)] == [IdentityScheduler.DoCreate(a), IdentityScheduler.DoCreate(b)];
    assert MoveAndDestroy(a, b) == [IdentityScheduler.DoCreate(a), IdentityScheduler.DoCreate(b)] + [IdentityScheduler.DoDestroy(b.domain)];
    hide IdentityScheduler.RunSched;
    assert s1.store == IdentityStore(map[a.domain := a], map[]);
    assert s2.store == IdentityStore(map[a.domain := a, b.domain := b], map[]);
    assert map[a.domain := a, b.domain := b] - {b.domain} == map[a.domain := a];
  }

  lemma SchedSnoc(s: IdentityScheduler.Sched, ops: seq<IdentityScheduler.SchedOp>, op: IdentityScheduler.SchedOp)
    ensures IdentityScheduler.RunSched(s, ops + [op]) == IdentityScheduler.SchedStep(IdentityScheduler.RunSched(s, ops), op)
  {
    hide IdentityScheduler.SchedStep;
    assert (ops + [op])[..|ops|] == ops;
  }

  lemma LogOfLife(a: Identity, b: Identity, tab: uint64)
    requires Admitted(a) && Admitted(b) && a.domain != b.domain
    ensures var log := RunBinding(OpenAndMove(a, b, tab));
            log.tabs == map[tab := b.domain]
            && log.changes == [Change(tab, "", a.domain, WindowDefault), Change(tab, a.domain, b.domain, UserConfirmedMove)]
  {
    OpaqueIsShaped(a.domain, a.displayName);
    OpaqueIsShaped(b.domain, b.displayName);
    DomainChars(a.domain);
    hide DomainShapeOk, LooksOpaque;
    var ops := OpenAndMove(a, b, tab);
    assert ops[..1] == [ops[0]] && ops[..1][..0] == [];
    assert RunBinding(ops[..1]).changes == [Change(tab, "", a.domain, WindowDefault)];
    assert RunBinding(ops[..1]).tabs == map[tab := a.domain];
  }

  lemma LiveOfLife(store: IdentityStore, changes: seq<Change>, a: Identity, b: Identity, tab: uint64)
    requires store == IdentityStore(map[a.domain := a], map[]) && Admitted(a) && a.domain != b.domain
    requires changes == [Change(tab, "", a.domain, WindowDefault), Change(tab, a.domain, b.domain, UserConfirmedMove)]
    ensures LatestLive(store, changes) == map[tab := a.domain] && Durable(store, a.domain)
    ensures tab in Latest(changes) && Latest(changes).Keys == {tab} && Latest(changes)[tab].to == b.domain && b.domain !in store.records
  {
    OpaqueIsShaped(a.domain, a.displayName);
    DomainChars(a.domain);
    hide DomainShapeOk, LooksOpaque;
    assert changes[..1] == [changes[0]] && changes[..1][..0] == [];
    assert LatestLive(store, changes[..1]) == map[tab := a.domain];
    assert Latest(changes[..1]) == map[tab := changes[0]];
  }

  lemma OneTab(store: IdentityStore, changes: seq<Change>, d: string, tab: uint64)
    requires LatestLive(store, changes) == map[tab := d] && Durable(store, d)
    ensures Snapshot(store, changes).0.tabs == [Tab(tab, "", d)]
  {
    var tabs := Snapshot(store, changes).0.tabs;
    SnapshotAscends(store, changes);
    forall x ensures x in tabs <==> x in [Tab(tab, "", d)] { TabInSnapshot(store, changes, x); }
    hide Snapshot, LatestLive, Durable;
    AscendingSame(tabs, [Tab(tab, "", d)]);
  }

  lemma NoTabAfter(store: IdentityStore, changes: seq<Change>, d: string, tab: uint64)
    requires Latest(changes).Keys == {tab} && Latest(changes)[tab].to == d && d !in store.records
    ensures Snapshot(store, Compacted(changes)).0.tabs == []
  {
    var rows := Compacted(changes);
    var tabs := Snapshot(store, rows).0.tabs;
    CompactionKeepsLatest(changes);
    SnapshotAscends(store, rows);
    hide Snapshot, LatestLive, Compacted, Latest, Durable;
    forall x ensures x !in tabs {
      TabInSnapshot(store, rows, x);
      LiveOfRows(store, rows, x.id);
    }
    AscendingSame(tabs, []);
  }

  /** There are such identities. */
  lemma SomeLife() returns (a: Identity, b: Identity)
    ensures Admitted(a) && Admitted(b) && a.domain != b.domain
  {
    var zeros := seq(16, i => 0 as byte);
    var d, e := Uuid(zeros), Uuid(zeros[0 := 1]);
    MintedShapeOk(zeros);
    MintedShapeOk(zeros[0 := 1]);
    FirstByteShows(zeros);
    FirstByteShows(zeros[0 := 1]);
    hide Uuid, DomainShapeOk;
    a := Identity(d, "", "t", StandardGrade, false, Active, true, map[], []);
    b := a.(domain := e);
  }

  lemma FirstByteShows(b: seq<byte>)
    requires |b| == 16
    ensures |Uuid(b)| > 4 && Uuid(b)[4] == HEX[b[0] % 16]
  {
    var r := Stamped(b);
    assert r[..4][..3][..2][..1] == [r[0]] && [r[0]][..0] == [];
    assert HexAll([r[0]]) == "" + HexOf(r[0]);
    hide HexOf, Stamped;
    assert r[..4][..3] == r[..3] && r[..3][..2] == r[..2] && r[..2][..1] == [r[0]];
    HexGrows(r[..2]);
    HexGrows(r[..3]);
    HexGrows(r[..4]);
  }

  lemma HexGrows(b: seq<byte>)
    requires b != []
    ensures HexAll(b[..|b| - 1]) <= HexAll(b)
  {
  }
}
