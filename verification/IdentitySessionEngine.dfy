/** The session as loops: over the binding log, over rows to write, and over positions of a text to read. */
module IdentitySessionEngine {
  import opened Wrappers
  import opened Order
  import opened JsonValue
  import opened IdentityModel
  import opened IdentityBinding
  import opened IdentitySession

  method KeepDurable(store: IdentityStore, ts: seq<uint64>, latest: map<uint64, string>) returns (tabs: seq<Tab>, dropped: seq<uint64>)
    requires forall t | t in ts :: t in latest
    ensures tabs == KeptTabs(store, ts, latest) && dropped == DroppedTabs(store, ts, latest)
  {
    tabs, dropped := [], [];
    for i := 0 to |ts|
      invariant tabs == KeptTabs(store, ts[..i], latest) && dropped == DroppedTabs(store, ts[..i], latest)
    {
      assert ts[..i + 1][..i] == ts[..i];
      var d := latest[ts[i]];
      if !Durable(store, d) {
        dropped := dropped + [ts[i]];
        continue;
      }
      tabs := tabs + [Tab(ts[i], "", d)];
    }
    assert ts[..|ts|] == ts;
  }

  method SessionSnapshot(store: IdentityStore, changes: seq<Change>) returns (doc: SessionDoc, dropped: seq<uint64>)
    ensures (doc, dropped) == Snapshot(store, changes)
  {
    hide SortedKeys, InOrder, Below, KeptTabs, DroppedTabs, DomainsOf;
    var latest := LatestTargets(store, changes);
    NumbersAreOrdered();
    var ts := WalkInOrder(latest.Keys, Below);
    var tabs: seq<Tab>;
    tabs, dropped := KeepDurable(store, ts, latest);
    var names := KeysInOrder(DomainsOf(tabs));
    doc := SessionDoc(tabs, names);
  }

  method LatestTargets(store: IdentityStore, changes: seq<Change>) returns (latest: map<uint64, string>)
    ensures latest == LatestLive(store, changes)
  {
    latest := map[];
    for i := 0 to |changes|
      invariant latest == LatestLive(store, changes[..i])
    {
      assert changes[..i + 1][..i] == changes[..i];
      var c := changes[i];
      if c.to == "" { continue; }
      if c.to !in store.records { continue; }
      latest := latest[c.tab := c.to];
    }
    assert changes[..|changes|] == changes;
  }

  lemma Assoc(a: string, b: string, c: string)
    ensures a + (b + c) == a + b + c
  {
  }

  method SerializeSession(doc: SessionDoc) returns (wire: string)
    ensures wire == Serialize(doc)
  {
    hide SortTabs, SortNames, TabRow, TabRows, NameRows;
    var tabs := SortTabs(doc.tabs);
    wire := "v1|";
    ghost var rows := TabRows(tabs);
    assert tabs[0..] == tabs;
    for i := 0 to |tabs|
      invariant wire + TabRows(tabs[i..]) == "v1|" + rows
    {
      TabRowsTurn(tabs[i..]);
      assert tabs[i..][1..] == tabs[i + 1..];
      Assoc(wire, TabRow(tabs[i]) + ";", TabRows(tabs[i + 1..]));
      wire := wire + (TabRow(tabs[i]) + ";");
    }
    TabRowsTurn(tabs[|tabs|..]);
    assert wire + "" == wire;
    wire := wire + "|";
    ghost var front := wire;
    var names := SortNames(doc.durable);
    assert names[0..] == names;
    for i := 0 to |names|
      invariant wire + NameRows(names[i..]) == front + NameRows(names)
    {
      NameRowsTurn(names[i..]);
      assert names[i..][1..] == names[i + 1..];
      Assoc(wire, names[i] + ";", NameRows(names[i + 1..]));
      wire := wire + (names[i] + ";");
    }
    NameRowsTurn(names[|names|..]);
    assert wire + "" == wire;
  }

  lemma TabRowsTurn(tabs: seq<Tab>)
    ensures TabRows(tabs) == if tabs == [] then "" else TabRow(tabs[0]) + ";" + TabRows(tabs[1..])
  {
  }

  lemma NameRowsTurn(ds: seq<string>)
    ensures NameRows(ds) == if ds == [] then "" else ds[0] + ";" + NameRows(ds[1..])
  {
  }

  /** The position of a character at or after `from`, or the length. */
  method FindFrom(s: string, c: char, from: nat) returns (i: nat)
    requires from <= |s|
    ensures from <= i <= |s| && i - from == FindChar(s[from..], c)
  {
    i := from;
    while i < |s| && s[i] != c
      invariant from <= i <= |s| && forall j | from <= j < i :: s[j] != c
    {
      i := i + 1;
    }
    ghost var k := FindChar(s[from..], c);
    assert forall j | 0 <= j < i - from :: s[from..][j] == s[from + j];
    assert !(k < i - from);
    assert i < |s| ==> s[from..][i - from] == s[i];
    assert !(i - from < k);
  }

  method ReadRow(row: string) returns (r: Parsed<Tab>)
    ensures r == ParseRow(row)
  {
    hide FindChar, StoUll;
    assert row[0..] == row;
    var c1 := FindFrom(row, ':', 0);
    if c1 == |row| { return Malformed; }
    var c2 := FindFrom(row, ':', c1 + 1);
    if c2 == |row| { return Malformed; }
    var id := StoUll(row[..c1]);
    if id.None? { return Threw; }
    assert row[c1 + 1..][..c2 - c1 - 1] == row[c1 + 1..c2] && row[c1 + 1..][c2 - c1..] == row[c2 + 1..];
    return Read(Tab(id.value, row[c1 + 1..c2], row[c2 + 1..]));
  }

  ghost function Prepend<T>(done: seq<T>, r: Parsed<seq<T>>): Parsed<seq<T>> {
    match r case Malformed => Malformed case Threw => Threw case Read(ts) => Read(done + ts)
  }

  lemma TabsTurn(s: string)
    requires s != ""
    ensures var end := FindChar(s, ';');
            ParseTabs(s) == if end == |s| then Malformed else
              match ParseRow(s[..end]) case Malformed => Malformed case Threw => Threw
              case Read(t) => (match ParseTabs(s[end + 1..]) case Malformed => Malformed case Threw => Threw case Read(ts) => Read([t] + ts))
  {
    hide FindChar, ParseRow;
  }

  /** The loop over tab rows. */
  method ReadTabs(s: string) returns (r: Parsed<seq<Tab>>)
    ensures r == ParseTabs(s)
  {
    hide FindChar, ParseRow, ParseTabs;
    var tabs: seq<Tab> := [];
    var pos := 0;
    assert s[0..] == s;
    PrependNothing(ParseTabs(s));
    while pos < |s|
      invariant pos <= |s| && ParseTabs(s) == Prepend(tabs, ParseTabs(s[pos..]))
    {
      TabsTurn(s[pos..]);
      var end := FindFrom(s, ';', pos);
      if end == |s| { return Malformed; }
      assert s[pos..][..end - pos] == s[pos..end] && s[pos..][end - pos + 1..] == s[end + 1..];
      var t := ReadRow(s[pos..end]);
      if t.Malformed? { return Malformed; }
      if t.Threw? { return Threw; }
      PrependOne(tabs, t.value, ParseTabs(s[end + 1..]));
      tabs := tabs + [t.value];
      pos := end + 1;
    }
    assert s[pos..] == "";
    EmptyRows();
    assert tabs + [] == tabs;
    return Read(tabs);
  }

  lemma EmptyRows()
    ensures ParseTabs("") == Read([]) && ParseNames("") == Some([])
  {
  }

  lemma PrependNothing<T>(r: Parsed<seq<T>>)
    ensures Prepend([], r) == r
  {
    if r.Read? { assert [] + r.value == r.value; }
  }

  lemma PrependOne<T>(done: seq<T>, t: T, r: Parsed<seq<T>>)
    ensures Prepend(done, Prepend([t], r)) == Prepend(done + [t], r)
  {
    if r.Read? { assert done + ([t] + r.value) == done + [t] + r.value; }
  }

  lemma NamesTurn(s: string)
    requires s != ""
    ensures var end := FindChar(s, ';');
            ParseNames(s) == if end == |s| then None else match ParseNames(s[end + 1..]) case None => None case Some(ds) => Some([s[..end]] + ds)
  {
    hide FindChar;
  }

  /** The loop over durable domains. */
  method ReadNames(s: string) returns (r: Option<seq<string>>)
    ensures r == ParseNames(s)
  {
    hide FindChar, ParseNames;
    var names: seq<string> := [];
    var pos := 0;
    assert s[0..] == s;
    assert ParseNames(s).Some? ==> [] + ParseNames(s).value == ParseNames(s).value;
    while pos < |s|
      invariant pos <= |s| && ParseNames(s) == match ParseNames(s[pos..]) case None => None case Some(ds) => Some(names + ds)
    {
      NamesTurn(s[pos..]);
      var end := FindFrom(s, ';', pos);
      if end == |s| { return None; }
      assert s[pos..][..end - pos] == s[pos..end] && s[pos..][end - pos + 1..] == s[end + 1..];
      ghost var rest := ParseNames(s[end + 1..]);
      if rest.Some? { assert names + ([s[pos..end]] + rest.value) == names + [s[pos..end]] + rest.value; }
      names := names + [s[pos..end]];
      pos := end + 1;
    }
    assert s[pos..] == "";
    EmptyRows();
    assert names + [] == names;
    return Some(names);
  }

  method RestoreSession(wire: string, store: IdentityStore) returns (r: Parsed<SessionDoc>)
    ensures r == Restore(wire, store)
  {
    hide FindChar, ParseTabs, ParseNames;
    if |wire| < 3 || wire[..3] != "v1|" { return Malformed; }
    var mid := FindFrom(wire, '|', 3);
    if mid == |wire| { return Malformed; }
    assert wire[3..][..mid - 3] == wire[3..mid] && wire[3..][mid - 3 + 1..] == wire[mid + 1..];
    var tabs := ReadTabs(wire[3..mid]);
    if tabs.Malformed? { return Malformed; }
    if tabs.Threw? { return Threw; }
    var names := ReadNames(wire[mid + 1..]);
    if names.None? { return Malformed; }
    for i := 0 to |tabs.value|
      invariant forall j | 0 <= j < i :: Durable(store, tabs.value[j].domain)
    {
      var d := tabs.value[i].domain;
      if d !in store.records { return Malformed; }
      if store.records[d].inMemory { return Malformed; }
    }
    return Read(SessionDoc(tabs.value, names.value));
  }
}
