/** Tabs and their identities: a live map, an audit of every change, and suggestions that can never become one. */
module IdentityBinding {
  import opened Wrappers
  import opened Order
  import opened IdentityModel

  type uint64 = i: int | 0 <= i < 0x1_0000_0000_0000_0000

  datatype Cause = WindowDefault | UserConfirmedMove | RestoreCause | SuggestionCause
  datatype Change = Change(tab: uint64, from: string, to: string, cause: Cause)
  datatype Suggestion = Suggestion(site: string, domain: string, surfaced: bool)

  datatype Binding = Binding(tabs: map<uint64, string>, windows: map<string, string>, changes: seq<Change>, suggestions: seq<Suggestion>)

  const FRESH := Binding(map[], map[], [], [])

  datatype BindingOp =
    | DoSetWindow(window: string, domain: string)
    | DoOpen(window: string, tab: uint64, opener: string)
    | DoMove(from: string, to: string, tab: uint64, afterNav: bool, peers: map<uint64, string>)
    | DoRestore(tab: uint64, domain: string)
    | DoSuggest(site: string, domain: string)
    | DoPlant(tab: uint64, domain: string)
    | DoCompact(keep: nat)

  /** The only way an identity of a tab changes; the suggestion cause is refused. */
  function ChangeTab(b: Binding, tab: uint64, to: string, cause: Cause): (Binding, CallResult) {
    if cause == SuggestionCause then (b, Failed("kNotPermitted"))
    else
      var from := if tab in b.tabs then b.tabs[tab] else "";
      (b.(tabs := b.tabs[tab := to], changes := b.changes + [Change(tab, from, to, cause)]), Ok)
  }

  function SetWindowDefault(b: Binding, window: string, domain: string): (Binding, CallResult) {
    if !DomainShapeOk(domain) then (b, Failed("kMalformedInput")) else (b.(windows := b.windows[window := domain]), Ok)
  }

  function OpenTab(b: Binding, window: string, tab: uint64, opener: string): (Binding, CallResult) {
    if opener != "" then ChangeTab(b, tab, opener, WindowDefault)
    else if window !in b.windows then (b, Failed("kMalformedInput"))
    else ChangeTab(b, tab, b.windows[window], WindowDefault)
  }

  /** A tab that has navigated is never moved, whatever the other arguments say; a group moves together or not at all. */
  function MoveTab(b: Binding, from: string, to: string, tab: uint64, afterNav: bool, peers: map<uint64, string>): (Binding, CallResult) {
    if afterNav then (b, Failed("kNotPermitted"))
    else if tab !in b.tabs || b.tabs[tab] != from then (b, Failed("kUnknownIdentity"))
    else if !DomainShapeOk(to) then (b, Failed("kMalformedInput"))
    else if exists p :: p in peers && peers[p] != to then (b, Failed("kNotPermitted"))
    else ChangeTab(b, tab, to, UserConfirmedMove)
  }

  function RecordSuggestion(b: Binding, site: string, domain: string): (Binding, CallResult) {
    if !DomainShapeOk(domain) then (b, Failed("kMalformedInput"))
    else (b.(suggestions := b.suggestions + [Suggestion(site, domain, true)]), Ok)
  }

  // Compaction

  /** The last row of each tab. */
  function Latest(changes: seq<Change>): map<uint64, Change> {
    if changes == [] then map[] else Latest(changes[..|changes| - 1])[changes[|changes| - 1].tab := changes[|changes| - 1]]
  }

  predicate Below(a: uint64, b: uint64) { a < b }

  lemma NumbersAreOrdered()
    ensures StrictTotal(Below)
  {
  }

  ghost function TabsInOrder(s: set<uint64>): (ts: seq<uint64>)
    ensures Ascending(ts, Below) && (forall t: uint64 :: t in ts <==> t in s) && |ts| == |s|
  {
    NumbersAreOrdered();
    InOrder(s, Below)
  }

  function RowsAlong(ts: seq<uint64>, m: map<uint64, Change>): (rows: seq<Change>)
    requires forall t | t in ts :: t in m
    ensures |rows| == |ts| && forall i | 0 <= i < |ts| :: rows[i] == m[ts[i]]
  {
    if ts == [] then [] else RowsAlong(ts[..|ts| - 1], m) + [m[ts[|ts| - 1]]]
  }

  ghost function Compacted(changes: seq<Change>): seq<Change> { RowsAlong(TabsInOrder(Latest(changes).Keys), Latest(changes)) }

  function Recent(ss: seq<Suggestion>, keep: nat): seq<Suggestion> { if |ss| > keep then ss[|ss| - keep..] else ss }

  ghost function CompactAudit(b: Binding, keep: nat): (Binding, int) {
    (b.(changes := Compacted(b.changes), suggestions := Recent(b.suggestions, keep)), |b.changes| - |Latest(b.changes)|)
  }

  ghost function BindingStep(b: Binding, op: BindingOp): Binding {
    match op
    case DoSetWindow(window, domain) => SetWindowDefault(b, window, domain).0
    case DoOpen(window, tab, opener) => OpenTab(b, window, tab, opener).0
    case DoMove(from, to, tab, afterNav, peers) => MoveTab(b, from, to, tab, afterNav, peers).0
    case DoRestore(tab, domain) => ChangeTab(b, tab, domain, RestoreCause).0
    case DoSuggest(site, domain) => RecordSuggestion(b, site, domain).0
    case DoPlant(tab, domain) => ChangeTab(b, tab, domain, SuggestionCause).0
    case DoCompact(keep) => CompactAudit(b, keep).0
  }

  ghost function RunBinding(ops: seq<BindingOp>): Binding {
    if ops == [] then FRESH else BindingStep(RunBinding(ops[..|ops| - 1]), ops[|ops| - 1])
  }

  // The log agrees with the map

  /** The live map says of every tab what its last row says, and no row was caused by a suggestion. */
  ghost predicate LogAgrees(b: Binding) {
    && (forall t: uint64 :: t in b.tabs <==> t in Latest(b.changes))
    && (forall t | t in b.tabs :: Latest(b.changes)[t].to == b.tabs[t])
    && (forall i | 0 <= i < |b.changes| :: b.changes[i].cause != SuggestionCause)
  }

  /** The last row of a tab, by position: no later row has its tab. */
  lemma {:induction false} LatestIsLast(changes: seq<Change>, t: uint64)
    ensures t in Latest(changes) <==> exists i :: 0 <= i < |changes| && changes[i].tab == t
    ensures t in Latest(changes) ==> exists i :: 0 <= i < |changes| && changes[i] == Latest(changes)[t] && changes[i].tab == t
                                                 && forall j | i < j < |changes| :: changes[j].tab != t
  {
    if changes != [] {
      var front, last := changes[..|changes| - 1], changes[|changes| - 1];
      LatestIsLast(front, t);
      if last.tab == t {
        assert changes[|changes| - 1].tab == t;
      } else if t in Latest(front) {
        var i :| 0 <= i < |front| && front[i] == Latest(front)[t] && front[i].tab == t && forall j | i < j < |front| :: front[j].tab != t;
        assert changes[i] == front[i];
        assert forall j | i < j < |changes| :: changes[j].tab != t by {
          forall j | i < j < |changes| ensures changes[j].tab != t { if j < |front| { assert front[j].tab != t; } }
        }
      }
    }
  }

  lemma LatestSnoc(changes: seq<Change>, c: Change)
    ensures Latest(changes + [c]) == Latest(changes)[c.tab := c]
  {
    assert (changes + [c])[..|changes|] == changes;
  }

  lemma ChangeKeeps(b: Binding, tab: uint64, to: string, cause: Cause)
    requires LogAgrees(b)
    ensures LogAgrees(ChangeTab(b, tab, to, cause).0)
  {
    if cause != SuggestionCause {
      LatestSnoc(b.changes, Change(tab, if tab in b.tabs then b.tabs[tab] else "", to, cause));
      hide Latest;
    }
  }

  lemma {:induction false} AscendingRows(rows: seq<Change>, t: uint64)
    requires forall i, j | 0 <= i < j < |rows| :: rows[i].tab < rows[j].tab
    ensures forall i | 0 <= i < |rows| :: rows[i].tab in Latest(rows) && Latest(rows)[rows[i].tab] == rows[i]
    ensures t in Latest(rows) <==> exists i :: 0 <= i < |rows| && rows[i].tab == t
  {
    LatestIsLast(rows, t);
    if rows != [] {
      AscendingRows(rows[..|rows| - 1], t);
      forall i | 0 <= i < |rows| ensures rows[i].tab in Latest(rows) && Latest(rows)[rows[i].tab] == rows[i] {
        if i < |rows| - 1 { assert rows[..|rows| - 1][i] == rows[i]; }
      }
    }
  }

  lemma LatestTabs(changes: seq<Change>)
    ensures forall t | t in Latest(changes) :: Latest(changes)[t].tab == t
  {
    forall t | t in Latest(changes) ensures Latest(changes)[t].tab == t { LatestIsLast(changes, t); }
  }

  lemma CompactedRows(changes: seq<Change>)
    ensures var (ts, rows) := (TabsInOrder(Latest(changes).Keys), Compacted(changes));
            |rows| == |ts| && forall i | 0 <= i < |ts| :: rows[i].tab == ts[i] && rows[i] == Latest(changes)[ts[i]] && rows[i] in changes
  {
    LatestTabs(changes);
    var ts, rows := TabsInOrder(Latest(changes).Keys), Compacted(changes);
    hide Latest, RowsAlong, TabsInOrder;
    forall i | 0 <= i < |ts| ensures rows[i].tab == ts[i] && rows[i] in changes {
      assert ts[i] in Latest(changes);
      LatestIsLast(changes, ts[i]);
    }
  }

  lemma TabsAscend(s: set<uint64>)
    ensures forall i, j | 0 <= i < j < |TabsInOrder(s)| :: TabsInOrder(s)[i] < TabsInOrder(s)[j]
  {
    hide TabsInOrder;
    var ts := TabsInOrder(s);
    forall i, j | 0 <= i < j < |ts| ensures ts[i] < ts[j] { assert Below(ts[i], ts[j]); }
  }

  /** Compaction leaves one row per tab, in ascending order, and the last row of every tab is the one it had. */
  lemma CompactionKeepsLatest(changes: seq<Change>)
    ensures var rows := Compacted(changes);
            && (forall i, j | 0 <= i < j < |rows| :: rows[i].tab < rows[j].tab)
            && Latest(rows) == Latest(changes) && |rows| == |Latest(changes)|
            && (forall i | 0 <= i < |rows| :: rows[i] in changes)
  {
    var m := Latest(changes);
    var ts, rows := TabsInOrder(m.Keys), Compacted(changes);
    CompactedRows(changes);
    TabsAscend(m.Keys);
    hide Latest, Compacted, TabsInOrder;
    forall t: uint64 ensures (t in Latest(rows) <==> t in m) && (t in m ==> Latest(rows)[t] == m[t]) {
      AscendingRows(rows, t);
      if t in m { var i :| 0 <= i < |ts| && ts[i] == t; assert rows[i] == m[t]; }
    }
    assert Latest(rows) == m;
  }

  lemma CompactKeeps(b: Binding, keep: nat)
    requires LogAgrees(b)
    ensures LogAgrees(CompactAudit(b, keep).0)
  {
    CompactionKeepsLatest(b.changes);
    hide Latest, Compacted;
    var rows := Compacted(b.changes);
    forall i | 0 <= i < |rows| ensures rows[i].cause != SuggestionCause { var j :| 0 <= j < |b.changes| && b.changes[j] == rows[i]; }
  }

  /** Over every run: the tab's identity is the target of its last row, and no row is a suggestion's. */
  lemma {:induction false} LogAlwaysAgrees(ops: seq<BindingOp>)
    ensures LogAgrees(RunBinding(ops))
  {
    hide LogAgrees, ChangeTab, CompactAudit;
    if ops == [] {
      FreshAgrees();
    } else {
      var b, op := RunBinding(ops[..|ops| - 1]), ops[|ops| - 1];
      LogAlwaysAgrees(ops[..|ops| - 1]);
      SameLog(b);
      match op
      case DoOpen(window, tab, opener) => ChangeKeeps(b, tab, if opener != "" || window !in b.windows then opener else b.windows[window], WindowDefault);
      case DoMove(_, to, tab, _, _) => ChangeKeeps(b, tab, to, UserConfirmedMove);
      case DoRestore(tab, domain) => ChangeKeeps(b, tab, domain, RestoreCause);
      case DoPlant(tab, domain) => ChangeKeeps(b, tab, domain, SuggestionCause);
      case DoCompact(keep) => CompactKeeps(b, keep);
      case _ =>
    }
  }

  lemma FreshAgrees()
    ensures LogAgrees(FRESH)
  {
  }

  lemma SameLog(b: Binding)
    requires LogAgrees(b)
    ensures forall ws, ss :: LogAgrees(b.(windows := ws)) && LogAgrees(b.(suggestions := ss))
  {
    hide Latest;
  }

  /** The number of tabs an identity holds, as the manager page counts them. */
  ghost function TabCount(changes: seq<Change>, domain: string): nat {
    |set t | t in Latest(changes) && Latest(changes)[t].to == domain|
  }

  /** Compaction is invisible: the identities of tabs and every tab count stay as they were. */
  lemma CompactionIsInvisible(b: Binding, keep: nat, domain: string)
    ensures var (c, dropped) := CompactAudit(b, keep);
            && c.tabs == b.tabs && c.windows == b.windows
            && TabCount(c.changes, domain) == TabCount(b.changes, domain)
            && dropped == |b.changes| - |c.changes| && |c.changes| == |Latest(b.changes)|
  {
    CompactionKeepsLatest(b.changes);
    hide Latest, Compacted;
  }

  lemma {:induction false} LatestCount(changes: seq<Change>)
    ensures |Latest(changes)| <= |changes|
  {
    if changes != [] {
      var front, c := changes[..|changes| - 1], changes[|changes| - 1];
      LatestCount(front);
      assert Latest(changes).Keys == Latest(front).Keys + {c.tab};
    }
  }

  /** The binding object. */
  class BindingModel {
    var tabs: map<uint64, string>
    var windows: map<string, string>
    var changes: seq<Change>
    var suggestions: seq<Suggestion>

    constructor ()
      ensures Valid() && Now() == FRESH
    {
      tabs, windows, changes, suggestions := map[], map[], [], [];
    }

    function Now(): Binding
      reads this
    {
      Binding(tabs, windows, changes, suggestions)
    }

    /** The live map and the log agree. */
    ghost predicate Valid()
      reads this
    {
      LogAgrees(Now())
    }

    /** What a call may change of the tabs: nothing, or the identity of one of them, with one row in the log. */
    twostate predicate OnlyTab(tab: uint64, to: string, r: CallResult)
      reads this
    {
      && windows == old(windows) && suggestions == old(suggestions)
      && if r == Ok then tabs == old(tabs)[tab := to] && |changes| == old(|changes|) + 1 && old(changes) <= changes
         else tabs == old(tabs) && changes == old(changes)
    }

    /** The only mutation of a tab: it succeeds for every cause but a suggestion, and the log records where the tab came from. */
    method ChangeTabIdentity(tab: uint64, to: string, cause: Cause) returns (r: CallResult)
      requires Valid()
      modifies this
      ensures Valid() && (Now(), r) == ChangeTab(old(Now()), tab, to, cause)
      ensures OnlyTab(tab, to, r) && (r == Ok <==> cause != SuggestionCause)
      ensures r == Ok ==> Latest(changes)[tab].from == if tab in old(tabs) then Latest(old(changes))[tab].to else ""
      ensures r == Ok ==> changes == old(changes) + [Change(tab, if tab in old(tabs) then old(tabs)[tab] else "", to, cause)]
      ensures r != Ok ==> r == Failed("kNotPermitted")
    {
      ChangeKeeps(Now(), tab, to, cause);
      if cause == SuggestionCause { return Failed("kNotPermitted"); }
      var from := "";
      if tab in tabs { from := tabs[tab]; }
      LatestSnoc(changes, Change(tab, from, to, cause));
      tabs := tabs[tab := to];
      changes := changes + [Change(tab, from, to, cause)];
      return Ok;
    }

    /** No tab and no other window changes; a tab then opened there without an opener gets the default. */
    method SetWindow(window: string, domain: string) returns (r: CallResult)
      requires Valid()
      modifies this
      ensures Valid() && (Now(), r) == SetWindowDefault(old(Now()), window, domain)
      ensures tabs == old(tabs) && changes == old(changes) && suggestions == old(suggestions)
      ensures forall w | w != window :: (w in windows <==> w in old(windows)) && (w in windows ==> windows[w] == old(windows)[w])
      ensures r == (if DomainShapeOk(domain) then Ok else Failed("kMalformedInput"))
      ensures r == Ok ==> window in windows && windows[window] == domain
      ensures r == Ok ==> forall tab: uint64 :: OpenTab(Now(), window, tab, "") == ChangeTab(Now(), tab, domain, WindowDefault)
    {
      SameLog(Now());
      hide DomainShapeOk, LogAgrees;
      if !DomainShapeOk(domain) { return Failed("kMalformedInput"); }
      windows := windows[window := domain];
      return Ok;
    }

    /** It fails only for want of an opener and of a default; the tab gets the one or, failing that, the other. */
    method Open(window: string, tab: uint64, opener: string) returns (r: CallResult)
      requires Valid()
      modifies this
      ensures Valid() && (Now(), r) == OpenTab(old(Now()), window, tab, opener)
      ensures r == Ok <==> opener != "" || window in windows
      ensures r == Ok ==> changes[|changes| - 1].cause == WindowDefault
      ensures r != Ok ==> r == Failed("kMalformedInput")
      ensures OnlyTab(tab, if opener == "" && window in windows then windows[window] else opener, r)
    {
      var domain := opener;
      if domain == "" {
        if window !in windows { return Failed("kMalformedInput"); }
        domain := windows[window];
      }
      r := ChangeTabIdentity(tab, domain, WindowDefault);
    }

    /** A tab that has not navigated moves out of the identity it is in, to a domain, with all of its group or not at all. */
    method Move(from: string, to: string, tab: uint64, afterNav: bool, peers: map<uint64, string>) returns (r: CallResult)
      requires Valid()
      modifies this
      ensures Valid() && (Now(), r) == MoveTab(old(Now()), from, to, tab, afterNav, peers)
      ensures OnlyTab(tab, to, r)
      ensures r == if afterNav then Failed("kNotPermitted")
                   else if tab !in old(tabs) || old(tabs)[tab] != from then Failed("kUnknownIdentity")
                   else if !DomainShapeOk(to) then Failed("kMalformedInput")
                   else if exists p :: p in peers && peers[p] != to then Failed("kNotPermitted") else Ok
      ensures r == Ok ==> changes[|changes| - 1].cause == UserConfirmedMove
    {
      hide DomainShapeOk, InOrder, LogAgrees, Latest;
      if afterNav { return Failed("kNotPermitted"); }
      if tab !in tabs || tabs[tab] != from { return Failed("kUnknownIdentity"); }
      if !DomainShapeOk(to) { return Failed("kMalformedInput"); }
      NumbersAreOrdered();
      var ids := WalkInOrder(peers.Keys, Below);
      for i := 0 to |ids|
        invariant Now() == old(Now()) && forall j | 0 <= j < i :: peers[ids[j]] == to
      {
        if peers[ids[i]] != to { return Failed("kNotPermitted"); }
      }
      forall p | p in peers ensures peers[p] == to { assert p in ids; }
      r := ChangeTabIdentity(tab, to, UserConfirmedMove);
    }

    /** A suggestion is remembered, and binds nothing: tabs, windows and log stay, and so does every count. */
    method Suggest(site: string, domain: string) returns (r: CallResult)
      requires Valid()
      modifies this
      ensures Valid() && (Now(), r) == RecordSuggestion(old(Now()), site, domain)
      ensures tabs == old(tabs) && windows == old(windows) && changes == old(changes)
      ensures r == (if DomainShapeOk(domain) then Ok else Failed("kMalformedInput"))
      ensures suggestions == old(suggestions) + if r == Ok then [Suggestion(site, domain, true)] else []
      ensures forall d :: TabCount(changes, d) == old(TabCount(changes, d))
    {
      SameLog(Now());
      hide DomainShapeOk, LogAgrees, TabCount;
      if !DomainShapeOk(domain) { return Failed("kMalformedInput"); }
      suggestions := suggestions + [Suggestion(site, domain, true)];
      return Ok;
    }

    method CollectLatest() returns (latest: map<uint64, Change>)
      ensures latest == Latest(changes)
    {
      latest := map[];
      for i := 0 to |changes|
        invariant latest == Latest(changes[..i])
      {
        assert changes[..i + 1][..i] == changes[..i];
        latest := latest[changes[i].tab := changes[i]];
      }
      assert changes[..|changes|] == changes;
    }

    static method RowsInOrder(latest: map<uint64, Change>) returns (rows: seq<Change>)
      ensures rows == RowsAlong(TabsInOrder(latest.Keys), latest)
    {
      hide InOrder, Below, Latest;
      NumbersAreOrdered();
      var ts := WalkInOrder(latest.Keys, Below);
      rows := [];
      for i := 0 to |ts|
        invariant rows == RowsAlong(ts[..i], latest)
      {
        assert ts[..i + 1][..i] == ts[..i];
        rows := rows + [latest[ts[i]]];
      }
      assert ts[..|ts|] == ts;
    }

    method Compact(keep: nat) returns (dropped: nat)
      requires Valid()
      modifies this
      ensures Valid() && (Now(), dropped) == CompactAudit(old(Now()), keep)
      ensures old(suggestions)[|old(suggestions)| - |suggestions|..] == suggestions
      ensures |suggestions| == if |old(suggestions)| > keep then keep else |old(suggestions)|
    {
      hide LogAgrees, Latest, RowsAlong, TabsInOrder;
      CompactKeeps(Now(), keep);
      var latest := CollectLatest();
      LatestCount(changes);
      dropped := |changes| - |latest|;
      var rows := RowsInOrder(latest);
      changes := rows;
      if |suggestions| > keep { suggestions := suggestions[|suggestions| - keep..]; }
    }
  }
}
