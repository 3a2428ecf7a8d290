/** The session text, character by character, and what of a binding history a session lists. */
module SessionText {
  import opened Wrappers
  import opened Order
  import opened JsonValue
  import opened JsonGrammar
  import opened JsonText
  import opened JsonRoundTrip
  import opened IdentityModel
  import opened IdentityBinding
  import opened IdentitySession

  // Numbers

  predicate Blank(c: char) { c == ' ' || c == '\t' || c == '\n' || c == '\r' || c as int == 11 || c as int == 12 }

  predicate Blanks(s: string) { forall i | 0 <= i < |s| :: Blank(s[i]) }

  /** Blanks, a sign or none, digits, and anything that does not go on with a digit. */
  ghost predicate NumberParts(s: string, blanks: string, sign: string, ds: string, tail: string) {
    && s == blanks + sign + ds + tail && Blanks(blanks) && (sign == "" || sign == "+" || sign == "-")
    && ds != "" && AllDigits(ds) && (tail != "" ==> !IsDigit(tail[0])) && DecVal(ds) < 0x1_0000_0000_0000_0000
  }

  /** The number is that of the digits; a minus sign takes it from 2^64, unless it is zero. */
  ghost predicate NumberText(s: string, v: int) {
    exists blanks, sign, ds, tail :: NumberParts(s, blanks, sign, ds, tail)
      && v == if sign == "-" && DecVal(ds) != 0 then 0x1_0000_0000_0000_0000 - DecVal(ds) else DecVal(ds)
  }

  lemma {:induction false} SkipsBlanks(s: string) returns (blanks: string)
    ensures s == blanks + SkipSpaces(s) && Blanks(blanks) && (SkipSpaces(s) != "" ==> !Blank(SkipSpaces(s)[0]))
  {
    if s != "" && Space(s[0]) {
      var rest := SkipsBlanks(s[1..]);
      blanks := [s[0]] + rest;
      assert s == [s[0]] + s[1..];
    } else {
      blanks := "";
    }
  }

  lemma {:induction false} BlanksSkipped(blanks: string, rest: string)
    requires Blanks(blanks) && (rest != "" ==> !Blank(rest[0]))
    ensures SkipSpaces(blanks + rest) == rest
  {
    if blanks == "" {
      assert blanks + rest == rest;
    } else {
      BlanksSkipped(blanks[1..], rest);
      assert (blanks + rest)[1..] == blanks[1..] + rest;
    }
  }

  lemma {:induction false} RunIs(s: string) returns (tail: string)
    ensures s == DigitRun(s) + tail && AllDigits(DigitRun(s)) && (tail != "" ==> !IsDigit(tail[0]))
  {
    if s != "" && '0' <= s[0] <= '9' {
      tail := RunIs(s[1..]);
      assert s == [s[0]] + s[1..];
    } else {
      tail := s;
    }
  }

  lemma {:induction false} RunOf(ds: string, tail: string)
    requires AllDigits(ds) && (tail != "" ==> !IsDigit(tail[0]))
    ensures DigitRun(ds + tail) == ds
  {
    if ds == "" {
      assert ds + tail == tail;
    } else {
      assert AllDigits(ds[1..]);
      RunOf(ds[1..], tail);
      assert (ds + tail)[1..] == ds[1..] + tail;
    }
  }

  lemma {:induction false} DigitsArePositive(ds: string)
    requires AllDigits(ds)
    ensures DecVal(ds) >= 0
  {
    if ds != "" { DigitsArePositive(ds[..|ds| - 1]); assert IsDigit(ds[|ds| - 1]); }
  }

  /** The conversion reads exactly such texts, and throws on all others. */
  lemma NumberIs(s: string, v: uint64)
    ensures StoUll(s) == Some(v) <==> NumberText(s, v)
  {
    if StoUll(s) == Some(v) { NumberHasParts(s, v); }
    if NumberText(s, v) {
      var blanks, sign, ds, tail :| NumberParts(s, blanks, sign, ds, tail)
        && v == if sign == "-" && DecVal(ds) != 0 then 0x1_0000_0000_0000_0000 - DecVal(ds) else DecVal(ds);
      PartsRead(s, blanks, sign, ds, tail);
    }
  }

  function Sign(t: string): string { if t != "" && (t[0] == '-' || t[0] == '+') then [t[0]] else "" }

  function AfterSign(t: string): string { if t != "" && (t[0] == '-' || t[0] == '+') then t[1..] else t }

  lemma SignSplits(t: string)
    ensures t == Sign(t) + AfterSign(t) && (Sign(t) == "" || Sign(t) == "+" || Sign(t) == "-")
  {
  }

  lemma StoUllIs(s: string)
    ensures var t := SkipSpaces(s);
            var ds := DigitRun(AfterSign(t));
            var v := DecVal(ds);
            StoUll(s) == if ds == "" || v < 0 || v >= 0x1_0000_0000_0000_0000 then None
                         else Some(if Sign(t) == "-" && v != 0 then 0x1_0000_0000_0000_0000 - v else v)
  {
    hide SkipSpaces, DigitRun, DecVal;
  }

  lemma NumberHasParts(s: string, v: uint64)
    requires StoUll(s) == Some(v)
    ensures NumberText(s, v)
  {
    var blanks := SkipsBlanks(s);
    var t := SkipSpaces(s);
    SignSplits(t);
    var tail := RunIs(AfterSign(t));
    var ds := DigitRun(AfterSign(t));
    StoUllIs(s);
    hide SkipSpaces, DigitRun, DecVal, StoUll, Sign, AfterSign;
    Together(s, blanks, Sign(t), ds, tail, t, AfterSign(t));
    assert NumberParts(s, blanks, Sign(t), ds, tail);
  }

  lemma Together(s: string, blanks: string, sign: string, ds: string, tail: string, t: string, u: string)
    requires s == blanks + t && t == sign + u && u == ds + tail
    ensures s == blanks + sign + ds + tail
  {
  }

  lemma SignedRest(sign: string, ds: string, tail: string)
    requires (sign == "" || sign == "+" || sign == "-") && ds != "" && IsDigit(ds[0])
    ensures var rest := sign + ds + tail; rest != "" && !Blank(rest[0]) && Sign(rest) == sign && AfterSign(rest) == ds + tail
  {
    var rest := sign + ds + tail;
    if sign == "" {
      assert rest == ds + tail && rest[0] == ds[0];
    } else {
      assert rest[0] == sign[0] && rest[1..] == ds + tail;
    }
  }

  lemma PartsSkipped(s: string, blanks: string, sign: string, ds: string, tail: string)
    requires NumberParts(s, blanks, sign, ds, tail)
    ensures var t := SkipSpaces(s); Sign(t) == sign && DigitRun(AfterSign(t)) == ds
  {
    assert IsDigit(ds[0]);
    var rest := sign + ds + tail;
    assert s == blanks + rest;
    hide SkipSpaces, DigitRun, DecVal, StoUll, Sign, AfterSign, Blank;
    SignedRest(sign, ds, tail);
    BlanksSkipped(blanks, rest);
    RunOf(ds, tail);
  }

  lemma PartsRead(s: string, blanks: string, sign: string, ds: string, tail: string)
    requires NumberParts(s, blanks, sign, ds, tail)
    ensures StoUll(s) == Some(if sign == "-" && DecVal(ds) != 0 then 0x1_0000_0000_0000_0000 - DecVal(ds) else DecVal(ds))
  {
    DigitsArePositive(ds);
    hide SkipSpaces, DigitRun, DecVal, StoUll, Sign, AfterSign;
    PartsSkipped(s, blanks, sign, ds, tail);
    StoUllIs(s);
  }

  // Rows

  predicate Free(s: string, cs: set<char>) { forall i | 0 <= i < |s| :: s[i] !in cs }

  function RowOf(num: string, t: Tab): string { num + ":" + t.window + ":" + t.domain }

  /** A row for each tab: its number, its window, its domain, a colon between and a semicolon behind. */
  ghost function Rows(nums: seq<string>, tabs: seq<Tab>): string
    requires |nums| == |tabs|
  {
    if tabs == [] then "" else RowOf(nums[0], tabs[0]) + ";" + Rows(nums[1..], tabs[1..])
  }

  ghost function Names(ds: seq<string>): string { if ds == [] then "" else ds[0] + ";" + Names(ds[1..]) }

  ghost predicate RowParts(num: string, t: Tab) {
    Free(num, {':', ';'}) && Free(t.window, {':', ';'}) && Free(t.domain, {';'}) && NumberText(num, t.id)
  }

  ghost predicate RowsParts(nums: seq<string>, tabs: seq<Tab>) {
    |nums| == |tabs| && forall i | 0 <= i < |tabs| :: RowParts(nums[i], tabs[i])
  }

  ghost predicate NamesFree(ds: seq<string>) { forall i | 0 <= i < |ds| :: Free(ds[i], {';'}) }

  lemma FreeOf(s: string, c: char)
    ensures Free(s, {c}) <==> forall i | 0 <= i < |s| :: s[i] != c
  {
  }

  lemma CutAt(s: string, c: char)
    requires FindChar(s, c) < |s|
    ensures var end := FindChar(s, c); s == s[..end] + [c] + s[end + 1..] && forall i | 0 <= i < end :: s[..end][i] != c
  {
    hide FindChar;
  }

  lemma RowCuts(row: string, t: Tab)
    requires ParseRow(row) == Read(t)
    ensures var c1 := FindChar(row, ':'); c1 < |row| && StoUll(row[..c1]) == Some(t.id)
    ensures var rest := row[FindChar(row, ':') + 1..]; var c2 := FindChar(rest, ':'); c2 < |rest| && t.window == rest[..c2] && t.domain == rest[c2 + 1..]
  {
    hide FindChar, StoUll;
  }

  lemma RowHasParts(row: string, t: Tab)
    requires Free(row, {';'}) && ParseRow(row) == Read(t)
    ensures exists num :: row == RowOf(num, t) && RowParts(num, t)
  {
    hide *;
    RowCuts(row, t);
    var c1 := FindChar(row, ':');
    var num, rest := row[..c1], row[c1 + 1..];
    NumberIs(num, t.id);
    CutAt(row, ':');
    CutAt(rest, ':');
    PartsFree(num, t.window, t.domain, row, rest);
    RowMade(row, num, rest, t);
  }

  lemma RowMade(row: string, num: string, rest: string, t: Tab)
    requires row == num + [':'] + rest && rest == t.window + [':'] + t.domain
    requires Free(num, {':', ';'}) && Free(t.window, {':', ';'}) && Free(t.domain, {';'}) && NumberText(num, t.id)
    ensures row == RowOf(num, t) && RowParts(num, t)
  {
    hide Free, NumberText;
  }

  lemma PartsFree(num: string, w: string, d: string, row: string, rest: string)
    requires row == num + [':'] + rest && rest == w + [':'] + d && Free(row, {';'})
    requires (forall i | 0 <= i < |num| :: num[i] != ':') && forall i | 0 <= i < |w| :: w[i] != ':'
    ensures Free(num, {':', ';'}) && Free(w, {':', ';'}) && Free(d, {';'})
  {
    FreeOf(row, ';');
    hide Free;
    assert forall i | 0 <= i < |num| :: num[i] == row[i];
    assert forall i | 0 <= i < |w| :: w[i] == row[|num| + 1 + i];
    assert forall i | 0 <= i < |d| :: d[i] == row[|num| + 1 + |w| + 1 + i];
    FreeOfTwo(num);
    FreeOfTwo(w);
    FreeOf(d, ';');
  }

  lemma FreeOfTwo(s: string)
    ensures Free(s, {':', ';'}) <==> forall i | 0 <= i < |s| :: s[i] != ':' && s[i] != ';'
  {
  }

  lemma PartsMakeRow(num: string, t: Tab)
    requires RowParts(num, t)
    ensures ParseRow(RowOf(num, t)) == Read(t)
  {
    NumberIs(num, t.id);
    FreeOfTwo(num);
    FreeOfTwo(t.window);
    hide StoUll, FindChar, NumberText, Free;
    RowSplits(num, t.window, t.domain);
  }

  lemma RowIs(row: string, t: Tab)
    requires Free(row, {';'})
    ensures ParseRow(row) == Read(t) <==> exists num :: row == RowOf(num, t) && RowParts(num, t)
  {
    hide ParseRow, RowParts, RowOf;
    if ParseRow(row) == Read(t) { RowHasParts(row, t); }
    if num :| row == RowOf(num, t) && RowParts(num, t) { PartsMakeRow(num, t); }
  }

  lemma FirstRow(row: string, rest: string)
    requires Free(row, {';'})
    ensures var s := row + ";" + rest; FindChar(s, ';') == |row| < |s| && s[..|row|] == row && s[|row| + 1..] == rest
  {
    var s := row + ";" + rest;
    assert forall i | 0 <= i < |row| :: s[i] == row[i];
    FindIs(s, ';', |row|);
  }

  lemma CutRow(s: string)
    requires FindChar(s, ';') < |s|
    ensures var end := FindChar(s, ';'); s == s[..end] + ";" + s[end + 1..] && Free(s[..end], {';'})
  {
    CutAt(s, ';');
    FreeOf(s[..FindChar(s, ';')], ';');
    hide FindChar, Free;
  }

  lemma RowFree(num: string, t: Tab)
    requires RowParts(num, t)
    ensures Free(RowOf(num, t), {';'})
  {
    hide NumberText;
    var row := RowOf(num, t);
    forall i | 0 <= i < |row| ensures row[i] != ';' {
      if i < |num| { assert row[i] == num[i]; }
      else if |num| < i <= |num| + |t.window| { assert row[i] == t.window[i - |num| - 1]; }
      else if i > |num| + |t.window| + 1 { assert row[i] == t.domain[i - |num| - |t.window| - 2]; }
    }
  }

  lemma {:induction false} TabsHaveRows(s: string, tabs: seq<Tab>) returns (nums: seq<string>)
    requires ParseTabs(s) == Read(tabs)
    ensures |nums| == |tabs| && RowsParts(nums, tabs) && s == Rows(nums, tabs)
    decreases |s|
  {
    hide ParseRow, FindChar, RowParts;
    if s == "" {
      nums := [];
    } else {
      CutRow(s);
      var end := FindChar(s, ';');
      RowIs(s[..end], tabs[0]);
      var num :| s[..end] == RowOf(num, tabs[0]) && RowParts(num, tabs[0]);
      var rest := TabsHaveRows(s[end + 1..], tabs[1..]);
      nums := [num] + rest;
      assert nums[1..] == rest;
    }
  }

  lemma {:induction false} RowsRead(nums: seq<string>, tabs: seq<Tab>)
    requires RowsParts(nums, tabs)
    ensures ParseTabs(Rows(nums, tabs)) == Read(tabs)
    decreases |tabs|
  {
    hide ParseRow, FindChar, RowParts;
    if tabs != [] {
      var row, rest := RowOf(nums[0], tabs[0]), Rows(nums[1..], tabs[1..]);
      RowFree(nums[0], tabs[0]);
      FirstRow(row, rest);
      RowIs(row, tabs[0]);
      RowsRead(nums[1..], tabs[1..]);
      assert tabs == [tabs[0]] + tabs[1..];
    }
  }

  lemma {:induction false} NamesAre(s: string, ds: seq<string>)
    ensures ParseNames(s) == Some(ds) <==> s == Names(ds) && NamesFree(ds)
    decreases |s| + |ds|
  {
    hide FindChar;
    if ParseNames(s) == Some(ds) && s != "" {
      CutRow(s);
      var end := FindChar(s, ';');
      NamesAre(s[end + 1..], ds[1..]);
      assert ds == [ds[0]] + ds[1..];
    }
    if s == Names(ds) && NamesFree(ds) && ds != [] {
      FirstRow(ds[0], Names(ds[1..]));
      assert NamesFree(ds[1..]);
      NamesAre(Names(ds[1..]), ds[1..]);
      assert ds == [ds[0]] + ds[1..];
    }
  }

  /** A text that a restore reads: a version, rows of tabs, and names, with a bar between; no bar stands in the rows. */
  ghost predicate SessionWire(wire: string, nums: seq<string>, doc: SessionDoc) {
    && RowsParts(nums, doc.tabs) && NamesFree(doc.durable) && Free(Rows(nums, doc.tabs), {'|'})
    && wire == "v1|" + Rows(nums, doc.tabs) + "|" + Names(doc.durable)
  }

  ghost predicate LiveTabs(store: IdentityStore, tabs: seq<Tab>) {
    forall i | 0 <= i < |tabs| :: tabs[i].domain in store.records && !store.records[tabs[i].domain].inMemory
  }

  lemma LiveIsDurable(store: IdentityStore, tabs: seq<Tab>)
    ensures AllDurable(store, tabs) <==> LiveTabs(store, tabs)
  {
    forall i | 0 <= i < |tabs| ensures Durable(store, tabs[i].domain) <==> tabs[i].domain in store.records && !store.records[tabs[i].domain].inMemory { }
    hide Durable;
  }

  lemma RestoreCuts(wire: string, store: IdentityStore, doc: SessionDoc)
    requires |wire| >= 3 && wire[..3] == "v1|" && FindChar(wire[3..], '|') < |wire[3..]|
    ensures var rest := wire[3..]; var mid := FindChar(rest, '|');
            Restore(wire, store) == Read(doc)
            <==> ParseTabs(rest[..mid]) == Read(doc.tabs) && ParseNames(rest[mid + 1..]) == Some(doc.durable) && AllDurable(store, doc.tabs)
  {
    hide ParseTabs, ParseNames, FindChar, AllDurable;
  }

  lemma VersionCut(wire: string, store: IdentityStore, doc: SessionDoc)
    requires Restore(wire, store) == Read(doc)
    ensures |wire| >= 3 && wire[..3] == "v1|" && FindChar(wire[3..], '|') < |wire[3..]|
  {
    hide ParseTabs, ParseNames, FindChar, AllDurable;
  }

  lemma WireMade(wire: string, nums: seq<string>, doc: SessionDoc, rows: string, names: string)
    requires |wire| >= 3 && wire[..3] == "v1|" && wire[3..] == rows + "|" + names && RowsParts(nums, doc.tabs)
    requires rows == Rows(nums, doc.tabs) && names == Names(doc.durable) && NamesFree(doc.durable) && Free(rows, {'|'})
    ensures SessionWire(wire, nums, doc)
  {
    hide Rows, Names, NamesFree, Free;
    assert wire == wire[..3] + wire[3..];
    assert "v1|" + (rows + "|" + names) == "v1|" + rows + "|" + names;
  }

  lemma RestoredHasWire(wire: string, store: IdentityStore, doc: SessionDoc)
    requires Restore(wire, store) == Read(doc)
    ensures LiveTabs(store, doc.tabs) && exists nums :: SessionWire(wire, nums, doc)
  {
    hide *;
    LiveIsDurable(store, doc.tabs);
    VersionCut(wire, store, doc);
    var rest := wire[3..];
    var mid := FindChar(rest, '|');
    RestoreCuts(wire, store, doc);
    BarSplits(rest);
    var nums := TabsHaveRows(rest[..mid], doc.tabs);
    NamesAre(rest[mid + 1..], doc.durable);
    WireMade(wire, nums, doc, rest[..mid], rest[mid + 1..]);
  }

  lemma WireRestores(wire: string, nums: seq<string>, store: IdentityStore, doc: SessionDoc)
    requires SessionWire(wire, nums, doc) && LiveTabs(store, doc.tabs)
    ensures Restore(wire, store) == Read(doc)
  {
    hide ParseTabs, ParseNames, FindChar, Rows, Names, RowParts, NamesFree, Free, AllDurable, LiveTabs, Restore;
    var rows, names := Rows(nums, doc.tabs), Names(doc.durable);
    LiveIsDurable(store, doc.tabs);
    RowsRead(nums, doc.tabs);
    NamesAre(names, doc.durable);
    assert wire[..3] == "v1|" && wire[3..] == rows + "|" + names;
    BarFirst(rows, names);
    RestoreCuts(wire, store, doc);
  }

  /** A restore succeeds exactly on such a text whose tabs are in identities that are live and not in-memory, and gives what it spells. */
  lemma RestoreExact(wire: string, store: IdentityStore, doc: SessionDoc)
    ensures Restore(wire, store) == Read(doc)
            <==> (exists nums :: SessionWire(wire, nums, doc))
                 && forall i | 0 <= i < |doc.tabs| :: doc.tabs[i].domain in store.records && !store.records[doc.tabs[i].domain].inMemory
  {
    hide Restore, SessionWire;
    if Restore(wire, store) == Read(doc) { RestoredHasWire(wire, store, doc); }
    if (exists nums :: SessionWire(wire, nums, doc)) && LiveTabs(store, doc.tabs) {
      var nums :| SessionWire(wire, nums, doc);
      WireRestores(wire, nums, store, doc);
    }
  }

  lemma BarSplits(s: string)
    requires FindChar(s, '|') < |s|
    ensures var mid := FindChar(s, '|'); s == s[..mid] + "|" + s[mid + 1..] && Free(s[..mid], {'|'})
  {
    CutAt(s, '|');
    FreeOf(s[..FindChar(s, '|')], '|');
    hide FindChar, Free;
  }

  lemma BarFirst(rows: string, names: string)
    requires Free(rows, {'|'})
    ensures var s := rows + "|" + names; FindChar(s, '|') == |rows| < |s| && s[..|rows|] == rows && s[|rows| + 1..] == names
  {
    var s := rows + "|" + names;
    assert forall i | 0 <= i < |rows| :: s[i] == rows[i];
    FindIs(s, '|', |rows|);
  }

  // What a session lists

  /** The last row of the tab whose target is still there. */
  ghost predicate LastLiveRow(store: IdentityStore, changes: seq<Change>, t: uint64, i: int) {
    && 0 <= i < |changes| && changes[i].tab == t && changes[i].to != "" && changes[i].to in store.records
    && forall j | i < j < |changes| :: changes[j].tab == t ==> changes[j].to == "" || changes[j].to !in store.records
  }

  lemma {:induction false} LatestLiveIs(store: IdentityStore, changes: seq<Change>, t: uint64)
    ensures t in LatestLive(store, changes) ==> exists i :: LastLiveRow(store, changes, t, i) && changes[i].to == LatestLive(store, changes)[t]
    ensures (exists i :: LastLiveRow(store, changes, t, i)) ==> t in LatestLive(store, changes)
  {
    if changes != [] {
      var front, c := changes[..|changes| - 1], changes[|changes| - 1];
      LatestLiveIs(store, front, t);
      if c.tab == t && c.to != "" && c.to in store.records {
        assert LastLiveRow(store, changes, t, |changes| - 1);
      } else {
        forall i ensures LastLiveRow(store, front, t, i) <==> LastLiveRow(store, changes, t, i) { SameRow(store, changes, t, i); }
        if t in LatestLive(store, front) {
          var i :| LastLiveRow(store, front, t, i) && front[i].to == LatestLive(store, front)[t];
          assert changes[i] == front[i];
        }
      }
    }
  }

  lemma SameRow(store: IdentityStore, changes: seq<Change>, t: uint64, i: int)
    requires changes != [] && var c := changes[|changes| - 1]; !(c.tab == t && c.to != "" && c.to in store.records)
    ensures LastLiveRow(store, changes[..|changes| - 1], t, i) <==> LastLiveRow(store, changes, t, i)
  {
    var front := changes[..|changes| - 1];
    assert forall j | 0 <= j < |front| :: front[j] == changes[j];
    if LastLiveRow(store, front, t, i) {
      forall j | i < j < |changes| ensures changes[j].tab == t ==> changes[j].to == "" || changes[j].to !in store.records {
        if j < |front| { assert front[j] == changes[j]; }
      }
    }
    if LastLiveRow(store, changes, t, i) {
      assert i < |front|;
      forall j | i < j < |front| ensures front[j].tab == t ==> front[j].to == "" || front[j].to !in store.records { assert front[j] == changes[j]; }
    }
  }

  lemma OneLastLiveRow(store: IdentityStore, changes: seq<Change>, t: uint64, i: int, j: int)
    requires LastLiveRow(store, changes, t, i) && LastLiveRow(store, changes, t, j)
    ensures i == j
  {
  }

  /**
    A session lists a tab, without its window, under the target of the last of its rows that names an identity that is still
    there, unless that identity is in-memory.
   */
  lemma SessionLists(store: IdentityStore, changes: seq<Change>, x: Tab)
    ensures x in Snapshot(store, changes).0.tabs
            <==> exists i :: LastLiveRow(store, changes, x.id, i) && x == Tab(x.id, "", changes[i].to) && !store.records[changes[i].to].inMemory
  {
    TabInSnapshot(store, changes, x);
    LatestLiveIs(store, changes, x.id);
    hide Snapshot, LatestLive;
    if x.id in LatestLive(store, changes) {
      var i :| LastLiveRow(store, changes, x.id, i) && changes[i].to == LatestLive(store, changes)[x.id];
      LiveTarget(store, changes, x.id, i);
      forall j | LastLiveRow(store, changes, x.id, j) ensures j == i { OneLastLiveRow(store, changes, x.id, i, j); }
    }
  }

  lemma LiveTarget(store: IdentityStore, changes: seq<Change>, t: uint64, i: int)
    requires LastLiveRow(store, changes, t, i)
    ensures 0 <= i < |changes| && changes[i].to in store.records
  {
  }

  /** Its tabs ascend by number, and its names are those of the tabs, each once, in byte order. */
  lemma SessionOrders(store: IdentityStore, changes: seq<Change>)
    ensures var doc := Snapshot(store, changes).0;
            && (forall i, j | 0 <= i < j < |doc.tabs| :: doc.tabs[i].id < doc.tabs[j].id)
            && InByteOrder(doc.durable) && forall d :: d in doc.durable <==> exists i :: 0 <= i < |doc.tabs| && doc.tabs[i].domain == d
  {
    SnapshotAscends(store, changes);
    AscendingIsByteOrder(Snapshot(store, changes).0.durable);
    hide LatestLive, KeptTabs, DroppedTabs, TabsInOrder, SortedKeys, Less, InByteOrder;
  }
}
