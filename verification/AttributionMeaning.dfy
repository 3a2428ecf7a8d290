/** The rows of a memory table, one by one. */
module AttributionMeaning {
  import opened Wrappers
  import opened Order
  import opened IdentityAttribution

  /** Memory and number of the processes that serve nobody. */
  ghost function IdleMemory(samples: seq<Sample>): nat {
    if samples == [] then 0
    else IdleMemory(samples[..|samples| - 1]) + (if samples[|samples| - 1].serves == [] then samples[|samples| - 1].rss else 0)
  }

  ghost function IdleCount(samples: seq<Sample>): nat {
    if samples == [] then 0 else IdleCount(samples[..|samples| - 1]) + (if samples[|samples| - 1].serves == [] then 1 else 0)
  }

  /** A process serves `d`: how often it is named makes no difference. */
  ghost predicate ServesOne(samples: seq<Sample>, d: string) { exists i, j :: 0 <= i < |samples| && 0 <= j < |samples[i].serves| && samples[i].serves[j] == d }

  lemma NobodyServed(s: Sample)
    ensures SortedKeys(Served(s)) == [] <==> s.serves == []
  {
    hide SortedKeys;
    if s.serves != [] { assert s.serves[0] in Served(s); }
    if SortedKeys(Served(s)) != [] { assert SortedKeys(Served(s))[0] in Served(s); }
  }

  lemma {:induction false} NobodyIs(samples: seq<Sample>)
    ensures Account(samples).nobody == IdleMemory(samples) % M && Account(samples).nobodyProcesses == IdleCount(samples)
  {
    hide SortedKeys, Plus, ChargeParts, CountParts;
    if samples != [] {
      var front, s := samples[..|samples| - 1], samples[|samples| - 1];
      NobodyIs(front);
      NobodyServed(s);
      PlusWraps(Account(front).nobody, IdleMemory(front), s.rss);
    }
  }

  lemma {:induction false} ServedIsCounted(samples: seq<Sample>, d: string)
    ensures Processes(samples, d) > 0 <==> ServesOne(samples, d)
  {
    if samples != [] {
      var front, n := samples[..|samples| - 1], |samples| - 1;
      ServedIsCounted(front, d);
      if ServesOne(front, d) {
        var i, j :| 0 <= i < |front| && 0 <= j < |front[i].serves| && front[i].serves[j] == d;
        assert samples[i] == front[i];
      }
      if ServesOne(samples, d) {
        var i, j :| 0 <= i < |samples| && 0 <= j < |samples[i].serves| && samples[i].serves[j] == d;
        if i < n { assert front[i] == samples[i]; }
      }
      if d in Served(samples[n]) { var j :| 0 <= j < |samples[n].serves| && samples[n].serves[j] == d; }
    }
  }

  /** What is left of the total goes with the memory of the processes that serve nobody. */
  ghost function IdleRow(samples: seq<Sample>, total: size): Row {
    Row("(unattributed)", (IdleMemory(samples) + (total - Measured(samples) % M)) % M, IdleCount(samples))
  }

  ghost predicate DomainRow(samples: seq<Sample>, r: Row) {
    ServesOne(samples, r.domain) && r.kb == Shares(samples, r.domain) % M && r.processes == Processes(samples, r.domain)
  }

  lemma Listed(b: Books, ds: seq<string>, last: Row, row: Row)
    requires forall d :: d in ds <==> d in b.kb
    ensures row in RowsOf(ds, b.kb, b.processes) + [last]
            <==> row == last || (row.domain in b.kb && row.kb == b.kb[row.domain]
                                 && row.processes == if row.domain in b.processes then b.processes[row.domain] else 0)
  {
    hide RowsOf;
    var rows := RowsOf(ds, b.kb, b.processes);
    if row.domain in b.kb { var i :| 0 <= i < |ds| && ds[i] == row.domain; assert rows[i].domain == row.domain; }
    if row in rows { var i :| 0 <= i < |rows| && rows[i] == row; assert ds[i] == row.domain; }
  }

  lemma RowsIn(b: Books, total: size, row: Row)
    requires b.all <= total
    ensures row in TableOf(b, total)
            <==> row == Row("(unattributed)", Plus(b.nobody, total - b.all), b.nobodyProcesses)
                 || (row.domain in b.kb && row.kb == b.kb[row.domain]
                     && row.processes == if row.domain in b.processes then b.processes[row.domain] else 0)
    ensures |TableOf(b, total)| == |b.kb| + 1
  {
    var ds := SortedKeys(b.kb.Keys);
    var last := Row("(unattributed)", Plus(b.nobody, total - b.all), b.nobodyProcesses);
    KeysListed(b.kb);
    KeysCounted(b.kb);
    TableIsSorted(b, total);
    hide *;
    Listed(b, ds, last, row);
    SortedMembers(RowsOf(ds, b.kb, b.processes) + [last], row);
  }

  lemma TableIsSorted(b: Books, total: size)
    requires b.all <= total
    ensures var ds := SortedKeys(b.kb.Keys);
            TableOf(b, total) == SortRows(RowsOf(ds, b.kb, b.processes) + [Row("(unattributed)", Plus(b.nobody, total - b.all), b.nobodyProcesses)])
  {
    hide SortRows, RowsOf, SortedKeys, Plus;
  }

  lemma KeysListed(kb: map<string, size>)
    ensures forall d :: d in SortedKeys(kb.Keys) <==> d in kb
  {
    hide SortedKeys;
  }

  lemma SortedMembers(rows: seq<Row>, row: Row)
    ensures |SortRows(rows)| == |rows| && (row in SortRows(rows) <==> row in rows)
  {
    hide SortRows;
    SortedContents(rows);
    assert row in SortRows(rows) <==> row in multiset(SortRows(rows));
    assert row in rows <==> row in multiset(rows);
    assert |SortRows(rows)| == |multiset(SortRows(rows))| == |rows|;
  }

  lemma KeysCounted(kb: map<string, size>)
    ensures |SortedKeys(kb.Keys)| == |kb|
  {
    SortedDistinct(kb.Keys);
    hide SortedKeys;
    DistinctCount(SortedKeys(kb.Keys), kb.Keys);
  }

  lemma {:induction false} DistinctCount(ds: seq<string>, s: set<string>)
    requires Distinct(ds) && forall d :: d in ds <==> d in s
    ensures |ds| == |s|
    decreases |ds|
  {
    if ds == [] {
      assert s == {};
    } else {
      var front, last := ds[..|ds| - 1], ds[|ds| - 1];
      forall d ensures d in front <==> d in s - {last} { FrontHas(ds, d); }
      DistinctCount(front, s - {last});
    }
  }

  lemma RowIsDomains(samples: seq<Sample>, row: Row)
    ensures var b := Account(samples);
            DomainRow(samples, row)
            <==> row.domain in b.kb && row.kb == b.kb[row.domain] && row.processes == if row.domain in b.processes then b.processes[row.domain] else 0
  {
    RowsMean(samples, row.domain);
    ServedIsCounted(samples, row.domain);
    hide Account, ServesOne, Shares, Processes;
  }

  lemma IdleRowIs(samples: seq<Sample>, total: size)
    requires Account(samples).all <= total
    ensures var b := Account(samples);
            Row("(unattributed)", Plus(b.nobody, total - b.all), b.nobodyProcesses) == IdleRow(samples, total) && b.all == Measured(samples) % M
  {
    RowsMean(samples, "");
    NobodyIs(samples);
    hide Account, IdleMemory, IdleCount, Measured, Plus;
    PlusWraps(Account(samples).nobody, IdleMemory(samples), total - Account(samples).all);
  }

  /** A table holds one row for each identity that some process serves, one row for all else, and no other. */
  lemma TableIs(samples: seq<Sample>, total: size, row: Row)
    requires Attribute(samples, total).1 != []
    ensures var rows := Attribute(samples, total).1;
            && (row in rows <==> row == IdleRow(samples, total) || DomainRow(samples, row))
            && |rows| == |AllServed(samples)| + 1
  {
    var b := Account(samples);
    OutcomeIs(samples, total);
    hide TableOf, Attribute, Account, Sum, Plus, IdleRow, DomainRow, AllServed;
    RowsIn(b, total, row);
    RowIsDomains(samples, row);
    IdleRowIs(samples, total);
    forall d ensures d in AllServed(samples) <==> d in b.kb { ServedIsBilled(samples, d); }
    assert AllServed(samples) == b.kb.Keys;
  }

  lemma ServedIsBilled(samples: seq<Sample>, d: string)
    ensures d in AllServed(samples) <==> d in Account(samples).kb
  {
    RowsMean(samples, d);
    hide Account;
    ServedCounts(samples, d);
  }

  lemma {:induction false} ServedCounts(samples: seq<Sample>, d: string)
    ensures d in AllServed(samples) <==> Processes(samples, d) > 0
  {
    if samples != [] { ServedCounts(samples[..|samples| - 1], d); }
  }
}
