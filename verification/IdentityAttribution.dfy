/**
  Attribution of measured memory to identities: what every row means, and that a table that is shown adds up.

  Sizes are 64-bit and additions wrap, as `size_t` does.
 */
module IdentityAttribution {
  import opened Wrappers
  import opened Order

  const M: int := 0x1_0000_0000_0000_0000

  type size = i: int | 0 <= i < 0x1_0000_0000_0000_0000

  function Plus(a: size, b: size): size { (a + b) % M }

  datatype Sample = Sample(pid: nat, rss: size, serves: seq<string>)
  datatype Row = Row(domain: string, kb: size, processes: nat)

  /** Memory charged so far: to domains, to nobody, and in all. */
  datatype Books = Books(kb: map<string, size>, processes: map<string, nat>, nobody: size, nobodyProcesses: nat, all: size)

  const OPENED := Books(map[], map[], 0, 0, 0)

  function Served(s: Sample): set<string> { set i | 0 <= i < |s.serves| :: s.serves[i] }

  /** The part of the `k`-th of `n` identities: an even split, the remainder one kilobyte at a time from the front. */
  function Part(rss: size, n: nat, k: nat): size
    requires n > 0
  {
    ShareFits(rss, n);
    var q, r := rss / n, rss % n;
    if k < r then (PartFits(rss, n); q + 1) else q
  }

  lemma Product(a: nat, b: nat)
    ensures a * b >= 0
  {
  }

  lemma ShareFits(rss: size, n: nat)
    requires n > 0
    ensures 0 <= rss / n <= rss
  {
    var q := rss / n;
    assert rss == n * q + rss % n;
    assert n * q == (n - 1) * q + q;
    Product(n - 1, q);
  }

  lemma PartFits(rss: size, n: nat)
    requires n > 0 && rss % n > 0
    ensures rss / n + 1 < M
  {
    assert rss == n * (rss / n) + rss % n;
    if n >= 2 { DivLess(rss, n); }
  }

  lemma DivLess(a: nat, n: nat)
    requires n >= 2
    ensures a / n <= a / 2
  {
    assert a == n * (a / n) + a % n;
    assert 2 * (a / n) <= n * (a / n);
  }

  /** Charge the first `k` of the identities `ds` with their parts. */
  function ChargeParts(kb: map<string, size>, ds: seq<string>, rss: size, k: nat): map<string, size>
    requires k <= |ds|
  {
    if k == 0 then kb
    else
      var m, d := ChargeParts(kb, ds, rss, k - 1), ds[k - 1];
      m[d := Plus(if d in m then m[d] else 0, Part(rss, |ds|, k - 1))]
  }

  function CountParts(p: map<string, nat>, ds: seq<string>, k: nat): map<string, nat>
    requires k <= |ds|
  {
    if k == 0 then p
    else
      var m, d := CountParts(p, ds, k - 1), ds[k - 1];
      m[d := (if d in m then m[d] else 0) + 1]
  }

  ghost function Charge(b: Books, s: Sample): Books {
    var all := Plus(b.all, s.rss);
    var ds := SortedKeys(Served(s));
    if ds == [] then b.(all := all, nobody := Plus(b.nobody, s.rss), nobodyProcesses := b.nobodyProcesses + 1)
    else b.(all := all, kb := ChargeParts(b.kb, ds, s.rss, |ds|), processes := CountParts(b.processes, ds, |ds|))
  }

  ghost function Account(samples: seq<Sample>): Books {
    if samples == [] then OPENED else Charge(Account(samples[..|samples| - 1]), samples[|samples| - 1])
  }

  /** The rows of the domains along a list of them. */
  function RowsOf(ds: seq<string>, kb: map<string, size>, processes: map<string, nat>): (rows: seq<Row>)
    requires forall d | d in ds :: d in kb
    ensures |rows| == |ds| && forall i | 0 <= i < |ds| :: rows[i] == Row(ds[i], kb[ds[i]], if ds[i] in processes then processes[ds[i]] else 0)
  {
    if ds == [] then []
    else
      var d := ds[|ds| - 1];
      RowsOf(ds[..|ds| - 1], kb, processes) + [Row(d, kb[d], if d in processes then processes[d] else 0)]
  }

  /** Biggest first. */
  function InsertRow(r: Row, rows: seq<Row>): seq<Row> {
    if rows == [] || r.kb > rows[0].kb then [r] + rows else [rows[0]] + InsertRow(r, rows[1..])
  }

  function SortRows(rows: seq<Row>): seq<Row> {
    if rows == [] then [] else InsertRow(rows[|rows| - 1], SortRows(rows[..|rows| - 1]))
  }

  function Sum(rows: seq<Row>): nat { if rows == [] then 0 else Sum(rows[..|rows| - 1]) + rows[|rows| - 1].kb }

  const UNATTRIBUTED := "(unattributed)"

  ghost function TableOf(b: Books, total: size): seq<Row>
    requires b.all <= total
  {
    SortRows(RowsOf(SortedKeys(b.kb.Keys), b.kb, b.processes) + [Row(UNATTRIBUTED, Plus(b.nobody, total - b.all), b.nobodyProcesses)])
  }

  /** The outcome: whether there is a table to show, and the rows that are left either way. */
  ghost function Attribute(samples: seq<Sample>, total: size): (bool, seq<Row>) {
    var b := Account(samples);
    if b.all > total then (false, [])
    else
      var rows := TableOf(b, total);
      (Sum(rows) <= total, rows)
  }

  // What each row means

  ghost function Measured(samples: seq<Sample>): nat { if samples == [] then 0 else Measured(samples[..|samples| - 1]) + samples[|samples| - 1].rss }

  function IndexOf(ds: seq<string>, d: string): (i: nat)
    requires d in ds
    ensures i < |ds| && ds[i] == d
  {
    if ds[0] == d then 0 else 1 + IndexOf(ds[1..], d)
  }

  /** What one process costs one identity: nothing, or its part of an even split over all the identities it serves. */
  ghost function Share(s: Sample, d: string): size {
    var ds := SortedKeys(Served(s));
    if d in Served(s) then Part(s.rss, |ds|, IndexOf(ds, d)) else 0
  }

  ghost function Shares(samples: seq<Sample>, d: string): nat {
    if samples == [] then 0 else Shares(samples[..|samples| - 1], d) + Share(samples[|samples| - 1], d)
  }

  ghost function Processes(samples: seq<Sample>, d: string): nat {
    if samples == [] then 0 else Processes(samples[..|samples| - 1], d) + (if d in Served(samples[|samples| - 1]) then 1 else 0)
  }

  /** Equal up to wrap-around. */
  ghost predicate Congruent(a: int, b: int) { a % M == b % M }

  lemma CongruentShift(a: int, b: int, c: int)
    requires Congruent(a, b)
    ensures Congruent(a + c, b + c)
  {
  }

  lemma CongruentChain(a: int, b: int, c: int)
    requires Congruent(a, b) && Congruent(b, c)
    ensures Congruent(a, c)
  {
  }

  lemma PlusCongruent(a: size, b: size)
    ensures Congruent(Plus(a, b), a + b)
  {
  }

  lemma Wrapped(a: size, n: int)
    ensures Congruent(a, n) <==> a == n % M
  {
  }

  /** A wrapped sum stays the wrapped sum of what was added. */
  lemma PlusWraps(a: size, n: int, x: size)
    requires a == n % M
    ensures Plus(a, x) == (n + x) % M
  {
    hide Plus, Congruent;
    Wrapped(a, n);
    CongruentShift(a, n, x);
    PlusCongruent(a, x);
    CongruentChain(Plus(a, x), a + x, n + x);
    Wrapped(Plus(a, x), n + x);
  }

  ghost predicate Distinct(ds: seq<string>) { forall i, j | 0 <= i < j < |ds| :: ds[i] != ds[j] }

  lemma SortedDistinct(s: set<string>)
    ensures Distinct(SortedKeys(s))
  {
    StringsAreOrdered();
    hide Less, SortedKeys;
  }

  lemma {:induction false} ChargedOne(kb: map<string, size>, p: map<string, nat>, ds: seq<string>, rss: size, k: nat, d: string)
    requires k <= |ds| && Distinct(ds)
    ensures var (m, c) := (ChargeParts(kb, ds, rss, k), CountParts(p, ds, k));
            && (d in m <==> d in kb || d in ds[..k])
            && (d !in ds[..k] ==> (d in kb ==> m[d] == kb[d]) && (d in c <==> d in p) && (d in p ==> c[d] == p[d]))
            && (d in ds[..k] ==> m[d] == Plus(if d in kb then kb[d] else 0, Part(rss, |ds|, IndexOf(ds, d)))
                                 && d in c && c[d] == (if d in p then p[d] else 0) + 1)
  {
    hide Part, Plus;
    if k > 0 {
      ChargedOne(kb, p, ds, rss, k - 1, d);
      assert ds[..k] == ds[..k - 1] + [ds[k - 1]];
      if d == ds[k - 1] { assert IndexOf(ds, d) == k - 1; }
    }
  }

  lemma ShareIs(s: Sample, d: string)
    ensures var ds := SortedKeys(Served(s));
            if d in Served(s) then ds != [] && d in ds && Share(s, d) == Part(s.rss, |ds|, IndexOf(ds, d)) else Share(s, d) == 0
  {
    hide Part, SortedKeys;
  }

  /** The row of a domain is the sum of its shares; the number beside it counts the processes that serve it. */
  lemma {:induction false} RowsMean(samples: seq<Sample>, d: string)
    ensures var b := Account(samples);
            && (d in b.kb <==> Processes(samples, d) > 0)
            && (if d in b.kb then b.kb[d] else 0) == Shares(samples, d) % M
            && (if d in b.processes then b.processes[d] else 0) == Processes(samples, d)
            && b.all == Measured(samples) % M
  {
    hide Part, ChargeParts, CountParts, SortedKeys, Plus, Share;
    if samples != [] {
      var front, s := samples[..|samples| - 1], samples[|samples| - 1];
      RowsMean(front, d);
      var ds := SortedKeys(Served(s));
      SortedDistinct(Served(s));
      assert ds[..|ds|] == ds;
      ChargedOne(Account(front).kb, Account(front).processes, ds, s.rss, |ds|, d);
      assert d in Served(s) <==> d in ds;
      ShareIs(s, d);
      var prior: size := if d in Account(front).kb then Account(front).kb[d] else 0;
      PlusWraps(prior, Shares(front, d), Share(s, d));
      PlusWraps(Account(front).all, Measured(front), s.rss);
    }
  }

  // Conservation

  ghost function SumMap(kb: map<string, size>): nat
    decreases |kb|
  {
    if kb == map[] then 0
    else
      var d :| d in kb;
      kb[d] + SumMap(kb - {d})
  }

  lemma {:induction false} SumWithout(kb: map<string, size>, d: string)
    requires d in kb
    ensures SumMap(kb) == kb[d] + SumMap(kb - {d})
    decreases |kb|
  {
    var x :| x in kb && SumMap(kb) == kb[x] + SumMap(kb - {x});
    if x != d {
      SumWithout(kb - {x}, d);
      SumWithout(kb - {d}, x);
      assert kb - {x} - {d} == kb - {d} - {x};
    }
  }

  lemma SumUpdate(kb: map<string, size>, d: string, v: size)
    ensures SumMap(kb[d := v]) == SumMap(kb) + v - (if d in kb then kb[d] else 0)
  {
    SumWithout(kb[d := v], d);
    assert kb[d := v] - {d} == kb - {d};
    if d in kb { SumWithout(kb, d); } else { assert kb - {d} == kb; }
  }

  ghost function PartsSum(rss: size, n: nat, k: nat): nat
    requires n > 0
  {
    if k == 0 then 0 else PartsSum(rss, n, k - 1) + Part(rss, n, k - 1)
  }

  lemma {:induction false} PartsUpTo(rss: size, n: nat, k: nat)
    requires 0 < n && k <= n
    ensures PartsSum(rss, n, k) == k * (rss / n) + (if k <= rss % n then k else rss % n)
  {
    if k > 0 {
      PartsUpTo(rss, n, k - 1);
      assert k * (rss / n) == (k - 1) * (rss / n) + rss / n;
    }
  }

  /** A shared process is split fully, and no two of its parts differ by more than one kilobyte. */
  lemma SplitIsFullAndEven(rss: size, n: nat)
    requires n > 0
    ensures PartsSum(rss, n, n) == rss
    ensures forall j, k | 0 <= j < n && 0 <= k < n :: -1 <= Part(rss, n, j) - Part(rss, n, k) <= 1
    ensures forall j, k | 0 <= j < k < n :: Part(rss, n, j) >= Part(rss, n, k)
  {
    PartsUpTo(rss, n, n);
    assert rss == n * (rss / n) + rss % n;
  }

  lemma ChargeTurn(kb: map<string, size>, ds: seq<string>, rss: size, k: nat)
    requires k < |ds|
    ensures var m := ChargeParts(kb, ds, rss, k);
            ChargeParts(kb, ds, rss, k + 1) == m[ds[k] := Plus(if ds[k] in m then m[ds[k]] else 0, Part(rss, |ds|, k))]
    ensures PartsSum(rss, |ds|, k + 1) == PartsSum(rss, |ds|, k) + Part(rss, |ds|, k)
  {
    hide Plus, Part;
  }

  lemma {:induction false} ChargedSum(kb: map<string, size>, ds: seq<string>, rss: size, k: nat)
    requires k <= |ds| && |ds| > 0
    ensures Congruent(SumMap(ChargeParts(kb, ds, rss, k)), SumMap(kb) + PartsSum(rss, |ds|, k))
  {
    hide *;
    if k > 0 {
      ChargedSum(kb, ds, rss, k - 1);
      ChargeTurn(kb, ds, rss, k - 1);
      var m, d, part := ChargeParts(kb, ds, rss, k - 1), ds[k - 1], Part(rss, |ds|, k - 1);
      var prior: size := if d in m then m[d] else 0;
      SumUpdate(m, d, Plus(prior, part));
      SumSteps(SumMap(m), prior, part, SumMap(kb) + PartsSum(rss, |ds|, k - 1));
    } else {
      NothingCharged(kb, ds, rss);
    }
  }

  lemma NothingCharged(kb: map<string, size>, ds: seq<string>, rss: size)
    requires |ds| > 0
    ensures Congruent(SumMap(ChargeParts(kb, ds, rss, 0)), SumMap(kb) + PartsSum(rss, |ds|, 0))
  {
    hide SumMap;
  }

  lemma SumSteps(sum: int, prior: size, part: size, total: int)
    requires Congruent(sum, total)
    ensures Congruent(sum + Plus(prior, part) - prior, total + part)
  {
    hide Plus, Congruent;
    PlusCongruent(prior, part);
    CongruentShift(Plus(prior, part), prior + part, sum - prior);
    CongruentShift(sum, total, part);
    CongruentChain(sum + Plus(prior, part) - prior, sum + part, total + part);
  }

  /** At every point, what is charged to domains and to nobody is what was measured, up to wrap-around. */
  lemma {:induction false} BooksBalance(samples: seq<Sample>)
    ensures var b := Account(samples); Congruent(SumMap(b.kb) + b.nobody, Measured(samples)) && Congruent(b.all, Measured(samples))
  {
    hide ChargeParts, CountParts, SortedKeys, SumMap, PartsSum, Congruent, Plus;
    if samples == [] {
      EmptySum();
    } else {
      var front, s := samples[..|samples| - 1], samples[|samples| - 1];
      BooksBalance(front);
      var b := Account(front);
      var ds := SortedKeys(Served(s));
      SumSteps(b.all, b.all, s.rss, Measured(front));
      if ds == [] {
        SumSteps(SumMap(b.kb) + b.nobody, b.nobody, s.rss, Measured(front));
      } else {
        ChargedSum(b.kb, ds, s.rss, |ds|);
        SplitIsFullAndEven(s.rss, |ds|);
        var charged := SumMap(ChargeParts(b.kb, ds, s.rss, |ds|));
        CongruentShift(charged, SumMap(b.kb) + s.rss, b.nobody);
        CongruentShift(SumMap(b.kb) + b.nobody, Measured(front), s.rss);
        CongruentChain(charged + b.nobody, SumMap(b.kb) + b.nobody + s.rss, Measured(front) + s.rss);
      }
    }
  }

  lemma EmptySum()
    ensures SumMap(map[]) == 0 && Congruent(0, 0)
  {
  }

  lemma {:induction false} SumAppend(rows: seq<Row>, r: Row)
    ensures Sum(rows + [r]) == Sum(rows) + r.kb
  {
    assert (rows + [r])[..|rows|] == rows;
  }

  lemma {:induction false} SumFront(rows: seq<Row>)
    requires rows != []
    ensures Sum(rows) == rows[0].kb + Sum(rows[1..])
  {
    if |rows| > 1 {
      SumFront(rows[..|rows| - 1]);
      assert rows[..|rows| - 1][1..] == rows[1..][..|rows| - 2];
    } else {
      assert rows[..0] == [] && rows[1..] == [];
    }
  }

  lemma {:induction false} InsertSums(r: Row, rows: seq<Row>)
    ensures Sum(InsertRow(r, rows)) == Sum(rows) + r.kb && multiset(InsertRow(r, rows)) == multiset(rows) + multiset{r}
  {
    hide Sum;
    SumFront(InsertRow(r, rows));
    if rows != [] && !(r.kb > rows[0].kb) {
      InsertSums(r, rows[1..]);
      SumFront(rows);
      assert rows == [rows[0]] + rows[1..];
      assert InsertRow(r, rows)[1..] == InsertRow(r, rows[1..]);
    } else {
      assert InsertRow(r, rows)[1..] == rows;
    }
  }

  ghost predicate Descending(rows: seq<Row>) { forall i, j | 0 <= i < j < |rows| :: rows[i].kb >= rows[j].kb }

  lemma {:induction false} InsertDescends(r: Row, rows: seq<Row>)
    requires Descending(rows)
    ensures Descending(InsertRow(r, rows))
  {
    if rows != [] && !(r.kb > rows[0].kb) {
      InsertDescends(r, rows[1..]);
      var rest := InsertRow(r, rows[1..]);
      forall i | 0 <= i < |rest| ensures rows[0].kb >= rest[i].kb {
        InsertSums(r, rows[1..]);
        assert rest[i] in multiset(rest);
        if rest[i] != r { var j :| 0 <= j < |rows[1..]| && rows[1..][j] == rest[i]; assert rows[j + 1] == rest[i]; }
      }
    }
  }

  lemma {:induction false} SortedSum(rows: seq<Row>)
    ensures Sum(SortRows(rows)) == Sum(rows)
  {
    hide InsertRow;
    if rows != [] {
      SortedSum(rows[..|rows| - 1]);
      InsertSums(rows[|rows| - 1], SortRows(rows[..|rows| - 1]));
    }
  }

  lemma {:induction false} SortedContents(rows: seq<Row>)
    ensures multiset(SortRows(rows)) == multiset(rows)
  {
    hide InsertRow;
    if rows != [] {
      SortedContents(rows[..|rows| - 1]);
      InsertSums(rows[|rows| - 1], SortRows(rows[..|rows| - 1]));
      assert rows == rows[..|rows| - 1] + [rows[|rows| - 1]];
    }
  }

  lemma {:induction false} SortedDescends(rows: seq<Row>)
    ensures Descending(SortRows(rows))
  {
    hide InsertRow, Descending;
    if rows != [] {
      SortedDescends(rows[..|rows| - 1]);
      InsertDescends(rows[|rows| - 1], SortRows(rows[..|rows| - 1]));
    } else {
      NothingDescends();
    }
  }

  lemma NothingDescends()
    ensures Descending([])
  {
  }

  /** Sorting keeps the rows, and so their sum, and puts the biggest first. */
  lemma SortedRows(rows: seq<Row>)
    ensures Sum(SortRows(rows)) == Sum(rows) && multiset(SortRows(rows)) == multiset(rows) && Descending(SortRows(rows))
  {
    SortedSum(rows);
    SortedContents(rows);
    SortedDescends(rows);
  }

  lemma {:induction false} RowsSum(ds: seq<string>, kb: map<string, size>, processes: map<string, nat>)
    requires Distinct(ds) && forall d :: d in ds <==> d in kb
    ensures Sum(RowsOf(ds, kb, processes)) == SumMap(kb)
    decreases |ds|
  {
    if ds == [] {
      assert kb == map[];
    } else {
      var front, d := ds[..|ds| - 1], ds[|ds| - 1];
      SumWithout(kb, d);
      hide SumMap, Sum;
      forall x ensures x in front <==> x in kb - {d} { FrontHas(ds, x); }
      RowsSum(front, kb - {d}, processes);
      SameRows(front, kb, d, processes);
      SumAppend(RowsOf(front, kb, processes), Row(d, kb[d], if d in processes then processes[d] else 0));
    }
  }

  lemma SameRows(ds: seq<string>, kb: map<string, size>, d: string, processes: map<string, nat>)
    requires d !in ds && forall x | x in ds :: x in kb
    ensures RowsOf(ds, kb - {d}, processes) == RowsOf(ds, kb, processes)
  {
    hide RowsOf;
  }

  lemma FrontHas(ds: seq<string>, x: string)
    requires Distinct(ds) && ds != []
    ensures x in ds[..|ds| - 1] <==> x in ds && x != ds[|ds| - 1]
  {
    assert ds == ds[..|ds| - 1] + [ds[|ds| - 1]];
  }

  lemma TableSum(b: Books, total: size)
    requires b.all <= total
    ensures Sum(TableOf(b, total)) == SumMap(b.kb) + Plus(b.nobody, total - b.all) && Descending(TableOf(b, total))
  {
    hide Sum, SortRows, RowsOf, SumMap, SortedKeys, Plus, Descending;
    var ds := SortedKeys(b.kb.Keys);
    SortedDistinct(b.kb.Keys);
    var rows, last := RowsOf(ds, b.kb, b.processes), Row(UNATTRIBUTED, Plus(b.nobody, total - b.all), b.nobodyProcesses);
    RowsSum(ds, b.kb, b.processes);
    SumAppend(rows, last);
    SortedRows(rows + [last]);
  }

  lemma OutcomeIs(samples: seq<Sample>, total: size)
    ensures var b := Account(samples);
            Attribute(samples, total) == if b.all > total then (false, []) else (Sum(TableOf(b, total)) <= total, TableOf(b, total))
  {
    hide Account, TableOf, Sum;
  }

  lemma Closes(sum: int, nobody: size, all: size, measured: int, total: size)
    requires all <= total && Congruent(sum + nobody, measured) && Congruent(all, measured)
    ensures Congruent(sum + Plus(nobody, total - all), total)
  {
    hide Plus, Congruent;
    SumSteps(sum + nobody, nobody, total - all, measured);
    CongruentShift(all, measured, total - all);
    Backwards(total, measured + total - all);
    CongruentChain(sum + Plus(nobody, total - all), measured + (total - all), total);
  }

  lemma Backwards(a: int, b: int)
    ensures Congruent(a, b) ==> Congruent(b, a)
  {
  }

  /** Conservation: whenever a table is shown its rows add up to the measured total, for any samples, even if sizes wrapped. */
  lemma ShownTablesAddUp(samples: seq<Sample>, total: size)
    requires Attribute(samples, total).0
    ensures Sum(Attribute(samples, total).1) == total && Descending(Attribute(samples, total).1)
  {
    hide *;
    var b := Account(samples);
    OutcomeIs(samples, total);
    BooksBalance(samples);
    TableSum(b, total);
    Closes(SumMap(b.kb), b.nobody, b.all, Measured(samples), total);
    NoWrap(SumMap(b.kb) + Plus(b.nobody, total - b.all), total);
  }

  lemma NoWrap(sum: nat, total: size)
    requires sum <= total && Congruent(sum, total)
    ensures sum == total
  {
  }

  lemma {:induction false} SmallSum(samples: seq<Sample>)
    ensures SumMap(Account(samples).kb) + Account(samples).nobody <= Measured(samples)
  {
    hide ChargeParts, CountParts, SortedKeys, SumMap, PartsSum;
    if samples == [] {
      EmptySum();
    } else {
      var front, s := samples[..|samples| - 1], samples[|samples| - 1];
      SmallSum(front);
      var b := Account(front);
      var ds := SortedKeys(Served(s));
      if ds == [] {
        assert Plus(b.nobody, s.rss) <= b.nobody + s.rss;
      } else {
        ChargedAtMost(b.kb, ds, s.rss, |ds|);
        SplitIsFullAndEven(s.rss, |ds|);
      }
    }
  }

  lemma {:induction false} ChargedAtMost(kb: map<string, size>, ds: seq<string>, rss: size, k: nat)
    requires k <= |ds| && |ds| > 0
    ensures SumMap(ChargeParts(kb, ds, rss, k)) <= SumMap(kb) + PartsSum(rss, |ds|, k)
  {
    hide SumMap, Part;
    if k > 0 {
      ChargedAtMost(kb, ds, rss, k - 1);
      var m, d, part := ChargeParts(kb, ds, rss, k - 1), ds[k - 1], Part(rss, |ds|, k - 1);
      var old0: size := if d in m then m[d] else 0;
      SumUpdate(m, d, Plus(old0, part));
      assert Plus(old0, part) <= old0 + part;
    }
  }

  lemma ModSmall(n: nat)
    requires n < M
    ensures n % M == n
  {
  }

  // Exactly when there is a table, wrapping or not

  ghost function AllServed(samples: seq<Sample>): set<string> {
    if samples == [] then {} else AllServed(samples[..|samples| - 1]) + Served(samples[|samples| - 1])
  }

  /** What each identity is billed: its shares, as a 64-bit sum. */
  ghost function Bills(samples: seq<Sample>): map<string, size> { map d | d in AllServed(samples) :: Shares(samples, d) % M }

  ghost predicate SampleSumFits(samples: seq<Sample>, total: size) { Measured(samples) % M <= total }

  ghost predicate BillsFit(samples: seq<Sample>, total: size) { SumMap(Bills(samples)) <= total }

  lemma {:induction false} ServedIsCounted(samples: seq<Sample>, d: string)
    ensures d in AllServed(samples) <==> Processes(samples, d) > 0
  {
    if samples != [] { ServedIsCounted(samples[..|samples| - 1], d); }
  }

  lemma BillsAre(samples: seq<Sample>)
    ensures Account(samples).kb == Bills(samples) && Account(samples).all == Measured(samples) % M
  {
    hide Account, Shares, Processes, Measured, AllServed;
    var kb := Account(samples).kb;
    forall d ensures (d in kb <==> d in Bills(samples)) && (d in kb ==> kb[d] == Bills(samples)[d]) {
      RowsMean(samples, d);
      ServedIsCounted(samples, d);
    }
    RowsMean(samples, "");
  }

  /**
    The outcome for all samples, whatever wraps. Rows are left exactly when the 64-bit sum of the samples is within the total,
    and they are shown exactly when the bills are too.
   */
  lemma OutcomeExact(samples: seq<Sample>, total: size)
    ensures var (shown, rows) := Attribute(samples, total);
            && (rows != [] <==> SampleSumFits(samples, total))
            && (shown <==> SampleSumFits(samples, total) && BillsFit(samples, total))
  {
    hide *;
    var b := Account(samples);
    OutcomeIs(samples, total);
    FitIs(samples, total);
    if b.all <= total {
      TableSum(b, total);
      TableNotEmpty(b, total);
      BooksBalance(samples);
      Closes(SumMap(b.kb), b.nobody, b.all, Measured(samples), total);
      SumFits(SumMap(b.kb), Plus(b.nobody, total - b.all), total);
    }
  }

  lemma FitIs(samples: seq<Sample>, total: size)
    ensures SampleSumFits(samples, total) <==> Account(samples).all <= total
    ensures BillsFit(samples, total) <==> SumMap(Account(samples).kb) <= total
  {
    BillsAre(samples);
    hide Account, Bills, Measured, SumMap;
  }

  lemma SumFits(sum: nat, rest: size, total: size)
    requires Congruent(sum + rest, total)
    ensures sum + rest <= total <==> sum <= total
  {
    if sum <= total {
      var back: int := 0 - sum;
      CongruentShift(sum + rest, total, back);
      SameSize(rest, total - sum);
    }
  }

  lemma SameSize(a: size, b: size)
    ensures Congruent(a, b) <==> a == b
  {
  }

  lemma SameCount(a: seq<Row>, b: seq<Row>)
    requires multiset(a) == multiset(b)
    ensures |a| == |b|
  {
    assert |multiset(a)| == |a| && |multiset(b)| == |b|;
  }

  lemma SortedNotEmpty(rows: seq<Row>)
    requires rows != []
    ensures SortRows(rows) != []
  {
    hide *;
    SortedContents(rows);
    SameCount(SortRows(rows), rows);
  }

  lemma TableNotEmpty(b: Books, total: size)
    requires b.all <= total
    ensures TableOf(b, total) != []
  {
    var rows := RowsOf(SortedKeys(b.kb.Keys), b.kb, b.processes) + [Row(UNATTRIBUTED, Plus(b.nobody, total - b.all), b.nobodyProcesses)];
    hide RowsOf, SortedKeys, SortRows, Plus;
    SortedNotEmpty(rows);
  }

  /** While the sizes do not wrap, there is a table exactly when they fit the total, and a refusal leaves no rows. */
  lemma TableIffItFits(samples: seq<Sample>, total: size)
    requires Measured(samples) < M
    ensures Attribute(samples, total).0 <==> Measured(samples) <= total
    ensures !Attribute(samples, total).0 ==> Attribute(samples, total).1 == []
  {
    hide *;
    OutcomeExact(samples, total);
    SumFitsIs(samples, total);
    ModSmall(Measured(samples));
    SmallSum(samples);
    FitIs(samples, total);
  }

  /** What the design promises: samples that exceed the total are refused, and no rows are left. */
  ghost predicate OverMeasuredIsRefused(samples: seq<Sample>, total: size) {
    Measured(samples) > total ==> !Attribute(samples, total).0 && Attribute(samples, total).1 == []
  }

  /** The promise is kept exactly when the samples do fit, or their 64-bit sum does not. */
  lemma PromiseKeptIff(samples: seq<Sample>, total: size)
    ensures OverMeasuredIsRefused(samples, total) <==> Measured(samples) <= total || Measured(samples) % M > total
  {
    OutcomeExact(samples, total);
    hide Attribute, Measured, BillsFit;
  }

  // The two ways of breaking it

  lemma MeasuredTwo(a: Sample, b: Sample)
    ensures Measured([a, b]) == a.rss + b.rss && AllServed([a, b]) == Served(a) + Served(b)
    ensures forall d :: Shares([a, b], d) == Share(a, d) + Share(b, d)
  {
    hide Share;
    var samples := [a, b];
    hide Served;
    assert samples[..1] == [a] && [a][..0] == [];
    assert AllServed([a]) == AllServed([]) + Served(a) == Served(a);
    assert Measured([a]) == a.rss;
    assert forall d :: Shares([a], d) == Share(a, d);
  }

  /** An impossible measurement of processes that serve nobody is shown as a table, for any two that wrap to within the total. */
  lemma WrappedMeasurementPasses(a: Sample, b: Sample, total: size)
    requires a.serves == b.serves == [] && a.rss + b.rss >= M && a.rss + b.rss - M <= total
    ensures Measured([a, b]) > total && Attribute([a, b], total).0 && Sum(Attribute([a, b], total).1) == total
  {
    hide *;
    MeasuredTwo(a, b);
    NobodyBilled([a, b], a, b, total);
    OutcomeExact([a, b], total);
    WrappedTwice(a.rss, b.rss, total);
    SumFitsIs([a, b], total);
    ShownTablesAddUp([a, b], total);
  }

  lemma NobodyBilled(samples: seq<Sample>, a: Sample, b: Sample, total: size)
    requires samples == [a, b] && a.serves == b.serves == []
    ensures BillsFit(samples, total)
  {
    MeasuredTwo(a, b);
    assert Served(a) == {} && Served(b) == {};
    assert Bills(samples) == map[];
  }

  lemma WrappedTwice(a: size, b: size, total: size)
    requires a + b >= M
    ensures (a + b) % M == a + b - M && a + b > total
  {
  }

  lemma SumFitsIs(samples: seq<Sample>, total: size)
    ensures SampleSumFits(samples, total) <==> Measured(samples) % M <= total
  {
    hide Measured;
  }

  /** The same processes serving two identities are refused with their rows left, unless both bills fit. */
  lemma RefusedWithRows(a: Sample, b: Sample, total: size)
    requires a.serves == ["a"] && b.serves == ["b"] && a.rss + b.rss >= M && a.rss + b.rss - M <= total
    ensures !Attribute([a, b], total).0 && Attribute([a, b], total).1 != []
  {
    hide *;
    MeasuredTwo(a, b);
    TwoBilled(a, b, total);
    OutcomeExact([a, b], total);
    WrappedTwice(a.rss, b.rss, total);
    SumFitsIs([a, b], total);
  }

  lemma TwoBilled(a: Sample, b: Sample, total: size)
    requires a.serves == ["a"] && b.serves == ["b"] && a.rss + b.rss >= M
    ensures !BillsFit([a, b], total)
  {
    MeasuredTwo(a, b);
    OnlyServed(a, "a");
    OnlyServed(b, "b");
    TwoBills(a, b);
    hide *;
    FitsIs([a, b], total);
    WrappedTwice(a.rss, b.rss, total);
    TwoSum(Bills([a, b]), a.rss, b.rss);
  }

  lemma FitsIs(samples: seq<Sample>, total: size)
    ensures BillsFit(samples, total) <==> SumMap(Bills(samples)) <= total
  {
    hide SumMap, Bills;
  }

  lemma TwoBills(a: Sample, b: Sample)
    requires Served(a) == {"a"} && Served(b) == {"b"} && AllServed([a, b]) == Served(a) + Served(b)
    requires forall d :: Shares([a, b], d) == Share(a, d) + Share(b, d)
    requires Share(a, "a") == a.rss && Share(a, "b") == 0 && Share(b, "b") == b.rss && Share(b, "a") == 0
    ensures Bills([a, b]) == map["a" := a.rss, "b" := b.rss]
  {
    hide Share, Shares, AllServed, Served;
    ModSmall(a.rss);
    ModSmall(b.rss);
  }

  lemma TwoSum(kb: map<string, size>, x: size, y: size)
    requires kb == map["a" := x, "b" := y]
    ensures SumMap(kb) == x + y
  {
    SumWithout(kb, "a");
    SumWithout(kb - {"a"}, "b");
    assert kb - {"a"} - {"b"} == map[];
  }

  lemma OnlyServed(s: Sample, d: string)
    requires s.serves == [d]
    ensures Served(s) == {d} && Share(s, d) == s.rss && forall x | x != d :: Share(s, x) == 0
  {
    assert s.serves[0] in Served(s);
    var ds := SortedKeys({d});
    hide SortedKeys;
    assert |ds| == 1 && ds[0] in ds;
  }
}
