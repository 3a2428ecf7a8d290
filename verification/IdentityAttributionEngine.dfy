/** Attribution as loops over samples and the identities they serve, with a remainder that runs out. */
module IdentityAttributionEngine {
  import opened Wrappers
  import opened Order
  import opened IdentityAttribution

  lemma {:induction false} SumPrefix(rows: seq<Row>, n: nat)
    requires n <= |rows|
    ensures Sum(rows[..n]) <= Sum(rows)
    decreases |rows| - n
  {
    if n < |rows| {
      assert rows[..n + 1][..n] == rows[..n];
      SumPrefix(rows, n + 1);
    } else {
      assert rows[..n] == rows;
    }
  }

  /** The sum of the rows is within the total; an addition that wraps gives it away. */
  method SumWithinTotal(rows: seq<Row>, total: size) returns (ok: bool)
    ensures ok <==> Sum(rows) <= total
  {
    var sum: size := 0;
    for i := 0 to |rows|
      invariant sum == Sum(rows[..i])
    {
      assert rows[..i + 1][..i] == rows[..i];
      SumPrefix(rows, i + 1);
      if Plus(sum, rows[i].kb) < sum { return false; }
      sum := Plus(sum, rows[i].kb);
    }
    assert rows[..|rows|] == rows;
    return sum <= total;
  }

  lemma PartsTurn(kb: map<string, size>, processes: map<string, nat>, ds: seq<string>, rss: size, k: nat)
    requires k < |ds|
    ensures var (m, c) := (ChargeParts(kb, ds, rss, k), CountParts(processes, ds, k));
            && ChargeParts(kb, ds, rss, k + 1) == m[ds[k] := Plus(if ds[k] in m then m[ds[k]] else 0, Part(rss, |ds|, k))]
            && CountParts(processes, ds, k + 1) == c[ds[k] := (if ds[k] in c then c[ds[k]] else 0) + 1]
    ensures ChargeParts(kb, ds, rss, 0) == kb && CountParts(processes, ds, 0) == processes
  {
    hide Plus, Part;
  }

  lemma PartIs(rss: size, n: nat, k: nat, share: nat, whole: nat)
    requires n > 0 && share == rss / n && whole == rss % n
    ensures 0 <= share <= rss && Part(rss, n, k) == (if k < whole then share + 1 else share)
  {
    ShareFits(rss, n);
  }

  /** Split one shared process: each identity gets its share, and one more while the remainder lasts. */
  method ChargeShared(kb: map<string, size>, processes: map<string, nat>, ds: seq<string>, rss: size)
    returns (kb': map<string, size>, processes': map<string, nat>)
    requires ds != []
    ensures kb' == ChargeParts(kb, ds, rss, |ds|) && processes' == CountParts(processes, ds, |ds|)
  {
    hide *;
    kb', processes' := kb, processes;
    PartsTurn(kb, processes, ds, rss, 0);
    var share, remainder := rss / |ds|, rss % |ds|;
    ghost var whole := remainder;
    for k := 0 to |ds|
      invariant kb' == ChargeParts(kb, ds, rss, k) && processes' == CountParts(processes, ds, k)
      invariant remainder == if k < whole then whole - k else 0
    {
      PartsTurn(kb, processes, ds, rss, k);
      PartIs(rss, |ds|, k, share, whole);
      var d := ds[k];
      var part := share;
      if remainder > 0 {
        part := part + 1;
        remainder := remainder - 1;
      }
      kb' := kb'[d := Plus(if d in kb' then kb'[d] else 0, part)];
      processes' := processes'[d := (if d in processes' then processes'[d] else 0) + 1];
    }
  }

  method AccountFor(samples: seq<Sample>) returns (b: Books)
    ensures b == Account(samples)
  {
    hide SortedKeys, ChargeParts, CountParts;
    b := OPENED;
    for i := 0 to |samples|
      invariant b == Account(samples[..i])
    {
      var s := samples[i];
      assert samples[..i + 1][..i] == samples[..i];
      var ds := KeysInOrder(Served(s));
      b := b.(all := Plus(b.all, s.rss));
      if ds == [] {
        b := b.(nobody := Plus(b.nobody, s.rss), nobodyProcesses := b.nobodyProcesses + 1);
        continue;
      }
      var kb, processes := ChargeShared(b.kb, b.processes, ds, s.rss);
      b := b.(kb := kb, processes := processes);
    }
    assert samples[..|samples|] == samples;
  }

  lemma RowsTurn(ds: seq<string>, kb: map<string, size>, processes: map<string, nat>, n: nat)
    requires n < |ds| && forall d | d in ds :: d in kb
    ensures RowsOf(ds[..n + 1], kb, processes)
            == RowsOf(ds[..n], kb, processes) + [Row(ds[n], kb[ds[n]], if ds[n] in processes then processes[ds[n]] else 0)]
  {
    assert ds[..n + 1][..n] == ds[..n];
  }

  lemma NoRows(kb: map<string, size>, processes: map<string, nat>)
    ensures RowsOf([], kb, processes) == []
  {
  }

  method ListRows(b: Books) returns (rows: seq<Row>)
    ensures rows == RowsOf(SortedKeys(b.kb.Keys), b.kb, b.processes)
  {
    hide *;
    var ds := KeysInOrder(b.kb.Keys);
    rows := [];
    NoRows(b.kb, b.processes);
    for i := 0 to |ds|
      invariant rows == RowsOf(ds[..i], b.kb, b.processes)
    {
      var d := ds[i];
      RowsTurn(ds, b.kb, b.processes, i);
      rows := rows + [Row(d, b.kb[d], if d in b.processes then b.processes[d] else 0)];
    }
    assert ds[..|ds|] == ds;
  }

  method AttributeMemory(samples: seq<Sample>, total: size) returns (ok: bool, rows: seq<Row>)
    ensures (ok, rows) == Attribute(samples, total)
  {
    hide Account, RowsOf, SortRows, Sum, SortedKeys, Plus;
    var b := AccountFor(samples);
    if b.all > total { return false, []; }
    rows := ListRows(b);
    rows := rows + [Row(UNATTRIBUTED, Plus(b.nobody, total - b.all), b.nobodyProcesses)];
    rows := SortRows(rows);
    ok := SumWithinTotal(rows, total);
  }
}
