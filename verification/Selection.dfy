/** Which members of a sequence are taken, by position. */
module Selection {

  /** `at` lists, in ascending order, exactly the positions of the members that `keep` holds of. */
  ghost predicate Selects<T(!new)>(all: seq<T>, keep: T -> bool, at: seq<nat>) {
    && (forall i, j | 0 <= i < j < |at| :: at[i] < at[j])
    && (forall i | 0 <= i < |at| :: at[i] < |all| && keep(all[at[i]]))
    && (forall k | 0 <= k < |all| && keep(all[k]) :: k in at)
  }

  /** `some` are the members of `all` that `keep` holds of, in the order they have there. */
  ghost predicate Picks<T(!new)>(all: seq<T>, keep: T -> bool, some: seq<T>) {
    exists at :: Selects(all, keep, at) && |some| == |at| && forall i | 0 <= i < |at| :: some[i] == all[at[i]]
  }

  /** `texts` are what `f` makes of the members that `keep` holds of, in order. */
  ghost predicate Maps<T(!new), U(!new)>(all: seq<T>, keep: T -> bool, f: T -> U, us: seq<U>) {
    exists at :: MapsAt(all, keep, f, us, at)
  }

  lemma SelectsNothing<T(!new)>(keep: T -> bool)
    ensures Selects([], keep, [])
  {
  }

  lemma SelectsSnoc<T(!new)>(all: seq<T>, keep: T -> bool, at: seq<nat>)
    requires all != [] && Selects(all[..|all| - 1], keep, at)
    ensures Selects(all, keep, if keep(all[|all| - 1]) then at + [|all| - 1] else at)
  {
    var front, n := all[..|all| - 1], |all| - 1;
    var at' := if keep(all[n]) then at + [n] else at;
    forall k | 0 <= k < |all| && keep(all[k]) ensures k in at' { if k < n { assert front[k] == all[k]; } }
    forall i | 0 <= i < |at'| ensures at'[i] < |all| && keep(all[at'[i]]) { if i < |at| { assert front[at[i]] == all[at[i]]; } }
  }

  lemma MapsNothing<T(!new), U(!new)>(keep: T -> bool, f: T -> U)
    ensures Maps([], keep, f, [])
  {
    SelectsNothing(keep);
    assert MapsAt([], keep, f, [], []);
  }

  ghost predicate MapsAt<T(!new), U(!new)>(all: seq<T>, keep: T -> bool, f: T -> U, us: seq<U>, at: seq<nat>) {
    Selects(all, keep, at) && |us| == |at| && forall i | 0 <= i < |at| :: us[i] == f(all[at[i]])
  }

  lemma MapsAtSnoc<T(!new), U(!new)>(all: seq<T>, keep: T -> bool, f: T -> U, us: seq<U>, at: seq<nat>)
    requires all != [] && MapsAt(all[..|all| - 1], keep, f, us, at)
    ensures keep(all[|all| - 1]) ==> MapsAt(all, keep, f, us + [f(all[|all| - 1])], at + [|all| - 1])
    ensures !keep(all[|all| - 1]) ==> MapsAt(all, keep, f, us, at)
  {
    var front, n := all[..|all| - 1], |all| - 1;
    SelectsSnoc(all, keep, at);
    assert forall i | 0 <= i < |at| :: at[i] < n;
    hide Selects;
    ValuesStay(all, f, us, at);
    if keep(all[n]) { OneMore(all, f, us, at); }
  }

  lemma ValuesStay<T, U>(all: seq<T>, f: T -> U, us: seq<U>, at: seq<nat>)
    requires all != [] && |us| == |at| && (forall i | 0 <= i < |at| :: at[i] < |all| - 1) && forall i | 0 <= i < |at| :: us[i] == f(all[..|all| - 1][at[i]])
    ensures forall i | 0 <= i < |at| :: us[i] == f(all[at[i]])
  {
    forall i | 0 <= i < |at| ensures us[i] == f(all[at[i]]) { assert all[..|all| - 1][at[i]] == all[at[i]]; }
  }

  lemma OneMore<T, U>(all: seq<T>, f: T -> U, us: seq<U>, at: seq<nat>)
    requires all != [] && |us| == |at| && (forall i | 0 <= i < |at| :: at[i] < |all| - 1) && forall i | 0 <= i < |at| :: us[i] == f(all[at[i]])
    ensures var (at', us') := (at + [|all| - 1], us + [f(all[|all| - 1])]);
            (forall i | 0 <= i < |at'| :: at'[i] < |all|) && forall i | 0 <= i < |at'| :: us'[i] == f(all[at'[i]])
  {
    var at', us' := at + [|all| - 1], us + [f(all[|all| - 1])];
    forall i | 0 <= i < |at'| ensures us'[i] == f(all[at'[i]]) { if i < |at| { assert at'[i] == at[i] && us'[i] == us[i]; } }
  }

  lemma MapsSnoc<T(!new), U(!new)>(all: seq<T>, keep: T -> bool, f: T -> U, us: seq<U>)
    requires all != [] && Maps(all[..|all| - 1], keep, f, us)
    ensures Maps(all, keep, f, us + (if keep(all[|all| - 1]) then [f(all[|all| - 1])] else []))
  {
    hide MapsAt;
    var at: seq<nat> :| MapsAt(all[..|all| - 1], keep, f, us, at);
    MapsAtSnoc(all, keep, f, us, at);
    assert us + [] == us;
  }

  /** Picking is mapping each to itself. */
  lemma MapsIsPicks<T(!new)>(all: seq<T>, keep: T -> bool, f: T -> T, some: seq<T>)
    requires Maps(all, keep, f, some) && forall x :: f(x) == x
    ensures Picks(all, keep, some)
  {
    var at :| MapsAt(all, keep, f, some, at);
    forall i | 0 <= i < |at| ensures some[i] == all[at[i]] { }
  }

  /** Two ascending lists of the same positions are the same. */
  lemma {:induction false} SamePositions(a: seq<nat>, b: seq<nat>)
    requires (forall i, j | 0 <= i < j < |a| :: a[i] < a[j]) && (forall i, j | 0 <= i < j < |b| :: b[i] < b[j])
    requires forall k :: k in a <==> k in b
    ensures a == b
  {
    assert a != [] ==> a[0] in b;
    assert b != [] ==> b[0] in a;
    if a != [] {
      assert a[0] == b[0];
      forall k ensures k in a[1..] <==> k in b[1..] {
        if k in a[1..] { var i :| 0 <= i < |a[1..]| && a[1..][i] == k; assert a[i + 1] == k; assert k in b; }
        if k in b[1..] { var i :| 0 <= i < |b[1..]| && b[1..][i] == k; assert b[i + 1] == k; assert k in a; }
      }
      SamePositions(a[1..], b[1..]);
    }
  }

  ghost function Filter<T(!new)>(all: seq<T>, keep: T -> bool): seq<T> {
    if all == [] then [] else Filter(all[..|all| - 1], keep) + (if keep(all[|all| - 1]) then [all[|all| - 1]] else [])
  }

  lemma {:induction false} FilterPicks<T(!new)>(all: seq<T>, keep: T -> bool)
    ensures Maps(all, keep, x => x, Filter(all, keep))
  {
    hide Maps;
    if all == [] {
      MapsNothing(keep, (x: T) => x);
    } else {
      FilterPicks(all[..|all| - 1], keep);
      MapsSnoc(all, keep, x => x, Filter(all[..|all| - 1], keep));
    }
  }

  lemma {:induction false} FilterCounts<T(!new)>(all: seq<T>, keep: T -> bool, x: T)
    ensures multiset(Filter(all, keep))[x] == if keep(x) then multiset(all)[x] else 0
  {
    if all != [] {
      var front, last := all[..|all| - 1], all[|all| - 1];
      assert all == front + [last];
      FilterCounts(front, keep, x);
    }
  }

  /** Picking keeps every member that is kept as often as it was, and no other. */
  lemma PicksCounts<T(!new)>(all: seq<T>, keep: T -> bool, some: seq<T>, x: T)
    requires Picks(all, keep, some)
    ensures multiset(some)[x] == if keep(x) then multiset(all)[x] else 0
  {
    hide Picks, Maps, Filter;
    FilterPicks(all, keep);
    MapsIsPicks(all, keep, x => x, Filter(all, keep));
    PicksUnique(all, keep, some, Filter(all, keep));
    FilterCounts(all, keep, x);
  }

  /** What is picked is determined. */
  lemma PicksUnique<T(!new)>(all: seq<T>, keep: T -> bool, a: seq<T>, b: seq<T>)
    requires Picks(all, keep, a) && Picks(all, keep, b)
    ensures a == b
  {
    var at :| Selects(all, keep, at) && |a| == |at| && forall i | 0 <= i < |at| :: a[i] == all[at[i]];
    var bt :| Selects(all, keep, bt) && |b| == |bt| && forall i | 0 <= i < |bt| :: b[i] == all[bt[i]];
    forall k ensures k in at <==> k in bt { }
    SamePositions(at, bt);
  }
}
