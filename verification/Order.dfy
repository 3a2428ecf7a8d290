module Wrappers {
  datatype Option<+T> = None | Some(value: T)
}

/**
  Byte strings and the iteration order of `std::map`.

  A C++ byte string is a Dafny `string` whose characters lie below 256, so that `s[i] as int` is the
  unsigned value of a byte. `std::map` walks its keys in ascending order of `operator<`.
 */
module Order {

  const INT64_MAX: int := 0x7FFF_FFFF_FFFF_FFFF
  const INT64_MIN: int := -0x8000_0000_0000_0000
  type int64 = i: int | INT64_MIN <= i <= INT64_MAX

  /** `std::string::operator<`: lexicographic on unsigned bytes. */
  predicate Less(a: string, b: string) {
    if b == "" then false
    else if a == "" then true
    else a[0] < b[0] || (a[0] == b[0] && Less(a[1..], b[1..]))
  }

  ghost predicate StrictTotal<T(!new)>(less: (T, T) -> bool) {
    && (forall a :: !less(a, a))
    && (forall a, b :: less(a, b) || less(b, a) || a == b)
    && (forall a, b, c :: less(a, b) && less(b, c) ==> less(a, c))
  }

  ghost predicate Ascending<T(!new)>(ks: seq<T>, less: (T, T) -> bool) {
    forall i, j :: 0 <= i < j < |ks| ==> less(ks[i], ks[j])
  }

  lemma {:induction false} LessTransitive(a: string, b: string, c: string)
    requires Less(a, b) && Less(b, c)
    ensures Less(a, c)
  {
    if a != "" && a[0] == b[0] == c[0] {
      LessTransitive(a[1..], b[1..], c[1..]);
    }
  }

  lemma {:induction false} LessTotal(a: string, b: string)
    ensures !Less(a, a)
    ensures Less(a, b) || Less(b, a) || a == b
  {
    if a != "" {
      LessTotal(a[1..], a[1..]);
      if b != "" && a[0] == b[0] {
        LessTotal(a[1..], b[1..]);
        assert a == [a[0]] + a[1..] && b == [b[0]] + b[1..];
      }
    }
  }

  lemma StringsAreOrdered()
    ensures StrictTotal(Less)
  {
    forall a: string, b: string ensures !Less(a, a) && (Less(a, b) || Less(b, a) || a == b) {
      LessTotal(a, b);
    }
    forall a: string, b: string, c: string | Less(a, b) && Less(b, c) ensures Less(a, c) {
      LessTransitive(a, b, c);
    }
  }

  /** Every nonempty finite set has a least element. */
  ghost predicate IsLeast<T(!new)>(m: T, s: set<T>, less: (T, T) -> bool) {
    m in s && forall k :: k in s && k != m ==> less(m, k)
  }

  lemma {:induction false} LeastExists<T(!new)>(s: set<T>, less: (T, T) -> bool)
    requires StrictTotal(less) && s != {}
    ensures exists m :: IsLeast(m, s, less)
  {
    var x :| x in s;
    if s == {x} {
      assert IsLeast(x, s, less);
    } else {
      LeastExists(s - {x}, less);
      var m :| IsLeast(m, s - {x}, less);
      var n := if less(x, m) then x else m;
      assert IsLeast(n, s, less) by {
        forall k | k in s && k != n ensures less(n, k) {
          if k != x { assert k in s - {x}; }
        }
      }
    }
  }

  /** The keys of a map in iteration order. */
  ghost function InOrder<T(!new)>(s: set<T>, less: (T, T) -> bool): (ks: seq<T>)
    requires StrictTotal(less)
    ensures Ascending(ks, less)
    ensures forall k :: k in ks <==> k in s
    ensures |ks| == |s|
  {
    if s == {} then []
    else
      LeastExists(s, less);
      var m :| IsLeast(m, s, less);
      [m] + InOrder(s - {m}, less)
  }

  /** Two ascending sequences with the same members are the same sequence. */
  lemma {:induction false} AscendingUnique<T(!new)>(a: seq<T>, b: seq<T>, less: (T, T) -> bool)
    requires StrictTotal(less) && Ascending(a, less) && Ascending(b, less)
    requires forall k :: k in a <==> k in b
    ensures a == b
  {
    assert a != [] ==> a[0] in b;
    assert b != [] ==> b[0] in a;
    if a != [] {
      assert a[0] == b[0];
      forall k ensures k in a[1..] <==> k in b[1..] {
        if k in a[1..] { var i :| 0 <= i < |a[1..]| && a[1..][i] == k; assert a[i + 1] == k && less(a[0], k); assert k in b; }
        if k in b[1..] { var i :| 0 <= i < |b[1..]| && b[1..][i] == k; assert b[i + 1] == k && less(b[0], k); assert k in a; }
      }
      AscendingUnique(a[1..], b[1..], less);
    }
  }

  ghost function SortedKeys(s: set<string>): (ks: seq<string>)
    ensures Ascending(ks, Less)
    ensures forall k :: k in ks <==> k in s
    ensures |ks| == |s|
  {
    StringsAreOrdered();
    InOrder(s, Less)
  }

  /** The walk of a `std::map` whose keys are compared by `less`. */
  method WalkInOrder<T(==,!new)>(s: set<T>, less: (T, T) -> bool) returns (ks: seq<T>)
    requires StrictTotal(less)
    ensures ks == InOrder(s, less)
  {
    ks := [];
    var rest := s;
    while rest != {}
      invariant rest <= s && Ascending(ks, less)
      invariant forall k :: k in ks <==> k in s - rest
      invariant forall a, b :: a in ks && b in rest ==> less(a, b)
    {
      LeastExists(rest, less);
      assert exists m :: m in rest && forall k :: k in rest ==> k == m || less(m, k) by {
        var m :| IsLeast(m, rest, less);
        assert m in rest;
      }
      var m :| m in rest && forall k :: k in rest ==> k == m || less(m, k);
      ks := ks + [m];
      rest := rest - {m};
    }
    AscendingUnique(ks, InOrder(s, less), less);
  }

  /** The walk of a `std::map<std::string, ...>`. */
  method KeysInOrder(s: set<string>) returns (ks: seq<string>)
    ensures ks == SortedKeys(s)
  {
    StringsAreOrdered();
    ks := WalkInOrder(s, Less);
  }
}
