/**
  Filter patterns: segments of literal characters and separators, placed from left to right in a target with anything
  between them. The matcher places each segment as early as it can; the meaning asks for any placement at all.
 */
module FilterMatcher {
  import opened Wrappers

  /** The internal mark for '^', which stands for one separator character, or for the end of the target at the end of a segment. */
  const SEP: char := 1 as char

  predicate Separator(c: char) { c == '/' || c == ':' }

  /** Where a segment ends when it is placed at `p`, or nothing when it does not fit there. */
  function MatchAt(t: string, seg: string, p: nat): (r: Option<nat>)
    requires p <= |t|
    ensures r.Some? ==> p <= r.value <= |t|
    ensures r.Some? ==> r.value == p + |seg| || (r.value == |t| == p + |seg| - 1 && seg != "" && seg[|seg| - 1] == SEP)
    decreases |seg|
  {
    if seg == "" then Some(p)
    else if seg[0] == SEP then
      if p == |t| then (if |seg| == 1 then Some(p) else None)
      else if Separator(t[p]) then MatchAt(t, seg[1..], p + 1)
      else None
    else if p < |t| && t[p] == seg[0] then MatchAt(t, seg[1..], p + 1)
    else None
  }

  /** The end of the first placement at `from` or later. */
  function FindSeg(t: string, seg: string, from: nat): (r: Option<nat>)
    requires from <= |t|
    ensures r.Some? ==> from <= r.value <= |t|
    decreases |t| - from
  {
    if MatchAt(t, seg, from).Some? then MatchAt(t, seg, from)
    else if from == |t| then None
    else FindSeg(t, seg, from + 1)
  }

  function Place(t: string, seg: string, from: nat, anchored: bool): (r: Option<nat>)
    requires from <= |t|
    ensures r.Some? ==> from <= r.value <= |t|
  {
    if anchored then MatchAt(t, seg, from) else FindSeg(t, seg, from)
  }

  /** Each segment as early as possible; the end of the last. */
  function Greedy(t: string, segs: seq<string>, from: nat, anchored: bool): (r: Option<nat>)
    requires from <= |t|
    ensures r.Some? ==> from <= r.value <= |t|
    decreases |segs|
  {
    if segs == [] then Some(from)
    else match Place(t, segs[0], from, anchored) case None => None case Some(e) => Greedy(t, segs[1..], e, false)
  }

  /** The first start from which a segment reaches the end of the target. */
  function AnchorStart(t: string, seg: string, s: nat): (r: Option<nat>)
    requires s <= |t|
    ensures r.Some? ==> s <= r.value <= |t| && MatchAt(t, seg, r.value) == Some(|t|)
    ensures forall x | s <= x <= |t| && (r.None? || x < r.value) :: MatchAt(t, seg, x) != Some(|t|)
    decreases |t| - s
  {
    if MatchAt(t, seg, s) == Some(|t|) then Some(s)
    else if s == |t| then None
    else AnchorStart(t, seg, s + 1)
  }

  /** A trailing wildcard is stripped when the right anchor is set. */
  function Effective(segs: seq<string>, right: bool): seq<string> {
    if right && |segs| > 1 && segs[|segs| - 1] == "" then segs[..|segs| - 1] else segs
  }

  /** The front segments, none of them past `limit`. */
  predicate FitsBefore(t: string, segs: seq<string>, from: nat, anchored: bool, limit: nat)
    requires from <= |t|
    decreases |segs|
  {
    if segs == [] then true
    else match Place(t, segs[0], from, anchored) case None => false case Some(e) => e <= limit && FitsBefore(t, segs[1..], e, false, limit)
  }

  predicate MatchSegments(segs: seq<string>, t: string, left: bool, right: bool) {
    var es := Effective(segs, right);
    if segs == [] then false
    else if right then
      match AnchorStart(t, es[|es| - 1], 0)
      case None => false
      case Some(a) => FitsBefore(t, es[..|es| - 1], 0, left, a)
    else Greedy(t, es, 0, left).Some?
  }

  // Meaning

  /** `starts` places every segment, in order and without overlap, from `from` on; the first exactly there when anchored. */
  ghost predicate Placed(t: string, segs: seq<string>, starts: seq<nat>, from: nat, anchored: bool)
    requires from <= |t|
    decreases |segs|
  {
    |starts| == |segs|
    && (segs != [] ==>
          && from <= starts[0] <= |t| && (anchored ==> starts[0] == from)
          && MatchAt(t, segs[0], starts[0]).Some?
          && Placed(t, segs[1..], starts[1..], MatchAt(t, segs[0], starts[0]).value, false))
  }

  /** Where the last segment ends. */
  ghost function EndOf(t: string, segs: seq<string>, starts: seq<nat>, from: nat): (e: nat)
    requires |starts| == |segs| && from <= |t|
    ensures e <= |t|
  {
    if segs == [] then from
    else if starts[|starts| - 1] <= |t| && MatchAt(t, segs[|segs| - 1], starts[|starts| - 1]).Some? then MatchAt(t, segs[|segs| - 1], starts[|starts| - 1]).value
    else from
  }

  /** What a pattern promises: some placement of its segments, at the left end when anchored there, up to the right end when anchored there. */
  ghost predicate Meaning(segs: seq<string>, t: string, left: bool, right: bool) {
    var es := Effective(segs, right);
    segs != [] && exists starts :: Placed(t, es, starts, 0, left) && (right ==> EndOf(t, es, starts, 0) == |t|)
  }

  // Greedy is as good as any

  /** An earlier start never ends later. */
  lemma EarlierEndsEarlier(t: string, seg: string, s: nat, s': nat)
    requires s <= s' <= |t| && MatchAt(t, seg, s).Some? && MatchAt(t, seg, s').Some?
    ensures MatchAt(t, seg, s).value <= MatchAt(t, seg, s').value
  {
    hide MatchAt;
  }

  lemma {:induction false} FindsFirst(t: string, seg: string, from: nat, s: nat)
    requires from <= s <= |t| && MatchAt(t, seg, s).Some?
    ensures FindSeg(t, seg, from).Some? && FindSeg(t, seg, from).value <= MatchAt(t, seg, s).value
    decreases s - from
  {
    hide MatchAt;
    if MatchAt(t, seg, from).Some? { EarlierEndsEarlier(t, seg, from, s); } else { FindsFirst(t, seg, from + 1, s); }
  }

  lemma {:induction false} FoundStarts(t: string, seg: string, from: nat) returns (s: nat)
    requires from <= |t| && FindSeg(t, seg, from).Some?
    ensures from <= s <= |t| && MatchAt(t, seg, s) == FindSeg(t, seg, from)
    decreases |t| - from
  {
    hide MatchAt;
    if MatchAt(t, seg, from).Some? { s := from; } else { s := FoundStarts(t, seg, from + 1); }
  }

  lemma {:induction false} GreedyPlaces(t: string, segs: seq<string>, from: nat, anchored: bool) returns (starts: seq<nat>)
    requires from <= |t| && Greedy(t, segs, from, anchored).Some?
    ensures Placed(t, segs, starts, from, anchored) && EndOf(t, segs, starts, from) == Greedy(t, segs, from, anchored).value
    decreases |segs|
  {
    hide MatchAt, FindSeg;
    if segs == [] {
      starts := [];
    } else {
      var s := from;
      if !anchored { s := FoundStarts(t, segs[0], from); }
      var e := MatchAt(t, segs[0], s).value;
      var rest := GreedyPlaces(t, segs[1..], e, false);
      starts := [s] + rest;
      assert starts[1..] == rest;
      if |segs| > 1 { PlacedLast(t, segs, starts, from, anchored); }
      EndShifts(t, segs, starts, from, e);
    }
  }

  lemma EndShifts(t: string, segs: seq<string>, starts: seq<nat>, from: nat, e: nat)
    requires from <= |t| && segs != [] && |starts| == |segs| && starts[0] <= |t| && MatchAt(t, segs[0], starts[0]) == Some(e)
    requires |segs| > 1 ==> starts[|starts| - 1] <= |t| && MatchAt(t, segs[|segs| - 1], starts[|starts| - 1]).Some?
    ensures EndOf(t, segs, starts, from) == EndOf(t, segs[1..], starts[1..], e)
  {
    hide MatchAt;
  }

  lemma {:induction false} PlacedLast(t: string, segs: seq<string>, starts: seq<nat>, from: nat, anchored: bool)
    requires from <= |t| && segs != [] && Placed(t, segs, starts, from, anchored)
    ensures from <= starts[|starts| - 1] <= |t| && MatchAt(t, segs[|segs| - 1], starts[|starts| - 1]).Some?
    decreases |segs|
  {
    hide MatchAt;
    if |segs| > 1 { PlacedLast(t, segs[1..], starts[1..], MatchAt(t, segs[0], starts[0]).value, false); }
  }

  /** Starting earlier, greedy placement succeeds whenever any placement does, and never ends later. */
  lemma {:induction false} GreedyIsBest(t: string, segs: seq<string>, starts: seq<nat>, from: nat, from': nat, anchored: bool)
    requires from <= from' <= |t| && Placed(t, segs, starts, from', anchored) && (anchored ==> from == from')
    ensures Greedy(t, segs, from, anchored).Some? && Greedy(t, segs, from, anchored).value <= EndOf(t, segs, starts, from')
    decreases |segs|
  {
    hide MatchAt, FindSeg;
    if segs != [] {
      var s := starts[0];
      var e' := MatchAt(t, segs[0], s).value;
      if !anchored { FindsFirst(t, segs[0], from, s); }
      var e := Place(t, segs[0], from, anchored).value;
      GreedyIsBest(t, segs[1..], starts[1..], e, e', false);
      if |segs| > 1 { PlacedLast(t, segs, starts, from', anchored); }
      EndShifts(t, segs, starts, from', e');
    }
  }

  /** Without a right anchor the matcher decides the meaning. */
  lemma GreedyIsMeaning(segs: seq<string>, t: string, left: bool)
    ensures MatchSegments(segs, t, left, false) <==> Meaning(segs, t, left, false)
  {
    hide Greedy, Placed, EndOf, MatchAt;
    if MatchSegments(segs, t, left, false) { var starts := GreedyPlaces(t, segs, 0, left); }
    if Meaning(segs, t, left, false) {
      var starts :| Placed(t, segs, starts, 0, left);
      GreedyIsBest(t, segs, starts, 0, 0, left);
    }
  }

  // Right anchors

  /** Checking every end against the limit is checking the last one. */
  lemma {:induction false} FitsIsGreedy(t: string, segs: seq<string>, from: nat, anchored: bool, limit: nat)
    requires from <= |t|
    ensures FitsBefore(t, segs, from, anchored, limit) && segs != [] ==> Greedy(t, segs, from, anchored).Some? && Greedy(t, segs, from, anchored).value <= limit
    ensures Greedy(t, segs, from, anchored).Some? && Greedy(t, segs, from, anchored).value <= limit ==> FitsBefore(t, segs, from, anchored, limit)
    decreases |segs|
  {
    hide Place;
    if segs != [] && Place(t, segs[0], from, anchored).Some? { FitsIsGreedy(t, segs[1..], Place(t, segs[0], from, anchored).value, false, limit); }
  }

  lemma LastPlaced(t: string, seg: string, s: nat, from: nat)
    requires from <= |t|
    ensures Placed(t, [seg], [s], from, false) <==> from <= s <= |t| && MatchAt(t, seg, s).Some?
  {
    hide MatchAt;
  }

  /** A placement is a placement of the front, and one of the last segment after it. */
  lemma {:induction false} PlacedSplits(t: string, segs: seq<string>, starts: seq<nat>, from: nat, anchored: bool)
    requires from <= |t| && |segs| >= 2 && |starts| == |segs|
    ensures Placed(t, segs, starts, from, anchored) <==>
              && Placed(t, segs[..|segs| - 1], starts[..|segs| - 1], from, anchored)
              && EndOf(t, segs[..|segs| - 1], starts[..|segs| - 1], from) <= starts[|segs| - 1] <= |t|
              && MatchAt(t, segs[|segs| - 1], starts[|segs| - 1]).Some?
    decreases |segs|
  {
    hide MatchAt;
    var front, sfront := segs[..|segs| - 1], starts[..|segs| - 1];
    assert front[0] == segs[0] && sfront[0] == starts[0];
    if from <= starts[0] <= |t| && (anchored ==> starts[0] == from) && MatchAt(t, segs[0], starts[0]).Some? {
      var e := MatchAt(t, segs[0], starts[0]).value;
      if |segs| == 2 {
        assert Placed(t, [], [], e, false);
        assert front[1..] == [] && sfront[1..] == [];
        assert segs[1..] == [segs[1]] && starts[1..] == [starts[1]] && [segs[1]][1..] == [] && [starts[1]][1..] == [];
        LastPlaced(t, segs[1], starts[1], e);
      } else {
        assert front[1..] == segs[1..][..|segs| - 2] && sfront[1..] == starts[1..][..|segs| - 2];
        PlacedSplits(t, segs[1..], starts[1..], e, false);
        if Placed(t, front, sfront, from, anchored) {
          PlacedLast(t, front, sfront, from, anchored);
          EndShifts(t, front, sfront, from, e);
        }
      }
    }
  }

  /** Only a last segment that ends in a separator mark has two ends at the end of the target, and they start one apart. */
  lemma TwoEnds(t: string, seg: string, a: nat, b: nat)
    requires a < b <= |t| && MatchAt(t, seg, a) == Some(|t|) && MatchAt(t, seg, b) == Some(|t|)
    ensures b == a + 1 && seg != "" && seg[|seg| - 1] == SEP
  {
    hide MatchAt;
  }

  /** The pattern's meaning with a right anchor: the front fits before some start that reaches the end. */
  lemma RightMeaning(segs: seq<string>, t: string, left: bool)
    requires |Effective(segs, true)| >= 2
    ensures var es := Effective(segs, true);
            var (front, last) := (es[..|es| - 1], es[|es| - 1]);
            Meaning(segs, t, left, true)
            <==> Greedy(t, front, 0, left).Some? && exists b :: Greedy(t, front, 0, left).value <= b <= |t| && MatchAt(t, last, b) == Some(|t|)
  {
    var es := Effective(segs, true);
    var front, last := es[..|es| - 1], es[|es| - 1];
    hide Greedy, Placed, MatchAt, Effective;
    if Meaning(segs, t, left, true) {
      var starts :| Placed(t, es, starts, 0, left) && EndOf(t, es, starts, 0) == |t|;
      PlacedLength(t, es, starts, left);
      PlacedSplits(t, es, starts, 0, left);
      PlacedLast(t, es, starts, 0, left);
      GreedyIsBest(t, front, starts[..|es| - 1], 0, 0, left);
      assert MatchAt(t, last, starts[|es| - 1]) == Some(|t|);
    }
    if Greedy(t, front, 0, left).Some? {
      if b :| Greedy(t, front, 0, left).value <= b <= |t| && MatchAt(t, last, b) == Some(|t|) {
        var sfront := GreedyPlaces(t, front, 0, left);
        var starts := sfront + [b];
        PlacedLength(t, front, sfront, left);
        assert starts[..|es| - 1] == sfront;
        PlacedSplits(t, es, starts, 0, left);
        assert EndOf(t, es, starts, 0) == |t|;
        EffectiveOf(segs);
      }
    }
  }

  lemma EffectiveOf(segs: seq<string>)
    ensures Effective(segs, true) != [] ==> segs != []
  {
  }

  lemma PlacedLength(t: string, segs: seq<string>, starts: seq<nat>, left: bool)
    requires Placed(t, segs, starts, 0, left)
    ensures |starts| == |segs|
  {
  }

  /**
    With a right anchor and several segments the matcher is sound, and misses the meaning in exactly one way: the last
    segment reaches the end from two starts, the front ends between them, and the matcher has settled on the first.
   */
  lemma RightAnchorExact(segs: seq<string>, t: string, left: bool)
    requires |Effective(segs, true)| >= 2
    ensures var es := Effective(segs, true);
            var (front, last) := (es[..|es| - 1], es[|es| - 1]);
            && (MatchSegments(segs, t, left, true) ==> Meaning(segs, t, left, true))
            && ((MatchSegments(segs, t, left, true) <==> Meaning(segs, t, left, true))
                <==> !(exists a :: 0 <= a < |t| && AnchorStart(t, last, 0) == Some(a) && Greedy(t, front, 0, left) == Some(a + 1)
                                   && MatchAt(t, last, a + 1) == Some(|t|)))
  {
    var es := Effective(segs, true);
    var front, last := es[..|es| - 1], es[|es| - 1];
    RightMeaning(segs, t, left);
    EffectiveOf(segs);
    hide Greedy, MatchAt, Effective, Meaning, FitsBefore, AnchorStart;
    var start, g := AnchorStart(t, last, 0), Greedy(t, front, 0, left);
    if start.Some? {
      FitsIsGreedy(t, front, 0, left, start.value);
      if g.Some? {
        forall b | g.value <= b <= |t| && MatchAt(t, last, b) == Some(|t|) ensures start.value <= b <= start.value + 1 {
          if start.value < b { TwoEnds(t, last, start.value, b); }
        }
      }
    }
  }

  /** In particular it is complete when the last segment does not end in a separator mark. */
  lemma RightAnchorComplete(segs: seq<string>, t: string, left: bool)
    requires |Effective(segs, true)| >= 2
    requires var es := Effective(segs, true); var last := es[|es| - 1]; last == "" || last[|last| - 1] != SEP
    ensures MatchSegments(segs, t, left, true) <==> Meaning(segs, t, left, true)
  {
    var es := Effective(segs, true);
    var last := es[|es| - 1];
    RightAnchorExact(segs, t, left);
    hide MatchSegments, Meaning, Greedy, MatchAt, Effective, AnchorStart;
    if a :| 0 <= a < |t| && AnchorStart(t, last, 0) == Some(a) && MatchAt(t, last, a + 1) == Some(|t|) { TwoEnds(t, last, a, a + 1); }
  }

  // A single segment with a right anchor

  lemma {:induction false} OneSegment(t: string, seg: string, starts: seq<nat>, left: bool)
    ensures Placed(t, [seg], starts, 0, left) <==> |starts| == 1 && starts[0] <= |t| && (left ==> starts[0] == 0) && MatchAt(t, seg, starts[0]).Some?
  {
    hide MatchAt;
  }

  /** With one segment the left anchor is not looked at: the matcher agrees with the meaning exactly where it makes no difference. */
  lemma SingleSegmentExact(segs: seq<string>, t: string, left: bool)
    requires |Effective(segs, true)| == 1
    ensures var seg := Effective(segs, true)[0];
            && (Meaning(segs, t, left, true) ==> MatchSegments(segs, t, left, true))
            && ((MatchSegments(segs, t, left, true) <==> Meaning(segs, t, left, true))
                <==> !(left && AnchorStart(t, seg, 0).Some? && AnchorStart(t, seg, 0).value > 0))
  {
    var seg := Effective(segs, true)[0];
    assert Effective(segs, true) == [seg];
    EffectiveOf(segs);
    hide MatchAt, AnchorStart, Effective, Placed;
    forall starts ensures Placed(t, [seg], starts, 0, left)
                          <==> |starts| == 1 && starts[0] <= |t| && (left ==> starts[0] == 0) && MatchAt(t, seg, starts[0]).Some? {
      OneSegment(t, seg, starts, left);
    }
    var a := AnchorStart(t, seg, 0);
    if a.Some? && (!left || a.value == 0) {
      var starts := [a.value];
      assert Placed(t, [seg], starts, 0, left) && EndOf(t, [seg], starts, 0) == |t|;
    }
  }

  /**
    Where the right-anchored matcher goes wrong. With one segment it takes a later start although the left anchor asks for
    the first position; with more it settles on the first of two starts, and the front ends at the second.
   */
  ghost predicate Misjudges(es: seq<string>, t: string, left: bool)
    requires es != []
  {
    var last := es[|es| - 1];
    if |es| == 1 then left && AnchorStart(t, last, 0).Some? && AnchorStart(t, last, 0).value > 0
    else exists a :: 0 <= a < |t| && AnchorStart(t, last, 0) == Some(a) && Greedy(t, es[..|es| - 1], 0, left) == Some(a + 1)
                     && MatchAt(t, last, a + 1) == Some(|t|)
  }

  lemma EffectiveSome(segs: seq<string>)
    requires segs != []
    ensures Effective(segs, true) != []
  {
  }

  /** All cases together: the matcher decides the meaning except where it misjudges a right anchor. */
  lemma MatcherIff(segs: seq<string>, t: string, left: bool, right: bool)
    requires segs != []
    ensures Effective(segs, true) != []
    ensures (MatchSegments(segs, t, left, right) <==> Meaning(segs, t, left, right)) <==> !(right && Misjudges(Effective(segs, true), t, left))
  {
    hide *;
    EffectiveSome(segs);
    MisjudgesIs(Effective(segs, true), t, left);
    if !right { GreedyIsMeaning(segs, t, left); }
    else if |Effective(segs, true)| == 1 { SingleSegmentExact(segs, t, left); }
    else { RightAnchorExact(segs, t, left); }
  }

  lemma MisjudgesIs(es: seq<string>, t: string, left: bool)
    requires es != []
    ensures |es| == 1 ==> (Misjudges(es, t, left) <==> left && AnchorStart(t, es[0], 0).Some? && AnchorStart(t, es[0], 0).value > 0)
    ensures |es| >= 2 ==> (Misjudges(es, t, left)
                           <==> exists a :: 0 <= a < |t| && AnchorStart(t, es[|es| - 1], 0) == Some(a) && Greedy(t, es[..|es| - 1], 0, left) == Some(a + 1)
                                            && MatchAt(t, es[|es| - 1], a + 1) == Some(|t|))
  {
    hide AnchorStart, Greedy, MatchAt;
  }

  /** The first start from which a segment reaches the end is any such start, or the one before. */
  lemma StartIs(t: string, seg: string, a: nat)
    requires a <= |t| && MatchAt(t, seg, a) == Some(|t|)
    ensures AnchorStart(t, seg, 0) == Some(a) || (a > 0 && AnchorStart(t, seg, 0) == Some(a - 1))
  {
    hide MatchAt, AnchorStart;
    var x := AnchorStart(t, seg, 0).value;
    if x < a { TwoEnds(t, seg, x, a); }
  }
}
