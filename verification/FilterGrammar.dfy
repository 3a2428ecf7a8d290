/**
  The filter grammar: which texts are filters, how a body is cut into segments, and that the cut keeps the meaning of
  the wildcards and separators that were written.
 */
module FilterGrammar {
  import opened Wrappers
  import opened FilterMatcher

  datatype Filter = Filter(domainAnchor: bool, leftAnchor: bool, rightAnchor: bool, segments: seq<string>)
  datatype ParsedFilter = Accepted(filter: Filter) | Rejected(token: string)

  function LowerChar(c: char): char { if 'A' <= c <= 'Z' then (c as int + 32) as char else c }

  function LowerText(s: string): (r: string)
    ensures |r| == |s| && forall i | 0 <= i < |s| :: r[i] == LowerChar(s[i])
  {
    if s == "" then "" else [LowerChar(s[0])] + LowerText(s[1..])
  }

  predicate Mark(c: char) { c == '^' || c == SEP }

  function Literal(c: char): char { if c == '^' then SEP else c }

  /** The loop over the body: segments closed so far, the one being read, and what is left to read. */
  function Cut(segments: seq<string>, cur: string, rest: string): seq<string>
    decreases |rest|
  {
    if rest == "" then segments + [cur]
    else if rest[0] == '*' then
      if cur != "" || segments == [] then Cut(segments + [cur], "", rest[1..]) else Cut(segments, cur, rest[1..])
    else Cut(segments, cur + [Literal(rest[0])], rest[1..])
  }

  function Segments(body: string): seq<string> { Cut([], "", body) }

  /** No segment but the first and the last may be empty. */
  predicate InteriorFilled(segments: seq<string>) { forall i | 1 <= i < |segments| - 1 :: segments[i] != "" }

  function ParseFilter(f: string): ParsedFilter {
    if f == "" then Rejected("empty-filter")
    else if f[0] == '!' then Rejected("unsupported-directive:comment")
    else if |f| >= 2 && f[0] == '/' && f[|f| - 1] == '/' then Rejected("unsupported-directive:regex")
    else if '$' in f then Rejected("unsupported-directive:options-in-filter")
    else if '#' in f then Rejected("unsupported-directive:cosmetic-hash")
    else if '@' in f then Rejected("unsupported-directive:at-syntax")
    else
      var domain := |f| >= 2 && f[..2] == "||";
      var left := !domain && f[0] == '|';
      var body := if domain then f[2..] else if left then f[1..] else f;
      var right := body != "" && body[|body| - 1] == '|';
      var body := if right then body[..|body| - 1] else body;
      if '|' in body then Rejected("unsupported-directive:interior-pipe")
      else if body == "" then Rejected("empty-filter")
      else
        var segments := Segments(LowerText(body));
        if !InteriorFilled(segments) then Rejected("unsupported-directive:empty-segment")
        else Accepted(Filter(domain, left, right, segments))
  }

  // The cut, by the shape of the body

  function StripStars(body: string): string { if body != "" && body[0] == '*' then StripStars(body[1..]) else body }

  function Segs(body: string): (r: seq<string>)
    ensures r != []
    decreases |body|
  {
    if body == "" then [""]
    else if body[0] == '*' then (StripShortens(body); [""] + Segs(StripStars(body)))
    else
      var rest := Segs(body[1..]);
      [[Literal(body[0])] + rest[0]] + rest[1..]
  }

  lemma {:induction false} StripShortens(body: string)
    ensures |StripStars(body)| <= |body|
    ensures body != "" && body[0] == '*' ==> |StripStars(body)| < |body|
    ensures StripStars(body) == "" || StripStars(body)[0] != '*'
    decreases |body|
  {
    if body != "" && body[0] == '*' { StripShortens(body[1..]); }
  }

  lemma {:induction false} CutIs(segments: seq<string>, cur: string, rest: string)
    ensures segments == [] || cur != "" ==> Cut(segments, cur, rest) == segments + [cur + Segs(rest)[0]] + Segs(rest)[1..]
    ensures segments != [] && cur == "" ==> Cut(segments, cur, rest) == segments + Segs(StripStars(rest))
    decreases |rest|
  {
    StripShortens(rest);
    if rest == "" {
      assert cur + "" == cur;
    } else if rest[0] == '*' {
      CutIs(segments + [cur], "", rest[1..]);
      CutIs(segments, cur, rest[1..]);
      assert cur + "" == cur;
    } else {
      var s := Segs(rest[1..]);
      CutIs(segments, cur + [Literal(rest[0])], rest[1..]);
      assert cur + [Literal(rest[0])] + s[0] == cur + ([Literal(rest[0])] + s[0]);
      if segments != [] && cur == "" {
        assert "" + ([Literal(rest[0])] + s[0]) == [Literal(rest[0])] + s[0];
        assert segments + [[Literal(rest[0])] + s[0]] + s[1..] == segments + ([[Literal(rest[0])] + s[0]] + s[1..]);
      }
    }
  }

  lemma SegmentsAre(body: string)
    ensures Segments(body) == Segs(body)
  {
    CutIs([], "", body);
    var s := Segs(body);
    assert "" + s[0] == s[0];
    assert [] + [s[0]] + s[1..] == s;
  }

  lemma {:induction false} OnlyEndsEmpty(body: string)
    ensures InteriorFilled(Segs(body))
    ensures body != "" && body[0] != '*' ==> Segs(body)[0] != ""
    decreases |body|
  {
    StripShortens(body);
    if body != "" {
      if body[0] == '*' { OnlyEndsEmpty(StripStars(body)); EndsPrepend(StripStars(body)); } else { OnlyEndsEmpty(body[1..]); }
    }
  }

  lemma EndsPrepend(rest: string)
    requires InteriorFilled(Segs(rest)) && (rest == "" || Segs(rest)[0] != "")
    ensures InteriorFilled([""] + Segs(rest))
  {
    var s := Segs(rest);
    var all := [""] + s;
    forall i | 1 <= i < |all| - 1 ensures all[i] != "" { assert all[i] == s[i - 1]; }
  }

  /** The refusal of an empty interior segment never fires: runs of wildcards collapse before they could leave one. */
  lemma EmptySegmentUnreachable(f: string)
    ensures ParseFilter(f) != Rejected("unsupported-directive:empty-segment")
  {
    forall body: string ensures InteriorFilled(Segments(body)) {
      SegmentsAre(body);
      OnlyEndsEmpty(body);
    }
    hide Segments, InteriorFilled, LowerText;
  }

  // What a body means

  /** A wildcard stands for anything, a mark for one separator, or for the end of the target before a wildcard or the end of the body. */
  ghost predicate Glob(t: string, body: string, p: nat, e: nat)
    decreases |body|
  {
    if body == "" then p == e
    else if body[0] == '*' then exists q: nat :: p <= q <= |t| && Glob(t, body[1..], q, e)
    else if Mark(body[0]) then
      (p < |t| && Separator(t[p]) && Glob(t, body[1..], p + 1, e))
      || (p == |t| && (body[1..] == "" || body[1] == '*') && Glob(t, body[1..], p, e))
    else p < |t| && t[p] == body[0] && Glob(t, body[1..], p + 1, e)
  }

  /** The same for segments: a placement of all of them from `p`, ending at `e`. */
  ghost predicate Reach(t: string, segs: seq<string>, p: nat, e: nat, anchored: bool)
    requires p <= |t|
    decreases |segs|
  {
    if segs == [] then p == e
    else exists s: nat :: p <= s <= |t| && (anchored ==> s == p) && MatchAt(t, segs[0], s).Some? && Reach(t, segs[1..], MatchAt(t, segs[0], s).value, e, false)
  }

  lemma {:induction false} ReachPlaces(t: string, segs: seq<string>, p: nat, e: nat, anchored: bool) returns (starts: seq<nat>)
    requires p <= |t| && Reach(t, segs, p, e, anchored)
    ensures Placed(t, segs, starts, p, anchored) && EndOf(t, segs, starts, p) == e
    decreases |segs|
  {
    hide MatchAt;
    if segs == [] {
      starts := [];
    } else {
      var s: nat :| p <= s <= |t| && (anchored ==> s == p) && MatchAt(t, segs[0], s).Some? && Reach(t, segs[1..], MatchAt(t, segs[0], s).value, e, false);
      var m := MatchAt(t, segs[0], s).value;
      var rest := ReachPlaces(t, segs[1..], m, e, false);
      starts := [s] + rest;
      assert starts[1..] == rest;
      if |segs| > 1 { PlacedLast(t, segs, starts, p, anchored); }
      EndShifts(t, segs, starts, p, m);
    }
  }

  lemma {:induction false} PlacedReaches(t: string, segs: seq<string>, starts: seq<nat>, p: nat, anchored: bool)
    requires p <= |t| && Placed(t, segs, starts, p, anchored)
    ensures Reach(t, segs, p, EndOf(t, segs, starts, p), anchored)
    decreases |segs|
  {
    hide MatchAt;
    if segs != [] {
      var m := MatchAt(t, segs[0], starts[0]).value;
      PlacedReaches(t, segs[1..], starts[1..], m, false);
      if |segs| > 1 { PlacedLast(t, segs, starts, p, anchored); }
      EndShifts(t, segs, starts, p, m);
    }
  }

  /** A body matches from `p` or later. */
  ghost predicate GlobFrom(t: string, body: string, p: nat, e: nat) { exists q: nat :: p <= q <= |t| && Glob(t, body, q, e) }

  lemma StarTurn(t: string, body: string, p: nat, e: nat)
    requires body != "" && body[0] == '*'
    ensures Glob(t, body, p, e) <==> GlobFrom(t, body[1..], p, e)
  {
  }

  /** A run of wildcards is one wildcard. */
  lemma {:induction false} GlobStars(t: string, body: string, p: nat, e: nat)
    requires p <= |t| && body != "" && body[0] == '*'
    ensures Glob(t, body, p, e) <==> GlobFrom(t, StripStars(body), p, e)
    decreases |body|
  {
    var rest, bare := body[1..], StripStars(body);
    StarTurn(t, body, p, e);
    assert bare == StripStars(rest);
    if rest != "" && rest[0] == '*' {
      hide Glob;
      if GlobFrom(t, rest, p, e) {
        var q: nat :| p <= q <= |t| && Glob(t, rest, q, e);
        GlobStars(t, rest, q, e);
      }
      if GlobFrom(t, bare, p, e) { GlobStars(t, rest, p, e); }
    } else {
      assert bare == rest;
    }
  }

  lemma LaterStart(t: string, segs: seq<string>, p: nat, e: nat)
    requires p <= |t| && segs != []
    ensures Reach(t, segs, p, e, false) <==> exists s: nat :: p <= s <= |t| && Reach(t, segs, s, e, true)
  {
    hide MatchAt;
    if Reach(t, segs, p, e, false) {
      var s: nat :| p <= s <= |t| && MatchAt(t, segs[0], s).Some? && Reach(t, segs[1..], MatchAt(t, segs[0], s).value, e, false);
      assert Reach(t, segs, s, e, true);
    }
  }

  lemma EmptyFirst(t: string, segs: seq<string>, p: nat, e: nat)
    requires p <= |t| && segs != [] && segs[0] == ""
    ensures Reach(t, segs, p, e, true) <==> Reach(t, segs[1..], p, e, false)
  {
    assert MatchAt(t, "", p) == Some(p);
  }

  /** Cutting a body into segments keeps its meaning. */
  lemma {:induction false} CutKeepsMeaning(t: string, body: string, p: nat, e: nat)
    requires p <= |t|
    ensures Reach(t, Segs(body), p, e, true) <==> Glob(t, body, p, e)
    decreases |body|
  {
    StripShortens(body);
    if body == "" {
      EmptyFirst(t, [""], p, e);
      assert [""][1..] == [];
    } else if body[0] == '*' {
      var rest := StripStars(body);
      var all := Segs(body);
      EmptyFirst(t, all, p, e);
      assert all[1..] == Segs(rest);
      LaterStart(t, Segs(rest), p, e);
      GlobStars(t, body, p, e);
      hide Glob;
      if s: nat :| p <= s <= |t| && Reach(t, Segs(rest), s, e, true) {
        CutKeepsMeaning(t, rest, s, e);
        assert GlobFrom(t, rest, p, e);
      }
      if GlobFrom(t, rest, p, e) {
        var s: nat :| p <= s <= |t| && Glob(t, rest, s, e);
        CutKeepsMeaning(t, rest, s, e);
      }
    } else {
      LiteralStep(t, body, p, e);
      if p < |t| { CutKeepsMeaning(t, body[1..], p + 1, e); }
      CutKeepsMeaning(t, body[1..], p, e);
    }
  }

  lemma LiteralStep(t: string, body: string, p: nat, e: nat)
    requires p <= |t| && body != "" && body[0] != '*'
    ensures Reach(t, Segs(body), p, e, true) <==>
              if Mark(body[0]) then
                (p < |t| && Separator(t[p]) && Reach(t, Segs(body[1..]), p + 1, e, true))
                || (p == |t| && (body[1..] == "" || body[1] == '*') && Reach(t, Segs(body[1..]), p, e, true))
              else p < |t| && t[p] == body[0] && Reach(t, Segs(body[1..]), p + 1, e, true)
  {
    var c, s := Literal(body[0]), Segs(body[1..]);
    var first := [c] + s[0];
    assert Segs(body) == [first] + s[1..];
    assert ([first] + s[1..])[1..] == s[1..];
    assert first[0] == c && first[1..] == s[0];
    FirstEmpty(body[1..]);
    if p == |t| && s[0] == "" { EmptyFirst(t, s, p, e); }
    hide Segs;
    AnchoredReach(t, [first] + s[1..], p, e);
    AnchoredReach(t, s, p, e);
    if p < |t| { AnchoredReach(t, s, p + 1, e); }
    hide Reach;
  }

  lemma FirstEmpty(body: string)
    ensures Segs(body)[0] == "" <==> body == "" || body[0] == '*'
  {
  }

  lemma AnchoredReach(t: string, segs: seq<string>, p: nat, e: nat)
    requires p <= |t| && segs != []
    ensures Reach(t, segs, p, e, true) <==> MatchAt(t, segs[0], p).Some? && Reach(t, segs[1..], MatchAt(t, segs[0], p).value, e, false)
  {
    hide MatchAt;
  }

  // Filters

  datatype Parts = Parts(scheme: string, host: string, path: string)

  function FirstMark(s: string): (i: nat)
    ensures i <= |s| && (i < |s| ==> s[i] == SEP || s[i] == '/') && forall j | 0 <= j < i :: s[j] != SEP && s[j] != '/'
  {
    if s == "" || s[0] == SEP || s[0] == '/' then 0 else 1 + FirstMark(s[1..])
  }

  predicate EndsWith(s: string, suffix: string) { |suffix| <= |s| && s[|s| - |suffix|..] == suffix }

  predicate HostOk(host: string, d: string) { d == "" || host == d || (|host| > |d| && EndsWith(host, "." + d)) }

  function MatchUrl(parts: Parts): string { parts.scheme + "://" + parts.host + LowerText(parts.path) }

  predicate FilterMatch(f: Filter, parts: Parts)
    requires f.segments != []
  {
    if !f.domainAnchor then MatchSegments(f.segments, MatchUrl(parts), f.leftAnchor, f.rightAnchor)
    else
      var first := f.segments[0];
      var cut := FirstMark(first);
      if !HostOk(parts.host, first[..cut]) then false
      else if f.rightAnchor && first[cut..] == "" && |f.segments| == 1 then true
      else MatchSegments([first[cut..]] + f.segments[1..], LowerText(parts.path), true, f.rightAnchor)
  }

  /** The body of a filter, without its anchors. */
  function Body(f: string): string {
    var body := if |f| >= 2 && f[..2] == "||" then f[2..] else if f != "" && f[0] == '|' then f[1..] else f;
    if body != "" && body[|body| - 1] == '|' then body[..|body| - 1] else body
  }

  lemma AcceptedSegments(f: string)
    requires ParseFilter(f).Accepted?
    ensures ParseFilter(f).filter.segments == Segs(LowerText(Body(f)))
  {
    SegmentsAre(LowerText(Body(f)));
    hide Segments, LowerText, InteriorFilled;
  }

  lemma MeaningReaches(segs: seq<string>, t: string, left: bool)
    requires segs != []
    ensures Meaning(segs, t, left, false) <==> exists p: nat, e: nat :: p <= |t| && (left ==> p == 0) && Reach(t, segs, p, e, true)
  {
    assert Effective(segs, false) == segs;
    hide Placed, EndOf, Reach;
    if Meaning(segs, t, left, false) {
      var starts :| Placed(t, segs, starts, 0, left);
      PlacedReaches(t, segs, starts, 0, left);
      if !left {
        LaterStart(t, segs, 0, EndOf(t, segs, starts, 0));
        var s: nat :| 0 <= s <= |t| && Reach(t, segs, s, EndOf(t, segs, starts, 0), true);
      }
    }
    if p: nat, e: nat :| p <= |t| && (left ==> p == 0) && Reach(t, segs, p, e, true) {
      if left {
        var starts := ReachPlaces(t, segs, 0, e, true);
      } else {
        LaterStart(t, segs, 0, e);
        var starts := ReachPlaces(t, segs, 0, e, false);
      }
    }
  }

  lemma RightMeaningReaches(segs: seq<string>, t: string, left: bool)
    requires segs != []
    ensures Meaning(segs, t, left, true) <==> exists p: nat :: p <= |t| && (left ==> p == 0) && Reach(t, Effective(segs, true), p, |t|, true)
  {
    var es := Effective(segs, true);
    assert es != [];
    hide Placed, EndOf, Reach, Effective;
    if Meaning(segs, t, left, true) {
      var starts :| Placed(t, es, starts, 0, left) && EndOf(t, es, starts, 0) == |t|;
      PlacedReaches(t, es, starts, 0, left);
      if !left { LaterStart(t, es, 0, |t|); }
    }
    if p: nat :| p <= |t| && (left ==> p == 0) && Reach(t, es, p, |t|, true) {
      if left {
        var starts := ReachPlaces(t, es, 0, |t|, true);
      } else {
        LaterStart(t, es, 0, |t|);
        var starts := ReachPlaces(t, es, 0, |t|, false);
      }
    }
  }

  // Wildcards before a right anchor

  function TrimStars(body: string): string {
    if body != "" && body[|body| - 1] == '*' then TrimStars(body[..|body| - 1]) else body
  }

  predicate EndsInStar(body: string) { body != "" && body[|body| - 1] == '*' }

  lemma {:induction false} StripSnoc(b: string)
    ensures StripStars(b + "*") == if StripStars(b) == "" then "" else StripStars(b) + "*"
    ensures StripStars(b) != "" ==> EndsInStar(StripStars(b)) == EndsInStar(b)
    ensures StripStars(b) == "" && b != "" ==> EndsInStar(b)
  {
    if b != "" {
      assert (b + "*")[1..] == b[1..] + "*";
      StripSnoc(b[1..]);
    } else {
      assert StripStars("*") == StripStars("") == "" by { assert "*"[1..] == ""; }
      assert "" + "*" == "*";
    }
  }

  /** A wildcard at the end adds an empty segment, unless there is one already. */
  lemma {:induction false} SegsStar(b: string)
    ensures Segs(b + "*") == if EndsInStar(b) then Segs(b) else Segs(b) + [""]
    decreases |b|
  {
    StripShortens(b);
    StripSnoc(b);
    var s := b + "*";
    if b == "" {
      assert s == "*" && s[1..] == "";
      assert Segs(s) == [""] + Segs("");
    } else if b[0] == '*' {
      assert s[0] == '*' && Segs(s) == [""] + Segs(StripStars(s)) && Segs(b) == [""] + Segs(StripStars(b));
      if StripStars(b) != "" { SegsStar(StripStars(b)); }
    } else {
      assert s[1..] == b[1..] + "*" && s[0] == b[0];
      SegsStar(b[1..]);
      assert EndsInStar(b) == EndsInStar(b[1..]);
    }
  }

  lemma {:induction false} LastFilled(body: string)
    ensures body != "" && !EndsInStar(body) ==> Segs(body)[|Segs(body)| - 1] != ""
    decreases |body|
  {
    StripShortens(body);
    if body != "" && !EndsInStar(body) {
      var rest := if body[0] == '*' then StripStars(body) else body[1..];
      StripSnoc(body);
      LastFilled(rest);
    }
  }

  /** With a right anchor the wildcards at the end do not count. */
  lemma {:induction false} EffectiveIsTrimmed(body: string)
    ensures Effective(Segs(body), true) == Segs(TrimStars(body))
    decreases |body|
  {
    if EndsInStar(body) {
      var b := body[..|body| - 1];
      assert b + "*" == body;
      SegsStar(b);
      EffectiveIsTrimmed(b);
      hide Segs;
      if !EndsInStar(b) { assert (Segs(b) + [""])[..|Segs(b)|] == Segs(b); }
    } else {
      LastFilled(body);
    }
  }

  // What a filter says

  /** Some part of the target matches the body as written: from the start if anchored there, to the end if anchored there. */
  ghost predicate Says(t: string, body: string, left: bool, right: bool) {
    GlobWithin(t, if right then TrimStars(body) else body, left, right)
  }

  ghost predicate GlobWithin(t: string, body: string, left: bool, right: bool) {
    exists p: nat, e: nat :: p <= |t| && (left ==> p == 0) && (right ==> e == |t|) && Glob(t, body, p, e)
  }

  /** The segments of a body mean what the body says. */
  lemma SegmentsSay(body: string, t: string, left: bool, right: bool)
    ensures Meaning(Segs(body), t, left, right) <==> Says(t, body, left, right)
  {
    var b := if right then TrimStars(body) else body;
    EffectiveIsTrimmed(body);
    hide Segs, Glob, Reach, Meaning, Effective, TrimStars;
    if right { RightMeaningReaches(Segs(body), t, left); } else { MeaningReaches(Segs(body), t, left); }
    if p: nat, e: nat :| p <= |t| && (left ==> p == 0) && (right ==> e == |t|) && Reach(t, Segs(b), p, e, true) { CutKeepsMeaning(t, b, p, e); }
    if GlobWithin(t, b, left, right) {
      var p: nat, e: nat :| p <= |t| && (left ==> p == 0) && (right ==> e == |t|) && Glob(t, b, p, e);
      CutKeepsMeaning(t, b, p, e);
    }
  }

  /** Cutting the domain off the first segment is cutting it off the body. */
  lemma {:induction false} DomainCut(body: string)
    ensures var (segs, cut) := (Segs(body), FirstMark(Segs(body)[0]));
            && cut <= |body| && segs[0][..cut] == body[..cut]
            && [segs[0][cut..]] + segs[1..] == Segs(body[cut..])
  {
    var segs := Segs(body);
    if body != "" && body[0] != '*' && body[0] != '/' && !Mark(body[0]) {
      DomainCut(body[1..]);
      LiteralFirst(body);
      CutDeeper(body[0], body[1..], Segs(body[1..]));
      hide Segs, FirstMark;
      assert body == [body[0]] + body[1..];
    } else {
      assert FirstMark(segs[0]) == 0;
      hide Segs, FirstMark;
      assert body[0..] == body && segs[0][0..] == segs[0] && [segs[0]] + segs[1..] == segs;
    }
  }

  lemma LiteralFirst(body: string)
    requires body != "" && body[0] != '*' && body[0] != '/' && !Mark(body[0])
    ensures var rest := Segs(body[1..]); Segs(body) == [[body[0]] + rest[0]] + rest[1..]
  {
  }

  lemma CutDeeper(c: char, tail: string, rest: seq<string>)
    requires c != '/' && !Mark(c) && rest != []
    requires var cut := FirstMark(rest[0]); cut <= |tail| && rest[0][..cut] == tail[..cut] && [rest[0][cut..]] + rest[1..] == Segs(tail[cut..])
    ensures var (segs, cut) := ([[c] + rest[0]] + rest[1..], FirstMark([c] + rest[0])); var body := [c] + tail;
            && cut <= |body| && segs[0][..cut] == body[..cut]
            && [segs[0][cut..]] + segs[1..] == Segs(body[cut..])
  {
    var first, cut, body := [c] + rest[0], FirstMark(rest[0]), [c] + tail;
    assert first[1..] == rest[0] && FirstMark(first) == cut + 1;
    hide FirstMark, Segs;
    assert first[cut + 1..] == rest[0][cut..] && body[cut + 1..] == tail[cut..];
    assert first[..cut + 1] == [c] + rest[0][..cut] && body[..cut + 1] == [c] + tail[..cut];
    assert ([first] + rest[1..])[1..] == rest[1..];
  }

  lemma OnlyEmptySegment(body: string)
    ensures |Segs(body)| == 1 && Segs(body)[0] == "" <==> body == ""
  {
  }

  /** A host is right when the filter names none, names it, or names one that it is below. */
  lemma HostOkIs(host: string, d: string)
    ensures HostOk(host, d) <==> d == "" || host == d || exists sub: string :: host == sub + "." + d
  {
    if HostOk(host, d) && d != "" && host != d {
      var sub := host[..|host| - |d| - 1];
      assert host == sub + ("." + d);
      assert host == sub + "." + d;
    }
    if sub: string :| host == sub + "." + d { assert host == sub + ("." + d); }
  }

  /** What is compared: the URL with the body, or, after a domain, the path with what follows the domain. */
  datatype Comparison = Comparison(text: string, body: string, left: bool)

  function DomainLength(f: string): nat { FirstMark(Segs(LowerText(Body(f)))[0]) }

  function Compared(f: string, filter: Filter, parts: Parts): Comparison {
    var body := LowerText(Body(f));
    if filter.domainAnchor && DomainLength(f) <= |body| then Comparison(LowerText(parts.path), body[DomainLength(f)..], true)
    else Comparison(MatchUrl(parts), body, filter.leftAnchor)
  }

  predicate HostFits(f: string, filter: Filter, parts: Parts) {
    filter.domainAnchor && DomainLength(f) <= |LowerText(Body(f))| ==> HostOk(parts.host, LowerText(Body(f))[..DomainLength(f)])
  }

  /** A domain and nothing else, up to the end of the host. */
  predicate HostOnly(filter: Filter, c: Comparison) { filter.domainAnchor && filter.rightAnchor && c.body == "" }

  ghost predicate Promised(f: string, filter: Filter, parts: Parts) {
    var c := Compared(f, filter, parts);
    HostFits(f, filter, parts) && (HostOnly(filter, c) || Says(c.text, c.body, c.left, filter.rightAnchor))
  }

  /** The right anchor is consulted, and misjudged. */
  ghost predicate Misjudged(f: string, filter: Filter, parts: Parts) {
    var c := Compared(f, filter, parts);
    HostFits(f, filter, parts) && !HostOnly(filter, c) && filter.rightAnchor && Misjudges(Segs(TrimStars(c.body)), c.text, c.left)
  }

  lemma FilterMatchIs(f: string, parts: Parts)
    requires ParseFilter(f).Accepted?
    ensures var filter := ParseFilter(f).filter;
            var c := Compared(f, filter, parts);
            && filter.segments != [] && DomainLength(f) <= |LowerText(Body(f))|
            && (FilterMatch(filter, parts)
                <==> HostFits(f, filter, parts) && (HostOnly(filter, c) || MatchSegments(Segs(c.body), c.text, c.left, filter.rightAnchor)))
  {
    var filter, body := ParseFilter(f).filter, LowerText(Body(f));
    AcceptedSegments(f);
    DomainCut(body);
    OnlyEmptySegment(body[DomainLength(f)..]);
    hide ParseFilter, Body, LowerText, Segs, MatchSegments, HostOk, MatchUrl, FirstMark;
  }

  /**
    End to end, for every accepted filter and every URL: the filter matches exactly when its body as written, with its
    anchors and its domain, says so, except where a right anchor is misjudged.
   */
  lemma FilterDecidesGlob(f: string, parts: Parts)
    requires ParseFilter(f).Accepted?
    ensures var filter := ParseFilter(f).filter;
            filter.segments != [] && ((FilterMatch(filter, parts) <==> Promised(f, filter, parts)) <==> !Misjudged(f, filter, parts))
  {
    var filter := ParseFilter(f).filter;
    var c := Compared(f, filter, parts);
    FilterMatchIs(f, parts);
    MatcherIff(Segs(c.body), c.text, c.left, filter.rightAnchor);
    SegmentsSay(c.body, c.text, c.left, filter.rightAnchor);
    EffectiveIsTrimmed(c.body);
    hide ParseFilter, Compared, HostFits, HostOnly, FilterMatch, MatchSegments, Meaning, Says, Segs, TrimStars, Misjudges, Effective;
  }

  // URLs on which a right anchor is misjudged

  /** What the splitting of a URL leaves: a known scheme, a host, a path that starts at the root. */
  predicate UrlParts(parts: Parts) {
    (parts.scheme == "http" || parts.scheme == "https") && parts.host != "" && parts.path != "" && parts.path[0] == '/'
    && forall i | 0 <= i < |parts.host| :: parts.host[i] != '/' && parts.host[i] != ':'
  }

  lemma LowerNothing(s: string)
    requires forall i | 0 <= i < |s| :: LowerChar(s[i]) == s[i]
    ensures LowerText(s) == s
  {
  }

  /**
    A filter of "a", a slash, a wildcard, a mark and a right anchor, on the URL of host "a" and path "/". The first segment takes
    the slash, and the end of the URL would do for the mark, but the matcher wants the slash for it.
   */
  lemma MissedPlacement()
    ensures var (f, parts) := ("a/*^|", Parts("http", "a", "/"));
            && ParseFilter(f) == Accepted(Filter(false, false, true, ["a/", [SEP]])) && UrlParts(parts)
            && !FilterMatch(ParseFilter(f).filter, parts) && Promised(f, ParseFilter(f).filter, parts)
  {
    var f, parts := "a/*^|", Parts("http", "a", "/");
    SampleUrls();
    hide *;
    SampleFilter();
    SampleFits(MatchUrl(parts));
    var filter := Filter(false, false, true, ["a/", [SEP]]);
    FilterDecidesGlob(f, parts);
    MisjudgedIs(f, filter, parts);
    TwoSegments();
    NoDomain(filter, parts);
  }

  lemma TwoSegments()
    ensures Effective(["a/", [SEP]], true) == ["a/", [SEP]] && Effective(["b"], true) == ["b"]
  {
  }

  lemma NoDomain(filter: Filter, parts: Parts)
    requires filter.segments != [] && !filter.domainAnchor
    ensures FilterMatch(filter, parts) == MatchSegments(filter.segments, MatchUrl(parts), filter.leftAnchor, filter.rightAnchor)
  {
    hide MatchSegments, MatchUrl;
  }

  lemma SampleUrls()
    ensures MatchUrl(Parts("http", "a", "/")) == "http://a/" && UrlParts(Parts("http", "a", "/"))
    ensures MatchUrl(Parts("http", "a", "/b")) == "http://a/b" && UrlParts(Parts("http", "a", "/b"))
  {
    LowerNothing("/");
    LowerNothing("/b");
    hide LowerText;
    assert "http" + "://" + "a" + "/" == "http://a/" && "http" + "://" + "a" + "/b" == "http://a/b";
  }

  lemma MisjudgedIs(f: string, filter: Filter, parts: Parts)
    requires ParseFilter(f) == Accepted(filter) && !filter.domainAnchor && filter.rightAnchor
    ensures Effective(filter.segments, true) != []
    ensures Misjudged(f, filter, parts) <==> Misjudges(Effective(filter.segments, true), MatchUrl(parts), filter.leftAnchor)
  {
    AcceptedSegments(f);
    EffectiveIsTrimmed(LowerText(Body(f)));
    hide ParseFilter, Body, LowerText, MatchUrl, Misjudges, Segs, Effective, TrimStars;
  }

  lemma SampleFilter()
    ensures ParseFilter("a/*^|") == Accepted(Filter(false, false, true, ["a/", [SEP]]))
  {
    var body := "a/*^";
    hide Segments, Segs, LowerText;
    assert "a/*^|"[..4] == body;
    LowerNothing(body);
    SegmentsAre(body);
    SampleSegs();
    assert InteriorFilled(["a/", [SEP]]);
  }

  lemma SampleSegs()
    ensures Segs("a/*^") == ["a/", [SEP]]
  {
    assert "a/*^"[1..] == "/*^" && "/*^"[1..] == "*^" && "*^"[1..] == "^" && "^"[1..] == "";
    assert [SEP] + "" == [SEP] && "/" + "" == "/" && "a" + "/" == "a/";
    assert Segs("") == [""];
    assert Segs("^") == [[SEP] + ""] + [""][1..];
    assert StripStars("*^") == "^";
    assert Segs("*^") == [""] + [[SEP]];
    assert Segs("/*^") == [['/'] + ""] + ["", [SEP]][1..] == ["/", [SEP]];
    assert Segs("a/*^") == [['a'] + "/"] + ["/", [SEP]][1..];
  }

  lemma SampleFits(t: string)
    requires t == "http://a/"
    ensures !MatchSegments(["a/", [SEP]], t, false, true) && Misjudges(["a/", [SEP]], t, false)
  {
    var es := ["a/", [SEP]];
    assert Effective(es, true) == es && es[..1] == ["a/"] && ["a/"][1..] == [];
    SampleStarts(t);
    hide MatchAt, AnchorStart, Place, FindSeg;
    assert Greedy(t, [], 9, false) == Some(9);
    assert Greedy(t, ["a/"], 0, false) == Some(9);
    FitsIsGreedy(t, ["a/"], 0, false, 8);
  }

  lemma SampleStarts(t: string)
    requires t == "http://a/"
    ensures AnchorStart(t, [SEP], 0) == Some(8) && MatchAt(t, [SEP], 9) == Some(9) && Place(t, "a/", 0, false) == Some(9)
  {
    assert [SEP][1..] == "" && "a/"[1..] == "/" && "/"[1..] == "";
    assert MatchAt(t, [SEP], 8) == Some(9) && MatchAt(t, [SEP], 7) == None;
    StartIs(t, [SEP], 8);
    assert MatchAt(t, "a/", 7) == Some(9);
    FindsFirst(t, "a/", 0, 7);
    var s := FoundStarts(t, "a/", 0);
    assert t[s] == 'a' && s == 7;
  }

  /** "|b|" on the URL of host "a" and path "/b": the left anchor asks for a "b" at the start of the URL, and is not consulted. */
  lemma LeftAnchorIgnored()
    ensures var (f, parts) := ("|b|", Parts("http", "a", "/b"));
            && ParseFilter(f) == Accepted(Filter(false, true, true, ["b"])) && UrlParts(parts)
            && FilterMatch(ParseFilter(f).filter, parts) && !Promised(f, ParseFilter(f).filter, parts)
  {
    var f, parts := "|b|", Parts("http", "a", "/b");
    SampleUrls();
    hide *;
    OneLetter();
    AnyStart(MatchUrl(parts));
    var filter := Filter(false, true, true, ["b"]);
    FilterDecidesGlob(f, parts);
    MisjudgedIs(f, filter, parts);
    TwoSegments();
    NoDomain(filter, parts);
  }

  lemma OneLetter()
    ensures ParseFilter("|b|") == Accepted(Filter(false, true, true, ["b"]))
  {
    assert "|b|"[1..] == "b|" && "b|"[..1] == "b";
    LowerNothing("b");
    SegmentsAre("b");
    assert Segs("b") == ["b"] by { assert "b"[1..] == ""; }
    hide Segments, Segs, LowerText;
    assert InteriorFilled(["b"]);
  }

  lemma AnyStart(t: string)
    requires t == "http://a/b"
    ensures MatchSegments(["b"], t, true, true) && Misjudges(["b"], t, true)
  {
    assert "b"[1..] == "";
    assert MatchAt(t, "b", 9) == Some(10) && MatchAt(t, "b", 8) == None;
    StartIs(t, "b", 9);
    assert ["b"][..0] == [];
  }
}
