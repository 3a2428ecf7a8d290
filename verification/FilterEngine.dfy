/** The matcher and the filter parser as loops over characters, starts and segments. */
module FilterEngine {
  import opened Wrappers
  import opened FilterMatcher
  import opened FilterGrammar

  method MatchSegAt(t: string, seg: string, pos: nat) returns (r: Option<nat>)
    requires pos <= |t|
    ensures r == MatchAt(t, seg, pos)
  {
    var p: nat := pos;
    assert seg[0..] == seg;
    for i := 0 to |seg|
      invariant p <= |t| && MatchAt(t, seg, pos) == MatchAt(t, seg[i..], p)
    {
      var c := seg[i];
      assert seg[i..][0] == c && seg[i..][1..] == seg[i + 1..];
      if c == SEP {
        if p == |t| { return if i + 1 == |seg| then Some(p) else None; }
        if !Separator(t[p]) { return None; }
        p := p + 1;
        continue;
      }
      if p >= |t| || t[p] != c { return None; }
      p := p + 1;
    }
    return Some(p);
  }

  method FindSegFrom(t: string, seg: string, from: nat) returns (r: Option<nat>)
    requires from <= |t|
    ensures r == FindSeg(t, seg, from)
  {
    hide MatchAt;
    var s := from;
    while s <= |t|
      invariant from <= s <= |t| + 1
      invariant s <= |t| ==> FindSeg(t, seg, s) == FindSeg(t, seg, from)
      invariant s == |t| + 1 ==> FindSeg(t, seg, from).None?
    {
      var e := MatchSegAt(t, seg, s);
      if e.Some? { return e; }
      s := s + 1;
    }
    return None;
  }

  method PlaceSegment(t: string, seg: string, from: nat, anchored: bool) returns (r: Option<nat>)
    requires from <= |t|
    ensures r == Place(t, seg, from, anchored)
  {
    if anchored { r := MatchSegAt(t, seg, from); } else { r := FindSegFrom(t, seg, from); }
  }

  /** The first start of the last segment from which it reaches the end. */
  method FindAnchorStart(t: string, seg: string) returns (r: Option<nat>)
    ensures r == AnchorStart(t, seg, 0)
  {
    hide MatchAt;
    var s := 0;
    while s <= |t|
      invariant 0 <= s <= |t| + 1
      invariant s <= |t| ==> AnchorStart(t, seg, s) == AnchorStart(t, seg, 0)
      invariant s == |t| + 1 ==> AnchorStart(t, seg, 0).None?
    {
      var e := MatchSegAt(t, seg, s);
      if e == Some(|t|) { return Some(s); }
      s := s + 1;
    }
    return None;
  }

  /** The segments in front of a right-anchored one: each as early as possible, none of them past its start. */
  method FrontFits(front: seq<string>, target: string, leftAnchor: bool, start: nat) returns (ok: bool)
    ensures ok == FitsBefore(target, front, 0, leftAnchor, start)
  {
    hide Place;
    assert front[0..] == front;
    var pos: nat := 0;
    for i := 0 to |front|
      invariant pos <= |target|
      invariant FitsBefore(target, front, 0, leftAnchor, start) == FitsBefore(target, front[i..], pos, leftAnchor && i == 0, start)
    {
      assert front[i..][0] == front[i] && front[i..][1..] == front[i + 1..];
      var e := PlaceSegment(target, front[i], pos, i == 0 && leftAnchor);
      if e.None? || e.value > start { return false; }
      pos := e.value;
    }
    return true;
  }

  method AllFit(segs: seq<string>, target: string, leftAnchor: bool) returns (ok: bool)
    ensures ok == Greedy(target, segs, 0, leftAnchor).Some?
  {
    hide Place;
    assert segs[0..] == segs;
    var pos: nat := 0;
    for i := 0 to |segs|
      invariant pos <= |target|
      invariant Greedy(target, segs, 0, leftAnchor) == Greedy(target, segs[i..], pos, leftAnchor && i == 0)
    {
      assert segs[i..][0] == segs[i] && segs[i..][1..] == segs[i + 1..];
      var e := PlaceSegment(target, segs[i], pos, i == 0 && leftAnchor);
      if e.None? { return false; }
      pos := e.value;
    }
    return true;
  }

  method MatchAll(segs: seq<string>, target: string, leftAnchor: bool, rightAnchor: bool) returns (ok: bool)
    ensures ok == MatchSegments(segs, target, leftAnchor, rightAnchor)
  {
    hide FitsBefore, Greedy, AnchorStart;
    if segs == [] { return false; }
    var n := |segs|;
    if rightAnchor && n > 1 && segs[|segs| - 1] == "" { n := n - 1; }
    assert Effective(segs, rightAnchor) == segs[..n];
    if rightAnchor {
      var start := FindAnchorStart(target, segs[n - 1]);
      if start.None? { return false; }
      assert segs[..n][..n - 1] == segs[..n - 1];
      ok := FrontFits(segs[..n - 1], target, leftAnchor, start.value);
      return;
    }
    ok := AllFit(segs[..n], target, leftAnchor);
  }

  method CutBody(body: string) returns (segments: seq<string>)
    ensures segments == Segments(body)
  {
    segments := [];
    var cur := "";
    assert body[0..] == body;
    for i := 0 to |body|
      invariant Cut(segments, cur, body[i..]) == Segments(body)
    {
      var c := body[i];
      assert body[i..][0] == c && body[i..][1..] == body[i + 1..];
      if c == '*' {
        if cur != "" || segments == [] {
          segments := segments + [cur];
          cur := "";
        }
        continue;
      }
      cur := cur + [if c == '^' then SEP else c];
    }
    segments := segments + [cur];
  }

  method AllFilled(segments: seq<string>) returns (ok: bool)
    ensures ok == InteriorFilled(segments)
  {
    var i := 1;
    while i < |segments| - 1
      invariant 1 <= i && forall j | 1 <= j < i && j < |segments| - 1 :: segments[j] != ""
    {
      if segments[i] == "" { return false; }
      i := i + 1;
    }
    return true;
  }

  method Parse(f: string) returns (r: ParsedFilter)
    ensures r == ParseFilter(f)
  {
    hide LowerText, Segments, InteriorFilled;
    if f == "" { return Rejected("empty-filter"); }
    if f[0] == '!' { return Rejected("unsupported-directive:comment"); }
    if |f| >= 2 && f[0] == '/' && f[|f| - 1] == '/' { return Rejected("unsupported-directive:regex"); }
    if '$' in f { return Rejected("unsupported-directive:options-in-filter"); }
    if '#' in f { return Rejected("unsupported-directive:cosmetic-hash"); }
    if '@' in f { return Rejected("unsupported-directive:at-syntax"); }
    var body := f;
    var domain, left, right := false, false, false;
    if |body| >= 2 && body[..2] == "||" {
      domain := true;
      body := body[2..];
    } else if body[0] == '|' {
      left := true;
      body := body[1..];
    }
    if body != "" && body[|body| - 1] == '|' {
      right := true;
      body := body[..|body| - 1];
    }
    if '|' in body { return Rejected("unsupported-directive:interior-pipe"); }
    if body == "" { return Rejected("empty-filter"); }
    body := LowerText(body);
    var segments := CutBody(body);
    var filled := AllFilled(segments);
    if !filled { return Rejected("unsupported-directive:empty-segment"); }
    return Accepted(Filter(domain, left, right, segments));
  }
}
