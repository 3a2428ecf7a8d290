/** Which texts are filters, with which anchors, and what each character of a body stands for. */
module FilterMeaning {
  import opened Wrappers
  import opened FilterMatcher
  import opened FilterGrammar

  // Letters

  const UPPER := "ABCDEFGHIJKLMNOPQRSTUVWXYZ"
  const LOWER := "abcdefghijklmnopqrstuvwxyz"

  /** A letter of ASCII becomes its lower-case form, and every other character stays. */
  lemma LowerIs(c: char)
    ensures forall i | 0 <= i < 26 :: LowerChar(UPPER[i]) == LOWER[i] && LowerChar(LOWER[i]) == LOWER[i]
    ensures c !in UPPER ==> LowerChar(c) == c
  {
    assert forall i | 0 <= i < 26 :: UPPER[i] as int == 65 + i && LOWER[i] as int == 97 + i;
    if 'A' <= c <= 'Z' { assert UPPER[c as int - 65] == c; }
  }

  /** Two texts that differ only in the case of letters. */
  predicate SameLetters(a: string, b: string) { |a| == |b| && forall i | 0 <= i < |a| :: LowerChar(a[i]) == LowerChar(b[i]) }

  /** Case does not matter to the path of a URL. */
  lemma CaseIsIgnored(filter: Filter, parts: Parts, path: string)
    requires filter.segments != [] && SameLetters(path, parts.path)
    ensures FilterMatch(filter, parts.(path := path)) == FilterMatch(filter, parts)
  {
    assert LowerText(path) == LowerText(parts.path);
    hide LowerText, MatchSegments, HostOk, FirstMark;
  }

  // Characters of a body

  /** A mark stands for a slash, a colon, or the end of the text. */
  lemma MarkMeans(t: string, p: nat, e: nat)
    requires p <= |t|
    ensures Glob(t, "^", p, e) <==> (p < |t| && (t[p] == '/' || t[p] == ':') && e == p + 1) || (p == |t| && e == p)
  {
    assert "^"[1..] == "";
    assert Glob(t, "", p, e) <==> p == e;
    assert Glob(t, "", p + 1, e) <==> p + 1 == e;
  }

  /** A wildcard stands for any stretch of the text. */
  lemma StarMeans(t: string, p: nat, e: nat)
    requires p <= |t|
    ensures Glob(t, "*", p, e) <==> p <= e <= |t|
  {
    assert "*"[1..] == "";
    if p <= e <= |t| { assert Glob(t, "", e, e); }
    if Glob(t, "*", p, e) { var q: nat :| p <= q <= |t| && Glob(t, "", q, e); }
  }

  /** Any other character stands for itself. */
  lemma LetterMeans(t: string, c: char, p: nat, e: nat)
    requires p <= |t| && c != '*' && c != '^' && c != SEP
    ensures Glob(t, [c], p, e) <==> p < |t| && t[p] == c && e == p + 1
  {
    assert [c][1..] == "";
    assert Glob(t, "", p + 1, e) <==> p + 1 == e;
  }

  /** And a body stands for what its characters stand for, one after the other; only a mark before more text cannot be the end. */
  lemma {:induction false} BodyMeans(t: string, c: char, rest: string, p: nat, e: nat)
    requires p <= |t| && rest != ""
    ensures Glob(t, [c] + rest, p, e)
            <==> exists q: nat :: q <= |t| && Glob(t, [c], p, q) && Glob(t, rest, q, e) && (p == q && (c == '^' || c == SEP) ==> rest[0] == '*')
  {
    var body := [c] + rest;
    assert body[1..] == rest && [c][1..] == "";
    forall q: nat | q <= |t| ensures Glob(t, "", q, q) { }
    if c == '*' {
      assert Glob(t, body, p, e) <==> exists q: nat :: p <= q <= |t| && Glob(t, rest, q, e);
      assert [c] == "*";
      hide Glob;
      StarMeansAt(t, p);
      if Glob(t, body, p, e) { var q: nat :| p <= q <= |t| && Glob(t, rest, q, e); assert Glob(t, [c], p, q); }
      if q: nat :| q <= |t| && Glob(t, [c], p, q) && Glob(t, rest, q, e) { assert p <= q; }
    } else if c == '^' || c == SEP {
      assert Mark(c);
      if p < |t| && Separator(t[p]) && Glob(t, rest, p + 1, e) { assert Glob(t, [c], p, p + 1); }
      if p == |t| && rest[0] == '*' && Glob(t, rest, p, e) { assert Glob(t, [c], p, p); }
      hide Glob;
      MarkAt(t, c, p);
    } else {
      LetterAt(t, c, p);
      assert Glob(t, body, p, e) <==> p < |t| && t[p] == c && Glob(t, rest, p + 1, e);
      hide Glob;
      if Glob(t, body, p, e) { assert Glob(t, [c], p, p + 1); }
    }
  }

  lemma StarMeansAt(t: string, p: nat)
    requires p <= |t|
    ensures forall q: nat :: Glob(t, "*", p, q) <==> p <= q <= |t|
  {
    forall q: nat ensures Glob(t, "*", p, q) <==> p <= q <= |t| { StarMeans(t, p, q); }
  }

  lemma LetterAt(t: string, c: char, p: nat)
    requires p <= |t| && c != '*' && c != '^' && c != SEP
    ensures forall q: nat :: Glob(t, [c], p, q) <==> p < |t| && t[p] == c && q == p + 1
  {
    forall q: nat ensures Glob(t, [c], p, q) <==> p < |t| && t[p] == c && q == p + 1 { LetterMeans(t, c, p, q); }
  }

  lemma MarkAt(t: string, c: char, p: nat)
    requires p <= |t| && (c == '^' || c == SEP)
    ensures forall q: nat :: Glob(t, [c], p, q) <==> (p < |t| && Separator(t[p]) && q == p + 1) || (p == |t| && q == p)
  {
    forall q: nat ensures Glob(t, [c], p, q) <==> (p < |t| && Separator(t[p]) && q == p + 1) || (p == |t| && q == p) {
      assert [c][1..] == "";
      assert Glob(t, "", p, q) <==> p == q;
      assert Glob(t, "", p + 1, q) <==> p + 1 == q;
    }
  }

  // Filters

  /** An anchor or none at either end of a body without bars. */
  ghost predicate Shape(f: string, anchor: string, body: string, end: string) {
    && f == anchor + body + end && (anchor == "" || anchor == "|" || anchor == "||") && (end == "" || end == "|")
    && body != "" && '|' !in body
  }

  /** Not a comment, a regular expression, or a filter with options, a cosmetic part or an at-sign. */
  ghost predicate Supported(f: string) {
    f != "" && f[0] != '!' && !(|f| >= 2 && f[0] == '/' && f[|f| - 1] == '/') && '$' !in f && '#' !in f && '@' !in f
  }

  function AnchorOf(f: string): string { if |f| >= 2 && f[..2] == "||" then "||" else if f != "" && f[0] == '|' then "|" else "" }

  function TailOf(f: string): string { if |f| >= 2 && f[..2] == "||" then f[2..] else if f != "" && f[0] == '|' then f[1..] else f }

  function EndOf(tail: string): string { if tail != "" && tail[|tail| - 1] == '|' then "|" else "" }

  function CoreOf(tail: string): string { if tail != "" && tail[|tail| - 1] == '|' then tail[..|tail| - 1] else tail }

  lemma PiecesOf(f: string)
    ensures f == AnchorOf(f) + TailOf(f) && (AnchorOf(f) == "" || AnchorOf(f) == "|" || AnchorOf(f) == "||")
    ensures forall tail: string :: EndOf(tail) == "" || EndOf(tail) == "|"
    ensures forall tail: string :: tail == CoreOf(tail) + EndOf(tail)
  {
  }

  lemma ParseIs(f: string)
    requires Supported(f)
    ensures var (anchor, end, body) := (AnchorOf(f), EndOf(TailOf(f)), CoreOf(TailOf(f)));
            && Body(f) == body
            && ParseFilter(f) == if '|' in body then Rejected("unsupported-directive:interior-pipe") else if body == "" then Rejected("empty-filter")
                                 else Accepted(Filter(anchor == "||", anchor == "|", end == "|", Segments(LowerText(body))))
  {
    FilledAlways(LowerText(CoreOf(TailOf(f))));
    hide Segments, LowerText, InteriorFilled;
  }

  lemma ShapePieces(f: string, anchor: string, body: string, end: string)
    requires Shape(f, anchor, body, end)
    ensures AnchorOf(f) == anchor && TailOf(f) == body + end
  {
    assert body[0] != '|';
    if anchor == "||" {
      assert f[..2] == "||" && f[2..] == body + end;
    } else if anchor == "|" {
      assert f[0] == '|' && f[1] == body[0] && f[..2][1] == f[1] && f[1..] == body + end;
    } else {
      assert f[0] == body[0] && f == body + end;
      if |f| >= 2 { assert f[..2][0] == f[0]; }
    }
  }

  lemma ShapeEnds(body: string, end: string)
    requires (end == "" || end == "|") && body != "" && '|' !in body
    ensures EndOf(body + end) == end && CoreOf(body + end) == body
  {
    assert body[|body| - 1] != '|';
    if end == "" { assert body + end == body; }
  }

  lemma ShapeParses(f: string, anchor: string, body: string, end: string)
    requires Supported(f) && Shape(f, anchor, body, end)
    ensures ParseFilter(f) == Accepted(Filter(anchor == "||", anchor == "|", end == "|", Segments(LowerText(body)))) && Body(f) == body
  {
    ShapePieces(f, anchor, body, end);
    ShapeEnds(body, end);
    hide ParseFilter, Body, AnchorOf, TailOf, EndOf, CoreOf, Segments, LowerText, Supported;
    ParseIs(f);
  }

  lemma FilledAlways(body: string)
    ensures InteriorFilled(Segments(body))
  {
    SegmentsAre(body);
    OnlyEndsEmpty(body);
  }

  lemma ParsedHasShape(f: string)
    requires ParseFilter(f).Accepted?
    ensures Supported(f) && exists anchor, body, end :: Shape(f, anchor, body, end)
  {
    ParsedIsSupported(f);
    ParseIs(f);
    PiecesOf(f);
    var tail := TailOf(f);
    hide ParseFilter, Body, AnchorOf, TailOf, EndOf, CoreOf, Segments, LowerText, Supported;
    assert f == AnchorOf(f) + CoreOf(tail) + EndOf(tail);
    assert Shape(f, AnchorOf(f), CoreOf(tail), EndOf(tail));
  }

  lemma ParsedIsSupported(f: string)
    requires ParseFilter(f).Accepted?
    ensures Supported(f)
  {
    hide Segments, LowerText, InteriorFilled;
  }

  /**
    A text is a filter exactly when it is supported and has a shape; the shape says its anchors, and its body is what
    `FilterDecidesGlob` is about.
   */
  lemma AcceptedIff(f: string)
    ensures ParseFilter(f).Accepted? <==> Supported(f) && exists anchor, body, end :: Shape(f, anchor, body, end)
    ensures ParseFilter(f).Accepted? ==>
              forall anchor, body, end | Shape(f, anchor, body, end) ::
                var filter := ParseFilter(f).filter;
                filter.domainAnchor == (anchor == "||") && filter.leftAnchor == (anchor == "|") && filter.rightAnchor == (end == "|") && Body(f) == body
  {
    hide ParseFilter, Body, Supported, Shape;
    if ParseFilter(f).Accepted? { ParsedHasShape(f); }
    if Supported(f) {
      forall anchor, body, end | Shape(f, anchor, body, end)
        ensures ParseFilter(f).Accepted? && var filter := ParseFilter(f).filter;
                filter.domainAnchor == (anchor == "||") && filter.leftAnchor == (anchor == "|") && filter.rightAnchor == (end == "|") && Body(f) == body
      {
        ShapeParses(f, anchor, body, end);
      }
    }
  }

  /** The token of an unsupported text, in the order in which it is looked at. */
  lemma RejectionTokens(f: string)
    requires !Supported(f)
    ensures ParseFilter(f)
            == Rejected(if f == "" then "empty-filter" else if f[0] == '!' then "unsupported-directive:comment"
                        else if |f| >= 2 && f[0] == '/' && f[|f| - 1] == '/' then "unsupported-directive:regex"
                        else if '$' in f then "unsupported-directive:options-in-filter"
                        else if '#' in f then "unsupported-directive:cosmetic-hash" else "unsupported-directive:at-syntax")
  {
  }
}
