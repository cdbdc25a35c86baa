/** How each part of a planning document stands in what is shown of it,
    tools/mkdocs_showcase.py: headings and rules apart from the lines around them, and
    preformatted paragraphs inside a fence of their own. */
module SpecShown {
  import opened Text
  import opened UnitPage
  import opened SpecDocument
  import opened SpecSegments
  import opened SpecLines

  // ---------------------------------------------------------------------
  // Headings and rules stand apart
  // ---------------------------------------------------------------------

  /** Outside fences, an empty line follows each heading, and stands before and after
      each rule. */
  predicate StandsApart(d: seq<Line>, k: nat, fenced: bool)
    requires k < |d|
  {
    FenceAfter(d[..k], fenced) ||
    (&& (HeadingLevel(d[k]).Some? ==> k + 1 < |d| && d[k + 1] == "")
     && (IsRule(d[k]) ==> k > 0 && d[k - 1] == "" && k + 1 < |d| && d[k + 1] == ""))
  }

  predicate AllApart(d: seq<Line>, fenced: bool) {
    forall k :: 0 <= k < |d| ==> StandsApart(d, k, fenced)
  }

  lemma ApartConcat(a: seq<Line>, b: seq<Line>, fenced: bool)
    requires AllApart(a, fenced) && AllApart(b, FenceAfter(a, fenced))
    ensures AllApart(a + b, fenced)
  {
    forall k | 0 <= k < |a + b|
      ensures StandsApart(a + b, k, fenced)
    {
      if k < |a| {
        assert (a + b)[..k] == a[..k];
        assert StandsApart(a, k, fenced);
      } else {
        assert (a + b)[..k] == a + b[..k - |a|];
        QuietConcat(a, b[..k - |a|], fenced);
        assert StandsApart(b, k - |a|, FenceAfter(a, fenced));
      }
    }
  }

  /** A line that is neither heading nor rule. */
  predicate NeedsNoRoom(l: Line) {
    HeadingLevel(l).None? && !IsRule(l)
  }

  lemma PlainApart(lines: seq<Line>, fenced: bool)
    requires forall k :: 0 <= k < |lines| ==> NeedsNoRoom(lines[k])
    ensures AllApart(lines, fenced)
  {
    forall k | 0 <= k < |lines|
      ensures StandsApart(lines, k, fenced)
    {
      assert NeedsNoRoom(lines[k]);
    }
  }

  lemma FencedApart(lines: seq<Line>)
    requires forall k :: 0 <= k < |lines| ==> !IsFence(lines[k])
    ensures AllApart(lines, true) && FenceAfter(lines, true)
  {
    forall k | 0 <= k <= |lines|
      ensures FenceAfter(lines[..k], true)
    {
      NoFenceWithin(lines[..k]);
    }
    assert lines[..|lines|] == lines;
  }

  lemma {:induction false} NoFenceWithin(lines: seq<Line>)
    requires forall k :: 0 <= k < |lines| ==> !IsFence(lines[k])
    ensures FenceAfter(lines, true)
    decreases |lines|
  {
    if lines != [] {
      NoFenceWithin(lines[1..]);
    }
  }

  lemma FenceNeedsNoRoom(l: Line)
    requires IsFence(l)
    ensures NeedsNoRoom(l)
  {
    assert FENCE[0] == '`';
    FenceIsNoHeading(l);
  }

  lemma EscapedNeedsNoRoom(l: Line)
    requires IsText(l)
    ensures NeedsNoRoom(EscapeNames(l))
  {
    var e := EscapeNames(l);
    EscapedTextIsPlain(l);
    JoinOfSplit(l, '`');
    PartsSame(Split(l, '`'), true);
    RuleSame(l, e);
  }

  /** A rule has no character that escaping adds. */
  lemma RuleSame(s: string, e: string)
    requires SameUpToEscape(s, e)
    ensures IsRule(e) ==> IsRule(s)
  {
    if IsRule(e) {
      RuleExactly(e);
      var n: nat :| 3 <= n && Run(e, n, '-') && AllSpace(e[n..]);
      assert forall p :: 0 <= p < |e| ==> e[p] == '-' || IsSpace(e[p]) by {
        assert forall p :: n <= p < |e| ==> e[p] == e[n..][p - n];
      }
      assert s == e;
    }
  }

  lemma ParagraphApart(block: seq<Line>, preformatted: Choice)
    requires forall k :: 0 <= k < |block| ==> IsText(block[k])
    ensures AllApart(Flushed(block, preformatted), false)
  {
    EmptyIsPlain();
    if block != [] && preformatted(block) {
      FenceIsFence();
      FenceNeedsNoRoom(FENCE);
      PlainApart(["", FENCE], false);
      PlainApart([FENCE, ""], true);
      FencedApart(block);
      DemotePair("", FENCE, false);
      ApartConcat(["", FENCE], block, false);
      QuietConcat(["", FENCE], block, false);
      ApartConcat(["", FENCE] + block, [FENCE, ""], false);
    } else {
      forall k | 0 <= k < |block|
        ensures NeedsNoRoom(Escaped(block)[k])
      {
        EscapedNeedsNoRoom(block[k]);
      }
      PlainApart(Escaped(block), false);
    }
  }

  lemma SegmentApart(s: Segment, fenced: bool, preformatted: Choice)
    requires Fits(s, fenced)
    ensures AllApart(Shown(s, preformatted), fenced)
  {
    EmptyIsPlain();
    match s {
      case Fence(line) =>
        FenceNeedsNoRoom(line);
        PlainApart([line], fenced);
      case Fenced(line) =>
        FencedApart([line]);
      case Empty(line) =>
        assert line == "" || IsSpace(line[0]);
        PlainApart([line], fenced);
      case Heading(line) =>
        assert Demoted(line)[0] == '#';
      case Rule(line) =>
        assert ["", line, ""][..1] == [""];
      case Paragraph(lines) =>
        ParagraphApart(lines, preformatted);
    }
  }

  lemma {:induction false} SegmentsApart(segments: seq<Segment>, fenced: bool, preformatted: Choice)
    requires WellCut(segments, fenced)
    ensures AllApart(ShownAll(segments, preformatted), fenced)
    decreases |segments|
  {
    if segments != [] {
      var s, rest := segments[0], segments[1..];
      SegmentApart(s, fenced, preformatted);
      ShownFence(s, fenced, preformatted);
      SegmentsApart(rest, fenced != s.Fence?, preformatted);
      ApartConcat(Shown(s, preformatted), ShownAll(rest, preformatted), fenced);
    }
  }

  /** Main result: in what is shown of any document, every heading outside fences is
      followed by an empty line, and every rule stands between two. */
  lemma HeadingsAndRulesApart(lines: seq<Line>, preformatted: Choice)
    ensures AllApart(ShownAll(Segments(lines), preformatted), false)
  {
    DocumentIsShownBySegments(lines, preformatted);
    SegmentsApart(Segments(lines), false, preformatted);
  }

  // ---------------------------------------------------------------------
  // What each segment is shown as
  // ---------------------------------------------------------------------

  predicate IndentedFour(l: Line) {
    |l| >= 4 && l[..4] == "    "
  }

  /** The lines a segment is shown as, by its kind. */
  ghost predicate StandsAs(s: Segment, shown: seq<Line>, preformatted: Choice) {
    match s
    case Heading(line) =>
      && |shown| == 2 && shown[1] == ""
      && exists n, m: nat :: HeadingLevel(line) == Some(n) && HeadingLevel(shown[0]) == Some(m)
           && m == (if n <= 4 then n + 2 else 6) && shown[0][m..] == line[n..]
    case Rule(line) => shown == ["", line, ""]
    case Paragraph(lines) =>
      if preformatted(lines) then shown == ["", "```"] + lines + ["```", ""]
      else
        && |shown| == |lines|
        && forall j :: 0 <= j < |lines| ==>
             shown[j] == if IndentedFour(lines[j]) then lines[j] else EscapeNames(lines[j])
    case Fence(line) => shown == [line]
    case Fenced(line) => shown == [line]
    case Empty(line) => shown == [line]
  }

  lemma {:induction false} FourIndented(l: Line, n: nat)
    ensures Indent(l) >= n <==> Run(l, n, ' ')
    decreases n
  {
    if n > 0 && l != [] && l[0] == ' ' {
      FourIndented(l[1..], n - 1);
      assert Run(l, n, ' ') <==> Run(l[1..], n - 1, ' ') by {
        assert forall k :: 0 < k < n && k < |l| ==> l[k] == l[1..][k - 1];
      }
    }
  }

  lemma EscapedStandsAs(lines: seq<Line>, j: nat)
    requires j < |lines|
    ensures Escaped(lines)[j] == if IndentedFour(lines[j]) then lines[j] else EscapeNames(lines[j])
  {
    var l := lines[j];
    FourIndented(l, 4);
    assert Run(l, 4, ' ') <==> IndentedFour(l) by {
      if IndentedFour(l) {
        assert forall k :: 0 <= k < 4 ==> l[k] == l[..4][k];
      }
    }
  }

  lemma SegmentStandsAs(s: Segment, fenced: bool, preformatted: Choice)
    requires Fits(s, fenced)
    ensures StandsAs(s, Shown(s, preformatted), preformatted)
  {
    match s {
      case Heading(line) =>
        var n := HeadingLevel(line).value;
        DemotedExactly(line, n);
        assert HeadingLevel(Shown(s, preformatted)[0]) == Some(if n <= 4 then n + 2 else 6);
      case Paragraph(lines) =>
        forall j | 0 <= j < |lines|
          ensures Escaped(lines)[j] == if IndentedFour(lines[j]) then lines[j] else EscapeNames(lines[j])
        {
          EscapedStandsAs(lines, j);
        }
      case _ =>
    }
  }

  lemma {:induction false} ShownConcat(a: seq<Segment>, b: seq<Segment>, preformatted: Choice)
    ensures ShownAll(a + b, preformatted) == ShownAll(a, preformatted) + ShownAll(b, preformatted)
    decreases |a|
  {
    if a == [] {
      assert a + b == b;
    } else {
      ShownConcat(a[1..], b, preformatted);
      assert (a + b)[1..] == a[1..] + b && (a + b)[0] == a[0];
      Assoc(Shown(a[0], preformatted), ShownAll(a[1..], preformatted), ShownAll(b, preformatted));
    }
  }

  /** Main result: each segment of a document stands in what is shown between those
      before and after it, as its kind says, with the document's fence open before it
      when it is open there in the document. */
  lemma SegmentStands(lines: seq<Line>, k: nat, preformatted: Choice)
    requires k < |Segments(lines)|
    ensures var segments := Segments(lines);
      var before, after := ShownAll(segments[..k], preformatted), ShownAll(segments[k + 1..], preformatted);
      var shown := Shown(segments[k], preformatted);
      && ShownAll(segments, preformatted) == before + shown + after
      && StandsAs(segments[k], shown, preformatted)
      && Fits(segments[k], FenceAfter(before, false))
  {
    var segments := Segments(lines);
    DocumentIsShownBySegments(lines, preformatted);
    FencesStayInPlace(segments, false, k, preformatted);
    SegmentStandsAs(segments[k], FenceAfter(ShownAll(segments[..k], preformatted), false), preformatted);
    ShownParts(segments, k, preformatted);
  }

  lemma ShownParts(segments: seq<Segment>, k: nat, preformatted: Choice)
    requires k < |segments|
    ensures ShownAll(segments, preformatted) ==
      ShownAll(segments[..k], preformatted) + Shown(segments[k], preformatted) +
      ShownAll(segments[k + 1..], preformatted)
  {
    CutAt(segments, k);
    ShownMiddle(segments, segments[..k], segments[k], segments[k + 1..], preformatted);
  }

  lemma CutAt<T>(s: seq<T>, k: nat)
    requires k < |s|
    ensures s == s[..k] + ([s[k]] + s[k + 1..])
  {
  }

  lemma ShownMiddle(all: seq<Segment>, before: seq<Segment>, s: Segment, after: seq<Segment>, preformatted: Choice)
    requires all == before + ([s] + after)
    ensures ShownAll(all, preformatted) ==
      ShownAll(before, preformatted) + Shown(s, preformatted) + ShownAll(after, preformatted)
  {
    ShownConcat(before, [s] + after, preformatted);
    assert ([s] + after)[1..] == after;
    Assoc(ShownAll(before, preformatted), Shown(s, preformatted), ShownAll(after, preformatted));
  }
}
