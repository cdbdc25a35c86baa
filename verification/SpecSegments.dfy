/** keep_indented followed by demote_headings, tools/mkdocs_showcase.py, as a
    decomposition: the document is cut into segments, each shown on its own, and
    nothing else happens to it.

    Which paragraphs would lose their line breaks (`preformatted`) is a parameter:
    the results hold for every such choice. */
module SpecSegments {
  import opened Text
  import opened UnitPage
  import opened SpecDocument

  datatype Segment =
    | Fence(line: Line)
    | Fenced(line: Line)
    | Empty(line: Line)
    | Heading(line: Line)
    | Rule(line: Line)
    | Paragraph(lines: seq<Line>)

  type Choice = seq<Line> -> bool

  /** The document lines a segment stands for. */
  function Source(s: Segment): seq<Line> {
    match s
    case Paragraph(lines) => lines
    case _ => [s.line]
  }

  function Escaped(lines: seq<Line>): (r: seq<Line>)
    ensures |r| == |lines|
  {
    seq(|lines|, k requires 0 <= k < |lines| => if Indent(lines[k]) < 4 then EscapeNames(lines[k]) else lines[k])
  }

  /** A paragraph as it is kept: fenced whole when it is preformatted, else escaped. */
  function Flushed(block: seq<Line>, preformatted: Choice): seq<Line> {
    if block != [] && preformatted(block) then ["", FENCE] + block + [FENCE, ""] else Escaped(block)
  }

  /** A segment as keep_indented leaves it. */
  function Kept(s: Segment, preformatted: Choice): seq<Line> {
    match s
    case Paragraph(lines) => Flushed(lines, preformatted)
    case Heading(line) => [line, ""]
    case Rule(line) => ["", line, ""]
    case _ => [s.line]
  }

  /** A segment as it is shown in the end. */
  function Shown(s: Segment, preformatted: Choice): seq<Line> {
    match s
    case Heading(line) => if HeadingLevel(line).Some? then [Demoted(line), ""] else [line, ""]
    case _ => Kept(s, preformatted)
  }

  function Sources(segments: seq<Segment>): seq<Line> {
    if segments == [] then [] else Source(segments[0]) + Sources(segments[1..])
  }

  function KeptAll(segments: seq<Segment>, preformatted: Choice): seq<Line> {
    if segments == [] then [] else Kept(segments[0], preformatted) + KeptAll(segments[1..], preformatted)
  }

  function ShownAll(segments: seq<Segment>, preformatted: Choice): seq<Line> {
    if segments == [] then [] else Shown(segments[0], preformatted) + ShownAll(segments[1..], preformatted)
  }

  /** The paragraph read so far, if any, as a segment. */
  function Pending(block: seq<Line>): seq<Segment> {
    if block == [] then [] else [Paragraph(block)]
  }

  /** What a line is, read with no paragraph to join; None for a paragraph's line. */
  function LineSegment(l: Line, fenced: bool): (s: Option<Segment>)
    ensures s.Some? ==> !s.value.Paragraph? && Source(s.value) == [l] && Fits(s.value, fenced)
    ensures s.None? <==> !fenced && IsText(l)
  {
    if IsFence(l) then Some(Fence(l))
    else if fenced then Some(Fenced(l))
    else if IsBlank(l) then Some(Empty(l))
    else if HeadingLevel(l).Some? then Some(Heading(l))
    else if IsRule(l) then Some(Rule(l))
    else None
  }

  /** The segments of what is left to read, the paragraph read so far first. */
  function Cut(block: seq<Line>, fenced: bool, lines: seq<Line>): seq<Segment>
    decreases |lines|
  {
    if lines == [] then Pending(block)
    else match LineSegment(lines[0], fenced)
         case Some(s) => Pending(block) + ([s] + Cut([], fenced != s.Fence?, lines[1..]))
         case None => Cut(block + [lines[0]], false, lines[1..])
  }

  function Segments(lines: seq<Line>): seq<Segment> {
    Cut([], false, lines)
  }

  // ---------------------------------------------------------------------
  // keep_indented
  // ---------------------------------------------------------------------

  lemma KeptFirst(a: seq<Segment>, b: seq<Segment>, preformatted: Choice)
    requires a != []
    ensures KeptAll(a, preformatted) == Kept(a[0], preformatted) + KeptAll(a[1..], preformatted)
    ensures KeptAll(a + b, preformatted) == Kept(a[0], preformatted) + KeptAll(a[1..] + b, preformatted)
  {
    assert (a + b)[1..] == a[1..] + b && (a + b)[0] == a[0];
  }

  lemma {:induction false} KeptConcat(a: seq<Segment>, b: seq<Segment>, preformatted: Choice)
    ensures KeptAll(a + b, preformatted) == KeptAll(a, preformatted) + KeptAll(b, preformatted)
    decreases |a|
  {
    if a == [] {
      assert a + b == b;
    } else {
      KeptConcat(a[1..], b, preformatted);
      KeptFirst(a, b, preformatted);
      Assoc(Kept(a[0], preformatted), KeptAll(a[1..], preformatted), KeptAll(b, preformatted));
    }
  }

  lemma KeptPending(block: seq<Line>, preformatted: Choice)
    ensures KeptAll(Pending(block), preformatted) == Flushed(block, preformatted)
  {
    if block != [] {
      assert Pending(block)[1..] == [];
      assert Flushed(block, preformatted) + [] == Flushed(block, preformatted);
    }
  }

  /** A paragraph flushed, then one more segment. */
  lemma KeptNext(out: seq<Line>, block: seq<Line>, s: Segment, rest: seq<Segment>, preformatted: Choice)
    ensures out + KeptAll(Pending(block) + ([s] + rest), preformatted) ==
            out + Flushed(block, preformatted) + Kept(s, preformatted) + KeptAll(rest, preformatted)
  {
    KeptConcat(Pending(block), [s] + rest, preformatted);
    KeptPending(block, preformatted);
    assert ([s] + rest)[1..] == rest;
    Regroup4(out, Flushed(block, preformatted), Kept(s, preformatted), KeptAll(rest, preformatted));
  }

  method Flush(out: seq<Line>, block: seq<Line>, preformatted: Choice) returns (out': seq<Line>)
    ensures out' == out + Flushed(block, preformatted)
  {
    if block != [] && preformatted(block) {
      out' := out + (["", FENCE] + block + [FENCE, ""]);
    } else {
      out' := out + Escaped(block);
    }
  }

  method KeepIndented(lines: seq<Line>, preformatted: Choice) returns (out: seq<Line>)
    ensures out == KeptAll(Segments(lines), preformatted)
  {
    out := [];
    var block, fenced := [], false;
    var i := 0;
    assert lines[0..] == lines;
    while i < |lines|
      invariant 0 <= i <= |lines| && (fenced ==> block == [])
      invariant out + KeptAll(Cut(block, fenced, lines[i..]), preformatted) == KeptAll(Segments(lines), preformatted)
    {
      var line := lines[i];
      assert lines[i..][0] == line && lines[i..][1..] == lines[i + 1..];
      ghost var s := LineSegment(line, fenced);
      if s.Some? {
        KeptNext(out, block, s.value, Cut([], fenced != s.value.Fence?, lines[i + 1..]), preformatted);
      }
      if IsFence(line) {
        out := Flush(out, block, preformatted);
        block := [];
        fenced := !fenced;
        out := out + [line];
      } else if fenced {
        assert out + Flushed([], preformatted) == out;
        out := out + [line];
      } else if IsBlank(line) {
        out := Flush(out, block, preformatted);
        block := [];
        out := out + [line];
      } else if HeadingLevel(line).Some? {
        out := Flush(out, block, preformatted);
        block := [];
        out := out + [line, ""];
      } else if IsRule(line) {
        out := Flush(out, block, preformatted);
        block := [];
        out := out + ["", line, ""];
      } else {
        block := block + [line];
      }
      i := i + 1;
    }
    KeptPending(block, preformatted);
    out := Flush(out, block, preformatted);
  }

  // ---------------------------------------------------------------------
  // demote_headings
  // ---------------------------------------------------------------------

  /** demote_headings from some fence state on. */
  function Demote(lines: seq<Line>, fenced: bool): (r: seq<Line>)
    ensures |r| == |lines|
  {
    if lines == [] then []
    else
      var f := fenced != IsFence(lines[0]);
      [DemoteLine(lines[0], f)] + Demote(lines[1..], f)
  }

  function DemoteLine(l: Line, fenced: bool): Line {
    if !fenced && HeadingLevel(l).Some? then Demoted(l) else l
  }

  lemma DemoteNext(out: seq<Line>, lines: seq<Line>, i: nat, fenced: bool)
    requires i < |lines|
    ensures var f := fenced != IsFence(lines[i]);
      out + Demote(lines[i..], fenced) == out + [DemoteLine(lines[i], f)] + Demote(lines[i + 1..], f)
  {
    var f := fenced != IsFence(lines[i]);
    assert lines[i..][0] == lines[i] && lines[i..][1..] == lines[i + 1..];
    Assoc(out, [DemoteLine(lines[i], f)], Demote(lines[i + 1..], f));
  }

  method DemoteHeadings(lines: seq<Line>) returns (out: seq<Line>)
    ensures out == Demote(lines, false)
  {
    out := [];
    var fenced := false;
    var i := 0;
    assert lines[0..] == lines;
    while i < |lines|
      invariant 0 <= i <= |lines|
      invariant out + Demote(lines[i..], fenced) == Demote(lines, false)
    {
      var line := lines[i];
      DemoteNext(out, lines, i, fenced);
      if IsFence(line) {
        fenced := !fenced;
      }
      var m := if fenced then None else HeadingLevel(line);
      if m.Some? {
        line := Demoted(line);
      }
      out := out + [line];
      i := i + 1;
    }
  }

  lemma {:induction false} DemoteConcat(a: seq<Line>, b: seq<Line>, fenced: bool)
    ensures Demote(a + b, fenced) == Demote(a, fenced) + Demote(b, FenceAfter(a, fenced))
    decreases |a|
  {
    if a == [] {
      assert a + b == b;
    } else {
      var f := fenced != IsFence(a[0]);
      DemoteConcat(a[1..], b, f);
      assert (a + b)[1..] == a[1..] + b && (a + b)[0] == a[0];
      Assoc([DemoteLine(a[0], f)], Demote(a[1..], f), Demote(b, FenceAfter(a, fenced)));
    }
  }

  /** Lines without fences: nothing inside a fence changes, and outside nothing but
      headings does. */
  lemma {:induction false} DemotePlain(lines: seq<Line>, fenced: bool)
    requires forall k :: 0 <= k < |lines| ==> !IsFence(lines[k])
    requires !fenced ==> forall k :: 0 <= k < |lines| ==> HeadingLevel(lines[k]).None?
    ensures Demote(lines, fenced) == lines && FenceAfter(lines, fenced) == fenced
    decreases |lines|
  {
    if lines != [] {
      DemotePlain(lines[1..], fenced);
    }
  }

  // ---------------------------------------------------------------------
  // The segments of a document
  // ---------------------------------------------------------------------

  /** A segment that can stand where it does: fenced lines inside fences, headings,
      rules and paragraphs outside, each made of lines of its kind. */
  predicate Fits(s: Segment, fenced: bool) {
    match s
    case Fence(line) => IsFence(line)
    case Fenced(line) => fenced && !IsFence(line)
    case Empty(line) => !fenced && IsBlank(line) && !IsFence(line)
    case Heading(line) => !fenced && HeadingLevel(line).Some? && !IsFence(line)
    case Rule(line) => !fenced && IsRule(line) && !IsFence(line) && HeadingLevel(line).None?
    case Paragraph(lines) => !fenced && lines != [] && forall k :: 0 <= k < |lines| ==> IsText(lines[k])
  }

  /** Every segment fits, and no paragraph is cut in two. */
  predicate WellCut(segments: seq<Segment>, fenced: bool) {
    segments == [] ||
    (&& Fits(segments[0], fenced)
     && (|segments| > 1 && segments[0].Paragraph? ==> !segments[1].Paragraph?)
     && WellCut(segments[1..], fenced != segments[0].Fence?))
  }

  lemma {:induction false} SourcesConcat(a: seq<Segment>, b: seq<Segment>)
    ensures Sources(a + b) == Sources(a) + Sources(b)
    decreases |a|
  {
    if a == [] {
      assert a + b == b;
    } else {
      SourcesConcat(a[1..], b);
      assert (a + b)[1..] == a[1..] + b;
    }
  }

  lemma SourcesNext(block: seq<Line>, s: Segment, l: Line, rest: seq<Segment>)
    requires Source(s) == [l]
    ensures Sources(Pending(block) + ([s] + rest)) == block + ([l] + Sources(rest))
  {
    SourcesConcat(Pending(block), [s] + rest);
    assert ([s] + rest)[1..] == rest;
    assert Sources(Pending(block)) == block by {
      if block != [] {
        assert Pending(block)[1..] == [];
      }
    }
  }

  /** The segments hold the document's lines, all of them and in order. */
  lemma {:induction false} CutLosesNothing(block: seq<Line>, fenced: bool, lines: seq<Line>)
    ensures Sources(Cut(block, fenced, lines)) == block + lines
    decreases |lines|
  {
    if lines == [] {
      if block != [] {
        assert Pending(block)[1..] == [];
      }
    } else {
      var l, rest := lines[0], lines[1..];
      assert lines == [l] + rest;
      var s := LineSegment(l, fenced);
      if s.Some? {
        var f := fenced != s.value.Fence?;
        CutLosesNothing([], f, rest);
        assert [] + rest == rest;
        SourcesNext(block, s.value, l, Cut([], f, rest));
      } else {
        CutLosesNothing(block + [l], false, rest);
        assert block + [l] + rest == block + ([l] + rest);
      }
    }
  }

  lemma WellCutNext(block: seq<Line>, s: Segment, rest: seq<Segment>, fenced: bool)
    requires fenced ==> block == []
    requires forall k :: 0 <= k < |block| ==> IsText(block[k])
    requires Fits(s, fenced) && !s.Paragraph? && WellCut(rest, fenced != s.Fence?)
    ensures WellCut(Pending(block) + ([s] + rest), fenced)
  {
    assert ([s] + rest)[1..] == rest;
    if block == [] {
      assert Pending(block) + ([s] + rest) == [s] + rest;
    } else {
      assert (Pending(block) + ([s] + rest))[1..] == [s] + rest;
    }
  }

  lemma {:induction false} CutIsWell(block: seq<Line>, fenced: bool, lines: seq<Line>)
    requires fenced ==> block == []
    requires forall k :: 0 <= k < |block| ==> IsText(block[k])
    ensures WellCut(Cut(block, fenced, lines), fenced)
    decreases |lines|
  {
    if lines != [] {
      var s := LineSegment(lines[0], fenced);
      if s.Some? {
        CutIsWell([], fenced != s.value.Fence?, lines[1..]);
        WellCutNext(block, s.value, Cut([], fenced != s.value.Fence?, lines[1..]), fenced);
      } else {
        CutIsWell(block + [lines[0]], false, lines[1..]);
      }
    }
  }

  // ---------------------------------------------------------------------
  // Each segment on its own
  // ---------------------------------------------------------------------

  lemma EmptyIsPlain()
    ensures !IsFence("") && HeadingLevel("").None?
  {
  }

  lemma FenceIsFence()
    ensures IsFence(FENCE) && HeadingLevel(FENCE).None?
  {
    assert FENCE[0] == '`' && !IsSpace(FENCE[0]);
  }

  lemma FenceIsNoHeading(l: Line)
    requires IsFence(l)
    ensures HeadingLevel(l).None?
  {
    assert FENCE[0] == '`';
  }

  lemma EscapedIsPlain(block: seq<Line>)
    requires forall k :: 0 <= k < |block| ==> IsText(block[k])
    ensures forall k :: 0 <= k < |block| ==> !IsFence(Escaped(block)[k]) && HeadingLevel(Escaped(block)[k]).None?
  {
    forall k | 0 <= k < |block|
      ensures !IsFence(Escaped(block)[k]) && HeadingLevel(Escaped(block)[k]).None?
    {
      EscapedTextIsPlain(block[k]);
    }
  }

  /** Two lines that are no headings stay as they are. */
  lemma DemotePair(a: Line, b: Line, fenced: bool)
    requires HeadingLevel(a).None? && HeadingLevel(b).None?
    ensures Demote([a, b], fenced) == [a, b]
    ensures FenceAfter([a, b], fenced) == ((fenced != IsFence(a)) != IsFence(b))
  {
    assert [a, b][1..] == [b] && [b][1..] == [];
    assert FenceAfter([b], fenced != IsFence(a)) == ((fenced != IsFence(a)) != IsFence(b));
  }

  lemma ParagraphShown(block: seq<Line>, preformatted: Choice)
    requires forall k :: 0 <= k < |block| ==> IsText(block[k])
    ensures Demote(Flushed(block, preformatted), false) == Flushed(block, preformatted)
    ensures !FenceAfter(Flushed(block, preformatted), false)
  {
    if block != [] && preformatted(block) {
      EmptyIsPlain();
      FenceIsFence();
      var open, close := ["", FENCE], [FENCE, ""];
      DemotePlain(block, true);
      DemotePair("", FENCE, false);
      DemotePair(FENCE, "", true);
      DemoteConcat(open, block + close, false);
      DemoteConcat(block, close, true);
      QuietConcat(open, block + close, false);
      QuietConcat(block, close, true);
      assert open + block + close == open + (block + close);
    } else {
      EscapedIsPlain(block);
      DemotePlain(Escaped(block), false);
    }
  }

  /** A fitting segment, read where it stands: demoting shows it, and it leaves open
      exactly the fence it opened in the document. */
  lemma SegmentShown(s: Segment, fenced: bool, preformatted: Choice)
    requires Fits(s, fenced)
    ensures Demote(Kept(s, preformatted), fenced) == Shown(s, preformatted)
    ensures FenceAfter(Kept(s, preformatted), fenced) == (fenced != s.Fence?)
  {
    EmptyIsPlain();
    match s {
      case Fence(line) =>
        FenceIsNoHeading(line);
        assert [line][1..] == [];
      case Fenced(line) =>
        DemotePlain([line], true);
      case Empty(line) =>
        assert line == "" || IsSpace(line[0]);
        DemotePlain([line], false);
      case Heading(line) =>
        assert [line, ""][1..] == [""] && [""][1..] == [];
      case Rule(line) =>
        DemotePlain(["", line, ""], false);
      case Paragraph(lines) =>
        ParagraphShown(lines, preformatted);
    }
  }

  lemma {:induction false} AllShown(segments: seq<Segment>, fenced: bool, preformatted: Choice)
    requires WellCut(segments, fenced)
    ensures Demote(KeptAll(segments, preformatted), fenced) == ShownAll(segments, preformatted)
    decreases |segments|
  {
    if segments != [] {
      var s, rest := segments[0], segments[1..];
      SegmentShown(s, fenced, preformatted);
      AllShown(rest, fenced != s.Fence?, preformatted);
      DemoteConcat(Kept(s, preformatted), KeptAll(rest, preformatted), fenced);
    }
  }

  // ---------------------------------------------------------------------
  // The main results
  // ---------------------------------------------------------------------

  /** Main result: every document is its segments in order, and what is shown is each
      segment shown on its own: fences and fenced lines as they are, headings demoted
      with an empty line after, rules between empty lines, and each paragraph either
      whole inside one fence pair or with its names escaped. */
  lemma DocumentIsShownBySegments(lines: seq<Line>, preformatted: Choice)
    ensures Sources(Segments(lines)) == lines
    ensures WellCut(Segments(lines), false)
    ensures Demote(KeptAll(Segments(lines), preformatted), false) == ShownAll(Segments(lines), preformatted)
  {
    CutLosesNothing([], false, lines);
    assert [] + lines == lines;
    CutIsWell([], false, lines);
    AllShown(Segments(lines), false, preformatted);
  }

  lemma ShownFence(s: Segment, fenced: bool, preformatted: Choice)
    requires Fits(s, fenced)
    ensures FenceAfter(Shown(s, preformatted), fenced) == FenceAfter(Source(s), fenced) == (fenced != s.Fence?)
  {
    SegmentShown(s, fenced, preformatted);
    match s {
      case Paragraph(lines) =>
        ParagraphShown(lines, preformatted);
        PlainFence(lines, fenced);
      case Heading(line) =>
        DemotedIsNoFence(line);
        assert Shown(s, preformatted)[1..] == [""];
        assert [""][1..] == [] && [line][1..] == [];
      case _ =>
        assert [s.line][1..] == [];
    }
  }

  lemma {:induction false} PlainFence(lines: seq<Line>, fenced: bool)
    requires forall k :: 0 <= k < |lines| ==> IsText(lines[k])
    ensures FenceAfter(lines, fenced) == fenced
    decreases |lines|
  {
    if lines != [] {
      PlainFence(lines[1..], fenced);
    }
  }

  lemma DemotedIsNoFence(l: Line)
    requires HeadingLevel(l).Some?
    ensures !IsFence(Demoted(l))
  {
    assert Demoted(l)[0] == '#';
    assert LStrip(Demoted(l)) == Demoted(l);
    assert FENCE[0] == '`';
  }

  /** Main result: a document fence is open before a segment in what is shown exactly
      when it is open there in the document, so fenced lines, which are shown as they
      are, are still fenced. */
  lemma {:induction false} FencesStayInPlace(segments: seq<Segment>, fenced: bool, k: nat, preformatted: Choice)
    requires WellCut(segments, fenced) && k <= |segments|
    ensures FenceAfter(ShownAll(segments[..k], preformatted), fenced) == FenceAfter(Sources(segments[..k]), fenced)
    ensures k < |segments| ==> Fits(segments[k], FenceAfter(Sources(segments[..k]), fenced))
    decreases k
  {
    if k > 0 {
      var s, rest := segments[0], segments[1..];
      FencesStayInPlace(rest, fenced != s.Fence?, k - 1, preformatted);
      assert segments[..k] == [s] + rest[..k - 1];
      FenceNext(s, rest[..k - 1], fenced, preformatted);
    }
  }

  lemma FenceNext(s: Segment, rest: seq<Segment>, fenced: bool, preformatted: Choice)
    requires Fits(s, fenced)
    ensures FenceAfter(ShownAll([s] + rest, preformatted), fenced) ==
            FenceAfter(ShownAll(rest, preformatted), fenced != s.Fence?)
    ensures FenceAfter(Sources([s] + rest), fenced) == FenceAfter(Sources(rest), fenced != s.Fence?)
  {
    assert ([s] + rest)[1..] == rest;
    ShownFence(s, fenced, preformatted);
    QuietConcat(Shown(s, preformatted), ShownAll(rest, preformatted), fenced);
    QuietConcat(Source(s), Sources(rest), fenced);
  }
}
