/** What showing a planning document keeps, tools/mkdocs_showcase.py: taking back the
    added lines, the escapes and the demotion gives the document again, exactly when
    nothing in it looks escaped already and no heading is deeper than level 4. */
module SpecReadBack {
  import opened Text
  import opened UnitPage
  import opened SpecDocument
  import opened SpecNames
  import opened SpecSegments

  // ---------------------------------------------------------------------
  // Headings
  // ---------------------------------------------------------------------

  /** A heading two levels higher. */
  function Promoted(l: Line): Line {
    if HeadingLevel(l).Some? && HeadingLevel(l).value > DEMOTE
    then Repeat('#', HeadingLevel(l).value - DEMOTE) + l[HeadingLevel(l).value..]
    else l
  }

  lemma {:induction false} HashesOf(n: nat, rest: string)
    requires rest != [] && rest[0] != '#'
    ensures Hashes(Repeat('#', n) + rest) == n
    decreases n
  {
    var l := Repeat('#', n) + rest;
    if n == 0 {
      assert l == rest;
    } else {
      HashesOf(n - 1, rest);
      assert l[0] == '#' && l[1..] == Repeat('#', n - 1) + rest;
    }
  }

  /** A heading's level comes back exactly when it was at most 4. */
  lemma DemotionTakenBack(l: Line)
    requires HeadingLevel(l).Some?
    ensures Promoted(Demoted(l)) == l <==> HeadingLevel(l).value + DEMOTE <= 6
  {
    var n := HeadingLevel(l).value;
    var m := if n + DEMOTE < 6 then n + DEMOTE else 6;
    var d := Demoted(l);
    HashesOf(m, l[n..]);
    assert HeadingLevel(d) == Some(m) && d[m..] == l[n..];
    assert l[..n] == Repeat('#', n) && l == l[..n] + l[n..];
    assert |Promoted(d)| == m - DEMOTE + |l| - n;
  }

  // ---------------------------------------------------------------------
  // Segments and documents
  // ---------------------------------------------------------------------

  datatype Kind = PlainKind | HeadingKind | RuleKind | ParagraphKind

  function KindOf(s: Segment): Kind {
    match s
    case Heading(_) => HeadingKind
    case Rule(_) => RuleKind
    case Paragraph(_) => ParagraphKind
    case _ => PlainKind
  }

  function Unescaped(lines: seq<Line>): (r: seq<Line>)
    ensures |r| == |lines|
  {
    seq(|lines|, k requires 0 <= k < |lines| => if Indent(lines[k]) < 4 then UnescapeNames(lines[k]) else lines[k])
  }

  /** What was shown with the added lines, the escapes and the demotion taken back,
      from the kind of segment alone. */
  function Undone(kind: Kind, shown: seq<Line>): seq<Line> {
    match kind
    case PlainKind => shown
    case HeadingKind => if shown == [] then [] else [Promoted(shown[0])]
    case RuleKind => if |shown| < 2 then [] else [shown[1]]
    case ParagraphKind =>
      if |shown| >= 4 && shown[0] == "" then shown[2..|shown| - 2] else Unescaped(shown)
  }

  function UndoneAll(segments: seq<Segment>, preformatted: Choice): seq<Line> {
    if segments == [] then []
    else Undone(KindOf(segments[0]), Shown(segments[0], preformatted)) + UndoneAll(segments[1..], preformatted)
  }

  /** A heading of at most level 4; a paragraph that is fenced, or whose escaped lines
      did not look escaped already. */
  predicate Recoverable(s: Segment, preformatted: Choice) {
    match s
    case Heading(line) => HeadingLevel(line).Some? ==> HeadingLevel(line).value + DEMOTE <= 6
    case Paragraph(lines) =>
      preformatted(lines) || forall k :: 0 <= k < |lines| && Indent(lines[k]) < 4 ==> !LineLooksEscaped(lines[k])
    case _ => true
  }

  lemma EscapedTakenBack(lines: seq<Line>)
    ensures Unescaped(Escaped(lines)) == lines <==>
      forall k :: 0 <= k < |lines| && Indent(lines[k]) < 4 ==> !LineLooksEscaped(lines[k])
  {
    var back := Unescaped(Escaped(lines));
    forall k | 0 <= k < |lines|
      ensures back[k] == lines[k] <==> (Indent(lines[k]) < 4 ==> !LineLooksEscaped(lines[k]))
    {
      NamesTakenBack(lines[k]);
      NamesKeepIndent(lines[k]);
    }
  }

  lemma EscapedNotEmpty(lines: seq<Line>)
    requires lines != [] && IsText(lines[0])
    ensures Escaped(lines)[0] != ""
  {
    var l := lines[0];
    JoinOfSplit(l, '`');
    PartsSame(Split(l, '`'), true);
    LStripSame(l, EscapeNames(l));
  }

  lemma FencedTakenBack(lines: seq<Line>)
    ensures Undone(ParagraphKind, ["", FENCE] + lines + [FENCE, ""]) == lines
  {
    var shown := ["", FENCE] + lines + [FENCE, ""];
    assert shown[2..|shown| - 2] == lines;
  }

  lemma EscapedParagraphTakenBack(lines: seq<Line>)
    requires lines != [] && IsText(lines[0])
    ensures Undone(ParagraphKind, Escaped(lines)) == Unescaped(Escaped(lines))
  {
    EscapedNotEmpty(lines);
  }

  lemma ParagraphReadBack(lines: seq<Line>, preformatted: Choice)
    requires lines != [] && forall k :: 0 <= k < |lines| ==> IsText(lines[k])
    ensures var back := Undone(ParagraphKind, Flushed(lines, preformatted));
      && |back| == |lines|
      && (back == lines <==> Recoverable(Paragraph(lines), preformatted))
  {
    if preformatted(lines) {
      FencedTakenBack(lines);
    } else {
      EscapedParagraphTakenBack(lines);
      EscapedTakenBack(lines);
    }
  }

  /** A segment comes back exactly when it is recoverable. */
  lemma SegmentReadBack(s: Segment, fenced: bool, preformatted: Choice)
    requires Fits(s, fenced)
    ensures var back := Undone(KindOf(s), Shown(s, preformatted));
      && |back| == |Source(s)|
      && (back == Source(s) <==> Recoverable(s, preformatted))
  {
    match s {
      case Heading(line) => DemotionTakenBack(line);
      case Paragraph(lines) => ParagraphReadBack(lines, preformatted);
      case _ =>
    }
  }

  lemma {:induction false} SegmentsReadBack(segments: seq<Segment>, fenced: bool, preformatted: Choice)
    requires WellCut(segments, fenced)
    ensures UndoneAll(segments, preformatted) == Sources(segments) <==>
      forall k :: 0 <= k < |segments| ==> Recoverable(segments[k], preformatted)
    decreases |segments|
  {
    if segments != [] {
      var s, rest := segments[0], segments[1..];
      SegmentReadBack(s, fenced, preformatted);
      SegmentsReadBack(rest, fenced != s.Fence?, preformatted);
      SameParts(Undone(KindOf(s), Shown(s, preformatted)), UndoneAll(rest, preformatted), Source(s), Sources(rest));
      assert forall k :: 0 < k < |segments| ==> segments[k] == rest[k - 1];
      assert forall k :: 0 <= k < |rest| ==> rest[k] == segments[k + 1];
    }
  }

  /** Main result: what is shown, with the added lines, the escapes and the demotion
      taken back, is the document again exactly when no heading is deeper than level 4
      and no escaped line looked escaped already. */
  lemma DocumentReadBack(lines: seq<Line>, preformatted: Choice)
    ensures UndoneAll(Segments(lines), preformatted) == lines <==>
      forall k :: 0 <= k < |Segments(lines)| ==> Recoverable(Segments(lines)[k], preformatted)
  {
    CutLosesNothing([], false, lines);
    assert [] + lines == lines;
    CutIsWell([], false, lines);
    SegmentsReadBack(Segments(lines), false, preformatted);
  }

  /** Headings of levels 5 and 6 are shown alike, so that nothing could tell them apart. */
  lemma HeadingsShownAlike(rest: string)
    requires rest != [] && IsSpace(rest[0])
    ensures var five, six := Repeat('#', 5) + rest, Repeat('#', 6) + rest;
      && HeadingLevel(five) == Some(5) && HeadingLevel(six) == Some(6)
      && Demoted(five) == Demoted(six)
  {
    HashesOf(5, rest);
    HashesOf(6, rest);
    assert (Repeat('#', 5) + rest)[5..] == rest;
    assert (Repeat('#', 6) + rest)[6..] == rest;
  }
}
