/** Rendering a unit page keeps its headings and its written text, and rendering it
    again changes nothing. */
module UnitIdempotence {
  import opened Text
  import opened UnitPage
  import opened UnitRender
  import opened UnitWritten

  // ---------------------------------------------------------------------
  // The rendered page, split again
  // ---------------------------------------------------------------------

  function Gap1(more: bool): seq<Line> {
    if more then [""] else []
  }

  /** A section as it stands in the rendered page; the empty line before the next
      heading belongs to it. */
  function Respace(heads: Heads, s: Section, more: bool): Section {
    s.(lines := Gapped(Content(heads, s)) + Gap1(more))
  }

  function RespaceAll(heads: Heads, sections: seq<Section>): (r: seq<Section>)
    ensures |r| == |sections|
  {
    if sections == [] then []
    else [Respace(heads, sections[0], |sections| > 1)] + RespaceAll(heads, sections[1..])
  }

  lemma {:induction false} RespaceAt(heads: Heads, sections: seq<Section>, k: nat)
    requires k < |sections|
    ensures RespaceAll(heads, sections)[k] == Respace(heads, sections[k], k + 1 < |sections|)
    decreases |sections|
  {
    if k > 0 {
      RespaceAt(heads, sections[1..], k - 1);
    }
  }

  lemma GappedPads(part: seq<Line>, more: bool)
    ensures Padded(Gapped(part) + Gap1(more), part)
  {
    var i, j := if part == [] then 0 else 1, if more then 1 else 0;
    assert Empties(1) == [""] && Empties(0) == [];
    assert Gapped(part) + Gap1(more) == Empties(i) + part + Empties(j);
    assert PaddedBy(Gapped(part) + Gap1(more), part, i, j);
  }

  lemma {:induction false} RenderCons(heads: Heads, sections: seq<Section>)
    requires sections != []
    ensures RenderSections(heads, sections) == RenderOne(heads, sections[0]) + RenderSections(heads, sections[1..])
    decreases |sections|
  {
    var front, tail := sections[..|sections| - 1], sections[1..];
    if |sections| == 1 {
      assert front == [] && tail == [];
      assert RenderSections(heads, front) == [];
    } else {
      RenderCons(heads, front);
      assert tail[..|tail| - 1] == front[1..];
      Assoc(RenderOne(heads, sections[0]), RenderSections(heads, front[1..]),
            RenderOne(heads, sections[|sections| - 1]));
    }
  }

  lemma {:induction false} RenderIsAssembled(heads: Heads, sections: seq<Section>)
    requires sections != []
    ensures RenderSections(heads, sections) == [""] + Assemble(RespaceAll(heads, sections))
    decreases |sections|
  {
    var s, rest := sections[0], sections[1..];
    RenderCons(heads, sections);
    AssembleCons(Respace(heads, s, rest != []), RespaceAll(heads, rest));
    if rest != [] {
      RenderIsAssembled(heads, rest);
    }
    Regroup(s.line, Gapped(Content(heads, s)), Assemble(RespaceAll(heads, rest)));
  }

  lemma Regroup(line: Line, body: seq<Line>, tail: seq<Line>)
    ensures [""] + [line] + body + ([""] + tail) == [""] + ([line] + (body + [""]) + tail)
    ensures tail == [] ==> [""] + [line] + body + [] == [""] + ([line] + (body + []) + tail)
  {
  }

  /** What is rendered under a heading holds no heading, and leaves no fence open
      when another heading follows. */
  lemma ContentQuiet(heads: Heads, s: Section, rest: seq<Section>)
    requires BlocksKeepable(heads) && WellSplit(s.lines, rest, false)
    ensures Quiet(Content(heads, s), false)
    ensures rest != [] ==> !FenceAfter(Content(heads, s), false)
  {
    if !(s.name in heads && IsEmptyBody(s.lines)) {
      TrimPads(s.lines);
      PaddedQuiet(s.lines, Trim(s.lines), false);
    }
  }

  lemma {:induction false} RespacedIsWell(heads: Heads, text: seq<Line>, part: seq<Line>, sections: seq<Section>)
    requires BlocksKeepable(heads) && WellSplit(text, sections, false)
    requires Quiet(part, false) && (sections != [] ==> !FenceAfter(part, false))
    ensures WellSplit(Gapped(part) + Gap1(sections != []), RespaceAll(heads, sections), false)
    decreases |sections|
  {
    GappedPads(part, sections != []);
    PaddedQuiet(Gapped(part) + Gap1(sections != []), part, false);
    if sections != [] {
      var s, rest := sections[0], sections[1..];
      ContentQuiet(heads, s, rest);
      RespacedIsWell(heads, s.lines, Content(heads, s), rest);
      var all := RespaceAll(heads, sections);
      assert all[1..] == RespaceAll(heads, rest);
    }
  }

  lemma PrefaceQuiet(pre: seq<Line>, sections: seq<Section>)
    requires WellSplit(pre, sections, false)
    ensures Quiet(Preface(pre), false) && (sections != [] ==> !FenceAfter(Preface(pre), false))
  {
    TrimPads(pre);
    PaddedQuiet(pre, Trim(pre), false);
  }

  /** The text before the first heading, as it stands in the rendered page. */
  function RespacePreface(pre: seq<Line>, sections: seq<Section>): seq<Line> {
    Gapped(Preface(pre)) + Gap1(sections != [])
  }

  lemma BelowIsAssembled(heads: Heads, pre: seq<Line>, sections: seq<Section>)
    ensures Gapped(Preface(pre)) + RenderSections(heads, sections) ==
            RespacePreface(pre, sections) + Assemble(RespaceAll(heads, sections))
  {
    if sections != [] {
      RenderIsAssembled(heads, sections);
      Assoc(Gapped(Preface(pre)), [""], Assemble(RespaceAll(heads, sections)));
    }
  }

  /** Below the title of the rendered page stand the same headings with their
      rendered text. */
  lemma BelowSplits(heads: Heads, pre: seq<Line>, sections: seq<Section>)
    requires BlocksKeepable(heads) && WellSplit(pre, sections, false)
    ensures SplitBody(Gapped(Preface(pre)) + RenderSections(heads, sections), false) ==
            (RespacePreface(pre, sections), RespaceAll(heads, sections))
  {
    PrefaceQuiet(pre, sections);
    RespacedIsWell(heads, pre, Preface(pre), sections);
    SplitOfAssembled(RespacePreface(pre, sections), RespaceAll(heads, sections), false);
    BelowIsAssembled(heads, pre, sections);
  }

  lemma WellSplitOf(body: seq<Line>, pre: seq<Line>, sections: seq<Section>)
    requires SplitBody(body, false) == (pre, sections)
    ensures WellSplit(pre, sections, false)
  {
    SplitIsWell(body, false);
  }

  /** The rendered page's title is where it was. */
  lemma RenderedSplits(page: seq<Line>, heads: Heads, t: nat, pre: seq<Line>, sections: seq<Section>)
    requires TitleAt(page, false) == Some(t) && SplitBody(page[t + 1..], false) == (pre, sections)
    requires BlocksKeepable(heads)
    ensures var lines := Render(page, heads).lines;
      && TitleAt(lines, false) == Some(t)
      && lines[..t + 1] == page[..t + 1]
      && SplitBody(lines[t + 1..], false) == (RespacePreface(pre, sections), RespaceAll(heads, sections))
  {
    RenderedLines(page, heads, t, pre, sections);
    WellSplitOf(page[t + 1..], pre, sections);
    SplitsAgain(page, Render(page, heads).lines, t, heads, pre, sections);
  }

  lemma SplitsAgain(page: seq<Line>, lines: seq<Line>, t: nat, heads: Heads, pre: seq<Line>, sections: seq<Section>)
    requires TitleAt(page, false) == Some(t)
    requires BlocksKeepable(heads) && WellSplit(pre, sections, false)
    requires lines == page[..t + 1] + (Gapped(Preface(pre)) + RenderSections(heads, sections))
    ensures TitleAt(lines, false) == Some(t) && lines[..t + 1] == page[..t + 1]
    ensures SplitBody(lines[t + 1..], false) == (RespacePreface(pre, sections), RespaceAll(heads, sections))
  {
    BelowTitle(page, t, Gapped(Preface(pre)) + RenderSections(heads, sections));
    BelowSplits(heads, pre, sections);
  }

  lemma RenderedLines(page: seq<Line>, heads: Heads, t: nat, pre: seq<Line>, sections: seq<Section>)
    requires TitleAt(page, false) == Some(t) && SplitBody(page[t + 1..], false) == (pre, sections)
    ensures Render(page, heads).lines == page[..t + 1] + (Gapped(Preface(pre)) + RenderSections(heads, sections))
  {
    RenderOf(page, heads, t, pre, sections);
    PartsLines(page[..t + 1], heads, pre, sections);
  }

  lemma PartsLines(head: seq<Line>, heads: Heads, pre: seq<Line>, sections: seq<Section>)
    ensures RenderParts(head, heads, pre, sections).lines ==
            head + (Gapped(Preface(pre)) + RenderSections(heads, sections))
  {
    Assoc(head, Gapped(Preface(pre)), RenderSections(heads, sections));
  }

  lemma BelowTitle(page: seq<Line>, t: nat, below: seq<Line>)
    requires TitleAt(page, false) == Some(t)
    ensures TitleAt(page[..t + 1] + below, false) == Some(t)
    ensures (page[..t + 1] + below)[..t + 1] == page[..t + 1] && (page[..t + 1] + below)[t + 1..] == below
  {
    TitleDecidedByHead(page, false, below);
  }

  // ---------------------------------------------------------------------
  // Reading a rendered section again
  // ---------------------------------------------------------------------

  lemma {:induction false} SpaceIsBlank(s: string)
    requires forall k :: 0 <= k < |s| ==> IsSpace(s[k])
    ensures BlankButBlocks(s)
    decreases |s|
  {
    if s != [] {
      assert !StartsWith(s, BLOCK_START) by {
        assert !IsSpace(BLOCK_START[0]);
      }
      SpaceIsBlank(s[1..]);
    }
  }

  lemma {:induction false} LStripBlank(s: string)
    requires LStrip(s) == ""
    ensures forall k :: 0 <= k < |s| ==> IsSpace(s[k])
    decreases |s|
  {
    if s != [] {
      LStripBlank(s[1..]);
      assert forall k :: 0 < k < |s| ==> s[k] == s[1..][k - 1];
    }
  }

  lemma {:induction false} BlankChars(lines: seq<Line>)
    requires Blank(lines)
    ensures forall k :: 0 <= k < |Chars(lines)| ==> IsSpace(Chars(lines)[k])
    decreases |lines|
  {
    if lines != [] {
      LStripBlank(lines[0]);
      BlankChars(lines[1..]);
    }
  }

  /** Two sections the renderer treats alike. */
  ghost predicate Alike(heads: Heads, a: Section, b: Section) {
    && a.level == b.level && a.name == b.name && a.line == b.line
    && Content(heads, a) == Content(heads, b)
    && IsEmptyBody(a.lines) == IsEmptyBody(b.lines)
    && (a.name !in heads ==> Blank(a.lines) == Blank(b.lines))
  }

  lemma RespacedAlike(heads: Heads, s: Section, more: bool)
    requires BlocksKeepable(heads)
    ensures Alike(heads, Respace(heads, s, more), s)
    ensures Trim(Respace(heads, s, more).lines) == Content(heads, s)
  {
    var c, s' := Content(heads, s), Respace(heads, s, more);
    GappedPads(c, more);
    PaddedQuiet(s'.lines, c, false);
    PaddedEmptyBody(s'.lines, c);
    if !(s.name in heads && IsEmptyBody(s.lines)) {
      TrimPads(s.lines);
      PaddedQuiet(s.lines, Trim(s.lines), false);
      PaddedEmptyBody(s.lines, Trim(s.lines));
      if Blank(s.lines) {
        BlankChars(s.lines);
        SpaceIsBlank(Chars(s.lines));
      }
    }
    TrimOfPadded(s'.lines, c);
  }

  ghost predicate AllAlike(heads: Heads, a: seq<Section>, b: seq<Section>) {
    |a| == |b| && forall k :: 0 <= k < |a| ==> Alike(heads, a[k], b[k])
  }

  lemma {:induction false} AlikeRender(heads: Heads, a: seq<Section>, b: seq<Section>)
    requires AllAlike(heads, a, b)
    ensures RenderSections(heads, a) == RenderSections(heads, b)
    ensures Skipped(heads, a) == Skipped(heads, b)
    decreases |a|
  {
    if a != [] {
      assert Alike(heads, a[|a| - 1], b[|b| - 1]);
      AlikeRender(heads, a[..|a| - 1], b[..|b| - 1]);
    }
  }

  lemma AlikeGroup(heads: Heads, a: seq<Section>, b: seq<Section>, i: nat)
    requires |a| == |b| && i < |a| && Blank(a[i].lines) == Blank(b[i].lines)
    requires a[i].level == b[i].level && (i + 1 < |a| ==> a[i + 1].level == b[i + 1].level)
    ensures IsGroup(a, i) == IsGroup(b, i)
  {
  }

  lemma AlikeAt(heads: Heads, a: seq<Section>, b: seq<Section>, i: nat)
    requires AllAlike(heads, a, b) && i < |a|
    ensures IsUnlisted(heads, a, i) == IsUnlisted(heads, b, i) && a[i].name == b[i].name
  {
    assert Alike(heads, a[i], b[i]);
    assert i + 1 < |a| ==> Alike(heads, a[i + 1], b[i + 1]);
    if a[i].name !in heads {
      AlikeGroup(heads, a, b, i);
    }
  }

  ghost predicate SameUnlisted(heads: Heads, a: seq<Section>, b: seq<Section>) {
    && |a| == |b|
    && forall i :: 0 <= i < |a| ==> IsUnlisted(heads, a, i) == IsUnlisted(heads, b, i) && a[i].name == b[i].name
  }

  lemma AlikeSameUnlisted(heads: Heads, a: seq<Section>, b: seq<Section>)
    requires AllAlike(heads, a, b)
    ensures SameUnlisted(heads, a, b)
  {
    forall i | 0 <= i < |a|
      ensures IsUnlisted(heads, a, i) == IsUnlisted(heads, b, i) && a[i].name == b[i].name
    {
      AlikeAt(heads, a, b, i);
    }
  }

  lemma {:induction false} UnlistedAlike(heads: Heads, a: seq<Section>, b: seq<Section>, k: nat)
    requires SameUnlisted(heads, a, b) && k <= |a|
    ensures Unlisted(heads, a, k) == Unlisted(heads, b, k)
    decreases k
  {
    if k > 0 {
      UnlistedAlike(heads, a, b, k - 1);
      UnlistedNext(heads, a, b, k - 1);
    }
  }

  lemma UnlistedNext(heads: Heads, a: seq<Section>, b: seq<Section>, k: nat)
    requires k < |a| && k < |b| && Unlisted(heads, a, k) == Unlisted(heads, b, k)
    requires IsUnlisted(heads, a, k) == IsUnlisted(heads, b, k) && a[k].name == b[k].name
    ensures Unlisted(heads, a, k + 1) == Unlisted(heads, b, k + 1)
  {
  }

  lemma PrefaceAgain(pre: seq<Line>, sections: seq<Section>)
    ensures Preface(RespacePreface(pre, sections)) == Preface(pre)
    ensures Trim(RespacePreface(pre, sections)) == Preface(pre)
  {
    var p := Preface(pre);
    TrimPads(pre);
    PaddedQuiet(pre, Trim(pre), false);
    GappedPads(p, sections != []);
    PaddedQuiet(RespacePreface(pre, sections), p, false);
    TrimOfPadded(RespacePreface(pre, sections), p);
  }

  lemma RespacedAllAlike(heads: Heads, sections: seq<Section>)
    requires BlocksKeepable(heads)
    ensures AllAlike(heads, RespaceAll(heads, sections), sections)
  {
    forall k | 0 <= k < |sections|
      ensures Alike(heads, RespaceAll(heads, sections)[k], sections[k])
    {
      RespaceAt(heads, sections, k);
      RespacedAlike(heads, sections[k], k + 1 < |sections|);
    }
  }

  lemma PartsAgain(head: seq<Line>, heads: Heads, pre: seq<Line>, sections: seq<Section>)
    requires BlocksKeepable(heads)
    ensures RenderParts(head, heads, RespacePreface(pre, sections), RespaceAll(heads, sections)) ==
            RenderParts(head, heads, pre, sections)
  {
    PrefaceAgain(pre, sections);
    RespacedAllAlike(heads, sections);
    AlikeRender(heads, RespaceAll(heads, sections), sections);
    AlikeSameUnlisted(heads, RespaceAll(heads, sections), sections);
    UnlistedAlike(heads, RespaceAll(heads, sections), sections, |sections|);
  }

  // ---------------------------------------------------------------------
  // The main results
  // ---------------------------------------------------------------------

  /** Main result: rendering a rendered page changes nothing, whatever the page holds
      below its title, and reports the same headings as skipped and as unlisted. */
  lemma RenderIsIdempotent(page: seq<Line>, heads: Heads)
    requires TitleAt(page, false).Some? && BlocksKeepable(heads)
    ensures var r := Render(page, heads);
      TitleAt(r.lines, false).Some? && Render(r.lines, heads) == r
  {
    var t := TitleAt(page, false).value;
    var (pre, sections) := SplitBody(page[t + 1..], false);
    RenderedSplits(page, heads, t, pre, sections);
    RenderOf(page, heads, t, pre, sections);
    RenderOf(Render(page, heads).lines, heads, t, RespacePreface(pre, sections), RespaceAll(heads, sections));
    PartsAgain(page[..t + 1], heads, pre, sections);
  }

  /** What a section's text becomes: a listed heading whose text is empty but for
      blocks gets its block, any other written text stays up to empty lines around it;
      so does all that has a line outside the blocks. */
  ghost predicate TextKept(heads: Heads, before: Section, after: Section) {
    && after.line == before.line
    && (if before.name in heads && IsEmptyBody(before.lines) then Trim(after.lines) == heads[before.name].block
        else !Blank(before.lines) ==> Trim(after.lines) == Trim(before.lines))
    && (IsWritten(before.lines) ==>
          && Trim(after.lines) == Trim(before.lines)
          && forall l :: l in before.lines && l != "" ==> l in after.lines)
  }

  /** Main result: rendering keeps the page's head, its headings in order, and every
      written text. */
  lemma RenderKeepsWriting(page: seq<Line>, heads: Heads, t: nat, pre: seq<Line>, sections: seq<Section>)
    requires TitleAt(page, false) == Some(t) && SplitBody(page[t + 1..], false) == (pre, sections)
    requires BlocksKeepable(heads)
    ensures var lines := Render(page, heads).lines;
      && TitleAt(lines, false) == Some(t)
      && lines[..t + 1] == page[..t + 1]
      && AllKept(heads, pre, sections, SplitBody(lines[t + 1..], false))
  {
    RenderedSplits(page, heads, t, pre, sections);
    PartsKept(heads, pre, sections);
  }

  /** The same preface, unless it is blank, and the same headings with their text kept. */
  ghost predicate AllKept(heads: Heads, pre: seq<Line>, sections: seq<Section>, after: (seq<Line>, seq<Section>)) {
    && (!Blank(pre) ==> Trim(after.0) == Trim(pre))
    && |after.1| == |sections|
    && forall k :: 0 <= k < |sections| ==> TextKept(heads, sections[k], after.1[k])
  }

  lemma PartsKept(heads: Heads, pre: seq<Line>, sections: seq<Section>)
    requires BlocksKeepable(heads)
    ensures AllKept(heads, pre, sections, (RespacePreface(pre, sections), RespaceAll(heads, sections)))
  {
    PrefaceAgain(pre, sections);
    forall k | 0 <= k < |sections|
      ensures TextKept(heads, sections[k], RespaceAll(heads, sections)[k])
    {
      RespaceAt(heads, sections, k);
      RespacedAlike(heads, sections[k], k + 1 < |sections|);
      if IsWritten(sections[k].lines) {
        WrittenIsText(sections[k].lines);
        LinesStay(sections[k].lines, RespaceAll(heads, sections)[k].lines);
      }
    }
  }

  lemma LinesStay(before: seq<Line>, after: seq<Line>)
    requires Trim(after) == Trim(before)
    ensures forall l :: l in before && l != "" ==> l in after
  {
    TrimPads(before);
    TrimPads(after);
    PaddedHolds(before, Trim(before));
    PaddedHolds(after, Trim(after));
  }

  lemma PaddedHolds(lines: seq<Line>, inner: seq<Line>)
    requires Padded(lines, inner)
    ensures forall l :: l in inner ==> l in lines
    ensures forall l :: l in lines && l != "" ==> l in inner
  {
    var i, j :| 0 <= i && 0 <= j && PaddedBy(lines, inner, i, j);
    forall l | l in Empties(i) || l in Empties(j)
      ensures l == ""
    {
    }
    assert forall l :: l in lines <==> l in Empties(i) || l in inner || l in Empties(j);
  }

  // ---------------------------------------------------------------------
  // The rendered text
  // ---------------------------------------------------------------------

  predicate OneLines(lines: seq<Line>) {
    forall k :: 0 <= k < |lines| ==> '\n' !in lines[k]
  }

  predicate SectionsOneLine(sections: seq<Section>) {
    forall k :: 0 <= k < |sections| ==> '\n' !in sections[k].line && OneLines(sections[k].lines)
  }

  lemma OneLinesConcat(a: seq<Line>, b: seq<Line>)
    ensures OneLines(a + b) <==> OneLines(a) && OneLines(b)
  {
    assert forall k :: 0 <= k < |a| ==> (a + b)[k] == a[k];
    assert forall k :: 0 <= k < |b| ==> (a + b)[|a| + k] == b[k];
  }

  lemma {:induction false} AssembledOneLine(sections: seq<Section>)
    requires OneLines(Assemble(sections))
    ensures SectionsOneLine(sections)
    decreases |sections|
  {
    if sections != [] {
      var s := sections[0];
      OneLinesConcat([s.line] + s.lines, Assemble(sections[1..]));
      OneLinesConcat([s.line], s.lines);
      assert [s.line][0] == s.line;
      AssembledOneLine(sections[1..]);
      assert forall k :: 0 < k < |sections| ==> sections[k] == sections[1..][k - 1];
    }
  }

  lemma TrimOneLine(lines: seq<Line>)
    requires OneLines(lines)
    ensures OneLines(Trim(lines))
  {
    TrimPads(lines);
    var inner := Trim(lines);
    var i, j :| PaddedBy(lines, inner, i, j);
    OneLinesConcat(Empties(i) + inner, Empties(j));
    OneLinesConcat(Empties(i), inner);
  }

  predicate BlocksOneLine(heads: Heads) {
    forall n :: n in heads ==> OneLines(heads[n].block)
  }

  lemma ContentOneLine(heads: Heads, s: Section)
    requires BlocksOneLine(heads) && '\n' !in s.line && OneLines(s.lines)
    ensures OneLines(RenderOne(heads, s))
  {
    TrimOneLine(s.lines);
    OneLinesConcat([""], [s.line]);
    OneLinesConcat([""], Content(heads, s));
    OneLinesConcat(Gapped([s.line]), Gapped(Content(heads, s)));
  }

  lemma {:induction false} SectionsRenderOneLine(heads: Heads, sections: seq<Section>)
    requires BlocksOneLine(heads) && SectionsOneLine(sections)
    ensures OneLines(RenderSections(heads, sections))
    decreases |sections|
  {
    if sections != [] {
      var front, last := sections[..|sections| - 1], sections[|sections| - 1];
      SectionsRenderOneLine(heads, front);
      ContentOneLine(heads, last);
      OneLinesConcat(RenderSections(heads, front), RenderOne(heads, last));
    }
  }

  lemma RenderedOneLine(page: seq<Line>, heads: Heads, t: nat, pre: seq<Line>, sections: seq<Section>)
    requires TitleAt(page, false) == Some(t) && SplitBody(page[t + 1..], false) == (pre, sections)
    requires BlocksOneLine(heads) && OneLines(page)
    ensures OneLines(Render(page, heads).lines)
  {
    RenderedLines(page, heads, t, pre, sections);
    assert OneLines(page[t + 1..]) && OneLines(page[..t + 1]);
    SplitIsWell(page[t + 1..], false);
    OneLinesConcat(pre, Assemble(sections));
    AssembledOneLine(sections);
    TrimOneLine(pre);
    SectionsRenderOneLine(heads, sections);
    OneLinesConcat([""], Preface(pre));
    OneLinesConcat(Gapped(Preface(pre)), RenderSections(heads, sections));
    OneLinesConcat(page[..t + 1], Gapped(Preface(pre)) + RenderSections(heads, sections));
  }

  /** Main result, on the text: a rendered page, written with newlines between its lines
      and read again, has the same lines, and rendering those changes nothing. */
  lemma RenderedTextIsIdempotent(page: seq<Line>, heads: Heads)
    requires TitleAt(page, false).Some? && BlocksKeepable(heads)
    requires OneLines(page) && BlocksOneLine(heads)
    ensures var r := Render(page, heads);
      && r.lines != []
      && Split(Join(r.lines, '\n'), '\n') == r.lines
      && TitleAt(r.lines, false).Some?
      && Render(Split(Join(r.lines, '\n'), '\n'), heads) == r
  {
    var t := TitleAt(page, false).value;
    var (pre, sections) := SplitBody(page[t + 1..], false);
    RenderedOneLine(page, heads, t, pre, sections);
    RenderIsIdempotent(page, heads);
    SplitOfJoin(Render(page, heads).lines, '\n');
  }
}
