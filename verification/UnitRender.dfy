/** Writing the placeholder blocks of a unit page, and why doing it again changes
    nothing, tools/gen_doc_placeholders.py. */
module UnitRender {
  import opened Text
  import opened UnitPage

  // ---------------------------------------------------------------------
  // Text that holds nothing but generated blocks
  // ---------------------------------------------------------------------

  /** The characters of some lines, each line ended by a newline. */
  function Chars(lines: seq<Line>): string {
    if lines == [] then "" else lines[0] + "\n" + Chars(lines[1..])
  }

  /** Whether the text is blank once each block, from a start marker to the first end
      marker after it, is taken out. */
  predicate BlankButBlocks(s: string)
    decreases |s|
  {
    if s == [] then true
    else if StartsWith(s, BLOCK_START) && Find(s[|BLOCK_START|..], BLOCK_END).Some?
    then BlankButBlocks(s[|BLOCK_START|..][Find(s[|BLOCK_START|..], BLOCK_END).value + |BLOCK_END|..])
    else IsSpace(s[0]) && BlankButBlocks(s[1..])
  }

  predicate IsEmptyBody(lines: seq<Line>) {
    BlankButBlocks(Chars(lines))
  }

  lemma {:induction false} CharsConcat(a: seq<Line>, b: seq<Line>)
    ensures Chars(a + b) == Chars(a) + Chars(b)
    decreases |a|
  {
    if a == [] {
      assert a + b == b;
    } else {
      CharsConcat(a[1..], b);
      assert (a + b)[1..] == a[1..] + b;
    }
  }

  /** A pattern without a newline is found in s + newline where it is found in s. */
  lemma {:induction false} FindThenNewline(s: string, pat: string)
    requires pat != [] && '\n' !in pat
    ensures Find(s + "\n", pat) == Find(s, pat)
    decreases |s|
  {
    assert StartsWith(s + "\n", pat) == StartsWith(s, pat) by {
      if |pat| <= |s| {
        assert (s + "\n")[..|pat|] == s[..|pat|];
      } else if |pat| == |s| + 1 {
        assert (s + "\n")[|s|] == '\n';
        assert pat[|s|] in pat;
      }
    }
    if s != [] {
      assert (s + "\n")[1..] == s[1..] + "\n";
      FindThenNewline(s[1..], pat);
    } else {
      assert (s + "\n")[1..] == [];
    }
  }

  lemma {:induction false} BlankThenNewline(s: string)
    ensures BlankButBlocks(s + "\n") == BlankButBlocks(s)
    decreases |s|
  {
    if s == [] {
      assert (s + "\n")[1..] == [];
      assert |BLOCK_START| > 1;
    } else {
      var t := s + "\n";
      assert t[1..] == s[1..] + "\n";
      StartThenNewline(s);
      if StartsWith(s, BLOCK_START) {
        var rest := s[|BLOCK_START|..];
        assert t[|BLOCK_START|..] == rest + "\n";
        FindThenNewline(rest, BLOCK_END);
        if Find(rest, BLOCK_END).Some? {
          var k := Find(rest, BLOCK_END).value + |BLOCK_END|;
          assert (rest + "\n")[k..] == rest[k..] + "\n";
          BlankThenNewline(rest[k..]);
        } else {
          BlankThenNewline(s[1..]);
        }
      } else {
        BlankThenNewline(s[1..]);
      }
    }
  }

  lemma StartThenNewline(s: string)
    ensures StartsWith(s + "\n", BLOCK_START) == StartsWith(s, BLOCK_START)
  {
    if |BLOCK_START| <= |s| {
      assert (s + "\n")[..|BLOCK_START|] == s[..|BLOCK_START|];
    } else if |BLOCK_START| == |s| + 1 {
      assert (s + "\n")[|s|] == '\n';
      assert BLOCK_START[|s|] != '\n';
    }
  }

  lemma {:induction false} EmptiesIgnored(i: nat, lines: seq<Line>, j: nat)
    ensures IsEmptyBody(Empties(i) + lines + Empties(j)) == IsEmptyBody(lines)
    decreases i, j
  {
    if i > 0 {
      var rest := Empties(i - 1) + lines + Empties(j);
      assert Empties(i) + lines + Empties(j) == [""] + rest;
      EmptiesIgnored(i - 1, lines, j);
      CharsConcat([""], rest);
      assert Chars([""]) == "\n";
      assert ("\n" + Chars(rest))[1..] == Chars(rest);
      assert !StartsWith("\n" + Chars(rest), BLOCK_START) by {
        assert ("\n" + Chars(rest))[0] != BLOCK_START[0];
      }
    } else if j > 0 {
      var rest := Empties(0) + lines + Empties(j - 1);
      assert Empties(0) + lines + Empties(j) == rest + [""];
      EmptiesIgnored(0, lines, j - 1);
      CharsConcat(rest, [""]);
      assert Chars([""]) == "\n";
      BlankThenNewline(Chars(rest));
    } else {
      assert Empties(0) + lines + Empties(0) == lines;
    }
  }

  lemma PaddedEmptyBody(lines: seq<Line>, inner: seq<Line>)
    requires Padded(lines, inner)
    ensures IsEmptyBody(lines) == IsEmptyBody(inner)
  {
    var i, j :| 0 <= i && 0 <= j && PaddedBy(lines, inner, i, j);
    EmptiesIgnored(i, inner, j);
  }

  // ---------------------------------------------------------------------
  // Generated blocks
  // ---------------------------------------------------------------------

  /** A generated block: its markers, and between them lines that are no heading and no
      fence and hold no end marker. */
  predicate WellFormedBlock(block: seq<Line>) {
    && |block| >= 2 && block[0] == BLOCK_START && block[|block| - 1] == BLOCK_END
    && forall k :: 0 < k < |block| - 1 ==> PlainLine(block[k])
  }

  predicate PlainLine(l: Line) {
    !IsFence(l) && ParseHead(l).None? && Find(l, BLOCK_END).None? && '\n' !in l
  }

  lemma {:induction false} FindPastLine(l: Line, rest: string, pat: string)
    requires pat != [] && '\n' !in pat && Find(l, pat).None?
    ensures Find(l + "\n" + rest, pat) ==
      match Find(rest, pat) case None => None case Some(k) => Some(k + |l| + 1)
    decreases |l|
  {
    var s := l + "\n" + rest;
    assert !StartsWith(s, pat) by {
      if |pat| <= |l| {
        assert s[..|pat|] == l[..|pat|];
      } else {
        assert s[|l|] == '\n';
        assert pat[|l|] in pat;
      }
    }
    if l == [] {
      assert s[1..] == rest;
    } else {
      assert s[1..] == l[1..] + "\n" + rest;
      FindPastLine(l[1..], rest, pat);
    }
  }

  lemma {:induction false} FindPastLines(lines: seq<Line>, rest: string)
    requires forall k :: 0 <= k < |lines| ==> Find(lines[k], BLOCK_END).None?
    requires StartsWith(rest, BLOCK_END)
    ensures Find(Chars(lines) + rest, BLOCK_END) == Some(|Chars(lines)|)
    decreases |lines|
  {
    if lines == [] {
      assert Chars(lines) + rest == rest;
    } else {
      FindPastLines(lines[1..], rest);
      assert Chars(lines) + rest == lines[0] + "\n" + (Chars(lines[1..]) + rest);
      EndHasNoNewline();
      FindPastLine(lines[0], Chars(lines[1..]) + rest, BLOCK_END);
    }
  }

  lemma EndHasNoNewline()
    ensures '\n' !in BLOCK_END
  {
    assert forall k :: 0 <= k < |BLOCK_END| ==> BLOCK_END[k] != '\n';
  }

  lemma FindPastGap(s: string)
    requires Find(s, BLOCK_END).Some?
    ensures Find("\n" + s, BLOCK_END) == Some(Find(s, BLOCK_END).value + 1)
  {
    assert ("\n" + s)[1..] == s;
    assert ("\n" + s)[0] != BLOCK_END[0];
  }

  /** The markers, and no end marker between them. */
  predicate EndsOnce(block: seq<Line>) {
    && |block| >= 2 && block[0] == BLOCK_START && block[|block| - 1] == BLOCK_END
    && forall k :: 0 < k < |block| - 1 ==> Find(block[k], BLOCK_END).None?
  }

  /** A block that ends once reads as an empty body. */
  lemma BlockIsEmptyBody(block: seq<Line>)
    requires EndsOnce(block)
    ensures IsEmptyBody(block)
  {
    var mid := block[1..|block| - 1];
    assert block == [BLOCK_START] + mid + [BLOCK_END];
    assert forall k :: 0 <= k < |mid| ==> mid[k] == block[k + 1];
    BlockChars(mid);
    FindBlockEnd(mid);
    var rest := "\n" + (Chars(mid) + (BLOCK_END + "\n"));
    NewlineIsBlank();
    Regroup4("\n", Chars(mid), BLOCK_END, "\n");
    CutAfter("\n" + Chars(mid), BLOCK_END, "\n");
    BlankAfterBlock(rest);
  }

  lemma BlockChars(mid: seq<Line>)
    ensures Chars([BLOCK_START] + mid + [BLOCK_END]) == BLOCK_START + ("\n" + (Chars(mid) + (BLOCK_END + "\n")))
  {
    CharsConcat([BLOCK_START] + mid, [BLOCK_END]);
    CharsConcat([BLOCK_START], mid);
    CharsOne(BLOCK_START);
    CharsOne(BLOCK_END);
    Regroup4(BLOCK_START, "\n", Chars(mid), BLOCK_END + "\n");
  }

  lemma CharsOne(l: Line)
    ensures Chars([l]) == l + "\n"
  {
    assert [l][1..] == [];
    assert l + "\n" + [] == l + "\n";
  }

  lemma FindBlockEnd(mid: seq<Line>)
    requires forall k :: 0 <= k < |mid| ==> Find(mid[k], BLOCK_END).None?
    ensures Find("\n" + (Chars(mid) + (BLOCK_END + "\n")), BLOCK_END) == Some(1 + |Chars(mid)|)
  {
    var tail := BLOCK_END + "\n";
    assert StartsWith(tail, BLOCK_END);
    FindPastLines(mid, tail);
    FindPastGap(Chars(mid) + tail);
  }

  lemma CutAfter<T>(a: seq<T>, b: seq<T>, c: seq<T>)
    ensures (a + b + c)[|a| + |b|..] == c
  {
  }

  lemma NewlineIsBlank()
    ensures BlankButBlocks("\n")
  {
    assert "\n"[1..] == [];
    assert !StartsWith("\n", BLOCK_START);
  }

  /** Text that opens with a block is blank when what follows the block is. */
  lemma BlankAfterBlock(rest: string)
    requires Find(rest, BLOCK_END).Some? && BlankButBlocks(rest[Find(rest, BLOCK_END).value + |BLOCK_END|..])
    ensures BlankButBlocks(BLOCK_START + rest)
  {
    assert (BLOCK_START + rest)[|BLOCK_START|..] == rest;
    assert StartsWith(BLOCK_START + rest, BLOCK_START);
  }

  lemma {:induction false} PlainLinesQuiet(lines: seq<Line>)
    requires forall k :: 0 <= k < |lines| ==> !IsFence(lines[k]) && ParseHead(lines[k]).None?
    ensures Quiet(lines, false) && !FenceAfter(lines, false)
    decreases |lines|
  {
    if lines != [] {
      PlainLinesQuiet(lines[1..]);
    }
  }

  lemma MarkersArePlain()
    ensures !IsFence(BLOCK_START) && ParseHead(BLOCK_START).None? && !IsFence(BLOCK_END) && ParseHead(BLOCK_END).None?
    ensures BLOCK_START != "" && BLOCK_END != ""
    ensures LStrip(BLOCK_START) != ""
  {
    assert BLOCK_START[0] == '<' && BLOCK_END[0] == '<' && FENCE[0] == '`';
  }

  /** A block that rendering keeps: no heading outside its fences, no fence left open,
      and nothing that reads as written text. */
  predicate Keepable(block: seq<Line>) {
    Trimmed(block) && Quiet(block, false) && !FenceAfter(block, false) && IsEmptyBody(block)
  }

  lemma WellFormedIsKeepable(block: seq<Line>)
    requires WellFormedBlock(block)
    ensures Keepable(block)
  {
    MarkersArePlain();
    PlainLinesQuiet(block);
    assert forall k :: 0 < k < |block| - 1 ==> PlainLine(block[k]);
    BlockIsEmptyBody(block);
  }

  // ---------------------------------------------------------------------
  // Rendering
  // ---------------------------------------------------------------------

  /** A heading entry of the table: its key and its generated block. */
  datatype Entry = Entry(key: string, block: seq<Line>)

  type Heads = map<string, Entry>

  predicate BlocksKeepable(heads: Heads) {
    forall n :: n in heads ==> Keepable(heads[n].block)
  }

  /** What stands under a heading after rendering: the block of a listed, unwritten
      heading, else its written text; nothing when it has neither. */
  function Content(heads: Heads, s: Section): seq<Line> {
    if s.name in heads && IsEmptyBody(s.lines) then heads[s.name].block
    else if Blank(s.lines) then []
    else Trim(s.lines)
  }

  /** sections[i] has headings under it and no text of its own. */
  predicate IsGroup(sections: seq<Section>, i: nat)
    requires i < |sections|
  {
    i + 1 < |sections| && sections[i + 1].level > sections[i].level && Blank(sections[i].lines)
  }

  /** The keys of listed headings left alone for their written text. */
  function Skipped(heads: Heads, sections: seq<Section>): seq<string> {
    if sections == [] then []
    else
      var s := sections[|sections| - 1];
      Skipped(heads, sections[..|sections| - 1]) +
      if s.name in heads && !IsEmptyBody(s.lines) then [heads[s.name].key] else []
  }

  /** A heading left empty that the table does not list. */
  predicate IsUnlisted(heads: Heads, sections: seq<Section>, i: nat)
    requires i < |sections|
  {
    sections[i].name !in heads && IsEmptyBody(sections[i].lines) && !IsGroup(sections, i)
  }

  /** The unlisted headings among the first k. */
  function Unlisted(heads: Heads, sections: seq<Section>, k: nat): seq<string>
    requires k <= |sections|
  {
    if k == 0 then []
    else Unlisted(heads, sections, k - 1) + if IsUnlisted(heads, sections, k - 1) then [sections[k - 1].name] else []
  }

  lemma {:induction false} SkippedAre(heads: Heads, sections: seq<Section>, key: string)
    ensures key in Skipped(heads, sections) <==> exists k ::
      && 0 <= k < |sections| && sections[k].name in heads && heads[sections[k].name].key == key
      && !IsEmptyBody(sections[k].lines)
    decreases |sections|
  {
    if sections != [] {
      var front, last := sections[..|sections| - 1], sections[|sections| - 1];
      SkippedAre(heads, front, key);
      assert forall k :: 0 <= k < |front| ==> front[k] == sections[k];
    }
  }

  /** The headings reported as unlisted are those that the table lacks and that have
      neither text nor a heading under them. */
  lemma {:induction false} UnlistedAre(heads: Heads, sections: seq<Section>, n: nat, name: string)
    requires n <= |sections|
    ensures name in Unlisted(heads, sections, n) <==> exists k ::
      && 0 <= k < n && sections[k].name == name && name !in heads && IsEmptyBody(sections[k].lines)
      && (k + 1 == |sections| || sections[k + 1].level <= sections[k].level || !Blank(sections[k].lines))
    decreases n
  {
    if n > 0 {
      UnlistedAre(heads, sections, n - 1, name);
    }
  }

  /** A part of the page, after an empty line. */
  function Gapped(part: seq<Line>): seq<Line> {
    if part == [] then [] else [""] + part
  }

  function RenderOne(heads: Heads, s: Section): seq<Line> {
    Gapped([s.line]) + Gapped(Content(heads, s))
  }

  function RenderSections(heads: Heads, sections: seq<Section>): seq<Line> {
    if sections == [] then []
    else RenderSections(heads, sections[..|sections| - 1]) + RenderOne(heads, sections[|sections| - 1])
  }

  function Preface(pre: seq<Line>): seq<Line> {
    if Blank(pre) then [] else Trim(pre)
  }

  datatype Rendered = Rendered(lines: seq<Line>, skipped: seq<string>, unlisted: seq<string>)

  function Render(page: seq<Line>, heads: Heads): Rendered
    requires TitleAt(page, false).Some?
  {
    RenderFrom(page, heads, TitleAt(page, false).value)
  }

  function RenderFrom(page: seq<Line>, heads: Heads, t: nat): Rendered
    requires t < |page|
  {
    var below := SplitBody(page[t + 1..], false);
    RenderParts(page[..t + 1], heads, below.0, below.1)
  }

  function RenderParts(head: seq<Line>, heads: Heads, pre: seq<Line>, sections: seq<Section>): Rendered {
    Rendered(head + Gapped(Preface(pre)) + RenderSections(heads, sections),
             Skipped(heads, sections), Unlisted(heads, sections, |sections|))
  }

  /** The page rendered, from its title and what is below it. */
  lemma RenderOf(page: seq<Line>, heads: Heads, t: nat, pre: seq<Line>, sections: seq<Section>)
    requires TitleAt(page, false) == Some(t) && SplitBody(page[t + 1..], false) == (pre, sections)
    ensures Render(page, heads) == RenderParts(page[..t + 1], heads, pre, sections)
  {
    RenderFromOf(page, heads, t, pre, sections);
  }

  lemma RenderFromOf(page: seq<Line>, heads: Heads, t: nat, pre: seq<Line>, sections: seq<Section>)
    requires t < |page| && SplitBody(page[t + 1..], false) == (pre, sections)
    ensures RenderFrom(page, heads, t) == RenderParts(page[..t + 1], heads, pre, sections)
  {
  }

  /** The parts of a page, an empty line between each two. */
  function JoinParts(parts: seq<seq<Line>>): seq<Line>
    requires parts != []
  {
    if |parts| == 1 then parts[0] else JoinParts(parts[..|parts| - 1]) + [""] + parts[|parts| - 1]
  }

  lemma JoinSnoc(parts: seq<seq<Line>>, part: seq<Line>)
    requires parts != [] && part != []
    ensures JoinParts(parts + [part]) == JoinParts(parts) + Gapped(part)
  {
    assert (parts + [part])[..|parts|] == parts;
    assert JoinParts(parts) + [""] + part == JoinParts(parts) + ([""] + part);
  }

  ghost predicate BlocksPresent(heads: Heads) {
    forall n :: n in heads ==> heads[n].block != []
  }

  /** Renders one section: the parts it adds, and whether it is skipped or unlisted. */
  method RenderSection(heads: Heads, sections: seq<Section>, i: nat, out: seq<seq<Line>>)
    returns (out': seq<seq<Line>>, skipped: seq<string>, unlisted: seq<string>)
    requires i < |sections| && out != [] && BlocksPresent(heads)
    ensures out' != []
    ensures JoinParts(out') == JoinParts(out) + RenderOne(heads, sections[i])
    ensures skipped ==
      if sections[i].name in heads && !IsEmptyBody(sections[i].lines) then [heads[sections[i].name].key] else []
    ensures unlisted == if IsUnlisted(heads, sections, i) then [sections[i].name] else []
  {
    var s := sections[i];
    skipped, unlisted := [], [];
    Assoc(JoinParts(out), Gapped([s.line]), Gapped(Content(heads, s)));
    JoinSnoc(out, [s.line]);
    out' := out + [[s.line]];
    var listed := s.name in heads;
    if listed && IsEmptyBody(s.lines) {
      JoinSnoc(out', heads[s.name].block);
      out' := out' + [heads[s.name].block];
      return;
    }
    if listed {
      skipped := [heads[s.name].key];
    } else if IsEmptyBody(s.lines) && !IsGroup(sections, i) {
      unlisted := [s.name];
    }
    if !Blank(s.lines) {
      TrimNotEmpty(s.lines);
      JoinSnoc(out', Trim(s.lines));
      out' := out' + [Trim(s.lines)];
    } else {
      assert JoinParts(out') + [] == JoinParts(out');
    }
  }

  lemma RenderNext(start: seq<Line>, heads: Heads, sections: seq<Section>, i: nat)
    requires i < |sections|
    ensures var done := RenderSoFar(start, heads, sections, i);
      RenderSoFar(start, heads, sections, i + 1) ==
      Rendered(done.lines + RenderOne(heads, sections[i]),
               done.skipped + (if sections[i].name in heads && !IsEmptyBody(sections[i].lines)
                               then [heads[sections[i].name].key] else []),
               done.unlisted + (if IsUnlisted(heads, sections, i) then [sections[i].name] else []))
  {
    assert sections[..i + 1][..i] == sections[..i];
    Assoc(start, RenderSections(heads, sections[..i]), RenderOne(heads, sections[i]));
  }

  /** The head and, when it is not blank, the text before the first heading. */
  method RenderTop(head: seq<Line>, pre: seq<Line>) returns (out: seq<seq<Line>>)
    ensures out != [] && JoinParts(out) == head + Gapped(Preface(pre))
  {
    out := [head];
    if !Blank(pre) {
      TrimNotEmpty(pre);
      JoinSnoc(out, Trim(pre));
      out := out + [Trim(pre)];
    } else {
      assert head + [] == head;
    }
  }

  /** Renders the sections, one after the other. */
  method RenderBelow(top: seq<seq<Line>>, heads: Heads, sections: seq<Section>)
    returns (out: seq<seq<Line>>, skipped: seq<string>, unlisted: seq<string>)
    requires top != [] && BlocksPresent(heads)
    ensures out != []
    ensures Rendered(JoinParts(out), skipped, unlisted) ==
      RenderSoFar(JoinParts(top), heads, sections, |sections|)
  {
    out, skipped, unlisted := top, [], [];
    ghost var start := JoinParts(top);
    var i := 0;
    ghost var done := RenderSoFar(start, heads, sections, 0);
    assert sections[..0] == [] && start + [] == start;
    while i < |sections|
      invariant 0 <= i <= |sections|
      invariant done == RenderSoFar(start, heads, sections, i)
      invariant out != [] && done == Rendered(JoinParts(out), skipped, unlisted)
    {
      var skip, empty;
      out, skip, empty := RenderSection(heads, sections, i, out);
      RenderNext(start, heads, sections, i);
      skipped, unlisted := skipped + skip, unlisted + empty;
      i := i + 1;
      done := RenderSoFar(start, heads, sections, i);
    }
  }

  method RenderUnit(page: seq<Line>, heads: Heads) returns (r: Rendered)
    requires TitleAt(page, false).Some? && BlocksPresent(heads)
    ensures r == Render(page, heads)
  {
    var t := TitleAt(page, false).value;
    var pre, sections := SplitSections(page[t + 1..]);
    var top := RenderTop(page[..t + 1], pre);
    var out, skipped, unlisted := RenderBelow(top, heads, sections);
    RenderOf(page, heads, t, pre, sections);
    SoFarIsAll(page[..t + 1], heads, pre, sections);
    return Rendered(JoinParts(out), skipped, unlisted);
  }

  lemma SoFarIsAll(head: seq<Line>, heads: Heads, pre: seq<Line>, sections: seq<Section>)
    ensures RenderSoFar(head + Gapped(Preface(pre)), heads, sections, |sections|) ==
            RenderParts(head, heads, pre, sections)
  {
    assert sections[..|sections|] == sections;
  }

  ghost function RenderSoFar(start: seq<Line>, heads: Heads, sections: seq<Section>, i: nat): Rendered
    requires i <= |sections|
  {
    Rendered(start + RenderSections(heads, sections[..i]), Skipped(heads, sections[..i]), Unlisted(heads, sections, i))
  }

  lemma TrimNotEmpty(lines: seq<Line>)
    requires !Blank(lines)
    ensures Trim(lines) != []
  {
    TrimPads(lines);
    PaddedQuiet(lines, Trim(lines), false);
  }
}
