/** Exactly when rendering the rendered page changes nothing, tools/gen_doc_placeholders.py:
    for tables whose blocks read as no written text and leave no heading and no fence. */
module UnitKept {
  import opened Text
  import opened UnitPage
  import opened UnitRender
  import opened UnitIdempotence

  /** The page rendered twice is the page rendered once, with the same reports. */
  ghost predicate StaysSame(page: seq<Line>, heads: Heads) {
    TitleAt(page, false).Some? ==>
      var r := Render(page, heads);
      TitleAt(r.lines, false).Some? && Render(r.lines, heads) == r
  }

  ghost predicate AlwaysSame(heads: Heads) {
    forall page :: StaysSame(page, heads)
  }

  /** A name that some heading line has. */
  ghost predicate IsName(name: string) {
    exists l: Line :: ParseHead(l).Some? && ParseHead(l).value.name == name
  }

  // ---------------------------------------------------------------------
  // A page of one listed heading
  // ---------------------------------------------------------------------

  lemma OneSplit(title: Line, line: Line)
    requires TitleAt([title], false) == Some(0) && ParseHead(line).Some?
    ensures TitleAt([title, line], false) == Some(0)
    ensures var head := ParseHead(line).value;
      SplitBody([title, line][1..], false) == ([], [Section(head.level, head.name, line, [])])
  {
    TitleDecidedByHead([title], false, [line]);
    assert [title][..1] + [line] == [title, line] && [title, line][1..] == [line] + [];
    SplitAtHead(line, []);
    assert forall s: Section :: [s] + [] == [s];
  }

  lemma RenderedOne(heads: Heads, section: Section)
    requires section.lines == [] && section.name in heads && heads[section.name].block != []
    ensures RenderSections(heads, [section]) == [""] + ([section.line] + ([""] + heads[section.name].block))
    ensures Skipped(heads, [section]) == []
  {
    var block := heads[section.name].block;
    assert [section][..0] == [];
    assert IsEmptyBody([]);
    assert [] + RenderOne(heads, section) == RenderOne(heads, section);
    assert RenderOne(heads, section) == ([""] + [section.line]) + ([""] + block);
  }

  /** A page of a title and one listed, empty heading. */
  lemma OnePage(title: Line, line: Line, heads: Heads)
    requires TitleAt([title], false) == Some(0) && ParseHead(line).Some?
    requires ParseHead(line).value.name in heads && heads[ParseHead(line).value.name].block != []
    ensures TitleAt([title, line], false) == Some(0)
    ensures Render([title, line], heads).lines ==
      [title] + ([""] + ([line] + ([""] + heads[ParseHead(line).value.name].block)))
    ensures Render([title, line], heads).skipped == []
  {
    var head := ParseHead(line).value;
    var section := Section(head.level, head.name, line, []);
    OneSplit(title, line);
    RenderOf([title, line], heads, 0, [], [section]);
    RenderedOne(heads, section);
    assert [title, line][..1] == [title] && [title] + [] == [title];
  }

  lemma {:induction false} SkippedFirst(heads: Heads, sections: seq<Section>)
    requires sections != [] && sections[0].name in heads && !IsEmptyBody(sections[0].lines)
    ensures Skipped(heads, sections) != []
    decreases |sections|
  {
    if |sections| > 1 {
      SkippedFirst(heads, sections[..|sections| - 1]);
    }
  }

  lemma {:induction false} SplitPastText(text: seq<Line>, tail: seq<Line>)
    requires forall k :: 0 <= k < |text| ==> !IsFence(text[k]) && ParseHead(text[k]).None?
    ensures SplitBody(text + tail, false) == (text + SplitBody(tail, false).0, SplitBody(tail, false).1)
    decreases |text|
  {
    if text == [] {
      assert text + tail == tail && text + SplitBody(tail, false).0 == SplitBody(tail, false).0;
    } else {
      SplitPastText(text[1..], tail);
      SplitAtText(text[0], text[1..] + tail, false);
      Assoc([text[0]], text[1..], tail);
      Assoc([text[0]], text[1..], SplitBody(tail, false).0);
      assert text == [text[0]] + text[1..];
    }
  }

  /** That page rendered, split again: the block may hold headings of its own. */
  lemma SecondSplit(line: Line, block: seq<Line>)
    requires ParseHead(line).Some?
    ensures var (head, below) := (ParseHead(line).value, SplitBody(block, false));
      SplitBody([""] + ([line] + ([""] + block)), false) ==
      ([""], [Section(head.level, head.name, line, [""] + below.0)] + below.1)
  {
    SplitAtText("", block, false);
    SplitAtHead(line, [""] + block);
    SplitAtText("", [line] + ([""] + block), false);
    assert [""] + [] == [""];
  }

  /** And rendered again. */
  lemma SecondRender(title: Line, line: Line, heads: Heads, block: seq<Line>)
    requires TitleAt([title], false) == Some(0) && ParseHead(line).Some?
    ensures var (head, below) := (ParseHead(line).value, SplitBody(block, false));
      var page := [title] + ([""] + ([line] + ([""] + block)));
      && TitleAt(page, false) == Some(0)
      && Render(page, heads) == RenderParts([title], heads, [""],
           [Section(head.level, head.name, line, [""] + below.0)] + below.1)
  {
    var head, below := ParseHead(line).value, SplitBody(block, false);
    var lines := [""] + ([line] + ([""] + block));
    TitleDecidedByHead([title], false, lines);
    assert [title][..1] == [title] && ([title] + lines)[1..] == lines && ([title] + lines)[..1] == [title];
    SecondSplit(line, block);
    RenderOf([title] + lines, heads, 0, [""], [Section(head.level, head.name, line, [""] + below.0)] + below.1);
  }

  lemma GapIgnored(lines: seq<Line>)
    ensures IsEmptyBody([""] + lines) == IsEmptyBody(lines)
  {
    EmptiesIgnored(1, lines, 0);
    assert Empties(1) + lines + Empties(0) == [""] + lines;
  }

  /** What stands in the block before its first heading reads as written text: the
      second rendering reports it. */
  lemma TextLeft(title: Line, line: Line, heads: Heads, block: seq<Line>)
    requires TitleAt([title], false) == Some(0) && ParseHead(line).Some? && block != []
    requires ParseHead(line).value.name in heads && heads[ParseHead(line).value.name].block == block
    requires !IsEmptyBody(SplitBody(block, false).0)
    ensures !StaysSame([title, line], heads)
  {
    var head, below := ParseHead(line).value, SplitBody(block, false);
    OnePage(title, line, heads);
    SecondRender(title, line, heads, block);
    GapIgnored(below.0);
    SkippedFirst(heads, [Section(head.level, head.name, line, [""] + below.0)] + below.1);
  }

  /** Nothing does, but a heading follows: the second rendering writes the block again
      before that heading. */
  lemma HeadingLeft(title: Line, line: Line, heads: Heads, block: seq<Line>)
    requires TitleAt([title], false) == Some(0) && ParseHead(line).Some? && block != []
    requires ParseHead(line).value.name in heads && heads[ParseHead(line).value.name].block == block
    requires IsEmptyBody(SplitBody(block, false).0) && SplitBody(block, false).1 != []
    ensures !StaysSame([title, line], heads)
  {
    var head, below := ParseHead(line).value, SplitBody(block, false);
    var again := Section(head.level, head.name, line, [""] + below.0);
    OnePage(title, line, heads);
    SecondRender(title, line, heads, block);
    GapIgnored(below.0);
    LongerPage(title, heads, again, below.1);
  }

  lemma LongerPage(title: Line, heads: Heads, s: Section, more: seq<Section>)
    requires s.name in heads && IsEmptyBody(s.lines) && heads[s.name].block != [] && more != []
    ensures |RenderParts([title], heads, [""], [s] + more).lines| > 4 + |heads[s.name].block|
  {
    assert ([s] + more)[1..] == more;
    RenderCons(heads, [s] + more);
    RenderCons(heads, more);
  }

  /** A block with text before a heading that no empty line divides: the second
      rendering puts one there. */
  lemma HeadingMoved(title: Line, line: Line, heads: Heads, text: seq<Line>, h: Line, after: seq<Line>)
    requires TitleAt([title], false) == Some(0) && ParseHead(line).Some? && ParseHead(h).Some?
    requires ParseHead(line).value.name in heads && heads[ParseHead(line).value.name].block == text + ([h] + after)
    requires forall k :: 0 <= k < |text| ==> !IsFence(text[k]) && ParseHead(text[k]).None?
    requires text != [] && Trimmed(text) && !IsEmptyBody(text)
    ensures TitleAt([title, line], false) == Some(0)
    ensures var r := Render([title, line], heads);
      TitleAt(r.lines, false).Some? && Render(r.lines, heads).lines != r.lines
  {
    var head, block := ParseHead(line).value, text + ([h] + after);
    var again := Section(head.level, head.name, line, [""] + text);
    OnePage(title, line, heads);
    SecondRender(title, line, heads, block);
    SplitBeforeHead(text, h, after);
    GapIgnored(text);
    WrittenPage(title, heads, again, text, SplitBody(block, false).1);
    assert block[|text|] == h && h != "";
  }

  lemma SplitBeforeHead(text: seq<Line>, h: Line, after: seq<Line>)
    requires ParseHead(h).Some?
    requires forall k :: 0 <= k < |text| ==> !IsFence(text[k]) && ParseHead(text[k]).None?
    ensures var (pre, sections) := SplitBody(text + ([h] + after), false); pre == text && sections != []
  {
    SplitPastText(text, [h] + after);
    SplitAtHead(h, after);
    assert text + [] == text;
  }

  lemma WrittenPage(title: Line, heads: Heads, s: Section, text: seq<Line>, more: seq<Section>)
    requires s.lines == [""] + text && text != [] && Trimmed(text) && !IsEmptyBody(s.lines) && more != []
    ensures var lines := RenderParts([title], heads, [""], [s] + more).lines;
      |lines| > 4 + |text| && lines[4 + |text|] == ""
  {
    WrittenSection(heads, s, text);
    assert ([s] + more)[1..] == more;
    RenderCons(heads, [s] + more);
    RenderCons(heads, more);
    StartsEmpty(heads, more[0]);
    NoPreface(title, heads, [s] + more);
    ThenEmpty(title, RenderOne(heads, s), RenderOne(heads, more[0]), RenderSections(heads, more[1..]));
  }

  lemma NoPreface(title: Line, heads: Heads, sections: seq<Section>)
    ensures RenderParts([title], heads, [""], sections).lines == [title] + RenderSections(heads, sections)
  {
    assert Gapped(Preface([""])) == [] && [title] + [] == [title];
  }

  lemma ThenEmpty(title: Line, a: seq<Line>, b: seq<Line>, c: seq<Line>)
    requires b != [] && b[0] == ""
    ensures var lines := [title] + (a + (b + c)); |lines| > 1 + |a| && lines[1 + |a|] == ""
  {
  }

  lemma StartsEmpty(heads: Heads, s: Section)
    ensures RenderOne(heads, s) != [] && RenderOne(heads, s)[0] == ""
  {
  }

  lemma WrittenSection(heads: Heads, s: Section, text: seq<Line>)
    requires s.lines == [""] + text && text != [] && Trimmed(text) && !IsEmptyBody(s.lines)
    ensures |RenderOne(heads, s)| == 3 + |text|
  {
    assert Empties(1) + text + Empties(0) == [""] + text;
    assert PaddedBy(s.lines, text, 1, 0);
    TrimOfPadded(s.lines, text);
    WrittenNotBlank(s.lines);
  }

  lemma WrittenNotBlank(lines: seq<Line>)
    requires !IsEmptyBody(lines)
    ensures !Blank(lines)
  {
    if Blank(lines) {
      BlankChars(lines);
      SpaceIsBlank(Chars(lines));
    }
  }

  // ---------------------------------------------------------------------
  // A block that leaves a fence open
  // ---------------------------------------------------------------------

  lemma TwoSplit(title: Line, line: Line, z: Line)
    requires TitleAt([title], false) == Some(0) && ParseHead(line).Some? && ParseHead(z).Some?
    ensures TitleAt([title, line, z], false) == Some(0)
    ensures var (a, b) := (ParseHead(line).value, ParseHead(z).value);
      SplitBody([title, line, z][1..], false) ==
      ([], [Section(a.level, a.name, line, []), Section(b.level, b.name, z, [])])
  {
    TitleDecidedByHead([title], false, [line, z]);
    assert [title][..1] + [line, z] == [title, line, z] && [title, line, z][1..] == [line] + ([z] + []);
    SplitAtHead(z, []);
    SplitAtHead(line, [z] + []);
    var a := Section(ParseHead(line).value.level, ParseHead(line).value.name, line, []);
    var b := Section(ParseHead(z).value.level, ParseHead(z).value.name, z, []);
    assert [b] + [] == [b] && [a] + [b] == [a, b];
  }

  lemma TwoRendered(heads: Heads, a: Section, b: Section)
    requires a.lines == [] && b.lines == [] && a.name in heads && b.name !in heads && heads[a.name].block != []
    ensures RenderSections(heads, [a, b]) == [""] + ([a.line] + ([""] + (heads[a.name].block + ["", b.line])))
  {
    RenderedOne(heads, a);
    RenderedEmpty(heads, b);
    SectionsOfTwo(heads, a, b);
    RegroupEnd("", a.line, heads[a.name].block, ["", b.line]);
  }

  lemma SectionsOfTwo(heads: Heads, a: Section, b: Section)
    ensures RenderSections(heads, [a, b]) == RenderSections(heads, [a]) + RenderOne(heads, b)
  {
    assert [a, b][..1] == [a];
  }

  lemma RegroupEnd(e: Line, l: Line, block: seq<Line>, end: seq<Line>)
    ensures [e] + ([l] + ([e] + block)) + end == [e] + ([l] + ([e] + (block + end)))
  {
  }

  lemma TwoReported(heads: Heads, a: Section, b: Section)
    requires b.lines == [] && a.name in heads && b.name !in heads
    ensures Unlisted(heads, [a, b], 2) == [b.name]
  {
    RenderedEmpty(heads, b);
    OneListed(heads, [a, b]);
    assert !IsGroup([a, b], 1) && [a, b][1] == b;
  }

  lemma RenderedEmpty(heads: Heads, b: Section)
    requires b.lines == [] && b.name !in heads
    ensures RenderOne(heads, b) == ["", b.line] && IsEmptyBody(b.lines)
  {
  }

  /** The next heading is read as part of the block, so it is no longer reported. */
  lemma FenceLeft(title: Line, line: Line, z: Line, heads: Heads, block: seq<Line>)
    requires TitleAt([title], false) == Some(0) && ParseHead(line).Some? && ParseHead(z).Some? && block != []
    requires ParseHead(line).value.name in heads && heads[ParseHead(line).value.name].block == block
    requires ParseHead(z).value.name !in heads
    requires Quiet(block, false) && FenceAfter(block, false)
    ensures !StaysSame([title, line, z], heads)
  {
    TwoOnce(title, line, z, heads);
    TwoAgain(title, line, z, heads, block);
  }

  lemma NoText(title: Line, heads: Heads, sections: seq<Section>)
    ensures RenderParts([title], heads, [], sections).lines == [title] + RenderSections(heads, sections)
  {
    assert Gapped(Preface([])) == [] && [title] + [] == [title];
  }

  lemma TwoOnce(title: Line, line: Line, z: Line, heads: Heads)
    requires TitleAt([title], false) == Some(0) && ParseHead(line).Some? && ParseHead(z).Some?
    requires ParseHead(line).value.name in heads && heads[ParseHead(line).value.name].block != []
    requires ParseHead(z).value.name !in heads
    ensures TitleAt([title, line, z], false) == Some(0)
    ensures var r := Render([title, line, z], heads);
      && r.lines == [title] + ([""] + ([line] + ([""] + (heads[ParseHead(line).value.name].block + ["", z]))))
      && r.unlisted != []
  {
    var a, b := ParseHead(line).value, ParseHead(z).value;
    var sa, sb := Section(a.level, a.name, line, []), Section(b.level, b.name, z, []);
    TwoSplit(title, line, z);
    RenderOf([title, line, z], heads, 0, [], [sa, sb]);
    TwoRendered(heads, sa, sb);
    TwoReported(heads, sa, sb);
    NoText(title, heads, [sa, sb]);
    assert [title, line, z][..1] == [title];
  }

  lemma TwoAgain(title: Line, line: Line, z: Line, heads: Heads, block: seq<Line>)
    requires TitleAt([title], false) == Some(0) && ParseHead(line).Some? && ParseHead(z).Some?
    requires ParseHead(line).value.name in heads && Quiet(block, false) && FenceAfter(block, false)
    ensures var page := [title] + ([""] + ([line] + ([""] + (block + ["", z]))));
      TitleAt(page, false) == Some(0) && Render(page, heads).unlisted == []
  {
    var a, rest := ParseHead(line).value, block + ["", z];
    OpenFenceQuiet(block, z);
    SplitOfAssembled(rest, [], false);
    assert rest + [] == rest;
    SecondRender(title, line, heads, rest);
    var again := Section(a.level, a.name, line, [""] + rest);
    assert [again] + [] == [again];
    OneListed(heads, [again]);
  }

  lemma OpenFenceQuiet(block: seq<Line>, z: Line)
    requires Quiet(block, false) && FenceAfter(block, false) && ParseHead(z).Some?
    ensures Quiet(block + ["", z], false)
  {
    HeadIsNotFence(z);
    assert ["", z][1..] == [z] && [z][1..] == [];
    assert !IsFence("") && Quiet([z], true);
    QuietConcat(block, ["", z], false);
  }

  lemma OneListed(heads: Heads, sections: seq<Section>)
    requires sections != [] && sections[0].name in heads
    ensures Unlisted(heads, sections, 1) == []
  {
    assert Unlisted(heads, sections, 0) == [];
  }

  // ---------------------------------------------------------------------
  // The exact condition
  // ---------------------------------------------------------------------

  lemma NotKept(title: Line, line: Line, z: Line, heads: Heads)
    requires TitleAt([title], false) == Some(0) && ParseHead(line).Some? && ParseHead(line).value.name in heads
    requires ParseHead(z).Some? && ParseHead(z).value.name !in heads
    requires var b := heads[ParseHead(line).value.name].block; b != [] && Trimmed(b) && !Keepable(b)
    ensures !AlwaysSame(heads)
  {
    var block := heads[ParseHead(line).value.name].block;
    var (pre, sections) := SplitBody(block, false);
    SplitIsWell(block, false);
    if Quiet(block, false) && FenceAfter(block, false) {
      FenceLeft(title, line, z, heads, block);
      assert !StaysSame([title, line, z], heads);
    } else if !IsEmptyBody(pre) {
      TextLeft(title, line, heads, block);
      assert !StaysSame([title, line], heads);
    } else {
      assert sections == [] ==> pre + [] == pre;
      HeadingLeft(title, line, heads, block);
      assert !StaysSame([title, line], heads);
    }
  }

  /** Main result: for a table of possible headings, its blocks neither empty nor with
      empty lines around them, rendering the rendered page changes neither the page nor
      the reports, whatever the page, if and only if every block is one to keep. */
  lemma KeptExactly(heads: Heads)
    requires forall n :: n in heads ==> IsName(n) && heads[n].block != [] && Trimmed(heads[n].block)
    ensures AlwaysSame(heads) <==> BlocksKeepable(heads)
  {
    if BlocksKeepable(heads) {
      forall page
        ensures StaysSame(page, heads)
      {
        if TitleAt(page, false).Some? {
          RenderIsIdempotent(page, heads);
        }
      }
    } else {
      var n :| n in heads && !Keepable(heads[n].block);
      var line: Line :| ParseHead(line).Some? && ParseHead(line).value.name == n;
      var z := FreshHeading(heads);
      TitleIsTitle();
      NotKept("# T", line, z, heads);
    }
  }

  lemma TitleIsTitle()
    ensures TitleAt(["# T"], false) == Some(0)
  {
  }

  /** A heading that the table does not list: its name is longer than every listed one. */
  lemma FreshHeading(heads: Heads) returns (z: Line)
    ensures ParseHead(z).Some? && ParseHead(z).value.name !in heads
  {
    var n := LongerThan(heads.Keys);
    var name := seq(n + 1, k => 'Z');
    z := "## " + name;
    NamedHeading(name);
  }

  lemma LongerThan(names: set<string>) returns (n: nat)
    ensures forall name :: name in names ==> |name| <= n
  {
    n := 0;
    var rest := names;
    while rest != {}
      invariant rest <= names
      invariant forall name :: name in names && name !in rest ==> |name| <= n
    {
      var name :| name in rest;
      rest := rest - {name};
      n := if |name| > n then |name| else n;
    }
  }

  lemma NamedHeading(name: string)
    requires name != [] && !IsSpace(name[0]) && !IsSpace(name[|name| - 1])
    ensures ParseHead("## " + name) == Some(Head(2, name))
  {
    var l := "## " + name;
    assert l[2..] == [' '] + name && ([' '] + name)[1..] == name;
    assert l[1..] == ['#'] + l[2..] && l[1..][1..] == l[2..];
    assert Hashes(l[2..]) == 0 && Hashes(l[1..]) == 1 && Hashes(l) == 2;
    assert SkipGap(name) == name && SkipGap(l[2..]) == name && DropGap(name) == name;
  }
}
