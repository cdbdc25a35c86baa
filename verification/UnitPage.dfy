/** Unit pages with generated placeholder blocks, tools/gen_doc_placeholders.py.

    A page is its lines; that none of them holds a newline is said where it matters. */
module UnitPage {
  import opened Text

  type Line = string

  const FENCE := "```"
  const BLOCK_START := "<!-- placeholder:start -->"
  const BLOCK_END := "<!-- placeholder:end -->"

  // ---------------------------------------------------------------------
  // Lines
  // ---------------------------------------------------------------------

  /** The first place pat stands in s. */
  function Find(s: string, pat: string): (r: Option<nat>)
    ensures r.Some? ==> r.value + |pat| <= |s|
  {
    if StartsWith(s, pat) then Some(0)
    else if s == [] then None
    else match Find(s[1..], pat)
         case Some(k) => Some(k + 1)
         case None => None
  }

  predicate IsFence(l: Line) {
    StartsWith(LStrip(l), FENCE)
  }

  predicate Gap(c: char) {
    c == ' ' || c == '\t'
  }

  function Hashes(l: Line): (n: nat)
    ensures n <= |l|
    ensures n > 0 ==> l != [] && l[0] == '#'
  {
    if l != [] && l[0] == '#' then 1 + Hashes(l[1..]) else 0
  }

  function SkipGap(s: string): string {
    if s != [] && Gap(s[0]) then SkipGap(s[1..]) else s
  }

  function DropGap(s: string): string {
    if s != [] && Gap(s[|s| - 1]) then DropGap(s[..|s| - 1]) else s
  }

  datatype Head = Head(level: nat, name: string)

  /** A heading below the page title: two to six #, a gap, and its text. */
  function ParseHead(l: Line): (h: Option<Head>)
    ensures h.Some? ==> l != [] && l[0] == '#'
  {
    var n := Hashes(l);
    if 2 <= n <= 6 && n < |l| && Gap(l[n]) && SkipGap(l[n..]) != [] && !IsSpace(SkipGap(l[n..])[0])
    then Some(Head(n, DropGap(SkipGap(l[n..]))))
    else None
  }

  lemma HeadIsNotFence(l: Line)
    requires ParseHead(l).Some?
    ensures !IsFence(l) && l != ""
  {
  }

  predicate Blank(lines: seq<Line>) {
    forall k :: 0 <= k < |lines| ==> LStrip(lines[k]) == ""
  }

  // ---------------------------------------------------------------------
  // Pages
  // ---------------------------------------------------------------------

  /** Whether a comment is open after this line; None when the line is no comment and
      not blank. */
  function CommentAfter(l: Line, inComment: bool): Option<bool> {
    var s := Strip(l);
    if inComment then Some(Find(s, "-->").None?)
    else if s == "" then Some(false)
    else if StartsWith(s, "<!--") then Some(Find(s, "-->").None?)
    else None
  }

  predicate IsTitle(l: Line) {
    StartsWith(Strip(l), "# ")
  }

  /** split_page: the line of the page's title, after comments and blank lines. */
  function TitleAt(lines: seq<Line>, inComment: bool): (r: Option<nat>)
    ensures r.Some? ==> r.value < |lines|
  {
    if lines == [] then None
    else
      match CommentAfter(lines[0], inComment)
      case None => if IsTitle(lines[0]) then Some(0) else None
      case Some(open) =>
        match TitleAt(lines[1..], open)
        case Some(k) => Some(k + 1)
        case None => None
  }

  lemma {:induction false} TitleDecidedByHead(lines: seq<Line>, inComment: bool, rest: seq<Line>)
    requires TitleAt(lines, inComment).Some?
    ensures TitleAt(lines[..TitleAt(lines, inComment).value + 1] + rest, inComment) == TitleAt(lines, inComment)
    decreases |lines|
  {
    var t := TitleAt(lines, inComment).value;
    var same := lines[..t + 1] + rest;
    assert same[0] == lines[0];
    if t > 0 {
      assert same[1..] == lines[1..][..t] + rest;
      TitleDecidedByHead(lines[1..], CommentAfter(lines[0], inComment).value, rest);
    }
  }

  /** A heading and the text below it, up to the next heading. */
  datatype Section = Section(level: nat, name: string, line: Line, lines: seq<Line>)

  /** split_sections: the text before the first heading, and the sections; a line in a
      fenced block is not a heading. */
  function SplitBody(lines: seq<Line>, fenced: bool): (seq<Line>, seq<Section>) {
    if lines == [] then ([], [])
    else
      var f := fenced != IsFence(lines[0]);
      var (pre, sections) := SplitBody(lines[1..], f);
      var m: Option<Head> := if f then None else ParseHead(lines[0]);
      match m
      case Some(h) => ([], [Section(h.level, h.name, lines[0], pre)] + sections)
      case None => ([lines[0]] + pre, sections)
  }

  /** More text and sections after what has been split so far. */
  function Continue(pre: seq<Line>, sections: seq<Section>, rest: (seq<Line>, seq<Section>)):
    (seq<Line>, seq<Section>)
  {
    if sections == [] then (pre + rest.0, rest.1)
    else
      var last := sections[|sections| - 1];
      (pre, sections[..|sections| - 1] + [last.(lines := last.lines + rest.0)] + rest.1)
  }

  method SplitSections(body: seq<Line>) returns (pre: seq<Line>, sections: seq<Section>)
    ensures (pre, sections) == SplitBody(body, false)
  {
    pre, sections := [], [];
    var fenced := false;
    var i := 0;
    assert body[0..] == body;
    assert [] + SplitBody(body, false).0 == SplitBody(body, false).0;
    while i < |body|
      invariant 0 <= i <= |body|
      invariant Continue(pre, sections, SplitBody(body[i..], fenced)) == SplitBody(body, false)
    {
      var line := body[i];
      ghost var before := (pre, sections, fenced);
      if IsFence(line) {
        fenced := !fenced;
      }
      var m := if fenced then None else ParseHead(line);
      assert body[i..][0] == line && body[i..][1..] == body[i + 1..];
      if m.Some? {
        sections := sections + [Section(m.value.level, m.value.name, line, [])];
      } else if sections != [] {
        var last := sections[|sections| - 1];
        sections := sections[|sections| - 1 := last.(lines := last.lines + [line])];
      } else {
        pre := pre + [line];
      }
      ContinueOne(before.0, before.1, line, m, SplitBody(body[i + 1..], fenced));
      i := i + 1;
    }
    assert body[i..] == [];
    ContinueEnd(pre, sections);
  }

  lemma ContinueEnd(pre: seq<Line>, sections: seq<Section>)
    ensures Continue(pre, sections, ([], [])) == (pre, sections)
  {
    assert pre + [] == pre;
    if sections != [] {
      var last := sections[|sections| - 1];
      assert last.lines + [] == last.lines;
      assert sections == sections[..|sections| - 1] + [last] + [];
    }
  }

  lemma ContinueOne(pre: seq<Line>, sections: seq<Section>, line: Line, m: Option<Head>,
                    rest: (seq<Line>, seq<Section>))
    ensures m.Some? ==>
      Continue(pre, sections + [Section(m.value.level, m.value.name, line, [])], rest) ==
      Continue(pre, sections, ([], [Section(m.value.level, m.value.name, line, rest.0)] + rest.1))
    ensures m.None? && sections == [] ==>
      Continue(pre + [line], [], rest) == Continue(pre, [], ([line] + rest.0, rest.1))
    ensures m.None? && sections != [] ==>
      var last := sections[|sections| - 1];
      Continue(pre, sections[|sections| - 1 := last.(lines := last.lines + [line])], rest) ==
      Continue(pre, sections, ([line] + rest.0, rest.1))
  {
    if m.Some? {
      var s := Section(m.value.level, m.value.name, line, []);
      assert (sections + [s])[..|sections|] == sections;
      assert [] + rest.0 == rest.0;
      var done := s.(lines := rest.0);
      if sections == [] {
        assert pre + [] == pre;
        assert [] + [done] + rest.1 == [done] + rest.1;
      } else {
        var last := sections[|sections| - 1];
        assert last.lines + [] == last.lines;
        assert sections[..|sections| - 1] + [last] == sections;
        assert sections + ([s.(lines := rest.0)] + rest.1) == sections + [s.(lines := rest.0)] + rest.1;
      }
    } else if sections == [] {
      assert pre + [line] + rest.0 == pre + ([line] + rest.0);
    } else {
      var last := sections[|sections| - 1];
      var grown := sections[|sections| - 1 := last.(lines := last.lines + [line])];
      assert grown[..|grown| - 1] == sections[..|sections| - 1];
      assert last.lines + [line] + rest.0 == last.lines + ([line] + rest.0);
    }
  }

  // ---------------------------------------------------------------------
  // Splitting and putting together again
  // ---------------------------------------------------------------------

  function Assemble(sections: seq<Section>): seq<Line> {
    if sections == [] then [] else [sections[0].line] + sections[0].lines + Assemble(sections[1..])
  }

  /** Whether a fence is open after these lines. */
  function FenceAfter(lines: seq<Line>, fenced: bool): bool {
    if lines == [] then fenced else FenceAfter(lines[1..], fenced != IsFence(lines[0]))
  }

  /** No line of these is a heading. */
  predicate Quiet(lines: seq<Line>, fenced: bool) {
    lines == [] ||
    var f := fenced != IsFence(lines[0]);
    (f || ParseHead(lines[0]).None?) && Quiet(lines[1..], f)
  }

  /** Text and sections as a split leaves them: every heading stands outside fences,
      and no heading is left inside a text. */
  predicate WellSplit(pre: seq<Line>, sections: seq<Section>, fenced: bool)
    decreases |sections|
  {
    && Quiet(pre, fenced)
    && (sections != [] ==>
          && !FenceAfter(pre, fenced)
          && ParseHead(sections[0].line) == Some(Head(sections[0].level, sections[0].name))
          && WellSplit(sections[0].lines, sections[1..], false))
  }

  lemma {:induction false} SplitIsWell(lines: seq<Line>, fenced: bool)
    ensures var (pre, sections) := SplitBody(lines, fenced);
            WellSplit(pre, sections, fenced) && pre + Assemble(sections) == lines
    decreases |lines|
  {
    if lines != [] {
      var f := fenced != IsFence(lines[0]);
      SplitIsWell(lines[1..], f);
      var (pre, sections) := SplitBody(lines[1..], f);
      assert lines == [lines[0]] + (pre + Assemble(sections));
      if !f && ParseHead(lines[0]).Some? {
        var h := ParseHead(lines[0]).value;
        HeadIsNotFence(lines[0]);
        HeadIsWell(Section(h.level, h.name, lines[0], pre), sections);
      } else {
        assert ([lines[0]] + pre)[1..] == pre;
        Assoc([lines[0]], pre, Assemble(sections));
      }
    }
  }

  lemma HeadIsWell(s: Section, sections: seq<Section>)
    requires ParseHead(s.line) == Some(Head(s.level, s.name)) && WellSplit(s.lines, sections, false)
    ensures WellSplit([], [s] + sections, false)
    ensures [] + Assemble([s] + sections) == [s.line] + (s.lines + Assemble(sections))
  {
    AssembleCons(s, sections);
  }

  lemma AssembleCons(s: Section, sections: seq<Section>)
    ensures Assemble([s] + sections) == [s.line] + s.lines + Assemble(sections)
    ensures [] + Assemble([s] + sections) == [s.line] + (s.lines + Assemble(sections))
    ensures ([s] + sections)[1..] == sections
  {
    assert ([s] + sections)[1..] == sections;
  }

  lemma SplitAtHead(line: Line, tail: seq<Line>)
    requires ParseHead(line).Some?
    ensures var h := ParseHead(line).value;
      SplitBody([line] + tail, false) ==
      ([], [Section(h.level, h.name, line, SplitBody(tail, false).0)] + SplitBody(tail, false).1)
  {
    HeadIsNotFence(line);
    assert ([line] + tail)[1..] == tail;
  }

  lemma SplitAtText(line: Line, tail: seq<Line>, fenced: bool)
    requires var f := fenced != IsFence(line); f || ParseHead(line).None?
    ensures var (pre, sections) := SplitBody(tail, fenced != IsFence(line));
      SplitBody([line] + tail, fenced) == ([line] + pre, sections)
  {
    assert ([line] + tail)[1..] == tail;
  }

  lemma {:induction false} SplitOfAssembled(pre: seq<Line>, sections: seq<Section>, fenced: bool)
    requires WellSplit(pre, sections, fenced)
    ensures SplitBody(pre + Assemble(sections), fenced) == (pre, sections)
    decreases |sections|, |pre|
  {
    if pre != [] {
      SplitOfAssembled(pre[1..], sections, fenced != IsFence(pre[0]));
      SplitAtText(pre[0], pre[1..] + Assemble(sections), fenced);
      assert pre == [pre[0]] + pre[1..];
      Assoc([pre[0]], pre[1..], Assemble(sections));
    } else if sections != [] {
      var s := sections[0];
      SplitOfAssembled(s.lines, sections[1..], false);
      SplitAtHead(s.line, s.lines + Assemble(sections[1..]));
      assert sections == [s] + sections[1..];
      AssembleCons(s, sections[1..]);
    }
  }

  lemma {:induction false} QuietConcat(a: seq<Line>, b: seq<Line>, fenced: bool)
    ensures Quiet(a + b, fenced) <==> Quiet(a, fenced) && Quiet(b, FenceAfter(a, fenced))
    ensures FenceAfter(a + b, fenced) == FenceAfter(b, FenceAfter(a, fenced))
    decreases |a|
  {
    if a == [] {
      assert a + b == b;
    } else {
      QuietConcat(a[1..], b, fenced != IsFence(a[0]));
      assert (a + b)[1..] == a[1..] + b;
    }
  }

  // ---------------------------------------------------------------------
  // Surrounding empty lines
  // ---------------------------------------------------------------------

  function TrimFront(lines: seq<Line>): seq<Line> {
    if lines != [] && lines[0] == "" then TrimFront(lines[1..]) else lines
  }

  function TrimBack(lines: seq<Line>): seq<Line> {
    if lines != [] && lines[|lines| - 1] == "" then TrimBack(lines[..|lines| - 1]) else lines
  }

  /** text.strip("\n") */
  function Trim(lines: seq<Line>): seq<Line> {
    TrimBack(TrimFront(lines))
  }

  predicate Trimmed(lines: seq<Line>) {
    lines == [] || (lines[0] != "" && lines[|lines| - 1] != "")
  }

  /** Lines that differ from others by empty lines around them only. */
  ghost predicate Padded(lines: seq<Line>, inner: seq<Line>) {
    exists i, j :: 0 <= i && 0 <= j && PaddedBy(lines, inner, i, j)
  }

  predicate PaddedBy(lines: seq<Line>, inner: seq<Line>, i: nat, j: nat) {
    lines == Empties(i) + inner + Empties(j)
  }

  function Empties(n: nat): seq<Line> {
    seq(n, k => "")
  }

  lemma {:induction false} TrimFrontPads(lines: seq<Line>) returns (i: nat)
    ensures lines == Empties(i) + TrimFront(lines)
    ensures TrimFront(lines) == [] || TrimFront(lines)[0] != ""
    decreases |lines|
  {
    if lines != [] && lines[0] == "" {
      var k := TrimFrontPads(lines[1..]);
      i := k + 1;
      assert lines == [""] + lines[1..];
      assert Empties(i) == [""] + Empties(k);
    } else {
      i := 0;
    }
  }

  lemma {:induction false} TrimBackPads(lines: seq<Line>) returns (j: nat)
    ensures lines == TrimBack(lines) + Empties(j)
    ensures TrimBack(lines) == [] || TrimBack(lines)[|TrimBack(lines)| - 1] != ""
    decreases |lines|
  {
    if lines != [] && lines[|lines| - 1] == "" {
      var k := TrimBackPads(lines[..|lines| - 1]);
      j := k + 1;
      assert lines == lines[..|lines| - 1] + [""];
      assert Empties(j) == Empties(k) + [""];
    } else {
      j := 0;
    }
  }

  lemma TrimPads(lines: seq<Line>)
    ensures Trimmed(Trim(lines)) && Padded(lines, Trim(lines))
  {
    var i := TrimFrontPads(lines);
    var front := TrimFront(lines);
    var j := TrimBackPads(front);
    if Trim(lines) != [] {
      assert front[0] == Trim(lines)[0];
    }
    assert lines == Empties(i) + Trim(lines) + Empties(j);
    assert PaddedBy(lines, Trim(lines), i, j);
  }

  lemma {:induction false} TrimFrontOf(i: nat, rest: seq<Line>)
    requires rest == [] || rest[0] != ""
    ensures TrimFront(Empties(i) + rest) == rest
    decreases i
  {
    if i > 0 {
      TrimFrontOf(i - 1, rest);
      assert (Empties(i) + rest)[1..] == Empties(i - 1) + rest;
    } else {
      assert Empties(0) + rest == rest;
    }
  }

  lemma {:induction false} TrimBackOf(rest: seq<Line>, j: nat)
    requires rest == [] || rest[|rest| - 1] != ""
    ensures TrimBack(rest + Empties(j)) == rest
    decreases j
  {
    if j > 0 {
      TrimBackOf(rest, j - 1);
      assert (rest + Empties(j))[..|rest| + j - 1] == rest + Empties(j - 1);
    } else {
      assert rest + Empties(0) == rest;
    }
  }

  /** Trimming finds the inner lines again. */
  lemma TrimOfPadded(lines: seq<Line>, inner: seq<Line>)
    requires Padded(lines, inner) && Trimmed(inner)
    ensures Trim(lines) == inner
  {
    var i, j :| 0 <= i && 0 <= j && PaddedBy(lines, inner, i, j);
    if inner == [] {
      assert lines == Empties(i + j) + [];
      TrimFrontOf(i + j, []);
    } else {
      assert lines == Empties(i) + (inner + Empties(j));
      assert (inner + Empties(j))[0] == inner[0];
      TrimFrontOf(i, inner + Empties(j));
      TrimBackOf(inner, j);
    }
  }

  lemma {:induction false} EmptiesQuiet(n: nat, fenced: bool)
    ensures Quiet(Empties(n), fenced) && FenceAfter(Empties(n), fenced) == fenced
    decreases n
  {
    if n > 0 {
      EmptiesQuiet(n - 1, fenced);
      assert Empties(n)[1..] == Empties(n - 1);
    }
  }

  lemma PaddedQuiet(lines: seq<Line>, inner: seq<Line>, fenced: bool)
    requires Padded(lines, inner)
    ensures Quiet(lines, fenced) == Quiet(inner, fenced)
    ensures FenceAfter(lines, fenced) == FenceAfter(inner, fenced)
    ensures Blank(lines) == Blank(inner)
  {
    var i, j :| 0 <= i && 0 <= j && PaddedBy(lines, inner, i, j);
    EmptiesQuiet(i, fenced);
    EmptiesQuiet(j, FenceAfter(inner, fenced));
    QuietConcat(Empties(i) + inner, Empties(j), fenced);
    QuietConcat(Empties(i), inner, fenced);
    assert forall k :: 0 <= k < |inner| ==> inner[k] == lines[i + k];
    assert forall k :: 0 <= k < |lines| ==> lines[k] == "" || (i <= k < i + |inner| && lines[k] == inner[k - i]);
  }
}
