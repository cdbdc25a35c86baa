/** The blocks the placeholder generator writes, tools/gen_doc_placeholders.py: exactly
    which entries give a block that rendering keeps, and how another changes a page. */
module UnitBlocks {
  import opened Text
  import opened UnitPage
  import opened UnitRender
  import opened UnitIdempotence
  import opened UnitKept

  // ---------------------------------------------------------------------
  // The lines of a block
  // ---------------------------------------------------------------------

  const NOTICE1 := "<!-- Generated by " + ("tools/gen_doc_placeholders.py " + "from tools/doc_status.yaml.")
  const NOTICE2 := "     Edit the table and rerun; " + "edits made here are overwritten. -->"
  const NOTE := "!!! note \"Not written yet\""
  const MEANWHILE := "    Meanwhile:"

  const STATUS := "    **Status:** "
  const COVERS := "    This page will cover "
  const LINK := "    - "

  /** render_block: the lines of an entry's status, what it will cover, and its links;
      a field may hold newlines. */
  function RenderBlock(status: string, covers: string, see: seq<string>): seq<Line> {
    [BLOCK_START] + BlockBody(status, covers, see) + [BLOCK_END]
  }

  function BlockBody(status: string, covers: string, see: seq<string>): seq<Line> {
    [NOTICE1, NOTICE2, "", NOTE, ""] + Fields(status, covers) + Links(see) + [""]
  }

  function Fields(status: string, covers: string): seq<Line> {
    FieldLines(STATUS, status) + ([""] + FieldLines(COVERS, covers))
  }

  function Links(see: seq<string>): seq<Line> {
    if see == [] then [] else ["", MEANWHILE, ""] + SeeLines(see)
  }

  function SeeLines(see: seq<string>): seq<Line> {
    if see == [] then [] else FieldLines(LINK, see[0]) + SeeLines(see[1..])
  }

  /** The lines of a field after what stands before it. */
  function FieldLines(prefix: string, field: string): seq<Line> {
    [prefix + Split(field, '\n')[0]] + Split(field, '\n')[1..]
  }

  /** They are the lines of the text written. */
  lemma {:induction false} FieldLinesAreLines(prefix: string, field: string)
    requires '\n' !in prefix
    ensures Split(prefix + field, '\n') == FieldLines(prefix, field)
    decreases |prefix|
  {
    if prefix == [] {
      assert prefix + field == field;
      assert prefix + Split(field, '\n')[0] == Split(field, '\n')[0];
    } else {
      FieldLinesAreLines(prefix[1..], field);
      var first := Split(field, '\n')[0];
      assert (prefix + field)[1..] == prefix[1..] + field;
      assert [prefix[0]] + (prefix[1..] + first) == prefix + first;
      assert FieldLines(prefix[1..], field)[1..] == Split(field, '\n')[1..];
    }
  }

  /** The bullets, each from its link. */
  function Bullets(see: seq<string>): string {
    if see == [] then "" else "    - " + see[0] + "\n" + Bullets(see[1..])
  }

  lemma {:induction false} CharsOfSplit(s: string)
    ensures Chars(Split(s, '\n')) == s + "\n"
    decreases |s|
  {
    JoinOfSplit(s, '\n');
    CharsAreJoined(Split(s, '\n'));
  }

  lemma {:induction false} CharsAreJoined(lines: seq<Line>)
    requires lines != []
    ensures Chars(lines) == Join(lines, '\n') + "\n"
    decreases |lines|
  {
    if |lines| == 1 {
      assert Chars(lines[1..]) == "";
    } else {
      CharsAreJoined(lines[1..]);
      assert lines[0] + "\n" + (Join(lines[1..], '\n') + "\n") == lines[0] + ['\n'] + Join(lines[1..], '\n') + "\n";
    }
  }

  lemma FieldText(prefix: string, field: string)
    requires '\n' !in prefix
    ensures Chars(FieldLines(prefix, field)) == prefix + field + "\n"
  {
    FieldLinesAreLines(prefix, field);
    CharsOfSplit(prefix + field);
  }

  lemma {:induction false} BulletsText(see: seq<string>)
    ensures Chars(SeeLines(see)) == Bullets(see)
    decreases |see|
  {
    if see != [] {
      FieldText(LINK, see[0]);
      BulletsText(see[1..]);
      CharsConcat(FieldLines(LINK, see[0]), SeeLines(see[1..]));
    }
  }

  lemma FieldsText(status: string, covers: string)
    ensures Chars(Fields(status, covers)) ==
      "    **Status:** " + status + "\n" + ("\n" + ("    This page will cover " + covers + "\n"))
  {
    FieldText(STATUS, status);
    FieldText(COVERS, covers);
    CharsConcat([""], FieldLines(COVERS, covers));
    assert [""][1..] == [] && Chars([""]) == "\n";
    CharsConcat(FieldLines(STATUS, status), [""] + FieldLines(COVERS, covers));
  }

  lemma LinksText(see: seq<string>)
    ensures Chars(Links(see)) == if see == [] then "" else "\n    Meanwhile:\n\n" + Bullets(see)
  {
    if see != [] {
      BulletsText(see);
      var intro := ["", MEANWHILE, ""];
      CharsConcat(intro, SeeLines(see));
      assert intro[1..] == [MEANWHILE, ""] && intro[1..][1..] == [""] && [""][1..] == [];
      assert Chars([MEANWHILE, ""]) == MEANWHILE + "\n" + Chars([""]);
      assert Chars([""]) == "\n";
      assert Chars(intro) == "" + "\n" + (MEANWHILE + "\n" + "\n");
      assert "" + "\n" + (MEANWHILE + "\n" + "\n") == "\n    Meanwhile:\n\n";
    }
  }

  /** Main result: the text of a block, after its notices, is the status and the sentence
      given, each a paragraph of its own, and the links, introduced when there are any. */
  lemma BlockText(status: string, covers: string, see: seq<string>)
    ensures var intro := [NOTICE1, NOTICE2, "", NOTE, ""];
      var fields := "    **Status:** " + status + "\n" + ("\n" + ("    This page will cover " + covers + "\n"));
      var links := if see == [] then "" else "\n    Meanwhile:\n\n" + Bullets(see);
      Chars(BlockBody(status, covers, see)) == Chars(intro) + fields + links + "\n"
    ensures RenderBlock(status, covers, see) ==
      ["<!-- placeholder:start -->"] + BlockBody(status, covers, see) + ["<!-- placeholder:end -->"]
  {
    var intro := [NOTICE1, NOTICE2, "", NOTE, ""];
    FieldsText(status, covers);
    LinksText(see);
    CharsConcat(intro, Fields(status, covers));
    CharsConcat(intro + Fields(status, covers), Links(see));
    CharsConcat(intro + Fields(status, covers) + Links(see), [""]);
    assert [""][1..] == [] && Chars([""]) == "\n";
  }

  // ---------------------------------------------------------------------
  // Lines that are plain
  // ---------------------------------------------------------------------

  predicate AllPlain(lines: seq<Line>) {
    forall k :: 0 <= k < |lines| ==> PlainLine(lines[k])
  }

  lemma PlainConcat(a: seq<Line>, b: seq<Line>)
    ensures AllPlain(a + b) <==> AllPlain(a) && AllPlain(b)
  {
    assert forall k :: 0 <= k < |a| ==> (a + b)[k] == a[k];
    assert forall k :: 0 <= k < |b| ==> (a + b)[|a| + k] == b[k];
  }

  lemma InNeither(a: string, b: string, c: char)
    ensures c !in a + b <==> c !in a && c !in b
  {
    assert forall k :: 0 <= k < |a| ==> (a + b)[k] == a[k];
    assert forall k :: 0 <= k < |b| ==> (a + b)[|a| + k] == b[k];
  }

  /** A pattern is not found where it cannot start. */
  lemma {:induction false} FindSkips(prefix: string, s: string, pat: string)
    requires pat != [] && pat[0] !in prefix
    ensures Find(prefix + s, pat).None? <==> Find(s, pat).None?
    decreases |prefix|
  {
    if prefix == [] {
      assert prefix + s == s;
    } else {
      assert (prefix + s)[0] == prefix[0] && (prefix + s)[1..] == prefix[1..] + s;
      FindSkips(prefix[1..], s, pat);
    }
  }

  lemma EndStarts()
    ensures BLOCK_END != [] && BLOCK_END[0] == '<'
  {
  }

  lemma NoEndWithoutAngle(s: string)
    requires '<' !in s
    ensures Find(s, BLOCK_END).None?
  {
    assert s + "" == s;
    EndStarts();
    FindSkips(s, "", BLOCK_END);
  }

  lemma {:induction false} FixedStart(prefix: string, c: char, rest: string)
    requires forall k :: 0 <= k < |prefix| ==> prefix[k] == ' '
    requires !IsSpace(c) && c != '`'
    ensures LStrip(prefix + [c] + rest) == [c] + rest
    decreases |prefix|
  {
    if prefix == [] {
      assert prefix + [c] + rest == [c] + rest;
    } else {
      assert (prefix + [c] + rest)[1..] == prefix[1..] + [c] + rest;
      FixedStart(prefix[1..], c, rest);
    }
  }

  /** What can stand before a field: four spaces, and nothing special after them. */
  predicate IsIndent(prefix: string) {
    && |prefix| > 4 && prefix[..4] == "    " && !IsSpace(prefix[4]) && prefix[4] != '`'
    && '<' !in prefix && '\n' !in prefix
  }

  /** An indented line is no fence and no heading. */
  lemma IndentedIsText(prefix: string, rest: string)
    requires IsIndent(prefix)
    ensures !IsFence(prefix + rest) && ParseHead(prefix + rest).None?
  {
    var c, tail := prefix[4], prefix[5..] + rest;
    FixedStart("    ", c, tail);
    assert prefix + rest == "    " + [c] + tail;
    assert FENCE[0] == '`' && (prefix + rest)[0] == prefix[..4][0];
  }

  /** A line whose first character is none of the special ones is neither either. */
  lemma OrdinaryIsText(l: Line)
    requires l != "" && !IsSpace(l[0]) && l[0] != '#' && l[0] != '`'
    ensures !IsFence(l) && ParseHead(l).None?
  {
    assert FENCE[0] == '`';
  }

  // ---------------------------------------------------------------------
  // The fixed lines
  // ---------------------------------------------------------------------

  lemma Absent(s: string, c: char)
    requires forall k :: 0 <= k < |s| ==> s[k] != c
    ensures c !in s
  {
  }

  lemma NoticeIsPlain()
    ensures PlainLine(NOTICE1)
  {
    var a, b, c := "!-- Generated by ", "tools/gen_doc_placeholders.py ", "from tools/doc_status.yaml.";
    Absent(a, '<');
    Absent(a, '\n');
    Absent(b, '<');
    Absent(b, '\n');
    Absent(c, '<');
    Absent(c, '\n');
    assert "<!-- Generated by " == ['<'] + a;
    Assoc(['<'], a, b + c);
    NoticeOf(a, b, c);
  }

  lemma NoticeOf(a: string, b: string, c: string)
    requires '<' !in a && '\n' !in a && '<' !in b && '\n' !in b && '<' !in c && '\n' !in c
    requires |a| > 4 && a[4] != 'p'
    ensures PlainLine(['<'] + (a + (b + c)))
  {
    InNone(a, b, c, '<');
    InNone(a, b, c, '\n');
    CommentIsPlain(a + (b + c));
  }

  lemma InNone(a: string, b: string, c: string, x: char)
    requires x !in a && x !in b && x !in c
    ensures x !in a + (b + c)
  {
    InNeither(b, c, x);
    InNeither(a, b + c, x);
  }

  /** A comment that is not the end marker. */
  lemma CommentIsPlain(rest: string)
    requires '<' !in rest && '\n' !in rest && |rest| > 4 && rest[4] != 'p'
    ensures PlainLine(['<'] + rest)
  {
    EndStarts();
    EndFifth();
    OneAngle(rest, BLOCK_END);
    OrdinaryIsText(['<'] + rest);
  }

  /** A comment that is not the one looked for. */
  lemma OneAngle(rest: string, pat: string)
    requires |pat| > 5 && pat[0] == '<' && '<' !in rest && |rest| > 4 && rest[4] != pat[5]
    ensures Find(['<'] + rest, pat).None?
  {
    assert rest + "" == rest;
    FindSkips(rest, "", pat);
    assert (['<'] + rest)[1..] == rest;
    NotAtStart(['<'] + rest, pat, 5);
  }

  lemma EndFifth()
    ensures |BLOCK_END| > 5 && BLOCK_END[5] == 'p'
  {
  }

  lemma NotAtStart(s: string, pat: string, k: nat)
    requires k < |s| && k < |pat| && s[k] != pat[k]
    ensures !StartsWith(s, pat)
  {
    assert |pat| <= |s| ==> s[..|pat|][k] == s[k];
  }

  lemma NoticeEndIsPlain()
    ensures PlainLine(NOTICE2)
  {
    var a, b := "     Edit the table and rerun; ", "edits made here are overwritten. -->";
    Absent(a, '<');
    Absent(a, '\n');
    Absent(b, '<');
    Absent(b, '\n');
    DeepIsPlain(a, b);
  }

  lemma DeepIsPlain(a: string, b: string)
    requires |a| > 5 && a[..5] == "     " && a[5] == 'E'
    requires '<' !in a && '\n' !in a && '<' !in b && '\n' !in b
    ensures PlainLine(a + b)
  {
    InNeither(a, b, '<');
    InNeither(a, b, '\n');
    NoEndWithoutAngle(a + b);
    DeepIsText(a, b);
  }

  lemma DeepIsText(a: string, b: string)
    requires |a| > 5 && a[..5] == "     " && a[5] == 'E'
    ensures !IsFence(a + b) && ParseHead(a + b).None?
  {
    assert a + b == "     " + ['E'] + (a[6..] + b);
    FixedStart("     ", 'E', a[6..] + b);
    assert FENCE[0] == '`' && (a + b)[0] == a[..5][0];
  }

  lemma NoteIsPlain()
    ensures PlainLine(NOTE)
  {
    Absent(NOTE, '<');
    Absent(NOTE, '\n');
    OrdinaryIsPlain(NOTE);
  }

  lemma OrdinaryIsPlain(l: Line)
    requires '<' !in l && '\n' !in l
    requires l != "" && !IsSpace(l[0]) && l[0] != '#' && l[0] != '`'
    ensures PlainLine(l)
  {
    NoEndWithoutAngle(l);
    OrdinaryIsText(l);
  }

  lemma IndentsAre()
    ensures IsIndent(STATUS) && IsIndent(COVERS) && IsIndent(LINK) && IsIndent(MEANWHILE)
  {
    assert STATUS[..4] == "    " && COVERS[..4] == "    " && LINK[..4] == "    " && MEANWHILE[..4] == "    ";
  }

  lemma MeanwhileIsPlain()
    ensures PlainLine(MEANWHILE)
  {
    IndentsAre();
    IndentIsPlain(MEANWHILE);
  }

  lemma IndentIsPlain(prefix: string)
    requires IsIndent(prefix)
    ensures PlainLine(prefix)
  {
    IndentedIsText(prefix, "");
    assert prefix + "" == prefix;
    NoEndWithoutAngle(prefix);
  }

  lemma FixedLinesArePlain()
    ensures AllPlain([NOTICE1, NOTICE2, "", NOTE, ""]) && AllPlain(["", MEANWHILE, ""]) && AllPlain([""])
  {
    NoticeIsPlain();
    NoticeEndIsPlain();
    NoteIsPlain();
    MeanwhileIsPlain();
    PlainLists(NOTICE1, NOTICE2, NOTE, MEANWHILE);
  }

  lemma PlainLists(a: Line, b: Line, c: Line, d: Line)
    requires PlainLine(a) && PlainLine(b) && PlainLine(c) && PlainLine(d)
    ensures AllPlain([a, b, "", c, ""]) && AllPlain(["", d, ""]) && AllPlain([""])
  {
    assert PlainLine("");
  }

  // ---------------------------------------------------------------------
  // Which blocks are well formed
  // ---------------------------------------------------------------------

  /** A field that may stand in a block: no end marker in its first line, and plain
      lines after it. */
  predicate FieldIsPlain(field: string) {
    var lines := Split(field, '\n');
    Find(lines[0], BLOCK_END).None? && AllPlain(lines[1..])
  }

  /** A field of one line may hold anything but the end marker. */
  lemma OneLineField(field: string)
    requires '\n' !in field
    ensures FieldIsPlain(field) <==> Find(field, BLOCK_END).None?
  {
    SplitPlain(field, '\n');
  }

  lemma FieldLinesPlain(prefix: string, field: string)
    requires IsIndent(prefix)
    ensures AllPlain(FieldLines(prefix, field)) <==> FieldIsPlain(field)
  {
    var lines := Split(field, '\n');
    var first := prefix + lines[0];
    IndentedIsText(prefix, lines[0]);
    EndStarts();
    FindSkips(prefix, lines[0], BLOCK_END);
    assert '\n' !in lines[0];
    InNeither(prefix, lines[0], '\n');
    PlainConcat([first], lines[1..]);
    PlainOne(first);
  }

  lemma PlainOne(l: Line)
    ensures AllPlain([l]) <==> PlainLine(l)
  {
    assert [l][0] == l;
  }

  lemma {:induction false} SeeLinesPlain(see: seq<string>)
    ensures AllPlain(SeeLines(see)) <==> forall k :: 0 <= k < |see| ==> FieldIsPlain(see[k])
    decreases |see|
  {
    if see != [] {
      IndentsAre();
      FieldLinesPlain(LINK, see[0]);
      SeeLinesPlain(see[1..]);
      PlainConcat(FieldLines(LINK, see[0]), SeeLines(see[1..]));
      assert forall k :: 0 <= k < |see| - 1 ==> see[1..][k] == see[k + 1];
      assert forall k :: 0 < k < |see| ==> see[k] == see[1..][k - 1];
    }
  }

  lemma FieldsPlain(status: string, covers: string)
    ensures AllPlain(Fields(status, covers)) <==> FieldIsPlain(status) && FieldIsPlain(covers)
  {
    IndentsAre();
    FieldLinesPlain(STATUS, status);
    FieldLinesPlain(COVERS, covers);
    FixedLinesArePlain();
    PlainConcat([""], FieldLines(COVERS, covers));
    PlainConcat(FieldLines(STATUS, status), [""] + FieldLines(COVERS, covers));
  }

  lemma LinksPlain(see: seq<string>)
    ensures AllPlain(Links(see)) <==> forall k :: 0 <= k < |see| ==> FieldIsPlain(see[k])
  {
    SeeLinesPlain(see);
    FixedLinesArePlain();
    PlainConcat(["", MEANWHILE, ""], SeeLines(see));
  }

  lemma BetweenMarkers(body: seq<Line>)
    ensures WellFormedBlock([BLOCK_START] + body + [BLOCK_END]) <==> AllPlain(body)
  {
    var block := [BLOCK_START] + body + [BLOCK_END];
    assert forall k :: 0 < k < |block| - 1 ==> block[k] == body[k - 1];
    assert forall k :: 0 <= k < |body| ==> body[k] == block[k + 1];
  }

  /** Fields that bring no heading, no fence and no end marker into the block, over
      however many lines, are enough for a block to keep; they are not needed. */
  lemma RenderedBlocksAreWellFormed(status: string, covers: string, see: seq<string>)
    ensures WellFormedBlock(RenderBlock(status, covers, see)) <==>
      FieldIsPlain(status) && FieldIsPlain(covers) && forall k :: 0 <= k < |see| ==> FieldIsPlain(see[k])
  {
    var notice := [NOTICE1, NOTICE2, "", NOTE, ""];
    FieldsPlain(status, covers);
    LinksPlain(see);
    FixedLinesArePlain();
    PlainConcat(notice, Fields(status, covers));
    PlainConcat(notice + Fields(status, covers), Links(see));
    PlainConcat(notice + Fields(status, covers) + Links(see), [""]);
    BetweenMarkers(BlockBody(status, covers, see));
  }

  // ---------------------------------------------------------------------
  // Which blocks rendering keeps
  // ---------------------------------------------------------------------

  /** The lines of a field after its first, which stand in the block as they are. */
  function Later(field: string): seq<Line> {
    Split(field, '\n')[1..]
  }

  function LaterAll(see: seq<string>): seq<Line> {
    if see == [] then [] else Later(see[0]) + LaterAll(see[1..])
  }

  function LaterLines(status: string, covers: string, see: seq<string>): seq<Line> {
    Later(status) + Later(covers) + LaterAll(see)
  }

  /** Two texts with the same headings and fences, as far as keeping a block goes. */
  ghost predicate Alike(lines: seq<Line>, other: seq<Line>) {
    forall fenced ::
      Quiet(lines, fenced) == Quiet(other, fenced) && FenceAfter(lines, fenced) == FenceAfter(other, fenced)
  }

  lemma AlikeConcat(a: seq<Line>, a': seq<Line>, b: seq<Line>, b': seq<Line>)
    requires Alike(a, a') && Alike(b, b')
    ensures Alike(a + b, a' + b')
  {
    forall fenced: bool
      ensures Quiet(a + b, fenced) == Quiet(a' + b', fenced)
      ensures FenceAfter(a + b, fenced) == FenceAfter(a' + b', fenced)
    {
      QuietConcat(a, b, fenced);
      QuietConcat(a', b', fenced);
    }
  }

  predicate IsText(l: Line) {
    !IsFence(l) && ParseHead(l).None?
  }

  lemma {:induction false} TextAlike(lines: seq<Line>)
    requires forall k :: 0 <= k < |lines| ==> IsText(lines[k])
    ensures Alike(lines, [])
    decreases |lines|
  {
    if lines != [] {
      assert IsText(lines[0]);
      TextAlike(lines[1..]);
    }
  }

  lemma FieldAlike(prefix: string, field: string)
    requires IsIndent(prefix)
    ensures Alike(FieldLines(prefix, field), Later(field))
  {
    var first := prefix + Split(field, '\n')[0];
    IndentedIsText(prefix, Split(field, '\n')[0]);
    TextAlike([first]);
    AlikeConcat([first], [], Later(field), Later(field));
    assert [] + Later(field) == Later(field);
  }

  lemma {:induction false} SeeAlike(see: seq<string>)
    ensures Alike(SeeLines(see), LaterAll(see))
    decreases |see|
  {
    if see != [] {
      IndentsAre();
      FieldAlike(LINK, see[0]);
      SeeAlike(see[1..]);
      AlikeConcat(FieldLines(LINK, see[0]), Later(see[0]), SeeLines(see[1..]), LaterAll(see[1..]));
    }
  }

  lemma PlainAlike(lines: seq<Line>)
    requires AllPlain(lines)
    ensures Alike(lines, [])
  {
    forall k | 0 <= k < |lines|
      ensures IsText(lines[k])
    {
      assert PlainLine(lines[k]);
    }
    TextAlike(lines);
  }

  lemma FieldsAlike(status: string, covers: string)
    ensures Alike(Fields(status, covers), Later(status) + Later(covers))
  {
    IndentsAre();
    FixedLinesArePlain();
    FieldAlike(STATUS, status);
    FieldAlike(COVERS, covers);
    PlainAlike([""]);
    AlikeConcat([""], [], FieldLines(COVERS, covers), Later(covers));
    assert [] + Later(covers) == Later(covers);
    AlikeConcat(FieldLines(STATUS, status), Later(status), [""] + FieldLines(COVERS, covers), Later(covers));
  }

  lemma LinksAlike(see: seq<string>)
    ensures Alike(Links(see), LaterAll(see))
  {
    FixedLinesArePlain();
    PlainAlike(["", MEANWHILE, ""]);
    SeeAlike(see);
    AlikeConcat(["", MEANWHILE, ""], [], SeeLines(see), LaterAll(see));
    assert [] + LaterAll(see) == LaterAll(see);
  }

  lemma BodyAlike(status: string, covers: string, see: seq<string>)
    ensures Alike(BlockBody(status, covers, see), LaterLines(status, covers, see))
  {
    var notice, fields, links := [NOTICE1, NOTICE2, "", NOTE, ""], Fields(status, covers), Links(see);
    var later := Later(status) + Later(covers);
    FixedLinesArePlain();
    PlainAlike(notice);
    PlainAlike([""]);
    FieldsAlike(status, covers);
    LinksAlike(see);
    AlikeConcat(notice, [], fields, later);
    AlikeConcat(notice + fields, [] + later, links, LaterAll(see));
    AlikeConcat(notice + fields + links, [] + later + LaterAll(see), [""], []);
    assert [] + later + LaterAll(see) + [] == LaterLines(status, covers, see);
  }

  lemma BlockAlike(body: seq<Line>, later: seq<Line>)
    requires Alike(body, later)
    ensures Alike([BLOCK_START] + body + [BLOCK_END], later)
  {
    MarkersArePlain();
    TextAlike([BLOCK_START]);
    TextAlike([BLOCK_END]);
    AlikeConcat([BLOCK_START], [], body, later);
    AlikeConcat([BLOCK_START] + body, [] + later, [BLOCK_END], []);
    assert [] + later + [] == later;
  }

  lemma BlockTrimmed(body: seq<Line>)
    ensures var block := [BLOCK_START] + body + [BLOCK_END]; block != [] && Trimmed(block)
  {
    MarkersArePlain();
  }

  /** Main result: rendering keeps an entry's block if and only if the later lines of
      its fields, one after the other, hold no heading outside their fences and leave no
      fence open, and the block reads as no written text. */
  lemma EntryKeptExactly(status: string, covers: string, see: seq<string>)
    ensures var block, later := RenderBlock(status, covers, see), LaterLines(status, covers, see);
      Keepable(block) <==> Quiet(later, false) && !FenceAfter(later, false) && IsEmptyBody(block)
  {
    BodyAlike(status, covers, see);
    BlockAlike(BlockBody(status, covers, see), LaterLines(status, covers, see));
    BlockTrimmed(BlockBody(status, covers, see));
  }

  predicate NoEnds(lines: seq<Line>) {
    forall k :: 0 <= k < |lines| ==> Find(lines[k], BLOCK_END).None?
  }

  predicate EndFree(field: string) {
    NoEnds(Split(field, '\n'))
  }

  lemma NoEndsConcat(a: seq<Line>, b: seq<Line>)
    requires NoEnds(a) && NoEnds(b)
    ensures NoEnds(a + b)
  {
  }

  lemma FieldEndFree(prefix: string, field: string)
    requires IsIndent(prefix) && EndFree(field)
    ensures NoEnds(FieldLines(prefix, field))
  {
    var lines := Split(field, '\n');
    EndStarts();
    FindSkips(prefix, lines[0], BLOCK_END);
    NoEndsConcat([prefix + lines[0]], lines[1..]);
  }

  lemma {:induction false} SeeEndFree(see: seq<string>)
    requires forall k :: 0 <= k < |see| ==> EndFree(see[k])
    ensures NoEnds(SeeLines(see))
    decreases |see|
  {
    if see != [] {
      IndentsAre();
      FieldEndFree(LINK, see[0]);
      SeeEndFree(see[1..]);
      NoEndsConcat(FieldLines(LINK, see[0]), SeeLines(see[1..]));
    }
  }

  lemma PlainEndFree(lines: seq<Line>)
    requires AllPlain(lines)
    ensures NoEnds(lines)
  {
    assert forall k :: 0 <= k < |lines| ==> PlainLine(lines[k]);
  }

  lemma BodyEndFree(status: string, covers: string, see: seq<string>)
    requires EndFree(status) && EndFree(covers) && forall k :: 0 <= k < |see| ==> EndFree(see[k])
    ensures NoEnds(BlockBody(status, covers, see))
  {
    var notice := [NOTICE1, NOTICE2, "", NOTE, ""];
    FixedLinesArePlain();
    PlainEndFree(notice);
    PlainEndFree([""]);
    PlainEndFree(["", MEANWHILE, ""]);
    IndentsAre();
    FieldEndFree(STATUS, status);
    FieldEndFree(COVERS, covers);
    SeeEndFree(see);
    NoEndsConcat([""], FieldLines(COVERS, covers));
    NoEndsConcat(FieldLines(STATUS, status), [""] + FieldLines(COVERS, covers));
    NoEndsConcat(["", MEANWHILE, ""], SeeLines(see));
    NoEndsConcat(notice, Fields(status, covers));
    NoEndsConcat(notice + Fields(status, covers), Links(see));
    NoEndsConcat(notice + Fields(status, covers) + Links(see), [""]);
  }

  /** When no field holds an end marker, only headings and fences in the later lines
      matter. */
  lemma EndFreeEntry(status: string, covers: string, see: seq<string>)
    requires EndFree(status) && EndFree(covers) && forall k :: 0 <= k < |see| ==> EndFree(see[k])
    ensures var later := LaterLines(status, covers, see);
      Keepable(RenderBlock(status, covers, see)) <==> Quiet(later, false) && !FenceAfter(later, false)
  {
    var body := BlockBody(status, covers, see);
    BodyEndFree(status, covers, see);
    EntryKeptExactly(status, covers, see);
    assert EndsOnce([BLOCK_START] + body + [BLOCK_END]);
    BlockIsEmptyBody([BLOCK_START] + body + [BLOCK_END]);
  }

  lemma FieldOneLine(prefix: string, field: string)
    requires IsIndent(prefix)
    ensures OneLines(FieldLines(prefix, field))
  {
    var lines := Split(field, '\n');
    InNeither(prefix, lines[0], '\n');
    OneLinesConcat([prefix + lines[0]], lines[1..]);
  }

  lemma {:induction false} SeeOneLine(see: seq<string>)
    ensures OneLines(SeeLines(see))
    decreases |see|
  {
    if see != [] {
      IndentsAre();
      FieldOneLine(LINK, see[0]);
      SeeOneLine(see[1..]);
      OneLinesConcat(FieldLines(LINK, see[0]), SeeLines(see[1..]));
    }
  }

  lemma PlainOneLine(lines: seq<Line>)
    requires AllPlain(lines)
    ensures OneLines(lines)
  {
    assert forall k :: 0 <= k < |lines| ==> PlainLine(lines[k]);
  }

  /** A block's lines are lines, whatever the fields hold. */
  lemma BlockOneLine(status: string, covers: string, see: seq<string>)
    ensures OneLines(RenderBlock(status, covers, see))
  {
    var notice := [NOTICE1, NOTICE2, "", NOTE, ""];
    FixedLinesArePlain();
    PlainOneLine(notice);
    PlainOneLine([""]);
    PlainOneLine(["", MEANWHILE, ""]);
    IndentsAre();
    FieldOneLine(STATUS, status);
    FieldOneLine(COVERS, covers);
    SeeOneLine(see);
    OneLinesConcat([""], FieldLines(COVERS, covers));
    OneLinesConcat(FieldLines(STATUS, status), [""] + FieldLines(COVERS, covers));
    OneLinesConcat(["", MEANWHILE, ""], SeeLines(see));
    OneLinesConcat(notice, Fields(status, covers));
    OneLinesConcat(notice + Fields(status, covers), Links(see));
    OneLinesConcat(notice + Fields(status, covers) + Links(see), [""]);
    MarkersOneLine();
    OneLinesConcat([BLOCK_START], BlockBody(status, covers, see));
    OneLinesConcat([BLOCK_START] + BlockBody(status, covers, see), [BLOCK_END]);
  }

  lemma MarkersOneLine()
    ensures OneLines([BLOCK_START]) && OneLines([BLOCK_END])
  {
    EndHasNoNewline();
    assert forall k :: 0 <= k < |BLOCK_START| ==> BLOCK_START[k] != '\n';
  }

  /** A table of possible headings with the blocks of some entries. */
  ghost predicate IsTable(heads: Heads) {
    forall n :: n in heads ==>
      IsName(n) && exists status, covers, see :: heads[n].block == RenderBlock(status, covers, see)
  }

  /** So for the tables the generator works from, rendering the rendered page changes
      neither page nor reports, whatever the page, if and only if each entry is so. */
  lemma TableKeptExactly(heads: Heads)
    requires IsTable(heads)
    ensures AlwaysSame(heads) <==> BlocksKeepable(heads)
  {
    forall n | n in heads
      ensures heads[n].block != [] && Trimmed(heads[n].block)
    {
      var status, covers, see :| heads[n].block == RenderBlock(status, covers, see);
      BlockTrimmed(BlockBody(status, covers, see));
    }
    KeptExactly(heads);
  }

  // ---------------------------------------------------------------------
  // A heading inside a block
  // ---------------------------------------------------------------------

  lemma {:induction false} NoEndInLines(lines: seq<Line>)
    requires AllPlain(lines)
    ensures Find(Chars(lines), BLOCK_END).None?
    decreases |lines|
  {
    if lines != [] {
      NoEndInLines(lines[1..]);
      EndHasNoNewline();
      FindPastLine(lines[0], Chars(lines[1..]), BLOCK_END);
    } else {
      NoEndWithoutAngle("");
    }
  }

  /** A block cut off before its end marker is written text. */
  lemma CutBlockIsText(lines: seq<Line>)
    requires AllPlain(lines)
    ensures !IsEmptyBody(["", BLOCK_START] + lines)
  {
    var rest := "\n" + Chars(lines);
    assert (["", BLOCK_START] + lines)[1..] == [BLOCK_START] + lines;
    assert ([BLOCK_START] + lines)[1..] == lines;
    assert Chars([BLOCK_START] + lines) == BLOCK_START + "\n" + Chars(lines) == BLOCK_START + rest;
    assert Chars(["", BLOCK_START] + lines) == "" + "\n" + (BLOCK_START + rest) == "\n" + (BLOCK_START + rest);
    NoEndInLines([""] + lines) by {
      PlainConcat([""], lines);
      FixedLinesArePlain();
    }
    assert ([""] + lines)[1..] == lines && Chars([""] + lines) == "" + "\n" + Chars(lines) == rest;
    StartIsNoSpace(rest);
  }

  lemma StartIsNoSpace(rest: string)
    requires Find(rest, BLOCK_END).None?
    ensures !BlankButBlocks("\n" + (BLOCK_START + rest))
  {
    var s := BLOCK_START + rest;
    assert s[|BLOCK_START|..] == rest && s[0] == '<';
    assert !BlankButBlocks(s);
    assert ("\n" + s)[1..] == s;
    NotAtStart("\n" + s, BLOCK_START, 0);
  }

  lemma RegroupAtHead(s: Line, n: seq<Line>, f: seq<Line>, c: Line, h: Line, l: seq<Line>, e: Line)
    ensures [s] + (n + (f + ([""] + ([c] + [h]))) + l + [""]) + [e] ==
            ([s] + (n + (f + ([""] + [c])))) + ([h] + (l + [""] + [e]))
  {
  }

  lemma CoversWithHeading(status: string, first: string, h: Line, see: seq<string>)
    returns (before: seq<Line>, after: seq<Line>)
    requires FieldIsPlain(status) && '\n' !in first && '\n' !in h && Find(first, BLOCK_END).None?
    ensures AllPlain(before) && before != [] && before[|before| - 1] != ""
    ensures RenderBlock(status, first + "\n" + h, see) == ([BLOCK_START] + before) + ([h] + after)
  {
    var notice := [NOTICE1, NOTICE2, "", NOTE, ""];
    before := notice + Fields(status, first);
    after := Links(see) + [""] + [BLOCK_END];
    CoversOfTwo(first, h);
    FixedLinesArePlain();
    OneLineField(first);
    FieldsPlain(status, first);
    PlainConcat(notice, Fields(status, first));
    RegroupAtHead(BLOCK_START, notice, FieldLines(STATUS, status), COVERS + first, h, Links(see), BLOCK_END);
  }

  lemma CoversOfTwo(first: string, h: Line)
    requires '\n' !in first && '\n' !in h
    ensures FieldLines(COVERS, first) == [COVERS + first]
    ensures FieldLines(COVERS, first + "\n" + h) == [COVERS + first] + [h]
  {
    SplitField(first, '\n', h);
    SplitPlain(h, '\n');
    SplitPlain(first, '\n');
    assert first + ['\n'] + h == first + "\n" + h;
  }

  lemma TextBeforeHead(before: seq<Line>)
    requires AllPlain(before) && before != [] && before[|before| - 1] != ""
    ensures var text := [BLOCK_START] + before;
      && (forall k :: 0 <= k < |text| ==> !IsFence(text[k]) && ParseHead(text[k]).None?)
      && Trimmed(text) && !IsEmptyBody(text)
  {
    StartThenPlain(before);
    StartTrimmed(BLOCK_START, before) by { MarkersArePlain(); }
    StartWritten(before);
  }

  lemma StartTrimmed(start: Line, before: seq<Line>)
    requires start != "" && before != [] && before[|before| - 1] != ""
    ensures Trimmed([start] + before)
  {
  }

  lemma StartWritten(before: seq<Line>)
    requires AllPlain(before)
    ensures !IsEmptyBody([BLOCK_START] + before)
  {
    CutBlockIsText(before);
    GapIgnored([BLOCK_START] + before);
    assert ["", BLOCK_START] + before == [""] + ([BLOCK_START] + before);
  }

  lemma StartThenPlain(before: seq<Line>)
    requires AllPlain(before)
    ensures var text := [BLOCK_START] + before;
      forall k :: 0 <= k < |text| ==> !IsFence(text[k]) && ParseHead(text[k]).None?
  {
    var text := [BLOCK_START] + before;
    MarkersArePlain();
    forall k | 0 <= k < |text|
      ensures !IsFence(text[k]) && ParseHead(text[k]).None?
    {
      assert k > 0 ==> PlainLine(before[k - 1]);
    }
  }

  /** So an entry whose `covers` has a heading as its second line gives a page that a
      second rendering changes, although no field holds an end marker. */
  lemma HeadingInCovers(status: string, first: string, h: Line, see: seq<string>,
                        title: Line, line: Line, heads: Heads)
    requires FieldIsPlain(status) && '\n' !in first && '\n' !in h
    requires Find(first, BLOCK_END).None? && ParseHead(h).Some?
    requires TitleAt([title], false) == Some(0) && ParseHead(line).Some? && ParseHead(line).value.name in heads
    requires heads[ParseHead(line).value.name].block == RenderBlock(status, first + "\n" + h, see)
    ensures TitleAt([title, line], false) == Some(0)
    ensures var r := Render([title, line], heads);
      TitleAt(r.lines, false).Some? && Render(r.lines, heads).lines != r.lines
  {
    var before, after := CoversWithHeading(status, first, h, see);
    TextBeforeHead(before);
    HeadingMoved(title, line, heads, [BLOCK_START] + before, h, after);
  }

  lemma NamedInCovers(covers: string, status: string, first: string, inner: string, see: seq<string>,
                      name: string, key: string, page: seq<Line>, heads: Heads)
    requires FieldIsPlain(status) && '\n' !in first && '\n' !in inner && Find(first, BLOCK_END).None?
    requires inner != [] && !IsSpace(inner[0]) && !IsSpace(inner[|inner| - 1])
    requires name != [] && !IsSpace(name[0]) && !IsSpace(name[|name| - 1])
    requires covers == first + "\n" + ("## " + inner) && page == ["# T", "## " + name]
    requires heads == map[name := Entry(key, RenderBlock(status, covers, see))]
    ensures TitleAt(page, false) == Some(0)
    ensures var r := Render(page, heads);
      TitleAt(r.lines, false).Some? && Render(r.lines, heads).lines != r.lines
  {
    NamedHeading(inner);
    NamedHeading(name);
    TitleIsTitle();
    HeadingInCovers(status, first, "## " + inner, see, "# T", "## " + name, heads);
  }

  /** For one, `covers` of "x" and "## y.", which meets the checks of the table. */
  lemma SomeHeadingInCovers(covers: string, status: string, see: seq<string>, key: string,
                            page: seq<Line>, heads: Heads)
    requires FieldIsPlain(status) && covers == "x\n## y."
    requires page == ["# T", "## A"] && heads == map["A" := Entry(key, RenderBlock(status, covers, see))]
    ensures TitleAt(page, false) == Some(0)
    ensures var r := Render(page, heads);
      TitleAt(r.lines, false).Some? && Render(r.lines, heads).lines != r.lines
  {
    SameCovers(covers, page);
    NoEndWithoutAngle("x");
    NamedInCovers(covers, status, "x", "y.", see, "A", key, page, heads);
  }

  lemma SameCovers(covers: string, page: seq<Line>)
    requires covers == "x\n## y." && page == ["# T", "## A"]
    ensures covers == "x" + "\n" + ("## " + "y.") && page == ["# T", "## " + "A"]
  {
    var inner, heading := "## " + "y.", "## " + "A";
    assert covers[2..] == inner && covers[..2] == "x" + "\n" && covers == covers[..2] + covers[2..];
    assert page[1] == heading;
  }
}
