/** What counts as written text of a unit page, tools/gen_doc_placeholders.py: every line
    that is not blank and stands outside the generated blocks. */
module UnitWritten {
  import opened Text
  import opened UnitPage
  import opened UnitRender

  /** A body is text and blocks: lines without a start marker, and blocks that end
      once. */
  datatype Part = Prose(lines: seq<Line>) | Block(lines: seq<Line>)

  predicate IsPart(p: Part) {
    match p
    case Prose(lines) => forall k :: 0 <= k < |lines| ==> Find(lines[k], BLOCK_START).None?
    case Block(lines) => EndsOnce(lines)
  }

  predicate AreParts(parts: seq<Part>) {
    forall k :: 0 <= k < |parts| ==> IsPart(parts[k])
  }

  function LinesOf(parts: seq<Part>): seq<Line> {
    if parts == [] then [] else parts[0].lines + LinesOf(parts[1..])
  }

  /** No line outside the blocks says anything. */
  predicate NothingWritten(parts: seq<Part>) {
    forall k :: 0 <= k < |parts| && parts[k].Prose? ==> Blank(parts[k].lines)
  }

  /** Lines with something outside their blocks. */
  ghost predicate IsWritten(lines: seq<Line>) {
    exists parts :: AreParts(parts) && LinesOf(parts) == lines && !NothingWritten(parts)
  }

  // ---------------------------------------------------------------------
  // Reading on after a line and after a block
  // ---------------------------------------------------------------------

  lemma NotOpened(l: Line, rest: string, pat: string)
    requires Find(l, pat).None? && '\n' !in pat
    ensures !StartsWith(l + "\n" + rest, pat)
  {
    var s := l + "\n" + rest;
    if |pat| <= |l| {
      assert s[..|pat|] == l[..|pat|];
    } else {
      assert s[|l|] == '\n';
      assert pat[|l|] in pat;
    }
  }

  lemma StartHasNoNewline()
    ensures '\n' !in BLOCK_START
  {
    assert forall k :: 0 <= k < |BLOCK_START| ==> BLOCK_START[k] != '\n';
  }

  /** A line without a start marker must be blank. */
  lemma {:induction false} AfterLine(l: Line, rest: string)
    requires Find(l, BLOCK_START).None?
    ensures BlankButBlocks(l + "\n" + rest) <==> LStrip(l) == "" && BlankButBlocks(rest)
    decreases |l|
  {
    var s := l + "\n" + rest;
    StartHasNoNewline();
    NotOpened(l, rest, BLOCK_START);
    if l == [] {
      assert s[1..] == rest;
    } else {
      assert s[0] == l[0] && s[1..] == l[1..] + "\n" + rest;
      AfterLine(l[1..], rest);
    }
  }

  lemma {:induction false} AfterLines(lines: seq<Line>, rest: string)
    requires forall k :: 0 <= k < |lines| ==> Find(lines[k], BLOCK_START).None?
    ensures BlankButBlocks(Chars(lines) + rest) <==> Blank(lines) && BlankButBlocks(rest)
    decreases |lines|
  {
    if lines == [] {
      assert Chars(lines) + rest == rest;
    } else {
      var l, tail := lines[0], lines[1..];
      AfterLines(tail, rest);
      AfterLine(l, Chars(tail) + rest);
      LineThen(l, Chars(tail), rest);
      BlankCons(lines);
    }
  }

  lemma LineThen(l: Line, tail: string, rest: string)
    ensures l + "\n" + tail + rest == l + "\n" + (tail + rest)
  {
  }

  lemma BlankCons(lines: seq<Line>)
    requires lines != []
    ensures Blank(lines) <==> LStrip(lines[0]) == "" && Blank(lines[1..])
  {
    assert forall k :: 0 < k < |lines| ==> lines[k] == lines[1..][k - 1];
    assert forall k :: 0 <= k < |lines| - 1 ==> lines[1..][k] == lines[k + 1];
  }

  /** A block that ends once is passed over, and nothing after it. */
  lemma AfterBlock(block: seq<Line>, rest: string)
    requires EndsOnce(block)
    ensures BlankButBlocks(Chars(block) + rest) <==> BlankButBlocks(rest)
  {
    var mid := block[1..|block| - 1];
    assert block == [BLOCK_START] + mid + [BLOCK_END];
    assert forall k :: 0 <= k < |mid| ==> mid[k] == block[k + 1];
    BlockCharsThen(mid, rest);
    EndFound(mid, rest);
    PastBlock("\n" + (Chars(mid) + (BLOCK_END + ("\n" + rest))), 1 + |Chars(mid)|, "\n" + rest);
    NewlineThen(rest);
  }

  /** The end marker is found after the block's lines. */
  lemma EndFound(mid: seq<Line>, rest: string)
    requires forall k :: 0 <= k < |mid| ==> Find(mid[k], BLOCK_END).None?
    ensures var s := "\n" + (Chars(mid) + (BLOCK_END + ("\n" + rest)));
      var k := 1 + |Chars(mid)|;
      && Find(s, BLOCK_END) == Some(k)
      && k + |BLOCK_END| <= |s| && s[k + |BLOCK_END|..] == "\n" + rest
  {
    var tail := BLOCK_END + ("\n" + rest);
    FindPastLines(mid, tail) by {
      OpensTail(BLOCK_END, "\n" + rest);
    }
    FindPastGap(Chars(mid) + tail);
    CutPast("\n", Chars(mid), BLOCK_END, "\n" + rest);
  }

  lemma OpensTail(a: string, b: string)
    ensures StartsWith(a + b, a)
  {
  }

  lemma CutPast(x: string, a: string, b: string, c: string)
    ensures var s := x + (a + (b + c));
      var k := |x| + |a|;
      k + |b| <= |s| && s[k + |b|..] == c
  {
  }

  lemma BlockCharsThen(mid: seq<Line>, rest: string)
    ensures Chars([BLOCK_START] + mid + [BLOCK_END]) + rest ==
      BLOCK_START + ("\n" + (Chars(mid) + (BLOCK_END + ("\n" + rest))))
  {
    BlockChars(mid);
    EndThen(BLOCK_START, Chars(mid), BLOCK_END, rest);
  }

  lemma EndThen(a: string, b: string, c: string, rest: string)
    ensures a + ("\n" + (b + (c + "\n"))) + rest == a + ("\n" + (b + (c + ("\n" + rest))))
  {
  }

  lemma PastBlock(s: string, k: nat, rest: string)
    requires Find(s, BLOCK_END) == Some(k) && k + |BLOCK_END| <= |s| && s[k + |BLOCK_END|..] == rest
    ensures BlankButBlocks(BLOCK_START + s) <==> BlankButBlocks(rest)
  {
    assert (BLOCK_START + s)[|BLOCK_START|..] == s;
    assert StartsWith(BLOCK_START + s, BLOCK_START);
  }

  lemma NewlineThen(rest: string)
    ensures BlankButBlocks("\n" + rest) <==> BlankButBlocks(rest)
  {
    assert ("\n" + rest)[1..] == rest;
    assert ("\n" + rest)[0] != BLOCK_START[0];
  }

  lemma {:induction false} AfterParts(parts: seq<Part>)
    requires AreParts(parts)
    ensures BlankButBlocks(Chars(LinesOf(parts))) <==> NothingWritten(parts)
    decreases |parts|
  {
    if parts != [] {
      var p, rest := parts[0], parts[1..];
      assert IsPart(p) && forall k :: 0 <= k < |rest| ==> rest[k] == parts[k + 1];
      AfterParts(rest);
      CharsConcat(p.lines, LinesOf(rest));
      if p.Prose? {
        AfterLines(p.lines, Chars(LinesOf(rest)));
      } else {
        AfterBlock(p.lines, Chars(LinesOf(rest)));
      }
      assert forall k :: 0 < k < |parts| ==> parts[k] == rest[k - 1];
    }
  }

  // ---------------------------------------------------------------------
  // The main results
  // ---------------------------------------------------------------------

  /** Main result: a body of text and blocks is empty exactly when nothing outside its
      blocks is written. */
  lemma EmptyExactly(parts: seq<Part>)
    requires AreParts(parts)
    ensures IsEmptyBody(LinesOf(parts)) <==> NothingWritten(parts)
  {
    AfterParts(parts);
  }

  /** What follows a block decides. */
  lemma BlockThen(block: seq<Line>, rest: seq<Line>)
    requires EndsOnce(block)
    ensures IsEmptyBody(block + rest) <==> IsEmptyBody(rest)
  {
    CharsConcat(block, rest);
    AfterBlock(block, Chars(rest));
  }

  /** A block whose end is missing is no block: without an end marker only blank text is
      an empty body. */
  lemma {:induction false} UnclosedIsText(s: string)
    requires Find(s, BLOCK_END).None?
    ensures BlankButBlocks(s) <==> LStrip(s) == ""
    decreases |s|
  {
    if s != [] {
      if StartsWith(s, BLOCK_START) {
        LaterNone(s, |BLOCK_START|);
        assert !IsSpace(s[0]);
      } else if IsSpace(s[0]) {
        LaterNone(s, 1);
        UnclosedIsText(s[1..]);
      }
    }
  }

  lemma {:induction false} LaterNone(s: string, k: nat)
    requires k <= |s| && Find(s, BLOCK_END).None?
    ensures Find(s[k..], BLOCK_END).None?
    decreases k
  {
    if k > 0 {
      LaterNone(s[1..], k - 1);
      assert s[1..][k - 1..] == s[k..];
    }
  }

  /** Written text is no empty body, and not blank. */
  lemma WrittenIsText(lines: seq<Line>)
    requires IsWritten(lines)
    ensures !IsEmptyBody(lines) && !Blank(lines)
  {
    var parts: seq<Part> :| AreParts(parts) && LinesOf(parts) == lines && !NothingWritten(parts);
    EmptyExactly(parts);
    var k :| 0 <= k < |parts| && parts[k].Prose? && !Blank(parts[k].lines);
    PartIn(parts, k);
    var j :| 0 <= j < |parts[k].lines| && LStrip(parts[k].lines[j]) != "";
    assert parts[k].lines[j] in lines;
  }

  lemma {:induction false} PartIn(parts: seq<Part>, k: nat)
    requires k < |parts|
    ensures forall l :: l in parts[k].lines ==> l in LinesOf(parts)
    decreases |parts|
  {
    if k > 0 {
      PartIn(parts[1..], k - 1);
    }
  }
}
