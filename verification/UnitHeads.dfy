/** The heading lines and the title of a unit page, tools/gen_doc_placeholders.py,
    written out: which strings are a heading, and which lines can stand above the
    title. */
module UnitHeads {
  import opened Text
  import opened UnitPage

  // ---------------------------------------------------------------------
  // Headings
  // ---------------------------------------------------------------------

  predicate AllGap(s: string) {
    forall k :: 0 <= k < |s| ==> s[k] in " \t"
  }

  lemma {:induction false} HashesThen(hashes: string, rest: string)
    requires (forall k :: 0 <= k < |hashes| ==> hashes[k] == '#') && (rest == "" || rest[0] != '#')
    ensures Hashes(hashes + rest) == |hashes|
    decreases |hashes|
  {
    if hashes == "" {
      assert hashes + rest == rest;
    } else {
      assert (hashes + rest)[1..] == hashes[1..] + rest;
      HashesThen(hashes[1..], rest);
    }
  }

  lemma {:induction false} SkipGapThen(gap: string, rest: string)
    requires AllGap(gap) && (rest == "" || !Gap(rest[0]))
    ensures SkipGap(gap + rest) == rest
    decreases |gap|
  {
    if gap == "" {
      assert gap + rest == rest;
    } else {
      assert (gap + rest)[1..] == gap[1..] + rest;
      SkipGapThen(gap[1..], rest);
    }
  }

  lemma {:induction false} DropGapThen(s: string, gap: string)
    requires AllGap(gap) && (s == "" || !Gap(s[|s| - 1]))
    ensures DropGap(s + gap) == s
    decreases |gap|
  {
    if gap == "" {
      assert s + gap == s;
    } else {
      assert (s + gap)[..|s + gap| - 1] == s + gap[..|gap| - 1];
      DropGapThen(s, gap[..|gap| - 1]);
    }
  }

  /** A heading line, written out: two to six #, a gap, the name, and perhaps a gap. */
  predicate IsHeadLine(l: Line, hashes: string, gap: string, name: string, tail: string) {
    && l == hashes + (gap + (name + tail))
    && 2 <= |hashes| <= 6 && (forall k :: 0 <= k < |hashes| ==> hashes[k] == '#')
    && gap != "" && AllGap(gap) && AllGap(tail)
    && name != "" && !IsSpace(name[0]) && name[|name| - 1] !in " \t"
  }

  lemma HeadReads(l: Line, hashes: string, gap: string, name: string, tail: string)
    requires IsHeadLine(l, hashes, gap, name, tail)
    ensures ParseHead(l) == Some(Head(|hashes|, name))
  {
    var rest := gap + (name + tail);
    HashesThen(hashes, rest);
    assert (hashes + rest)[|hashes|..] == rest;
    SkipGapThen(gap, name + tail);
    DropGapThen(name, tail);
  }

  lemma {:induction false} SkipsGap(s: string)
    ensures var n := |s| - |SkipGap(s)|; n >= 0 && AllGap(s[..n]) && s[n..] == SkipGap(s)
    ensures SkipGap(s) == "" || !Gap(SkipGap(s)[0])
    decreases |s|
  {
    if s != "" && Gap(s[0]) {
      SkipsGap(s[1..]);
      var n := |s| - |SkipGap(s)|;
      assert s[..n] == [s[0]] + s[1..][..n - 1];
    }
  }

  lemma {:induction false} DropsGap(s: string)
    ensures |DropGap(s)| <= |s| && s[..|DropGap(s)|] == DropGap(s) && AllGap(s[|DropGap(s)|..])
    ensures DropGap(s) == "" || !Gap(DropGap(s)[|DropGap(s)| - 1])
    decreases |s|
  {
    if s != "" && Gap(s[|s| - 1]) {
      var front := s[..|s| - 1];
      DropsGap(front);
      var n := |DropGap(front)|;
      assert s[..n] == front[..n];
      assert s[n..] == front[n..] + [s[|s| - 1]];
    }
  }

  lemma HeadIsWritten(l: Line) returns (hashes: string, gap: string, tail: string)
    requires ParseHead(l).Some?
    ensures |hashes| == ParseHead(l).value.level && IsHeadLine(l, hashes, gap, ParseHead(l).value.name, tail)
  {
    var n := ParseHead(l).value.level;
    AllHashes(l);
    hashes := l[..n];
    var rest := l[n..];
    var g, text := NameAfterGap(rest);
    gap, tail := rest[..g], text[|DropGap(text)|..];
    HeadParts(l, n, g, |DropGap(text)|);
  }

  lemma HeadParts(l: Line, n: nat, g: nat, m: nat)
    requires n + g + m <= |l|
    ensures var rest := l[n..];
      var text := rest[g..];
      l == l[..n] + (rest[..g] + (text[..m] + text[m..]))
  {
    var rest := l[n..];
    assert rest == rest[..g] + rest[g..];
  }

  /** The gap before the name, and the name with the gap after it. */
  lemma NameAfterGap(rest: string) returns (g: nat, text: string)
    requires rest != "" && Gap(rest[0]) && SkipGap(rest) != "" && !IsSpace(SkipGap(rest)[0])
    ensures 0 < g <= |rest| && AllGap(rest[..g]) && text == SkipGap(rest) == rest[g..]
    ensures var name := DropGap(text);
      && |name| <= |text| && text[..|name|] == name && AllGap(text[|name|..])
      && name != "" && name[0] == text[0] && !Gap(name[|name| - 1])
  {
    SkipsGap(rest);
    text := SkipGap(rest);
    g := |rest| - |text|;
    DropsGap(text);
    KeepsFirst(text);
  }

  /** Main result: the heading lines are those written so, and no others. */
  lemma HeadExactly(l: Line, level: nat, name: string)
    ensures ParseHead(l) == Some(Head(level, name)) <==>
      exists hashes, gap, tail :: |hashes| == level && IsHeadLine(l, hashes, gap, name, tail)
  {
    if ParseHead(l) == Some(Head(level, name)) {
      var hashes, gap, tail := HeadIsWritten(l);
      assert IsHeadLine(l, hashes, gap, name, tail);
    }
    if hashes, gap, tail :| |hashes| == level && IsHeadLine(l, hashes, gap, name, tail) {
      HeadReads(l, hashes, gap, name, tail);
    }
  }

  lemma {:induction false} AllHashes(l: Line)
    ensures forall k :: 0 <= k < Hashes(l) ==> l[..Hashes(l)][k] == '#'
    decreases |l|
  {
    if l != [] && l[0] == '#' {
      AllHashes(l[1..]);
      assert l[..Hashes(l)] == [l[0]] + l[1..][..Hashes(l) - 1];
    }
  }

  lemma {:induction false} KeepsFirst(s: string)
    requires s != "" && !Gap(s[0])
    ensures DropGap(s) != "" && DropGap(s)[0] == s[0]
    decreases |s|
  {
    if Gap(s[|s| - 1]) {
      KeepsFirst(s[..|s| - 1]);
    }
  }

  // ---------------------------------------------------------------------
  // The first place a pattern stands
  // ---------------------------------------------------------------------

  predicate StandsAt(s: string, pat: string, k: nat) {
    k + |pat| <= |s| && s[k..k + |pat|] == pat
  }

  predicate Contains(s: string, pat: string) {
    exists k :: 0 <= k <= |s| && StandsAt(s, pat, k)
  }

  lemma StandsLater(s: string, pat: string, j: nat)
    requires s != ""
    ensures StandsAt(s, pat, j + 1) <==> StandsAt(s[1..], pat, j)
  {
    if j + 1 + |pat| <= |s| {
      assert s[j + 1..j + 1 + |pat|] == s[1..][j..j + |pat|];
    }
  }

  lemma StandsFirst(s: string, pat: string)
    ensures StartsWith(s, pat) <==> StandsAt(s, pat, 0)
  {
  }

  lemma {:induction false} FoundFirst(s: string, pat: string, k: nat)
    requires StandsAt(s, pat, k) && forall j: nat :: j < k ==> !StandsAt(s, pat, j)
    ensures Find(s, pat) == Some(k)
    decreases k
  {
    StandsFirst(s, pat);
    if k > 0 {
      assert !StandsAt(s, pat, 0);
      StandsLater(s, pat, k - 1);
      forall j: nat | j < k - 1
        ensures !StandsAt(s[1..], pat, j)
      {
        StandsLater(s, pat, j);
        assert !StandsAt(s, pat, j + 1);
      }
      FoundFirst(s[1..], pat, k - 1);
    }
  }

  lemma {:induction false} FindIsFirst(s: string, pat: string, j: nat)
    requires match Find(s, pat) case Some(k) => j <= k case None => true
    ensures StandsAt(s, pat, j) <==> Find(s, pat) == Some(j)
    decreases |s|
  {
    StandsFirst(s, pat);
    if s != "" && !StartsWith(s, pat) && j > 0 {
      StandsLater(s, pat, j - 1);
      FindIsFirst(s[1..], pat, j - 1);
    }
  }

  lemma FindExactly(s: string, pat: string, k: nat)
    ensures Find(s, pat) == Some(k) <==> StandsAt(s, pat, k) && forall j: nat :: j < k ==> !StandsAt(s, pat, j)
  {
    if Find(s, pat) == Some(k) {
      forall j: nat | j <= k
        ensures StandsAt(s, pat, j) <==> j == k
      {
        FindIsFirst(s, pat, j);
      }
    } else if StandsAt(s, pat, k) && forall j: nat :: j < k ==> !StandsAt(s, pat, j) {
      FoundFirst(s, pat, k);
    }
  }

  lemma FindContains(s: string, pat: string)
    ensures Find(s, pat).Some? <==> Contains(s, pat)
  {
    if Find(s, pat).Some? {
      FindExactly(s, pat, Find(s, pat).value);
    }
    if k :| 0 <= k <= |s| && StandsAt(s, pat, k) {
      FindIsFirst(s, pat, if Find(s, pat).Some? && Find(s, pat).value < k then Find(s, pat).value else k);
    }
  }

  // ---------------------------------------------------------------------
  // The title
  // ---------------------------------------------------------------------

  /** A comment: it opens with the first of its lines and closes with the last. */
  predicate IsComment(lines: seq<Line>) {
    && lines != []
    && StartsWith(Strip(lines[0]), "<!--")
    && Contains(Strip(lines[|lines| - 1]), "-->")
    && forall k :: 0 <= k < |lines| - 1 ==> !Contains(Strip(lines[k]), "-->")
  }

  /** Empty lines and comments. */
  predicate IsHeader(lines: seq<Line>)
    decreases |lines|
  {
    || lines == []
    || (Strip(lines[0]) == "" && IsHeader(lines[1..]))
    || exists n :: 0 < n <= |lines| && IsComment(lines[..n]) && IsHeader(lines[n..])
  }

  lemma {:induction false} InComment(lines: seq<Line>, rest: seq<Line>)
    requires lines != [] && Contains(Strip(lines[|lines| - 1]), "-->")
    requires forall k :: 0 <= k < |lines| - 1 ==> !Contains(Strip(lines[k]), "-->")
    ensures TitleAt(lines + rest, true) ==
      match TitleAt(rest, false) case Some(t) => Some(|lines| + t) case None => None
    decreases |lines|
  {
    FindContains(Strip(lines[0]), "-->");
    assert (lines + rest)[1..] == lines[1..] + rest;
    if |lines| > 1 {
      InComment(lines[1..], rest);
    } else {
      assert lines[1..] + rest == rest;
    }
  }

  lemma AfterComment(lines: seq<Line>, rest: seq<Line>)
    requires IsComment(lines)
    ensures TitleAt(lines + rest, false) ==
      match TitleAt(rest, false) case Some(t) => Some(|lines| + t) case None => None
  {
    FindContains(Strip(lines[0]), "-->");
    assert (lines + rest)[1..] == lines[1..] + rest;
    if |lines| > 1 {
      InComment(lines[1..], rest);
    } else {
      assert lines[1..] + rest == rest;
    }
  }

  lemma TitleIsNoHeader(l: Line)
    requires IsTitle(l)
    ensures CommentAfter(l, false).None?
  {
    assert "# "[0] != "<!--"[0];
  }

  lemma AfterCommentIn(header: seq<Line>, n: nat, rest: seq<Line>)
    requires n <= |header| && IsComment(header[..n]) && TitleAt(header[n..] + rest, false).Some?
    ensures TitleAt(header + rest, false) == Some(n + TitleAt(header[n..] + rest, false).value)
  {
    AfterComment(header[..n], header[n..] + rest);
    assert header + rest == header[..n] + (header[n..] + rest);
  }

  lemma AfterBlankLine(header: seq<Line>, rest: seq<Line>)
    requires header != [] && Strip(header[0]) == "" && TitleAt(header[1..] + rest, false).Some?
    ensures TitleAt(header + rest, false) == Some(1 + TitleAt(header[1..] + rest, false).value)
  {
    assert (header + rest)[1..] == header[1..] + rest;
  }

  lemma {:induction false} TitleAfterHeader(header: seq<Line>, rest: seq<Line>)
    requires IsHeader(header) && rest != [] && IsTitle(rest[0])
    ensures TitleAt(header + rest, false) == Some(|header|)
    decreases |header|
  {
    if header == [] {
      assert header + rest == rest;
      TitleIsNoHeader(rest[0]);
    } else if Strip(header[0]) == "" && IsHeader(header[1..]) {
      TitleAfterHeader(header[1..], rest);
      AfterBlankLine(header, rest);
    } else {
      var n :| 0 < n <= |header| && IsComment(header[..n]) && IsHeader(header[n..]);
      TitleAfterHeader(header[n..], rest);
      AfterCommentIn(header, n, rest);
    }
  }

  /** Where the comment that is open closes. */
  lemma {:induction false} CommentCloses(lines: seq<Line>, t: nat) returns (n: nat)
    requires TitleAt(lines, true) == Some(t)
    ensures 0 < n <= t && Contains(Strip(lines[n - 1]), "-->") && TitleAt(lines[n..], false) == Some(t - n)
    ensures forall k :: 0 <= k < n - 1 ==> !Contains(Strip(lines[k]), "-->")
    decreases |lines|
  {
    FindContains(Strip(lines[0]), "-->");
    if Contains(Strip(lines[0]), "-->") {
      n := 1;
    } else {
      var rest := lines[1..];
      var m := CommentCloses(rest, t - 1);
      n := m + 1;
      assert rest[m..] == lines[n..];
      assert forall k :: 0 < k < n ==> lines[k] == rest[k - 1];
    }
  }

  lemma CommentAbove(lines: seq<Line>, t: nat) returns (n: nat)
    requires TitleAt(lines, false) == Some(t) && t > 0 && Strip(lines[0]) != ""
    ensures 0 < n <= t && IsComment(lines[..n]) && TitleAt(lines[n..], false) == Some(t - n)
  {
    FindContains(Strip(lines[0]), "-->");
    if Contains(Strip(lines[0]), "-->") {
      n := 1;
    } else {
      var m := CommentCloses(lines[1..], t - 1);
      n := m + 1;
      assert lines[1..][m..] == lines[n..];
      assert forall k :: 0 < k < n ==> lines[..n][k] == lines[1..][k - 1];
    }
  }

  lemma {:induction false} HeaderAboveTitle(lines: seq<Line>, t: nat)
    requires TitleAt(lines, false) == Some(t)
    ensures IsHeader(lines[..t]) && IsTitle(lines[t])
    decreases |lines|
  {
    if t > 0 {
      if Strip(lines[0]) == "" {
        HeaderAboveTitle(lines[1..], t - 1);
        BlankThenHeader(lines, t);
      } else {
        var n := CommentAbove(lines, t);
        HeaderAboveTitle(lines[n..], t - n);
        CommentThenHeader(lines, n, t);
      }
    }
  }

  lemma BlankThenHeader(lines: seq<Line>, t: nat)
    requires 0 < t <= |lines| && Strip(lines[0]) == "" && IsHeader(lines[1..][..t - 1])
    ensures IsHeader(lines[..t])
  {
    assert lines[1..][..t - 1] == lines[..t][1..];
  }

  lemma CommentThenHeader(lines: seq<Line>, n: nat, t: nat)
    requires 0 < n <= t <= |lines| && IsComment(lines[..n]) && IsHeader(lines[n..][..t - n])
    ensures IsHeader(lines[..t])
  {
    assert lines[n..][..t - n] == lines[..t][n..] && lines[..t][..n] == lines[..n];
  }

  lemma TitleBelow(lines: seq<Line>, header: seq<Line>, rest: seq<Line>)
    requires lines == header + rest && IsHeader(header) && rest != [] && IsTitle(rest[0])
    ensures TitleAt(lines, false) == Some(|header|)
  {
    TitleAfterHeader(header, rest);
  }

  /** Main result: the title is the line that follows empty lines and comments alone,
      when that line is one. */
  lemma TitleExactly(lines: seq<Line>, t: nat)
    ensures TitleAt(lines, false) == Some(t) <==> t < |lines| && IsHeader(lines[..t]) && IsTitle(lines[t])
  {
    if TitleAt(lines, false) == Some(t) {
      HeaderAboveTitle(lines, t);
    }
    if t < |lines| && IsHeader(lines[..t]) && IsTitle(lines[t]) {
      TitleBelow(lines, lines[..t], lines[t..]);
    }
  }
}
