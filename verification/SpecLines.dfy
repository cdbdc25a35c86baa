/** The kinds of line a planning document has, tools/mkdocs_showcase.py, each said by
    the strings that are of that kind. */
module SpecLines {
  import opened Text
  import opened UnitPage
  import opened SpecDocument

  // ---------------------------------------------------------------------
  // Lines that open with a run of one character
  // ---------------------------------------------------------------------

  predicate Run(s: string, n: nat, c: char) {
    n <= |s| && forall k :: 0 <= k < n ==> s[k] == c
  }

  lemma {:induction false} HashesRun(l: Line, n: nat)
    requires Run(l, n, '#') && (n < |l| ==> l[n] != '#')
    ensures Hashes(l) == n
    decreases n
  {
    if n > 0 {
      assert forall k :: 0 <= k < n - 1 ==> l[1..][k] == l[k + 1];
      HashesRun(l[1..], n - 1);
    }
  }

  /** A heading is one to six # with white space after them. */
  lemma HeadingExactly(l: Line, n: nat)
    ensures HeadingLevel(l) == Some(n) <==> 1 <= n <= 6 && n < |l| && Run(l, n, '#') && l[n] in " \t\r\n"
  {
    if n < |l| && Run(l, n, '#') && l[n] in " \t\r\n" {
      HashesRun(l, n);
    }
  }

  /** A demoted heading is two levels lower, six at most, and says the same. */
  lemma DemotedExactly(l: Line, n: nat)
    requires HeadingLevel(l) == Some(n)
    ensures var m := if n <= 4 then n + 2 else 6;
      HeadingLevel(Demoted(l)) == Some(m) && Demoted(l)[m..] == l[n..]
  {
    var m := if n <= 4 then n + 2 else 6;
    var d := Demoted(l);
    assert d == Repeat('#', m) + l[n..];
    assert d[m] == l[n];
    HeadingExactly(d, m);
  }

  lemma {:induction false} DashesRun(l: Line)
    ensures Run(l, Dashes(l), '-') && (Dashes(l) < |l| ==> l[Dashes(l)] != '-')
    decreases |l|
  {
    if l != [] && l[0] == '-' {
      DashesRun(l[1..]);
      assert forall k :: 1 <= k < Dashes(l) ==> l[k] == l[1..][k - 1];
    }
  }

  lemma {:induction false} DashesCover(l: Line, n: nat)
    requires Run(l, n, '-')
    ensures n <= Dashes(l)
    decreases n
  {
    if n > 0 {
      assert forall k :: 0 <= k < n - 1 ==> l[1..][k] == l[k + 1];
      DashesCover(l[1..], n - 1);
    }
  }

  lemma {:induction false} BlankExactly(s: string)
    ensures LStrip(s) == "" <==> AllSpace(s)
    decreases |s|
  {
    if s != "" {
      BlankExactly(s[1..]);
      assert AllSpace(s) <==> IsSpace(s[0]) && AllSpace(s[1..]) by {
        assert forall k :: 0 < k < |s| ==> s[k] == s[1..][k - 1];
      }
    }
  }

  /** A rule is three dashes or more, and white space. */
  lemma RuleExactly(l: Line)
    ensures IsRule(l) <==> exists n: nat :: 3 <= n && Run(l, n, '-') && AllSpace(l[n..])
  {
    var d := Dashes(l);
    DashesRun(l);
    BlankExactly(l[d..]);
    if n: nat :| 3 <= n && Run(l, n, '-') && AllSpace(l[n..]) {
      DashesCover(l, n);
      assert forall k :: 0 <= k < |l| - d ==> l[d..][k] == l[n..][d - n + k];
    }
  }

  /** The indentation is the spaces a line opens with, all of them. */
  lemma {:induction false} IndentExactly(l: Line, n: nat)
    ensures Indent(l) == n <==> Run(l, n, ' ') && (n < |l| ==> l[n] != ' ')
    decreases |l|
  {
    if l != [] && l[0] == ' ' && n > 0 {
      IndentExactly(l[1..], n - 1);
      assert forall k :: 1 <= k < n && k < |l| ==> l[k] == l[1..][k - 1];
      assert Run(l, n, ' ') <==> Run(l[1..], n - 1, ' ');
    }
  }

  /** A fence line is white space, three backticks, and anything. */
  lemma FenceExactly(l: Line)
    ensures IsFence(l) <==> exists n :: 0 <= n <= |l| - 3 && AllSpace(l[..n]) && l[n..n + 3] == "```"
  {
    if IsFence(l) {
      StripsSome(l);
      var n := |l| - |LStrip(l)|;
      assert l[n..n + 3] == LStrip(l)[..3];
    }
    if n :| 0 <= n <= |l| - 3 && AllSpace(l[..n]) && l[n..n + 3] == "```" {
      var rest := l[n..];
      assert rest[..3] == l[n..n + 3] && rest[0] == "```"[0];
      assert l == l[..n] + rest;
      LStripExactly(l[..n], rest);
    }
  }

  lemma {:induction false} StripsSome(s: string)
    ensures var n := |s| - |LStrip(s)|; AllSpace(s[..n]) && s[n..] == LStrip(s)
    decreases |s|
  {
    if s != "" && IsSpace(s[0]) {
      StripsSome(s[1..]);
      var n := |s| - |LStrip(s)|;
      assert s[..n] == [s[0]] + s[1..][..n - 1];
    }
  }

  // ---------------------------------------------------------------------
  // Names in angle brackets
  // ---------------------------------------------------------------------

  /** A letter, by its code. */
  predicate LetterCode(c: char) {
    65 <= c as int <= 90 || 97 <= c as int <= 122
  }

  predicate NameCode(c: char) {
    LetterCode(c) || 48 <= c as int <= 57 || c as int in {45, 95}
  }

  /** What stands between the brackets: a letter, perhaps after a slash, then letters,
      digits, underscores and dashes. */
  predicate IsTagText(s: string) {
    var name := if s != "" && s[0] == '/' then s[1..] else s;
    name != "" && LetterCode(name[0]) && forall k :: 0 <= k < |name| ==> NameCode(name[k])
  }

  lemma NameCodes(c: char)
    ensures IsLetter(c) <==> LetterCode(c)
    ensures IsNameChar(c) <==> NameCode(c)
  {
  }

  lemma {:induction false} NameEndExactly(s: string, k: nat, e: nat)
    requires k <= e < |s| && forall j :: k <= j < e ==> NameCode(s[j])
    requires !NameCode(s[e])
    ensures NameEnd(s, k) == e
    decreases e - k
  {
    NameCodes(s[k]);
    if k < e {
      NameEndExactly(s, k + 1, e);
    }
  }

  lemma {:induction false} NameEndHolds(s: string, k: nat)
    requires k <= |s|
    ensures forall j :: k <= j < NameEnd(s, k) ==> NameCode(s[j])
    decreases |s| - k
  {
    if k < |s| {
      NameCodes(s[k]);
      NameEndHolds(s, k + 1);
    }
  }

  /** A name in angle brackets is a bracket, such a text, and a bracket. */
  lemma TagExactly(s: string, n: nat)
    ensures NameTag(s) == Some(n) <==> 3 <= n <= |s| && s[0] == '<' && s[n - 1] == '>' && IsTagText(s[1..n - 1])
  {
    if NameTag(s) == Some(n) {
      TagText(s, n);
    }
    if 3 <= n <= |s| && s[0] == '<' && s[n - 1] == '>' && IsTagText(s[1..n - 1]) {
      TextTag(s, n);
    }
  }

  lemma TagText(s: string, n: nat)
    requires NameTag(s) == Some(n)
    ensures 3 <= n <= |s| && s[0] == '<' && s[n - 1] == '>' && IsTagText(s[1..n - 1])
  {
    var first := if s[1] == '/' then 2 else 1;
    NameEndHolds(s, first);
    NameCodes(s[first]);
    var text := s[1..n - 1];
    var name := if text != "" && text[0] == '/' then text[1..] else text;
    assert name == s[first..n - 1];
    assert forall k :: 0 <= k < |name| ==> name[k] == s[first + k];
  }

  lemma TextTag(s: string, n: nat)
    requires 3 <= n <= |s| && s[0] == '<' && s[n - 1] == '>' && IsTagText(s[1..n - 1])
    ensures NameTag(s) == Some(n)
  {
    var text := s[1..n - 1];
    var first := if s[1] == '/' then 2 else 1;
    var name := s[first..n - 1];
    assert name == if text[0] == '/' then text[1..] else text;
    assert forall j :: first <= j < n - 1 ==> s[j] == name[j - first];
    NameCodes(s[first]);
    NameEndExactly(s, first, n - 1);
  }
}
