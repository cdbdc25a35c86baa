/** Showing a planning document on a page, tools/mkdocs_showcase.py: paragraphs with
    indented lines are fenced, names are escaped, and headings demoted. */
module SpecDocument {
  import opened Text
  import opened UnitPage

  const DEMOTE := 2

  // ---------------------------------------------------------------------
  // Lines
  // ---------------------------------------------------------------------

  /** The number of # a heading opens with; None when the line is no heading. */
  function HeadingLevel(l: Line): (n: Option<nat>)
    ensures n.Some? ==> 1 <= n.value <= 6 && n.value < |l| && IsSpace(l[n.value])
    ensures n.Some? ==> forall k :: 0 <= k < n.value ==> l[k] == '#'
  {
    var n := Hashes(l);
    HashesAre(l);
    if 1 <= n <= 6 && n < |l| && IsSpace(l[n]) then Some(n) else None
  }

  lemma {:induction false} HashesAre(l: Line)
    ensures forall k :: 0 <= k < Hashes(l) ==> l[k] == '#'
    ensures Hashes(l) < |l| ==> l[Hashes(l)] != '#'
    decreases |l|
  {
    if l != [] && l[0] == '#' {
      HashesAre(l[1..]);
      assert forall k :: 1 <= k < Hashes(l) ==> l[k] == l[1..][k - 1];
    }
  }

  function Repeat(c: char, n: nat): (s: string)
    ensures |s| == n
  {
    seq(n, k => c)
  }

  /** A heading two levels lower, no lower than level 6. */
  function Demoted(l: Line): Line
    requires HeadingLevel(l).Some?
  {
    var n := HeadingLevel(l).value;
    Repeat('#', if n + DEMOTE < 6 then n + DEMOTE else 6) + l[n..]
  }

  function Dashes(l: Line): (n: nat)
    ensures n <= |l| && (n > 0 ==> l[0] == '-')
  {
    if l != [] && l[0] == '-' then 1 + Dashes(l[1..]) else 0
  }

  predicate IsRule(l: Line) {
    Dashes(l) >= 3 && LStrip(l[Dashes(l)..]) == ""
  }

  predicate IsBlank(l: Line) {
    LStrip(l) == ""
  }

  /** A line of a paragraph. */
  predicate IsText(l: Line) {
    !IsFence(l) && !IsBlank(l) && HeadingLevel(l).None? && !IsRule(l)
  }

  function Indent(l: Line): (n: nat)
    ensures n <= |l|
  {
    if l != [] && l[0] == ' ' then 1 + Indent(l[1..]) else 0
  }

  // ---------------------------------------------------------------------
  // Escaped names
  // ---------------------------------------------------------------------

  predicate IsLetter(c: char) {
    'A' <= c <= 'Z' || 'a' <= c <= 'z'
  }

  predicate IsNameChar(c: char) {
    IsLetter(c) || '0' <= c <= '9' || c == '_' || c == '-'
  }

  function NameEnd(s: string, k: nat): (e: nat)
    requires k <= |s|
    ensures k <= e <= |s|
    decreases |s| - k
  {
    if k < |s| && IsNameChar(s[k]) then NameEnd(s, k + 1) else k
  }

  /** The length of the name in angle brackets that s opens with. */
  function NameTag(s: string): (n: Option<nat>)
    ensures n.Some? ==> 2 <= n.value <= |s| && s[0] == '<'
  {
    if s == [] || s[0] != '<' then None
    else
      var first := if |s| > 1 && s[1] == '/' then 2 else 1;
      if first < |s| && IsLetter(s[first]) && NameEnd(s, first) < |s| && s[NameEnd(s, first)] == '>'
      then Some(NameEnd(s, first) + 1)
      else None
  }

  function EscapeTags(s: string): string
    decreases |s|
  {
    if s == [] then []
    else match NameTag(s)
         case Some(n) => "&lt;" + s[1..n - 1] + "&gt;" + EscapeTags(s[n..])
         case None => [s[0]] + EscapeTags(s[1..])
  }

  function EscapeStars(s: string): string
    decreases |s|
  {
    if |s| < 2 then s
    else if s[0] == '_' && s[1] == '*' then "_\\*" + EscapeStars(s[2..])
    else [s[0]] + EscapeStars(s[1..])
  }

  function EscapePart(s: string): string {
    EscapeStars(EscapeTags(s))
  }

  /** Every other part, from the first on: what lies outside inline code. */
  function EscapeParts(parts: seq<string>, outside: bool): (r: seq<string>)
    ensures |r| == |parts|
  {
    if parts == [] then []
    else [if outside then EscapePart(parts[0]) else parts[0]] + EscapeParts(parts[1..], !outside)
  }

  function EscapeNames(l: Line): Line {
    Join(EscapeParts(Split(l, '`'), true), '`')
  }

  /** The escaped string is the same up to the first escape, if any. */
  predicate SameUpToEscape(s: string, e: string) {
    s == e || exists p :: 0 <= p < |e| && EscapedAt(s, e, p)
  }

  predicate EscapedAt(s: string, e: string, p: nat)
    requires p < |e|
  {
    p <= |s| && s[..p] == e[..p] && (e[p] == '&' || e[p] == '\\')
  }

  lemma SameAfterChar(c: char, s: string, e: string)
    requires SameUpToEscape(s, e)
    ensures SameUpToEscape([c] + s, [c] + e)
  {
    if s != e {
      var p :| 0 <= p < |e| && EscapedAt(s, e, p);
      assert ([c] + s)[..p + 1] == [c] + s[..p] && ([c] + e)[..p + 1] == [c] + e[..p];
      assert EscapedAt([c] + s, [c] + e, p + 1);
    }
  }

  lemma SameTransitive(a: string, b: string, c: string)
    requires SameUpToEscape(a, b) && SameUpToEscape(b, c)
    ensures SameUpToEscape(a, c)
  {
    if a != b && b != c {
      var p :| 0 <= p < |b| && EscapedAt(a, b, p);
      var q :| 0 <= q < |c| && EscapedAt(b, c, q);
      if q <= p {
        assert a[..q] == a[..p][..q] && b[..q] == b[..p][..q];
        assert EscapedAt(a, c, q);
      } else {
        assert b[..p] == b[..q][..p] && c[..p] == c[..q][..p];
        assert c[p] == c[..q][p] == b[p];
        assert EscapedAt(a, c, p);
      }
    }
  }

  lemma {:induction false} TagsSame(s: string)
    ensures SameUpToEscape(s, EscapeTags(s))
    decreases |s|
  {
    if s != [] {
      if NameTag(s).Some? {
        assert EscapeTags(s)[0] == '&';
        assert EscapedAt(s, EscapeTags(s), 0);
      } else {
        TagsSame(s[1..]);
        SameAfterChar(s[0], s[1..], EscapeTags(s[1..]));
        assert s == [s[0]] + s[1..];
      }
    }
  }

  lemma {:induction false} StarsSame(s: string)
    ensures SameUpToEscape(s, EscapeStars(s))
    decreases |s|
  {
    if |s| >= 2 {
      if s[0] == '_' && s[1] == '*' {
        var e := EscapeStars(s);
        assert e[0] == '_' && e[1] == '\\';
        assert s[..1] == e[..1];
        assert EscapedAt(s, e, 1);
      } else {
        StarsSame(s[1..]);
        SameAfterChar(s[0], s[1..], EscapeStars(s[1..]));
        assert s == [s[0]] + s[1..];
      }
    }
  }

  lemma {:induction false} SameThen(a: string, e: string, tail: string, tailE: string)
    requires SameUpToEscape(a, e) && SameUpToEscape(tail, tailE)
    ensures SameUpToEscape(a + tail, e + tailE)
    decreases |a|
  {
    if a != e {
      var p :| 0 <= p < |e| && EscapedAt(a, e, p);
      assert (a + tail)[..p] == a[..p] && (e + tailE)[..p] == e[..p];
      assert EscapedAt(a + tail, e + tailE, p);
    } else if a == [] {
      assert a + tail == tail && e + tailE == tailE;
    } else {
      SameThen(a[1..], e[1..], tail, tailE);
      SameAfterChar(a[0], a[1..] + tail, a[1..] + tailE);
      assert a + tail == [a[0]] + (a[1..] + tail) && a + tailE == [a[0]] + (a[1..] + tailE);
    }
  }

  lemma {:induction false} PartsSame(parts: seq<string>, outside: bool)
    requires parts != []
    ensures SameUpToEscape(Join(parts, '`'), Join(EscapeParts(parts, outside), '`'))
    decreases |parts|
  {
    var p, e := parts[0], EscapeParts(parts, outside)[0];
    PartSame(p);
    if |parts| > 1 {
      var rest, restE := parts[1..], EscapeParts(parts[1..], !outside);
      PartsSame(rest, !outside);
      assert EscapeParts(parts, outside)[1..] == restE;
      SameAfterChar('`', Join(rest, '`'), Join(restE, '`'));
      SameThen(p, e, ['`'] + Join(rest, '`'), ['`'] + Join(restE, '`'));
      Regroup(p, Join(rest, '`'));
      Regroup(e, Join(restE, '`'));
    }
  }

  lemma PartSame(p: string)
    ensures SameUpToEscape(p, EscapePart(p))
  {
    TagsSame(p);
    StarsSame(EscapeTags(p));
    SameTransitive(p, EscapeTags(p), EscapePart(p));
  }

  lemma Regroup(p: string, rest: string)
    ensures p + ['`'] + rest == p + (['`'] + rest)
  {
  }

  lemma {:induction false} LStripSame(s: string, e: string)
    requires SameUpToEscape(s, e)
    ensures SameUpToEscape(LStrip(s), LStrip(e))
    ensures LStrip(e) == "" ==> LStrip(s) == ""
    decreases |e|
  {
    if s != e {
      var p :| 0 <= p < |e| && EscapedAt(s, e, p);
      if p > 0 {
        assert s[0] == s[..p][0] == e[..p][0] == e[0];
        if IsSpace(e[0]) {
          assert s[1..][..p - 1] == s[..p][1..] && e[1..][..p - 1] == e[..p][1..];
          assert EscapedAt(s[1..], e[1..], p - 1);
          LStripSame(s[1..], e[1..]);
        }
      } else {
        assert LStrip(e) == e;
        assert EscapedAt(LStrip(s), e, 0);
      }
    }
  }

  /** Escaping names makes no text line a fence or a heading. */
  lemma EscapedTextIsPlain(l: Line)
    requires !IsFence(l) && HeadingLevel(l).None?
    ensures !IsFence(EscapeNames(l)) && HeadingLevel(EscapeNames(l)).None?
  {
    var e := EscapeNames(l);
    JoinOfSplit(l, '`');
    PartsSame(Split(l, '`'), true);
    LStripSame(l, e);
    FenceSame(LStrip(l), LStrip(e));
    HeadingSame(l, e);
  }

  lemma FenceSame(s: string, e: string)
    requires SameUpToEscape(s, e)
    ensures StartsWith(e, FENCE) ==> StartsWith(s, FENCE)
  {
    if s != e && StartsWith(e, FENCE) {
      var p :| 0 <= p < |e| && EscapedAt(s, e, p);
      assert e[..3] == FENCE;
      assert e[0] == '`' && e[1] == '`' && e[2] == '`';
      assert s[..3] == s[..p][..3] && e[..3] == e[..p][..3];
    }
  }

  lemma HeadingSame(s: string, e: string)
    requires SameUpToEscape(s, e)
    ensures HeadingLevel(e).Some? ==> HeadingLevel(s).Some?
  {
    if s != e && HeadingLevel(e).Some? {
      var n := HeadingLevel(e).value;
      var p :| 0 <= p < |e| && EscapedAt(s, e, p);
      assert p > n;
      assert forall k :: 0 <= k <= n ==> s[k] == s[..p][k] == e[..p][k] == e[k];
      HashesAre(s);
    }
  }
}
