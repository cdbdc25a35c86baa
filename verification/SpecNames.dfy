/** escape_names, tools/mkdocs_showcase.py: it leaves no name that Markdown would lose,
    touches no inline code, and can be taken back exactly when nothing in the line
    looked escaped already. */
module SpecNames {
  import opened Text
  import opened UnitPage
  import opened SpecDocument

  // ---------------------------------------------------------------------
  // Escapes in one pass
  // ---------------------------------------------------------------------

  predicate IsPattern(s: string) {
    |s| >= 2 && s[0] == '_' && s[1] == '*'
  }

  predicate IsStar(s: string) {
    |s| >= 3 && s[0] == '_' && s[1] == '\\' && s[2] == '*'
  }

  predicate IsLt(s: string) {
    |s| >= 4 && s[0] == '&' && s[1] == 'l' && s[2] == 't' && s[3] == ';'
  }

  predicate IsGt(s: string) {
    |s| >= 4 && s[0] == '&' && s[1] == 'g' && s[2] == 't' && s[3] == ';'
  }

  /** Both escapes, done in one pass over the text. */
  function Escape(s: string): string
    decreases |s|
  {
    if s == [] then []
    else if NameTag(s).Some? then
      var n := NameTag(s).value;
      "&lt;" + s[1..n - 1] + "&gt;" + Escape(s[n..])
    else if IsPattern(s) then "_\\*" + Escape(s[2..])
    else [s[0]] + Escape(s[1..])
  }

  function Unescape(e: string): string
    decreases |e|
  {
    if e == [] then []
    else if IsLt(e) then "<" + Unescape(e[4..])
    else if IsGt(e) then ">" + Unescape(e[4..])
    else if IsStar(e) then "_*" + Unescape(e[3..])
    else [e[0]] + Unescape(e[1..])
  }

  /** Text that already holds what an escape is written as. */
  predicate LooksEscaped(s: string) {
    s != [] && (OpensEscaped(s) || LooksEscaped(s[1..]))
  }

  predicate OpensEscaped(s: string) {
    IsLt(s) || IsGt(s) || IsStar(s)
  }

  /** The characters of a name in angle brackets. */
  predicate IsNameText(s: string) {
    forall k :: 0 <= k < |s| ==> IsNameChar(s[k]) || s[k] == '/'
  }

  lemma {:induction false} NameEndIsName(s: string, k: nat)
    requires k <= |s|
    ensures forall j :: k <= j < NameEnd(s, k) ==> IsNameChar(s[j])
    decreases |s| - k
  {
    if k < |s| && IsNameChar(s[k]) {
      NameEndIsName(s, k + 1);
    }
  }

  lemma TagShape(s: string)
    requires NameTag(s).Some?
    ensures var n := NameTag(s).value; s[0] == '<' && IsNameText(s[1..n - 1]) && s[n - 1] == '>'
    ensures var n := NameTag(s).value; s == "<" + s[1..n - 1] + ">" + s[n..]
  {
    NameEndIsName(s, if s[1] == '/' then 2 else 1);
  }

  /** Text without a star is left as it is, up to what follows it. */
  lemma {:induction false} StarsPast(a: string, b: string)
    requires a != [] && '*' !in a && a[|a| - 1] != '_'
    ensures EscapeStars(a + b) == a + EscapeStars(b)
    decreases |a|
  {
    var tail := a[1..] + b;
    assert a + b == [a[0]] + tail;
    StarsKeepChar(a[0], tail);
    if |a| == 1 {
      assert tail == b && a == [a[0]];
    } else {
      assert tail[0] == a[1];
      StarsPast(a[1..], b);
      assert a == [a[0]] + a[1..];
      PrependAssoc(a[0], a[1..], EscapeStars(b));
    }
  }

  lemma StarsKeepChar(c: char, tail: string)
    requires c != '_' || tail == [] || tail[0] != '*'
    ensures EscapeStars([c] + tail) == [c] + EscapeStars(tail)
  {
    var s := [c] + tail;
    assert s[1..] == tail;
  }

  lemma PrependAssoc(c: char, a: string, b: string)
    ensures [c] + (a + b) == ([c] + a) + b
  {
  }

  lemma TagsFirst(s: string)
    ensures s == [] ==> EscapeTags(s) == []
    ensures s != [] ==> EscapeTags(s) != []
    ensures s != [] ==> EscapeTags(s)[0] == if NameTag(s).Some? then '&' else s[0]
  {
  }

  lemma {:induction false} EscapedInOnePass(s: string)
    ensures EscapePart(s) == Escape(s)
    decreases |s|
  {
    if s == [] {
    } else if NameTag(s).Some? {
      var n := NameTag(s).value;
      TagShape(s);
      EscapedInOnePass(s[n..]);
      var tag := "&lt;" + s[1..n - 1] + "&gt;";
      NameHasNoStar(s[1..n - 1]);
      StarsPast(tag, EscapeTags(s[n..]));
    } else if IsPattern(s) {
      EscapedInOnePass(s[2..]);
      StarPairEscaped(s);
    } else {
      EscapedInOnePass(s[1..]);
      TagsFirst(s[1..]);
      var t := EscapeTags(s);
      assert t == [s[0]] + EscapeTags(s[1..]) && t[1..] == EscapeTags(s[1..]);
    }
  }

  lemma NameHasNoStar(name: string)
    requires IsNameText(name)
    ensures '*' !in "&lt;" + name + "&gt;"
  {
  }

  lemma StarPairEscaped(s: string)
    requires IsPattern(s)
    ensures EscapePart(s) == "_\\*" + EscapePart(s[2..])
  {
    assert s[0] == '_' && s[1] == '*';
    assert s[1..][1..] == s[2..];
    assert EscapeTags(s[1..]) == ['*'] + EscapeTags(s[2..]);
    var t := EscapeTags(s);
    assert t == ['_'] + (['*'] + EscapeTags(s[2..]));
    assert t[2..] == EscapeTags(s[2..]);
  }

  /** What an escaped text opens with. */
  lemma FirstKept(s: string)
    ensures s == [] <==> Escape(s) == []
    ensures s != [] ==> Escape(s)[0] == if NameTag(s).Some? then '&' else s[0]
    ensures s != [] && s[0] !in "<_" ==> Escape(s) == [s[0]] + Escape(s[1..])
  {
  }

  // ---------------------------------------------------------------------
  // Nothing left to escape
  // ---------------------------------------------------------------------

  /** Text holding no name in angle brackets and no pattern star. */
  predicate IsEscaped(e: string) {
    e == [] || (NameTag(e).None? && !IsPattern(e) && IsEscaped(e[1..]))
  }

  lemma {:induction false} EscapedPast(a: string, b: string)
    requires a != [] && '<' !in a && '*' !in a && a[|a| - 1] != '_' && IsEscaped(b)
    ensures IsEscaped(a + b)
    decreases |a|
  {
    var tail := a[1..] + b;
    assert (a + b)[0] == a[0] && (a + b)[1..] == tail;
    if |a| == 1 {
      assert tail == b;
    } else {
      EscapedPast(a[1..], b);
      assert tail[0] == a[1];
    }
  }

  lemma PatternShown(t: string)
    ensures IsPattern(t) ==> |Escape(t)| >= 3 && Escape(t)[0] == '_' && Escape(t)[1] == '\\'
  {
  }

  lemma SamePrefix(t: string, e: string, n: nat)
    requires n < |t| && n < |e| && t[0] == e[0] && t[1..][..n] == e[1..][..n]
    ensures t[..n + 1] == e[..n + 1]
  {
    assert t[..n + 1] == [t[0]] + t[1..][..n] && e[..n + 1] == [e[0]] + e[1..][..n];
  }

  /** A name and its closing bracket in the escaped text stand in the text. */
  lemma {:induction false} NameStands(t: string, n: nat)
    requires n < |Escape(t)| && Escape(t)[n] == '>' && IsNameText(Escape(t)[..n])
    ensures n < |t| && t[..n + 1] == Escape(t)[..n + 1]
    decreases n
  {
    var e := Escape(t);
    FirstKept(t);
    PatternShown(t);
    assert forall j :: 0 <= j < n ==> e[..n][j] == e[j];
    if NameTag(t).Some? {
      assert false;
    } else if IsPattern(t) {
      assert false;
    } else {
      assert e == [t[0]] + Escape(t[1..]) && e[1..] == Escape(t[1..]);
      if n > 0 {
        assert e[1..][..n - 1] == e[..n][1..];
        NameStands(t[1..], n - 1);
        SamePrefix(t, e, n);
      }
    }
  }

  lemma {:induction false} SameNameEnd(a: string, b: string, k: nat, n: nat)
    requires k <= n < |a| && n < |b| && a[..n + 1] == b[..n + 1] && NameEnd(a, k) == n
    ensures NameEnd(b, k) == n
    decreases n - k
  {
    assert forall j :: 0 <= j <= n ==> a[..n + 1][j] == a[j] && b[..n + 1][j] == b[j];
    if k < n {
      SameNameEnd(a, b, k + 1, n);
    }
  }

  /** A bracket that opens no name in the text opens none in the escaped text. */
  lemma BracketStays(t: string)
    requires NameTag(['<'] + t).None?
    ensures NameTag(['<'] + Escape(t)).None?
  {
    var e := ['<'] + Escape(t);
    if NameTag(e).Some? {
      var n := NameTag(e).value;
      TagShape(e);
      assert Escape(t)[..n - 2] == e[1..n - 1];
      NameStands(t, n - 2);
      var s := ['<'] + t;
      assert s[..n] == ['<'] + t[..n - 1] && e[..n] == ['<'] + Escape(t)[..n - 1];
      assert forall j :: 0 <= j < n ==> s[..n][j] == s[j] && e[..n][j] == e[j];
      SameNameEnd(e, s, if e[1] == '/' then 2 else 1, n - 1);
      assert false;
    }
  }

  /** Escaping leaves nothing of what Markdown would lose. */
  lemma {:induction false} EscapeIsEscaped(s: string)
    ensures IsEscaped(Escape(s))
    decreases |s|
  {
    if s == [] {
    } else if NameTag(s).Some? {
      var n := NameTag(s).value;
      TagShape(s);
      EscapeIsEscaped(s[n..]);
      NameHasNoStar(s[1..n - 1]);
      EscapedPast("&lt;" + s[1..n - 1] + "&gt;", Escape(s[n..]));
    } else if IsPattern(s) {
      EscapeIsEscaped(s[2..]);
      StarIsEscaped(Escape(s[2..]));
    } else {
      EscapeIsEscaped(s[1..]);
      FirstKept(s[1..]);
      var e := Escape(s);
      assert e == [s[0]] + Escape(s[1..]) && e[1..] == Escape(s[1..]);
      if s[0] == '<' {
        assert s == ['<'] + s[1..];
        BracketStays(s[1..]);
      }
    }
  }

  lemma StarIsEscaped(rest: string)
    requires IsEscaped(rest)
    ensures IsEscaped("_\\*" + rest)
  {
    var e := "_\\*" + rest;
    assert e[1..][1..][1..] == rest;
  }

  // ---------------------------------------------------------------------
  // Taking the escapes back
  // ---------------------------------------------------------------------

  lemma {:induction false} NamePast(name: string, rest: string)
    requires IsNameText(name) && rest != [] && rest[0] == '&'
    ensures Unescape(name + rest) == name + Unescape(rest)
    decreases |name|
  {
    if name == [] {
      assert name + rest == rest;
    } else {
      var tail := name[1..] + rest;
      assert name + rest == [name[0]] + tail;
      assert tail[0] == if |name| > 1 then name[1] else '&';
      UnescapeKeepsChar(name[0], tail);
      NamePast(name[1..], rest);
      assert name == [name[0]] + name[1..];
      PrependAssoc(name[0], name[1..], Unescape(rest));
    }
  }

  lemma UnescapeKeepsChar(c: char, tail: string)
    requires c != '&' && (c == '_' ==> tail == [] || tail[0] != '\\')
    ensures Unescape([c] + tail) == [c] + Unescape(tail)
  {
    assert ([c] + tail)[1..] == tail;
  }

  lemma {:induction false} NoLookInName(name: string, rest: string)
    requires IsNameText(name)
    ensures LooksEscaped(name + ">" + rest) == LooksEscaped(rest)
    decreases |name|
  {
    var s := name + ">" + rest;
    if name == [] {
      assert s[0] == '>' && s[1..] == rest;
    } else {
      NoLookInName(name[1..], rest);
      assert s[1..] == name[1..] + ">" + rest;
      assert s[1] == if |name| > 1 then name[1] else '>';
    }
  }

  lemma NoLookInTag(s: string)
    requires NameTag(s).Some?
    ensures LooksEscaped(s) == LooksEscaped(s[NameTag(s).value..])
  {
    TagShape(s);
    var n := NameTag(s).value;
    NoLookInName(s[1..n - 1], s[n..]);
    assert s[1..] == s[1..n - 1] + ">" + s[n..];
  }

  lemma OpensKept(s: string)
    requires s != [] && NameTag(s).None? && !IsPattern(s)
    ensures var e := [s[0]] + Escape(s[1..]);
      && (IsLt(e) <==> IsLt(s))
      && (IsGt(e) <==> IsGt(s))
      && (IsStar(e) <==> IsStar(s))
  {
    var e := [s[0]] + Escape(s[1..]);
    FirstKept(s[1..]);
    if |s| > 1 && s[1] !in "<_" {
      assert e[1..] == [s[1]] + Escape(s[1..][1..]);
      assert s[1..][1..] == s[2..];
      FirstKept(s[2..]);
      assert e[2..] == Escape(s[2..]);
      if |s| > 2 && s[2] !in "<_" {
        assert s[2..][1..] == s[3..];
        FirstKept(s[3..]);
        assert e[3..] == Escape(s[3..]);
      }
    }
  }

  /** Taking the escapes back gives the text again exactly when none of it looked
      escaped. */
  lemma {:induction false} EscapesTakenBack(s: string)
    ensures Unescape(Escape(s)) == s <==> !LooksEscaped(s)
    decreases |s|
  {
    if s == [] {
    } else if NameTag(s).Some? {
      var n := NameTag(s).value;
      EscapesTakenBack(s[n..]);
      NoLookInTag(s);
      TagTakenBack(s);
    } else if IsPattern(s) {
      EscapesTakenBack(s[2..]);
      StarTakenBack(s);
    } else {
      EscapesTakenBack(s[1..]);
      CharTakenBack(s);
    }
  }

  lemma SameParts<T>(a: seq<T>, b: seq<T>, c: seq<T>, d: seq<T>)
    requires |a| == |c|
    ensures a + b == c + d <==> a == c && b == d
  {
    if a + b == c + d {
      assert a == (a + b)[..|a|] && b == (a + b)[|a|..];
      assert c == (c + d)[..|a|] && d == (c + d)[|a|..];
    }
  }

  lemma TagTakenBack(s: string)
    requires NameTag(s).Some?
    ensures var n := NameTag(s).value;
      Unescape(Escape(s)) == s <==> Unescape(Escape(s[n..])) == s[n..]
  {
    TagShape(s);
    var n := NameTag(s).value;
    var name, rest := s[1..n - 1], Escape(s[n..]);
    Regroup4("&lt;", name, "&gt;", rest);
    assert Escape(s) == "&lt;" + (name + ("&gt;" + rest));
    NamedTakenBack(name, rest);
    Regroup4("<", name, ">", Unescape(rest));
    SameParts("<" + name + ">", Unescape(rest), "<" + name + ">", s[n..]);
  }

  lemma NamedTakenBack(name: string, rest: string)
    requires IsNameText(name)
    ensures Unescape("&lt;" + (name + ("&gt;" + rest))) == "<" + (name + (">" + Unescape(rest)))
  {
    var close := "&gt;" + rest;
    assert close[4..] == rest;
    NamePast(name, close);
    var e := "&lt;" + (name + close);
    assert e[4..] == name + close;
  }

  lemma StarTakenBack(s: string)
    requires IsPattern(s)
    ensures LooksEscaped(s) == LooksEscaped(s[2..])
    ensures Unescape(Escape(s)) == s <==> Unescape(Escape(s[2..])) == s[2..]
  {
    assert s[0] == '_' && s[1] == '*' && s[1..][1..] == s[2..];
    var e := Escape(s);
    assert e[3..] == Escape(s[2..]);
    assert Unescape(e) == "_*" + Unescape(Escape(s[2..]));
    assert Unescape(e)[2..] == Unescape(Escape(s[2..]));
    assert s == "_*" + s[2..];
  }

  lemma CharTakenBack(s: string)
    requires s != [] && NameTag(s).None? && !IsPattern(s)
    ensures OpensEscaped(s) ==> Unescape(Escape(s)) != s
    ensures !OpensEscaped(s) ==> (Unescape(Escape(s)) == s <==> Unescape(Escape(s[1..])) == s[1..])
  {
    OpensKept(s);
    var e := Escape(s);
    assert e == [s[0]] + Escape(s[1..]) && e[1..] == Escape(s[1..]);
    if IsLt(s) {
      assert Unescape(e)[0] == '<' && s[0] == '&';
    } else if IsGt(s) {
      assert Unescape(e)[0] == '>' && s[0] == '&';
    } else if IsStar(s) {
      assert Unescape(e)[1] == '*' && s[1] == '\\';
    } else {
      assert Unescape(e)[1..] == Unescape(Escape(s[1..]));
      assert s == [s[0]] + s[1..];
    }
  }

  // ---------------------------------------------------------------------
  // Whole lines
  // ---------------------------------------------------------------------

  function UnescapeParts(parts: seq<string>, outside: bool): (r: seq<string>)
    ensures |r| == |parts|
  {
    if parts == [] then []
    else [if outside then Unescape(parts[0]) else parts[0]] + UnescapeParts(parts[1..], !outside)
  }

  /** A line with the escapes outside its inline code taken back. */
  function UnescapeNames(l: Line): Line {
    Join(UnescapeParts(Split(l, '`'), true), '`')
  }

  predicate PartsLookEscaped(parts: seq<string>, outside: bool) {
    parts != [] && ((outside && LooksEscaped(parts[0])) || PartsLookEscaped(parts[1..], !outside))
  }

  /** A line that looks escaped somewhere outside its inline code. */
  predicate LineLooksEscaped(l: Line) {
    PartsLookEscaped(Split(l, '`'), true)
  }

  lemma {:induction false} EscapeAddsNoTick(s: string)
    requires '`' !in s
    ensures '`' !in Escape(s)
    decreases |s|
  {
    if s == [] {
    } else if NameTag(s).Some? {
      EscapeAddsNoTick(s[NameTag(s).value..]);
    } else if IsPattern(s) {
      EscapeAddsNoTick(s[2..]);
    } else {
      EscapeAddsNoTick(s[1..]);
    }
  }

  lemma {:induction false} UnescapeAddsNoTick(e: string)
    requires '`' !in e
    ensures '`' !in Unescape(e)
    decreases |e|
  {
    if e == [] {
    } else if IsLt(e) || IsGt(e) {
      UnescapeAddsNoTick(e[4..]);
    } else if IsStar(e) {
      UnescapeAddsNoTick(e[3..]);
    } else {
      UnescapeAddsNoTick(e[1..]);
    }
  }

  predicate NoTicks(parts: seq<string>) {
    forall k :: 0 <= k < |parts| ==> '`' !in parts[k]
  }

  lemma {:induction false} PartsTakenBack(parts: seq<string>, outside: bool)
    requires NoTicks(parts)
    ensures NoTicks(EscapeParts(parts, outside))
    ensures NoTicks(UnescapeParts(EscapeParts(parts, outside), outside))
    ensures UnescapeParts(EscapeParts(parts, outside), outside) == parts <==> !PartsLookEscaped(parts, outside)
    decreases |parts|
  {
    if parts != [] {
      var p := parts[0];
      PartsTakenBack(parts[1..], !outside);
      EscapedInOnePass(p);
      EscapeAddsNoTick(p);
      UnescapeAddsNoTick(Escape(p));
      EscapesTakenBack(p);
      var e := EscapeParts(parts, outside);
      assert e[1..] == EscapeParts(parts[1..], !outside);
      var back := UnescapeParts(e, outside);
      assert back[1..] == UnescapeParts(e[1..], !outside);
      assert parts == [p] + parts[1..];
    }
  }

  /** A line's escapes are taken back exactly when it did not look escaped. */
  lemma NamesTakenBack(l: Line)
    ensures UnescapeNames(EscapeNames(l)) == l <==> !LineLooksEscaped(l)
  {
    var parts := Split(l, '`');
    var e := EscapeParts(parts, true);
    var back := UnescapeParts(e, true);
    PartsTakenBack(parts, true);
    SplitOfJoin(e, '`');
    SplitOfJoin(back, '`');
    JoinOfSplit(l, '`');
  }

  predicate PartsEscaped(parts: seq<string>, outside: bool) {
    parts == [] || ((outside ==> IsEscaped(parts[0])) && PartsEscaped(parts[1..], !outside))
  }

  lemma {:induction false} PartsAreEscaped(parts: seq<string>, outside: bool)
    ensures PartsEscaped(EscapeParts(parts, outside), outside)
    decreases |parts|
  {
    if parts != [] {
      EscapedInOnePass(parts[0]);
      EscapeIsEscaped(parts[0]);
      PartsAreEscaped(parts[1..], !outside);
      assert EscapeParts(parts, outside)[1..] == EscapeParts(parts[1..], !outside);
    }
  }

  /** The inline code of a line: every other part between its backticks. */
  function CodeOf(parts: seq<string>, outside: bool): seq<string> {
    if parts == [] then []
    else (if outside then [] else [parts[0]]) + CodeOf(parts[1..], !outside)
  }

  lemma {:induction false} PartsKeepCode(parts: seq<string>, outside: bool)
    ensures CodeOf(EscapeParts(parts, outside), outside) == CodeOf(parts, outside)
    decreases |parts|
  {
    if parts != [] {
      PartsKeepCode(parts[1..], !outside);
      assert EscapeParts(parts, outside)[1..] == EscapeParts(parts[1..], !outside);
    }
  }

  /** An escaped line holds no name in angle brackets and no pattern star outside its
      inline code, and its inline code is as it was. */
  lemma NamesEscaped(l: Line)
    ensures PartsEscaped(Split(EscapeNames(l), '`'), true)
    ensures CodeOf(Split(EscapeNames(l), '`'), true) == CodeOf(Split(l, '`'), true)
  {
    var parts := Split(l, '`');
    PartsTakenBack(parts, true);
    PartsAreEscaped(parts, true);
    PartsKeepCode(parts, true);
    SplitOfJoin(EscapeParts(parts, true), '`');
  }

  // ---------------------------------------------------------------------
  // Indentation
  // ---------------------------------------------------------------------

  lemma {:induction false} EscapeKeepsIndent(s: string)
    ensures Indent(Escape(s)) == Indent(s)
    decreases |s|
  {
    if s != [] && s[0] == ' ' {
      EscapeKeepsIndent(s[1..]);
      FirstKept(s);
      assert Escape(s)[1..] == Escape(s[1..]);
    } else {
      FirstKept(s);
    }
  }

  lemma {:induction false} IndentBeforeTick(a: string, rest: string)
    ensures Indent(a + ['`'] + rest) == Indent(a)
    decreases |a|
  {
    var s := a + ['`'] + rest;
    if a == [] {
      assert s[0] == '`';
    } else {
      IndentBeforeTick(a[1..], rest);
      assert s[0] == a[0] && s[1..] == a[1..] + ['`'] + rest;
    }
  }

  lemma NamesKeepIndent(l: Line)
    ensures Indent(EscapeNames(l)) == Indent(l)
  {
    var parts := Split(l, '`');
    var e := EscapeParts(parts, true);
    JoinOfSplit(l, '`');
    EscapedInOnePass(parts[0]);
    EscapeKeepsIndent(parts[0]);
    assert e[0] == Escape(parts[0]);
    if |parts| > 1 {
      IndentBeforeTick(parts[0], Join(parts[1..], '`'));
      IndentBeforeTick(e[0], Join(e[1..], '`'));
    }
  }

  /** Different lines that are shown alike, so that nothing could tell them apart: a
      placeholder and the same name already escaped. */
  lemma NamesShownAlike(name: string)
    requires NameTag("<" + name + ">") == Some(|name| + 2)
    ensures EscapeNames("<" + name + ">") == EscapeNames("&lt;" + name + "&gt;")
  {
    var tag := "<" + name + ">";
    TagShape(tag);
    assert tag[1..|tag| - 1] == name && tag[|tag|..] == "";
    EscapeOne(tag);
    EscapedNameStays(name);
    assert Escape(tag) == "&lt;" + name + "&gt;" + [];
  }

  lemma EscapedNameStays(name: string)
    requires IsNameText(name)
    ensures EscapeNames("&lt;" + name + "&gt;") == "&lt;" + name + "&gt;"
  {
    var shown := "&lt;" + name + "&gt;";
    NameHasNoStar(name);
    EscapeOne(shown);
    UnescapedStays(shown);
  }

  lemma EscapeOne(l: Line)
    requires '`' !in l
    ensures EscapeNames(l) == Escape(l)
  {
    SplitPlain(l, '`');
    EscapedInOnePass(l);
    assert EscapeParts([l], true) == [Escape(l)];
  }

  lemma {:induction false} UnescapedStays(s: string)
    requires '<' !in s && '*' !in s
    ensures Escape(s) == s
    decreases |s|
  {
    if s != [] {
      UnescapedStays(s[1..]);
      assert s == [s[0]] + s[1..];
    }
  }
}
