/** The text a waveform's digest is taken over, tools/publish_waves.py.  sha256 is
    a function of this text, so two waveforms with the same text have the same
    digest; the results say exactly when the text is the same. */
module WaveDigest {
  import opened Text
  import opened Waves

  type Waveform = map<string, seq<Change>>

  // ---------------------------------------------------------------------
  // Sorted names
  // ---------------------------------------------------------------------

  predicate Ascending(names: seq<string>) {
    forall i, j :: 0 <= i < j < |names| ==> Less(names[i], names[j])
  }

  ghost predicate Lists(names: seq<string>, s: set<string>) {
    forall n :: n in names <==> n in s
  }

  /** sorted() over a dict's keys. */
  method SortKeys(keys: set<string>) returns (names: seq<string>)
    ensures Ascending(names) && Lists(names, keys)
  {
    names := [];
    var rest := keys;
    while rest != {}
      invariant rest <= keys && Ascending(names) && Lists(names, keys - rest)
      decreases rest
    {
      var n :| n in rest;
      rest := rest - {n};
      var k := 0;
      while k < |names| && Less(names[k], n)
        invariant 0 <= k <= |names|
        invariant forall i :: 0 <= i < k ==> Less(names[i], n)
      {
        k := k + 1;
      }
      InsertAscending(names, k, n);
      names := names[..k] + [n] + names[k..];
    }
  }

  lemma InsertAscending(names: seq<string>, k: nat, n: string)
    requires Ascending(names) && k <= |names| && n !in names
    requires forall i :: 0 <= i < k ==> Less(names[i], n)
    requires k < |names| ==> !Less(names[k], n)
    ensures Ascending(names[..k] + [n] + names[k..])
    ensures forall m :: m in names[..k] + [n] + names[k..] <==> m == n || m in names
  {
    forall j | k <= j < |names|
      ensures Less(n, names[j])
    {
      LessTotal(names[k], n);
      if j > k {
        LessTransitive(n, names[k], names[j]);
      }
    }
    assert names == names[..k] + names[k..];
  }

  /** A set has only one ascending listing. */
  lemma {:induction false} AscendingIsUnique(a: seq<string>, b: seq<string>)
    requires Ascending(a) && Ascending(b) && forall n :: n in a <==> n in b
    ensures a == b
    decreases |a|
  {
    if a == [] {
      assert forall k :: 0 <= k < |b| ==> b[k] in b;
    } else {
      assert a[0] in b && b[0] in a;
      var i :| 0 <= i < |b| && b[i] == a[0];
      var j :| 0 <= j < |a| && a[j] == b[0];
      if i > 0 && j > 0 {
        LessTransitive(a[0], b[0], a[0]);
        LessIrreflexive(a[0]);
      }
      LessIrreflexive(a[0]);
      LessIrreflexive(b[0]);
      assert a[0] == b[0];
      forall n
        ensures n in a[1..] <==> n in b[1..]
      {
        assert n in a <==> n == a[0] || n in a[1..];
        assert n in b <==> n == b[0] || n in b[1..];
        assert a[0] !in a[1..] && b[0] !in b[1..];
      }
      AscendingIsUnique(a[1..], b[1..]);
      assert a == [a[0]] + a[1..] && b == [b[0]] + b[1..];
    }
  }

  // ---------------------------------------------------------------------
  // The text
  // ---------------------------------------------------------------------

  function HeadLine(name: string): string {
    "S " + name
  }

  function ShownValue(v: Option<nat>): string {
    match v
    case None => "x"
    case Some(n) => Numeral(n, 16)
  }

  function ChangeLine(c: Change): string {
    Numeral(c.time, 10) + [' '] + ShownValue(c.value)
  }

  function ChangeLines(changes: seq<Change>): (ls: seq<string>)
    ensures |ls| == |changes|
  {
    seq(|changes|, k requires 0 <= k < |changes| => ChangeLine(changes[k]))
  }

  function SignalLines(name: string, changes: seq<Change>): seq<string> {
    [HeadLine(name)] + ChangeLines(CanonicalForm(changes))
  }

  function WaveLines(names: seq<string>, values: Waveform): seq<string>
    requires forall n :: n in names ==> n in values
  {
    if names == [] then [] else SignalLines(names[0], values[names[0]]) + WaveLines(names[1..], values)
  }

  /** Each line with its newline. */
  function Terminated(lines: seq<string>): string {
    if lines == [] then "" else lines[0] + ['\n'] + Terminated(lines[1..])
  }

  lemma {:induction false} TerminatedConcat(a: seq<string>, b: seq<string>)
    ensures Terminated(a + b) == Terminated(a) + Terminated(b)
    decreases |a|
  {
    if a == [] {
      assert a + b == b;
    } else {
      TerminatedConcat(a[1..], b);
      assert (a + b)[1..] == a[1..] + b;
    }
  }

  /** The signals digested: all of them, or the listed ones; None when a listed
      signal has no values (a KeyError). */
  function Listed(values: Waveform, names: Option<seq<string>>): Option<Waveform> {
    match names
    case None => Some(values)
    case Some(ns) =>
      if forall n :: n in ns ==> n in values then Some(map n | n in ns :: values[n]) else None
  }

  lemma FeedLine(fed: string, lines: seq<string>, k: nat)
    requires k < |lines|
    ensures fed + Terminated(lines[k..]) == fed + (lines[k] + ['\n']) + Terminated(lines[k + 1..])
  {
    assert lines[k..][1..] == lines[k + 1..];
  }

  /** Feeds the hash one signal: its head line and its canonical changes. */
  method FeedSignal(before: string, name: string, changes: seq<Change>) returns (fed: string)
    ensures fed == before + Terminated(SignalLines(name, changes))
  {
    var form := Canonical(changes);
    ghost var all := SignalLines(name, changes);
    FeedLine(before, all, 0);
    assert all[0..] == all;
    fed := before + (HeadLine(name) + ['\n']);
    var k := 0;
    while k < |form|
      invariant 0 <= k <= |form|
      invariant fed + Terminated(all[k + 1..]) == before + Terminated(all)
    {
      FeedLine(fed, all, k + 1);
      fed := fed + (ChangeLine(form[k]) + ['\n']);
      k := k + 1;
    }
    assert all[k + 1..] == [];
    assert fed + [] == fed;
  }

  lemma FeedNext(fed: string, order: seq<string>, i: nat, wave: Waveform)
    requires i < |order| && forall n :: n in order ==> n in wave
    ensures fed + Terminated(WaveLines(order[i..], wave)) ==
            fed + Terminated(SignalLines(order[i], wave[order[i]])) + Terminated(WaveLines(order[i + 1..], wave))
  {
    assert order[i..][0] == order[i] && order[i..][1..] == order[i + 1..];
    TerminatedConcat(SignalLines(order[i], wave[order[i]]), WaveLines(order[i + 1..], wave));
  }

  /** Feeds the hash the signals of these names, one after the other. */
  method FeedSignals(order: seq<string>, wave: Waveform) returns (fed: string)
    requires forall n :: n in order ==> n in wave
    ensures fed == Terminated(WaveLines(order, wave))
  {
    fed := "";
    assert order[0..] == order;
    ghost var all := Terminated(WaveLines(order, wave));
    assert fed + all == all;
    var i := 0;
    while i < |order|
      invariant 0 <= i <= |order|
      invariant fed + Terminated(WaveLines(order[i..], wave)) == all
    {
      FeedNext(fed, order, i, wave);
      fed := FeedSignal(fed, order[i], wave[order[i]]);
      i := i + 1;
    }
    assert order[i..] == [] && fed + [] == fed;
  }

  /** The text of a waveform, as the hash is fed it. */
  method DigestText(values: Waveform, names: Option<seq<string>>) returns (text: Option<string>)
    ensures text.None? <==> Listed(values, names).None?
    ensures text.Some? ==> IsText(text.value, Listed(values, names).value)
  {
    var listed := Listed(values, names);
    if listed.None? {
      return None;
    }
    var order := SortKeys(listed.value.Keys);
    var fed := FeedSignals(order, listed.value);
    return Some(fed);
  }

  ghost predicate IsText(text: string, wave: Waveform) {
    exists names :: Ascending(names) && Lists(names, wave.Keys) && text == Terminated(WaveLines(names, wave))
  }

  // ---------------------------------------------------------------------
  // Reading the text back
  // ---------------------------------------------------------------------

  predicate OneLine(s: string) {
    '\n' !in s
  }

  predicate AllOneLine(lines: seq<string>) {
    forall k :: 0 <= k < |lines| ==> OneLine(lines[k])
  }

  predicate NoHead(lines: seq<string>) {
    forall k :: 0 <= k < |lines| ==> !IsHead(lines[k])
  }

  predicate StartsSection(lines: seq<string>) {
    lines == [] || IsHead(lines[0])
  }

  lemma {:induction false} SplitOfTerminated(lines: seq<string>)
    requires AllOneLine(lines)
    ensures Split(Terminated(lines), '\n') == lines + [""]
    decreases |lines|
  {
    if lines != [] {
      SplitOfTerminated(lines[1..]);
      SplitField(lines[0], '\n', Terminated(lines[1..]));
      assert lines == [lines[0]] + lines[1..];
    }
  }

  lemma LinesReadBack(a: seq<string>, b: seq<string>)
    requires AllOneLine(a) && AllOneLine(b)
    requires Terminated(a) == Terminated(b)
    ensures a == b
  {
    SplitOfTerminated(a);
    SplitOfTerminated(b);
    assert a == (a + [""])[..|a + [""]| - 1];
    assert b == (b + [""])[..|b + [""]| - 1];
  }

  lemma ChangeLineShape(c: Change)
    ensures OneLine(ChangeLine(c)) && ChangeLine(c)[0] != 'S'
    ensures Split(ChangeLine(c), ' ') == [Numeral(c.time, 10), ShownValue(c.value)]
  {
    var time := Numeral(c.time, 10);
    ParseOfNumeral(c.time, 10);
    ShownShape(c.value);
    SplitPlain(ShownValue(c.value), ' ');
    SplitField(time, ' ', ShownValue(c.value));
    assert time[0] in time;
  }

  lemma ShownShape(v: Option<nat>)
    ensures '\n' !in ShownValue(v) && ' ' !in ShownValue(v)
  {
    if v.Some? {
      ParseOfNumeral(v.value, 16);
    }
  }

  function ParseShown(s: string): Option<nat> {
    if s == "x" then None else ParseNumeral(s, 16)
  }

  lemma ShownReadBack(v: Option<nat>)
    ensures ParseShown(ShownValue(v)) == v
  {
    if v.Some? {
      ParseOfNumeral(v.value, 16);
      assert "x"[0] in "x";
    }
  }

  lemma ChangeReadBack(c: Change, d: Change)
    requires ChangeLine(c) == ChangeLine(d)
    ensures c == d
  {
    ChangeLineShape(c);
    ChangeLineShape(d);
    assert [Numeral(c.time, 10), ShownValue(c.value)][0] == [Numeral(d.time, 10), ShownValue(d.value)][0];
    assert [Numeral(c.time, 10), ShownValue(c.value)][1] == [Numeral(d.time, 10), ShownValue(d.value)][1];
    ParseOfNumeral(c.time, 10);
    ParseOfNumeral(d.time, 10);
    ShownReadBack(c.value);
    ShownReadBack(d.value);
  }

  lemma ChangesReadBack(a: seq<Change>, b: seq<Change>)
    requires ChangeLines(a) == ChangeLines(b)
    ensures a == b
  {
    assert |a| == |ChangeLines(a)| == |ChangeLines(b)| == |b|;
    forall k | 0 <= k < |a|
      ensures a[k] == b[k]
    {
      assert ChangeLines(a)[k] == ChangeLines(b)[k];
      ChangeReadBack(a[k], b[k]);
    }
  }

  predicate IsHead(line: string) {
    line != [] && line[0] == 'S'
  }

  /** The value lines of a signal end where the next signal's head line is. */
  lemma SectionsReadBack(a: seq<string>, restA: seq<string>, b: seq<string>, restB: seq<string>)
    requires a + restA == b + restB
    requires NoHead(a) && NoHead(b) && StartsSection(restA) && StartsSection(restB)
    ensures a == b && restA == restB
  {
    var all := a + restA;
    assert forall k :: 0 <= k < |a| ==> all[k] == a[k];
    assert forall k :: 0 <= k < |b| ==> all[k] == b[k];
    assert |a| < |all| ==> all[|a|] == restA[0];
    assert |b| < |all| ==> all[|b|] == restB[0];
    assert a == (a + restA)[..|a|] && b == (b + restB)[..|b|];
    assert restA == (a + restA)[|a|..] && restB == (b + restB)[|b|..];
  }

  lemma ChangeLinesShape(changes: seq<Change>)
    ensures AllOneLine(ChangeLines(changes)) && NoHead(ChangeLines(changes))
  {
    forall k | 0 <= k < |changes|
      ensures OneLine(ChangeLines(changes)[k]) && !IsHead(ChangeLines(changes)[k])
    {
      ChangeLineShape(changes[k]);
    }
  }

  /** Signal by signal: a head line, its value lines, then the rest. */
  lemma WaveLinesCons(names: seq<string>, values: Waveform)
    requires names != [] && forall n :: n in names ==> n in values
    ensures WaveLines(names, values) ==
            [HeadLine(names[0])] + (ChangeLines(CanonicalForm(values[names[0]])) + WaveLines(names[1..], values))
  {
  }

  lemma {:induction false} WaveLinesShape(names: seq<string>, values: Waveform)
    requires forall n :: n in names ==> n in values && OneLine(n)
    ensures AllOneLine(WaveLines(names, values)) && StartsSection(WaveLines(names, values))
    ensures WaveLines(names, values) == [] <==> names == []
    decreases |names|
  {
    if names != [] {
      WaveLinesShape(names[1..], values);
      WaveLinesCons(names, values);
      ChangeLinesShape(CanonicalForm(values[names[0]]));
      assert names[0] in names;
      assert OneLine(HeadLine(names[0]));
    }
  }

  lemma HeadReadBack(n: string, restV: seq<string>, m: string, restW: seq<string>)
    requires [HeadLine(n)] + restV == [HeadLine(m)] + restW
    ensures n == m && restV == restW
  {
    assert ([HeadLine(n)] + restV)[0] == HeadLine(n) && ([HeadLine(m)] + restW)[0] == HeadLine(m);
    assert n == HeadLine(n)[2..] && m == HeadLine(m)[2..];
    assert restV == ([HeadLine(n)] + restV)[1..] && restW == ([HeadLine(m)] + restW)[1..];
  }

  lemma {:induction false} WaveReadBack(names: seq<string>, v: Waveform, others: seq<string>, w: Waveform)
    requires forall n :: n in names ==> n in v && OneLine(n)
    requires forall n :: n in others ==> n in w && OneLine(n)
    requires WaveLines(names, v) == WaveLines(others, w)
    ensures names == others && SameForms(names, v, w)
    decreases |names|
  {
    WaveLinesShape(names, v);
    WaveLinesShape(others, w);
    if names != [] {
      FirstReadBack(names, v, others, w);
      WaveReadBack(names[1..], v, others[1..], w);
      assert names == [names[0]] + names[1..] && others == [others[0]] + others[1..];
      FormsCons(names[0], names[1..], v, w);
    }
  }

  ghost predicate SameForms(names: seq<string>, v: Waveform, w: Waveform) {
    forall n :: n in names ==> n in v && n in w && CanonicalForm(v[n]) == CanonicalForm(w[n])
  }

  lemma FormsCons(n: string, names: seq<string>, v: Waveform, w: Waveform)
    ensures SameForms([n] + names, v, w) <==>
      SameForms(names, v, w) && n in v && n in w && CanonicalForm(v[n]) == CanonicalForm(w[n])
  {
    assert forall m :: m in [n] + names <==> m == n || m in names;
  }

  /** The first signal of the lines is read back, and what is left is the rest. */
  lemma FirstReadBack(names: seq<string>, v: Waveform, others: seq<string>, w: Waveform)
    requires names != [] && forall n :: n in names ==> n in v && OneLine(n)
    requires others != [] && forall n :: n in others ==> n in w && OneLine(n)
    requires WaveLines(names, v) == WaveLines(others, w)
    ensures names[0] == others[0] && CanonicalForm(v[names[0]]) == CanonicalForm(w[others[0]])
    ensures WaveLines(names[1..], v) == WaveLines(others[1..], w)
  {
    var n, m := names[0], others[0];
    var cv, cw := ChangeLines(CanonicalForm(v[n])), ChangeLines(CanonicalForm(w[m]));
    var restV, restW := WaveLines(names[1..], v), WaveLines(others[1..], w);
    WaveLinesCons(names, v);
    WaveLinesCons(others, w);
    HeadReadBack(n, cv + restV, m, cw + restW);
    ChangeLinesShape(CanonicalForm(v[n]));
    ChangeLinesShape(CanonicalForm(w[m]));
    WaveLinesShape(names[1..], v);
    WaveLinesShape(others[1..], w);
    SectionsReadBack(cv, restV, cw, restW);
    ChangesReadBack(CanonicalForm(v[n]), CanonicalForm(w[m]));
  }

  lemma {:induction false} SameLines(names: seq<string>, v: Waveform, w: Waveform)
    requires forall n :: n in names ==> n in v && n in w && CanonicalForm(v[n]) == CanonicalForm(w[n])
    ensures WaveLines(names, v) == WaveLines(names, w)
    decreases |names|
  {
    if names != [] {
      SameLines(names[1..], v, w);
    }
  }

  // ---------------------------------------------------------------------
  // The main results
  // ---------------------------------------------------------------------

  /** The same signals, each with the same value at every time. */
  ghost predicate SameWaveform(v: Waveform, w: Waveform) {
    && v.Keys == w.Keys
    && forall n :: n in v.Keys ==> SameSignal(v[n], w[n])
  }

  /** Main result: for names without newlines, the digested text is the same exactly
      for waveforms that list the same signals with the same values at all times. */
  lemma DigestIsComplete(v: Waveform, textV: string, w: Waveform, textW: string)
    requires forall n :: n in v.Keys || n in w.Keys ==> OneLine(n)
    requires IsText(textV, v) && IsText(textW, w)
    ensures textV == textW <==> SameWaveform(v, w)
  {
    var names :| Ascending(names) && Lists(names, v.Keys) && textV == Terminated(WaveLines(names, v));
    var others :| Ascending(others) && Lists(others, w.Keys) && textW == Terminated(WaveLines(others, w));
    if textV == textW {
      EqualTextsSameWaveform(v, names, w, others);
    }
    if SameWaveform(v, w) {
      AscendingIsUnique(names, others);
      SameWaveformEqualLines(names, v, w);
    }
  }

  lemma EqualTextsSameWaveform(v: Waveform, names: seq<string>, w: Waveform, others: seq<string>)
    requires Lists(names, v.Keys) && Lists(others, w.Keys)
    requires forall n :: n in v.Keys || n in w.Keys ==> OneLine(n)
    requires Terminated(WaveLines(names, v)) == Terminated(WaveLines(others, w))
    ensures SameWaveform(v, w)
  {
    WaveLinesShape(names, v);
    WaveLinesShape(others, w);
    LinesReadBack(WaveLines(names, v), WaveLines(others, w));
    WaveReadBack(names, v, others, w);
    forall n | n in v.Keys
      ensures SameSignal(v[n], w[n])
    {
      assert n in names;
      CanonicalIsComplete(v[n], w[n]);
    }
    forall n
      ensures n in v.Keys <==> n in w.Keys
    {
      assert n in v.Keys <==> n in names;
    }
  }

  lemma SameWaveformEqualLines(names: seq<string>, v: Waveform, w: Waveform)
    requires Lists(names, v.Keys) && SameWaveform(v, w)
    ensures WaveLines(names, v) == WaveLines(names, w)
  {
    forall n | n in names
      ensures CanonicalForm(v[n]) == CanonicalForm(w[n])
    {
      assert n in v.Keys;
      CanonicalIsComplete(v[n], w[n]);
    }
    SameLines(names, v, w);
  }

  /** Only the listed signals count, whatever the order and repetition
      of the list and whatever else the two waveforms hold. */
  lemma UnlistedDoNotMatter(v: Waveform, listV: seq<string>, w: Waveform, listW: seq<string>)
    requires forall n :: n in listV <==> n in listW
    requires forall n :: n in listV ==> n in v && n in w && SameSignal(v[n], w[n])
    ensures Listed(v, Some(listV)).Some? && Listed(w, Some(listW)).Some?
    ensures SameWaveform(Listed(v, Some(listV)).value, Listed(w, Some(listW)).value)
  {
  }
}
