/** The text publish_waves.py digests, read back: each signal is a line "S " and its
    name, then a line for each change, its decimal time, a space, and x or the hex value. */
module WaveReader {
  import opened Text
  import opened Waves
  import opened WaveDigest

  datatype Signal = Signal(name: string, changes: seq<Change>)

  /** A change line's fields. */
  function ReadChange(line: string): Option<Change> {
    var f := Split(line, ' ');
    if |f| != 2 then None
    else match ParseNumeral(f[0], 10)
         case None => None
         case Some(t) =>
           if f[1] == "x" then Some(Change(t, None))
           else match ParseNumeral(f[1], 16)
                case None => None
                case Some(v) => Some(Change(t, Some(v)))
  }

  /** The signals of some lines; a change belongs to the last signal before it. */
  function ReadLines(lines: seq<string>): Option<seq<Signal>> {
    if lines == [] then Some([])
    else
      var line := lines[|lines| - 1];
      match ReadLines(lines[..|lines| - 1])
      case None => None
      case Some(signals) =>
        if |line| >= 2 && line[0] == 'S' && line[1] == ' ' then Some(signals + [Signal(line[2..], [])])
        else if signals == [] then None
        else
          var last := signals[|signals| - 1];
          match ReadChange(line)
          case None => None
          case Some(c) => Some(signals[..|signals| - 1] + [last.(changes := last.changes + [c])])
  }

  /** The signals of a text, each of whose lines ends with a newline. */
  function ReadText(text: string): Option<seq<Signal>> {
    var lines := Split(text, '\n');
    if lines[|lines| - 1] == "" then ReadLines(lines[..|lines| - 1]) else None
  }

  /** The signals a text stands for: these names, with their canonical changes. */
  function SignalsOf(names: seq<string>, wave: Waveform): (signals: seq<Signal>)
    requires forall n :: n in names ==> n in wave
    ensures |signals| == |names|
  {
    seq(|names|, k requires 0 <= k < |names| && names[k] in names => Signal(names[k], CanonicalForm(wave[names[k]])))
  }

  lemma ChangeRead(c: Change)
    ensures ReadChange(ChangeLine(c)) == Some(c)
    ensures ChangeLine(c)[0] != 'S'
  {
    ChangeLineShape(c);
    ParseOfNumeral(c.time, 10);
    if c.value.Some? {
      ParseOfNumeral(c.value.value, 16);
      var shown := Numeral(c.value.value, 16);
      assert shown[0] in shown;
    }
  }

  lemma HeadRead(lines: seq<string>, name: string, signals: seq<Signal>)
    requires ReadLines(lines) == Some(signals)
    ensures ReadLines(lines + [HeadLine(name)]) == Some(signals + [Signal(name, [])])
  {
    assert (lines + [HeadLine(name)])[..|lines|] == lines;
    assert HeadLine(name)[0] == 'S' && HeadLine(name)[1] == ' ' && HeadLine(name)[2..] == name;
  }

  lemma {:induction false} ChangesRead(lines: seq<string>, changes: seq<Change>, signals: seq<Signal>, name: string)
    requires ReadLines(lines) == Some(signals + [Signal(name, [])])
    ensures ReadLines(lines + ChangeLines(changes)) == Some(signals + [Signal(name, changes)])
    decreases |changes|
  {
    if changes == [] {
      assert lines + ChangeLines(changes) == lines;
    } else {
      var front, c := changes[..|changes| - 1], changes[|changes| - 1];
      FrontAndLast(changes);
      ChangesRead(lines, front, signals, name);
      ChangesStep(lines, front, c, signals, name);
    }
  }

  lemma FrontAndLast<T>(s: seq<T>)
    requires s != []
    ensures s == s[..|s| - 1] + [s[|s| - 1]]
  {
  }

  lemma ChangesStep(lines: seq<string>, front: seq<Change>, c: Change, signals: seq<Signal>, name: string)
    requires ReadLines(lines + ChangeLines(front)) == Some(signals + [Signal(name, front)])
    ensures ReadLines(lines + ChangeLines(front + [c])) == Some(signals + [Signal(name, front + [c])])
  {
    OneChangeRead(lines + ChangeLines(front), c, signals, Signal(name, front));
    ChangeLinesSnoc(front, c);
    Assoc(lines, ChangeLines(front), [ChangeLine(c)]);
  }

  lemma ChangeLinesSnoc(front: seq<Change>, c: Change)
    ensures ChangeLines(front + [c]) == ChangeLines(front) + [ChangeLine(c)]
  {
  }

  lemma OneChangeRead(lines: seq<string>, c: Change, signals: seq<Signal>, last: Signal)
    requires ReadLines(lines) == Some(signals + [last])
    ensures ReadLines(lines + [ChangeLine(c)]) == Some(signals + [last.(changes := last.changes + [c])])
  {
    ChangeRead(c);
    assert (lines + [ChangeLine(c)])[..|lines|] == lines;
    assert (signals + [last])[..|signals|] == signals;
  }

  lemma {:induction false} WaveRead(names: seq<string>, wave: Waveform, lines: seq<string>, signals: seq<Signal>)
    requires forall n :: n in names ==> n in wave
    requires ReadLines(lines) == Some(signals)
    ensures ReadLines(lines + WaveLines(names, wave)) == Some(signals + SignalsOf(names, wave))
    decreases |names|
  {
    if names == [] {
      assert lines + WaveLines(names, wave) == lines && signals + SignalsOf(names, wave) == signals;
    } else {
      var n, form, rest := names[0], CanonicalForm(wave[names[0]]), names[1..];
      HeadRead(lines, n, signals);
      ChangesRead(lines + [HeadLine(n)], form, signals, n);
      WaveRead(rest, wave, lines + [HeadLine(n)] + ChangeLines(form), signals + [Signal(n, form)]);
      WaveLinesCons(names, wave);
      Regroup4(lines, [HeadLine(n)], ChangeLines(form), WaveLines(rest, wave));
      SignalsCons(names, wave);
      Assoc(signals, [Signal(n, form)], SignalsOf(rest, wave));
    }
  }

  lemma SignalsCons(names: seq<string>, wave: Waveform)
    requires names != [] && forall n :: n in names ==> n in wave
    ensures SignalsOf(names, wave) ==
      [Signal(names[0], CanonicalForm(wave[names[0]]))] + SignalsOf(names[1..], wave)
  {
  }

  /** Main result: the text of a waveform, for names without newlines, reads back as its
      names in ascending order, each once, with their canonical changes. */
  lemma TextReadsBack(text: string, wave: Waveform)
    requires IsText(text, wave) && forall n :: n in wave.Keys ==> OneLine(n)
    ensures exists names ::
      Ascending(names) && Lists(names, wave.Keys) && ReadText(text) == Some(SignalsOf(names, wave))
  {
    var names :| Ascending(names) && Lists(names, wave.Keys) && text == Terminated(WaveLines(names, wave));
    var lines := WaveLines(names, wave);
    WaveLinesShape(names, wave);
    SplitOfTerminated(lines);
    assert (lines + [""])[..|lines|] == lines;
    WaveRead(names, wave, [], []);
    assert [] + lines == lines && [] + SignalsOf(names, wave) == SignalsOf(names, wave);
    assert ReadText(text) == Some(SignalsOf(names, wave));
  }
}
