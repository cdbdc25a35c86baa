/** The checker of the command files, examples/fe_demo/waves/chk_sucl.py, and when
    it accepts what the compiler's file displays. */
module SuclChecker {
  import opened Text
  import opened SurferViewer
  import opened Waves
  import opened CycTimes
  import opened Sucl

  /** A row of a description's event table: its cycle and its marker label. */
  datatype Event = Event(cyc: nat, text: string)

  // ---------------------------------------------------------------------
  // The markers a scenario gets
  // ---------------------------------------------------------------------

  predicate IsWordChar(c: char) {
    'A' <= c <= 'Z' || 'a' <= c <= 'z' || '0' <= c <= '9' || c == '_'
  }

  /** What label() leaves of an event's text: a non-empty word. */
  predicate IsLabel(s: string) {
    s != [] && forall k :: 0 <= k < |s| ==> IsWordChar(s[k])
  }

  function MarkPrefix(cyc: nat): string {
    "c" + Numeral(cyc, 10) + "_"
  }

  function MarkOf(e: Event, first: map<nat, nat>): Mark
    requires e.cyc in first
  {
    Mark(MarkPrefix(e.cyc) + e.text, first[e.cyc])
  }

  /** One marker per event, in table order; None when the waveform never reaches a
      cycle (the script stops). */
  function MarksOf(events: seq<Event>, first: map<nat, nat>): (marks: Option<seq<Mark>>)
    ensures marks.Some? <==> forall k :: 0 <= k < |events| ==> events[k].cyc in first
    ensures marks.Some? ==> |marks.value| == |events|
  {
    if forall k :: 0 <= k < |events| ==> events[k].cyc in first
    then Some(seq(|events|, k requires 0 <= k < |events| && events[k].cyc in first => MarkOf(events[k], first)))
    else None
  }

  // ---------------------------------------------------------------------
  // The checks
  // ---------------------------------------------------------------------

  /** What the checker wants shown, markers aside: the markers group stands before
      the second signal group. */
  function Want(groups: seq<SigGroup>, names: map<string, Signal>, hasEvents: bool): seq<Item> {
    if groups == [] then []
    else
      var k := |groups| - 1;
      Want(groups[..k], names, hasEvents) + Divider(k, hasEvents) +
      GroupItems(groups[k].name, RowsOf(groups[k].paths, names))
  }

  /** The row wanted before group k. */
  function Divider(k: nat, hasEvents: bool): seq<Item> {
    if k == 1 && hasEvents then [Group(0, MARKERS)] else []
  }

  function WithoutMarkers(items: seq<Item>): seq<Item> {
    if items == [] then []
    else
      var rest := WithoutMarkers(items[..|items| - 1]);
      if items[|items| - 1].Marker? then rest else rest + [items[|items| - 1]]
  }

  function MarkersIn(items: seq<Item>): (marks: seq<Item>)
    ensures forall m :: m in marks ==> m.Marker?
  {
    if items == [] then []
    else
      var rest := MarkersIn(items[..|items| - 1]);
      if items[|items| - 1].Marker? then rest + [items[|items| - 1]] else rest
  }

  lemma WantNext(groups: seq<SigGroup>, names: map<string, Signal>, hasEvents: bool, k: nat)
    requires k < |groups|
    ensures Want(groups[..k + 1], names, hasEvents) ==
      Want(groups[..k], names, hasEvents) + Divider(k, hasEvents) +
      GroupItems(groups[k].name, RowsOf(groups[k].paths, names))
  {
    assert groups[..k + 1][..k] == groups[..k];
  }

  /** The item list check: every listed signal known, and the items as wanted. */
  method CheckItems(got: seq<Item>, groups: seq<SigGroup>, names: map<string, Signal>, hasEvents: bool)
    returns (clean: bool)
    ensures clean <==> AllKnown(groups, names) && WithoutMarkers(got) == Want(groups, names, hasEvents)
  {
    var errs := false;
    var want := [];
    var k := 0;
    while k < |groups|
      invariant 0 <= k <= |groups|
      invariant !errs <==> AllKnown(groups[..k], names)
      invariant want == Want(groups[..k], names, hasEvents)
    {
      WantNext(groups, names, hasEvents, k);
      if k == 1 && hasEvents {
        want := want + [Group(0, MARKERS)];
      }
      assert want == Want(groups[..k], names, hasEvents) + Divider(k, hasEvents);
      var rows, absent, bare := ReadRows(groups[k].paths, names);
      want := want + GroupItems(groups[k].name, rows);
      errs := errs || absent != [] || bare != [];
      KnownNext(groups, names, k);
      k := k + 1;
    }
    assert groups[..k] == groups;
    return !errs && WithoutMarkers(got) == want;
  }

  predicate IsMarkersGroup(it: Item) {
    it.Group? && it.name == MARKERS
  }

  /** check_markers_group: with events, item `at` is the one group named markers and
      the n items inside it are all the markers; without, there is neither. */
  predicate MarkersGroupRight(got: seq<Item>, at: nat, n: nat) {
    if n == 0 then forall k :: 0 <= k < |got| ==> !IsMarkersGroup(got[k]) && !got[k].Marker?
    else
      && at + n < |got| && got[at].level == 0
      && forall k :: 0 <= k < |got| ==>
           && (IsMarkersGroup(got[k]) <==> k == at)
           && (got[k].Marker? <==> at < k <= at + n)
           && (got[k].Marker? ==> got[k].level == 1)
  }

  /** check_markers: one marker per event, each with its event's name and number, at
      a time where the pair starts. */
  predicate MarkersRight(marks: seq<Item>, events: seq<Event>, cyc: seq<Change>, rstn: seq<Change>) {
    && |marks| == |events|
    && forall k :: 0 <= k < |marks| ==>
         && marks[k].Marker?
         && NameRight(marks[k].name, events[k].cyc)
         && marks[k].number == k
         && PassesTest(cyc, rstn, events[k].cyc, marks[k].time)
  }

  predicate NameRight(name: string, cyc: nat) {
    var p := MarkPrefix(cyc);
    |p| <= |name| && name[..|p|] == p && IsLabel(name[|p|..])
  }

  /** A character of a word, by its code. */
  predicate WordCode(c: char) {
    48 <= c as int <= 57 || 65 <= c as int <= 90 || 97 <= c as int <= 122 || c as int == 95
  }

  /** The names that pass: c, the cycle, an underscore, and at least one character of a
      word. */
  lemma NameExactly(name: string, cyc: nat)
    ensures NameRight(name, cyc) <==> exists word: string ::
      && name == "c" + Numeral(cyc, 10) + "_" + word
      && word != "" && forall k :: 0 <= k < |word| ==> WordCode(word[k])
  {
    var p := MarkPrefix(cyc);
    assert forall c: char :: IsWordChar(c) <==> WordCode(c);
    if NameRight(name, cyc) {
      assert name == p + name[|p|..];
    }
    if word: string :| name == p + word && word != "" && forall k :: 0 <= k < |word| ==> WordCode(word[k]) {
      assert name[..|p|] == p && name[|p|..] == word;
    }
  }

  /** The view check, without its divisions.  Surfer gives the view as fractions of
      `total`, the length of its waveform; the checker takes the first marker's time as
      a fraction of `end`, the last change of cyc.  With markers the view is less than
      half of Surfer's, around the first marker; without, the whole. */
  predicate ViewRight(view: View, marks: seq<Item>, end: nat, total: nat)
    requires forall m :: m in marks ==> m.Marker?
  {
    if marks == [] then view == Whole
    else
      && view.Between? && end > 0 && total > 0
      && view.left * end <= marks[0].time * total <= view.right * end
      && 2 * (view.right - view.left) < total
  }

  /** What the checker accepts of the items and the view. */
  predicate Accepts(got: seq<Item>, view: View, groups: seq<SigGroup>, names: map<string, Signal>,
                    events: seq<Event>, cyc: seq<Change>, rstn: seq<Change>, total: nat)
    requires groups != [] && cyc != []
  {
    && AllKnown(groups, names) && WithoutMarkers(got) == Want(groups, names, events != [])
    && MarkersGroupRight(got, 1 + |groups[0].paths|, |events|)
    && MarkersRight(MarkersIn(got), events, cyc, rstn)
    && ViewRight(view, MarkersIn(got), cyc[|cyc| - 1].time, total)
  }

  // ---------------------------------------------------------------------
  // What the display looks like to the checks
  // ---------------------------------------------------------------------

  predicate MarkerFree(items: seq<Item>) {
    forall k :: 0 <= k < |items| ==> !items[k].Marker?
  }

  lemma {:induction false} SeparateConcat(a: seq<Item>, b: seq<Item>)
    ensures WithoutMarkers(a + b) == WithoutMarkers(a) + WithoutMarkers(b)
    ensures MarkersIn(a + b) == MarkersIn(a) + MarkersIn(b)
    decreases |b|
  {
    if b == [] {
      assert a + b == a;
    } else {
      var b', x := b[..|b| - 1], b[|b| - 1];
      SeparateConcat(a, b');
      SeparateSnoc(a + b', x);
      SeparateSnoc(b', x);
      assert b == b' + [x] && a + b == a + b' + [x];
    }
  }

  lemma SeparateSnoc(items: seq<Item>, x: Item)
    ensures WithoutMarkers(items + [x]) == WithoutMarkers(items) + if x.Marker? then [] else [x]
    ensures MarkersIn(items + [x]) == MarkersIn(items) + if x.Marker? then [x] else []
  {
    assert (items + [x])[..|items|] == items;
  }

  lemma {:induction false} SeparateMarkerFree(items: seq<Item>)
    requires MarkerFree(items)
    ensures WithoutMarkers(items) == items && MarkersIn(items) == []
    decreases |items|
  {
    if items != [] {
      SeparateMarkerFree(items[..|items| - 1]);
      assert items == items[..|items| - 1] + [items[|items| - 1]];
    }
  }

  lemma {:induction false} SeparateMarkers(items: seq<Item>)
    requires forall k :: 0 <= k < |items| ==> items[k].Marker?
    ensures WithoutMarkers(items) == [] && MarkersIn(items) == items
    decreases |items|
  {
    if items != [] {
      SeparateMarkers(items[..|items| - 1]);
      assert items == items[..|items| - 1] + [items[|items| - 1]];
    }
  }

  lemma {:induction false} PiecesMarkerFree(groups: seq<SigGroup>, names: map<string, Signal>)
    ensures MarkerFree(Pieces(groups, names))
    decreases |groups|
  {
    if groups != [] {
      PiecesMarkerFree(groups[..|groups| - 1], names);
    }
  }

  predicate NoGroupNamedMarkers(groups: seq<SigGroup>) {
    forall k :: 0 <= k < |groups| ==> groups[k].name != "markers"
  }

  predicate NoMarkersGroup(items: seq<Item>) {
    forall k :: 0 <= k < |items| ==> !IsMarkersGroup(items[k])
  }

  /** Every group has signals, all of them known, as the scenario table promises. */
  predicate Complete(groups: seq<SigGroup>, names: map<string, Signal>) {
    AllKnown(groups, names) && forall k :: 0 <= k < |groups| ==> groups[k].paths != []
  }

  /** A complete group's part: its own row, then a row per signal. */
  lemma PieceShape(g: SigGroup, names: map<string, Signal>)
    requires PathsKnown(g.paths, names) && g.paths != []
    ensures var p := Piece(g, names);
      && p == GroupItems(g.name, RowsOf(g.paths, names))
      && |p| == 1 + |g.paths|
      && p[0] == Group(0, g.name)
      && forall k :: 0 < k < |p| ==> p[k].Variable?
    ensures NoMarkersGroup(Piece(g, names)) <==> g.name != MARKERS
    ensures MarkerFree(Piece(g, names))
  {
    var p := Piece(g, names);
    assert IsMarkersGroup(p[0]) <==> g.name == MARKERS;
  }

  lemma NamesSnoc(groups: seq<SigGroup>)
    requires groups != []
    ensures NoGroupNamedMarkers(groups) <==>
      NoGroupNamedMarkers(groups[..|groups| - 1]) && groups[|groups| - 1].name != MARKERS
    ensures NoGroupNamedMarkers(groups) <==> groups[0].name != MARKERS && NoGroupNamedMarkers(groups[1..])
  {
    assert groups == groups[..|groups| - 1] + [groups[|groups| - 1]];
    assert groups == [groups[0]] + groups[1..];
  }

  lemma {:induction false} PiecesNamed(groups: seq<SigGroup>, names: map<string, Signal>)
    requires Complete(groups, names)
    ensures NoMarkersGroup(Pieces(groups, names)) <==> NoGroupNamedMarkers(groups)
    decreases |groups|
  {
    if groups != [] {
      var front, last := groups[..|groups| - 1], groups[|groups| - 1];
      NamesSnoc(groups);
      PiecesNamed(front, names);
      PieceShape(last, names);
      NamedConcat(Pieces(front, names), Piece(last, names));
    }
  }

  lemma NamedConcat(a: seq<Item>, b: seq<Item>)
    ensures NoMarkersGroup(a + b) <==> NoMarkersGroup(a) && NoMarkersGroup(b)
  {
    assert forall k :: 0 <= k < |a| ==> (a + b)[k] == a[k];
    assert forall k :: 0 <= k < |b| ==> (a + b)[|a| + k] == b[k];
  }

  /** What the checker wants, read from the front. */
  lemma {:induction false} WantIs(groups: seq<SigGroup>, names: map<string, Signal>, hasEvents: bool)
    requires Complete(groups, names) && groups != []
    ensures Want(groups, names, hasEvents) ==
      Piece(groups[0], names) + (if |groups| > 1 then Divider(1, hasEvents) else []) + Pieces(groups[1..], names)
    decreases |groups|
  {
    var k := |groups| - 1;
    var front, last := groups[..k], groups[k];
    var l, d := Piece(last, names), Divider(1, hasEvents);
    PieceShape(last, names);
    if k == 0 {
      assert Want(front, names, hasEvents) == [] && Pieces(groups[1..], names) == [];
    } else {
      WantIs(front, names, hasEvents);
      PiecesFrom(groups, names);
      var p, q := Piece(groups[0], names), Pieces(front[1..], names);
      if k == 1 {
        assert Want(front, names, hasEvents) == p + [] + [];
        Regroup(p, d, [], l);
      } else {
        assert Want(front, names, hasEvents) == p + d + q;
        Regroup(p, d, q, l);
      }
    }
  }

  lemma PiecesFrom(groups: seq<SigGroup>, names: map<string, Signal>)
    requires |groups| > 1
    ensures var front, last := groups[..|groups| - 1], groups[|groups| - 1];
      Pieces(groups[1..], names) == Pieces(front[1..], names) + Piece(last, names)
  {
    var tail := groups[1..];
    assert tail[..|tail| - 1] == groups[..|groups| - 1][1..];
  }

  lemma Regroup<T>(p: seq<T>, d: seq<T>, q: seq<T>, l: seq<T>)
    ensures p + d + q + [] + l == p + d + (q + l)
    ensures p + [] + [] + d + l == p + d + ([] + l)
  {
  }

  /** The marker rows of a markers group, and the rest of it. */
  lemma MarkersGroupSeparated(marks: seq<Mark>)
    ensures WithoutMarkers(MarkersGroup(marks)) == if marks == [] then [] else [Group(0, MARKERS)]
    ensures MarkersIn(MarkersGroup(marks)) == MarkerItems(marks)
  {
    if marks != [] {
      SeparateConcat([Group(0, MARKERS)], MarkerItems(marks));
      SeparateMarkerFree([Group(0, MARKERS)]);
      SeparateMarkers(MarkerItems(marks));
    }
  }

  lemma SeparateThree(p: seq<Item>, m: seq<Item>, q: seq<Item>)
    requires MarkerFree(p) && MarkerFree(q)
    ensures WithoutMarkers(p + m + q) == p + WithoutMarkers(m) + q
    ensures MarkersIn(p + m + q) == MarkersIn(m)
  {
    SeparateMarkerFree(p);
    SeparateMarkerFree(q);
    SeparateConcat(p + m, q);
    SeparateConcat(p, m);
  }

  /** The display without its markers, and its markers. */
  lemma DisplaySeparated(groups: seq<SigGroup>, names: map<string, Signal>, marks: seq<Mark>)
    requires Complete(groups, names) && groups != []
    ensures WithoutMarkers(Display(groups, names, marks)) ==
      Piece(groups[0], names) + (if marks == [] then [] else [Group(0, MARKERS)]) + Pieces(groups[1..], names)
    ensures MarkersIn(Display(groups, names, marks)) == MarkerItems(marks)
  {
    PieceShape(groups[0], names);
    PiecesMarkerFree(groups[1..], names);
    SeparateThree(Piece(groups[0], names), MarkersGroup(marks), Pieces(groups[1..], names));
    MarkersGroupSeparated(marks);
  }

  /** The markers group check on rows p, a markers group m and rows q. */
  lemma GroupCheckShape(p: seq<Item>, marks: seq<Mark>, q: seq<Item>)
    requires p != [] && MarkerFree(p) && MarkerFree(q)
    ensures MarkersGroupRight(p + MarkersGroup(marks) + q, |p|, |marks|) <==> NoMarkersGroup(p) && NoMarkersGroup(q)
  {
    var m := MarkersGroup(marks);
    ThreeParts(p, m, q);
    if marks != [] {
      assert m[0] == Group(0, MARKERS);
      assert forall k :: 0 < k < |m| ==> m[k] == MarkerItems(marks)[k - 1];
    }
  }

  lemma ThreeParts(p: seq<Item>, m: seq<Item>, q: seq<Item>)
    ensures var got := p + m + q;
      && |got| == |p| + |m| + |q|
      && (forall k :: 0 <= k < |p| ==> got[k] == p[k])
      && (forall k :: |p| <= k < |p| + |m| ==> got[k] == m[k - |p|])
      && (forall k :: |p| + |m| <= k < |got| ==> got[k] == q[k - |p| - |m|])
      && (forall k :: 0 <= k < |m| ==> m[k] == got[k + |p|])
      && (forall k :: 0 <= k < |q| ==> q[k] == got[k + |p| + |m|])
  {
  }

  /** The markers group check on a display. */
  lemma GroupCheckExact(groups: seq<SigGroup>, names: map<string, Signal>, marks: seq<Mark>)
    requires Complete(groups, names) && groups != []
    ensures MarkersGroupRight(Display(groups, names, marks), 1 + |groups[0].paths|, |marks|)
            <==> NoGroupNamedMarkers(groups)
  {
    PieceShape(groups[0], names);
    PiecesMarkerFree(groups[1..], names);
    PiecesNamed(groups[1..], names);
    GroupCheckShape(Piece(groups[0], names), marks, Pieces(groups[1..], names));
    NamesSnoc(groups);
  }

  lemma MarksPass(events: seq<Event>, first: map<nat, nat>, cyc: seq<Change>, rstn: seq<Change>)
    requires FirstTimes(first, cyc, rstn) && MarksOf(events, first).Some?
    requires forall k :: 0 <= k < |events| ==> IsLabel(events[k].text)
    ensures MarkersRight(MarkerItems(MarksOf(events, first).value), events, cyc, rstn)
  {
    var marks := MarksOf(events, first).value;
    forall k | 0 <= k < |marks|
      ensures NameRight(marks[k].name, events[k].cyc)
      ensures PassesTest(cyc, rstn, events[k].cyc, marks[k].time)
    {
      var p := MarkPrefix(events[k].cyc);
      assert marks[k].name[..|p|] == p && marks[k].name[|p|..] == events[k].text;
      FoundTimesPass(first, cyc, rstn, events[k].cyc);
    }
  }

  /** Every marker's name is c and its event's cycle, and the event's label, and its
      time is the first of that cycle. */
  lemma MarksNamed(events: seq<Event>, first: map<nat, nat>, k: nat)
    requires MarksOf(events, first).Some? && k < |events|
    ensures var m := MarksOf(events, first).value[k];
      var f := Split(m.name, '_');
      && |f| > 1 && f[0] != "" && f[0][0] == 'c'
      && ParseNumeral(f[0][1..], 10) == Some(events[k].cyc)
      && Join(f[1..], '_') == events[k].text
      && m.time == first[events[k].cyc]
  {
    var cyc, text := events[k].cyc, events[k].text;
    var number := Numeral(cyc, 10);
    ParseOfNumeral(cyc, 10);
    assert "c" + number + "_" + text == ("c" + number) + ['_'] + text;
    SplitField("c" + number, '_', text);
    JoinOfSplit(text, '_');
    assert (["c" + number] + Split(text, '_'))[1..] == Split(text, '_');
    assert ("c" + number)[1..] == number;
  }

  /** The time before the first marker that the opening view shows. */
  function ViewBefore(marks: seq<Mark>, period: nat): (before: nat)
    requires marks != []
    ensures before <= marks[0].time
  {
    if marks[0].time <= VIEW_BEFORE * period then marks[0].time else VIEW_BEFORE * period
  }

  /** The opening view passes the view check: it is less than half the waveform, and the
      first marker, as a fraction of the last change of cyc, falls into it. */
  predicate ViewFits(marks: seq<Mark>, period: nat, end: nat, total: nat)
    requires marks != []
  {
    var t, before, after := marks[0].time, ViewBefore(marks, period), VIEW_AFTER * period;
    && end > 0 && total > 0
    && (t - before) * end <= t * total <= (t + after) * end
    && 2 * (before + after) < total
  }

  lemma OpeningViewRight(marks: seq<Mark>, period: nat, end: nat, total: nat)
    ensures ViewRight(OpeningView(marks, period), MarkerItems(marks), end, total) <==>
      marks == [] || ViewFits(marks, period, end, total)
  {
    if marks != [] {
      var t0 := marks[0].time;
      assert OpeningView(marks, period) == Between(t0 - ViewBefore(marks, period), t0 + VIEW_AFTER * period);
      assert MarkerItems(marks)[0].time == t0;
    }
  }

  /** When cyc changes last where the waveform ends, only the width matters. */
  lemma ViewFitsOneEnd(marks: seq<Mark>, period: nat, end: nat)
    requires marks != []
    ensures ViewFits(marks, period, end, end) <==> 2 * (ViewBefore(marks, period) + VIEW_AFTER * period) < end
  {
    var t, before, after := marks[0].time, ViewBefore(marks, period), VIEW_AFTER * period;
    MulKeeps(t - before, t, end);
    MulKeeps(t, t + after, end);
  }

  lemma MulKeeps(a: nat, b: nat, c: nat)
    requires a <= b
    ensures a * c <= b * c
  {
  }

  /** Main result: whenever the compiler writes a file, the checker accepts what the
      file displays exactly when no signal group is itself named "markers", and a
      scenario with events has a second signal group, before which alone the checker
      looks for the markers group, and an opening view that fits its waveform. */
  lemma CheckerAcceptsExactly(groups: seq<SigGroup>, names: map<string, Signal>, events: seq<Event>,
                              first: map<nat, nat>, cyc: seq<Change>, rstn: seq<Change>, period: nat, total: nat)
    requires groups != [] && Complete(groups, names) && cyc != []
    requires FirstTimes(first, cyc, rstn) && MarksOf(events, first).Some?
    requires forall k :: 0 <= k < |events| ==> IsLabel(events[k].text)
    ensures var marks := MarksOf(events, first).value;
      Accepts(Display(groups, names, marks), OpeningView(marks, period), groups, names, events, cyc, rstn, total) <==>
        && NoGroupNamedMarkers(groups)
        && (events == [] || (|groups| >= 2 && ViewFits(marks, period, cyc[|cyc| - 1].time, total)))
  {
    var marks := MarksOf(events, first).value;
    WantIs(groups, names, events != []);
    DisplaySeparated(groups, names, marks);
    GroupCheckExact(groups, names, marks);
    MarksPass(events, first, cyc, rstn);
    OpeningViewRight(marks, period, cyc[|cyc| - 1].time, total);
    if events != [] && |groups| == 1 {
      assert |WithoutMarkers(Display(groups, names, marks))| != |Want(groups, names, true)|;
    }
  }

  // ---------------------------------------------------------------------
  // What is accepted
  // ---------------------------------------------------------------------

  function MarksShown(got: seq<Item>): (marks: seq<Mark>)
    ensures |marks| == |MarkersIn(got)|
  {
    seq(|MarkersIn(got)|, k requires 0 <= k < |MarkersIn(got)| => Mark(MarkersIn(got)[k].name, MarkersIn(got)[k].time))
  }

  /** Items around a run of markers, taken apart as the checks do. */
  lemma MarkersBetween(got: seq<Item>, at: nat, n: nat)
    requires at + n < |got|
    requires forall k :: 0 <= k < |got| ==> (got[k].Marker? <==> at < k <= at + n)
    ensures WithoutMarkers(got) == got[..at + 1] + got[at + n + 1..]
    ensures MarkersIn(got) == got[at + 1..at + n + 1]
  {
    var a, m, b := got[..at + 1], got[at + 1..at + n + 1], got[at + n + 1..];
    CutThree(got, at + 1, at + n + 1);
    NoneBetween(got, at, n);
    SeparateThree(a, m, b);
    SeparateMarkers(m);
    assert a + [] == a;
  }

  lemma CutThree<T>(s: seq<T>, i: nat, j: nat)
    requires i <= j <= |s|
    ensures s == s[..i] + s[i..j] + s[j..]
  {
  }

  lemma NoneBetween(got: seq<Item>, at: nat, n: nat)
    requires at + n < |got|
    requires forall k :: 0 <= k < |got| ==> (got[k].Marker? <==> at < k <= at + n)
    ensures MarkerFree(got[..at + 1]) && MarkerFree(got[at + n + 1..])
    ensures var m := got[at + 1..at + n + 1]; forall k :: 0 <= k < |m| ==> m[k].Marker?
  {
    var m, b := got[at + 1..at + n + 1], got[at + n + 1..];
    assert forall k :: 0 <= k < |b| ==> b[k] == got[at + n + 1 + k];
    assert forall k :: 0 <= k < |m| ==> m[k] == got[at + 1 + k];
  }

  lemma SameSplit<T>(a: seq<T>, b: seq<T>, p: seq<T>, q: seq<T>)
    requires a + b == p + q && |a| == |p|
    ensures a == p && b == q
  {
    assert a == (a + b)[..|a|] && b == (a + b)[|a|..];
    assert p == (p + q)[..|p|] && q == (p + q)[|p|..];
  }

  lemma AcceptedMarkers(got: seq<Item>, events: seq<Event>, cyc: seq<Change>, rstn: seq<Change>)
    requires MarkersRight(MarkersIn(got), events, cyc, rstn)
    requires forall m :: m in MarkersIn(got) ==> m.level == 1
    ensures MarkersIn(got) == MarkerItems(MarksShown(got))
  {
    var marks := MarkersIn(got);
    forall k | 0 <= k < |marks|
      ensures marks[k] == MarkerItems(MarksShown(got))[k]
    {
      assert marks[k] in marks;
    }
  }

  /** Main result: whatever items the checker accepts are the wanted display, with one
      marker for each event, named for its cycle, at a time where that cycle starts out
      of reset. */
  lemma AcceptedIsDisplay(got: seq<Item>, view: View, groups: seq<SigGroup>, names: map<string, Signal>,
                          events: seq<Event>, cyc: seq<Change>, rstn: seq<Change>, total: nat)
    requires groups != [] && Complete(groups, names) && cyc != []
    requires Accepts(got, view, groups, names, events, cyc, rstn, total)
    ensures var marks := MarksShown(got);
      && got == Display(groups, names, marks)
      && |marks| == |events|
      && forall k :: 0 <= k < |marks| ==>
           NameRight(marks[k].name, events[k].cyc) && PassesTest(cyc, rstn, events[k].cyc, marks[k].time)
  {
    if events == [] {
      assert MarkersIn(got) == [];
      AcceptedPlain(got, groups, names);
    } else {
      AcceptedMarked(got, groups, names, events, cyc, rstn);
    }
    ShownRight(got, events, cyc, rstn);
  }

  lemma ShownRight(got: seq<Item>, events: seq<Event>, cyc: seq<Change>, rstn: seq<Change>)
    requires MarkersRight(MarkersIn(got), events, cyc, rstn)
    ensures var marks := MarksShown(got);
      && |marks| == |events|
      && forall k :: 0 <= k < |marks| ==>
           NameRight(marks[k].name, events[k].cyc) && PassesTest(cyc, rstn, events[k].cyc, marks[k].time)
  {
  }

  lemma AcceptedPlain(got: seq<Item>, groups: seq<SigGroup>, names: map<string, Signal>)
    requires groups != [] && Complete(groups, names) && MarkerFree(got) && MarkersIn(got) == []
    requires WithoutMarkers(got) == Want(groups, names, false)
    ensures got == Display(groups, names, MarksShown(got))
  {
    var p, q := Piece(groups[0], names), Pieces(groups[1..], names);
    WantIs(groups, names, false);
    SeparateMarkerFree(got);
    assert MarksShown(got) == [] && MarkersGroup([]) == [] && p + [] == p;
  }

  lemma AcceptedMarked(got: seq<Item>, groups: seq<SigGroup>, names: map<string, Signal>,
                       events: seq<Event>, cyc: seq<Change>, rstn: seq<Change>)
    requires groups != [] && Complete(groups, names) && events != []
    requires WithoutMarkers(got) == Want(groups, names, true)
    requires MarkersGroupRight(got, 1 + |groups[0].paths|, |events|)
    requires MarkersRight(MarkersIn(got), events, cyc, rstn)
    ensures got == Display(groups, names, MarksShown(got))
  {
    var at, n := 1 + |groups[0].paths|, |events|;
    PieceShape(groups[0], names);
    WantIs(groups, names, true);
    MarkersBetween(got, at, n);
    MarkersInside(got, at, n);
    AcceptedMarkers(got, events, cyc, rstn);
    assert |groups| == 1 ==> |Want(groups, names, true)| == at;
    if |groups| == 1 {
      assert false;
    } else {
      AroundMarkers(got, at, n, Piece(groups[0], names), Pieces(groups[1..], names), MarksShown(got));
    }
  }

  lemma MarkersInside(got: seq<Item>, at: nat, n: nat)
    requires at + n < |got| && MarkersIn(got) == got[at + 1..at + n + 1]
    requires forall k :: 0 <= k < |got| ==> (got[k].Marker? <==> at < k <= at + n)
    requires forall k :: 0 <= k < |got| ==> got[k].Marker? ==> got[k].level == 1
    ensures forall m :: m in MarkersIn(got) ==> m.level == 1
  {
    forall m | m in MarkersIn(got)
      ensures m.level == 1
    {
      var k :| 0 <= k < n && got[at + 1..at + n + 1][k] == m;
      assert got[at + 1 + k] == m;
    }
  }

  lemma AroundMarkers(got: seq<Item>, at: nat, n: nat, p: seq<Item>, q: seq<Item>, marks: seq<Mark>)
    requires at + n < |got| && |p| == at && marks != [] && MarkersIn(got) == MarkerItems(marks)
    requires MarkersIn(got) == got[at + 1..at + n + 1]
    requires got[..at + 1] + got[at + n + 1..] == p + [Group(0, MARKERS)] + q
    ensures got == p + MarkersGroup(marks) + q
  {
    CutThree(got, at + 1, at + n + 1);
    SameSplit(got[..at + 1], got[at + n + 1..], p + [Group(0, MARKERS)], q);
    Assoc(p, [Group(0, MARKERS)], MarkerItems(marks));
  }
}
