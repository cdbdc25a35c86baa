/** The command file compiler, examples/fe_demo/waves/mk_sucl.py: the display that is
    wanted, and the commands that build it. */
module Sucl {
  import opened Text
  import opened SurferViewer

  /** A signal of the waveform: the name Surfer shows and the format the table gives
      it, None when no row of the table matches. */
  datatype Signal = Signal(shown: string, format: Option<string>)

  datatype SigGroup = SigGroup(name: string, paths: seq<string>)

  datatype Row = Row(shown: string, format: string)

  datatype Mark = Mark(name: string, time: nat)

  const UNIQUE := "Unique"
  const MARKERS := "markers"
  const VIEW_BEFORE := 2
  const VIEW_AFTER := 30

  predicate Known(p: string, names: map<string, Signal>) {
    p in names && names[p].format.Some?
  }

  predicate PathsKnown(paths: seq<string>, names: map<string, Signal>) {
    forall i :: 0 <= i < |paths| ==> Known(paths[i], names)
  }

  predicate AllKnown(groups: seq<SigGroup>, names: map<string, Signal>) {
    forall k :: 0 <= k < |groups| ==> PathsKnown(groups[k].paths, names)
  }

  function RowsOf(paths: seq<string>, names: map<string, Signal>): (rows: seq<Row>)
    ensures PathsKnown(paths, names) ==> |rows| == |paths|
  {
    if paths == [] then []
    else
      var rows := RowsOf(paths[..|paths| - 1], names);
      var p := paths[|paths| - 1];
      if Known(p, names) then rows + [Row(names[p].shown, names[p].format.value)] else rows
  }

  // ---------------------------------------------------------------------
  // The display that is wanted
  // ---------------------------------------------------------------------

  function VariableItems(rows: seq<Row>): (items: seq<Item>)
    ensures |items| == |rows|
  {
    seq(|rows|, k requires 0 <= k < |rows| => Variable(1, rows[k].shown, Some(rows[k].format), Some(UNIQUE)))
  }

  /** A group at the top level with its signals under it. */
  function GroupItems(name: string, rows: seq<Row>): seq<Item> {
    [Group(0, name)] + VariableItems(rows)
  }

  function MarkerItems(marks: seq<Mark>): (items: seq<Item>)
    ensures |items| == |marks|
  {
    seq(|marks|, k requires 0 <= k < |marks| => Marker(1, marks[k].name, marks[k].time, k))
  }

  function MarkersGroup(marks: seq<Mark>): seq<Item> {
    if marks == [] then [] else [Group(0, MARKERS)] + MarkerItems(marks)
  }

  /** A group's part of the display; empty when none of its signals is known. */
  function Piece(g: SigGroup, names: map<string, Signal>): seq<Item> {
    if RowsOf(g.paths, names) == [] then [] else GroupItems(g.name, RowsOf(g.paths, names))
  }

  function Pieces(groups: seq<SigGroup>, names: map<string, Signal>): seq<Item> {
    if groups == [] then []
    else Pieces(groups[..|groups| - 1], names) + Piece(groups[|groups| - 1], names)
  }

  /** The first group with the markers group after it. */
  function FirstPiece(g: SigGroup, names: map<string, Signal>, marks: seq<Mark>): seq<Item> {
    Piece(g, names) + if RowsOf(g.paths, names) == [] then [] else MarkersGroup(marks)
  }

  /** The whole display: the first group, the markers group, the other groups. */
  function Display(groups: seq<SigGroup>, names: map<string, Signal>, marks: seq<Mark>): seq<Item> {
    if groups == [] then [] else FirstPiece(groups[0], names, marks) + Pieces(groups[1..], names)
  }

  lemma {:induction false} RowsListed(paths: seq<string>, names: map<string, Signal>, i: nat)
    requires PathsKnown(paths, names) && i < |paths|
    ensures RowsOf(paths, names)[i] == Row(names[paths[i]].shown, names[paths[i]].format.value)
    decreases |paths|
  {
    if i < |paths| - 1 {
      RowsListed(paths[..|paths| - 1], names, i);
    }
  }

  /** A known group shows its own row at the top level, then each listed signal one
      level below with its own name and format. */
  lemma PieceListed(g: SigGroup, names: map<string, Signal>, i: nat)
    requires PathsKnown(g.paths, names) && i < |g.paths|
    ensures |Piece(g, names)| == 1 + |g.paths| && Piece(g, names)[0] == Group(0, g.name)
    ensures Piece(g, names)[1 + i] ==
      Variable(1, names[g.paths[i]].shown, names[g.paths[i]].format, Some("Unique"))
  {
    RowsListed(g.paths, names, i);
  }

  /** The opening view starts two clock periods before the first marker, or at the start
      of the run, and ends thirty after it. */
  lemma OpeningViewIs(marks: seq<Mark>, period: nat)
    requires marks != []
    ensures var t0, view := marks[0].time, OpeningView(marks, period);
      && view.Between? && view.right == t0 + 30 * period
      && view.left == (if t0 >= 2 * period then t0 - 2 * period else 0)
  {
  }

  // ---------------------------------------------------------------------
  // The compiler
  // ---------------------------------------------------------------------

  /** Emits one group; v is the viewer the commands so far have built. */
  method EmitGroup(n: nat, name: string, rows: seq<Row>, ghost v: Viewer) returns (lines: seq<Command>)
    requires rows != [] && v.focus == Nothing && v.nameType == Some(UNIQUE) && |v.items| == n
    ensures Run(Some(v), lines) == Some(v.(items := v.items + GroupItems(name, rows)))
  {
    lines := EmitFirst(n, name, VariableAdd(rows[0].shown), v, Variable(0, rows[0].shown, None, Some(UNIQUE)), v);
    ghost var base := v.items + [Group(0, name)];
    ghost var w := v.(items := base + [Variable(1, rows[0].shown, None, Some(UNIQUE))], focus := At(n + 1));
    RunNext(v, lines, w, ItemSetFormat(rows[0].format));
    FormatLast(w, base, Variable(1, rows[0].shown, None, Some(UNIQUE)), rows[0].format);
    lines := lines + [ItemSetFormat(rows[0].format)];
    w := v.(items := base + VariableItems(rows[..1]), focus := At(n + 1));
    assert VariableItems(rows[..1]) == [Variable(1, rows[0].shown, Some(rows[0].format), Some(UNIQUE))];
    lines := EmitFurtherRows(lines, rows, v, base, w);
    w := v.(items := base + VariableItems(rows), focus := At(n + |rows|));
    RunNext(v, lines, w, ItemUnfocus);
    lines := lines + [ItemUnfocus];
    assert base + VariableItems(rows) == v.items + GroupItems(name, rows);
  }

  method EmitFurtherRows(lines: seq<Command>, rows: seq<Row>,
                         ghost v: Viewer, ghost base: seq<Item>, ghost w0: Viewer)
    returns (lines': seq<Command>)
    requires rows != [] && base != [] && v.nameType == Some(UNIQUE)
    requires w0 == v.(items := base + VariableItems(rows[..1]), focus := At(|base|))
    requires Run(Some(v), lines) == Some(w0)
    ensures Run(Some(v), lines') ==
      Some(v.(items := base + VariableItems(rows), focus := At(|base| + |rows| - 1)))
  {
    lines' := lines;
    ghost var w := w0;
    var i := 1;
    while i < |rows|
      invariant 1 <= i <= |rows|
      invariant w == v.(items := base + VariableItems(rows[..i]), focus := At(|base| + i - 1))
      invariant Run(Some(v), lines') == Some(w)
    {
      NextRowBuilt(w, base, rows, i);
      ghost var named := Step(w, VariableAdd(rows[i].shown)).value;
      ghost var done := v.(items := base + VariableItems(rows[..i + 1]), focus := At(|base| + i));
      RunTwo(w, VariableAdd(rows[i].shown), named, ItemSetFormat(rows[i].format), done);
      RunConcat(Some(v), lines', [VariableAdd(rows[i].shown), ItemSetFormat(rows[i].format)]);
      lines' := lines' + [VariableAdd(rows[i].shown), ItemSetFormat(rows[i].format)];
      w := done;
      i := i + 1;
    }
    assert rows[..i] == rows;
  }

  /** The commands that open a group: place its first item, make it a group, and
      focus the item inside. */
  method EmitFirst(n: nat, name: string, place: Command, ghost v: Viewer, ghost it: Item, ghost v1: Viewer)
    returns (lines: seq<Command>)
    requires v.focus == Nothing && |v.items| == n && !it.Group? && it.level == 0
    requires v1.items == v.items && v1.focus == Nothing
    requires Step(v, place) == Some(v1.(items := v.items + [it]))
    ensures Run(Some(v), lines) ==
      Some(v1.(items := v.items + [Group(0, name)] + [WithLevel(it, 1)], focus := At(n + 1)))
  {
    ghost var w := v1.(items := v.items + [it]);
    var first, rest := [place, ItemFocus(Alpha(n))], [GroupMarked(name), ItemFocus(Alpha(n + 1))];
    RunTwo(v, place, w, ItemFocus(Alpha(n)), w.(focus := At(n))) by { FocusOn(w, n); }
    LastIsGrouped(n, name, w, v.items, it);
    RunConcat(Some(v), first, rest);
    lines := first + rest;
  }

  lemma LastIsGrouped(n: nat, name: string, w: Viewer, base: seq<Item>, it: Item)
    requires w.items == base + [it] && |base| == n && !it.Group? && it.level == 0
    ensures Run(Some(w.(focus := At(n))), [GroupMarked(name), ItemFocus(Alpha(n + 1))]) ==
      Some(w.(items := base + [Group(0, name)] + [WithLevel(it, 1)], focus := At(n + 1)))
  {
    var focused := w.(focus := At(n));
    var grouped := w.(items := base + [Group(0, name)] + [WithLevel(it, 1)], focus := Unstated);
    GroupLast(focused, base, it, name);
    FocusOn(grouped, n + 1);
    RunTwo(focused, GroupMarked(name), grouped, ItemFocus(Alpha(n + 1)), grouped.(focus := At(n + 1)));
  }

  lemma RunTwo(v: Viewer, a: Command, w: Viewer, b: Command, w': Viewer)
    requires Step(v, a) == Some(w) && Step(w, b) == Some(w')
    ensures Run(Some(v), [a, b]) == Some(w')
  {
    RunNext(v, [], v, a);
    RunNext(v, [a], w, b);
    assert [] + [a] == [a] && [a] + [b] == [a, b];
  }

  lemma VariableItemsSnoc(rows: seq<Row>, i: nat)
    requires i < |rows|
    ensures VariableItems(rows[..i + 1]) ==
            VariableItems(rows[..i]) + [Variable(1, rows[i].shown, Some(rows[i].format), Some(UNIQUE))]
  {
  }

  lemma NextRowBuilt(w: Viewer, base: seq<Item>, rows: seq<Row>, i: nat)
    requires 0 < i < |rows| && w.nameType == Some(UNIQUE)
    requires w.items == base + VariableItems(rows[..i]) && w.focus == At(|base| + i - 1)
    ensures var w1 := Step(w, VariableAdd(rows[i].shown));
            && w1.Some?
            && Step(w1.value, ItemSetFormat(rows[i].format)) ==
               Some(w.(items := base + VariableItems(rows[..i + 1]), focus := At(|base| + i)))
  {
    var vars := VariableItems(rows[..i]);
    var before, last := base + vars[..i - 1], vars[i - 1];
    var added := Variable(1, rows[i].shown, None, Some(UNIQUE));
    assert vars == vars[..i - 1] + [last];
    assert w.items == before + [last];
    PlaceAfterLast(w, before, last, Variable(0, rows[i].shown, None, Some(UNIQUE)));
    var w1 := w.(items := w.items + [added], focus := At(|base| + i));
    FormatLast(w1, w.items, added, rows[i].format);
    VariableItemsSnoc(rows, i);
    var final := added.(format := Some(rows[i].format));
    assert w.items + [final] == base + (vars + [final]);
  }

  /** Emits the markers group. */
  method EmitMarkers(n: nat, marks: seq<Mark>, ghost v: Viewer) returns (lines: seq<Command>)
    requires marks != [] && v.focus == Nothing && |v.items| == n && v.markers == 0
    ensures Run(Some(v), lines) == Some(v.(items := v.items + MarkersGroup(marks), markers := |marks|))
  {
    lines := EmitFirst(n, MARKERS, MarkerSet(marks[0].name, marks[0].time), v,
                       Marker(0, marks[0].name, marks[0].time, 0), v.(markers := 1));
    ghost var base := v.items + [Group(0, MARKERS)];
    ghost var w := v.(items := base + MarkerItems(marks[..1]), focus := At(n + 1), markers := 1);
    assert MarkerItems(marks[..1]) == [Marker(1, marks[0].name, marks[0].time, 0)];
    lines := EmitFurtherMarks(lines, marks, v, base, w);
    Assoc(v.items, [Group(0, MARKERS)], MarkerItems(marks));
  }

  /** The markers after the first, and the end of their group. */
  method EmitFurtherMarks(lines: seq<Command>, marks: seq<Mark>,
                          ghost v: Viewer, ghost base: seq<Item>, ghost w0: Viewer)
    returns (lines': seq<Command>)
    requires marks != [] && base != [] && Run(Some(v), lines) == Some(w0)
    requires w0 == v.(items := base + MarkerItems(marks[..1]), focus := At(|base|), markers := 1)
    requires v.focus == Nothing
    ensures Run(Some(v), lines') == Some(v.(items := base + MarkerItems(marks), markers := |marks|))
  {
    lines' := lines;
    ghost var w := w0;
    var i := 1;
    while i < |marks|
      invariant 1 <= i <= |marks|
      invariant w == v.(items := base + MarkerItems(marks[..i]), focus := At(|base| + i - 1), markers := i)
      invariant Run(Some(v), lines') == Some(w)
    {
      NextMarkBuilt(w, base, marks, i);
      RunNext(v, lines', w, MarkerSet(marks[i].name, marks[i].time));
      w := Step(w, MarkerSet(marks[i].name, marks[i].time)).value;
      lines' := lines' + [MarkerSet(marks[i].name, marks[i].time)];
      i := i + 1;
    }
    assert marks[..i] == marks;
    RunNext(v, lines', w, ItemUnfocus);
    lines' := lines' + [ItemUnfocus];
  }

  lemma NextMarkBuilt(w: Viewer, base: seq<Item>, marks: seq<Mark>, i: nat)
    requires 0 < i < |marks| && w.markers == i
    requires w.items == base + MarkerItems(marks[..i]) && w.focus == At(|base| + i - 1)
    ensures Step(w, MarkerSet(marks[i].name, marks[i].time)) ==
            Some(w.(items := base + MarkerItems(marks[..i + 1]), focus := At(|base| + i), markers := i + 1))
  {
    var placed := MarkerItems(marks[..i]);
    var before, last := base + placed[..i - 1], placed[i - 1];
    assert placed == placed[..i - 1] + [last];
    assert w.items == before + [last];
    PlaceAfterLast(w.(markers := i + 1), before, last, Marker(0, marks[i].name, marks[i].time, i));
    var added := Marker(1, marks[i].name, marks[i].time, i);
    assert MarkerItems(marks[..i + 1]) == placed + [added];
    assert w.items + [added] == base + (placed + [added]);
  }

  /** The viewer after the first k groups. */
  ghost function Built(groups: seq<SigGroup>, names: map<string, Signal>, marks: seq<Mark>, k: nat): Viewer
    requires k <= |groups|
  {
    var placed := k > 0 && RowsOf(groups[0].paths, names) != [];
    Viewer(Display(groups[..k], names, marks), Nothing, if placed then |marks| else 0, Some(UNIQUE), Whole)
  }

  lemma DisplayNext(groups: seq<SigGroup>, names: map<string, Signal>, marks: seq<Mark>, k: nat)
    requires k < |groups|
    ensures Display(groups[..k + 1], names, marks) ==
      Display(groups[..k], names, marks) +
      if k == 0 then FirstPiece(groups[0], names, marks) else Piece(groups[k], names)
  {
    var before, after := groups[..k], groups[..k + 1];
    if k == 0 {
      assert after[1..] == [];
      assert FirstPiece(groups[0], names, marks) + [] == [] + FirstPiece(groups[0], names, marks);
    } else {
      assert after[1..][..|after[1..]| - 1] == before[1..];
      assert after[1..][|after[1..]| - 1] == groups[k];
    }
  }

  /** What group k adds to the display. */
  function Part(k: nat, name: string, rows: seq<Row>, marks: seq<Mark>): seq<Item> {
    if rows == [] then []
    else if k == 0 && marks != [] then GroupItems(name, rows) + MarkersGroup(marks)
    else GroupItems(name, rows)
  }

  /** Emits a group and, after the first one, the markers group. */
  method EmitPiece(k: nat, n: nat, g: SigGroup, rows: seq<Row>, marks: seq<Mark>, ghost v: Viewer)
    returns (lines: seq<Command>, n': nat)
    requires v.focus == Nothing && v.nameType == Some(UNIQUE) && |v.items| == n
    requires k == 0 ==> v.markers == 0
    ensures Run(Some(v), lines) == Some(WithPart(v, k, g.name, rows, marks))
    ensures n' == |WithPart(v, k, g.name, rows, marks).items|
  {
    lines, n' := [], n;
    if rows == [] {
      assert v.items + [] == v.items;
      return;
    }
    lines := EmitGroup(n, g.name, rows, v);
    n' := n + 1 + |rows|;
    if k == 0 && marks != [] {
      ghost var w := v.(items := v.items + GroupItems(g.name, rows));
      var marked := EmitMarkers(n', marks, w);
      RunConcat(Some(v), lines, marked);
      lines := lines + marked;
      n' := n' + 1 + |marks|;
      Assoc(v.items, GroupItems(g.name, rows), MarkersGroup(marks));
    }
  }

  /** The viewer with group k shown. */
  ghost function WithPart(v: Viewer, k: nat, name: string, rows: seq<Row>, marks: seq<Mark>): Viewer {
    v.(items := v.items + Part(k, name, rows, marks), markers := if rows != [] && k == 0 then |marks| else v.markers)
  }

  lemma RunOn(lines: seq<Command>, v: Viewer, part: seq<Command>, w: Viewer)
    requires Run(Some(START), lines) == Some(v) && Run(Some(v), part) == Some(w)
    ensures Run(Some(START), lines + part) == Some(w)
  {
    RunConcat(Some(START), lines, part);
  }

  /** Emits the whole display.  `missing` and `unformatted` are the listed signals the
      waveform lacks or the format table does not match. */
  method EmitDisplay(groups: seq<SigGroup>, names: map<string, Signal>, marks: seq<Mark>)
    returns (lines: seq<Command>, missing: seq<string>, unformatted: seq<string>)
    ensures missing == [] && unformatted == [] <==> AllKnown(groups, names)
    ensures Run(Some(START), lines) == Some(Built(groups, names, marks, |groups|))
  {
    lines := [ForceNameType(UNIQUE)];
    missing, unformatted := [], [];
    var n := 0;
    var k := 0;
    assert groups[..0] == [];
    while k < |groups|
      invariant 0 <= k <= |groups|
      invariant missing == [] && unformatted == [] <==> AllKnown(groups[..k], names)
      invariant Run(Some(START), lines) == Some(Built(groups, names, marks, k))
      invariant n == |Built(groups, names, marks, k).items|
    {
      ghost var v := Built(groups, names, marks, k);
      var part, absent, bare;
      part, n, absent, bare := EmitNext(groups, names, marks, k, n);
      KnownNext(groups, names, k);
      missing, unformatted := missing + absent, unformatted + bare;
      RunOn(lines, v, part, Built(groups, names, marks, k + 1));
      lines := lines + part;
      k := k + 1;
    }
    assert groups[..k] == groups;
  }

  /** Emits group k, for the viewer the groups before it have built. */
  method EmitNext(groups: seq<SigGroup>, names: map<string, Signal>, marks: seq<Mark>, k: nat, n: nat)
    returns (part: seq<Command>, n': nat, absent: seq<string>, bare: seq<string>)
    requires k < |groups| && n == |Built(groups, names, marks, k).items|
    ensures absent == [] && bare == [] <==> PathsKnown(groups[k].paths, names)
    ensures Run(Some(Built(groups, names, marks, k)), part) == Some(Built(groups, names, marks, k + 1))
    ensures n' == |Built(groups, names, marks, k + 1).items|
  {
    var rows;
    rows, absent, bare := ReadRows(groups[k].paths, names);
    BuiltNext(groups, names, marks, k);
    part, n' := EmitPiece(k, n, groups[k], rows, marks, Built(groups, names, marks, k));
  }

  lemma BuiltNext(groups: seq<SigGroup>, names: map<string, Signal>, marks: seq<Mark>, k: nat)
    requires k < |groups|
    ensures Built(groups, names, marks, k + 1) ==
      WithPart(Built(groups, names, marks, k), k, groups[k].name, RowsOf(groups[k].paths, names), marks)
  {
    DisplayNext(groups, names, marks, k);
    PartOfDisplay(groups[k], names, marks, k);
  }

  lemma PartOfDisplay(g: SigGroup, names: map<string, Signal>, marks: seq<Mark>, k: nat)
    ensures Part(k, g.name, RowsOf(g.paths, names), marks) ==
      if k == 0 then FirstPiece(g, names, marks) else Piece(g, names)
  {
    var rows := RowsOf(g.paths, names);
    assert GroupItems(g.name, rows) + [] == GroupItems(g.name, rows);
  }

  /** The opening view: around the first marker, or the whole run. */
  function OpeningView(marks: seq<Mark>, period: nat): View {
    if marks == [] then Whole
    else
      var t0 := marks[0].time;
      Between(if t0 <= VIEW_BEFORE * period then 0 else t0 - VIEW_BEFORE * period, t0 + VIEW_AFTER * period)
  }

  /** A scenario: its signal groups, the signals of its waveform, its markers, and its
      clock period. */
  datatype Scenario = Scenario(groups: seq<SigGroup>, names: map<string, Signal>, marks: seq<Mark>, period: nat)

  /** Every listed signal of the scenario has a name and a format. */
  predicate Writable(s: Scenario) {
    AllKnown(s.groups, s.names)
  }

  /** Run in the viewer, the file uses stated behaviour only, shows exactly the wanted
      display and opens around the first marker. */
  ghost predicate Shows(file: seq<Command>, s: Scenario) {
    var v := Run(Some(START), file);
    && v.Some?
    && v.value.items == Display(s.groups, s.names, s.marks)
    && v.value.view == OpeningView(s.marks, s.period)
    && (s.marks != [] ==> v.value.view.Between? && v.value.view.left <= s.marks[0].time <= v.value.view.right)
  }

  predicate AllWritable(scenarios: seq<Scenario>) {
    forall k :: 0 <= k < |scenarios| ==> Writable(scenarios[k])
  }

  ghost predicate AllShown(files: seq<seq<Command>>, scenarios: seq<Scenario>) {
    |files| == |scenarios| && forall k :: 0 <= k < |files| ==> Shows(files[k], scenarios[k])
  }

  lemma ShownNext(files: seq<seq<Command>>, scenarios: seq<Scenario>, k: nat, file: seq<Command>)
    requires k < |scenarios| && AllShown(files, scenarios[..k]) && Shows(file, scenarios[k])
    ensures AllShown(files + [file], scenarios[..k + 1])
  {
    forall j | 0 <= j <= k
      ensures Shows((files + [file])[j], scenarios[..k + 1][j])
    {
      if j < k {
        assert Shows(files[j], scenarios[..k][j]);
      }
    }
  }

  lemma WritableNext(scenarios: seq<Scenario>, k: nat)
    requires k < |scenarios|
    ensures AllWritable(scenarios[..k + 1]) <==> AllWritable(scenarios[..k]) && Writable(scenarios[k])
  {
    var after := scenarios[..k + 1];
    assert after[k] == scenarios[k] && forall j :: 0 <= j < k ==> after[j] == scenarios[..k][j];
  }

  /** The first k scenarios are compiled: all is fine when they are writable, and then
      each shows its display. */
  ghost predicate CompiledTo(scenarios: seq<Scenario>, k: nat, fine: bool, out: seq<seq<Command>>) {
    && k <= |scenarios|
    && (fine <==> AllWritable(scenarios[..k]))
    && (fine ==> AllShown(out, scenarios[..k]))
  }

  lemma CompiledNext(scenarios: seq<Scenario>, k: nat, fine: bool, out: seq<seq<Command>>, ok: bool,
                     file: seq<Command>)
    requires k < |scenarios| && CompiledTo(scenarios, k, fine, out)
    requires (ok <==> Writable(scenarios[k])) && Shows(file, scenarios[k])
    ensures CompiledTo(scenarios, k + 1, fine && ok, if fine && ok then out + [file] else out)
  {
    WritableNext(scenarios, k);
    if fine {
      ShownNext(out, scenarios, k, file);
    }
  }

  lemma CompiledAll(scenarios: seq<Scenario>, fine: bool, out: seq<seq<Command>>)
    requires CompiledTo(scenarios, |scenarios|, fine, out)
    ensures (fine <==> AllWritable(scenarios)) && (fine ==> AllShown(out, scenarios))
  {
    assert scenarios[..|scenarios|] == scenarios;
  }

  /** Writes the command files of all the scenarios, or, when a listed signal of any of
      them has no name or no format, none. */
  method Compile(scenarios: seq<Scenario>) returns (files: Option<seq<seq<Command>>>)
    ensures files.Some? <==> AllWritable(scenarios)
    ensures files.Some? ==> AllShown(files.value, scenarios)
  {
    var out, missing, unformatted := [], [], [];
    var k := 0;
    while k < |scenarios|
      invariant 0 <= k <= |scenarios|
      invariant CompiledTo(scenarios, k, missing == [] && unformatted == [], out)
    {
      var s := scenarios[k];
      var file, absent, bare := EmitScenario(s);
      CompiledNext(scenarios, k, missing == [] && unformatted == [], out, absent == [] && bare == [], file);
      missing, unformatted := missing + absent, unformatted + bare;
      k := k + 1;
      if missing != [] || unformatted != [] {
        continue;
      }
      out := out + [file];
    }
    CompiledAll(scenarios, missing == [] && unformatted == [], out);
    files := if missing != [] || unformatted != [] then None else Some(out);
  }

  /** The file of one scenario; it shows the scenario's known signals. */
  method EmitScenario(s: Scenario) returns (file: seq<Command>, missing: seq<string>, unformatted: seq<string>)
    ensures missing == [] && unformatted == [] <==> Writable(s)
    ensures Shows(file, s)
  {
    var lines;
    lines, missing, unformatted := EmitDisplay(s.groups, s.names, s.marks);
    var zoom := ZoomOf(OpeningView(s.marks, s.period));
    RunNext(START, lines, Built(s.groups, s.names, s.marks, |s.groups|), zoom);
    assert s.groups[..|s.groups|] == s.groups;
    file := lines + [zoom];
  }

  function ZoomOf(view: View): (c: Command)
    ensures forall v :: Step(v, c) == Some(v.(view := view))
  {
    match view
    case Whole => ZoomFit
    case Between(left, right) => ZoomTo(left, right)
  }

  method ReadRows(paths: seq<string>, names: map<string, Signal>)
    returns (rows: seq<Row>, missing: seq<string>, unformatted: seq<string>)
    ensures rows == RowsOf(paths, names)
    ensures missing == [] && unformatted == [] <==> PathsKnown(paths, names)
  {
    rows, missing, unformatted := [], [], [];
    var i := 0;
    while i < |paths|
      invariant 0 <= i <= |paths|
      invariant rows == RowsOf(paths[..i], names)
      invariant missing == [] && unformatted == [] <==> PathsKnown(paths[..i], names)
    {
      var p := paths[i];
      RowsNext(paths, names, i);
      if p !in names {
        missing := missing + [p];
      } else if names[p].format.None? {
        unformatted := unformatted + [p];
      } else {
        rows := rows + [Row(names[p].shown, names[p].format.value)];
      }
      i := i + 1;
    }
    assert paths[..i] == paths;
  }

  lemma RowsNext(paths: seq<string>, names: map<string, Signal>, i: nat)
    requires i < |paths|
    ensures PathsKnown(paths[..i + 1], names) <==> PathsKnown(paths[..i], names) && Known(paths[i], names)
    ensures RowsOf(paths[..i + 1], names) == RowsOf(paths[..i], names) +
      if Known(paths[i], names) then [Row(names[paths[i]].shown, names[paths[i]].format.value)] else []
  {
    var next := paths[..i + 1];
    assert next[..i] == paths[..i] && next[i] == paths[i];
    assert forall k :: 0 <= k < i ==> next[k] == paths[..i][k];
  }

  lemma KnownNext(groups: seq<SigGroup>, names: map<string, Signal>, k: nat)
    requires k < |groups|
    ensures AllKnown(groups[..k + 1], names) <==>
      AllKnown(groups[..k], names) && PathsKnown(groups[k].paths, names)
  {
    var after := groups[..k + 1];
    assert after[k] == groups[k];
    assert forall j :: 0 <= j < k ==> after[j] == groups[..k][j];
  }
}
