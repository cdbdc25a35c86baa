/** Surfer's item list as the header of examples/fe_demo/waves/mk_sucl.py states it:
    a machine driven by commands through its focus.  A command whose effect the
    header does not state leaves no viewer (None), so a run that ends in a viewer
    used stated behaviour only. */
module SurferViewer {
  import opened Text

  datatype Command =
    | ForceNameType(nameType: string)
    | VariableAdd(name: string)
    | MarkerSet(name: string, time: nat)
    | ItemFocus(index: string)
    | ItemUnfocus
    | GroupMarked(name: string)
    | ItemSetFormat(format: string)
    | ZoomTo(left: nat, right: nat)
    | ZoomFit

  datatype Item =
    | Group(level: nat, name: string)
    | Variable(level: nat, name: string, format: Option<string>, nameType: Option<string>)
    | Marker(level: nat, name: string, time: nat, number: nat)

  /** Which visible item has the focus; Unstated after group_marked. */
  datatype Focus = Nothing | At(row: nat) | Unstated

  datatype View = Whole | Between(left: nat, right: nat)

  datatype Viewer = Viewer(items: seq<Item>, focus: Focus, markers: nat, nameType: Option<string>, view: View)

  const START := Viewer([], Nothing, 0, None, Whole)

  /** An item index as the command file writes it: the hex digits of i as the
      letters a to p. */
  function Alpha(i: nat): (s: string)
    ensures |s| == |Digits(i, 16)|
  {
    var ds := Digits(i, 16);
    seq(|ds|, k requires 0 <= k < |ds| => Letter(ds[k]))
  }

  function Letter(d: nat): char
    requires d < 16
  {
    "abcdefghijklmnop"[d]
  }

  /** The index Surfer reads back from the letters. */
  function ReadAlpha(s: string): Option<nat> {
    if s != [] && forall k :: 0 <= k < |s| ==> 'a' <= s[k] <= 'p'
    then Some(Value(seq(|s|, k requires 0 <= k < |s| && 'a' <= s[k] <= 'p' => (s[k] - 'a') as nat), 16))
    else None
  }

  lemma LetterValue(d: nat)
    requires d < 16
    ensures 'a' <= Letter(d) <= 'p' && (Letter(d) - 'a') as nat == d
  {
  }

  /** Surfer reads every index as it was meant. */
  lemma AlphaReadsBack(i: nat)
    ensures ReadAlpha(Alpha(i)) == Some(i)
  {
    var s, ds := Alpha(i), Digits(i, 16);
    forall k | 0 <= k < |s|
      ensures 'a' <= s[k] <= 'p' && (s[k] - 'a') as nat == ds[k]
    {
      LetterValue(ds[k]);
    }
    assert seq(|s|, k requires 0 <= k < |s| && 'a' <= s[k] <= 'p' => (s[k] - 'a') as nat) == ds;
    ValueOfDigits(i, 16);
  }

  function WithLevel(it: Item, level: nat): Item {
    match it
    case Group(_, name) => Group(level, name)
    case Variable(_, name, format, nameType) => Variable(level, name, format, nameType)
    case Marker(_, name, time, number) => Marker(level, name, time, number)
  }

  /** Where variable_add and marker_set place an item: at the end, top level and
      unfocused, with no focus; else after the focused item at its level, focused. */
  function Place(v: Viewer, it: Item): Option<Viewer> {
    match v.focus
    case Nothing => Some(v.(items := v.items + [WithLevel(it, 0)]))
    case At(i) =>
      if i < |v.items| && !v.items[i].Group?
      then Some(v.(items := v.items[..i + 1] + [WithLevel(it, v.items[i].level)] + v.items[i + 1..],
                   focus := At(i + 1)))
      else None
    case Unstated => None
  }

  function Step(v: Viewer, c: Command): Option<Viewer> {
    match c
    case ForceNameType(t) => Some(v.(nameType := Some(t)))
    case VariableAdd(name) => Place(v, Variable(0, name, None, v.nameType))
    case MarkerSet(name, time) => Place(v.(markers := v.markers + 1), Marker(0, name, time, v.markers))
    case ItemFocus(index) =>
      (match ReadAlpha(index)
       case Some(i) => if i < |v.items| then Some(v.(focus := At(i))) else None
       case None => None)
    case ItemUnfocus => Some(v.(focus := Nothing))
    case GroupMarked(name) =>
      if v.focus.At? && v.focus.row < |v.items| && !v.items[v.focus.row].Group? then
        var i := v.focus.row;
        var it := v.items[i];
        Some(v.(items := v.items[..i] + [Group(it.level, name), WithLevel(it, it.level + 1)] + v.items[i + 1..],
                focus := Unstated))
      else None
    case ItemSetFormat(format) =>
      if v.focus.At? && v.focus.row < |v.items| && v.items[v.focus.row].Variable?
      then Some(v.(items := v.items[v.focus.row := v.items[v.focus.row].(format := Some(format))]))
      else None
    case ZoomTo(l, r) => Some(v.(view := Between(l, r)))
    case ZoomFit => Some(v.(view := Whole))
  }

  function Run(v: Option<Viewer>, commands: seq<Command>): Option<Viewer>
    decreases |commands|
  {
    if commands == [] || v.None? then v else Run(Step(v.value, commands[0]), commands[1..])
  }

  lemma {:induction false} RunConcat(v: Option<Viewer>, a: seq<Command>, b: seq<Command>)
    ensures Run(v, a + b) == Run(Run(v, a), b)
    decreases |a|
  {
    if a == [] {
      assert a + b == b;
    } else if v.Some? {
      assert (a + b)[1..] == a[1..] + b;
      RunConcat(Step(v.value, a[0]), a[1..], b);
    }
  }

  /** One more command, after commands that built the viewer w. */
  lemma RunNext(v: Viewer, lines: seq<Command>, w: Viewer, c: Command)
    requires Run(Some(v), lines) == Some(w)
    ensures Run(Some(v), lines + [c]) == Step(w, c)
  {
    RunConcat(Some(v), lines, [c]);
    assert Run(Some(w), [c]) == Run(Step(w, c), []);
  }

  // ---------------------------------------------------------------------
  // What the commands do at the end of the list
  // ---------------------------------------------------------------------

  lemma FocusOn(v: Viewer, i: nat)
    requires i < |v.items|
    ensures Step(v, ItemFocus(Alpha(i))) == Some(v.(focus := At(i)))
  {
    AlphaReadsBack(i);
  }

  lemma PlaceAfterLast(v: Viewer, base: seq<Item>, last: Item, it: Item)
    requires v.items == base + [last] && v.focus == At(|base|) && !last.Group?
    ensures Place(v, it) == Some(v.(items := base + [last] + [WithLevel(it, last.level)], focus := At(|base| + 1)))
  {
    assert v.items[..|base| + 1] == v.items && v.items[|base| + 1..] == [];
    assert v.items[|base|] == last;
    assert v.items + [WithLevel(it, last.level)] + [] == base + [last] + [WithLevel(it, last.level)];
  }

  lemma GroupLast(v: Viewer, base: seq<Item>, last: Item, name: string)
    requires v.items == base + [last] && v.focus == At(|base|) && !last.Group?
    ensures Step(v, GroupMarked(name)) ==
      Some(v.(items := base + [Group(last.level, name)] + [WithLevel(last, last.level + 1)], focus := Unstated))
  {
    assert v.items[..|base|] == base && v.items[|base| + 1..] == [] && v.items[|base|] == last;
    assert base + [Group(last.level, name), WithLevel(last, last.level + 1)] + [] ==
           base + [Group(last.level, name)] + [WithLevel(last, last.level + 1)];
  }

  lemma FormatLast(v: Viewer, base: seq<Item>, last: Item, format: string)
    requires v.items == base + [last] && v.focus == At(|base|) && last.Variable?
    ensures Step(v, ItemSetFormat(format)) == Some(v.(items := base + [last.(format := Some(format))]))
  {
    assert v.items[|base|] == last;
    assert v.items[|base| := last.(format := Some(format))] == base + [last.(format := Some(format))];
  }

  // ---------------------------------------------------------------------
  // What every command file keeps
  // ---------------------------------------------------------------------

  predicate FocusInList(v: Viewer) {
    v.focus.At? ==> v.focus.row < |v.items|
  }

  /** Whatever the commands, a focused item is always one of the list. */
  lemma {:induction false} FocusStaysInList(v: Viewer, commands: seq<Command>)
    requires FocusInList(v)
    ensures Run(Some(v), commands).Some? ==> FocusInList(Run(Some(v), commands).value)
    decreases |commands|
  {
    if commands != [] {
      var w := Step(v, commands[0]);
      if w.Some? {
        FocusStaysInList(w.value, commands[1..]);
      }
    }
  }

  function Names(items: seq<Item>): (names: seq<string>)
    ensures |names| == |items|
  {
    seq(|items|, k requires 0 <= k < |items| => items[k].name)
  }

  /** The name of the row a command adds, if it adds one. */
  function Added(c: Command): seq<string> {
    match c
    case VariableAdd(name) => [name]
    case MarkerSet(name, _) => [name]
    case GroupMarked(name) => [name]
    case _ => []
  }

  /** The names are those before with the added one put in somewhere. */
  ghost predicate PutIn(before: seq<string>, added: seq<string>, after: seq<string>) {
    exists p :: 0 <= p <= |before| && after == before[..p] + added + before[p..]
  }

  lemma NamesAround(items: seq<Item>, p: nat, added: seq<Item>, rest: seq<Item>)
    requires p <= |items| && Names(rest) == Names(items[p..])
    ensures PutIn(Names(items), Names(added), Names(items[..p] + added + rest))
  {
    var before := Names(items);
    var after := Names(items[..p] + added + rest);
    assert before[..p] == Names(items[..p]) && before[p..] == Names(rest);
    assert after == before[..p] + Names(added) + before[p..];
  }

  lemma PlacedIn(v: Viewer, it: Item)
    requires Place(v, it).Some?
    ensures PutIn(Names(v.items), [it.name], Names(Place(v, it).value.items))
  {
    var p := if v.focus.At? then v.focus.row + 1 else |v.items|;
    var one := [WithLevel(it, if v.focus.At? then v.items[v.focus.row].level else 0)];
    NamesAround(v.items, p, one, v.items[p..]);
    assert Names(one) == [it.name];
    assert v.items[..|v.items|] + one + [] == v.items + one;
  }

  lemma GroupedIn(v: Viewer, name: string)
    requires Step(v, GroupMarked(name)).Some?
    ensures PutIn(Names(v.items), [name], Names(Step(v, GroupMarked(name)).value.items))
  {
    var i := v.focus.row;
    var it := v.items[i];
    var one, rest := [Group(it.level, name)], [WithLevel(it, it.level + 1)] + v.items[i + 1..];
    assert Names(rest) == Names(v.items[i..]);
    NamesAround(v.items, i, one, rest);
    assert Names(one) == [name];
    assert v.items[..i] + one + rest == v.items[..i] + [one[0], rest[0]] + v.items[i + 1..];
  }

  lemma SameNames(before: seq<Item>, after: seq<Item>)
    requires |before| == |after| && forall k :: 0 <= k < |before| ==> before[k].name == after[k].name
    ensures PutIn(Names(before), [], Names(after))
  {
    assert Names(after) == Names(before)[..0] + [] + Names(before)[0..];
  }

  /** No command drops a row, renames one or changes their order. */
  lemma RowsKept(v: Viewer, c: Command)
    requires Step(v, c).Some?
    ensures PutIn(Names(v.items), Added(c), Names(Step(v, c).value.items))
  {
    match c {
      case VariableAdd(name) =>
        PlacedIn(v, Variable(0, name, None, v.nameType));
      case MarkerSet(name, time) =>
        PlacedIn(v.(markers := v.markers + 1), Marker(0, name, time, v.markers));
      case GroupMarked(name) =>
        GroupedIn(v, name);
      case _ =>
        SameNames(v.items, Step(v, c).value.items);
    }
  }
}
