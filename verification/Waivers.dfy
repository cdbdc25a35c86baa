/** The warning waivers of tools/gen_sessions.py: which waiver a warning meets, where
    each raised warning goes over a whole run, and why a stale waiver can be deleted. */
module Waivers {
  import opened Text

  const ANY := "*"

  /** The forms a WAIVERS value takes. */
  datatype Value =
    | Code(code: string)
    | Codes(codes: seq<string>)
    | Reasons(reasons: map<string, Option<string>>)
    | Malformed

  /** WAIVERS as written: its keys in order, each with its value. */
  type Table = seq<(string, Value)>

  type Codebook = map<string, string>

  // ---------------------------------------------------------------------
  // Normal forms
  // ---------------------------------------------------------------------

  /** A WAIVERS key as a bare file stem. */
  function NormKey(key: string): string {
    var s := Strip(key);
    if |s| >= 3 && s[|s| - 3] == '.' && s[|s| - 2] in ['m', 'M'] && s[|s| - 1] in ['d', 'D'] then s[..|s| - 3] else s
  }

  const EXTENSIONS := [".md", ".MD", ".Md", ".mD"]

  /** A file's name with its extension, or the bare stem when that has none. */
  predicate IsNameOf(name: string, stem: string) {
    || (exists k :: 0 <= k < |EXTENSIONS| && name == stem + EXTENSIONS[k])
    || (name == stem && forall k :: 0 <= k < |EXTENSIONS| ==> !EndsWith(name, EXTENSIONS[k]))
  }

  predicate EndsWith(s: string, tail: string) {
    |s| >= |tail| && s[|s| - |tail|..] == tail
  }

  lemma ExtensionDropped(name: string)
    ensures !(exists k :: 0 <= k < |EXTENSIONS| && EndsWith(name, EXTENSIONS[k])) ==>
      !(|name| >= 3 && name[|name| - 3] == '.' && name[|name| - 2] in ['m', 'M'] && name[|name| - 1] in ['d', 'D'])
  {
    if |name| >= 3 && name[|name| - 3] == '.' && name[|name| - 2] in ['m', 'M'] && name[|name| - 1] in ['d', 'D'] {
      var e := name[|name| - 3..];
      assert e == [name[|name| - 3], name[|name| - 2], name[|name| - 1]];
      var k := if e == ".md" then 0 else if e == ".MD" then 1 else if e == ".Md" then 2 else 3;
      assert EndsWith(name, EXTENSIONS[k]);
    }
  }

  /** A file is meant by its stem and by its name, with white space around it or not. */
  lemma KeyNamesFile(before: string, name: string, after: string, stem: string)
    requires AllSpace(before) && AllSpace(after) && IsStripped(name) && IsNameOf(name, stem)
    ensures NormKey(before + name + after) == stem
  {
    StripExactly(before, name, after);
    if k: nat :| k < |EXTENSIONS| && name == stem + EXTENSIONS[k] {
      assert name[..|name| - 3] == stem;
    } else {
      ExtensionDropped(name);
    }
  }

  /** A value as code -> reason, None when it is malformed. */
  function Normalise(v: Value): Option<Codebook> {
    match v
    case Code(c) => Some(map[c := ""])
    case Codes(cs) => Some(map c | c in cs :: "")
    case Reasons(m) => Some(map c | c in m :: if m[c].Some? then m[c].value else "")
    case Malformed => None
  }

  /** The table by file stem; of two keys for one file the last counts. */
  function Normal(table: Table): map<string, Option<Codebook>> {
    if table == [] then map[]
    else
      var last := table[|table| - 1];
      Normal(table[..|table| - 1])[NormKey(last.0) := Normalise(last.1)]
  }

  /** What the table says of a file, nothing when it is absent or malformed. */
  function Book(table: Table, file: string): Codebook {
    if file in Normal(table) && Normal(table)[file].Some? then Normal(table)[file].value else map[]
  }

  /** The value declares the code, for the reason. */
  predicate Declares(v: Value, code: string, reason: string) {
    match v
    case Code(c) => code == c && reason == ""
    case Codes(cs) => (exists k :: 0 <= k < |cs| && cs[k] == code) && reason == ""
    case Reasons(m) => code in m && (m[code] == Some(reason) || (m[code].None? && reason == ""))
    case Malformed => false
  }

  /** Row i is the last of the table for the file. */
  predicate LastFor(table: Table, file: string, i: nat) {
    && i < |table| && NormKey(table[i].0) == file
    && forall j :: i < j < |table| ==> NormKey(table[j].0) != file
  }

  /** What the table says of a file is what its last row for the file declares. */
  lemma {:induction false} BookIsLastRow(table: Table, file: string, code: string, reason: string)
    ensures code in Book(table, file) && Book(table, file)[code] == reason <==>
      exists i: nat :: LastFor(table, file, i) && Declares(table[i].1, code, reason)
    decreases |table|
  {
    if table != [] {
      var n := |table| - 1;
      if NormKey(table[n].0) == file {
        ValueDeclares(table[n].1, code, reason);
        LastRowIsLast(table, file);
      } else {
        BookIsLastRow(table[..n], file, code, reason);
        LastRowElsewhere(table, file);
        assert forall i: nat :: i < n ==> table[..n][i] == table[i];
      }
    }
  }

  lemma LastRowIsLast(table: Table, file: string)
    requires table != [] && NormKey(table[|table| - 1].0) == file
    ensures forall i: nat :: LastFor(table, file, i) <==> i == |table| - 1
  {
  }

  lemma LastRowElsewhere(table: Table, file: string)
    requires table != [] && NormKey(table[|table| - 1].0) != file
    ensures Book(table, file) == Book(table[..|table| - 1], file)
    ensures forall i: nat :: LastFor(table, file, i) <==> LastFor(table[..|table| - 1], file, i)
  {
    var front := table[..|table| - 1];
    forall i: nat
      ensures LastFor(table, file, i) <==> LastFor(front, file, i)
    {
      assert forall j: nat :: j < |front| ==> front[j] == table[j];
    }
  }

  lemma ValueDeclares(v: Value, code: string, reason: string)
    ensures Declares(v, code, reason) <==>
      Normalise(v).Some? && code in Normalise(v).value && Normalise(v).value[code] == reason
  {
  }

  // ---------------------------------------------------------------------
  // The waiver a warning meets
  // ---------------------------------------------------------------------

  /** A waiver: a file key and a code key. */
  type Pair = (string, string)

  /** Of one file key: the exact code before the any-code. */
  function HitUnder(table: Table, fkey: string, code: string): Option<Pair> {
    if code in Book(table, fkey) then Some((fkey, code))
    else if ANY in Book(table, fkey) then Some((fkey, ANY))
    else None
  }

  /** The waiver that suppresses a warning: the exact file before the any-file, and
      under each the exact code before the any-code. */
  function Hit(table: Table, file: string, code: string): Option<Pair> {
    if HitUnder(table, file, code).Some? then HitUnder(table, file, code) else HitUnder(table, ANY, code)
  }

  lemma HitIsDeclared(table: Table, file: string, code: string)
    ensures var h := Hit(table, file, code);
            h.Some? ==> h.value.1 in Book(table, h.value.0)
  {
  }

  /** A waiver that could suppress a warning of a file. */
  predicate Covers(p: Pair, file: string, code: string) {
    p.0 in {file, "*"} && p.1 in {code, "*"}
  }

  /** How far a waiver is from naming the warning exactly, the file counting more. */
  function Looseness(p: Pair, file: string, code: string): nat {
    (if p.0 == file then 0 else 2) + (if p.1 == code then 0 else 1)
  }

  /** The waiver met is the closest of the declared ones that cover the warning, and
      there is one exactly when any does. */
  lemma HitIsClosest(table: Table, file: string, code: string)
    ensures var h := Hit(table, file, code);
      && (h.Some? ==> h.value.1 in Book(table, h.value.0) && Covers(h.value, file, code))
      && forall p: Pair :: p.1 in Book(table, p.0) && Covers(p, file, code) ==>
           h.Some? && (p == h.value || Looseness(h.value, file, code) < Looseness(p, file, code))
  {
    forall p: Pair | p.1 in Book(table, p.0) && Covers(p, file, code)
      ensures Hit(table, file, code).Some?
      ensures p == Hit(table, file, code).value ||
        Looseness(Hit(table, file, code).value, file, code) < Looseness(p, file, code)
    {
      assert HitUnder(table, p.0, code).Some?;
    }
  }

  function Reason(table: Table, file: string, code: string): Option<string> {
    match Hit(table, file, code)
    case Some(p) => (HitIsDeclared(table, file, code); Some(Book(table, p.0)[p.1]))
    case None => None
  }

  /** The declared waivers that suppressed nothing. */
  ghost predicate IsStale(table: Table, used: set<Pair>, p: Pair) {
    p.1 in Book(table, p.0) && p !in used
  }

  // ---------------------------------------------------------------------
  // A whole run
  // ---------------------------------------------------------------------

  datatype Warning = Warning(file: string, code: string, msg: string)

  datatype Waived = Waived(warning: Warning, reason: string)

  /** Where a run's warnings went, and the waivers they met. */
  datatype Log = Log(warnings: seq<Warning>, waived: seq<Waived>, used: set<Pair>)

  function WarnOne(log: Log, table: Table, w: Warning): Log {
    match Hit(table, w.file, w.code)
    case Some(p) =>
      (HitIsDeclared(table, w.file, w.code);
       log.(waived := log.waived + [Waived(w, Book(table, p.0)[p.1])], used := log.used + {p}))
    case None => log.(warnings := log.warnings + [w])
  }

  /** The log of a run with the table in force, or with waivers disabled. */
  function RunLog(table: Table, disabled: bool, raised: seq<Warning>): Log {
    if raised == [] then Log([], [], {})
    else
      var log := RunLog(table, disabled, raised[..|raised| - 1]);
      var w := raised[|raised| - 1];
      if disabled then log.(warnings := log.warnings + [w]) else WarnOne(log, table, w)
  }

  class Session {
    const table: Table
    const disabled: bool
    var used: set<Pair>
    var warnings: seq<Warning>
    var waived: seq<Waived>
    ghost var raised: seq<Warning>

    ghost predicate Valid()
      reads this
    {
      Log(warnings, waived, used) == RunLog(table, disabled, raised)
    }

    constructor (table: Table, disabled: bool)
      ensures Valid() && raised == [] && this.table == table && this.disabled == disabled
    {
      this.table, this.disabled := table, disabled;
      used, warnings, waived, raised := {}, [], [], [];
    }

    /** waiver_reason: the reason of the waiver a warning meets, recording the hit. */
    method WaiverReason(file: string, code: string) returns (reason: Option<string>)
      modifies this`used
      ensures disabled ==> reason == None && used == old(used)
      ensures !disabled ==> reason == Reason(table, file, code)
      ensures !disabled ==> used == old(used) + (match Hit(table, file, code) case Some(p) => {p} case None => {})
    {
      if disabled {
        return None;
      }
      var fkeys, ckeys := [file, ANY], [code, ANY];
      var i := 0;
      while i < 2
        invariant 0 <= i <= 2 && used == old(used)
        invariant forall a :: 0 <= a < i ==> HitUnder(table, fkeys[a], code).None?
      {
        var entry := Book(table, fkeys[i]);
        var k := 0;
        while k < 2
          invariant 0 <= k <= 2 && used == old(used)
          invariant forall c :: 0 <= c < k ==> ckeys[c] !in entry
        {
          if ckeys[k] in entry {
            assert k == 1 ==> ckeys[0] !in entry;
            assert i == 1 ==> HitUnder(table, fkeys[0], code).None?;
            assert HitUnder(table, fkeys[i], code) == Some((fkeys[i], ckeys[k]));
            used := used + {(fkeys[i], ckeys[k])};
            return Some(entry[ckeys[k]]);
          }
          k := k + 1;
        }
        assert ckeys[0] !in entry && ckeys[1] !in entry;
        i := i + 1;
      }
      assert HitUnder(table, fkeys[0], code).None? && HitUnder(table, fkeys[1], code).None?;
      return None;
    }

    /** warn: files a warning, or its waiver. */
    method Warn(file: string, code: string, msg: string)
      requires Valid()
      modifies this
      ensures Valid() && raised == old(raised) + [Warning(file, code, msg)]
    {
      var w := Warning(file, code, msg);
      var reason := WaiverReason(file, code);
      if reason.Some? {
        waived := waived + [Waived(w, reason.value)];
      } else {
        warnings := warnings + [w];
      }
      raised := raised + [w];
      assert raised[..|raised| - 1] == old(raised);
    }
  }

  // ---------------------------------------------------------------------
  // Every warning goes to exactly one list
  // ---------------------------------------------------------------------

  function WaivedOnly(table: Table, raised: seq<Warning>): seq<Waived> {
    if raised == [] then []
    else
      var w, rest := raised[|raised| - 1], WaivedOnly(table, raised[..|raised| - 1]);
      match Reason(table, w.file, w.code)
      case Some(r) => rest + [Waived(w, r)]
      case None => rest
  }

  function UnwaivedOnly(table: Table, raised: seq<Warning>): seq<Warning> {
    if raised == [] then []
    else
      var w, rest := raised[|raised| - 1], UnwaivedOnly(table, raised[..|raised| - 1]);
      if Reason(table, w.file, w.code).Some? then rest else rest + [w]
  }

  function Unwrapped(waived: seq<Waived>): seq<Warning> {
    seq(|waived|, k requires 0 <= k < |waived| => waived[k].warning)
  }

  /** Over any run the raised warnings, in order, split into those
      reported and those waived with their reasons; with waivers disabled all are
      reported. */
  lemma {:induction false} WarningsSplit(table: Table, raised: seq<Warning>)
    ensures RunLog(table, false, raised).warnings == UnwaivedOnly(table, raised)
    ensures RunLog(table, false, raised).waived == WaivedOnly(table, raised)
    ensures RunLog(table, true, raised) == Log(raised, [], {})
    decreases |raised|
  {
    if raised != [] {
      WarningsSplit(table, raised[..|raised| - 1]);
      assert raised == raised[..|raised| - 1] + [raised[|raised| - 1]];
    }
  }

  /** Main result: no warning of a run is lost or doubled. */
  lemma {:induction false} WarningsAccountedFor(table: Table, raised: seq<Warning>)
    ensures var log := RunLog(table, false, raised);
      multiset(raised) == Accounted(log)
    decreases |raised|
  {
    if raised != [] {
      var front, w := raised[..|raised| - 1], raised[|raised| - 1];
      WarningsAccountedFor(table, front);
      OneAccountedFor(RunLog(table, false, front), table, w);
      RunLogSnoc(table, front, w);
      FrontAndLast(raised);
    }
  }

  lemma FrontAndLast<T>(s: seq<T>)
    requires s != []
    ensures s == s[..|s| - 1] + [s[|s| - 1]]
  {
  }

  lemma RunLogSnoc(table: Table, front: seq<Warning>, w: Warning)
    ensures RunLog(table, false, front + [w]) == WarnOne(RunLog(table, false, front), table, w)
    ensures multiset(front + [w]) == multiset(front) + multiset{w}
  {
    assert (front + [w])[..|front|] == front;
  }

  function Accounted(log: Log): multiset<Warning> {
    multiset(log.warnings) + multiset(Unwrapped(log.waived))
  }

  lemma OneAccountedFor(log: Log, table: Table, w: Warning)
    ensures Accounted(WarnOne(log, table, w)) == Accounted(log) + multiset{w}
  {
    match Hit(table, w.file, w.code)
    case Some(p) =>
      HitIsDeclared(table, w.file, w.code);
      UnwrappedSnoc(log.waived, Waived(w, Book(table, p.0)[p.1]));
    case None =>
  }

  lemma UnwrappedSnoc(waived: seq<Waived>, one: Waived)
    ensures Unwrapped(waived + [one]) == Unwrapped(waived) + [one.warning]
  {
  }

  // ---------------------------------------------------------------------
  // Deleting stale waivers
  // ---------------------------------------------------------------------

  function Keep(codes: seq<string>, dead: set<string>): (kept: seq<string>)
    ensures forall c :: c in kept <==> c in codes && c !in dead
  {
    if codes == [] then []
    else if codes[0] in dead then Keep(codes[1..], dead) else [codes[0]] + Keep(codes[1..], dead)
  }

  /** A value without the dead codes, in its own form. */
  function PruneValue(v: Value, dead: set<string>): Value {
    match v
    case Code(c) => if c in dead then Codes([]) else v
    case Codes(cs) => Codes(Keep(cs, dead))
    case Reasons(m) => Reasons(m - dead)
    case Malformed => Malformed
  }

  function DeadCodes(stale: set<Pair>, fkey: string): set<string> {
    set p | p in stale && p.0 == fkey :: p.1
  }

  /** The table with some pairs deleted from the values that declare them. */
  function Prune(table: Table, stale: set<Pair>): (pruned: Table)
    ensures |pruned| == |table|
  {
    if table == [] then []
    else
      var last := table[|table| - 1];
      Prune(table[..|table| - 1], stale) + [(last.0, PruneValue(last.1, DeadCodes(stale, NormKey(last.0))))]
  }

  function Without(book: Option<Codebook>, dead: set<string>): Option<Codebook> {
    match book
    case Some(m) => Some(m - dead)
    case None => None
  }

  lemma PrunedValue(v: Value, dead: set<string>)
    ensures Normalise(PruneValue(v, dead)) == Without(Normalise(v), dead)
  {
    if !v.Malformed? {
      var before, after := Normalise(v).value - dead, Normalise(PruneValue(v, dead)).value;
      assert after.Keys == before.Keys;
      assert after == before;
    }
  }

  lemma {:induction false} PrunedNormal(table: Table, stale: set<Pair>, file: string)
    ensures file in Normal(Prune(table, stale)) <==> file in Normal(table)
    ensures file in Normal(table) ==>
      Normal(Prune(table, stale))[file] == Without(Normal(table)[file], DeadCodes(stale, file))
    decreases |table|
  {
    if table != [] {
      var last := table[|table| - 1];
      PrunedNormal(table[..|table| - 1], stale, file);
      PrunedValue(last.1, DeadCodes(stale, NormKey(last.0)));
      assert Prune(table, stale)[..|table| - 1] == Prune(table[..|table| - 1], stale);
    }
  }

  /** A pruned table declares what it did less the deleted pairs, with the reasons it had. */
  lemma PrunedBook(table: Table, stale: set<Pair>, file: string, code: string)
    ensures code in Book(Prune(table, stale), file) <==> code in Book(table, file) && (file, code) !in stale
    ensures code in Book(Prune(table, stale), file) ==> Book(Prune(table, stale), file)[code] == Book(table, file)[code]
  {
    PrunedNormal(table, stale, file);
    assert code in DeadCodes(stale, file) <==> (file, code) in stale;
  }

  /** Deleting waivers other than the one a warning meets leaves it meeting that one. */
  lemma HitSurvives(table: Table, stale: set<Pair>, file: string, code: string)
    requires Hit(table, file, code).Some? ==> Hit(table, file, code).value !in stale
    ensures Hit(Prune(table, stale), file, code) == Hit(table, file, code)
    ensures Reason(Prune(table, stale), file, code) == Reason(table, file, code)
  {
    PrunedBook(table, stale, file, code);
    PrunedBook(table, stale, file, ANY);
    PrunedBook(table, stale, ANY, code);
    PrunedBook(table, stale, ANY, ANY);
  }

  lemma {:induction false} UsedAreHits(table: Table, raised: seq<Warning>)
    ensures forall w :: w in raised && Hit(table, w.file, w.code).Some? ==>
      Hit(table, w.file, w.code).value in RunLog(table, false, raised).used
    ensures forall p :: p in RunLog(table, false, raised).used ==> p.1 in Book(table, p.0)
    decreases |raised|
  {
    if raised != [] {
      var front, last := raised[..|raised| - 1], raised[|raised| - 1];
      UsedAreHits(table, front);
      HitIsDeclared(table, last.file, last.code);
      assert raised == front + [last];
    }
  }

  lemma {:induction false} SameHitsSameLog(table: Table, other: Table, raised: seq<Warning>)
    requires forall w :: w in raised ==>
      && Hit(other, w.file, w.code) == Hit(table, w.file, w.code)
      && Reason(other, w.file, w.code) == Reason(table, w.file, w.code)
    ensures RunLog(other, false, raised) == RunLog(table, false, raised)
    decreases |raised|
  {
    if raised != [] {
      var front, last := raised[..|raised| - 1], raised[|raised| - 1];
      assert last in raised;
      SameHitsSameLog(table, other, front);
    }
  }

  /** Main result: after any run, deleting every waiver reported stale changes neither
      the destination nor the reason of any warning of that run, and leaves no stale
      waiver. */
  lemma StaleWaiversCanGo(table: Table, raised: seq<Warning>, stale: set<Pair>)
    requires forall p :: p in stale <==> IsStale(table, RunLog(table, false, raised).used, p)
    ensures RunLog(Prune(table, stale), false, raised) == RunLog(table, false, raised)
    ensures forall p :: !IsStale(Prune(table, stale), RunLog(Prune(table, stale), false, raised).used, p)
  {
    UsedAreHits(table, raised);
    forall w | w in raised
      ensures Hit(Prune(table, stale), w.file, w.code) == Hit(table, w.file, w.code)
      ensures Reason(Prune(table, stale), w.file, w.code) == Reason(table, w.file, w.code)
    {
      HitSurvives(table, stale, w.file, w.code);
    }
    SameHitsSameLog(table, Prune(table, stale), raised);
    forall p: Pair
      ensures !IsStale(Prune(table, stale), RunLog(table, false, raised).used, p)
    {
      PrunedBook(table, stale, p.0, p.1);
    }
  }

  /** stale_waivers: the pairs it reports are the stale ones. */
  method StaleWaivers(table: Table, used: set<Pair>) returns (stale: set<Pair>)
    ensures forall p :: p in stale <==> IsStale(table, used, p)
  {
    var declared: set<Pair> := {};
    var i := 0;
    while i < |table|
      invariant 0 <= i <= |table|
      invariant forall p: Pair :: p in declared <==> p.1 in Book(table, p.0) && HasKey(table[..i], p.0)
    {
      var fkey := NormKey(table[i].0);
      KeyNext(table, i);
      declared := declared + set c | c in Book(table, fkey) :: (fkey, c);
      i := i + 1;
    }
    assert table[..i] == table;
    stale := declared - used;
    forall p: Pair | p.1 in Book(table, p.0)
      ensures HasKey(table, p.0)
    {
      KeyDeclared(table, p.0);
    }
  }

  predicate HasKey(table: Table, file: string) {
    exists k :: 0 <= k < |table| && NormKey(table[k].0) == file
  }

  lemma KeyNext(table: Table, i: nat)
    requires i < |table|
    ensures forall file :: HasKey(table[..i + 1], file) <==> HasKey(table[..i], file) || file == NormKey(table[i].0)
  {
    var next := table[..i + 1];
    assert next[i] == table[i] && forall k :: 0 <= k < i ==> next[k] == table[..i][k];
    assert forall k :: 0 <= k < i ==> table[..i][k] == next[k];
  }

  lemma {:induction false} KeyDeclared(table: Table, file: string)
    requires file in Normal(table)
    ensures HasKey(table, file)
    decreases |table|
  {
    var last := table[|table| - 1];
    if NormKey(last.0) != file {
      KeyDeclared(table[..|table| - 1], file);
      var k :| 0 <= k < |table| - 1 && NormKey(table[..|table| - 1][k].0) == file;
      assert NormKey(table[k].0) == file;
    }
  }
}
