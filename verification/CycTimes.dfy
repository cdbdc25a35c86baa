/** Where an event's marker goes: the first time tb.cyc holds a value with tb.rstn
    high, examples/fe_demo/waves/mk_sucl.py, and the test
    examples/fe_demo/waves/chk_sucl.py puts each marker to. */
module CycTimes {
  import opened Text
  import opened Waves

  /** The value of a signal at t, None before its first change and while it is x. */
  function Level(changes: seq<Change>, t: nat): Option<nat> {
    if changes == [] then None
    else if changes[|changes| - 1].time <= t then changes[|changes| - 1].value
    else Level(changes[..|changes| - 1], t)
  }

  /** Whether there is a change at or before t, which mk_sucl's level needs. */
  predicate Started(changes: seq<Change>, t: nat) {
    exists k :: 0 <= k < |changes| && changes[k].time <= t
  }

  /** Once changes are in order, the first of them decides. */
  lemma StartedByFirst(changes: seq<Change>, t: nat)
    requires StrictlyOrdered(changes)
    ensures Started(changes, t) <==> changes != [] && changes[0].time <= t
  {
  }

  /** cyc is c and the design is out of reset. */
  predicate Holds(cyc: seq<Change>, rstn: seq<Change>, c: nat, t: nat) {
    Level(cyc, t) == Some(c) && Level(rstn, t) == Some(1)
  }

  predicate StrictlyOrdered(changes: seq<Change>) {
    forall i, j :: 0 <= i < j < |changes| ==> changes[i].time < changes[j].time
  }

  /** The first rise of rstn strictly inside (t, end), end open when None. */
  function FirstRise(rstn: seq<Change>, t: nat, end: Option<nat>): (r: Option<nat>)
    ensures r.None? ==> NoRiseIn(rstn, t, end)
    ensures r.Some? ==> exists k :: FirstRiseAt(rstn, k, t, end) && rstn[k].time == r.value
  {
    if rstn == [] then None
    else if IsRise(rstn[0], t, end) then
      assert FirstRiseAt(rstn, 0, t, end);
      Some(rstn[0].time)
    else
      var r := FirstRise(rstn[1..], t, end);
      assert forall k :: FirstRiseAt(rstn[1..], k, t, end) ==>
          FirstRiseAt(rstn, k + 1, t, end) && rstn[k + 1] == rstn[1..][k];
      r
  }

  predicate NoRiseIn(rstn: seq<Change>, t: nat, end: Option<nat>) {
    forall k :: 0 <= k < |rstn| ==> !IsRise(rstn[k], t, end)
  }

  predicate FirstRiseAt(rstn: seq<Change>, k: int, t: nat, end: Option<nat>) {
    0 <= k < |rstn| && IsRise(rstn[k], t, end) && NoRiseIn(rstn[..k], t, end)
  }

  predicate IsRise(c: Change, t: nat, end: Option<nat>) {
    c.value == Some(1) && c.time > t && (end.None? || c.time < end.value)
  }

  lemma {:induction false} LevelInside(changes: seq<Change>, k: nat, t: nat)
    requires StrictlyOrdered(changes) && k < |changes| && changes[k].time <= t
    requires k + 1 < |changes| ==> t < changes[k + 1].time
    ensures Level(changes, t) == changes[k].value
    decreases |changes|
  {
    if k + 1 < |changes| {
      LevelInside(changes[..|changes| - 1], k, t);
    }
  }

  lemma {:induction false} NothingBefore(changes: seq<Change>, t: nat)
    requires StrictlyOrdered(changes) && (|changes| > 0 ==> t < changes[0].time)
    ensures Level(changes, t) == None
    decreases |changes|
  {
    if changes != [] {
      NothingBefore(changes[..|changes| - 1], t);
    }
  }

  /** A level that is not 1 at t is not 1 later, up to the next change to 1. */
  lemma {:induction false} NoRiseNoChange(rstn: seq<Change>, t: nat, u: nat)
    requires StrictlyOrdered(rstn) && t <= u && Level(rstn, t) != Some(1)
    requires forall k :: 0 <= k < |rstn| ==> !(rstn[k].value == Some(1) && t < rstn[k].time <= u)
    ensures Level(rstn, u) != Some(1)
    decreases |rstn|
  {
    if rstn != [] && rstn[|rstn| - 1].time > t && rstn[|rstn| - 1].time > u {
      NoRiseNoChange(rstn[..|rstn| - 1], t, u);
    }
  }

  /** The defining property of the marker times: each value has the least time at
      which it holds out of reset, and a value with no such time has none. */
  ghost predicate FirstTimes(first: map<nat, nat>, cyc: seq<Change>, rstn: seq<Change>) {
    && (forall c :: c in first ==> Holds(cyc, rstn, c, first[c]) && NotBefore(cyc, rstn, c, first[c]))
    && forall c: nat :: c !in first ==> forall t: nat :: !Holds(cyc, rstn, c, t)
  }

  ghost predicate NotBefore(cyc: seq<Change>, rstn: seq<Change>, c: nat, t: nat) {
    forall u: nat :: u < t ==> !Holds(cyc, rstn, c, u)
  }

  /** What has been settled once the segments before segment k have been read. */
  ghost predicate SettledBefore(first: map<nat, nat>, cyc: seq<Change>, rstn: seq<Change>, k: nat)
    requires k <= |cyc|
  {
    && (forall c :: c in first ==> Holds(cyc, rstn, c, first[c]) && NotBefore(cyc, rstn, c, first[c]))
    && forall c: nat :: c !in first ==> QuietBefore(cyc, rstn, c, k)
  }

  ghost predicate QuietBefore(cyc: seq<Change>, rstn: seq<Change>, c: nat, k: nat)
    requires k <= |cyc|
  {
    forall t: nat :: (k < |cyc| ==> t < cyc[k].time) ==> !Holds(cyc, rstn, c, t)
  }

  /** Within segment k cyc has that segment's value only. */
  lemma OtherValuesQuiet(cyc: seq<Change>, rstn: seq<Change>, c: nat, k: nat)
    requires StrictlyOrdered(cyc) && k < |cyc| && QuietBefore(cyc, rstn, c, k)
    requires cyc[k].value == Some(c) ==> forall t: nat :: InSegment(cyc, k, t) ==> Level(rstn, t) != Some(1)
    ensures QuietBefore(cyc, rstn, c, k + 1)
  {
    forall t: nat | k + 1 < |cyc| ==> t < cyc[k + 1].time
      ensures !Holds(cyc, rstn, c, t)
    {
      if t >= cyc[k].time {
        LevelInside(cyc, k, t);
        assert InSegment(cyc, k, t);
      }
    }
  }

  predicate InSegment(cyc: seq<Change>, k: nat, t: nat)
    requires k < |cyc|
  {
    cyc[k].time <= t && (k + 1 < |cyc| ==> t < cyc[k + 1].time)
  }

  /** A new entry is the least time its value holds. */
  lemma NewEntry(cyc: seq<Change>, rstn: seq<Change>, c: nat, k: nat, u: nat)
    requires StrictlyOrdered(cyc) && k < |cyc| && cyc[k].value == Some(c) && QuietBefore(cyc, rstn, c, k)
    requires InSegment(cyc, k, u) && Level(rstn, u) == Some(1)
    requires forall t: nat :: cyc[k].time <= t < u ==> Level(rstn, t) != Some(1)
    ensures Holds(cyc, rstn, c, u) && NotBefore(cyc, rstn, c, u)
  {
    LevelInside(cyc, k, u);
  }

  /** The rise taken is the first time in the segment with rstn high. */
  lemma RiseIsFirst(rstn: seq<Change>, t: nat, end: Option<nat>)
    requires StrictlyOrdered(rstn) && Level(rstn, t) != Some(1)
    ensures var r := FirstRise(rstn, t, end);
      && (r.Some? ==> r.value > t && (end.Some? ==> r.value < end.value) && Level(rstn, r.value) == Some(1))
      && forall u: nat :: t <= u && (r.Some? ==> u < r.value) && (end.Some? ==> u < end.value) ==>
           Level(rstn, u) != Some(1)
  {
    var r := FirstRise(rstn, t, end);
    if r.Some? {
      var k :| FirstRiseAt(rstn, k, t, end) && rstn[k].time == r.value;
      LevelInside(rstn, k, r.value);
      forall u: nat | t <= u < r.value
        ensures Level(rstn, u) != Some(1)
      {
        forall j | 0 <= j < |rstn|
          ensures !(rstn[j].value == Some(1) && t < rstn[j].time <= u)
        {
          if j < k {
            assert !IsRise(rstn[..k][j], t, end);
          }
        }
        NoRiseNoChange(rstn, t, u);
      }
    } else {
      forall u: nat | t <= u && (end.Some? ==> u < end.value)
        ensures Level(rstn, u) != Some(1)
      {
        forall j | 0 <= j < |rstn|
          ensures !(rstn[j].value == Some(1) && t < rstn[j].time <= u)
        {
          assert !IsRise(rstn[j], t, end);
        }
        NoRiseNoChange(rstn, t, u);
      }
    }
  }

  lemma StartedLater(rstn: seq<Change>, cyc: seq<Change>, k: nat)
    requires StrictlyOrdered(cyc) && k < |cyc|
    ensures forall j :: 0 <= j < k && Started(rstn, cyc[j].time) ==> Started(rstn, cyc[k].time)
  {
  }

  /** Main result: the loop of cyc_times finds, for every value of cyc, the least time
      it holds out of reset.  It fails (an IndexError) exactly when rstn has no value yet
      at a change of cyc to a value. */
  method FindFirst(rstn: seq<Change>, cyc: seq<Change>) returns (first: map<nat, nat>, ok: bool)
    requires StrictlyOrdered(rstn) && StrictlyOrdered(cyc)
    ensures ok ==> FirstTimes(first, cyc, rstn)
    ensures ok <==> forall k :: 0 <= k < |cyc| && cyc[k].value.Some? ==> rstn != [] && rstn[0].time <= cyc[k].time
  {
    forall t: nat
      ensures Started(rstn, t) <==> rstn != [] && rstn[0].time <= t
    {
      StartedByFirst(rstn, t);
    }
    first, ok := map[], true;
    var k := 0;
    forall c: nat
      ensures QuietBefore(cyc, rstn, c, 0)
    {
      forall t: nat | |cyc| > 0 ==> t < cyc[0].time
        ensures Level(cyc, t) == None
      {
        NothingBefore(cyc, t);
      }
    }
    while k < |cyc|
      invariant 0 <= k <= |cyc|
      invariant SettledBefore(first, cyc, rstn, k)
      invariant ok
      invariant forall c :: c in first ==> exists j :: 0 <= j < k && cyc[j].value == Some(c)
      invariant forall j :: 0 <= j < k && cyc[j].value.Some? ==> Started(rstn, cyc[j].time)
    {
      var Change(t, value) := cyc[k];
      StartedLater(rstn, cyc, k);
      if value.Some? && value.value !in first {
        var c := value.value;
        if !Started(rstn, t) {
          ok := false;
          return;
        }
        if Level(rstn, t) == Some(1) {
          NewEntry(cyc, rstn, c, k, t);
          first := first[c := t];
        } else {
          var end := if k + 1 < |cyc| then Some(cyc[k + 1].time) else None;
          var up := FirstRise(rstn, t, end);
          RiseIsFirst(rstn, t, end);
          if up.Some? {
            NewEntry(cyc, rstn, c, k, up.value);
            first := first[c := up.value];
          }
        }
      }
      forall c: nat | c !in first
        ensures QuietBefore(cyc, rstn, c, k + 1)
      {
        OtherValuesQuiet(cyc, rstn, c, k);
      }
      k := k + 1;
    }
  }

  /** chk_sucl's test of a marker: the pair is there at its time and was not just before. */
  predicate PassesTest(cyc: seq<Change>, rstn: seq<Change>, c: nat, t: nat) {
    && Holds(cyc, rstn, c, t)
    && (t > 0 ==> !Holds(cyc, rstn, c, t - 1))
  }

  /** A value stays until the next change. */
  lemma {:induction false} LevelStays(changes: seq<Change>, t: nat)
    requires t > 0 && forall k :: 0 <= k < |changes| ==> changes[k].time != t
    ensures Level(changes, t) == Level(changes, t - 1)
    decreases |changes|
  {
    if changes != [] {
      LevelStays(changes[..|changes| - 1], t);
    }
  }

  lemma {:induction false} LevelAtStart(changes: seq<Change>)
    requires Level(changes, 0).Some?
    ensures exists k :: 0 <= k < |changes| && changes[k].time == 0
    decreases |changes|
  {
    var last := changes[|changes| - 1];
    if last.time != 0 {
      var front := changes[..|changes| - 1];
      LevelAtStart(front);
      var k :| 0 <= k < |front| && front[k].time == 0;
      assert changes[k].time == 0;
    }
  }

  predicate ChangesAt(changes: seq<Change>, t: nat) {
    exists k :: 0 <= k < |changes| && changes[k].time == t
  }

  /** A marker that passes stands where cyc or rstn changes. */
  lemma PassesAtChange(cyc: seq<Change>, rstn: seq<Change>, c: nat, t: nat)
    ensures PassesTest(cyc, rstn, c, t) ==> ChangesAt(cyc, t) || ChangesAt(rstn, t)
  {
    if PassesTest(cyc, rstn, c, t) {
      if t == 0 {
        LevelAtStart(cyc);
      } else if !ChangesAt(cyc, t) && !ChangesAt(rstn, t) {
        LevelStays(cyc, t);
        LevelStays(rstn, t);
        assert false;
      }
    }
  }

  /** Hence every time found passes the checker's test, and a value passes it
      nowhere when no time is found. */
  lemma FoundTimesPass(first: map<nat, nat>, cyc: seq<Change>, rstn: seq<Change>, c: nat)
    requires FirstTimes(first, cyc, rstn)
    ensures c in first ==> PassesTest(cyc, rstn, c, first[c])
    ensures c !in first ==> forall t: nat :: !PassesTest(cyc, rstn, c, t)
  {
  }
}
