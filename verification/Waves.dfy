/** The canonical form of a signal's value changes and the text a waveform's
    digest is taken over, tools/publish_waves.py. */
module Waves {
  import opened Text

  /** A value change; None stands for x or z. */
  datatype Change = Change(time: nat, value: Option<nat>)

  // ---------------------------------------------------------------------
  // What a list of changes means
  // ---------------------------------------------------------------------

  /** Of two changes, r and the later-listed c, the one that decides the value at t. */
  function Prefer(r: Option<Change>, c: Change, t: nat): Option<Change> {
    if c.time <= t && (r.None? || r.value.time <= c.time) then Some(c) else r
  }

  /** The change that decides the value at t: of those at or before t the latest,
      and of several at one time the last listed. */
  function Latest(changes: seq<Change>, t: nat): (r: Option<Change>)
    ensures r.Some? ==> r.value in changes && r.value.time <= t
  {
    if changes == [] then None
    else Prefer(Latest(changes[..|changes| - 1], t), changes[|changes| - 1], t)
  }

  /** The signal's value at t; None before its first change. */
  function ValueAt(changes: seq<Change>, t: nat): Option<Option<nat>> {
    match Latest(changes, t)
    case None => None
    case Some(c) => Some(c.value)
  }

  ghost predicate SameSignal(a: seq<Change>, b: seq<Change>) {
    forall t: nat :: ValueAt(a, t) == ValueAt(b, t)
  }

  lemma LatestSnoc(changes: seq<Change>, c: Change, t: nat)
    ensures Latest(changes + [c], t) == Prefer(Latest(changes, t), c, t)
  {
    assert (changes + [c])[..|changes|] == changes;
  }

  // ---------------------------------------------------------------------
  // The stable sort
  // ---------------------------------------------------------------------

  predicate Within(changes: seq<Change>, end: nat) {
    forall k :: 0 <= k < |changes| ==> changes[k].time <= end
  }

  predicate TimeOrdered(changes: seq<Change>) {
    forall i, j :: 0 <= i < j < |changes| ==> changes[i].time <= changes[j].time
  }

  function Insert(changes: seq<Change>, c: Change): (r: seq<Change>)
    requires TimeOrdered(changes)
    ensures TimeOrdered(r)
    ensures r != [] && (r[|r| - 1] == c || (changes != [] && r[|r| - 1] == changes[|changes| - 1]))
    decreases |changes|
  {
    if changes == [] || changes[|changes| - 1].time <= c.time then changes + [c]
    else Insert(changes[..|changes| - 1], c) + [changes[|changes| - 1]]
  }

  /** sorted(changes, key=time): in time order, one time's changes in list order. */
  function Sort(changes: seq<Change>): (r: seq<Change>)
    ensures TimeOrdered(r)
  {
    if changes == [] then [] else Insert(Sort(changes[..|changes| - 1]), changes[|changes| - 1])
  }

  lemma {:induction false} InsertIsPermutation(changes: seq<Change>, c: Change)
    requires TimeOrdered(changes)
    ensures multiset(Insert(changes, c)) == multiset(changes) + multiset{c}
    decreases |changes|
  {
    if changes != [] && changes[|changes| - 1].time > c.time {
      var front, last := changes[..|changes| - 1], changes[|changes| - 1];
      InsertIsPermutation(front, c);
      assert changes == front + [last];
      assert Insert(changes, c) == Insert(front, c) + [last];
    }
  }

  lemma {:induction false} SortIsPermutation(changes: seq<Change>)
    ensures multiset(Sort(changes)) == multiset(changes)
    decreases |changes|
  {
    if changes != [] {
      SortIsPermutation(changes[..|changes| - 1]);
      InsertIsPermutation(Sort(changes[..|changes| - 1]), changes[|changes| - 1]);
      assert changes == changes[..|changes| - 1] + [changes[|changes| - 1]];
    }
  }

  lemma {:induction false} InsertKeepsValue(changes: seq<Change>, c: Change, t: nat)
    requires TimeOrdered(changes)
    ensures Latest(Insert(changes, c), t) == Prefer(Latest(changes, t), c, t)
    decreases |changes|
  {
    if changes == [] || changes[|changes| - 1].time <= c.time {
      LatestSnoc(changes, c, t);
    } else {
      var front, last := changes[..|changes| - 1], changes[|changes| - 1];
      InsertKeepsValue(front, c, t);
      LatestSnoc(Insert(front, c), last, t);
      LatestBounded(front, last.time, t);
      PreferCommutes(Latest(front, t), c, last, t);
    }
  }

  lemma LatestBounded(changes: seq<Change>, end: nat, t: nat)
    requires Within(changes, end)
    ensures Latest(changes, t).Some? ==> Latest(changes, t).value.time <= end
  {
  }

  /** A later change decides the same whether an earlier one is listed before or after it. */
  lemma PreferCommutes(r: Option<Change>, c: Change, last: Change, t: nat)
    requires c.time < last.time && (r.Some? ==> r.value.time <= last.time)
    ensures Prefer(Prefer(r, c, t), last, t) == Prefer(Prefer(r, last, t), c, t)
  {
  }

  lemma {:induction false} SortKeepsValue(changes: seq<Change>, t: nat)
    ensures Latest(Sort(changes), t) == Latest(changes, t)
    decreases |changes|
  {
    if changes != [] {
      SortKeepsValue(changes[..|changes| - 1], t);
      InsertKeepsValue(Sort(changes[..|changes| - 1]), changes[|changes| - 1], t);
    }
  }

  // ---------------------------------------------------------------------
  // The canonical form
  // ---------------------------------------------------------------------

  /** Strictly increasing times, and each value differs from the one before. */
  predicate Normal(changes: seq<Change>) {
    && (forall i, j :: 0 <= i < j < |changes| ==> changes[i].time < changes[j].time)
    && forall i :: 0 < i < |changes| ==> changes[i - 1].value != changes[i].value
  }

  function Popped(out: seq<Change>, t: nat): seq<Change> {
    if out != [] && out[|out| - 1].time == t then out[..|out| - 1] else out
  }

  /** One turn of the loop of canonical: a change at the last time replaces it, and
      a value equal to the one before is dropped. */
  function Push(out: seq<Change>, c: Change): seq<Change> {
    PushKept(Popped(out, c.time), c)
  }

  function PushKept(kept: seq<Change>, c: Change): seq<Change> {
    if kept != [] && kept[|kept| - 1].value == c.value then kept else kept + [c]
  }

  function PushAll(changes: seq<Change>): seq<Change> {
    if changes == [] then [] else Push(PushAll(changes[..|changes| - 1]), changes[|changes| - 1])
  }

  function CanonicalForm(changes: seq<Change>): seq<Change> {
    PushAll(Sort(changes))
  }

  lemma PushAllNext(changes: seq<Change>, i: nat)
    requires i < |changes|
    ensures PushAll(changes[..i + 1]) == Push(PushAll(changes[..i]), changes[i])
  {
    assert changes[..i + 1][..i] == changes[..i];
  }

  /** One turn of the loop. */
  method PushChange(out: seq<Change>, c: Change) returns (next: seq<Change>)
    ensures next == Push(out, c)
  {
    var Change(t, v) := c;
    next := out;
    if next != [] && next[|next| - 1].time == t {
      next := next[..|next| - 1];
    }
    if next != [] && next[|next| - 1].value == v {
      return;
    }
    next := next + [c];
  }

  method Canonical(changes: seq<Change>) returns (out: seq<Change>)
    ensures out == CanonicalForm(changes)
  {
    var ordered := Sort(changes);
    out := [];
    var i := 0;
    while i < |ordered|
      invariant 0 <= i <= |ordered|
      invariant out == PushAll(ordered[..i])
    {
      PushAllNext(ordered, i);
      out := PushChange(out, ordered[i]);
      i := i + 1;
    }
    assert ordered[..i] == ordered;
  }

  /** On a normal list the value from its last time on is its last value. */
  lemma LatestOfNormal(out: seq<Change>, t: nat)
    requires Normal(out) && out != []
    ensures t >= out[|out| - 1].time ==> Latest(out, t) == Some(out[|out| - 1])
    ensures t < out[|out| - 1].time ==> Latest(out, t) == Latest(out[..|out| - 1], t)
  {
  }

  lemma LatestOfOrdered(changes: seq<Change>, c: Change, t: nat)
    requires TimeOrdered(changes + [c])
    ensures t >= c.time ==> Latest(changes + [c], t) == Some(c)
    ensures t < c.time ==> Latest(changes + [c], t) == Latest(changes, t)
  {
    LatestSnoc(changes, c, t);
    var r := Latest(changes, t);
    if r.Some? {
      var k :| 0 <= k < |changes| && changes[k] == r.value;
      assert (changes + [c])[k] == r.value && (changes + [c])[|changes|] == c;
    }
  }

  lemma PushNormal(out: seq<Change>, c: Change)
    requires Normal(out) && Within(out, c.time)
    ensures Normal(Push(out, c)) && Within(Push(out, c), c.time)
  {
  }

  /** A push changes the value from its time on, and only there. */
  lemma PushValue(out: seq<Change>, c: Change, t: nat)
    requires Normal(out) && Within(out, c.time)
    ensures t >= c.time ==> ValueAt(Push(out, c), t) == Some(c.value)
    ensures t < c.time ==> ValueAt(Push(out, c), t) == ValueAt(out, t)
  {
    PushNormal(out, c);
    var kept := Popped(out, c.time);
    PoppedValue(out, c.time, t);
    LatestSnoc(kept, c, t);
    LatestOfNormal(Push(out, c), t);
  }

  lemma PoppedValue(out: seq<Change>, end: nat, t: nat)
    requires Normal(out) && Within(out, end)
    ensures t < end ==> Latest(Popped(out, end), t) == Latest(out, t)
    ensures Normal(Popped(out, end)) && forall k :: 0 <= k < |Popped(out, end)| ==> Popped(out, end)[k].time < end
  {
    if Popped(out, end) != out {
      LatestOfNormal(out, t);
    }
  }

  lemma PushStep(changes: seq<Change>, out: seq<Change>, c: Change)
    requires TimeOrdered(changes + [c])
    requires Normal(out) && SameSignal(out, changes) && Within(out, c.time)
    ensures SameSignal(Push(out, c), changes + [c])
  {
    forall t: nat
      ensures ValueAt(Push(out, c), t) == ValueAt(changes + [c], t)
    {
      LatestOfOrdered(changes, c, t);
      PushValue(out, c, t);
      assert ValueAt(out, t) == ValueAt(changes, t);
    }
  }

  lemma {:induction false} PushAllIsNormal(changes: seq<Change>, end: nat)
    requires TimeOrdered(changes) && Within(changes, end)
    ensures Normal(PushAll(changes)) && SameSignal(PushAll(changes), changes)
    ensures Within(PushAll(changes), end)
    decreases |changes|
  {
    if changes != [] {
      var front, last := changes[..|changes| - 1], changes[|changes| - 1];
      assert changes == front + [last];
      PushAllIsNormal(front, last.time);
      PushStep(front, PushAll(front), last);
      PushNormal(PushAll(front), last);
    }
  }

  lemma CanonicalIsNormal(changes: seq<Change>)
    ensures Normal(CanonicalForm(changes)) && SameSignal(CanonicalForm(changes), changes)
  {
    var ordered := Sort(changes);
    PushAllIsNormal(ordered, if ordered == [] then 0 else ordered[|ordered| - 1].time);
    SortSameSignal(changes);
    SameTransitive(PushAll(ordered), ordered, changes);
  }

  lemma SortSameSignal(changes: seq<Change>)
    ensures SameSignal(Sort(changes), changes)
  {
    forall t: nat
      ensures ValueAt(Sort(changes), t) == ValueAt(changes, t)
    {
      SortKeepsValue(changes, t);
    }
  }

  lemma SameTransitive(a: seq<Change>, b: seq<Change>, c: seq<Change>)
    requires SameSignal(a, b) && SameSignal(b, c)
    ensures SameSignal(a, c)
  {
    forall t: nat
      ensures ValueAt(a, t) == ValueAt(c, t)
    {
      assert ValueAt(a, t) == ValueAt(b, t) == ValueAt(c, t);
    }
  }

  /** A normal list changes value at its last time, and not after. */
  lemma ValueAroundLast(a: seq<Change>)
    requires Normal(a) && a != []
    ensures var last := a[|a| - 1];
            && (forall t: nat :: t >= last.time ==> ValueAt(a, t) == Some(last.value))
            && (last.time > 0 ==> ValueAt(a, last.time - 1) != Some(last.value))
  {
    var last := a[|a| - 1];
    forall t: nat | t >= last.time
      ensures ValueAt(a, t) == Some(last.value)
    {
      LatestOfNormal(a, t);
    }
    if last.time > 0 {
      LatestOfNormal(a, last.time - 1);
      if |a| > 1 {
        LatestOfNormal(a[..|a| - 1], last.time - 1);
      }
    }
  }

  /** Of two normal lists of the same signal, neither ends later. */
  lemma LastTimesAgree(a: seq<Change>, b: seq<Change>)
    requires Normal(a) && Normal(b) && SameSignal(a, b) && a != []
    ensures b != [] && a[|a| - 1].time <= b[|b| - 1].time
  {
    var last := a[|a| - 1];
    ValueAroundLast(a);
    assert ValueAt(a, last.time) == ValueAt(b, last.time);
    assert b != [];
    ValueAroundLast(b);
    var before: nat := if last.time > 0 then last.time - 1 else 0;
    assert ValueAt(a, before) == ValueAt(b, before);
  }

  lemma {:induction false} NormalIsUnique(a: seq<Change>, b: seq<Change>)
    requires Normal(a) && Normal(b) && SameSignal(a, b)
    ensures a == b
    decreases |a| + |b|
  {
    if a != [] {
      LastTimesAgree(a, b);
    }
    if b != [] {
      LastTimesAgree(b, a);
    }
    if a != [] && b != [] {
      FrontsAgree(a, b);
      NormalIsUnique(a[..|a| - 1], b[..|b| - 1]);
      LastsAgree(a, b);
      assert a == a[..|a| - 1] + [a[|a| - 1]] && b == b[..|b| - 1] + [b[|b| - 1]];
    }
  }

  lemma FrontsAgree(a: seq<Change>, b: seq<Change>)
    requires Normal(a) && Normal(b) && SameSignal(a, b) && a != [] && b != []
    requires a[|a| - 1].time == b[|b| - 1].time
    ensures SameSignal(a[..|a| - 1], b[..|b| - 1])
  {
    var a', b', last := a[..|a| - 1], b[..|b| - 1], a[|a| - 1].time;
    forall t: nat
      ensures ValueAt(a', t) == ValueAt(b', t)
    {
      var u := if t < last then t else if last == 0 then 0 else last - 1;
      assert ValueAt(a, u) == ValueAt(b, u);
      LatestOfNormal(a, u);
      LatestOfNormal(b, u);
      FrontStays(a, t, u);
      FrontStays(b, t, u);
    }
  }

  lemma LastsAgree(a: seq<Change>, b: seq<Change>)
    requires Normal(a) && Normal(b) && SameSignal(a, b) && a != [] && b != []
    requires a[|a| - 1].time == b[|b| - 1].time
    ensures a[|a| - 1] == b[|b| - 1]
  {
    var last := a[|a| - 1].time;
    LatestOfNormal(a, last);
    LatestOfNormal(b, last);
    assert ValueAt(a, last) == ValueAt(b, last);
  }

  /** Without its last change a normal list keeps, from just before that change's
      time on, the value it has just before. */
  lemma FrontStays(a: seq<Change>, t: nat, u: nat)
    requires Normal(a) && a != []
    requires t < a[|a| - 1].time ==> u == t
    requires t >= a[|a| - 1].time ==> a[|a| - 1].time == 0 || u == a[|a| - 1].time - 1
    ensures Latest(a[..|a| - 1], t) == Latest(a[..|a| - 1], u)
  {
    if |a| > 1 {
      LatestOfNormal(a[..|a| - 1], t);
      LatestOfNormal(a[..|a| - 1], u);
    }
  }

  /** Main result: the canonical form is a complete invariant of the signal. */
  lemma CanonicalIsComplete(a: seq<Change>, b: seq<Change>)
    ensures CanonicalForm(a) == CanonicalForm(b) <==> SameSignal(a, b)
  {
    CanonicalIsNormal(a);
    CanonicalIsNormal(b);
    if SameSignal(a, b) {
      forall t: nat
        ensures ValueAt(CanonicalForm(a), t) == ValueAt(CanonicalForm(b), t)
      {
        assert ValueAt(a, t) == ValueAt(b, t);
      }
      NormalIsUnique(CanonicalForm(a), CanonicalForm(b));
    }
    if CanonicalForm(a) == CanonicalForm(b) {
      forall t: nat
        ensures ValueAt(a, t) == ValueAt(b, t)
      {
        assert ValueAt(CanonicalForm(a), t) == ValueAt(a, t);
        assert ValueAt(CanonicalForm(b), t) == ValueAt(b, t);
      }
    }
  }
}
