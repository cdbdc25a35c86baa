/** The active time of a /run task, tools/run_time.py: the entries after the /run
    prompt, read once, with estimated spans for turns that left no duration. */
module RunTime {
  import opened Text

  /** What a transcript entry is to the reader.  `Typed` is a prompt the user typed,
      `slash` when it is a command; an entry at the /run's own timestamp is Other. */
  datatype Kind = Interrupt | Notification | Typed(slash: bool) | Assistant | TurnEnd(ms: int) | Other

  /** An entry with its time in microseconds. */
  datatype Entry = Entry(kind: Kind, time: nat)

  /** int(seconds * 1000), which rounds toward zero. */
  function Millis(from: nat, to: nat): int {
    if from <= to then (to - from) / 1000 else -((from - to) / 1000)
  }

  /** A span is counted by its whole milliseconds, and by as many negative ones when it
      runs backward. */
  lemma MillisExactly(from: nat, to: nat, m: nat)
    requires from <= to
    ensures Millis(from, to) == m <==> 1000 * m <= to - from < 1000 * (m + 1)
    ensures Millis(to, from) == -Millis(from, to)
  {
  }

  // ---------------------------------------------------------------------
  // The task
  // ---------------------------------------------------------------------

  predicate Interrupted(entries: seq<Entry>, k: nat)
    requires k <= |entries|
  {
    exists j :: 0 <= j < k && entries[j].kind.Interrupt?
  }

  /** The prompt that ends the run: a typed one before any interrupt, or a command. */
  predicate Ends(entries: seq<Entry>, k: nat)
    requires k < |entries|
  {
    entries[k].kind.Typed? && (entries[k].kind.slash || !Interrupted(entries, k))
  }

  /** How many entries the run has: those before the first prompt that ends it. */
  function Length(entries: seq<Entry>, k: nat := 0): (n: nat)
    requires k <= |entries|
    ensures k <= n <= |entries|
    ensures n < |entries| ==> Ends(entries, n)
    ensures forall j :: k <= j < n ==> !Ends(entries, j)
    decreases |entries| - k
  {
    if k == |entries| || Ends(entries, k) then k else Length(entries, k + 1)
  }

  // ---------------------------------------------------------------------
  // What the reader keeps, with its estimated spans spelled out
  // ---------------------------------------------------------------------

  /** An estimated span: its times, and the entries lo..hi-1 it stands for. */
  datatype Span = Span(start: nat, end: nat, lo: nat, hi: nat)

  /** The turn being read (its first entry, its last assistant entry, and the index it
      is counted from), the spans held back, and the spans settled. */
  datatype Track = Track(open: Option<nat>, last: Option<nat>, from: nat,
                         pend: seq<Span>, done: seq<Span>, guessed: bool)

  function Total(spans: seq<Span>): int {
    if spans == [] then 0
    else Total(spans[..|spans| - 1]) + Millis(spans[|spans| - 1].start, spans[|spans| - 1].end)
  }

  /** The spans held back once the current turn is cut before entry i. */
  function CutSpans(t: Track, i: nat): seq<Span> {
    if t.open.Some? && t.last.Some? then t.pend + [Span(t.open.value, t.last.value, t.from, i)] else t.pend
  }

  function Settled(t: Track, i: nat): Track {
    var spans := CutSpans(t, i);
    Track(None, None, i, [], t.done + spans, t.guessed || Total(spans) != 0)
  }

  function Advance(t: Track, e: Entry, i: nat): Track {
    match e.kind
    case Assistant => t.(open := if t.open.Some? then t.open else Some(e.time), last := Some(e.time))
    case Notification => Track(Some(e.time), None, i + 1, CutSpans(t, i), t.done, t.guessed)
    case Typed(_) => Settled(t, i).(open := Some(e.time), from := i + 1)
    case TurnEnd(_) => Track(None, None, i + 1, [], t.done, t.guessed)
    case Interrupt => t
    case Other => t
  }

  function TrackAt(entries: seq<Entry>, t0: nat, k: nat): Track
    requires k <= |entries|
  {
    if k == 0 then Track(Some(t0), None, 0, [], [], false)
    else Advance(TrackAt(entries, t0, k - 1), entries[k - 1], k - 1)
  }

  function Durations(entries: seq<Entry>, k: nat): int
    requires k <= |entries|
  {
    if k == 0 then 0
    else Durations(entries, k - 1) + if entries[k - 1].kind.TurnEnd? then entries[k - 1].kind.ms else 0
  }

  function LastAssistant(entries: seq<Entry>, k: nat): Option<nat>
    requires k <= |entries|
  {
    if k == 0 then None
    else if entries[k - 1].kind.Assistant? then Some(entries[k - 1].time)
    else LastAssistant(entries, k - 1)
  }

  /** The spans a run of n entries is estimated by. */
  function Estimate(entries: seq<Entry>, t0: nat, n: nat): Track
    requires n <= |entries|
  {
    Settled(TrackAt(entries, t0, n), n)
  }

  lemma {:induction false} TotalConcat(a: seq<Span>, b: seq<Span>)
    ensures Total(a + b) == Total(a) + Total(b)
    decreases |b|
  {
    if b == [] {
      assert a + b == a;
    } else {
      TotalConcat(a, b[..|b| - 1]);
      assert (a + b)[..|a + b| - 1] == a + b[..|b| - 1];
    }
  }

  lemma SettledTotal(t: Track, i: nat)
    ensures Settled(t, i).open == None && Settled(t, i).last == None && Total(Settled(t, i).pend) == 0
    ensures Total(Settled(t, i).done) == Total(t.done) + Total(CutSpans(t, i))
    ensures Settled(t, i).guessed <==> t.guessed || Total(CutSpans(t, i)) != 0
  {
    TotalConcat(t.done, CutSpans(t, i));
  }

  lemma TotalOne(a: seq<Span>, s: Span)
    ensures Total(a + [s]) == Total(a) + Millis(s.start, s.end)
  {
    assert (a + [s])[..|a|] == a;
  }

  // ---------------------------------------------------------------------
  // The reader
  // ---------------------------------------------------------------------

  class Reader {
    var openT: Option<nat>
    var lastA: Option<nat>
    var pendMs: int
    var activeMs: int
    var interrupted: bool
    var estimated: bool
    var t1: Option<nat>

    /** The reader holds what a track spells out, with `durations` already counted. */
    ghost predicate Holds(t: Track, durations: int)
      reads this
    {
      && openT == t.open && lastA == t.last
      && pendMs == Total(t.pend)
      && activeMs == durations + Total(t.done)
      && estimated == t.guessed
    }

    constructor (t0: nat)
      ensures Holds(Track(Some(t0), None, 0, [], [], false), 0) && !interrupted && t1 == None
    {
      openT, lastA, pendMs, activeMs := Some(t0), None, 0, 0;
      interrupted, estimated, t1 := false, false, None;
    }

    method Cut(ghost t: Track, ghost d: int, ghost i: nat)
      requires Holds(t, d)
      modifies this`openT, this`lastA, this`pendMs
      ensures openT == None && lastA == None
      ensures pendMs == Total(CutSpans(t, i))
    {
      if openT.Some? && lastA.Some? {
        TotalOne(t.pend, Span(openT.value, lastA.value, t.from, i));
        pendMs := pendMs + Millis(openT.value, lastA.value);
      }
      openT, lastA := None, None;
    }

    method Settle(ghost t: Track, ghost d: int, ghost i: nat)
      requires Holds(t, d)
      modifies this`openT, this`lastA, this`pendMs, this`activeMs, this`estimated
      ensures Holds(Settled(t, i), d)
    {
      Cut(t, d, i);
      SettledTotal(t, i);
      if pendMs != 0 {
        activeMs := activeMs + pendMs;
        estimated := true;
      }
      pendMs := 0;
    }

    /** A notification: the turn before it is held back. */
    method Reopen(e: Entry, ghost t: Track, ghost d: int, ghost i: nat)
      requires Holds(t, d) && e.kind.Notification?
      modifies this`openT, this`lastA, this`pendMs
      ensures Holds(Advance(t, e, i), d)
    {
      Cut(t, d, i);
      openT := Some(e.time);
    }

    /** A prompt after an interrupt: the turns before it are settled. */
    method SettlePrompt(e: Entry, ghost t: Track, ghost d: int, ghost i: nat)
      requires Holds(t, d) && e.kind.Typed?
      modifies this`openT, this`lastA, this`pendMs, this`activeMs, this`estimated
      ensures Holds(Advance(t, e, i), d)
    {
      Settle(t, d, i);
      openT := Some(e.time);
    }

    /** An assistant entry: it opens the turn unless it is open. */
    method Reply(e: Entry, ghost t: Track, ghost d: int, ghost i: nat)
      requires Holds(t, d) && e.kind.Assistant?
      modifies this`openT, this`lastA, this`t1
      ensures Holds(Advance(t, e, i), d) && t1 == Some(e.time)
    {
      t1, lastA := Some(e.time), Some(e.time);
      openT := if openT.Some? then openT else lastA;
    }

    /** A duration: it counts for the turn and for all that is held back. */
    method EndTurn(e: Entry, ghost t: Track, ghost d: int, ghost i: nat)
      requires Holds(t, d) && e.kind.TurnEnd?
      modifies this`openT, this`lastA, this`pendMs, this`activeMs
      ensures Holds(Advance(t, e, i), d + e.kind.ms)
    {
      activeMs := activeMs + e.kind.ms;
      openT, lastA := None, None;
      pendMs := 0;
    }

    /** Reads one entry; true when it is the prompt that ends the run. */
    method Read(e: Entry, ghost t: Track, ghost d: int, ghost i: nat) returns (stop: bool)
      requires Holds(t, d)
      modifies this
      ensures stop <==> e.kind.Typed? && (e.kind.slash || !old(interrupted))
      ensures interrupted == (old(interrupted) || e.kind.Interrupt?)
      ensures t1 == if e.kind.Assistant? then Some(e.time) else old(t1)
      ensures stop ==> Holds(t, d)
      ensures !stop ==> Holds(Advance(t, e, i), d + if e.kind.TurnEnd? then e.kind.ms else 0)
    {
      match e.kind {
        case Interrupt =>
          interrupted := true;
          return false;
        case Notification =>
          Reopen(e, t, d, i);
        case Typed(slash) =>
          if !interrupted || slash {
            return true;
          }
          SettlePrompt(e, t, d, i);
        case Assistant =>
          Reply(e, t, d, i);
        case TurnEnd(ms) =>
          EndTurn(e, t, d, i);
        case Other =>
      }
      return false;
    }

    /** The reader after the first n entries. */
    ghost predicate HasRead(entries: seq<Entry>, t0: nat, n: nat)
      requires n <= |entries|
      reads this
    {
      && Holds(TrackAt(entries, t0, n), Durations(entries, n))
      && interrupted == Interrupted(entries, n)
      && t1 == LastAssistant(entries, n)
    }

    method ReadAt(entries: seq<Entry>, ghost t0: nat, i: nat) returns (stop: bool)
      requires i < |entries| && HasRead(entries, t0, i)
      modifies this
      ensures stop <==> Ends(entries, i)
      ensures HasRead(entries, t0, if stop then i else i + 1)
    {
      stop := Read(entries[i], TrackAt(entries, t0, i), Durations(entries, i), i);
      assert Interrupted(entries, i + 1) <==> Interrupted(entries, i) || entries[i].kind.Interrupt?;
    }

    /** Reads the entries of the run. */
    method ReadAll(entries: seq<Entry>, ghost t0: nat)
      requires HasRead(entries, t0, 0)
      modifies this
      ensures HasRead(entries, t0, Length(entries))
    {
      var stop := false;
      var i := 0;
      while i < |entries| && !stop
        invariant 0 <= i <= |entries|
        invariant !stop ==> Length(entries) == Length(entries, i) && HasRead(entries, t0, i)
        invariant stop ==> HasRead(entries, t0, Length(entries))
      {
        stop := ReadAt(entries, t0, i);
        i := i + 1;
      }
    }
  }

  /** The active milliseconds of the run and its last assistant entry; none when the
      /run has no assistant reply. */
  datatype Measured = Measured(activeMs: int, end: nat, interrupted: bool, estimated: bool)

  method Measure(entries: seq<Entry>, t0: nat) returns (r: Option<Measured>)
    ensures var n := Length(entries); r.None? <==> LastAssistant(entries, n).None?
    ensures r.Some? ==>
      var n := Length(entries);
      && r.value.activeMs == Durations(entries, n) + Total(Estimate(entries, t0, n).done)
      && Some(r.value.end) == LastAssistant(entries, n)
      && r.value.interrupted == Interrupted(entries, n)
      && r.value.estimated == Estimate(entries, t0, n).guessed
  {
    var reader := new Reader(t0);
    reader.ReadAll(entries, t0);
    ghost var n := Length(entries);
    reader.Settle(TrackAt(entries, t0, n), Durations(entries, n), n);
    if reader.t1.None? {
      return None;
    }
    r := Some(Measured(reader.activeMs, reader.t1.value, reader.interrupted, reader.estimated));
  }
}
