/** What the estimated spans of a run are: each assistant entry is counted once, and
    the spans lie apart inside the run, so the estimate never exceeds wall time. */
module RunTimeAccount {
  import opened Text
  import opened RunTime

  // ---------------------------------------------------------------------
  // Which entries a span or a duration stands for
  // ---------------------------------------------------------------------

  /** Entry i lies before a turn_duration that comes before the next settling prompt;
      that duration covers it. */
  ghost predicate Covered(entries: seq<Entry>, i: nat, n: nat)
    requires n <= |entries|
  {
    exists j :: i < j < n && entries[j].kind.TurnEnd? && NoPrompt(entries, i, j)
  }

  /** No typed prompt, which would settle, between i and j. */
  predicate NoPrompt(entries: seq<Entry>, i: nat, j: nat)
    requires j <= |entries|
  {
    forall m :: i < m < j ==> !entries[m].kind.Typed?
  }

  predicate NoDuration(entries: seq<Entry>, i: nat, j: nat)
    requires j <= |entries|
  {
    forall m :: i < m < j ==> !entries[m].kind.TurnEnd?
  }

  predicate Within(s: Span, i: nat) {
    s.lo <= i < s.hi
  }

  ghost predicate InSome(spans: seq<Span>, i: nat) {
    exists k :: 0 <= k < |spans| && Within(spans[k], i)
  }

  // ---------------------------------------------------------------------
  // The account kept entry by entry
  // ---------------------------------------------------------------------

  /** Entry i < k is still open: no prompt and no duration has come after it. */
  predicate StillOpen(entries: seq<Entry>, i: nat, k: nat)
    requires k <= |entries|
  {
    NoPrompt(entries, i, k) && NoDuration(entries, i, k)
  }

  /** Entry i was settled: a prompt came after it, and no duration before that prompt. */
  ghost predicate PutDown(entries: seq<Entry>, i: nat, k: nat)
    requires k <= |entries|
  {
    exists j :: i < j < k && entries[j].kind.Typed? && NoDuration(entries, i, j)
  }

  /** Every assistant entry so far is in the turn being read, in a span, or covered. */
  ghost predicate AllHeld(entries: seq<Entry>, t: Track, k: nat)
    requires k <= |entries|
  {
    forall i :: 0 <= i < k && entries[i].kind.Assistant? ==>
      (i >= t.from && t.last.Some? && t.open.Some?) || InSome(t.pend, i) || InSome(t.done, i) || Covered(entries, i, k)
  }

  /** The spans stand for separate runs of entries, in order, all before `from`. */
  predicate Apart(spans: seq<Span>, from: nat) {
    && (forall k :: 0 <= k < |spans| ==> spans[k].lo <= spans[k].hi <= from)
    && forall a, b :: 0 <= a < b < |spans| ==> spans[a].hi <= spans[b].lo
  }

  /** Entries of the turn being read and of spans held back are open; those of settled
      spans were put down. */
  ghost predicate RightlyHeld(entries: seq<Entry>, t: Track, k: nat)
    requires k <= |entries|
  {
    && t.from <= k && Apart(t.done + t.pend, t.from)
    && (forall i :: t.from <= i < k ==> StillOpen(entries, i, k))
    && (forall i :: 0 <= i < k && InSome(t.pend, i) ==> StillOpen(entries, i, k))
    && (forall i :: 0 <= i < k && InSome(t.done, i) ==> PutDown(entries, i, k))
  }

  lemma InSomeSnoc(spans: seq<Span>, s: Span, i: nat)
    ensures InSome(spans + [s], i) <==> InSome(spans, i) || Within(s, i)
  {
    var all := spans + [s];
    assert all[|spans|] == s;
    assert forall k :: 0 <= k < |spans| ==> all[k] == spans[k];
  }

  lemma InSomeConcat(a: seq<Span>, b: seq<Span>, i: nat)
    ensures InSome(a + b, i) <==> InSome(a, i) || InSome(b, i)
  {
    assert forall k :: 0 <= k < |a| ==> (a + b)[k] == a[k];
    assert forall k :: 0 <= k < |b| ==> (a + b)[|a| + k] == b[k];
  }

  /** The spans a cut leaves hold what the turn being read and the held spans held. */
  lemma CutHolds(entries: seq<Entry>, t: Track, k: nat, i: nat)
    requires k <= |entries| && i < k && AllHeld(entries, t, k) && RightlyHeld(entries, t, k)
    ensures entries[i].kind.Assistant? ==>
      InSome(CutSpans(t, k), i) || InSome(t.done, i) || Covered(entries, i, k)
    ensures InSome(CutSpans(t, k), i) ==> StillOpen(entries, i, k)
  {
    if t.open.Some? && t.last.Some? {
      InSomeSnoc(t.pend, Span(t.open.value, t.last.value, t.from, k), i);
    }
  }

  lemma OneMoreEntry(entries: seq<Entry>, i: nat, k: nat)
    requires i < k < |entries|
    ensures Covered(entries, i, k) ==> Covered(entries, i, k + 1)
    ensures PutDown(entries, i, k) ==> PutDown(entries, i, k + 1)
    ensures StillOpen(entries, i, k) && !entries[k].kind.Typed? && !entries[k].kind.TurnEnd? ==>
      StillOpen(entries, i, k + 1)
    ensures StillOpen(entries, i, k) && entries[k].kind.TurnEnd? ==> Covered(entries, i, k + 1)
    ensures StillOpen(entries, i, k) && entries[k].kind.Typed? ==> PutDown(entries, i, k + 1)
  {
  }

  lemma {:induction false} AccountKept(entries: seq<Entry>, t0: nat, k: nat)
    requires k <= |entries|
    ensures AllHeld(entries, TrackAt(entries, t0, k), k) && RightlyHeld(entries, TrackAt(entries, t0, k), k)
    decreases k
  {
    if k > 0 {
      var p := k - 1;
      AccountKept(entries, t0, p);
      var t := TrackAt(entries, t0, p);
      forall i | 0 <= i < p
        ensures Held(entries, t, p, i)
      {
        CutHolds(entries, t, p, i);
        OneMoreEntry(entries, i, p);
      }
      AccountStep(entries, t, p);
    }
  }

  /** What is known of entry i before entry k is read. */
  ghost predicate Held(entries: seq<Entry>, t: Track, k: nat, i: nat)
    requires k < |entries| && i < k
  {
    && (entries[i].kind.Assistant? ==> InSome(CutSpans(t, k), i) || InSome(t.done, i) || Covered(entries, i, k))
    && (InSome(CutSpans(t, k), i) ==> StillOpen(entries, i, k))
    && (Covered(entries, i, k) ==> Covered(entries, i, k + 1))
    && (PutDown(entries, i, k) ==> PutDown(entries, i, k + 1))
    && (StillOpen(entries, i, k) && !entries[k].kind.Typed? && !entries[k].kind.TurnEnd? ==>
          StillOpen(entries, i, k + 1))
    && (StillOpen(entries, i, k) && entries[k].kind.TurnEnd? ==> Covered(entries, i, k + 1))
    && (StillOpen(entries, i, k) && entries[k].kind.Typed? ==> PutDown(entries, i, k + 1))
  }

  lemma NotYetHeld(spans: seq<Span>, from: nat, i: nat)
    requires Apart(spans, from) && i >= from
    ensures !InSome(spans, i)
  {
  }

  lemma ApartStep(t: Track, e: Entry, k: nat)
    requires Apart(t.done + t.pend, t.from) && t.from <= k
    ensures var t' := Advance(t, e, k);
      && Apart(t'.done + t'.pend, t'.from) && t'.from <= k + 1
      && !InSome(t'.done, k)
  {
    SettledApart(t, k);
    ApartFront(t.done, t.pend, t.from);
    SpansAfter(t, e, k);
    SettledFields(t, e, k);
    NotYetHeld(t.done, t.from, k);
    NotYetHeld(t.done + CutSpans(t, k), k, k);
  }

  lemma ApartFront(a: seq<Span>, b: seq<Span>, from: nat)
    requires Apart(a + b, from)
    ensures Apart(a, from)
  {
    assert forall j :: 0 <= j < |a| ==> a[j] == (a + b)[j];
  }

  lemma AccountStep(entries: seq<Entry>, t: Track, k: nat)
    requires k < |entries| && AllHeld(entries, t, k) && RightlyHeld(entries, t, k)
    requires forall i :: 0 <= i < k ==> Held(entries, t, k, i)
    ensures AllHeld(entries, Advance(t, entries[k], k), k + 1) && RightlyHeld(entries, Advance(t, entries[k], k), k + 1)
  {
    var t', p := Advance(t, entries[k], k), k + 1;
    ApartStep(t, entries[k], k);
    forall i | 0 <= i < p
      ensures HeldAfter(entries, t', p, i)
    {
      if i < k {
        assert Held(entries, t, k, i);
        HeldNext(entries, t, k, i);
      } else {
        assert StillOpen(entries, k, p);
      }
    }
    HeldByAll(entries, t', p);
  }

  lemma HeldByAll(entries: seq<Entry>, t: Track, k: nat)
    requires k <= |entries| && t.from <= k && Apart(t.done + t.pend, t.from)
    requires forall i :: 0 <= i < k ==> HeldAfter(entries, t, k, i)
    ensures AllHeld(entries, t, k) && RightlyHeld(entries, t, k)
  {
    forall i | 0 <= i < k
      ensures i >= t.from ==> StillOpen(entries, i, k)
      ensures InSome(t.done, i) ==> PutDown(entries, i, k)
      ensures InSome(t.pend, i) ==> StillOpen(entries, i, k)
      ensures entries[i].kind.Assistant? ==>
        || (i >= t.from && t.last.Some? && t.open.Some?)
        || InSome(t.pend, i) || InSome(t.done, i) || Covered(entries, i, k)
    {
      assert HeldAfter(entries, t, k, i);
    }
  }

  ghost predicate HeldAfter(entries: seq<Entry>, t: Track, k: nat, i: nat)
    requires i < k <= |entries|
  {
    && (i >= t.from ==> StillOpen(entries, i, k))
    && (InSome(t.done, i) ==> PutDown(entries, i, k))
    && (InSome(t.pend, i) ==> StillOpen(entries, i, k))
    && (entries[i].kind.Assistant? ==>
          || (i >= t.from && t.last.Some? && t.open.Some?)
          || InSome(t.pend, i) || InSome(t.done, i) || Covered(entries, i, k))
  }

  lemma HeldNext(entries: seq<Entry>, t: Track, k: nat, i: nat)
    requires i < k < |entries| && AllHeld(entries, t, k) && RightlyHeld(entries, t, k) && Held(entries, t, k, i)
    ensures HeldAfter(entries, Advance(t, entries[k], k), k + 1, i)
  {
    InSomeConcat(t.done, CutSpans(t, k), i);
  }

  // ---------------------------------------------------------------------
  // Which turn a span is
  // ---------------------------------------------------------------------

  /** An entry that closes the turn before it. */
  predicate Closes(e: Entry) {
    e.kind.Notification? || e.kind.Typed? || e.kind.TurnEnd?
  }

  /** The time of the first assistant entry of lo..hi-1. */
  function FirstReply(entries: seq<Entry>, lo: nat, hi: nat): Option<nat>
    requires lo <= hi <= |entries|
    decreases hi - lo
  {
    if lo == hi then None
    else if entries[lo].kind.Assistant? then Some(entries[lo].time)
    else FirstReply(entries, lo + 1, hi)
  }

  /** The time of the last assistant entry of lo..hi-1. */
  function LastReply(entries: seq<Entry>, lo: nat, hi: nat): Option<nat>
    requires lo <= hi <= |entries|
    decreases hi - lo
  {
    if lo == hi then None
    else if entries[hi - 1].kind.Assistant? then Some(entries[hi - 1].time)
    else LastReply(entries, lo, hi - 1)
  }

  /** When the turn of entries lo..hi-1 opened: at the /run, at the prompt or
      notification before it, or, after a duration, at its first assistant entry. */
  function Opened(entries: seq<Entry>, t0: nat, lo: nat, hi: nat): Option<nat>
    requires lo <= hi <= |entries|
  {
    if lo == 0 then Some(t0)
    else if entries[lo - 1].kind.TurnEnd? then FirstReply(entries, lo, hi)
    else Some(entries[lo - 1].time)
  }

  /** Entries lo..hi-1, of the first n, stand between two closing entries, or the ends. */
  predicate Between(entries: seq<Entry>, lo: nat, hi: nat)
    requires hi <= |entries|
  {
    && lo <= hi
    && (lo > 0 ==> Closes(entries[lo - 1]))
    && forall m :: lo <= m < hi ==> !Closes(entries[m])
  }

  /** A span is a whole turn that no duration closed, from its opening to its last
      assistant entry. */
  predicate IsTurn(entries: seq<Entry>, t0: nat, s: Span, n: nat)
    requires n <= |entries|
  {
    && s.hi <= n && Between(entries, s.lo, s.hi)
    && (s.hi < n ==> Closes(entries[s.hi]) && !entries[s.hi].kind.TurnEnd?)
    && Some(s.start) == Opened(entries, t0, s.lo, s.hi)
    && Some(s.end) == LastReply(entries, s.lo, s.hi)
  }

  /** The turn being read, before entry k. */
  predicate IsOpenTurn(entries: seq<Entry>, t0: nat, t: Track, k: nat)
    requires k <= |entries|
  {
    && Between(entries, t.from, k)
    && t.open == Opened(entries, t0, t.from, k)
    && t.last == LastReply(entries, t.from, k)
  }

  predicate AllTurns(entries: seq<Entry>, t0: nat, spans: seq<Span>, n: nat)
    requires n <= |entries|
  {
    forall a :: 0 <= a < |spans| ==> IsTurn(entries, t0, spans[a], n)
  }

  /** All of them closed before entry k. */
  predicate ClosedTurns(entries: seq<Entry>, t0: nat, spans: seq<Span>, k: nat)
    requires k <= |entries|
  {
    AllTurns(entries, t0, spans, k) && forall a :: 0 <= a < |spans| ==> spans[a].hi < k
  }

  lemma {:induction false} FirstReplyNext(entries: seq<Entry>, lo: nat, k: nat)
    requires lo <= k < |entries|
    ensures FirstReply(entries, lo, k + 1) ==
      if FirstReply(entries, lo, k).None? && entries[k].kind.Assistant? then Some(entries[k].time)
      else FirstReply(entries, lo, k)
    decreases k - lo
  {
    if lo < k {
      FirstReplyNext(entries, lo + 1, k);
    }
  }

  /** The turn being read, cut before entry k, is a turn of the first k entries. */
  lemma CutIsTurn(entries: seq<Entry>, t0: nat, t: Track, k: nat)
    requires k <= |entries| && IsOpenTurn(entries, t0, t, k) && ClosedTurns(entries, t0, t.pend, k)
    ensures AllTurns(entries, t0, CutSpans(t, k), k)
  {
  }

  lemma ClosedByNext(entries: seq<Entry>, t0: nat, spans: seq<Span>, k: nat)
    requires k < |entries| && AllTurns(entries, t0, spans, k)
    requires Closes(entries[k]) && !entries[k].kind.TurnEnd?
    ensures ClosedTurns(entries, t0, spans, k + 1)
  {
    forall a | 0 <= a < |spans|
      ensures IsTurn(entries, t0, spans[a], k + 1) && spans[a].hi < k + 1
    {
      assert IsTurn(entries, t0, spans[a], k);
    }
  }

  lemma StillClosed(entries: seq<Entry>, t0: nat, spans: seq<Span>, k: nat)
    requires k < |entries| && ClosedTurns(entries, t0, spans, k)
    ensures ClosedTurns(entries, t0, spans, k + 1)
  {
    forall a | 0 <= a < |spans|
      ensures IsTurn(entries, t0, spans[a], k + 1)
    {
      assert IsTurn(entries, t0, spans[a], k);
    }
  }

  lemma OpenTurnNext(entries: seq<Entry>, t0: nat, t: Track, k: nat)
    requires k < |entries| && IsOpenTurn(entries, t0, t, k)
    ensures IsOpenTurn(entries, t0, Advance(t, entries[k], k), k + 1)
  {
    FirstReplyNext(entries, t.from, k);
  }

  lemma ClosedConcat(entries: seq<Entry>, t0: nat, a: seq<Span>, b: seq<Span>, k: nat)
    requires k <= |entries| && ClosedTurns(entries, t0, a, k) && ClosedTurns(entries, t0, b, k)
    ensures ClosedTurns(entries, t0, a + b, k)
  {
  }

  lemma TurnsNext(entries: seq<Entry>, t0: nat, t: Track, k: nat)
    requires k < |entries| && IsOpenTurn(entries, t0, t, k)
    requires ClosedTurns(entries, t0, t.done, k) && ClosedTurns(entries, t0, t.pend, k)
    ensures var t' := Advance(t, entries[k], k);
      ClosedTurns(entries, t0, t'.done, k + 1) && ClosedTurns(entries, t0, t'.pend, k + 1)
  {
    StillClosed(entries, t0, t.done, k);
    StillClosed(entries, t0, t.pend, k);
    CutIsTurn(entries, t0, t, k);
    if entries[k].kind.Notification? || entries[k].kind.Typed? {
      ClosedByNext(entries, t0, CutSpans(t, k), k);
      ClosedConcat(entries, t0, t.done, CutSpans(t, k), k + 1);
    }
  }

  predicate TurnsSoFar(entries: seq<Entry>, t0: nat, t: Track, k: nat)
    requires k <= |entries|
  {
    && IsOpenTurn(entries, t0, t, k)
    && ClosedTurns(entries, t0, t.done, k) && ClosedTurns(entries, t0, t.pend, k)
  }

  lemma TurnsStep(entries: seq<Entry>, t0: nat, t: Track, k: nat)
    requires k < |entries| && TurnsSoFar(entries, t0, t, k)
    ensures TurnsSoFar(entries, t0, Advance(t, entries[k], k), k + 1)
  {
    OpenTurnNext(entries, t0, t, k);
    TurnsNext(entries, t0, t, k);
  }

  lemma {:induction false} TurnsKept(entries: seq<Entry>, t0: nat, k: nat)
    requires k <= |entries|
    ensures TurnsSoFar(entries, t0, TrackAt(entries, t0, k), k)
    decreases k
  {
    if k > 0 {
      TurnsKept(entries, t0, k - 1);
      TurnsStep(entries, t0, TrackAt(entries, t0, k - 1), k - 1);
    }
  }

  /** Every estimated span is a whole turn. */
  lemma SpansAreTurns(entries: seq<Entry>, t0: nat, n: nat)
    requires n <= |entries|
    ensures AllTurns(entries, t0, Estimate(entries, t0, n).done, n)
  {
    var t := TrackAt(entries, t0, n);
    TurnsKept(entries, t0, n);
    CutIsTurn(entries, t0, t, n);
  }

  /** Entries come in time order, none before the /run. */
  predicate Ordered(entries: seq<Entry>, t0: nat) {
    && (forall i :: 0 <= i < |entries| ==> t0 <= entries[i].time)
    && forall i, j :: 0 <= i < j < |entries| ==> entries[i].time <= entries[j].time
  }

  lemma {:induction false} FirstReplyBefore(entries: seq<Entry>, t0: nat, lo: nat, hi: nat, i: nat)
    requires lo <= i < hi <= |entries| && entries[i].kind.Assistant? && Ordered(entries, t0)
    ensures FirstReply(entries, lo, hi).Some? && FirstReply(entries, lo, hi).value <= entries[i].time
    decreases hi - lo
  {
    if !entries[lo].kind.Assistant? {
      FirstReplyBefore(entries, t0, lo + 1, hi, i);
    }
  }

  lemma {:induction false} LastReplyAfter(entries: seq<Entry>, t0: nat, lo: nat, hi: nat, i: nat)
    requires lo <= i < hi <= |entries| && entries[i].kind.Assistant? && Ordered(entries, t0)
    ensures LastReply(entries, lo, hi).Some? && entries[i].time <= LastReply(entries, lo, hi).value
    decreases hi - lo
  {
    if !entries[hi - 1].kind.Assistant? {
      LastReplyAfter(entries, t0, lo, hi - 1, i);
    }
  }

  /** A turn's span holds the times of its assistant entries. */
  lemma TurnHoldsReplies(entries: seq<Entry>, t0: nat, s: Span, n: nat, i: nat)
    requires n <= |entries| && IsTurn(entries, t0, s, n) && Ordered(entries, t0)
    requires Within(s, i) && entries[i].kind.Assistant?
    ensures s.start <= entries[i].time <= s.end
  {
    FirstReplyBefore(entries, t0, s.lo, s.hi, i);
    LastReplyAfter(entries, t0, s.lo, s.hi, i);
  }

  // ---------------------------------------------------------------------
  // The main results
  // ---------------------------------------------------------------------

  /** Main result: each assistant entry of a run is counted once.  It is covered by a
      duration that follows it before the next settling prompt, or it lies in exactly
      one estimated span, and never both.  That span is its whole turn, from what opened
      it to its last assistant entry, and holds the entry's time. */
  lemma CountedOnce(entries: seq<Entry>, t0: nat, n: nat, i: nat)
    requires i < n <= |entries| && entries[i].kind.Assistant?
    ensures var spans := Estimate(entries, t0, n).done;
      && (Covered(entries, i, n) <==> !InSome(spans, i))
      && (forall a, b ::
            0 <= a < |spans| && 0 <= b < |spans| && Within(spans[a], i) && Within(spans[b], i) ==> a == b)
      && forall a :: 0 <= a < |spans| && Within(spans[a], i) ==>
           && IsTurn(entries, t0, spans[a], n)
           && (Ordered(entries, t0) ==> spans[a].start <= entries[i].time <= spans[a].end)
  {
    CoveredOrInOne(entries, t0, n, i);
    SpansAreTurns(entries, t0, n);
    var spans := Estimate(entries, t0, n).done;
    forall a | 0 <= a < |spans| && Within(spans[a], i) && Ordered(entries, t0)
      ensures spans[a].start <= entries[i].time <= spans[a].end
    {
      TurnHoldsReplies(entries, t0, spans[a], n, i);
    }
  }

  lemma CoveredOrInOne(entries: seq<Entry>, t0: nat, n: nat, i: nat)
    requires i < n <= |entries| && entries[i].kind.Assistant?
    ensures var spans := Estimate(entries, t0, n).done;
      && (Covered(entries, i, n) <==> !InSome(spans, i))
      && forall a, b ::
           0 <= a < |spans| && 0 <= b < |spans| && Within(spans[a], i) && Within(spans[b], i) ==> a == b
  {
    var t := TrackAt(entries, t0, n);
    AccountKept(entries, t0, n);
    CutHolds(entries, t, n, i);
    InSomeConcat(t.done, CutSpans(t, n), i);
    SettledApart(t, n);
    var spans := Estimate(entries, t0, n).done;
    assert Apart(spans, n);
  }

  lemma SettledApart(t: Track, k: nat)
    requires Apart(t.done + t.pend, t.from) && t.from <= k
    ensures Apart(t.done + CutSpans(t, k), k)
  {
    if t.open.Some? && t.last.Some? {
      assert t.done + CutSpans(t, k) == t.done + t.pend + [Span(t.open.value, t.last.value, t.from, k)];
    }
  }

  /** Spans follow each other in time, between two moments. */
  predicate Laid(spans: seq<Span>, t0: nat, t1: nat) {
    && (forall k :: 0 <= k < |spans| ==> t0 <= spans[k].start <= spans[k].end <= t1)
    && forall a, b :: 0 <= a < b < |spans| ==> spans[a].end <= spans[b].start
  }

  function TimeAt(entries: seq<Entry>, t0: nat, k: nat): nat
    requires k <= |entries|
  {
    if k == 0 then t0 else entries[k - 1].time
  }

  /** The last assistant entry's time, the /run's when there is none yet. */
  function EndOf(entries: seq<Entry>, t0: nat, k: nat): (t1: nat)
    requires k <= |entries|
  {
    match LastAssistant(entries, k)
    case Some(t) => t
    case None => t0
  }

  /** The spans are laid out up to the last assistant entry, and the turn being read
      opens no earlier than they end. */
  ghost predicate LaidOut(entries: seq<Entry>, t0: nat, t: Track, k: nat)
    requires k <= |entries|
  {
    var now, t1 := TimeAt(entries, t0, k), EndOf(entries, t0, k);
    && t0 <= t1 <= now
    && Laid(t.done + t.pend, t0, t1)
    && (t.open.Some? ==> t.open.value <= now && Laid(t.done + t.pend, t0, t.open.value) && t0 <= t.open.value)
    && (t.last.Some? ==> t.last.value == t1 && (t.open.Some? ==> t.open.value <= t1))
  }

  lemma CutLaid(t: Track, t0: nat, t1: nat, k: nat)
    requires Laid(t.done + t.pend, t0, t1)
    requires t.open.Some? ==> Laid(t.done + t.pend, t0, t.open.value) && t0 <= t.open.value
    requires t.last.Some? ==> t.last.value == t1 && (t.open.Some? ==> t.open.value <= t1)
    ensures Laid(t.done + CutSpans(t, k), t0, t1)
  {
    var all := t.done + t.pend;
    if t.open.Some? && t.last.Some? {
      assert t.done + CutSpans(t, k) == all + [Span(t.open.value, t.last.value, t.from, k)];
    }
  }

  lemma LaidLater(spans: seq<Span>, t0: nat, t1: nat, t2: nat)
    requires Laid(spans, t0, t1) && t1 <= t2
    ensures Laid(spans, t0, t2)
  {
  }

  lemma {:induction false} LaidKept(entries: seq<Entry>, t0: nat, k: nat)
    requires k <= |entries| && Ordered(entries, t0)
    ensures LaidOut(entries, t0, TrackAt(entries, t0, k), k)
    decreases k
  {
    if k > 0 {
      LaidKept(entries, t0, k - 1);
      var t := TrackAt(entries, t0, k - 1);
      assert k > 1 ==> entries[k - 2].time <= entries[k - 1].time;
      LaidStep(t, t0, EndOf(entries, t0, k - 1), TimeAt(entries, t0, k - 1), entries[k - 1], k - 1);
    }
  }

  /** One entry, at or after the last. */
  lemma LaidStep(t: Track, t0: nat, t1: nat, now: nat, e: Entry, k: nat)
    requires t0 <= t1 <= now <= e.time
    requires Laid(t.done + t.pend, t0, t1)
    requires t.open.Some? ==> t.open.value <= now && Laid(t.done + t.pend, t0, t.open.value) && t0 <= t.open.value
    requires t.last.Some? ==> t.last.value == t1 && (t.open.Some? ==> t.open.value <= t1)
    ensures var t' := Advance(t, e, k);
      var end := if e.kind.Assistant? then e.time else t1;
      && Laid(t'.done + t'.pend, t0, end)
      && (t'.open.Some? ==>
            t'.open.value <= e.time && Laid(t'.done + t'.pend, t0, t'.open.value) && t0 <= t'.open.value)
      && (t'.last.Some? ==> t'.last.value == end && (t'.open.Some? ==> t'.open.value <= end))
  {
    CutLaid(t, t0, t1, k);
    SpansAfter(t, e, k);
    LaidLater(t.done + CutSpans(t, k), t0, t1, e.time);
    LaidLater(t.done + t.pend, t0, t1, e.time);
    LaidFront(t.done, t.pend, t0, t1);
  }

  lemma LaidFront(a: seq<Span>, b: seq<Span>, t0: nat, t1: nat)
    requires Laid(a + b, t0, t1)
    ensures Laid(a, t0, t1)
  {
    assert forall j :: 0 <= j < |a| ==> a[j] == (a + b)[j];
  }

  /** All the spans after one more entry. */
  lemma SpansAfter(t: Track, e: Entry, k: nat)
    ensures var t' := Advance(t, e, k);
      t'.done + t'.pend ==
        match e.kind
        case Notification => t.done + CutSpans(t, k)
        case Typed(_) => t.done + CutSpans(t, k)
        case TurnEnd(_) => t.done
        case _ => t.done + t.pend
  {
  }

  lemma {:induction false} TotalFits(spans: seq<Span>, t0: nat, t1: nat)
    requires Laid(spans, t0, t1) && t0 <= t1
    ensures 0 <= Total(spans) * 1000 <= t1 - t0
    ensures forall k :: 0 <= k < |spans| && spans[k].end - spans[k].start >= 1000 ==> Total(spans) > 0
    decreases |spans|
  {
    if spans != [] {
      var front, last := spans[..|spans| - 1], spans[|spans| - 1];
      TotalFits(front, t0, last.start);
      assert forall k :: 0 <= k < |front| ==> front[k] == spans[k];
    }
  }

  /** The microseconds the spans last. */
  function Lengths(spans: seq<Span>): int {
    if spans == [] then 0
    else Lengths(spans[..|spans| - 1]) + (spans[|spans| - 1].end - spans[|spans| - 1].start)
  }

  /** Each span loses less than a millisecond to rounding. */
  lemma {:induction false} TotalNear(spans: seq<Span>, t0: nat, t1: nat)
    requires Laid(spans, t0, t1)
    ensures 1000 * Total(spans) <= Lengths(spans) <= 1000 * Total(spans) + 999 * |spans|
    decreases |spans|
  {
    if spans != [] {
      var front, last := spans[..|spans| - 1], spans[|spans| - 1];
      TotalNear(front, t0, last.start);
    }
  }

  /** Main result: for entries in time order the estimated spans follow one another
      between the /run and its last assistant entry, so the estimate is never
      negative and never exceeds the wall time. */
  lemma EstimateWithinWall(entries: seq<Entry>, t0: nat, n: nat)
    requires n <= |entries| && Ordered(entries, t0)
    ensures var spans, end := Estimate(entries, t0, n).done, EndOf(entries, t0, n);
      && t0 <= end
      && Laid(spans, t0, end)
      && 0 <= Total(spans) * 1000 <= end - t0
  {
    var t := TrackAt(entries, t0, n);
    LaidKept(entries, t0, n);
    CutLaid(t, t0, EndOf(entries, t0, n), n);
    TotalFits(Estimate(entries, t0, n).done, t0, EndOf(entries, t0, n));
  }

  /** The estimate is flagged exactly when what is settled is not zero. */
  predicate GuessedRight(t: Track) {
    t.guessed <==> Total(t.done) > 0
  }

  lemma GuessedSettled(t: Track, t0: nat, t1: nat, k: nat)
    requires t0 <= t1 && Laid(t.done + CutSpans(t, k), t0, t1) && GuessedRight(t)
    ensures GuessedRight(Settled(t, k))
  {
    var cut := CutSpans(t, k);
    TotalConcat(t.done, cut);
    LaidFront(t.done, cut, t0, t1);
    LaidBack(t.done, cut, t0, t1);
    TotalFits(t.done, t0, t1);
    TotalFits(cut, t0, t1);
  }

  lemma LaidBack(a: seq<Span>, b: seq<Span>, t0: nat, t1: nat)
    requires Laid(a + b, t0, t1)
    ensures Laid(b, t0, t1)
  {
    assert forall j :: 0 <= j < |b| ==> b[j] == (a + b)[|a| + j];
  }

  lemma GuessedAt(entries: seq<Entry>, t0: nat, k: nat)
    requires k <= |entries| && Ordered(entries, t0) && GuessedRight(TrackAt(entries, t0, k))
    ensures GuessedRight(Settled(TrackAt(entries, t0, k), k))
  {
    var t := TrackAt(entries, t0, k);
    LaidKept(entries, t0, k);
    CutLaid(t, t0, EndOf(entries, t0, k), k);
    GuessedSettled(t, t0, EndOf(entries, t0, k), k);
  }

  lemma GuessedStep(t: Track, e: Entry, k: nat)
    requires GuessedRight(t) && GuessedRight(Settled(t, k))
    ensures GuessedRight(Advance(t, e, k))
  {
    SettledFields(t, e, k);
  }

  /** Only a settling prompt changes what is settled. */
  lemma SettledFields(t: Track, e: Entry, k: nat)
    ensures Advance(t, e, k).done == if e.kind.Typed? then Settled(t, k).done else t.done
    ensures Advance(t, e, k).guessed == if e.kind.Typed? then Settled(t, k).guessed else t.guessed
  {
  }

  lemma {:induction false} GuessedKept(entries: seq<Entry>, t0: nat, k: nat)
    requires k <= |entries| && Ordered(entries, t0)
    ensures GuessedRight(TrackAt(entries, t0, k))
    decreases k
  {
    if k > 0 {
      GuessedKept(entries, t0, k - 1);
      GuessedNext(entries, t0, k - 1);
    }
  }

  lemma GuessedNext(entries: seq<Entry>, t0: nat, k: nat)
    requires k < |entries| && Ordered(entries, t0) && GuessedRight(TrackAt(entries, t0, k))
    ensures GuessedRight(Advance(TrackAt(entries, t0, k), entries[k], k))
  {
    GuessedAt(entries, t0, k);
    GuessedStep(TrackAt(entries, t0, k), entries[k], k);
  }

  /** Main result: the output says "partly estimated" exactly when the estimate is not
      zero. */
  lemma SaysWhenEstimated(entries: seq<Entry>, t0: nat, n: nat)
    requires n <= |entries| && Ordered(entries, t0)
    ensures Estimate(entries, t0, n).guessed <==> Total(Estimate(entries, t0, n).done) > 0
  {
    GuessedKept(entries, t0, n);
    GuessedAt(entries, t0, n);
  }
}
