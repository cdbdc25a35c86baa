/** What every reachable renamer state keeps, when renaming runs out of physical
    registers, and why the ROB log is enough to step back. */
module RenamerState {
  import opened Renamer

  function OldRegs(rob: seq<RobEntry>): (olds: seq<nat>)
    ensures |olds| == |rob|
  {
    seq(|rob|, k requires 0 <= k < |rob| => rob[k].oldReg)
  }

  /** Every place that holds a physical register: the RAT, the free list, and the
      previous mappings the ROB keeps until its entries retire. */
  function Held(s: State): seq<nat> {
    s.rat + s.free + OldRegs(s.rob)
  }

  /** The held registers are 0..numPhys-1, each exactly once. */
  ghost predicate Partition(s: State, numPhys: nat) {
    multiset(Held(s)) == multiset(Range(0, numPhys))
  }

  ghost predicate Distinct<T>(s: seq<T>) {
    forall i, j :: 0 <= i < j < |s| ==> s[i] != s[j]
  }

  // ---------------------------------------------------------------------
  // Conservation of physical registers
  // ---------------------------------------------------------------------

  lemma HeldMultiset(s: State)
    ensures multiset(Held(s)) == multiset(s.rat) + multiset(s.free) + multiset(OldRegs(s.rob))
  {
  }

  lemma StepKeepsHeld(s: State, i: Instr)
    requires InRange(i, |s.rat|) && CanRename(s, i)
    ensures multiset(Held(RenameOne(s, i))) == multiset(Held(s))
  {
    if i.dst != 0 {
      var s' := RenameOne(s, i);
      HeldMultiset(s);
      HeldMultiset(s');
      assert OldRegs(s'.rob) == OldRegs(s.rob) + [s.rat[i.dst]];
      assert s.free == [s.free[0]] + s'.free;
      UpdateMultiset(s.rat, i.dst, s.free[0]);
    }
  }

  lemma UpdateMultiset(s: seq<nat>, k: nat, x: nat)
    requires k < |s|
    ensures multiset(s[k := x]) + multiset{s[k]} == multiset(s) + multiset{x}
  {
    var before, after := s[..k], s[k + 1..];
    assert s == before + [s[k]] + after;
    assert s[k := x] == before + [x] + after;
  }

  /** No run of the renamer, completed or stopped, creates or loses a physical
      register. */
  lemma {:induction false} RegistersConserved(o: Outcome, prog: seq<Instr>)
    requires AllInRange(prog, |o.state.rat|)
    ensures multiset(Held(RenameFrom(o, prog).state)) == multiset(Held(o.state))
    decreases |prog|
  {
    if prog != [] {
      if o.ok && CanRename(o.state, prog[0]) {
        StepKeepsHeld(o.state, prog[0]);
      }
      RegistersConserved(Advance(o, prog[0]), prog[1..]);
    }
  }

  lemma {:induction false} CountInDistinct<T>(s: seq<T>)
    requires forall x :: x in s ==> multiset(s)[x] == 1
    ensures Distinct(s)
    decreases |s|
  {
    if s != [] {
      assert s == [s[0]] + s[1..];
      forall x | x in s[1..]
        ensures multiset(s[1..])[x] == 1
      {
        assert multiset(s)[x] == 1;
      }
      CountInDistinct(s[1..]);
      forall j | 0 < j < |s|
        ensures s[0] != s[j]
      {
        assert s[1..][j - 1] == s[j];
        assert multiset(s)[s[j]] == 1;
        assert s[j] in s[1..];
      }
    }
  }

  lemma {:induction false} RangeCounts(lo: nat, hi: nat, x: nat)
    requires lo <= hi
    ensures multiset(Range(lo, hi))[x] == if lo <= x < hi then 1 else 0
    decreases hi - lo
  {
    if lo < hi {
      assert Range(lo, hi) == [lo] + Range(lo + 1, hi);
      RangeCounts(lo + 1, hi, x);
    }
  }

  /** What the partition means: nothing is held twice, nothing outside
      0..numPhys-1 is held, and nothing inside is lost. */
  lemma PartitionMeans(s: State, numPhys: nat)
    requires Partition(s, numPhys)
    ensures Distinct(Held(s))
    ensures forall p :: p in Held(s) <==> 0 <= p < numPhys
    ensures |s.rat| + |s.free| + |s.rob| == numPhys
  {
    forall p
      ensures p in Held(s) <==> 0 <= p < numPhys
      ensures p in Held(s) ==> multiset(Held(s))[p] == 1
    {
      assert p in Held(s) <==> multiset(Held(s))[p] > 0;
      if p >= 0 {
        RangeCounts(0, numPhys, p);
      }
    }
    CountInDistinct(Held(s));
    assert |multiset(Held(s))| == |multiset(Range(0, numPhys))|;
  }

  /** Main result: in every state a program can reach, RAT, free list and logged
      old registers partition the physical registers. */
  lemma ReachablePartition(numArch: nat, numPhys: nat, prog: seq<Instr>)
    requires numArch <= numPhys && AllInRange(prog, numArch)
    ensures var s := RenameAll(InitialState(numArch, numPhys), prog).state;
            && Partition(s, numPhys)
            && Distinct(Held(s))
            && (forall p :: p in Held(s) <==> 0 <= p < numPhys)
            && |s.free| + |s.rob| == numPhys - numArch
            && |s.iq| == |s.rob|
  {
    var init := InitialState(numArch, numPhys);
    assert Held(init) == Range(0, numPhys);
    RegistersConserved(Outcome(init, [], true), prog);
    PartitionMeans(RenameAll(init, prog).state, numPhys);
    QueueMatchesLog(Outcome(init, [], true), prog);
  }

  // ---------------------------------------------------------------------
  // Queue and log agree
  // ---------------------------------------------------------------------

  /** Entry k of the issue queue is the one that points at ROB entry k and writes
      the register that entry logged as new. */
  ghost predicate QueueAgrees(s: State) {
    && |s.iq| == |s.rob|
    && forall k :: 0 <= k < |s.iq| ==> s.iq[k].rob == k && s.iq[k].pd == s.rob[k].newReg
  }

  lemma {:induction false} QueueMatchesLog(o: Outcome, prog: seq<Instr>)
    requires AllInRange(prog, |o.state.rat|) && QueueAgrees(o.state)
    ensures QueueAgrees(RenameFrom(o, prog).state)
    decreases |prog|
  {
    if prog != [] {
      QueueMatchesLog(Advance(o, prog[0]), prog[1..]);
    }
  }

  // ---------------------------------------------------------------------
  // Exhaustion
  // ---------------------------------------------------------------------

  /** How many instructions of a program need a physical register. */
  function Writers(prog: seq<Instr>): nat {
    if prog == [] then 0 else (if prog[0].dst != 0 then 1 else 0) + Writers(prog[1..])
  }

  lemma {:induction false} FreeListConsumed(o: Outcome, prog: seq<Instr>)
    requires AllInRange(prog, |o.state.rat|) && o.ok
    ensures var out := RenameFrom(o, prog);
            && (out.ok <==> Writers(prog) <= |o.state.free|)
            && |out.state.free| == if out.ok then |o.state.free| - Writers(prog) else 0
    decreases |prog|
  {
    if prog != [] && CanRename(o.state, prog[0]) {
      FreeListConsumed(Advance(o, prog[0]), prog[1..]);
    }
  }

  /** Main result: the free list runs out exactly for the programs with more than
      numPhys - numArch register-writing instructions. */
  lemma ExhaustedExactly(numArch: nat, numPhys: nat, prog: seq<Instr>)
    requires numArch <= numPhys && AllInRange(prog, numArch)
    ensures RenameAll(InitialState(numArch, numPhys), prog).ok <==> Writers(prog) <= numPhys - numArch
  {
    FreeListConsumed(Outcome(InitialState(numArch, numPhys), [], true), prog);
  }

  // ---------------------------------------------------------------------
  // Precise recovery from the log
  // ---------------------------------------------------------------------

  /** Undoes the youngest ROB entry: its logical register gets its old mapping
      back and its new register returns to the head of the free list. */
  function UndoLast(s: State): State
    requires s.rob != [] && s.rob[|s.rob| - 1].logical < |s.rat|
    requires |s.iq| == |s.rob|
  {
    var k := |s.rob| - 1;
    var RobEntry(logical, oldReg, newReg) := s.rob[k];
    State(s.rat[logical := oldReg], [newReg] + s.free, s.rob[..k], s.iq[..k])
  }

  ghost predicate Undoable(s: State) {
    && |s.iq| == |s.rob|
    && forall k :: 0 <= k < |s.rob| ==> s.rob[k].logical < |s.rat|
  }

  function UndoTo(s: State, k: nat): State
    requires Undoable(s) && k <= |s.rob|
    decreases |s.rob|
  {
    if |s.rob| == k then s else UndoTo(UndoLast(s), k)
  }

  lemma {:induction false} UndoInTwo(s: State, j: nat, k: nat)
    requires Undoable(s) && k <= j <= |s.rob|
    ensures Undoable(UndoTo(s, j)) && |UndoTo(s, j).rob| == j
    ensures UndoTo(s, k) == UndoTo(UndoTo(s, j), k)
    decreases |s.rob|
  {
    if |s.rob| != j {
      UndoInTwo(UndoLast(s), j, k);
    }
  }

  lemma UndoOne(s: State, i: Instr)
    requires InRange(i, |s.rat|) && CanRename(s, i) && i.dst != 0 && |s.iq| == |s.rob|
    ensures UndoLast(RenameOne(s, i)) == s
  {
    var s' := RenameOne(s, i);
    var u := UndoLast(s');
    assert u.rat == s.rat;
    assert u.free == s.free;
    assert u.rob == s.rob;
    assert u.iq == s.iq;
  }

  /** Rolling back whatever a program did from state s, completed or stopped, gives
      back s itself: RAT, free list with its order, log and queue. */
  lemma {:induction false} RollbackRestores(o: Outcome, prog: seq<Instr>)
    requires AllInRange(prog, |o.state.rat|) && Undoable(o.state)
    ensures var s' := RenameFrom(o, prog).state;
            && Undoable(s') && |o.state.rob| <= |s'.rob|
            && UndoTo(s', |o.state.rob|) == o.state
    decreases |prog|
  {
    if prog != [] {
      var i := prog[0];
      var next := Advance(o, i);
      RollbackRestores(next, prog[1..]);
      if o.ok && CanRename(o.state, i) && i.dst != 0 {
        var k := |o.state.rob|;
        UndoInTwo(RenameFrom(o, prog).state, k + 1, k);
        UndoOne(o.state, i);
        assert UndoTo(next.state, k) == UndoTo(UndoLast(next.state), k);
      }
    }
  }

  /** Main result: after any program a + b, undoing the ROB from the tail down to
      the length it had after a restores exactly the state after a. */
  lemma PreciseRecovery(numArch: nat, numPhys: nat, a: seq<Instr>, b: seq<Instr>)
    requires numArch <= numPhys && AllInRange(a, numArch) && AllInRange(b, numArch)
    ensures AllInRange(a + b, numArch)
    ensures var init := InitialState(numArch, numPhys);
            var middle, final := RenameAll(init, a).state, RenameAll(init, a + b).state;
            && Undoable(final) && |middle.rob| <= |final.rob|
            && UndoTo(final, |middle.rob|) == middle
  {
    var o := Outcome(InitialState(numArch, numPhys), [], true);
    RenameConcat(o, a, b);
    RollbackRestores(o, a);
    RollbackRestores(RenameFrom(o, a), b);
  }

  // ---------------------------------------------------------------------
  // The printed code
  // ---------------------------------------------------------------------

  /** Main result: each instruction is printed with its own opcode, and writes p0 when
      it writes no register, else the next register of the free list. */
  lemma {:induction false} CodePrinted(s: State, prog: seq<Instr>, k: nat)
    requires AllInRange(prog, |s.rat|) && k < |RenameAll(s, prog).renamed|
    ensures k < |prog| && RenameAll(s, prog).renamed[k].op == prog[k].op
    ensures prog[k].dst == 0 ==> RenameAll(s, prog).renamed[k].pd == 0
    ensures prog[k].dst != 0 ==>
      Writers(prog[..k]) < |s.free| && RenameAll(s, prog).renamed[k].pd == s.free[Writers(prog[..k])]
    decreases |prog|
  {
    if prog != [] {
      RenameCons(s, prog);
      if CanRename(s, prog[0]) {
        var s' := RenameOne(s, prog[0]);
        if k > 0 {
          CodePrinted(s', prog[1..], k - 1);
          assert prog[..k][0] == prog[0] && prog[..k][1..] == prog[1..][..k - 1];
        }
      }
    }
  }
}
