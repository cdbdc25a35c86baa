/** Renaming preserves meaning, in program order and in every order that runs a
    producer before its consumers.

    An instruction is an uninterpreted function of its two source values, so the
    results hold for whatever the opcodes compute. */
module RenamerMeaning {
  import opened Renamer
  import opened RenamerState

  /** What an opcode computes from its two source values. */
  type Semantics<!V> = (string, V, V) -> V

  // ---------------------------------------------------------------------
  // Two machines
  // ---------------------------------------------------------------------

  /** The architectural machine: register 0 is never written. */
  function ArchStep<V>(f: Semantics<V>, regs: seq<V>, i: Instr): (regs': seq<V>)
    requires InRange(i, |regs|)
    ensures |regs'| == |regs|
  {
    if i.dst == 0 then regs else regs[i.dst := f(i.op, regs[i.src1], regs[i.src2])]
  }

  function ArchRun<V>(f: Semantics<V>, regs: seq<V>, prog: seq<Instr>): (regs': seq<V>)
    requires AllInRange(prog, |regs|)
    ensures |regs'| == |regs|
    decreases |prog|
  {
    if prog == [] then regs else ArchRun(f, ArchStep(f, regs, prog[0]), prog[1..])
  }

  /** The source values each instruction of a program reads. */
  function ArchOperands<V>(f: Semantics<V>, regs: seq<V>, prog: seq<Instr>): seq<(V, V)>
    requires AllInRange(prog, |regs|)
    decreases |prog|
  {
    if prog == [] then [] else
      [(regs[prog[0].src1], regs[prog[0].src2])] + ArchOperands(f, ArchStep(f, regs, prog[0]), prog[1..])
  }

  predicate Fits(r: Renamed, numPhys: nat) {
    r.pd < numPhys && r.ps1 < numPhys && r.ps2 < numPhys
  }

  predicate RenamedInRange(code: seq<Renamed>, numPhys: nat) {
    forall k :: 0 <= k < |code| ==> Fits(code[k], numPhys)
  }

  /** The physical machine running renamed code: p0 is never written. */
  function PhysStep<V>(f: Semantics<V>, prf: seq<V>, r: Renamed): (prf': seq<V>)
    requires Fits(r, |prf|)
    ensures |prf'| == |prf|
  {
    if r.pd == 0 then prf else prf[r.pd := f(r.op, prf[r.ps1], prf[r.ps2])]
  }

  function PhysRun<V>(f: Semantics<V>, prf: seq<V>, code: seq<Renamed>): (prf': seq<V>)
    requires RenamedInRange(code, |prf|)
    ensures |prf'| == |prf|
    decreases |code|
  {
    if code == [] then prf else PhysRun(f, PhysStep(f, prf, code[0]), code[1..])
  }

  function PhysOperands<V>(f: Semantics<V>, prf: seq<V>, code: seq<Renamed>): seq<(V, V)>
    requires RenamedInRange(code, |prf|)
    decreases |code|
  {
    if code == [] then [] else
      [(prf[code[0].ps1], prf[code[0].ps2])] + PhysOperands(f, PhysStep(f, prf, code[0]), code[1..])
  }

  lemma PhysCons<V>(f: Semantics<V>, prf: seq<V>, r: Renamed, code: seq<Renamed>)
    requires Fits(r, |prf|) && RenamedInRange(code, |prf|)
    ensures RenamedInRange([r] + code, |prf|)
    ensures PhysRun(f, prf, [r] + code) == PhysRun(f, PhysStep(f, prf, r), code)
    ensures PhysOperands(f, prf, [r] + code) ==
            [(prf[r.ps1], prf[r.ps2])] + PhysOperands(f, PhysStep(f, prf, r), code)
  {
    assert ([r] + code)[1..] == code;
  }

  lemma ArchCons<V>(f: Semantics<V>, regs: seq<V>, prog: seq<Instr>, n: nat)
    requires AllInRange(prog, |regs|) && 0 < n <= |prog|
    ensures ArchRun(f, regs, prog[..n]) == ArchRun(f, ArchStep(f, regs, prog[0]), prog[1..][..n - 1])
    ensures ArchOperands(f, regs, prog[..n]) ==
            [(regs[prog[0].src1], regs[prog[0].src2])] +
            ArchOperands(f, ArchStep(f, regs, prog[0]), prog[1..][..n - 1])
  {
    var front := prog[..n];
    assert front[0] == prog[0] && front[1..] == prog[1..][..n - 1];
  }

  // ---------------------------------------------------------------------
  // The simulation
  // ---------------------------------------------------------------------

  /** Every architectural register, read through the RAT, has its value. */
  ghost predicate Sees<V>(regs: seq<V>, prf: seq<V>, rat: seq<nat>) {
    && |regs| == |rat|
    && (forall r :: 0 <= r < |rat| ==> rat[r] < |prf|)
    && forall r :: 0 <= r < |rat| ==> prf[rat[r]] == regs[r]
  }

  /** x0 is p0, and nothing free is mapped; what a step of the simulation needs of
      a renamer state, all of it kept by every step. */
  ghost predicate Sound(s: State, numPhys: nat) {
    && Partition(s, numPhys)
    && |s.rat| > 0 && s.rat[0] == 0
  }

  lemma SoundFree(s: State, numPhys: nat)
    requires Sound(s, numPhys)
    ensures Distinct(s.free)
    ensures forall p :: p in s.free ==> 0 < p < numPhys && p !in s.rat
    ensures forall p :: p in s.rat ==> p < numPhys
  {
    PartitionMeans(s, numPhys);
    var held := Held(s);
    assert s.rat == held[..|s.rat|];
    assert s.free == held[|s.rat|..|s.rat| + |s.free|];
    forall p | p in s.rat
      ensures p < numPhys
    {
      assert p in held;
    }
    forall p | p in s.free
      ensures 0 < p < numPhys && p !in s.rat
    {
      var j :| 0 <= j < |s.free| && s.free[j] == p;
      assert held[|s.rat| + j] == p && p in held;
      assert held[0] == 0;
    }
  }

  lemma SoundStep(s: State, i: Instr, numPhys: nat)
    requires Sound(s, numPhys) && InRange(i, |s.rat|) && CanRename(s, i)
    ensures Sound(RenameOne(s, i), numPhys)
  {
    StepKeepsHeld(s, i);
  }

  lemma SimulationStep<V>(f: Semantics<V>, s: State, i: Instr, regs: seq<V>, prf: seq<V>)
    requires Sound(s, |prf|) && Sees(regs, prf, s.rat)
    requires InRange(i, |regs|) && CanRename(s, i)
    ensures Fits(RenamedOne(s, i), |prf|)
    ensures var prf' := PhysStep(f, prf, RenamedOne(s, i));
            && Sees(ArchStep(f, regs, i), prf', RenameOne(s, i).rat)
            && prf'[0] == prf[0]
  {
    SoundFree(s, |prf|);
    if i.dst != 0 {
      assert s.free[0] in s.free;
    }
  }

  /** A run that renamed the first |o.renamed| instructions of prog simulates them. */
  ghost predicate Simulates<V>(f: Semantics<V>, o: Outcome, prog: seq<Instr>, regs: seq<V>, prf: seq<V>)
    requires AllInRange(prog, |regs|)
  {
    && |o.renamed| <= |prog|
    && RenamedInRange(o.renamed, |prf|)
    && Sees(ArchRun(f, regs, prog[..|o.renamed|]), PhysRun(f, prf, o.renamed), o.state.rat)
    && PhysOperands(f, prf, o.renamed) == ArchOperands(f, regs, prog[..|o.renamed|])
    && |prf| > 0 && PhysRun(f, prf, o.renamed)[0] == prf[0]
  }

  lemma SimulatesCons<V>(f: Semantics<V>, s: State, prog: seq<Instr>, regs: seq<V>, prf: seq<V>, rest: Outcome)
    requires Sound(s, |prf|) && Sees(regs, prf, s.rat) && AllInRange(prog, |regs|)
    requires prog != [] && CanRename(s, prog[0]) && Fits(RenamedOne(s, prog[0]), |prf|)
    requires var next := PhysStep(f, prf, RenamedOne(s, prog[0]));
             && next[0] == prf[0]
             && Simulates(f, rest, prog[1..], ArchStep(f, regs, prog[0]), next)
    ensures Simulates(f, rest.(renamed := [RenamedOne(s, prog[0])] + rest.renamed), prog, regs, prf)
  {
    PhysCons(f, prf, RenamedOne(s, prog[0]), rest.renamed);
    ArchCons(f, regs, prog, 1 + |rest.renamed|);
  }

  /** The simulation over a whole run, completed or stopped. */
  lemma {:induction false} Simulation<V>(f: Semantics<V>, s: State, prog: seq<Instr>, regs: seq<V>, prf: seq<V>)
    requires Sound(s, |prf|) && Sees(regs, prf, s.rat) && AllInRange(prog, |regs|)
    ensures var o := RenameAll(s, prog);
            && Simulates(f, o, prog, regs, prf)
            && Sound(o.state, |prf|)
            && (o.ok ==> |o.renamed| == |prog|)
    decreases |prog|
  {
    if prog == [] {
      assert prog[..0] == [];
    } else {
      RenameCons(s, prog);
      if CanRename(s, prog[0]) {
        SimulationStep(f, s, prog[0], regs, prf);
        SoundStep(s, prog[0], |prf|);
        var s' := RenameOne(s, prog[0]);
        Simulation(f, s', prog[1..], ArchStep(f, regs, prog[0]), PhysStep(f, prf, RenamedOne(s, prog[0])));
        SimulatesCons(f, s, prog, regs, prf, RenameAll(s', prog[1..]));
      }
    }
  }

  /** Main result: for every program and every reading of its opcodes, from any
      register values, the renamed code reads the same operands and leaves every
      architectural register, read through the final RAT, as sequential execution
      leaves it; x0 stays p0 with its initial value. */
  lemma RenamingPreservesMeaning<V>(f: Semantics<V>, numArch: nat, prog: seq<Instr>, prf: seq<V>)
    requires 0 < numArch <= |prf| && AllInRange(prog, numArch)
    requires RenameAll(InitialState(numArch, |prf|), prog).ok
    ensures var o := RenameAll(InitialState(numArch, |prf|), prog);
            && RenamedInRange(o.renamed, |prf|)
            && PhysOperands(f, prf, o.renamed) == ArchOperands(f, prf[..numArch], prog)
            && Sees(ArchRun(f, prf[..numArch], prog), PhysRun(f, prf, o.renamed), o.state.rat)
            && o.state.rat[0] == 0 && PhysRun(f, prf, o.renamed)[0] == prf[0]
  {
    InitialSound(numArch, prf);
    WholeSimulation(f, InitialState(numArch, |prf|), prog, prf[..numArch], prf);
  }

  lemma InitialSound<V>(numArch: nat, prf: seq<V>)
    requires 0 < numArch <= |prf|
    ensures var init := InitialState(numArch, |prf|);
      Sound(init, |prf|) && Sees(prf[..numArch], prf, init.rat)
  {
    assert Held(InitialState(numArch, |prf|)) == Range(0, |prf|);
  }

  /** A program that is renamed to its end, simulated whole. */
  lemma WholeSimulation<V>(f: Semantics<V>, s: State, prog: seq<Instr>, regs: seq<V>, prf: seq<V>)
    requires Sound(s, |prf|) && Sees(regs, prf, s.rat) && AllInRange(prog, |regs|)
    requires RenameAll(s, prog).ok
    ensures var o := RenameAll(s, prog);
      && RenamedInRange(o.renamed, |prf|)
      && PhysOperands(f, prf, o.renamed) == ArchOperands(f, regs, prog)
      && Sees(ArchRun(f, regs, prog), PhysRun(f, prf, o.renamed), o.state.rat)
      && Sound(o.state, |prf|)
      && PhysRun(f, prf, o.renamed)[0] == prf[0]
  {
    Simulation(f, s, prog, regs, prf);
    assert prog[..|prog|] == prog;
  }

  // ---------------------------------------------------------------------
  // The issue queue
  // ---------------------------------------------------------------------

  function QueueCode(iq: seq<IqEntry>): (code: seq<Renamed>)
    ensures |code| == |iq|
  {
    seq(|iq|, k requires 0 <= k < |iq| => Renamed(iq[k].op, iq[k].pd, iq[k].ps1, iq[k].ps2))
  }

  /** The renamed instructions that write a register, in order. */
  function WritersOf(code: seq<Renamed>): seq<Renamed> {
    if code == [] then []
    else if code[0].pd == 0 then WritersOf(code[1..])
    else [code[0]] + WritersOf(code[1..])
  }

  lemma {:induction false} QueueHoldsWriters(s: State, prog: seq<Instr>, numPhys: nat)
    requires Sound(s, numPhys) && AllInRange(prog, |s.rat|)
    ensures var o := RenameAll(s, prog);
            QueueCode(o.state.iq) == QueueCode(s.iq) + WritersOf(o.renamed)
    decreases |prog|
  {
    var o := RenameAll(s, prog);
    if prog == [] || !CanRename(s, prog[0]) {
      assert QueueCode(s.iq) + [] == QueueCode(s.iq);
    } else {
      var s', r := RenameOne(s, prog[0]), RenamedOne(s, prog[0]);
      SoundFree(s, numPhys);
      SoundStep(s, prog[0], numPhys);
      QueueHoldsWriters(s', prog[1..], numPhys);
      RenameCons(s, prog);
      var rest := RenameAll(s', prog[1..]);
      assert ([r] + rest.renamed)[1..] == rest.renamed;
      if prog[0].dst != 0 {
        assert s.free[0] in s.free;
        assert QueueCode(s'.iq) == QueueCode(s.iq) + [r];
        assert QueueCode(s.iq) + [r] + WritersOf(rest.renamed) == QueueCode(s.iq) + ([r] + WritersOf(rest.renamed));
      }
    }
  }

  lemma {:induction false} SkippingNonWriters<V>(f: Semantics<V>, prf: seq<V>, code: seq<Renamed>)
    requires RenamedInRange(code, |prf|)
    ensures RenamedInRange(WritersOf(code), |prf|)
    ensures PhysRun(f, prf, WritersOf(code)) == PhysRun(f, prf, code)
    decreases |code|
  {
    if code != [] {
      SkippingNonWriters(f, PhysStep(f, prf, code[0]), code[1..]);
      PhysCons(f, prf, code[0], WritersOf(code[1..]));
    }
  }

  // ---------------------------------------------------------------------
  // Every queue the renamer builds is in single-assignment form
  // ---------------------------------------------------------------------

  /** No register is written twice, none by an entry that reads it, and none after
      an earlier entry read it. */
  ghost predicate SingleAssignment(code: seq<Renamed>) {
    && (forall i, j :: 0 <= i < j < |code| ==> code[i].pd != code[j].pd)
    && (forall i, j :: 0 <= i <= j < |code| ==> code[j].pd != code[i].ps1 && code[j].pd != code[i].ps2)
    && (forall i :: 0 <= i < |code| ==> code[i].pd != 0)
  }

  ghost predicate Mentions(code: seq<Renamed>, p: nat) {
    exists k :: 0 <= k < |code| && (code[k].pd == p || code[k].ps1 == p || code[k].ps2 == p)
  }

  lemma {:induction false} QueueSingleAssignment(o: Outcome, prog: seq<Instr>, numPhys: nat)
    requires Sound(o.state, numPhys) && AllInRange(prog, |o.state.rat|)
    requires SingleAssignment(QueueCode(o.state.iq)) && RenamedInRange(QueueCode(o.state.iq), numPhys)
    requires forall p :: p in o.state.free ==> !Mentions(QueueCode(o.state.iq), p)
    ensures var code := QueueCode(RenameFrom(o, prog).state.iq);
            SingleAssignment(code) && RenamedInRange(code, numPhys)
    decreases |prog|
  {
    if prog != [] {
      if o.ok && CanRename(o.state, prog[0]) && prog[0].dst != 0 {
        QueueStep(o.state, prog[0], numPhys);
      }
      if o.ok && CanRename(o.state, prog[0]) {
        SoundStep(o.state, prog[0], numPhys);
      }
      QueueSingleAssignment(Advance(o, prog[0]), prog[1..], numPhys);
    }
  }

  lemma QueueStep(s: State, i: Instr, numPhys: nat)
    requires Sound(s, numPhys) && InRange(i, |s.rat|) && CanRename(s, i) && i.dst != 0
    requires SingleAssignment(QueueCode(s.iq)) && RenamedInRange(QueueCode(s.iq), numPhys)
    requires forall p :: p in s.free ==> !Mentions(QueueCode(s.iq), p)
    ensures var s' := RenameOne(s, i);
            && SingleAssignment(QueueCode(s'.iq)) && RenamedInRange(QueueCode(s'.iq), numPhys)
            && forall p :: p in s'.free ==> !Mentions(QueueCode(s'.iq), p)
  {
    var code, r, s' := QueueCode(s.iq), RenamedOne(s, i), RenameOne(s, i);
    var code' := QueueCode(s'.iq);
    assert code' == code + [r];
    SoundFree(s, numPhys);
    assert r.pd in s.free;
    assert !Mentions(code, r.pd);
    assert s.rat[i.src1] in s.rat && s.rat[i.src2] in s.rat;
    forall p | p in s'.free
      ensures !Mentions(code', p)
    {
      var j :| 0 <= j < |s'.free| && s'.free[j] == p;
      assert s.free[j + 1] == p;
      assert p in s.free;
      assert p != r.pd && p !in s.rat;
      forall k | 0 <= k < |code'|
        ensures code'[k].pd != p && code'[k].ps1 != p && code'[k].ps2 != p
      {
        assert k < |code| ==> code'[k] == code[k];
      }
    }
    forall a, b | 0 <= a < b < |code'|
      ensures code'[a].pd != code'[b].pd
    {
      assert code'[a] == code[a];
      assert b < |code| ==> code'[b] == code[b];
    }
    forall a, b | 0 <= a <= b < |code'|
      ensures code'[b].pd != code'[a].ps1 && code'[b].pd != code'[a].ps2
    {
      assert a < |code| ==> code'[a] == code[a];
      assert b < |code| ==> code'[b] == code[b];
    }
  }

  // ---------------------------------------------------------------------
  // Schedules
  // ---------------------------------------------------------------------

  /** The order runs every queue entry once. */
  ghost predicate EachOnce(code: seq<Renamed>, order: seq<nat>) {
    && |order| == |code|
    && (forall a :: 0 <= a < |order| ==> order[a] < |code|)
    && (forall k :: 0 <= k < |code| ==> k in order)
    && Distinct(order)
  }

  /** A legal schedule also runs each source's producer before its consumer. */
  ghost predicate Legal(code: seq<Renamed>, order: seq<nat>) {
    EachOnce(code, order) && Ready(code, order)
  }

  predicate Feeds(producer: Renamed, consumer: Renamed) {
    producer.pd == consumer.ps1 || producer.pd == consumer.ps2
  }

  /** In this order of running, every producer is ahead of its consumers. */
  ghost predicate Ready(code: seq<Renamed>, rest: seq<nat>)
    requires forall a :: 0 <= a < |rest| ==> rest[a] < |code|
  {
    forall a, b :: 0 <= a < |rest| && 0 <= b < |rest| && Feeds(code[rest[a]], code[rest[b]]) ==> a < b
  }

  function Pick(code: seq<Renamed>, order: seq<nat>): (picked: seq<Renamed>)
    requires forall a :: 0 <= a < |order| ==> order[a] < |code|
    ensures |picked| == |order|
  {
    seq(|order|, a requires 0 <= a < |order| => code[order[a]])
  }

  /** The register file after which no more entries run: each entry's register
      holds its opcode applied to the final values of its sources, all else is as
      at the start. */
  ghost predicate Settled<V>(f: Semantics<V>, prf: seq<V>, code: seq<Renamed>, final: seq<V>)
    requires RenamedInRange(code, |prf|)
  {
    && |final| == |prf|
    && (forall k :: 0 <= k < |code| ==> final[code[k].pd] == f(code[k].op, final[code[k].ps1], final[code[k].ps2]))
    && forall p :: 0 <= p < |prf| && (forall k :: 0 <= k < |code| ==> code[k].pd != p) ==> final[p] == prf[p]
  }

  lemma {:induction false} UnwrittenKept<V>(f: Semantics<V>, prf: seq<V>, code: seq<Renamed>, p: nat)
    requires RenamedInRange(code, |prf|) && p < |prf|
    requires forall k :: 0 <= k < |code| ==> code[k].pd != p
    ensures PhysRun(f, prf, code)[p] == prf[p]
    decreases |code|
  {
    if code != [] {
      UnwrittenKept(f, PhysStep(f, prf, code[0]), code[1..], p);
    }
  }

  /** Program order settles a single-assignment queue. */
  lemma {:induction false} ProgramOrderSettles<V>(f: Semantics<V>, prf: seq<V>, code: seq<Renamed>)
    requires RenamedInRange(code, |prf|) && SingleAssignment(code)
    ensures Settled(f, prf, code, PhysRun(f, prf, code))
    decreases |code|
  {
    if code != [] {
      ProgramOrderSettles(f, PhysStep(f, prf, code[0]), code[1..]);
      FirstSettles(f, prf, code);
      var final := PhysRun(f, prf, code);
      forall k | 0 <= k < |code|
        ensures final[code[k].pd] == f(code[k].op, final[code[k].ps1], final[code[k].ps2])
      {
        assert k > 0 ==> code[k] == code[1..][k - 1];
      }
      forall p | 0 <= p < |prf| && (forall k :: 0 <= k < |code| ==> code[k].pd != p)
        ensures final[p] == prf[p]
      {
        UnwrittenKept(f, prf, code, p);
      }
    }
  }

  /** The first entry's value and sources stay as they are while the rest run. */
  lemma FirstSettles<V>(f: Semantics<V>, prf: seq<V>, code: seq<Renamed>)
    requires RenamedInRange(code, |prf|) && SingleAssignment(code) && code != []
    ensures var c, final := code[0], PhysRun(f, prf, code);
            final[c.pd] == f(c.op, final[c.ps1], final[c.ps2])
  {
    var c, next := code[0], PhysStep(f, prf, code[0]);
    UnwrittenKept(f, next, code[1..], c.pd);
    UnwrittenKept(f, next, code[1..], c.ps1);
    UnwrittenKept(f, next, code[1..], c.ps2);
  }

  /** Mid-schedule: registers of entries still to run are untouched, all others
      already hold their settled value. */
  ghost predicate Partway<V>(prf: seq<V>, code: seq<Renamed>, rest: seq<nat>, final: seq<V>, cur: seq<V>)
    requires forall a :: 0 <= a < |rest| ==> rest[a] < |code|
  {
    && |cur| == |prf| == |final|
    && forall p :: 0 <= p < |prf| ==>
         (forall a :: 0 <= a < |rest| ==> code[rest[a]].pd != p) ==> cur[p] == final[p]
  }

  /** Running the next entry, its operands settled, keeps the schedule on its way. */
  lemma PartwayNext<V>(f: Semantics<V>, prf: seq<V>, code: seq<Renamed>, rest: seq<nat>, final: seq<V>, cur: seq<V>)
    requires RenamedInRange(code, |prf|) && Settled(f, prf, code, final) && rest != []
    requires forall a :: 0 <= a < |rest| ==> rest[a] < |code|
    requires Partway(prf, code, rest, final, cur) && code[rest[0]].pd != 0
    requires var e := code[rest[0]]; cur[e.ps1] == final[e.ps1] && cur[e.ps2] == final[e.ps2]
    ensures Partway(prf, code, rest[1..], final, PhysStep(f, cur, code[rest[0]]))
  {
    var e, tail := code[rest[0]], rest[1..];
    var next := PhysStep(f, cur, e);
    forall p | 0 <= p < |prf| && forall a :: 0 <= a < |tail| ==> code[tail[a]].pd != p
      ensures next[p] == final[p]
    {
      if p != e.pd {
        forall a | 0 <= a < |rest|
          ensures code[rest[a]].pd != p
        {
          assert a > 0 ==> rest[a] == tail[a - 1];
        }
      }
    }
  }

  lemma {:induction false} ScheduleConverges<V>(f: Semantics<V>, prf: seq<V>, code: seq<Renamed>, rest: seq<nat>,
                                                final: seq<V>, cur: seq<V>)
    requires RenamedInRange(code, |prf|) && Settled(f, prf, code, final)
    requires forall a :: 0 <= a < |rest| ==> rest[a] < |code|
    requires forall a :: 0 <= a < |rest| ==> code[rest[a]].pd != 0
    requires Ready(code, rest) && Partway(prf, code, rest, final, cur)
    ensures RenamedInRange(Pick(code, rest), |cur|)
    ensures PhysRun(f, cur, Pick(code, rest)) == final
    decreases |rest|
  {
    if rest != [] {
      var e := code[rest[0]];
      var tail := rest[1..];
      assert Pick(code, rest)[1..] == Pick(code, tail);
      forall a | 0 <= a < |rest|
        ensures code[rest[a]].pd != e.ps1 && code[rest[a]].pd != e.ps2
      {
        assert Feeds(code[rest[a]], code[rest[0]]) ==> a < 0;
      }
      assert cur[e.ps1] == final[e.ps1] && cur[e.ps2] == final[e.ps2];
      var next := PhysStep(f, cur, e);
      PartwayNext(f, prf, code, rest, final, cur);
      forall a, b | 0 <= a < |tail| && 0 <= b < |tail| && Feeds(code[tail[a]], code[tail[b]])
        ensures a < b
      {
        assert tail[a] == rest[a + 1] && tail[b] == rest[b + 1];
      }
      ScheduleConverges(f, prf, code, tail, final, next);
    }
  }

  /** Every legal schedule of a single-assignment queue leaves the register file
      program order leaves. */
  lemma SchedulesAgree<V>(f: Semantics<V>, prf: seq<V>, code: seq<Renamed>, order: seq<nat>)
    requires RenamedInRange(code, |prf|) && SingleAssignment(code) && Legal(code, order)
    ensures RenamedInRange(Pick(code, order), |prf|)
    ensures PhysRun(f, prf, Pick(code, order)) == PhysRun(f, prf, code)
  {
    var final := PhysRun(f, prf, code);
    ProgramOrderSettles(f, prf, code);
    assert Partway(prf, code, order, final, prf) by {
      forall p | 0 <= p < |prf| && forall a :: 0 <= a < |order| ==> code[order[a]].pd != p
        ensures prf[p] == final[p]
      {
        forall k | 0 <= k < |code|
          ensures code[k].pd != p
        {
          assert k in order;
        }
      }
    }
    ScheduleConverges(f, prf, code, order, final, prf);
  }

  /** Program order is itself a legal schedule of every such queue. */
  lemma ProgramOrderIsLegal(code: seq<Renamed>)
    requires SingleAssignment(code)
    ensures Legal(code, Range(0, |code|))
  {
    var order := Range(0, |code|);
    forall k | 0 <= k < |code|
      ensures k in order
    {
      assert order[k] == k;
    }
  }

  /** Main result: rename any program, then run the issue queue out of order under
      any legal schedule; every architectural register, read through the final RAT,
      holds what sequential execution of the program gives it. */
  lemma OutOfOrderIsSequential<V>(f: Semantics<V>, numArch: nat, prog: seq<Instr>, prf: seq<V>, order: seq<nat>)
    requires 0 < numArch <= |prf| && AllInRange(prog, numArch)
    requires RenameAll(InitialState(numArch, |prf|), prog).ok
    requires Legal(QueueCode(RenameAll(InitialState(numArch, |prf|), prog).state.iq), order)
    ensures var s := RenameAll(InitialState(numArch, |prf|), prog).state;
            && RenamedInRange(Pick(QueueCode(s.iq), order), |prf|)
            && Sees(ArchRun(f, prf[..numArch], prog), PhysRun(f, prf, Pick(QueueCode(s.iq), order)), s.rat)
  {
    var init := InitialState(numArch, |prf|);
    var o := RenameAll(init, prog);
    assert Held(init) == Range(0, |prf|);
    RenamingPreservesMeaning(f, numArch, prog, prf);
    QueueHoldsWriters(init, prog, |prf|);
    assert QueueCode(init.iq) + WritersOf(o.renamed) == WritersOf(o.renamed);
    SkippingNonWriters(f, prf, o.renamed);
    QueueSingleAssignment(Outcome(init, [], true), prog, |prf|);
    SchedulesAgree(f, prf, QueueCode(o.state.iq), order);
  }
}
