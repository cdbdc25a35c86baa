/** The register renamer of tools/rename_mcf.py.

    `RenameUnit` is the script's module state (RAT, freelist, ROB, IQ) with its
    group loop, which reads a snapshot of the RAT overlaid by the names given
    inside the group.  `RenameAll` is the reference it is proved against: one
    instruction at a time, always reading the live RAT. */
module Renamer {

  /** One architectural instruction; destination 0 means "writes no register". */
  datatype Instr = Instr(op: string, dst: nat, src1: nat, src2: nat)

  datatype RobEntry = RobEntry(logical: nat, oldReg: nat, newReg: nat)

  datatype IqEntry = IqEntry(op: string, ps1: nat, ps2: nat, pd: nat, rob: nat)

  /** The renamed instruction the script prints; p0 stands for "no destination". */
  datatype Renamed = Renamed(op: string, pd: nat, ps1: nat, ps2: nat)

  datatype State = State(rat: seq<nat>, free: seq<nat>, rob: seq<RobEntry>, iq: seq<IqEntry>)

  /** What renaming a program leaves behind: `ok` is false when the free list ran out. */
  datatype Outcome = Outcome(state: State, renamed: seq<Renamed>, ok: bool)

  predicate InRange(i: Instr, numArch: nat) {
    i.dst < numArch && i.src1 < numArch && i.src2 < numArch
  }

  predicate AllInRange(prog: seq<Instr>, numArch: nat) {
    forall k :: 0 <= k < |prog| ==> InRange(prog[k], numArch)
  }

  /** lo, lo+1, .., hi-1 */
  function Range(lo: nat, hi: nat): (r: seq<nat>)
    requires lo <= hi
  {
    seq(hi - lo, k requires 0 <= k => lo + k)
  }

  function InitialState(numArch: nat, numPhys: nat): State
    requires numArch <= numPhys
  {
    State(Range(0, numArch), Range(numArch, numPhys), [], [])
  }

  // ---------------------------------------------------------------------
  // The reference: one instruction at a time
  // ---------------------------------------------------------------------

  predicate CanRename(s: State, i: Instr) {
    i.dst == 0 || s.free != []
  }

  function RenameOne(s: State, i: Instr): State
    requires InRange(i, |s.rat|) && CanRename(s, i)
  {
    if i.dst == 0 then s else
    var p := s.free[0];
    State(s.rat[i.dst := p],
          s.free[1..],
          s.rob + [RobEntry(i.dst, s.rat[i.dst], p)],
          s.iq + [IqEntry(i.op, s.rat[i.src1], s.rat[i.src2], p, |s.rob|)])
  }

  function RenamedOne(s: State, i: Instr): Renamed
    requires InRange(i, |s.rat|) && CanRename(s, i)
  {
    Renamed(i.op, if i.dst == 0 then 0 else s.free[0], s.rat[i.src1], s.rat[i.src2])
  }

  function Advance(o: Outcome, i: Instr): (o': Outcome)
    requires InRange(i, |o.state.rat|)
    ensures |o'.state.rat| == |o.state.rat|
  {
    if !o.ok then o
    else if !CanRename(o.state, i) then o.(ok := false)
    else Outcome(RenameOne(o.state, i), o.renamed + [RenamedOne(o.state, i)], true)
  }

  function RenameFrom(o: Outcome, prog: seq<Instr>): (o': Outcome)
    requires AllInRange(prog, |o.state.rat|)
    ensures |o'.state.rat| == |o.state.rat|
    ensures !o.ok ==> o' == o
    decreases |prog|
  {
    if prog == [] then o else RenameFrom(Advance(o, prog[0]), prog[1..])
  }

  function RenameAll(s: State, prog: seq<Instr>): (o: Outcome)
    requires AllInRange(prog, |s.rat|)
    ensures |o.state.rat| == |s.rat|
  {
    RenameFrom(Outcome(s, [], true), prog)
  }

  /** Renaming a + b is renaming a, then b from where a stopped. */
  lemma {:induction false} RenameConcat(o: Outcome, a: seq<Instr>, b: seq<Instr>)
    requires AllInRange(a, |o.state.rat|) && AllInRange(b, |o.state.rat|)
    ensures AllInRange(a + b, |o.state.rat|)
    ensures RenameFrom(o, a + b) == RenameFrom(RenameFrom(o, a), b)
    decreases |a|
  {
    if a == [] {
      assert a + b == b;
    } else {
      assert (a + b)[0] == a[0] && (a + b)[1..] == a[1..] + b;
      RenameConcat(Advance(o, a[0]), a[1..], b);
    }
  }

  /** The instructions already printed only prefix those still to come. */
  lemma {:induction false} RenamedPrefix(s: State, before: seq<Renamed>, ahead: seq<Renamed>, prog: seq<Instr>)
    requires AllInRange(prog, |s.rat|)
    ensures var o := RenameFrom(Outcome(s, ahead, true), prog);
            RenameFrom(Outcome(s, before + ahead, true), prog) == o.(renamed := before + o.renamed)
    decreases |prog|
  {
    if prog != [] && CanRename(s, prog[0]) {
      var next := ahead + [RenamedOne(s, prog[0])];
      assert before + ahead + [RenamedOne(s, prog[0])] == before + next;
      RenamedPrefix(RenameOne(s, prog[0]), before, next, prog[1..]);
    }
  }

  /** The reference, read from the front. */
  lemma RenameCons(s: State, prog: seq<Instr>)
    requires AllInRange(prog, |s.rat|) && prog != []
    ensures !CanRename(s, prog[0]) ==> RenameAll(s, prog) == Outcome(s, [], false)
    ensures CanRename(s, prog[0]) ==>
      var rest := RenameAll(RenameOne(s, prog[0]), prog[1..]);
      RenameAll(s, prog) == Outcome(rest.state, [RenamedOne(s, prog[0])] + rest.renamed, rest.ok)
  {
    if CanRename(s, prog[0]) {
      var r := RenamedOne(s, prog[0]);
      assert [] + [r] == [r] + [];
      RenamedPrefix(RenameOne(s, prog[0]), [r], [], prog[1..]);
    }
  }

  // ---------------------------------------------------------------------
  // The implementation: a group against a snapshot and an intra-group map
  // ---------------------------------------------------------------------

  /** A register's name inside a group: the newest one the group gave it, else
      the one it had when the group started. */
  function Lookup(intra: map<nat, nat>, ratSnap: seq<nat>, r: nat): nat
    requires r < |ratSnap|
  {
    if r in intra then intra[r] else ratSnap[r]
  }

  /** The live RAT is the snapshot overlaid by the group's own names. */
  ghost predicate Overlays(rat: seq<nat>, ratSnap: seq<nat>, intra: map<nat, nat>) {
    && |rat| == |ratSnap|
    && forall r :: 0 <= r < |rat| ==> rat[r] == Lookup(intra, ratSnap, r)
  }

  class RenameUnit {
    const numArch: nat
    const numPhys: nat
    var rat: seq<nat>
    var freelist: seq<nat>
    var rob: seq<RobEntry>
    var iq: seq<IqEntry>

    ghost predicate Valid()
      reads this
    {
      |rat| == numArch
    }

    function Abs(): State
      reads this
    {
      State(rat, freelist, rob, iq)
    }

    constructor (numArch: nat, numPhys: nat)
      requires numArch <= numPhys
      ensures Valid()
      ensures this.numArch == numArch && this.numPhys == numPhys
      ensures Abs() == InitialState(numArch, numPhys)
    {
      this.numArch, this.numPhys := numArch, numPhys;
      rat := Range(0, numArch);
      freelist := Range(numArch, numPhys);
      rob, iq := [], [];
    }

    /** Takes the next free register for instruction i's destination and logs it. */
    method Allocate(i: Instr, pSrc1: nat, pSrc2: nat, oldP: nat) returns (newP: nat)
      requires Valid() && InRange(i, numArch) && i.dst != 0 && freelist != []
      requires pSrc1 == rat[i.src1] && pSrc2 == rat[i.src2] && oldP == rat[i.dst]
      modifies this
      ensures Valid()
      ensures newP == old(freelist[0])
      ensures Abs() == RenameOne(old(Abs()), i)
    {
      newP := freelist[0];
      freelist := freelist[1..];
      rat := rat[i.dst := newP];
      rob := rob + [RobEntry(i.dst, oldP, newP)];
      var robIdx := |rob| - 1;
      iq := iq + [IqEntry(i.op, pSrc1, pSrc2, newP, robIdx)];
    }

    /** Renames one group.  Returns the printed renamed instructions, and false
        when an instruction found the free list empty (the script raises there,
        the instructions before it already renamed). */
    method RenameGroup(group: seq<Instr>) returns (renamed: seq<Renamed>, ok: bool)
      requires Valid() && AllInRange(group, numArch)
      modifies this
      ensures Valid()
      ensures Outcome(Abs(), renamed, ok) == RenameAll(old(Abs()), group)
    {
      ghost var start := Outcome(Abs(), [], true);
      var ratSnap := rat;
      var intra: map<nat, nat> := map[];
      renamed, ok := [], true;
      var i := 0;
      while i < |group|
        invariant 0 <= i <= |group|
        invariant Valid() && |ratSnap| == numArch && ok
        invariant Overlays(rat, ratSnap, intra)
        invariant RenameFrom(Outcome(Abs(), renamed, true), group[i..]) == RenameFrom(start, group)
      {
        ghost var cur := Abs();
        var Instr(op, dst, src1, src2) := group[i];
        var pSrc1 := Lookup(intra, ratSnap, src1);
        var pSrc2 := Lookup(intra, ratSnap, src2);
        assert pSrc1 == rat[src1] && pSrc2 == rat[src2];
        assert group[i..][0] == group[i] && group[i..][1..] == group[i + 1..];
        var newP := 0;
        if dst != 0 {
          if freelist == [] {
            ok := false;
            return;
          }
          var oldP := Lookup(intra, ratSnap, dst);
          newP := Allocate(group[i], pSrc1, pSrc2, oldP);
          intra := intra[dst := newP];
        }
        renamed := renamed + [Renamed(op, newP, pSrc1, pSrc2)];
        i := i + 1;
      }
    }

    /** The driver: cuts the program into groups of `width` and renames them in
        order, stopping at the first that runs out of physical registers. */
    method RenameProgram(prog: seq<Instr>, width: nat) returns (renamed: seq<Renamed>, ok: bool)
      requires Valid() && AllInRange(prog, numArch) && width > 0
      modifies this
      ensures Valid()
      ensures Outcome(Abs(), renamed, ok) == RenameAll(old(Abs()), prog)
    {
      ghost var start := Outcome(Abs(), [], true);
      renamed, ok := [], true;
      var i := 0;
      while i < |prog|
        invariant 0 <= i <= |prog|
        invariant Valid() && ok
        invariant RenameFrom(Outcome(Abs(), renamed, true), prog[i..]) == RenameFrom(start, prog)
      {
        ghost var before := Outcome(Abs(), renamed, true);
        var end := if i + width < |prog| then i + width else |prog|;
        var group := prog[i..end];
        assert prog[i..] == group + prog[end..];
        RenameConcat(before, group, prog[end..]);
        assert renamed + [] == renamed;
        RenamedPrefix(Abs(), renamed, [], group);
        var more, fine := RenameGroup(group);
        renamed := renamed + more;
        if !fine {
          ok := false;
          return;
        }
        i := end;
      }
    }
  }
}
