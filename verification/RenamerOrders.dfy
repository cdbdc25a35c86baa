/** The schedules of the issue queue of tools/rename_mcf.py that leave the register file
    of program order: exactly those that run every producer before its consumers. */
module RenamerOrders {
  import opened Renamer
  import opened RenamerMeaning

  /** A value as how it came about: the starting value of a register, or an opcode
      applied to two such values. */
  datatype Term = Initial(reg: nat) | Apply(op: string, left: Term, right: Term)

  function ApplyOp(op: string, left: Term, right: Term): Term {
    Apply(op, left, right)
  }

  /** Every register starts with a value of its own. */
  function Initials(n: nat): (prf: seq<Term>)
    ensures |prf| == n
  {
    seq(n, k requires 0 <= k < n => Initial(k))
  }

  lemma {:induction false} RunConcat<V>(f: Semantics<V>, prf: seq<V>, a: seq<Renamed>, b: seq<Renamed>)
    requires RenamedInRange(a, |prf|) && RenamedInRange(b, |prf|)
    ensures RenamedInRange(a + b, |prf|)
    ensures PhysRun(f, prf, a + b) == PhysRun(f, PhysRun(f, prf, a), b)
    decreases |a|
  {
    if a == [] {
      assert a + b == b;
    } else {
      RunConcat(f, PhysStep(f, prf, a[0]), a[1..], b);
      assert (a + b)[1..] == a[1..] + b;
    }
  }

  /** In a run that writes no register twice, the value an entry leaves is its opcode
      applied to what its sources held when its turn came. */
  lemma WrittenOnce<V>(f: Semantics<V>, prf: seq<V>, code: seq<Renamed>, b: nat)
    requires RenamedInRange(code, |prf|) && b < |code| && code[b].pd != 0
    requires forall i, j :: 0 <= i < j < |code| ==> code[i].pd != code[j].pd
    ensures RenamedInRange(code[..b], |prf|)
    ensures var c, before := code[b], PhysRun(f, prf, code[..b]);
      PhysRun(f, prf, code)[c.pd] == f(c.op, before[c.ps1], before[c.ps2])
  {
    OthersDiffer(code, b, code[b + 1..]);
    WrittenBetween(f, prf, code[..b], code[b], code[b + 1..]);
  }

  lemma OthersDiffer(code: seq<Renamed>, b: nat, rest: seq<Renamed>)
    requires b < |code| && rest == code[b + 1..]
    requires forall i, j :: 0 <= i < j < |code| ==> code[i].pd != code[j].pd
    ensures code == code[..b] + ([code[b]] + rest)
    ensures forall k :: 0 <= k < |rest| ==> rest[k].pd != code[b].pd
  {
    assert forall k :: 0 <= k < |rest| ==> rest[k] == code[b + 1 + k];
  }

  lemma WrittenBetween<V>(f: Semantics<V>, prf: seq<V>, front: seq<Renamed>, c: Renamed, rest: seq<Renamed>)
    requires RenamedInRange(front, |prf|) && Fits(c, |prf|) && RenamedInRange(rest, |prf|) && c.pd != 0
    requires forall k :: 0 <= k < |rest| ==> rest[k].pd != c.pd
    ensures RenamedInRange(front + ([c] + rest), |prf|)
    ensures var before := PhysRun(f, prf, front);
      PhysRun(f, prf, front + ([c] + rest))[c.pd] == f(c.op, before[c.ps1], before[c.ps2])
  {
    var before := PhysRun(f, prf, front);
    PhysCons(f, before, c, rest);
    RunConcat(f, prf, front, [c] + rest);
    UnwrittenKept(f, PhysStep(f, before, c), rest, c.pd);
  }

  /** A consumer that runs before its producer, or as it, reads a starting value. */
  lemma ReadsInitial(code: seq<Renamed>, n: nat, a: nat, b: nat)
    requires RenamedInRange(code, n) && b <= a < |code| && code[b].pd != 0 && Feeds(code[a], code[b])
    requires forall i, j :: 0 <= i < j < |code| ==> code[i].pd != code[j].pd
    ensures var c, p := code[b], code[a].pd;
      var left := PhysRun(ApplyOp, Initials(n), code)[c.pd];
      left.Apply? && (if p == c.ps1 then left.left == Initial(p) else left.right == Initial(p))
  {
    var c, p := code[b], code[a].pd;
    WrittenOnce(ApplyOp, Initials(n), code, b);
    forall k | 0 <= k < b
      ensures code[..b][k].pd != p
    {
      assert code[k].pd != code[a].pd;
    }
    UnwrittenKept(ApplyOp, Initials(n), code[..b], p);
  }

  lemma NotReadyDiffers(code: seq<Renamed>, order: seq<nat>, n: nat)
    requires RenamedInRange(code, n) && SingleAssignment(code) && EachOnce(code, order)
    requires !Ready(code, order)
    ensures RenamedInRange(Pick(code, order), n)
    ensures PhysRun(ApplyOp, Initials(n), Pick(code, order)) != PhysRun(ApplyOp, Initials(n), code)
  {
    var picked := Pick(code, order);
    var a, b :| 0 <= a < |order| && 0 <= b < |order| && Feeds(code[order[a]], code[order[b]]) && b <= a;
    forall i, j | 0 <= i < j < |picked|
      ensures picked[i].pd != picked[j].pd
    {
      assert order[i] != order[j];
    }
    ReadsInitial(picked, n, a, b);
    ProgramOrderSettles(ApplyOp, Initials(n), code);
    var final := PhysRun(ApplyOp, Initials(n), code);
    var producer, consumer := code[order[a]], code[order[b]];
    assert final[producer.pd].Apply?;
    assert final[consumer.pd] == Apply(consumer.op, final[consumer.ps1], final[consumer.ps2]);
  }

  /** Main result: an order that runs every entry once leaves the register file of
      program order, whatever the opcodes compute and the registers hold, if and only
      if it runs every producer before its consumers.  Running it on terms decides. */
  lemma SchedulesAgreeExactly(code: seq<Renamed>, order: seq<nat>, n: nat)
    requires RenamedInRange(code, n) && SingleAssignment(code) && EachOnce(code, order)
    ensures RenamedInRange(Pick(code, order), n)
    ensures PhysRun(ApplyOp, Initials(n), Pick(code, order)) == PhysRun(ApplyOp, Initials(n), code) <==>
            Ready(code, order)
  {
    if Ready(code, order) {
      SchedulesAgree(ApplyOp, Initials(n), code, order);
    } else {
      NotReadyDiffers(code, order, n);
    }
  }

  /** So when the two runs on terms agree, the two runs agree for every reading of the
      opcodes and every register file. */
  lemma TermsDecide<V>(code: seq<Renamed>, order: seq<nat>, f: Semantics<V>, prf: seq<V>)
    requires RenamedInRange(code, |prf|) && SingleAssignment(code) && EachOnce(code, order)
    requires RenamedInRange(Pick(code, order), |prf|)
    requires PhysRun(ApplyOp, Initials(|prf|), Pick(code, order)) == PhysRun(ApplyOp, Initials(|prf|), code)
    ensures PhysRun(f, prf, Pick(code, order)) == PhysRun(f, prf, code)
  {
    SchedulesAgreeExactly(code, order, |prf|);
    SchedulesAgree(f, prf, code, order);
  }
}
