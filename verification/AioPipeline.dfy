/**
 * The asynchronous transfer as a step system. The program and the kernel take turns in any order:
 * the kernel may complete any pending request at any moment, the program may visit any slot.
 */
module AioPipeline {
  import opened Common
  import opened AioSpec

  datatype Op = Unused | ReadPending | WritePending

  /**
   * One entry of the request table. `done` and `ret` are what `aio_error` and `aio_return` report;
   * `listed` says whether the entry is on the list handed to `aio_suspend`.
   */
  datatype Slot = Slot(op: Op, last: bool, offset: nat, nbytes: nat, data: seq<Byte>,
                       done: bool, ret: nat, listed: bool) {
    predicate Busy() {
      op != Unused
    }

    function Weight(): nat {
      match op
      case Unused => 0
      case ReadPending => 2
      case WritePending => 1
    }
  }

  function BusyCount(slots: seq<Slot>): nat {
    if slots == [] then 0 else (if slots[0].Busy() then 1 else 0) + BusyCount(slots[1..])
  }

  function TotalWeight(slots: seq<Slot>): nat {
    if slots == [] then 0 else slots[0].Weight() + TotalWeight(slots[1..])
  }

  /** The number of blocks of `block` bytes needed for `left` more bytes. */
  function Blocks(left: int, block: nat): nat
    requires block > 0
    decreases if left > 0 then left else 0
  {
    if left <= 0 then 0 else 1 + Blocks(left - block, block)
  }

  /** `o` is one of 0, `block`, 2 * `block`, ... */
  predicate OnGrid(o: nat, block: nat) {
    o == 0 || (0 < block <= o && OnGrid(o - block, block))
  }

  /** The byte at `x` has reached the output, translated. */
  predicate Correct(input: seq<Byte>, out: seq<Byte>, x: nat)
    requires x < |input|
  {
    x < |out| && out[x] == Translate(input[x])
  }

  datatype Pipe = Pipe(input: seq<Byte>, block: nat, slots: seq<Slot>, off: nat, opNum: int, out: seq<Byte>) {
    /** The number of bytes of the block at `o`: short only for the final block. */
    function Extent(o: nat): nat
      requires o <= |input|
    {
      Min(block, |input| - o)
    }

    predicate Holds(i: int, x: int) {
      0 <= i < |slots| && slots[i].Busy() && slots[i].offset <= x < slots[i].offset + block
    }

    predicate SlotOk(s: Slot) {
      && |s.data| == block
      && s.listed == s.Busy()
      && (!s.Busy() && s.last ==> off >= |input|)
      && (s.Busy() ==>
            && block > 0
            && OnGrid(s.offset, block)
            && s.offset + block <= off
            && s.offset < |input|
            && (s.last <==> s.offset + block >= |input|)
            && (s.op == ReadPending ==> s.nbytes == block)
            && (s.op == ReadPending && s.done ==>
                  && s.ret == Extent(s.offset)
                  && s.data[..s.ret] == input[s.offset..s.offset + s.ret])
            && (s.op == WritePending ==>
                  && s.nbytes == Extent(s.offset)
                  && s.data[..s.nbytes] == TranslateAll(input[s.offset..s.offset + s.nbytes])
                  && (s.done ==>
                        && s.ret == s.nbytes
                        && forall x | s.offset <= x < s.offset + s.nbytes :: Correct(input, out, x))))
    }

    predicate Apart(i: int, j: int) {
      0 <= i < j < |slots| && slots[i].Busy() && slots[j].Busy() ==>
        slots[i].offset + block <= slots[j].offset || slots[j].offset + block <= slots[i].offset
    }

    /** No byte of the file belongs to two requests. */
    ghost predicate Disjoint() {
      forall i, j :: Apart(i, j)
    }

    /** Every byte read so far is in the output or on its way there. */
    predicate Covered() {
      forall x | 0 <= x < off && x < |input| :: Correct(input, out, x) || exists i | 0 <= i < |slots| :: Holds(i, x)
    }

    ghost predicate Inv() {
      && block > 0
      && OnGrid(off, block)
      && (off == 0 || off - block < |input|)
      && |out| <= |input|
      && opNum == BusyCount(slots)
      && (forall i {:trigger SlotOk(slots[i])} | 0 <= i < |slots| :: SlotOk(slots[i]))
      && Disjoint()
      && Covered()
    }

    /** The condition under which the program leaves its main loop. */
    predicate Finished() {
      opNum == 0 && off >= |input|
    }

    function Measure(): nat
      requires block > 0
    {
      3 * Blocks(|input| - off, block) + TotalWeight(slots)
    }

    predicate IsInit() {
      && block > 0 && off == 0 && opNum == 0 && out == []
      && forall i | 0 <= i < |slots| ::
           slots[i].op == Unused && !slots[i].listed && !slots[i].last && |slots[i].data| == block
    }
  }

  datatype Step = Issue(i: nat) | StartWrite(i: nat) | Retire(i: nat) | KernelRead(i: nat) | KernelWrite(i: nat) {
    predicate ByProgram() {
      Issue? || StartWrite? || Retire?
    }
  }

  predicate Enabled(p: Pipe, st: Step) {
    && p.block > 0
    && st.i < |p.slots|
    && var s := p.slots[st.i];
       match st
       case Issue(_) => s.op == Unused && p.off < |p.input|
       case StartWrite(_) => s.op == ReadPending && s.done && s.ret <= |s.data|
       case Retire(_) => s.op == WritePending && s.done
       case KernelRead(_) => s.op == ReadPending && !s.done && s.offset <= |p.input| && s.nbytes <= |s.data|
       case KernelWrite(_) => s.op == WritePending && !s.done && s.nbytes <= |s.data|
  }

  function Apply(p: Pipe, st: Step): Pipe
    requires Enabled(p, st)
  {
    var s := p.slots[st.i];
    match st
    case Issue(i) =>
      var off' := p.off + p.block;
      p.(off := off', opNum := p.opNum + 1,
         slots := p.slots[i := s.(op := ReadPending, offset := p.off, nbytes := p.block, done := false,
                                  last := s.last || off' >= |p.input|, listed := true)])
    case StartWrite(i) =>
      p.(slots := p.slots[i := s.(op := WritePending, nbytes := s.ret, done := false,
                                  data := TranslateAll(s.data[..s.ret]) + s.data[s.ret..])])
    case Retire(i) =>
      p.(opNum := p.opNum - 1, slots := p.slots[i := s.(op := Unused, listed := false)])
    case KernelRead(i) =>
      var n := Min(s.nbytes, |p.input| - s.offset);
      p.(slots := p.slots[i := s.(data := p.input[s.offset..s.offset + n] + s.data[n..], done := true, ret := n)])
    case KernelWrite(i) =>
      p.(out := WriteAt(p.out, s.offset, s.data[..s.nbytes]),
         slots := p.slots[i := s.(done := true, ret := s.nbytes)])
  }

  // ----- counting over the table -----

  lemma {:induction false} CountUpdate(slots: seq<Slot>, i: nat, s: Slot)
    requires i < |slots|
    ensures BusyCount(slots[i := s]) + (if slots[i].Busy() then 1 else 0)
         == BusyCount(slots) + (if s.Busy() then 1 else 0)
    ensures TotalWeight(slots[i := s]) + slots[i].Weight() == TotalWeight(slots) + s.Weight()
  {
    if i == 0 {
      assert slots[i := s][1..] == slots[1..];
    } else {
      CountUpdate(slots[1..], i - 1, s);
      assert slots[i := s][1..] == slots[1..][i - 1 := s];
    }
  }

  lemma {:induction false} CountZero(slots: seq<Slot>)
    ensures BusyCount(slots) == 0 <==> forall i | 0 <= i < |slots| :: !slots[i].Busy()
    ensures BusyCount(slots) == 0 <==> TotalWeight(slots) == 0
  {
    if slots != [] {
      CountZero(slots[1..]);
      assert forall i | 1 <= i < |slots| :: slots[i] == slots[1..][i - 1];
      if forall i | 0 <= i < |slots| :: !slots[i].Busy() {
        assert forall i | 0 <= i < |slots[1..]| :: slots[1..][i] == slots[i + 1];
      }
    }
  }

  // ----- every step keeps the invariant -----

  lemma InitHolds(p: Pipe)
    requires p.IsInit()
    ensures p.Inv() && p.Measure() == 3 * Blocks(|p.input|, p.block)
  {
    CountZero(p.slots);
  }

  lemma IssueKeepsSlot(p: Pipe, i: nat, j: nat)
    requires p.Inv() && Enabled(p, Issue(i)) && j < |p.slots|
    ensures Apply(p, Issue(i)).SlotOk(Apply(p, Issue(i)).slots[j])
  {
    assert p.SlotOk(p.slots[j]);
  }

  lemma IssueCovers(p: Pipe, i: nat)
    requires p.Inv() && Enabled(p, Issue(i))
    ensures Apply(p, Issue(i)).Covered()
  {
    var p' := Apply(p, Issue(i));
    forall x | 0 <= x < p'.off && x < |p.input|
      ensures Correct(p'.input, p'.out, x) || exists j | 0 <= j < |p'.slots| :: p'.Holds(j, x)
    {
      if x < p.off {
        if !Correct(p.input, p.out, x) {
          var j :| 0 <= j < |p.slots| && p.Holds(j, x);
          assert p'.Holds(j, x);
        }
      } else {
        assert p'.Holds(i, x);
      }
    }
  }

  lemma IssueKeeps(p: Pipe, i: nat)
    requires p.Inv() && Enabled(p, Issue(i))
    ensures Apply(p, Issue(i)).Inv()
  {
    var p' := Apply(p, Issue(i));
    CountUpdate(p.slots, i, p'.slots[i]);
    IssueCovers(p, i);
    forall j | 0 <= j < |p.slots|
      ensures p'.SlotOk(p'.slots[j])
    {
      IssueKeepsSlot(p, i, j);
    }
    forall j, k
      ensures p'.Apart(j, k)
    {
      assert p.Apart(j, k);
      assert 0 <= j < |p.slots| ==> p.SlotOk(p.slots[j]);
      assert 0 <= k < |p.slots| ==> p.SlotOk(p.slots[k]);
    }
  }

  /** Requests that stay where they are, or are gone, stay apart. */
  lemma StillDisjoint(p: Pipe, p': Pipe)
    requires p.Disjoint() && |p'.slots| == |p.slots| && p'.block == p.block
    requires forall j | 0 <= j < |p.slots| ::
      p'.slots[j].Busy() ==> p.slots[j].Busy() && p'.slots[j].offset == p.slots[j].offset
    ensures p'.Disjoint()
  {
    forall j, k
      ensures p'.Apart(j, k)
    {
      assert p.Apart(j, k);
    }
  }

  /** A step that changes one slot but neither its request nor the output keeps what is covered. */
  lemma SameRequests(p: Pipe, p': Pipe, i: nat)
    requires p.Inv() && i < |p.slots|
    requires |p'.slots| == |p.slots| && p' == p.(slots := p.slots[i := p'.slots[i]])
    requires p.slots[i].Busy() && p'.slots[i].Busy() && p'.slots[i].offset == p.slots[i].offset
    requires p'.SlotOk(p'.slots[i])
    ensures p'.Inv()
  {
    CountUpdate(p.slots, i, p'.slots[i]);
    StillDisjoint(p, p');
    forall j | 0 <= j < |p.slots|
      ensures p'.SlotOk(p'.slots[j])
    {
      assert p.SlotOk(p.slots[j]);
    }
    forall x | 0 <= x < p'.off && x < |p.input|
      ensures Correct(p'.input, p'.out, x) || exists j | 0 <= j < |p'.slots| :: p'.Holds(j, x)
    {
      if !Correct(p.input, p.out, x) {
        var j :| 0 <= j < |p.slots| && p.Holds(j, x);
        assert p'.Holds(j, x);
      }
    }
  }

  lemma KernelReadKeeps(p: Pipe, i: nat)
    requires p.Inv() && Enabled(p, KernelRead(i))
    ensures Apply(p, KernelRead(i)).Inv()
  {
    assert p.SlotOk(p.slots[i]);
    SameRequests(p, Apply(p, KernelRead(i)), i);
  }

  lemma StartWriteKeeps(p: Pipe, i: nat)
    requires p.Inv() && Enabled(p, StartWrite(i))
    ensures Apply(p, StartWrite(i)).Inv()
  {
    var s := p.slots[i];
    assert p.SlotOk(s);
    var p' := Apply(p, StartWrite(i));
    assert p'.slots[i].data[..s.ret] == TranslateAll(s.data[..s.ret]);
    SameRequests(p, p', i);
  }

  lemma WriteIsCorrect(input: seq<Byte>, out: seq<Byte>, o: nat, d: seq<Byte>)
    requires o + |d| <= |input| && |out| <= |input|
    requires d == TranslateAll(input[o..o + |d|])
    ensures |WriteAt(out, o, d)| <= |input|
    ensures forall x | o <= x < o + |d| :: Correct(input, WriteAt(out, o, d), x)
    ensures forall x | 0 <= x < |input| && Correct(input, out, x) :: Correct(input, WriteAt(out, o, d), x)
  {
    forall x | o <= x < o + |d|
      ensures d[x - o] == Translate(input[x])
    {
      assert input[o..o + |d|][x - o] == input[x];
    }
  }

  lemma MoreOutput(p: Pipe, out: seq<Byte>)
    requires p.Inv() && |out| <= |p.input|
    requires forall x | 0 <= x < |p.input| && Correct(p.input, p.out, x) :: Correct(p.input, out, x)
    ensures p.(out := out).Inv()
  {
    var q := p.(out := out);
    StillDisjoint(p, q);
    forall j | 0 <= j < |p.slots|
      ensures q.SlotOk(p.slots[j])
    {
      assert p.SlotOk(p.slots[j]);
    }
    forall x | 0 <= x < q.off && x < |p.input|
      ensures Correct(q.input, q.out, x) || exists j | 0 <= j < |q.slots| :: q.Holds(j, x)
    {
      if !Correct(p.input, p.out, x) {
        var j :| 0 <= j < |p.slots| && p.Holds(j, x);
        assert q.Holds(j, x);
      }
    }
  }

  lemma KernelWriteKeeps(p: Pipe, i: nat)
    requires p.Inv() && Enabled(p, KernelWrite(i))
    ensures Apply(p, KernelWrite(i)).Inv()
  {
    var s := p.slots[i];
    assert p.SlotOk(s);
    var out := WriteAt(p.out, s.offset, s.data[..s.nbytes]);
    WriteIsCorrect(p.input, p.out, s.offset, s.data[..s.nbytes]);
    MoreOutput(p, out);
    SameRequests(p.(out := out), Apply(p, KernelWrite(i)), i);
  }

  lemma RetireCovers(p: Pipe, i: nat)
    requires p.Inv() && Enabled(p, Retire(i))
    ensures Apply(p, Retire(i)).Covered()
  {
    var p' := Apply(p, Retire(i));
    assert p.SlotOk(p.slots[i]);
    forall x | 0 <= x < p'.off && x < |p.input|
      ensures Correct(p'.input, p'.out, x) || exists j | 0 <= j < |p'.slots| :: p'.Holds(j, x)
    {
      if !Correct(p.input, p.out, x) {
        var j :| 0 <= j < |p.slots| && p.Holds(j, x);
        assert j != i;
        assert p'.Holds(j, x);
      }
    }
  }

  lemma RetireKeepsSlot(p: Pipe, i: nat, j: nat)
    requires p.Inv() && Enabled(p, Retire(i)) && j < |p.slots|
    ensures Apply(p, Retire(i)).SlotOk(Apply(p, Retire(i)).slots[j])
  {
    assert p.SlotOk(p.slots[i]) && p.SlotOk(p.slots[j]);
  }

  lemma RetireKeeps(p: Pipe, i: nat)
    requires p.Inv() && Enabled(p, Retire(i))
    ensures Apply(p, Retire(i)).Inv()
  {
    var p' := Apply(p, Retire(i));
    CountUpdate(p.slots, i, p'.slots[i]);
    RetireCovers(p, i);
    StillDisjoint(p, p');
    forall j | 0 <= j < |p.slots|
      ensures p'.SlotOk(p'.slots[j])
    {
      RetireKeepsSlot(p, i, j);
    }
  }

  lemma StepKeeps(p: Pipe, st: Step)
    requires p.Inv() && Enabled(p, st)
    ensures Apply(p, st).Inv()
  {
    match st
    case Issue(i) => IssueKeeps(p, i);
    case StartWrite(i) => StartWriteKeeps(p, i);
    case Retire(i) => RetireKeeps(p, i);
    case KernelRead(i) => KernelReadKeeps(p, i);
    case KernelWrite(i) => KernelWriteKeeps(p, i);
  }

  /** Each visit that does something costs exactly one unit; the kernel's own steps cost nothing. */
  lemma StepCost(p: Pipe, st: Step)
    requires p.block > 0 && Enabled(p, st)
    ensures Apply(p, st).block == p.block
    ensures Apply(p, st).Measure() == p.Measure() - (if st.ByProgram() then 1 else 0)
  {
    CountUpdate(p.slots, st.i, Apply(p, st).slots[st.i]);
  }

  // ----- what the invariant gives -----

  /** The measure reaches zero exactly when the loop's break condition holds. */
  lemma MeasureZero(p: Pipe)
    requires p.Inv()
    ensures p.Measure() == 0 <==> p.Finished()
  {
    CountZero(p.slots);
  }

  lemma FinishedOutput(p: Pipe)
    requires p.Inv() && p.Finished()
    ensures p.out == TranslateAll(p.input)
  {
    CountZero(p.slots);
    forall x | 0 <= x < |p.input|
      ensures Correct(p.input, p.out, x)
    {
      assert Correct(p.input, p.out, x) || exists i | 0 <= i < |p.slots| :: p.Holds(i, x);
    }
    if |p.input| > 0 {
      assert Correct(p.input, p.out, |p.input| - 1);
    }
    assert forall x | 0 <= x < |p.input| :: Correct(p.input, p.out, x) ==> p.out[x] == TranslateAll(p.input)[x];
  }

  lemma {:induction false} SameBlock(s: nat, o: nat, x: nat, block: nat)
    requires block > 0 && OnGrid(s, block) && OnGrid(o, block)
    requires s <= x < s + block && o <= x < o + block
    ensures s == o
  {
    if block <= x {
      SameBlock(s - block, o - block, x - block, block);
    }
  }

  /**
   * Block accounting: every block below `off` is held by exactly one slot, or it is held by none
   * and all of its bytes are in the output.
   */
  lemma BlockAccounting(p: Pipe, s: nat)
    requires p.Inv() && s < p.off && s < |p.input| && OnGrid(s, p.block)
    ensures forall i, j | 0 <= i < |p.slots| && 0 <= j < |p.slots|
              && p.slots[i].Busy() && p.slots[j].Busy() && p.slots[i].offset == s == p.slots[j].offset :: i == j
    ensures || (exists i :: 0 <= i < |p.slots| && p.slots[i].Busy() && p.slots[i].offset == s)
            || (forall x | s <= x < s + p.Extent(s) :: Correct(p.input, p.out, x))
  {
    forall i, j | 0 <= i < |p.slots| && 0 <= j < |p.slots|
      && p.slots[i].Busy() && p.slots[j].Busy() && p.slots[i].offset == s == p.slots[j].offset
      ensures i == j
    {
      assert p.Apart(i, j) && p.Apart(j, i);
    }
    if !exists i :: 0 <= i < |p.slots| && p.slots[i].Busy() && p.slots[i].offset == s {
      forall x | s <= x < s + p.Extent(s)
        ensures Correct(p.input, p.out, x)
      {
        BelowOff(p.off, s, p.block);
        if exists i | 0 <= i < |p.slots| :: p.Holds(i, x) {
          var i :| 0 <= i < |p.slots| && p.Holds(i, x);
          assert p.SlotOk(p.slots[i]);
          SameBlock(s, p.slots[i].offset, x, p.block);
        }
      }
    }
  }

  lemma BelowOff(off: nat, s: nat, block: nat)
    requires block > 0 && OnGrid(off, block) && OnGrid(s, block) && s < off
    ensures s + block <= off
  {
    if off < s + block {
      SameBlock(s, off, off, block);
    }
  }

  /** `aio_suspend` is reached only with a request on its list, and the counter counts that list. */
  lemma SuspendHasWork(p: Pipe)
    requires p.Inv() && p.opNum != 0
    ensures exists i :: 0 <= i < |p.slots| && p.slots[i].listed
  {
    CountZero(p.slots);
    var i :| 0 <= i < |p.slots| && p.slots[i].Busy();
    assert p.SlotOk(p.slots[i]);
  }

  /** Whatever the state, something can still happen until the transfer is finished. */
  lemma NeverStuck(p: Pipe)
    requires p.Inv() && |p.slots| > 0 && !p.Finished()
    ensures exists st :: Enabled(p, st)
  {
    CountZero(p.slots);
    if p.opNum == 0 {
      assert Enabled(p, Issue(0));
    } else {
      var i :| 0 <= i < |p.slots| && p.slots[i].Busy();
      var s := p.slots[i];
      assert p.SlotOk(s);
      var st := if s.op == ReadPending then (if s.done then StartWrite(i) else KernelRead(i))
                else (if s.done then Retire(i) else KernelWrite(i));
      assert Enabled(p, st);
    }
  }

  // ----- whole runs -----

  /** Step `k` of the sequence of states is one the program or the kernel can take. */
  predicate StepOk(ps: seq<Pipe>, steps: seq<Step>, k: int)
    requires |ps| == |steps| + 1
  {
    0 <= k < |steps| ==> Enabled(ps[k], steps[k]) && ps[k + 1] == Apply(ps[k], steps[k])
  }

  ghost predicate IsRun(ps: seq<Pipe>, steps: seq<Step>) {
    |ps| == |steps| + 1 && forall k :: StepOk(ps, steps, k)
  }

  /** How many of the first `n` steps were the program's. */
  function ProgramSteps(steps: seq<Step>, n: nat): nat
    requires n <= |steps|
  {
    if n == 0 then 0 else ProgramSteps(steps, n - 1) + (if steps[n - 1].ByProgram() then 1 else 0)
  }

  lemma {:induction false} RunKeeps(ps: seq<Pipe>, steps: seq<Step>, n: nat)
    requires IsRun(ps, steps) && ps[0].Inv() && n <= |steps|
    ensures ps[n].Inv() && ps[n].input == ps[0].input && ps[n].block == ps[0].block
    ensures ps[n].Measure() + ProgramSteps(steps, n) == ps[0].Measure()
  {
    if n > 0 {
      RunKeeps(ps, steps, n - 1);
      assert StepOk(ps, steps, n - 1);
      StepKeeps(ps[n - 1], steps[n - 1]);
      StepCost(ps[n - 1], steps[n - 1]);
    }
  }

  /**
   * For every input and every order of completions: a run that reaches the break condition has
   * written exactly the translated input, and did so in exactly three program steps per block.
   */
  lemma TransferCorrect(ps: seq<Pipe>, steps: seq<Step>)
    requires IsRun(ps, steps) && ps[0].IsInit() && ps[|steps|].Finished()
    ensures ps[|steps|].out == TranslateAll(ps[0].input) && Rotated(ps[0].input, ps[|steps|].out)
    ensures ProgramSteps(steps, |steps|) == 3 * Blocks(|ps[0].input|, ps[0].block)
  {
    InitHolds(ps[0]);
    RunKeeps(ps, steps, |steps|);
    FinishedOutput(ps[|steps|]);
    MeasureZero(ps[|steps|]);
  }
}
