/** The transfer program itself: nested loops over a table of requests, against an arbitrary kernel. */
module AioTest {
  import opened Common
  import opened AioSpec
  import opened AioPipeline

  /** A visit to slot `k` would do something. */
  predicate Actionable(p: Pipe, k: nat) {
    Enabled(p, Issue(k)) || Enabled(p, StartWrite(k)) || Enabled(p, Retire(k))
  }

  /** The step a visit to slot `k` would take. */
  function NextStep(p: Pipe, k: nat): Step
    requires k < |p.slots|
  {
    match p.slots[k].op
    case Unused => Issue(k)
    case ReadPending => StartWrite(k)
    case WritePending => Retire(k)
  }

  /** What the kernel may do to a slot: nothing, or complete its request, all at once and as asked. */
  predicate KeptOrCompleted(p: Pipe, s: Slot, s': Slot) {
    || s' == s
    || (!s.done
        && match s.op
           case Unused => false
           case ReadPending =>
             var n := Min(s.nbytes, |p.input| - s.offset);
             && 0 <= n <= |s.data|
             && s' == s.(data := p.input[s.offset..s.offset + n] + s.data[n..], done := true, ret := n)
           case WritePending => s' == s.(done := true, ret := s.nbytes))
  }

  predicate NoWriteCompleted(p: Pipe, q: Pipe)
    requires |q.slots| == |p.slots|
  {
    forall i | 0 <= i < |p.slots| && p.slots[i].op == WritePending :: q.slots[i] == p.slots[i]
  }

  /** The kernel may complete requests and nothing else: the program's own bookkeeping stays. */
  predicate KernelOnly(p: Pipe, q: Pipe) {
    && q.input == p.input && q.block == p.block && q.off == p.off && q.opNum == p.opNum
    && |q.slots| == |p.slots|
    && (forall i | 0 <= i < |p.slots| :: KeptOrCompleted(p, p.slots[i], q.slots[i]))
    && (NoWriteCompleted(p, q) ==> q.out == p.out)
  }

  lemma KeptAgain(p: Pipe, q: Pipe, s: Slot, s': Slot, s'': Slot)
    requires q.input == p.input && q.block == p.block && KeptOrCompleted(p, s, s') && KeptOrCompleted(q, s', s'')
    ensures KeptOrCompleted(p, s, s'') && (s'' == s ==> s' == s)
  {
    if s' != s {
      assert s'.done && s'' == s' && !s.done;
    }
  }

  /** Completions add up. */
  lemma KernelAgain(p: Pipe, q: Pipe, r: Pipe)
    requires KernelOnly(p, q) && KernelOnly(q, r)
    ensures KernelOnly(p, r)
  {
    forall i | 0 <= i < |p.slots|
      ensures KeptOrCompleted(p, p.slots[i], r.slots[i])
      ensures r.slots[i] == p.slots[i] ==> q.slots[i] == p.slots[i]
    {
      KeptAgain(p, q, p.slots[i], q.slots[i], r.slots[i]);
    }
  }

  /** One completion is such a change. */
  lemma StepIsKernelOnly(p: Pipe, st: Step)
    requires p.Inv() && Enabled(p, st) && !st.ByProgram()
    ensures KernelOnly(p, Apply(p, st)) && Apply(p, st).slots[st.i].done
  {
    assert p.SlotOk(p.slots[st.i]);
    var q := Apply(p, st);
    forall i | 0 <= i < |p.slots|
      ensures KeptOrCompleted(p, p.slots[i], q.slots[i])
    {
      assert i != st.i ==> q.slots[i] == p.slots[i];
    }
    assert NoWriteCompleted(p, q) ==> st.KernelRead? by {
      assert q.slots[st.i].done && !p.slots[st.i].done;
    }
  }

  lemma StillActionable(p: Pipe, q: Pipe)
    requires p.block > 0 && KernelOnly(p, q)
    ensures forall k | 0 <= k < |p.slots| && Actionable(p, k) :: Actionable(q, k)
  {
    forall k | 0 <= k < |p.slots| && Actionable(p, k)
      ensures Actionable(q, k)
    {
      assert KeptOrCompleted(p, p.slots[k], q.slots[k]);
    }
  }

  /** An idle table with bytes left to read can issue at once; a table waiting on a finished request can collect it. */
  lemma LoopHeadActionable(p: Pipe)
    requires p.Inv() && |p.slots| > 0 && !p.Finished()
    requires p.opNum == 0 || exists i | 0 <= i < |p.slots| :: p.slots[i].Busy() && p.slots[i].done
    ensures exists k | 0 <= k < |p.slots| :: Actionable(p, k)
  {
    CountZero(p.slots);
    if p.opNum == 0 {
      assert Actionable(p, 0);
    } else {
      var i :| 0 <= i < |p.slots| && p.slots[i].Busy() && p.slots[i].done;
      assert p.SlotOk(p.slots[i]);
      assert Actionable(p, i);
    }
  }

  datatype Outcome = Moved | Waiting | ShortRead | ShortWrite | TransferFinished

  class Transfer {
    const input: seq<Byte>
    const block: nat
    const slots: array<Slot>
    var off: nat
    var opNum: int
    var out: seq<Byte>

    ghost function Abs(): Pipe
      reads this, slots
    {
      Pipe(input, block, slots[..], off, opNum, out)
    }

    ghost predicate Valid()
      reads this, slots
    {
      slots.Length > 0 && Abs().Inv()
    }

    constructor (input: seq<Byte>, block: nat, slotCount: nat)
      requires block > 0 && slotCount > 0
      ensures fresh(slots) && this.input == input && this.block == block && slots.Length == slotCount
      ensures Valid() && Abs().IsInit()
    {
      this.input, this.block := input, block;
      var empty := seq(block, _ => 0);
      slots := new Slot[slotCount](_ => Slot(Unused, false, 0, 0, empty, false, 0, false));
      off, opNum, out := 0, 0, [];
      new;
      InitHolds(Abs());
    }

    // ----- the kernel -----

    method CompleteRead(i: nat)
      requires Valid() && i < slots.Length && Enabled(Abs(), KernelRead(i))
      modifies slots
      ensures Abs() == Apply(old(Abs()), KernelRead(i))
    {
      var s := slots[i];
      var n := Min(s.nbytes, |input| - s.offset);
      slots[i] := s.(data := input[s.offset..s.offset + n] + s.data[n..], done := true, ret := n);
    }

    method CompleteWrite(i: nat)
      requires Valid() && i < slots.Length && Enabled(Abs(), KernelWrite(i))
      modifies this`out, slots
      ensures Abs() == Apply(old(Abs()), KernelWrite(i))
    {
      var s := slots[i];
      out := WriteAt(out, s.offset, s.data[..s.nbytes]);
      slots[i] := s.(done := true, ret := s.nbytes);
    }

    method CompleteOne(i: nat)
      requires Valid() && i < slots.Length && slots[i].Busy()
      modifies this`out, slots
      ensures Valid() && KernelOnly(old(Abs()), Abs()) && Abs().slots[i].done
      ensures Abs().Measure() == old(Abs()).Measure()
    {
      ghost var p := Abs();
      var s := slots[i];
      assert p.SlotOk(p.slots[i]);
      if !s.done {
        ghost var st := if s.op == ReadPending then KernelRead(i) else KernelWrite(i);
        StepKeeps(p, st);
        StepCost(p, st);
        StepIsKernelOnly(p, st);
        if s.op == ReadPending {
          CompleteRead(i);
        } else {
          CompleteWrite(i);
        }
      }
    }

    /** Between any two looks at a request the kernel completes whatever it likes, in whatever order. */
    method KernelProgress()
      requires Valid()
      modifies this`out, slots
      ensures Valid() && KernelOnly(old(Abs()), Abs())
      ensures Abs().Measure() == old(Abs()).Measure()
    {
      var count: int := *;
      while count > 0
        invariant Valid() && KernelOnly(old(Abs()), Abs())
        invariant Abs().Measure() == old(Abs()).Measure()
      {
        var i: int := *;
        if 0 <= i < slots.Length && slots[i].Busy() {
          ghost var q := Abs();
          CompleteOne(i);
          KernelAgain(old(Abs()), q, Abs());
        }
        count := count - 1;
      }
    }

    method FirstListed() returns (i: nat)
      requires Valid() && opNum != 0
      ensures i < slots.Length && slots[i].Busy()
    {
      SuspendHasWork(Abs());
      i := 0;
      while !slots[i].listed
        invariant 0 <= i < slots.Length
        invariant exists k | i <= k < slots.Length :: slots[k].listed
        decreases slots.Length - i
      {
        i := i + 1;
      }
      assert Abs().SlotOk(Abs().slots[i]);
    }

    /** `aio_suspend`: returns no earlier than the completion of some listed request. */
    method Suspend()
      requires Valid() && opNum != 0
      modifies this`out, slots
      ensures Valid() && KernelOnly(old(Abs()), Abs())
      ensures Abs().Measure() == old(Abs()).Measure()
      ensures exists i | 0 <= i < slots.Length :: Abs().slots[i].Busy() && Abs().slots[i].done
    {
      KernelProgress();
      var i := FirstListed();
      ghost var q := Abs();
      CompleteOne(i);
      KernelAgain(old(Abs()), q, Abs());
      assert KeptOrCompleted(q, q.slots[i], Abs().slots[i]);
    }

    // ----- the program -----

    method IssueRead(i: nat)
      requires Valid() && i < slots.Length && Enabled(Abs(), Issue(i))
      modifies this, slots
      ensures Abs() == Apply(old(Abs()), Issue(i))
    {
      var s := slots[i];
      var start := off;
      off := off + block;
      var last := if off >= |input| then true else s.last;
      slots[i] := s.(op := ReadPending, offset := start, nbytes := block, last := last, done := false, listed := true);
      opNum := opNum + 1;
    }

    /** The translation loop over the first `n` bytes of a slot's buffer. */
    static method TranslateData(data: seq<Byte>, n: nat) returns (d: seq<Byte>)
      requires n <= |data|
      ensures d == TranslateAll(data[..n]) + data[n..]
    {
      d := data;
      for j := 0 to n
        invariant d == TranslateAll(data[..j]) + data[j..]
      {
        TranslateNext(data, j);
        d := d[j := Translate(d[j])];
      }
    }

    method BeginWrite(i: nat)
      requires Valid() && i < slots.Length && Enabled(Abs(), StartWrite(i))
      modifies this, slots
      ensures Abs() == Apply(old(Abs()), StartWrite(i))
    {
      var s := slots[i];
      var data := TranslateData(s.data, s.ret);
      slots[i] := s.(op := WritePending, nbytes := s.ret, data := data, done := false);
    }

    method RetireSlot(i: nat)
      requires Valid() && i < slots.Length && Enabled(Abs(), Retire(i))
      modifies this, slots
      ensures Abs() == Apply(old(Abs()), Retire(i))
    {
      slots[i] := slots[i].(op := Unused, listed := false);
      opNum := opNum - 1;
    }

    /** One pass of the `switch` for slot `i`: what it does is the step `NextStep` names, if that is enabled. */
    method Visit(i: nat) returns (r: Outcome)
      requires Valid() && i < slots.Length
      modifies this, slots
      ensures Valid()
      ensures r == if Actionable(old(Abs()), i) then Moved else Waiting
      ensures r == Waiting ==> Abs() == old(Abs())
      ensures r == Moved ==> Enabled(old(Abs()), NextStep(old(Abs()), i))
      ensures r == Moved ==> Abs() == Apply(old(Abs()), NextStep(old(Abs()), i))
      ensures r == Moved ==> Abs().Measure() == old(Abs()).Measure() - 1
    {
      ghost var p := Abs();
      ghost var st := NextStep(p, i);
      assert p.SlotOk(p.slots[i]);
      if Enabled(p, st) {
        StepKeeps(p, st);
        StepCost(p, st);
      }
      match slots[i].op {
        case Unused =>
          if off >= |input| {
            return Waiting;
          }
          IssueRead(i);
        case ReadPending =>
          if !slots[i].done {
            return Waiting;
          }
          if slots[i].ret != block && !slots[i].last {
            return ShortRead;
          }
          BeginWrite(i);
        case WritePending =>
          if !slots[i].done {
            return Waiting;
          }
          if slots[i].ret != slots[i].nbytes {
            return ShortWrite;
          }
          RetireSlot(i);
      }
      r := Moved;
    }

    /** Something has been done since the measure was `m`, or there is nothing to do, or a slot from `i` on can move. */
    ghost predicate Moving(m: nat, i: nat)
      reads this, slots
      requires Abs().block > 0
    {
      Abs().Measure() < m || Abs().Finished() || exists k | i <= k < slots.Length :: Actionable(Abs(), k)
    }

    /** The kernel moves, and then the program looks at slot `i`. */
    method LookAt(i: nat, ghost m: nat) returns (r: Outcome)
      requires Valid() && i < slots.Length && Abs().Measure() <= m && Moving(m, i)
      modifies this, slots
      ensures (r == Moved || r == Waiting) && Valid() && Abs().Measure() <= m && Moving(m, i + 1)
    {
      ghost var p := Abs();
      KernelProgress();
      StillActionable(p, Abs());
      CountZero(Abs().slots);
      r := Visit(i);
    }

    /** One pass over the table: never an error, and something done unless there is nothing left to do. */
    method Sweep() returns (r: Outcome)
      requires Valid() && Moving(Abs().Measure(), 0)
      modifies this, slots
      ensures r == Moved && Valid() && Abs().Measure() <= old(Abs()).Measure()
      ensures Abs().Measure() < old(Abs()).Measure() || Abs().Finished()
    {
      ghost var m := Abs().Measure();
      var i := 0;
      while i < slots.Length
        invariant Valid() && i <= slots.Length && Abs().Measure() <= m && Moving(m, i)
        decreases slots.Length - i
      {
        var seen := LookAt(i, m);
        if seen == ShortRead || seen == ShortWrite {
          return seen;
        }
        i := i + 1;
      }
      r := Moved;
    }

    /**
     * The whole transfer. It always ends, never by one of its two error exits, and the file it
     * leaves behind is the translated input, whatever the kernel did.
     */
    method Run() returns (r: Outcome)
      requires Valid() && Abs().IsInit()
      modifies this, slots
      ensures r == TransferFinished && Valid() && Abs().Finished()
      ensures out == TranslateAll(input) && Rotated(input, out)
    {
      if !Abs().Finished() {
        LoopHeadActionable(Abs());
      }
      while true
        invariant Valid() && Moving(Abs().Measure(), 0)
        decreases Abs().Measure()
      {
        r := Sweep();
        if r != Moved {
          return;
        }
        if opNum == 0 {
          if off >= |input| {
            break;
          }
        } else {
          Suspend();
        }
        LoopHeadActionable(Abs());
      }
      FinishedOutput(Abs());
      r := TransferFinished;
    }
  }

  /** Running the pipeline and the sequential program on the same file leaves the same output. */
  method SameOutput(input: seq<Byte>, block: nat, slotCount: nat, chunks: seq<nat>)
    returns (piped: seq<Byte>, sequential: seq<Byte>)
    requires block > 0 && slotCount > 0
    ensures piped == sequential == TranslateAll(input) && Rotated(input, piped)
  {
    var t := new Transfer(input, block, slotCount);
    var r := t.Run();
    piped := t.out;
    var buf := new Byte[block](_ => 0);
    sequential := CharProcess(input, buf, chunks);
  }
}
