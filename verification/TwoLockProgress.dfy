/** Every line a thread runs brings the calls in progress closer to their returns. */
module TwoLockProgress {
  import opened Common
  import opened FooTable
  import opened Sequences
  import opened TwoLockTable
  import opened TwoLockInv
  import opened TwoLockSteps
  import opened TwoLockUnlink
  import opened TwoLockTheorems
  import opened TwoLockCalls

  /** How many kinds of line lie between this one and the return of the call. */
  function Stage(pc: PC): nat {
    match pc
    case Idle => 0
    case AllocUnlock(_, _) => 1 case AllocUnlockObj(_, _) => 2 case AllocLockObj(_, _) => 3
    case AllocPublish(_, _) => 4 case AllocNext(_, _) => 5 case AllocLock(_, _) => 6
    case HoldUnlockObj(_, _) => 1 case HoldCount(_, _) => 2 case HoldLockObj(_, _) => 3
    case FindUnlock(_) => 1 case FindUnlockObj(_, _) => 2 case FindCount(_, _) => 3 case FindLockObj(_, _) => 4
    case FindTest(_, _) => 5 case FindHead(_) => 6 case FindLock(_) => 7
    case RelLastUnlockObj(_) => 1 case RelDecrement(_, _) => 2
    case RelKeptUnlock => 1 case RelKeptUnlockObj(_) => 2
    case RelFree(_) => 1 case RelDyingUnlockObj(_) => 2 case RelUnlock(_) => 3
    case RelWalk(_, _, _) => 4 case RelHead(_, _) => 5 case RelRecheck(_, _) => 6 case RelRelockObj(_, _) => 7
    case RelLock(_, _) => 8 case RelUnlockObj(_, _) => 9 case RelTest(_, _) => 10 case RelLockObj(_, _) => 11
  }

  /** What the calls in progress still have to go through. */
  ghost function Todo(s: State): set<(Tid, nat)> {
    set t, i: nat | t in s.threads && i < Stage(s.threads[t]) :: (t, i)
  }

  /** Where a thread walking along a chain has got to. */
  function Cursor(pc: PC): Option<Ptr> {
    match pc
    case FindTest(_, cur) => cur
    case RelWalk(_, _, tfp) => tfp
    case _ => None
  }

  function ChainOf(s: State, pc: PC): seq<Ptr> {
    if |s.chains| != |s.fh| || |s.fh| == 0 then []
    else
      match pc
      case FindTest(id, _) => s.chains[s.Bucket(id)]
      case RelWalk(p, _, _) => if p in s.heap then s.chains[s.Bucket(s.heap[p].id)] else []
      case _ => []
  }

  /** How far the thread that holds the table's lock still has to walk. */
  function Ahead(s: State, pc: PC): nat {
    match Cursor(pc)
    case None => 0
    case Some(q) => |ChainOf(s, pc)| - IndexOf(ChainOf(s, pc), q)
  }

  function Remaining(s: State): nat {
    if s.hashlock.Some? && s.hashlock.value in s.threads then Ahead(s, s.threads[s.hashlock.value]) else 0
  }

  lemma TodoShrinks(s: State, s': State, t: Tid)
    requires t in s.threads && t in s'.threads && s'.threads == s.threads[t := s'.threads[t]]
    requires Stage(s'.threads[t]) < Stage(s.threads[t])
    ensures Todo(s') < Todo(s)
  {
    assert forall x | x in Todo(s') :: x in Todo(s);
    assert (t, Stage(s.threads[t]) - 1) in Todo(s) && (t, Stage(s.threads[t]) - 1) !in Todo(s');
  }

  /** One step along a chain. */
  lemma NextPlace(s: State, b: nat, q: Ptr)
    requires ChainsOk(s) && b < |s.chains| && q in s.chains[b] && q in s.heap
    ensures s.heap[q].next == At(s.chains[b], IndexOf(s.chains[b], q) + 1)
    ensures var next := s.heap[q].next;
            next.Some? ==> IndexOf(s.chains[b], next.value) == IndexOf(s.chains[b], q) + 1 < |s.chains[b]|
  {
    var c := s.chains[b];
    var k := IndexOf(c, q);
    assert LinkOk(s, b, k) && NoRepeats(c);
    if k + 1 < |c| {
      assert c[k + 1] in c;
      var j := IndexOf(c, c[k + 1]);
      assert c[j] == c[k + 1];
    }
  }

  predicate Walks(pc: PC, pc': PC) {
    (pc.FindTest? && pc'.FindTest?) || (pc.RelWalk? && pc'.RelWalk?)
  }

  lemma AfterStage(pc: PC, tok: Ref)
    requires KindOf(pc) != Memory && KindOf(pc) != NoCode
    ensures Stage(After(pc, tok)) < Stage(pc)
  {
  }

  lemma MemoryStage(s: State, t: Tid, repaired: bool)
    requires |s.fh| > 0 && |s.chains| == |s.fh| && t in s.threads && KindOf(s.threads[t]) == Memory
    requires Safe(s, s.threads[t])
    ensures var s' := RunMemory(s, t, repaired);
            && t in s'.threads && s'.threads == s.threads[t := s'.threads[t]]
            && (Stage(s'.threads[t]) < Stage(s.threads[t])
                || (Walks(s.threads[t], s'.threads[t]) && s' == s.Goto(t, s'.threads[t])))
  {
  }

  lemma SearchShortens(s: State, t: Tid, id: int, q: Ptr)
    requires Inv(s) && t in s.threads && s.threads[t] == FindTest(id, Some(q)) && q in s.heap
    ensures Remaining(s.Goto(t, FindTest(id, s.heap[q].next))) < Remaining(s)
  {
    assert ThreadInv(s, t) && HashOk(s, t);
    SearchMovesOn(s, id, q);
    assert ChainedOk(s, q);
    NextPlace(s, s.Bucket(id), q);
  }

  lemma WalkShortens(s: State, t: Tid, p: Ptr, r: Ref, q: Ptr)
    requires Inv(s) && t in s.threads && s.threads[t] == RelWalk(p, r, Some(q)) && p in s.heap && q in s.heap
    requires s.heap[q].next != Some(p)
    ensures Remaining(s.Goto(t, RelWalk(p, r, s.heap[q].next))) < Remaining(s)
  {
    assert ThreadInv(s, t) && HashOk(s, t);
    WalkMovesOn(s, p, q);
    NextPlace(s, s.Bucket(s.heap[p].id), q);
  }

  lemma MemoryShortens(s: State, t: Tid, repaired: bool)
    requires Inv(s) && t in s.threads && KindOf(s.threads[t]) == Memory && Safe(s, s.threads[t])
    requires Walks(s.threads[t], RunMemory(s, t, repaired).threads[t])
    ensures Remaining(RunMemory(s, t, repaired)) < Remaining(s)
  {
    match s.threads[t]
    case FindTest(id, Some(q)) => SearchShortens(s, t, id, q);
    case RelWalk(p, r, Some(q)) => WalkShortens(s, t, p, r, q);
  }

  lemma LineAdvances(s: State, t: Tid, tok: Ref, s': State, repaired: bool)
    requires Inv(s) && Enabled(s, Run(t, tok)) && s' == Next(s, Run(t, tok), repaired)
    ensures t in s'.threads && s'.threads == s.threads[t := s'.threads[t]]
    ensures || Stage(s'.threads[t]) < Stage(s.threads[t])
            || (Stage(s'.threads[t]) == Stage(s.threads[t]) && Remaining(s') < Remaining(s))
  {
    if KindOf(s.threads[t]) == Memory {
      MemoryStage(s, t, repaired);
      if Walks(s.threads[t], s'.threads[t]) {
        MemoryShortens(s, t, repaired);
      }
    } else {
      AfterStage(s.threads[t], tok);
    }
  }

  /** Every line a thread runs brings it closer to its return, or one object further along its chain. */
  lemma StepAdvances(s: State, t: Tid, tok: Ref, s': State, repaired: bool)
    requires Inv(s) && Enabled(s, Run(t, tok)) && s' == Next(s, Run(t, tok), repaired)
    ensures Todo(s') < Todo(s) || (Todo(s') == Todo(s) && Remaining(s') < Remaining(s))
  {
    LineAdvances(s, t, tok, s', repaired);
    if Stage(s'.threads[t]) < Stage(s.threads[t]) {
      TodoShrinks(s, s', t);
    }
  }

  predicate AllIdle(s: State) {
    forall t | t in s.threads :: s.threads[t] == Idle
  }

  lemma RunFrom(s: State, a: Action, ss: seq<State>, acts: seq<Action>, repaired: bool)
    requires Enabled(s, a) && IsRun(ss, acts, repaired) && ss[0] == Next(s, a, repaired)
    ensures IsRun([s] + ss, [a] + acts, repaired)
  {
    forall k | 0 <= k < |acts| + 1
      ensures StepOk([s] + ss, [a] + acts, repaired, k)
    {
      if k > 0 {
        assert StepOk(ss, acts, repaired, k - 1);
      }
    }
  }

  /** From every reachable state the calls in progress can all return, with no new call made. */
  lemma {:induction false} AllReturn(s: State, repaired: bool) returns (ss: seq<State>, acts: seq<Action>)
    requires Inv(s)
    ensures IsRun(ss, acts, repaired) && ss[0] == s && AllIdle(ss[|acts|])
    ensures forall k | 0 <= k < |acts| :: acts[k].Run?
    decreases Todo(s), Remaining(s)
  {
    if AllIdle(s) {
      ss, acts := [s], [];
    } else {
      var t :| t in s.threads && s.threads[t] != Idle;
      NoDeadlock(s, t);
      var u, tok :| Enabled(s, Run(u, tok));
      var s' := Next(s, Run(u, tok), repaired);
      StepKeeps(s, Run(u, tok), repaired);
      StepAdvances(s, u, tok, s', repaired);
      ss, acts := AllReturn(s', repaired);
      RunFrom(s, Run(u, tok), ss, acts, repaired);
      ss, acts := [s] + ss, [Run(u, tok)] + acts;
    }
  }
}
