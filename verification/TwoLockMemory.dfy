/** Where the objects in memory are, and that each is given back by the release that drops its last reference. */
module TwoLockMemory {
  import opened Common
  import opened FooTable
  import opened TwoLockTable
  import opened TwoLockInv
  import opened TwoLockSteps
  import opened TwoLockUnlink
  import opened TwoLockTheorems
  import opened TwoLockCalls

  /** Every object in memory is in its chain, or some call in progress has yet to link it or to free it. */
  lemma WhereObjectsAre(s: State, p: Ptr)
    requires Inv(s) && p in s.heap
    ensures || p in Abs(s).Chain(s.heap[p].id)
            || exists t | t in s.threads :: BeforePublish(s.threads[t]) == Some(p) || Retiring(s.threads[t]) == Some(p)
  {
    assert PhaseOk(s, p) && ChainedOk(s, p);
  }

  /** While no call is in progress memory holds the objects of the table and nothing else. */
  lemma QuietMemory(s: State)
    requires Inv(s) && forall t | t in s.threads :: s.threads[t] == Idle
    ensures s.heap.Keys == Abs(s).id.Keys
  {
    forall p | p in s.heap
      ensures p in Abs(s).id
    {
      assert PhaseOk(s, p);
    }
  }

  // ----- one release -----

  /** The release takes effect in this step, on the last reference to the object. */
  predicate DropsLast(s: State, a: Action, repaired: bool) {
    && Enabled(s, a) && a.Run? && Event(s, a, repaired).Some? && Event(s, a, repaired).value.Release?
    && Event(s, a, repaired).value.o in s.heap && s.heap[Event(s, a, repaired).value.o].count == 1
  }

  predicate DropsLastBy(ss: seq<State>, acts: seq<Action>, repaired: bool, t: Tid, j: nat)
    requires |ss| == |acts| + 1 && j < |acts|
  {
    DropsLast(ss[j], acts[j], repaired) && acts[j].t == t
  }

  /** A call of thread `t` drops a last reference in some step from `k` to before `n`. */
  predicate DroppedLast(ss: seq<State>, acts: seq<Action>, repaired: bool, t: Tid, k: nat, n: nat)
    requires |ss| == |acts| + 1 && n <= |acts|
  {
    exists j | k <= j < n :: DropsLastBy(ss, acts, repaired, t, j)
  }

  lemma MemoryRetires(s: State, t: Tid, tok: Ref, repaired: bool)
    requires Inv(s) && Enabled(s, Run(t, tok)) && KindOf(s.threads[t]) == Memory && !s.threads[t].RelFree?
    ensures Retiring(RunMemory(s, t, repaired).threads[t]).Some? <==> DropsLast(s, Run(t, tok), repaired)
  {
    assert ThreadInv(s, t);
  }

  lemma AfterRetires(pc: PC, tok: Ref)
    requires KindOf(pc) != Memory && KindOf(pc) != NoCode && After(pc, tok) != Idle
    ensures Retiring(After(pc, tok)) == Retiring(pc)
  {
  }

  lemma NoDrop(s: State, t: Tid, tok: Ref, repaired: bool)
    requires Inv(s) && Enabled(s, Run(t, tok)) && KindOf(s.threads[t]) != Memory
    ensures !DropsLast(s, Run(t, tok), repaired)
  {
    assert ThreadInv(s, t);
  }

  /** A thread is about to free an object exactly if its call has dropped the object's last reference. */
  lemma StepRetires(s: State, t: Tid, tok: Ref, s': State, repaired: bool)
    requires Inv(s) && Enabled(s, Run(t, tok)) && s' == Next(s, Run(t, tok), repaired)
    requires t in s'.threads && s'.threads[t] != Idle
    ensures Retiring(s'.threads[t]).Some? <==> Retiring(s.threads[t]).Some? || DropsLast(s, Run(t, tok), repaired)
  {
    if KindOf(s.threads[t]) == Memory {
      MemoryRetires(s, t, tok, repaired);
    } else {
      AfterRetires(s.threads[t], tok);
      NoDrop(s, t, tok, repaired);
    }
  }

  lemma CallRetires(s: State, a: Action, repaired: bool)
    requires Enabled(s, a) && CallOf(s, a).Some?
    ensures a.t in Next(s, a, repaired).threads && Retiring(Next(s, a, repaired).threads[a.t]) == None
    ensures !DropsLast(s, a, repaired)
  {
  }

  lemma DroppedGrows(ss: seq<State>, acts: seq<Action>, repaired: bool, t: Tid, k: nat, n: nat)
    requires |ss| == |acts| + 1 && k < n <= |acts|
    ensures DroppedLast(ss, acts, repaired, t, k, n)
       <==> DroppedLast(ss, acts, repaired, t, k, n - 1) || DropsLastBy(ss, acts, repaired, t, n - 1)
  {
  }

  lemma RetiringNext(ss: seq<State>, acts: seq<Action>, repaired: bool, t: Tid, k: nat, n: nat)
    requires IsRun(ss, acts, repaired) && n <= |acts| && Running(ss, acts, repaired, t, k, n) && k + 1 < n
    requires Inv(ss[n - 1])
    requires Retiring(ss[n - 1].threads[t]).Some? <==> DroppedLast(ss, acts, repaired, t, k, n - 1)
    ensures Retiring(ss[n].threads[t]).Some? <==> DroppedLast(ss, acts, repaired, t, k, n)
  {
    assert StepOk(ss, acts, repaired, n - 1);
    DroppedGrows(ss, acts, repaired, t, k, n);
    if OwnedBy(acts[n - 1], t) {
      StepRetires(ss[n - 1], t, acts[n - 1].tok, ss[n], repaired);
    } else {
      OthersStay(ss[n - 1], acts[n - 1], repaired, t);
    }
  }

  lemma RetiringStarts(ss: seq<State>, acts: seq<Action>, repaired: bool, t: Tid, k: nat)
    requires IsRun(ss, acts, repaired) && k < |acts| && Running(ss, acts, repaired, t, k, k + 1)
    ensures Retiring(ss[k + 1].threads[t]) == None && !DroppedLast(ss, acts, repaired, t, k, k + 1)
  {
    CallRetires(ss[k], acts[k], repaired);
  }

  lemma {:induction false} RetiringSoFar(ss: seq<State>, acts: seq<Action>, repaired: bool, t: Tid, k: nat, n: nat)
    requires IsRun(ss, acts, repaired) && Inv(ss[0]) && n <= |acts| && Running(ss, acts, repaired, t, k, n)
    ensures Retiring(ss[n].threads[t]).Some? <==> DroppedLast(ss, acts, repaired, t, k, n)
  {
    if n == k + 1 {
      RetiringStarts(ss, acts, repaired, t, k);
    } else {
      RetiringSoFar(ss, acts, repaired, t, k, n - 1);
      RunInv(ss, acts, repaired, n - 1);
      RetiringNext(ss, acts, repaired, t, k, n);
    }
  }

  lemma LineChangesMemory(s: State, t: Tid, repaired: bool)
    requires |s.fh| > 0 && |s.chains| == |s.fh| && t in s.threads && KindOf(s.threads[t]) == Memory
    requires Safe(s, s.threads[t])
    ensures RunMemory(s, t, repaired).heap.Keys
         == if s.threads[t].RelFree? then s.heap.Keys - {s.threads[t].p} else s.heap.Keys
  {
  }

  /** Memory is taken by an allocation and given back by the last line of a release, and by nothing else. */
  lemma MemoryChanges(s: State, a: Action, repaired: bool)
    requires Enabled(s, a)
    ensures Next(s, a, repaired).heap.Keys
         == match a
            case Malloc(_, _, p, _) => s.heap.Keys + {p}
            case Run(t, _) => if s.threads[t].RelFree? then s.heap.Keys - {s.threads[t].p} else s.heap.Keys
            case _ => s.heap.Keys
  {
    match a
    case Run(t, _) =>
      if KindOf(s.threads[t]) == Memory {
        LineChangesMemory(s, t, repaired);
      }
    case _ =>
  }

  /** The step in which a call returns frees the object that the call has taken out, and nothing else. */
  lemma ReturnFrees(s: State, t: Tid, tok: Ref, s': State, repaired: bool)
    requires Inv(s) && Enabled(s, Run(t, tok)) && s' == Next(s, Run(t, tok), repaired)
    requires t in s'.threads && s'.threads[t] == Idle
    ensures s'.heap.Keys == s.heap.Keys - match Retiring(s.threads[t]) case Some(p) => {p} case None => {}
    ensures Retiring(s.threads[t]).Some? ==> Retiring(s.threads[t]).value in s.heap
  {
    assert ThreadInv(s, t);
    MemoryChanges(s, Run(t, tok), repaired);
    LastLine(s, t, tok, s', repaired);
  }

  lemma LastLine(s: State, t: Tid, tok: Ref, s': State, repaired: bool)
    requires Enabled(s, Run(t, tok)) && s' == Next(s, Run(t, tok), repaired) && t in s'.threads && s'.threads[t] == Idle
    ensures Retiring(s.threads[t]).Some? ==> s.threads[t].RelFree?
  {
  }

  /**
   * A release that drops the last reference has given the object's memory back when it returns, and
   * a release that does not gives nothing back.
   */
  lemma FreedAtReturn(ss: seq<State>, acts: seq<Action>, repaired: bool, t: Tid, k: nat, e: nat, p: Ptr)
    requires IsRun(ss, acts, repaired) && Inv(ss[0]) && e < |acts| && Completed(ss, acts, repaired, t, k, e)
    requires CallOf(ss[k], acts[k]) == Some(ReleaseCall(p))
    ensures if DroppedLast(ss, acts, repaired, t, k, e)
            then p in ss[e].heap && ss[e + 1].heap.Keys == ss[e].heap.Keys - {p}
            else ss[e + 1].heap.Keys == ss[e].heap.Keys
  {
    RetiringSoFar(ss, acts, repaired, t, k, e);
    RunInv(ss, acts, repaired, e);
    CallSoFar(ss, acts, repaired, t, k, e);
    assert Accounts(ss[e], t, ReleaseCall(p), repaired,
                    Between(History(ss, acts, repaired, e), t, k, e), TookRecheck(ss, acts, t, k, e));
    ReturnFrees(ss[e], t, acts[e].tok, ss[e + 1], repaired);
  }
}
