/** The final release: unlinking the object, freeing it, and then every step together. */
module TwoLockUnlink {
  import opened Common
  import opened FooTable
  import opened Sequences
  import opened TwoLockTable
  import opened TwoLockInv
  import opened TwoLockSteps

  /** `s'` is `s` with the object at place `k` of chain `b` taken out and its predecessor redirected. */
  ghost predicate TakenOut(s: State, s': State, b: nat, k: nat, p: Ptr) {
    && ChainsOk(s) && b < |s.chains| && k < |s.chains[b]| && s.chains[b][k] == p && LinkedIn(s, p)
    && s'.chains == s.chains[b := s.chains[b][..k] + s.chains[b][k + 1..]]
    && s'.fh == (if k == 0 then s.fh[b := s.heap[p].next] else s.fh)
    && s'.heap.Keys == s.heap.Keys && s'.heap[p].phase != Linked
    && forall q | q in s.heap && q != p ::
         && s'.heap[q].phase == s.heap[q].phase && s'.heap[q].id == s.heap[q].id
         && s'.heap[q].next == if k > 0 && q == s.chains[b][k - 1] then s.heap[p].next else s.heap[q].next
  }

  lemma TakenOutLink(s: State, s': State, b: nat, k: nat, p: Ptr, d: int, j: int)
    requires TakenOut(s, s', b, k, p)
    ensures LinkOk(s', d, j)
  {
    assert LinkOk(s, b, k);
    assert LinkOk(s, b, k - 1);
    assert NoRepeats(s.chains[b]);
    if d == b {
      assert LinkOk(s, b, if j < k then j else j + 1);
    } else {
      assert LinkOk(s, d, j);
    }
  }

  lemma TakenOutChained(s: State, s': State, b: nat, k: nat, p: Ptr, q: Ptr)
    requires TakenOut(s, s', b, k, p)
    ensures ChainedOk(s', q)
  {
    assert ChainedOk(s, q);
    if LinkedIn(s', q) {
      assert q != p && LinkedIn(s, q);
      var d := s.Bucket(s.heap[q].id);
      var j :| 0 <= j < |s.chains[d]| && s.chains[d][j] == q;
      if d == b {
        assert s'.chains[b][if j < k then j else j - 1] == q;
      }
    }
  }

  lemma TakenOutChains(s: State, s': State, b: nat, k: nat, p: Ptr)
    requires TakenOut(s, s', b, k, p)
    ensures ChainsOk(s')
  {
    forall d, j
      ensures LinkOk(s', d, j)
    {
      TakenOutLink(s, s', b, k, p, d, j);
    }
    forall q
      ensures ChainedOk(s', q)
    {
      TakenOutChained(s, s', b, k, p, q);
    }
    assert LinkOk(s, b, k);
    assert forall d | 0 <= d < |s'.chains| :: NoRepeats(s.chains[d]);
    assert NoRepeats(s'.chains[b]);
  }

  // ----- what unlinking does to everything else -----

  /** The state right after the unlinking line, whichever pointer it redirected. */
  ghost predicate JustUnlinked(s: State, s': State, t: Tid, p: Ptr, r: Ref) {
    && t in s.threads && s'.threads == s.threads[t := RelUnlock(p)]
    && LinkedIn(s, p) && s'.heap.Keys == s.heap.Keys && s'.heap[p].phase == Dying(t)
    && s'.hashlock == s.hashlock
    && r in s.refs && s.refs[r] == Claim(t, p) && s'.refs == s.refs - {r}
    && |s'.fh| == |s.fh| && |s'.chains| == |s.chains|
    && (forall q | q in s.heap ::
          && s'.heap[q].lock == s.heap[q].lock && s'.heap[q].id == s.heap[q].id
          && s'.heap[q].count == s.heap[q].count && s'.heap[q].forgotten == s.heap[q].forgotten)
    && (forall q | q in s.heap && q != p :: s'.heap[q].phase == s.heap[q].phase)
  }

  lemma LastReference(s: State, t: Tid, p: Ptr, r: Ref)
    requires CountsOk(s) && LinkedIn(s, p) && s.heap[p].count == 1 && r in s.refs && s.refs[r] == Claim(t, p)
    ensures forall q | q in s.refs && s.refs[q].obj == p :: q == r
    ensures s.heap[p].forgotten == 0
  {
    assert CountOk(s, p);
    assert r in RefsTo(s.refs, p);
    OnlyRef(s.refs, r);
  }

  lemma UnlinkedRefs(s: State, s': State, t: Tid, p: Ptr, r: Ref)
    requires CountsOk(s) && RefsOk(s) && JustUnlinked(s, s', t, p, r) && s.heap[p].count == 1
    requires BeforePublish(s.threads[t]) == None
    ensures RefsOk(s') && CountsOk(s')
  {
    LastReference(s, t, p, r);
    RefDropped(s.refs, r);
    forall q
      ensures RefOk(s', q)
    {
      assert RefOk(s, q);
    }
    forall q
      ensures CountOk(s', q)
    {
      assert CountOk(s, q);
    }
  }

  lemma UnlinkedPhases(s: State, s': State, t: Tid, p: Ptr, r: Ref)
    requires PhasesOk(s) && JustUnlinked(s, s', t, p, r)
    requires BeforePublish(s.threads[t]) == None && Retiring(s.threads[t]) == None
    ensures PhasesOk(s')
  {
    forall q
      ensures PhaseOk(s', q)
    {
      assert PhaseOk(s, q);
    }
  }

  lemma UnlinkedLocks(s: State, s': State, t: Tid, p: Ptr, r: Ref)
    requires LocksOk(s) && JustUnlinked(s, s', t, p, r)
    requires HoldsHash(s.threads[t]) && LockedObj(s.threads[t]) == Some(p)
    ensures LocksOk(s')
  {
    LocksFrom(s, s');
  }

  lemma UnlinkedThreads(s: State, s': State, t: Tid, p: Ptr, r: Ref)
    requires Inv(s) && JustUnlinked(s, s', t, p, r) && s.heap[p].count == 1
    requires s.hashlock == Some(t) && s.heap[p].lock == Some(t)
    ensures ThreadsOk(s')
  {
    LastReference(s, t, p, r);
    assert OnlyMine(s, p, t);
    assert ThreadOk(s', t, RelUnlock(p));
    AllThreadsKeep(s, s', t);
  }

  lemma UnlinkKeeps(s: State, s': State, t: Tid, p: Ptr, r: Ref, b: nat, k: nat)
    requires Inv(s) && t in s.threads
    requires s.threads[t] == RelHead(p, r) || (s.threads[t].RelWalk? && s.threads[t].p == p && s.threads[t].r == r)
    requires JustUnlinked(s, s', t, p, r) && TakenOut(s, s', b, k, p)
    ensures Inv(s')
  {
    assert ThreadInv(s, t) && HashOk(s, t) && HolderOk(s, t);
    TakenOutChains(s, s', b, k, p);
    UnlinkedPhases(s, s', t, p, r);
    UnlinkedRefs(s, s', t, p, r);
    UnlinkedLocks(s, s', t, p, r);
    UnlinkedThreads(s, s', t, p, r);
  }

  lemma UnlinkHeadKeeps(s: State, t: Tid, p: Ptr, r: Ref)
    requires Inv(s) && t in s.threads && s.threads[t] == RelHead(p, r)
    requires p in s.heap && s.fh[s.Bucket(s.heap[p].id)] == Some(p)
    ensures Inv(Unlinked(s.(fh := s.fh[s.Bucket(s.heap[p].id) := s.heap[p].next]), t, p, r))
  {
    var b := s.Bucket(s.heap[p].id);
    var s' := Unlinked(s.(fh := s.fh[b := s.heap[p].next]), t, p, r);
    assert ThreadInv(s, t);
    assert s.fh[b] == At(s.chains[b], 0);
    assert NoRepeats(s.chains[b]);
    WithoutAt(s.chains[b], p, 0);
    UnlinkKeeps(s, s', t, p, r, b, 0);
  }

  lemma UnlinkMiddleKeeps(s: State, t: Tid, p: Ptr, r: Ref, q: Ptr)
    requires Inv(s) && t in s.threads && s.threads[t] == RelWalk(p, r, Some(q))
    requires p in s.heap && q in s.heap && s.heap[q].next == Some(p)
    ensures Inv(Unlinked(s.Put(q, s.heap[q].(next := s.heap[p].next)), t, p, r))
  {
    var b := s.Bucket(s.heap[p].id);
    var s' := Unlinked(s.Put(q, s.heap[q].(next := s.heap[p].next)), t, p, r);
    assert ThreadInv(s, t);
    var k :| OnPath(s.chains[b], Some(q), p, k);
    assert LinkOk(s, b, k);
    assert NoRepeats(s.chains[b]);
    assert s.chains[b][k + 1] == p && q != p;
    WithoutAt(s.chains[b], p, k + 1);
    UnlinkKeeps(s, s', t, p, r, b, k + 1);
  }

  // ----- freeing -----

  /** Nobody else holds, waits for, refers to or can reach an object that is about to be freed. */
  lemma NobodyElse(s: State, t: Tid, p: Ptr)
    requires Inv(s) && t in s.threads && s.threads[t] == RelFree(p)
    ensures p in s.heap && s.heap[p].lock == None
    ensures forall r | r in s.refs :: s.refs[r].obj != p
    ensures forall u | u in s.threads && u != t && ObjOf(s.threads[u], u).Some? :: ObjOf(s.threads[u], u).value.0 != p
    ensures forall b | 0 <= b < |s.chains| :: p !in s.chains[b]
    ensures forall b | 0 <= b < |s.fh| :: s.fh[b] != Some(p)
    ensures forall q | LinkedIn(s, q) :: s.heap[q].next != Some(p)
  {
    assert ThreadInv(s, t) && LockOk(s, p);
    forall u | u in s.threads && u != t && ObjOf(s.threads[u], u).Some?
      ensures ObjOf(s.threads[u], u).value.0 != p
    {
      assert ThreadInv(s, u);
    }
    forall r | r in s.refs
      ensures s.refs[r].obj != p
    {
      assert RefOk(s, r);
    }
    NotChained(s, p);
  }

  lemma NotChained(s: State, p: Ptr)
    requires ChainsOk(s) && p in s.heap && s.heap[p].phase != Linked
    ensures forall b | 0 <= b < |s.chains| :: p !in s.chains[b]
    ensures forall b | 0 <= b < |s.fh| :: s.fh[b] != Some(p)
    ensures forall q | LinkedIn(s, q) :: s.heap[q].next != Some(p)
  {
    forall b | 0 <= b < |s.chains|
      ensures p !in s.chains[b] && s.fh[b] != Some(p)
    {
      assert s.fh[b] == At(s.chains[b], 0);
      forall k | 0 <= k < |s.chains[b]|
        ensures s.chains[b][k] != p
      {
        assert LinkOk(s, b, k);
      }
    }
    forall q | LinkedIn(s, q)
      ensures s.heap[q].next != Some(p)
    {
      assert ChainedOk(s, q);
      var b := s.Bucket(s.heap[q].id);
      var k :| 0 <= k < |s.chains[b]| && s.chains[b][k] == q;
      assert LinkOk(s, b, k) && LinkOk(s, b, k + 1);
    }
  }

  lemma FreeKeeps(s: State, t: Tid, p: Ptr)
    requires Inv(s) && t in s.threads && s.threads[t] == RelFree(p)
    ensures Inv(s.(heap := s.heap - {p}).Goto(t, Idle))
  {
    var s' := s.(heap := s.heap - {p}).Goto(t, Idle);
    NobodyElse(s, t, p);
    assert ThreadInv(s, t);
    forall q
      ensures PhaseOk(s', q)
    {
      assert PhaseOk(s, q);
    }
    LocksFrom(s, s');
    forall r
      ensures RefOk(s', r)
    {
      assert RefOk(s, r);
    }
    forall q
      ensures CountOk(s', q)
    {
      assert CountOk(s, q);
    }
    ChainsKept(s, s');
    assert ThreadOk(s', t, Idle);
    AllThreadsKeep(s, s', t);
  }

  // ----- every step -----

  lemma SearchKeeps(s: State, t: Tid, repaired: bool)
    requires Inv(s) && t in s.threads && Safe(s, s.threads[t])
    requires s.threads[t].FindHead? || s.threads[t].FindTest?
    ensures Inv(RunMemory(s, t, repaired))
  {
    assert ThreadInv(s, t);
    match s.threads[t] {
      case FindHead(id) =>
        SearchStarts(s, id);
        GotoKeeps(s, t, FindTest(id, s.fh[s.Bucket(id)]));
      case FindTest(id, None) => GotoKeeps(s, t, FindUnlock(None));
      case FindTest(id, Some(q)) =>
        SearchMovesOn(s, id, q);
        GotoKeeps(s, t, if s.heap[q].id == id then FindLockObj(id, q) else FindTest(id, s.heap[q].next));
    }
  }

  lemma TestKeeps(s: State, t: Tid, repaired: bool)
    requires Inv(s) && t in s.threads && Safe(s, s.threads[t]) && s.threads[t].RelTest?
    ensures Inv(RunMemory(s, t, repaired))
  {
    var p, r := s.threads[t].p, s.threads[t].r;
    assert ThreadInv(s, t) && CountOk(s, p);
    GotoKeeps(s, t, if s.heap[p].count == 1 then RelUnlockObj(p, r) else RelDecrement(p, r));
  }

  lemma RecheckKeeps(s: State, t: Tid, repaired: bool)
    requires Inv(s) && t in s.threads && Safe(s, s.threads[t]) && s.threads[t].RelRecheck?
    ensures Inv(RunMemory(s, t, repaired))
  {
    var p, r := s.threads[t].p, s.threads[t].r;
    assert ThreadInv(s, t) && HolderOk(s, t) && CountOk(s, p);
    var c := s.heap[p];
    if c.count == 1 {
      GotoKeeps(s, t, RelHead(p, r));
    } else {
      DropRefKeeps(s, t, p, r, if repaired then c.(count := c.count - 1) else c.(forgotten := c.forgotten + 1),
                   RelKeptUnlockObj(p));
    }
  }

  lemma WalkKeeps(s: State, t: Tid, repaired: bool)
    requires Inv(s) && t in s.threads && Safe(s, s.threads[t])
    requires s.threads[t].RelHead? || s.threads[t].RelWalk?
    ensures Inv(RunMemory(s, t, repaired))
  {
    var p, r := s.threads[t].p, s.threads[t].r;
    assert ThreadInv(s, t);
    if s.threads[t].RelHead? {
      if s.fh[s.Bucket(s.heap[p].id)] == Some(p) {
        UnlinkHeadKeeps(s, t, p, r);
      } else {
        WalkStarts(s, p);
        GotoKeeps(s, t, RelWalk(p, r, s.fh[s.Bucket(s.heap[p].id)]));
      }
    } else {
      var q := s.threads[t].tfp.value;
      WalkMovesOn(s, p, q);
      if s.heap[q].next == Some(p) {
        UnlinkMiddleKeeps(s, t, p, r, q);
      } else {
        GotoKeeps(s, t, RelWalk(p, r, s.heap[q].next));
      }
    }
  }

  lemma MemoryKeeps(s: State, t: Tid, repaired: bool)
    requires Inv(s) && t in s.threads && KindOf(s.threads[t]) == Memory && Safe(s, s.threads[t])
    ensures Inv(RunMemory(s, t, repaired))
  {
    match s.threads[t]
    case AllocNext(p, r) => AllocNextKeeps(s, t, p, r);
    case AllocPublish(p, r) => PublishKeeps(s, t, p, r);
    case FindHead(_) => SearchKeeps(s, t, repaired);
    case FindTest(_, _) => SearchKeeps(s, t, repaired);
    case RelTest(_, _) => TestKeeps(s, t, repaired);
    case RelRecheck(_, _) => RecheckKeeps(s, t, repaired);
    case RelHead(_, _) => WalkKeeps(s, t, repaired);
    case RelWalk(_, _, _) => WalkKeeps(s, t, repaired);
    case RelFree(p) => FreeKeeps(s, t, p);
  }

  lemma StepKeeps(s: State, a: Action, repaired: bool)
    requires Inv(s) && Enabled(s, a)
    ensures Inv(Next(s, a, repaired))
  {
    match a
    case Malloc(t, id, p, r) => MallocKeeps(s, t, id, p, r, repaired);
    case CallHold(t, r) => CallHoldKeeps(s, t, r);
    case CallFind(t, id) => CallFindKeeps(s, t, id);
    case CallRelease(t, r) => CallReleaseKeeps(s, t, r);
    case Transfer(r, to) => TransferKeeps(s, r, to);
    case Run(t, tok) => RunKeeps(s, t, tok, repaired);
  }

  lemma RunKeeps(s: State, t: Tid, tok: Ref, repaired: bool)
    requires Inv(s) && Enabled(s, Run(t, tok))
    ensures Inv(Next(s, Run(t, tok), repaired))
  {
    var pc := s.threads[t];
    match KindOf(pc)
    case CountUp => CountRefKeeps(s, t, pc.p, tok, After(pc, tok));
    case CountDown => DecrementKeeps(s, t, pc.p, pc.r);
    case Memory => MemoryKeeps(s, t, repaired);
    case _ => LockingKeeps(s, t, tok, repaired);
  }

  lemma DecrementKeeps(s: State, t: Tid, p: Ptr, r: Ref)
    requires Inv(s) && t in s.threads && s.threads[t] == RelDecrement(p, r) && p in s.heap
    ensures Inv(DropRef(s, t, p, r, s.heap[p].(count := s.heap[p].count - 1), RelLastUnlockObj(p)))
  {
    assert ThreadInv(s, t) && HolderOk(s, t) && CountOk(s, p);
    DropRefKeeps(s, t, p, r, s.heap[p].(count := s.heap[p].count - 1), RelLastUnlockObj(p));
  }
}
