/** Every step of the two-lock table keeps the invariant, one lemma for each kind of line. */
module TwoLockSteps {
  import opened Common
  import opened FooTable
  import opened Sequences
  import opened TwoLockTable
  import opened TwoLockInv

  predicate IsLocking(k: Kind) {
    k == LockHash || k == UnlockHash || k == LockObj || k == UnlockObj
  }

  /** Which locks a line takes or drops shows in the program counter after it. */
  lemma AfterLocks(pc: PC, tok: Ref)
    ensures KindOf(pc) == LockHash ==>
      !HoldsHash(pc) && HoldsHash(After(pc, tok)) && LockedObj(After(pc, tok)) == LockedObj(pc)
    ensures KindOf(pc) == UnlockHash ==>
      HoldsHash(pc) && !HoldsHash(After(pc, tok)) && LockedObj(After(pc, tok)) == LockedObj(pc)
    ensures KindOf(pc) == LockObj ==>
      LockedObj(pc) == None && LockedObj(After(pc, tok)) == Some(pc.p) && HoldsHash(After(pc, tok)) == HoldsHash(pc)
    ensures KindOf(pc) == UnlockObj ==>
      LockedObj(pc) == Some(pc.p) && LockedObj(After(pc, tok)) == None && HoldsHash(After(pc, tok)) == HoldsHash(pc)
  {
  }

  /** A lock operation does not change what the call is working on. */
  lemma AfterObject(pc: PC, t: Tid, tok: Ref)
    requires IsLocking(KindOf(pc))
    ensures var next := After(pc, tok);
            && BeforePublish(next) == BeforePublish(pc) && Retiring(next) == Retiring(pc)
            && (ObjOf(next, t) == None || ObjOf(next, t) == ObjOf(pc, t))
            && (ObjOf(next, t).Some? && TokenOf(next).Some? ==> TokenOf(next) == TokenOf(pc))
            && (next.FindCount? ==> pc == FindLockObj(next.id, next.p))
            && !next.AllocPublish? && !next.FindTest? && !next.FindLockObj?
            && !next.RelHead? && !next.RelWalk? && !next.RelDecrement?
  {
  }

  ghost predicate LockFrame(s: State, s': State, t: Tid, next: PC) {
    && t in s.threads && s'.threads == s.threads[t := next]
    && s'.fh == s.fh && s'.chains == s.chains && s'.refs == s.refs && s'.heap.Keys == s.heap.Keys
    && forall p | p in s.heap :: s'.heap[p] == s.heap[p].(lock := s'.heap[p].lock)
  }

  lemma LockFrameFirstHit(s: State, s': State, t: Tid, next: PC, id: int, p: Ptr)
    requires LockFrame(s, s', t, next) && |s.fh| > 0 && |s.chains| == |s.fh| && FirstHit(s, id, p)
    ensures FirstHit(s', id, p)
  {
    var c := s.chains[s.Bucket(id)];
    var k :| Scanned(s, c, id, k) && At(c, k) == Some(p);
    assert s'.chains[s'.Bucket(id)] == c;
    assert p in s'.heap && s'.heap[p].id == id;
    assert Scanned(s', c, id, k);
  }

  lemma LockFrameOwn(s: State, s': State, t: Tid, tok: Ref)
    requires t in s.threads && IsLocking(KindOf(s.threads[t])) && ThreadOk(s, t, s.threads[t])
    requires LockFrame(s, s', t, After(s.threads[t], tok))
    ensures ThreadOk(s', t, After(s.threads[t], tok))
  {
    var pc, next := s.threads[t], After(s.threads[t], tok);
    AfterObject(pc, t, tok);
    assert ObjectOk(s', t, next);
    if next.FindCount? {
      LockFrameFirstHit(s, s', t, next, pc.id, pc.p);
    }
  }

  lemma LockFrameThreads(s: State, s': State, t: Tid, tok: Ref)
    requires Inv(s) && t in s.threads && IsLocking(KindOf(s.threads[t]))
    requires LockFrame(s, s', t, After(s.threads[t], tok))
    ensures ThreadsOk(s')
  {
    assert ThreadInv(s, t);
    LockFrameOwn(s, s', t, tok);
    AllThreadsKeep(s, s', t);
  }

  lemma LockFrameRefs(s: State, s': State, t: Tid, tok: Ref)
    requires RefsOk(s) && CountsOk(s) && ChainsOk(s) && t in s.threads && IsLocking(KindOf(s.threads[t]))
    requires LockFrame(s, s', t, After(s.threads[t], tok))
    ensures RefsOk(s') && CountsOk(s') && ChainsOk(s')
  {
    AfterObject(s.threads[t], t, tok);
    SamePhases(s, s', t);
    forall p
      ensures CountOk(s', p)
    {
      assert CountOk(s, p);
    }
    ChainsKept(s, s');
  }

  /** References stay good while nothing is added, unlinked or published. */
  lemma SamePhases(s: State, s': State, t: Tid)
    requires RefsOk(s) && t in s.threads && t in s'.threads && s'.threads == s.threads[t := s'.threads[t]]
    requires BeforePublish(s'.threads[t]) == BeforePublish(s.threads[t])
    requires s'.heap.Keys == s.heap.Keys && forall p | p in s.heap :: s'.heap[p].phase == s.heap[p].phase
    requires forall r | r in s'.refs :: r in s.refs && s'.refs[r] == s.refs[r]
    ensures RefsOk(s')
  {
    forall r
      ensures RefOk(s', r)
    {
      assert RefOk(s, r);
    }
  }

  /** Objects stay accounted for while none changes its phase. */
  lemma PhasesFrom(s: State, s': State, t: Tid)
    requires PhasesOk(s) && t in s.threads && t in s'.threads && s'.threads == s.threads[t := s'.threads[t]]
    requires BeforePublish(s'.threads[t]) == BeforePublish(s.threads[t])
    requires Retiring(s'.threads[t]) == Retiring(s.threads[t])
    requires forall p | p in s'.heap :: p in s.heap && s'.heap[p].phase == s.heap[p].phase
    ensures PhasesOk(s')
  {
    forall p
      ensures PhaseOk(s', p)
    {
      assert PhaseOk(s, p);
    }
  }

  lemma TakeHashLocks(s: State, t: Tid, next: PC)
    requires LocksOk(s) && t in s.threads && s.hashlock == None
    requires HoldsHash(next) && LockedObj(next) == LockedObj(s.threads[t])
    ensures LocksOk(TakeHash(s, t, next))
  {
    LocksFrom(s, TakeHash(s, t, next));
  }

  lemma DropHashLocks(s: State, t: Tid, next: PC)
    requires LocksOk(s) && t in s.threads && HoldsHash(s.threads[t])
    requires !HoldsHash(next) && LockedObj(next) == LockedObj(s.threads[t])
    ensures LocksOk(DropHash(s, t, next))
  {
    assert HashOk(s, t);
    LocksFrom(s, DropHash(s, t, next));
  }

  lemma TakeObjLocks(s: State, t: Tid, p: Ptr, next: PC)
    requires LocksOk(s) && t in s.threads && p in s.heap && s.heap[p].lock == None
    requires HoldsHash(next) == HoldsHash(s.threads[t]) && LockedObj(s.threads[t]) == None && LockedObj(next) == Some(p)
    ensures LocksOk(SetLock(s, t, p, Some(t), next))
  {
    LocksFrom(s, SetLock(s, t, p, Some(t), next));
  }

  lemma DropObjLocks(s: State, t: Tid, p: Ptr, next: PC)
    requires LocksOk(s) && t in s.threads && p in s.heap
    requires HoldsHash(next) == HoldsHash(s.threads[t]) && LockedObj(s.threads[t]) == Some(p) && LockedObj(next) == None
    ensures LocksOk(SetLock(s, t, p, None, next))
  {
    assert HolderOk(s, t);
    LocksFrom(s, SetLock(s, t, p, None, next));
  }

  /** Brings in what held before about each thread and object. */
  lemma LocksFrom(s: State, s': State)
    requires LocksOk(s)
    requires forall u | HashOk(s, u) :: HashOk(s', u)
    requires s'.hashlock.Some? ==> s'.hashlock.value in s'.threads
    requires forall u | HolderOk(s, u) && (forall p :: LockOk(s, p)) :: HolderOk(s', u)
    requires forall p | LockOk(s, p) && (forall u :: HolderOk(s, u)) :: LockOk(s', p)
    ensures LocksOk(s')
  {
  }

  lemma LockingKeeps(s: State, t: Tid, tok: Ref, repaired: bool)
    requires Inv(s) && Enabled(s, Run(t, tok)) && IsLocking(KindOf(s.threads[t]))
    ensures Inv(Next(s, Run(t, tok), repaired))
  {
    var s' := Next(s, Run(t, tok), repaired);
    var pc, next := s.threads[t], After(s.threads[t], tok);
    AfterLocks(pc, tok);
    assert LocksOk(s') by {
      match KindOf(pc) {
        case LockHash => TakeHashLocks(s, t, next);
        case UnlockHash => DropHashLocks(s, t, next);
        case LockObj => TakeObjLocks(s, t, pc.p, next);
        case UnlockObj => DropObjLocks(s, t, pc.p, next);
      }
    }
    LockFrameThreads(s, s', t, tok);
    LockFrameRefs(s, s', t, tok);
    AfterObject(pc, t, tok);
    PhasesFrom(s, s', t);
  }

  // ----- steps that only move the thread on -----

  /** Everything but the program counters is as before. */
  ghost predicate Elsewhere(s: State, s': State) {
    s' == s.(threads := s'.threads)
  }

  lemma ElsewhereSearching(s: State, s': State, id: int, cur: Option<Ptr>)
    requires Elsewhere(s, s') && |s.fh| > 0 && |s.chains| == |s.fh| && Searching(s, id, cur)
    ensures Searching(s', id, cur)
  {
    var k :| Scanned(s, s.chains[s.Bucket(id)], id, k) && cur == At(s.chains[s.Bucket(id)], k);
    assert Scanned(s', s'.chains[s'.Bucket(id)], id, k);
  }

  lemma ElsewhereFirstHit(s: State, s': State, id: int, p: Ptr)
    requires Elsewhere(s, s') && |s.fh| > 0 && |s.chains| == |s.fh| && FirstHit(s, id, p)
    ensures FirstHit(s', id, p)
  {
    var k :| Scanned(s, s.chains[s.Bucket(id)], id, k) && At(s.chains[s.Bucket(id)], k) == Some(p);
    assert Scanned(s', s'.chains[s'.Bucket(id)], id, k);
  }

  lemma ElsewhereWalking(s: State, s': State, p: Ptr, tfp: Option<Ptr>)
    requires Elsewhere(s, s') && |s.fh| > 0 && |s.chains| == |s.fh| && p in s.heap && Walking(s, p, tfp)
    ensures Walking(s', p, tfp)
  {
    var k :| OnPath(s.chains[s.Bucket(s.heap[p].id)], tfp, p, k);
    assert OnPath(s'.chains[s'.Bucket(s'.heap[p].id)], tfp, p, k);
  }

  lemma ElsewhereThread(s: State, s': State, u: Tid, pc: PC)
    requires Elsewhere(s, s') && ThreadOk(s, u, pc)
    ensures ThreadOk(s', u, pc)
  {
    match pc
    case FindTest(id, cur) => ElsewhereSearching(s, s', id, cur);
    case FindLockObj(id, p) => ElsewhereFirstHit(s, s', id, p);
    case FindCount(id, p) => ElsewhereFirstHit(s, s', id, p);
    case RelWalk(p, _, tfp) => ElsewhereWalking(s, s', p, tfp);
    case _ =>
  }

  lemma GotoThreads(s: State, t: Tid, next: PC)
    requires ThreadsOk(s) && t in s.threads && ThreadOk(s, t, next)
    ensures ThreadsOk(s.Goto(t, next))
  {
    var s' := s.Goto(t, next);
    forall u
      ensures ThreadInv(s', u)
    {
      assert ThreadInv(s, u);
      if u in s'.threads {
        ElsewhereThread(s, s', u, s'.threads[u]);
      }
    }
  }

  lemma GotoKeeps(s: State, t: Tid, next: PC)
    requires Inv(s) && t in s.threads && ThreadOk(s, t, next)
    requires HoldsHash(next) == HoldsHash(s.threads[t]) && LockedObj(next) == LockedObj(s.threads[t])
    requires BeforePublish(next) == BeforePublish(s.threads[t]) && Retiring(next) == Retiring(s.threads[t])
    ensures Inv(s.Goto(t, next))
  {
    var s' := s.Goto(t, next);
    GotoThreads(s, t, next);
    LocksFrom(s, s');
    SamePhases(s, s', t);
    PhasesFrom(s, s', t);
    forall p
      ensures CountOk(s', p)
    {
      assert CountOk(s, p);
    }
    ChainsKept(s, s');
  }

  /** A call may start only on an object in the table: references to other objects are never handed out. */
  lemma OwnedIsLinked(s: State, t: Tid, r: Ref)
    requires Inv(s) && t in s.threads && s.threads[t] == Idle && r in s.refs && s.refs[r].owner == t
    ensures LinkedIn(s, s.refs[r].obj)
  {
    assert RefOk(s, r);
  }

  lemma CallHoldKeeps(s: State, t: Tid, r: Ref)
    requires Inv(s) && Enabled(s, CallHold(t, r))
    ensures Inv(s.Goto(t, HoldLockObj(s.refs[r].obj, r)))
  {
    OwnedIsLinked(s, t, r);
    GotoKeeps(s, t, HoldLockObj(s.refs[r].obj, r));
  }

  lemma CallReleaseKeeps(s: State, t: Tid, r: Ref)
    requires Inv(s) && Enabled(s, CallRelease(t, r))
    ensures Inv(s.Goto(t, RelLockObj(s.refs[r].obj, r)))
  {
    OwnedIsLinked(s, t, r);
    GotoKeeps(s, t, RelLockObj(s.refs[r].obj, r));
  }

  lemma CallFindKeeps(s: State, t: Tid, id: int)
    requires Inv(s) && Enabled(s, CallFind(t, id))
    ensures Inv(s.Goto(t, FindLock(id)))
  {
    GotoKeeps(s, t, FindLock(id));
  }

  lemma SearchStarts(s: State, id: int)
    requires ChainsOk(s)
    ensures Searching(s, id, s.fh[s.Bucket(id)])
  {
    assert Scanned(s, s.chains[s.Bucket(id)], id, 0);
  }

  lemma SearchMovesOn(s: State, id: int, q: Ptr)
    requires ChainsOk(s) && Searching(s, id, Some(q))
    ensures LinkedIn(s, q)
    ensures if s.heap[q].id == id then FirstHit(s, id, q) else Searching(s, id, s.heap[q].next)
  {
    var b := s.Bucket(id);
    var k :| Scanned(s, s.chains[b], id, k) && Some(q) == At(s.chains[b], k);
    assert LinkOk(s, b, k);
    if s.heap[q].id != id {
      assert Scanned(s, s.chains[b], id, k + 1);
    }
  }

  lemma WalkStarts(s: State, p: Ptr)
    requires ChainsOk(s) && LinkedIn(s, p) && s.fh[s.Bucket(s.heap[p].id)] != Some(p)
    ensures Walking(s, p, s.fh[s.Bucket(s.heap[p].id)])
  {
    var b := s.Bucket(s.heap[p].id);
    var c := s.chains[b];
    assert ChainedOk(s, p);
    assert s.fh[b] == At(c, 0);
    assert c == [c[0]] + c[1..];
    assert OnPath(c, Some(c[0]), p, 0);
  }

  lemma WalkMovesOn(s: State, p: Ptr, q: Ptr)
    requires ChainsOk(s) && LinkedIn(s, p) && Walking(s, p, Some(q))
    ensures LinkedIn(s, q)
    ensures s.heap[q].next != Some(p) ==> Walking(s, p, s.heap[q].next)
  {
    var b := s.Bucket(s.heap[p].id);
    var c := s.chains[b];
    var k :| OnPath(c, Some(q), p, k);
    assert LinkOk(s, b, k);
    if s.heap[q].next != Some(p) {
      assert c[k + 1..] == [c[k + 1]] + c[k + 2..];
      assert OnPath(c, Some(c[k + 1]), p, k + 1);
    }
  }

  // ----- steps that change a count -----

  /** Objects keep their ids, links and phases; nothing is linked or unlinked. */
  ghost predicate SameObjects(s: State, s': State) {
    && s'.fh == s.fh && s'.chains == s.chains && s'.heap.Keys == s.heap.Keys
    && forall p | p in s.heap ::
         && s'.heap[p].phase == s.heap[p].phase && s'.heap[p].id == s.heap[p].id
         && s'.heap[p].next == s.heap[p].next && s'.heap[p].lock == s.heap[p].lock
  }

  /** A thread holding an object's lock may change its count and its own references. */
  lemma CountThreads(s: State, s': State, t: Tid, p: Ptr, next: PC)
    requires Inv(s) && t in s.threads && s'.threads == s.threads[t := next] && SameObjects(s, s')
    requires p in s.heap && s.heap[p].lock == Some(t)
    requires forall q | q in s.heap && q != p :: s'.heap[q].count == s.heap[q].count
    requires forall r | r in s.refs && s.refs[r].owner != t :: r in s'.refs && s'.refs[r] == s.refs[r]
    requires ThreadOk(s', t, next)
    ensures ThreadsOk(s')
  {
    AllThreadsKeep(s, s', t);
  }

  lemma SameObjectsChains(s: State, s': State)
    requires ChainsOk(s) && SameObjects(s, s')
    ensures ChainsOk(s')
  {
    ChainsKept(s, s');
  }

  lemma CountLocks(s: State, s': State, t: Tid, next: PC)
    requires LocksOk(s) && t in s.threads && s'.threads == s.threads[t := next] && SameObjects(s, s')
    requires s'.hashlock == s.hashlock
    requires HoldsHash(next) == HoldsHash(s.threads[t]) && LockedObj(next) == LockedObj(s.threads[t])
    ensures LocksOk(s')
  {
    LocksFrom(s, s');
  }

  lemma CountRefCounts(s: State, t: Tid, p: Ptr, tok: Ref, next: PC)
    requires CountsOk(s) && RefsOk(s) && t in s.threads && tok !in s.refs && LinkedIn(s, p)
    requires BeforePublish(next) == BeforePublish(s.threads[t])
    ensures CountsOk(CountRef(s, t, p, tok, next)) && RefsOk(CountRef(s, t, p, tok, next))
  {
    var s' := CountRef(s, t, p, tok, next);
    RefAdded(s.refs, tok, Claim(t, p));
    forall q
      ensures CountOk(s', q)
    {
      assert CountOk(s, q);
    }
    forall r
      ensures RefOk(s', r)
    {
      assert RefOk(s, r);
    }
  }

  lemma CountRefOwn(s: State, t: Tid, tok: Ref)
    requires t in s.threads && (s.threads[t].HoldCount? || s.threads[t].FindCount?) && ThreadOk(s, t, s.threads[t])
    ensures ThreadOk(CountRef(s, t, s.threads[t].p, tok, After(s.threads[t], tok)), t, After(s.threads[t], tok))
  {
  }

  lemma CountRefKeeps(s: State, t: Tid, p: Ptr, tok: Ref, next: PC)
    requires Inv(s) && t in s.threads && tok !in s.refs
    requires s.threads[t].HoldCount? || s.threads[t].FindCount?
    requires p == s.threads[t].p && next == After(s.threads[t], tok)
    requires p in s.heap
    ensures Inv(CountRef(s, t, p, tok, next))
  {
    var s' := CountRef(s, t, p, tok, next);
    assert ThreadInv(s, t) && HolderOk(s, t);
    CountRefCounts(s, t, p, tok, next);
    PhasesFrom(s, s', t);
    SameObjectsChains(s, s');
    CountLocks(s, s', t, next);
    CountRefOwn(s, t, tok);
    CountThreads(s, s', t, p, next);
  }

  lemma DropRefCounts(s: State, t: Tid, p: Ptr, r: Ref, c: Cell, next: PC)
    requires CountsOk(s) && RefsOk(s) && t in s.threads && LinkedIn(s, p) && r in s.refs && s.refs[r].obj == p
    requires c == s.heap[p].(count := c.count, forgotten := c.forgotten) && c.count >= 1
    requires c.count - c.forgotten == s.heap[p].count - s.heap[p].forgotten - 1
    requires BeforePublish(next) == BeforePublish(s.threads[t])
    ensures CountsOk(DropRef(s, t, p, r, c, next)) && RefsOk(DropRef(s, t, p, r, c, next))
  {
    var s' := DropRef(s, t, p, r, c, next);
    RefDropped(s.refs, r);
    forall q
      ensures CountOk(s', q)
    {
      assert CountOk(s, q);
    }
    SamePhases(s, s', t);
  }

  lemma DropRefThreads(s: State, t: Tid, p: Ptr, r: Ref, c: Cell, next: PC)
    requires Inv(s) && t in s.threads && LinkedIn(s, p) && s.heap[p].lock == Some(t)
    requires r in s.refs && s.refs[r].owner == t
    requires c == s.heap[p].(count := c.count, forgotten := c.forgotten)
    requires next == RelLastUnlockObj(p) || next == RelKeptUnlockObj(p)
    ensures ThreadsOk(DropRef(s, t, p, r, c, next))
  {
    var s' := DropRef(s, t, p, r, c, next);
    assert |s.fh| > 0;
    assert ThreadOk(s', t, next);
    CountThreads(s, s', t, p, next);
  }

  lemma DropRefKeeps(s: State, t: Tid, p: Ptr, r: Ref, c: Cell, next: PC)
    requires Inv(s) && t in s.threads && LinkedIn(s, p) && s.heap[p].lock == Some(t)
    requires r in s.refs && s.refs[r] == Claim(t, p)
    requires c == s.heap[p].(count := c.count, forgotten := c.forgotten) && c.count >= 1
    requires c.count - c.forgotten == s.heap[p].count - s.heap[p].forgotten - 1
    requires next == RelLastUnlockObj(p) || next == RelKeptUnlockObj(p)
    requires HoldsHash(next) == HoldsHash(s.threads[t]) && LockedObj(s.threads[t]) == Some(p)
    requires BeforePublish(s.threads[t]) == None && Retiring(s.threads[t]) == None
    ensures Inv(DropRef(s, t, p, r, c, next))
  {
    var s' := DropRef(s, t, p, r, c, next);
    PhasesFrom(s, s', t);
    DropRefCounts(s, t, p, r, c, next);
    SameObjectsChains(s, s');
    CountLocks(s, s', t, next);
    DropRefThreads(s, t, p, r, c, next);
  }

  // ----- allocation -----

  lemma MallocRefs(s: State, t: Tid, id: int, p: Ptr, r: Ref, repaired: bool)
    requires CountsOk(s) && RefsOk(s) && Enabled(s, Malloc(t, id, p, r))
    ensures var s' := Next(s, Malloc(t, id, p, r), repaired); RefsOk(s') && CountsOk(s')
  {
    var s' := Next(s, Malloc(t, id, p, r), repaired);
    RefAdded(s.refs, r, Claim(t, p));
    forall q
      ensures RefOk(s', q)
    {
      assert RefOk(s, q);
    }
    forall q | q in s.refs
      ensures s.refs[q].obj != p
    {
      assert RefOk(s, q);
    }
    assert RefsTo(s.refs, p) == {};
    forall q
      ensures CountOk(s', q)
    {
      assert CountOk(s, q);
    }
  }

  lemma MallocThreads(s: State, t: Tid, id: int, p: Ptr, r: Ref, repaired: bool)
    requires Inv(s) && Enabled(s, Malloc(t, id, p, r))
    ensures ThreadsOk(Next(s, Malloc(t, id, p, r), repaired))
  {
    var s' := Next(s, Malloc(t, id, p, r), repaired);
    assert ThreadOk(s', t, AllocLock(p, r));
    AllThreadsKeep(s, s', t);
  }

  lemma MallocKeeps(s: State, t: Tid, id: int, p: Ptr, r: Ref, repaired: bool)
    requires Inv(s) && Enabled(s, Malloc(t, id, p, r))
    ensures Inv(Next(s, Malloc(t, id, p, r), repaired))
  {
    var s' := Next(s, Malloc(t, id, p, r), repaired);
    MallocRefs(s, t, id, p, r, repaired);
    forall q
      ensures PhaseOk(s', q)
    {
      assert PhaseOk(s, q);
    }
    LocksFrom(s, s');
    ChainsKept(s, s');
    MallocThreads(s, t, id, p, r, repaired);
  }

  function NextSet(s: State, t: Tid, p: Ptr, r: Ref): State
    requires p in s.heap && |s.fh| > 0
  {
    s.Put(p, s.heap[p].(next := s.fh[s.Bucket(s.heap[p].id)])).Goto(t, AllocPublish(p, r))
  }

  lemma NextSetObjects(s: State, t: Tid, p: Ptr, r: Ref)
    requires Inv(s) && t in s.threads && s.threads[t] == AllocNext(p, r) && p in s.heap
    ensures LocksOk(NextSet(s, t, p, r)) && RefsOk(NextSet(s, t, p, r))
    ensures PhasesOk(NextSet(s, t, p, r)) && CountsOk(NextSet(s, t, p, r))
  {
    var s' := NextSet(s, t, p, r);
    assert ThreadInv(s, t) && HashOk(s, t);
    SamePhases(s, s', t);
    PhasesFrom(s, s', t);
    LocksFrom(s, s');
    forall q
      ensures CountOk(s', q)
    {
      assert CountOk(s, q);
    }
  }

  lemma AllocNextKeeps(s: State, t: Tid, p: Ptr, r: Ref)
    requires Inv(s) && t in s.threads && s.threads[t] == AllocNext(p, r) && p in s.heap
    ensures Inv(NextSet(s, t, p, r))
  {
    var s' := NextSet(s, t, p, r);
    NextSetObjects(s, t, p, r);
    assert ThreadInv(s, t) && HashOk(s, t);
    ChainsKept(s, s');
    assert ThreadOk(s', t, AllocPublish(p, r));
    AllThreadsKeep(s, s', t);
  }

  function Published(s: State, t: Tid, p: Ptr, r: Ref): State
    requires p in s.heap && |s.fh| > 0 && |s.chains| == |s.fh|
  {
    var b := s.Bucket(s.heap[p].id);
    s.(fh := s.fh[b := Some(p)], chains := s.chains[b := [p] + s.chains[b]],
       heap := s.heap[p := s.heap[p].(phase := Linked)], threads := s.threads[t := AllocLockObj(p, r)])
  }

  lemma PublishedChains(s: State, t: Tid, p: Ptr, r: Ref)
    requires ChainsOk(s) && p in s.heap && s.heap[p].phase.Private?
    requires s.heap[p].next == s.fh[s.Bucket(s.heap[p].id)]
    ensures ChainsOk(Published(s, t, p, r))
  {
    var s' := Published(s, t, p, r);
    var b := s.Bucket(s.heap[p].id);
    forall c, k
      ensures LinkOk(s', c, k)
    {
      assert LinkOk(s, c, if c == b then k - 1 else k);
      assert s.fh[b] == At(s.chains[b], 0);
    }
    forall q
      ensures ChainedOk(s', q)
    {
      assert ChainedOk(s, q);
      if q == p {
        assert s'.chains[b][0] == p;
      }
    }
    forall c | 0 <= c < |s'.chains|
      ensures NoRepeats(s'.chains[c])
    {
      forall k, l | 0 <= k < l < |s'.chains[c]|
        ensures s'.chains[c][k] != s'.chains[c][l]
      {
        assert NoRepeats(s.chains[c]);
        assert LinkOk(s, c, l - 1);
      }
    }
  }

  lemma PublishKeeps(s: State, t: Tid, p: Ptr, r: Ref)
    requires Inv(s) && t in s.threads && s.threads[t] == AllocPublish(p, r) && p in s.heap
    ensures Inv(Published(s, t, p, r))
  {
    var s' := Published(s, t, p, r);
    assert ThreadInv(s, t) && HashOk(s, t);
    PublishedChains(s, t, p, r);
    forall q
      ensures PhaseOk(s', q)
    {
      assert PhaseOk(s, q);
    }
    LocksFrom(s, s');
    forall q
      ensures CountOk(s', q)
    {
      assert CountOk(s, q);
    }
    forall q
      ensures RefOk(s', q)
    {
      assert RefOk(s, q);
    }
    assert ThreadOk(s', t, AllocLockObj(p, r));
    AllThreadsKeep(s, s', t);
  }

  lemma TransferKeeps(s: State, r: Ref, to: Tid)
    requires Inv(s) && Enabled(s, Transfer(r, to))
    ensures Inv(Next(s, Transfer(r, to), true))
  {
    var s' := Next(s, Transfer(r, to), true);
    var t := s.refs[r].owner;
    assert RefOk(s, r);
    forall q
      ensures RefOk(s', q)
    {
      assert RefOk(s, q);
    }
    forall p
      ensures CountOk(s', p)
    {
      assert CountOk(s, p);
      assert RefsTo(s'.refs, p) == RefsTo(s.refs, p);
    }
    forall p
      ensures PhaseOk(s', p)
    {
      assert PhaseOk(s, p);
    }
    LocksFrom(s, s');
    ChainsKept(s, s');
    assert ThreadInv(s, t);
    assert ThreadOk(s', t, Idle);
    AllThreadsKeep(s, s', t);
  }
}
