/** The global invariant of the two-lock table and the proof that every step keeps it. */
module TwoLockInv {
  import opened Common
  import opened FooTable
  import opened Sequences
  import opened TwoLockTable

  function At(c: seq<Ptr>, k: nat): Option<Ptr> {
    if k < |c| then Some(c[k]) else None
  }

  function RefsTo(refs: map<Ref, Claim>, p: Ptr): set<Ref> {
    set r | r in refs && refs[r].obj == p
  }

  predicate HoldsHash(pc: PC) {
    pc.AllocNext? || pc.AllocPublish? || pc.AllocLockObj? || pc.AllocUnlockObj? || pc.AllocUnlock?
    || pc.FindHead? || pc.FindTest? || pc.FindLockObj? || pc.FindCount? || pc.FindUnlockObj? || pc.FindUnlock?
    || pc.RelRelockObj? || pc.RelRecheck? || pc.RelKeptUnlockObj? || pc.RelKeptUnlock?
    || pc.RelHead? || pc.RelWalk? || pc.RelUnlock?
  }

  function LockedObj(pc: PC): Option<Ptr> {
    if || pc.AllocUnlockObj? || pc.HoldCount? || pc.HoldUnlockObj? || pc.FindCount? || pc.FindUnlockObj?
       || pc.RelTest? || pc.RelUnlockObj? || pc.RelRecheck? || pc.RelKeptUnlockObj? || pc.RelHead? || pc.RelWalk?
       || pc.RelUnlock? || pc.RelDyingUnlockObj? || pc.RelDecrement? || pc.RelLastUnlockObj?
    then Some(pc.p) else None
  }

  /** The reference the running call works on; it belongs to this thread until the call drops it. */
  function TokenOf(pc: PC): Option<Ref> {
    if || pc.AllocLock? || pc.AllocNext? || pc.AllocPublish? || pc.AllocLockObj? || pc.AllocUnlockObj?
       || pc.AllocUnlock? || pc.HoldLockObj? || pc.HoldCount? || pc.HoldUnlockObj? || pc.FindUnlockObj?
       || pc.RelLockObj? || pc.RelTest? || pc.RelUnlockObj? || pc.RelLock? || pc.RelRelockObj?
       || pc.RelRecheck? || pc.RelHead? || pc.RelWalk? || pc.RelDecrement?
    then Some(pc.r) else None
  }

  /** The object the thread is working on, and the phase that object is in as far as the thread is concerned. */
  function ObjOf(pc: PC, t: Tid): Option<(Ptr, Phase)> {
    match pc
    case Idle | FindLock(_) | FindHead(_) | FindTest(_, _) | FindUnlock(_) | RelKeptUnlock => None
    case AllocLock(_, _) | AllocNext(_, _) | AllocPublish(_, _) => Some((pc.p, Private(t)))
    case RelUnlock(_) | RelDyingUnlockObj(_) | RelFree(_) => Some((pc.p, Dying(t)))
    case _ => Some((pc.p, Linked))
  }

  predicate LinkedIn(s: State, p: Ptr) {
    p in s.heap && s.heap[p].phase == Linked
  }

  /** None of the first `k` objects of the chain has the id. */
  ghost predicate Scanned(s: State, c: seq<Ptr>, id: int, k: int) {
    0 <= k <= |c| && forall j | 0 <= j < k :: c[j] in s.heap && s.heap[c[j]].id != id
  }

  ghost predicate OnPath(c: seq<Ptr>, tfp: Option<Ptr>, p: Ptr, k: int) {
    0 <= k < |c| && tfp == Some(c[k]) && p in c[k + 1..]
  }

  /** The thread's object is live, in the expected phase, and the thread owns the reference it works on. */
  predicate ObjectOk(s: State, t: Tid, pc: PC) {
    ObjOf(pc, t).Some? ==>
      var (p, phase) := ObjOf(pc, t).value;
      && p in s.heap && s.heap[p].phase == phase
      && (TokenOf(pc).Some? ==> TokenOf(pc).value in s.refs && s.refs[TokenOf(pc).value] == Claim(t, p))
  }

  ghost predicate ThreadOk(s: State, t: Tid, pc: PC) {
    && |s.fh| > 0 && |s.chains| == |s.fh|
    && ObjectOk(s, t, pc)
    && LocalOk(s, t, pc)
  }

  /** What the thread has established under the locks it holds. */
  ghost predicate LocalOk(s: State, t: Tid, pc: PC)
    requires |s.fh| > 0 && |s.chains| == |s.fh| && ObjectOk(s, t, pc)
  {
    match pc
    case AllocPublish(p, _) => s.heap[p].next == s.fh[s.Bucket(s.heap[p].id)]
    case FindTest(id, cur) => Searching(s, id, cur)
    case FindLockObj(id, p) => FirstHit(s, id, p)
    case FindCount(id, p) => FirstHit(s, id, p)
    case RelHead(p, _) => s.heap[p].count == 1
    case RelWalk(p, _, tfp) => s.heap[p].count == 1 && Walking(s, p, tfp)
    case RelDecrement(p, _) => s.heap[p].count > 1
    case _ => true
  }

  ghost predicate Searching(s: State, id: int, cur: Option<Ptr>)
    requires |s.fh| > 0 && |s.chains| == |s.fh|
  {
    exists k :: Scanned(s, s.chains[s.Bucket(id)], id, k) && cur == At(s.chains[s.Bucket(id)], k)
  }

  ghost predicate Walking(s: State, p: Ptr, tfp: Option<Ptr>)
    requires |s.fh| > 0 && |s.chains| == |s.fh| && p in s.heap
  {
    exists k :: OnPath(s.chains[s.Bucket(s.heap[p].id)], tfp, p, k)
  }

  ghost predicate FirstHit(s: State, id: int, p: Ptr)
    requires |s.fh| > 0 && |s.chains| == |s.fh|
  {
    && p in s.heap && s.heap[p].id == id
    && var c := s.chains[s.Bucket(id)];
       exists k :: Scanned(s, c, id, k) && At(c, k) == Some(p)
  }

  // The invariant is a conjunction of statements about one thread, one object, one reference or one
  // place in a chain each. Each has a name, so that a proof says which ones it uses.

  ghost predicate ThreadInv(s: State, t: Tid) {
    t in s.threads ==> ThreadOk(s, t, s.threads[t])
  }

  ghost predicate ThreadsOk(s: State) {
    forall t :: ThreadInv(s, t)
  }

  /** The owner recorded in the hash lock is the thread whose program counter is inside. */
  predicate HashOk(s: State, t: Tid) {
    t in s.threads ==> (HoldsHash(s.threads[t]) <==> s.hashlock == Some(t))
  }

  predicate HolderOk(s: State, t: Tid) {
    t in s.threads && LockedObj(s.threads[t]).Some? ==>
      LockedObj(s.threads[t]).value in s.heap && s.heap[LockedObj(s.threads[t]).value].lock == Some(t)
  }

  predicate LockOk(s: State, p: Ptr) {
    p in s.heap && s.heap[p].lock.Some? ==>
      s.heap[p].lock.value in s.threads && LockedObj(s.threads[s.heap[p].lock.value]) == Some(p)
  }

  ghost predicate LocksOk(s: State) {
    && (forall t :: HashOk(s, t))
    && (s.hashlock.Some? ==> s.hashlock.value in s.threads)
    && (forall t :: HolderOk(s, t))
    && (forall p :: LockOk(s, p))
  }

  /** A reference is owned by a thread and leads to a live object that is not about to be freed. */
  predicate RefOk(s: State, r: Ref) {
    r in s.refs ==>
      && s.refs[r].owner in s.threads
      && s.refs[r].obj in s.heap
      && match s.heap[s.refs[r].obj].phase
         case Private(t) => t == s.refs[r].owner && BeforePublish(s.threads[t]) == Some(s.refs[r].obj)
         case Linked => true
         case Dying(_) => false
  }

  ghost predicate RefsOk(s: State) {
    forall r :: RefOk(s, r)
  }

  function BeforePublish(pc: PC): Option<Ptr> {
    if pc.AllocLock? || pc.AllocNext? || pc.AllocPublish? then Some(pc.p) else None
  }

  /** The object a release has taken out of its chain and is about to free. */
  function Retiring(pc: PC): Option<Ptr> {
    if pc.RelUnlock? || pc.RelDyingUnlockObj? || pc.RelFree? then Some(pc.p) else None
  }

  /** An object outside the chains is one that a running call is about to link or about to free. */
  predicate PhaseOk(s: State, p: Ptr) {
    p in s.heap ==>
      match s.heap[p].phase
      case Private(t) => t in s.threads && BeforePublish(s.threads[t]) == Some(p)
      case Linked => true
      case Dying(t) => t in s.threads && Retiring(s.threads[t]) == Some(p)
  }

  ghost predicate PhasesOk(s: State) {
    forall p :: PhaseOk(s, p)
  }

  /**
   * The count is the number of references callers still owe, plus the forgotten ones, and is positive;
   * only an object in the table can have forgotten ones.
   */
  predicate CountOk(s: State, p: Ptr) {
    p in s.heap ==>
      && (!s.heap[p].phase.Dying? ==>
            s.heap[p].count == |RefsTo(s.refs, p)| + s.heap[p].forgotten && s.heap[p].count >= 1)
      && (s.heap[p].phase.Private? ==> s.heap[p].count == 1)
      && (s.heap[p].phase != Linked ==> s.heap[p].forgotten == 0)
  }

  ghost predicate CountsOk(s: State) {
    forall p :: CountOk(s, p)
  }

  /** The object at place `k` of chain `b` is linked, belongs there, and points to its successor. */
  predicate LinkOk(s: State, b: int, k: int) {
    0 <= b < |s.chains| && 0 <= k < |s.chains[b]| && |s.fh| > 0 ==>
      && LinkedIn(s, s.chains[b][k])
      && s.Bucket(s.heap[s.chains[b][k]].id) == b
      && s.heap[s.chains[b][k]].next == At(s.chains[b], k + 1)
  }

  predicate ChainedOk(s: State, p: Ptr) {
    LinkedIn(s, p) && 0 < |s.fh| == |s.chains| ==> p in s.chains[s.Bucket(s.heap[p].id)]
  }

  ghost predicate ChainsOk(s: State) {
    && |s.fh| > 0 && |s.chains| == |s.fh|
    && (forall b | 0 <= b < |s.fh| :: s.fh[b] == At(s.chains[b], 0))
    && (forall b, k :: LinkOk(s, b, k))
    && (forall b | 0 <= b < |s.chains| :: NoRepeats(s.chains[b]))
    && (forall p :: ChainedOk(s, p))
  }

  ghost predicate Inv(s: State) {
    ThreadsOk(s) && LocksOk(s) && RefsOk(s) && PhasesOk(s) && CountsOk(s) && ChainsOk(s)
  }

  predicate IsInit(s: State) {
    && |s.fh| > 0 && |s.chains| == |s.fh| && s.heap == map[] && s.refs == map[] && s.hashlock == None
    && (forall b | 0 <= b < |s.fh| :: s.fh[b] == None && s.chains[b] == [])
    && forall t | t in s.threads :: s.threads[t] == Idle
  }

  lemma InitHolds(s: State)
    requires IsInit(s)
    ensures Inv(s)
  {
  }

  // ----- what one thread's step cannot disturb in the others -----

  /** Thread `t` changed only what its locks, its own objects and its own references entitle it to change. */
  ghost predicate Entitled(s: State, s': State, t: Tid) {
    && t in s.threads && s'.threads.Keys == s.threads.Keys
    && (forall u | u in s.threads && u != t :: s'.threads[u] == s.threads[u])
    && |s'.fh| == |s.fh| && |s'.chains| == |s.chains|
    && (s.hashlock != Some(t) ==> s'.fh == s.fh && s'.chains == s.chains)
    && (forall p | p in s.heap && s.heap[p].phase != Dying(t) ::
          && p in s'.heap
          && s'.heap[p].id == s.heap[p].id
          && (s.hashlock != Some(t) ==> s'.heap[p].next == s.heap[p].next)
          && (s.heap[p].lock != Some(t) ==> s'.heap[p].count == s.heap[p].count)
          && (s'.heap[p].phase == s.heap[p].phase || s.heap[p].phase == Private(t) || OnlyMine(s, p, t)))
    && (forall r | r in s.refs && s.refs[r].owner != t :: r in s'.refs && s'.refs[r] == s.refs[r])
  }

  /** Both locks are held by `t`, and nobody else has a reference. */
  ghost predicate OnlyMine(s: State, p: Ptr, t: Tid) {
    && p in s.heap && s.heap[p].phase == Linked && s.heap[p].lock == Some(t) && s.hashlock == Some(t)
    && forall r | r in s.refs && s.refs[r].obj == p :: s.refs[r].owner == t
  }

  lemma OthersObjectKept(s: State, s': State, t: Tid, u: Tid)
    requires Inv(s) && Entitled(s, s', t) && u in s.threads && u != t
    ensures ObjectOk(s', u, s.threads[u])
  {
    var pc := s.threads[u];
    assert ThreadInv(s, u) && HashOk(s, u) && HolderOk(s, u);
    if ObjOf(pc, u).Some? {
      var (p, phase) := ObjOf(pc, u).value;
      assert phase != Private(t) && phase != Dying(t);
      if phase == Linked {
        assert !OnlyMine(s, p, t);
      }
    }
  }

  lemma OthersLocalKept(s: State, s': State, t: Tid, u: Tid)
    requires Inv(s) && Entitled(s, s', t) && u in s.threads && u != t
    requires ObjectOk(s', u, s.threads[u])
    ensures LocalOk(s', u, s.threads[u])
  {
    var pc := s.threads[u];
    assert ThreadInv(s, u) && HashOk(s, u) && HolderOk(s, u);
    match pc
    case FindTest(id, cur) => SearchingKept(s, s', t, id, cur);
    case FindLockObj(id, p) => FirstHitKept(s, s', t, id, p);
    case FindCount(id, p) => FirstHitKept(s, s', t, id, p);
    case RelWalk(p, _, tfp) => WalkingKept(s, s', t, p, tfp);
    case _ =>
  }

  lemma OthersKeep(s: State, s': State, t: Tid, u: Tid)
    requires Inv(s) && Entitled(s, s', t) && u in s.threads && u != t
    ensures ThreadOk(s', u, s.threads[u])
  {
    OthersObjectKept(s, s', t, u);
    OthersLocalKept(s, s', t, u);
  }

  lemma ScannedKept(s: State, s': State, t: Tid, c: seq<Ptr>, id: int, k: int)
    requires Inv(s) && Entitled(s, s', t) && s.hashlock != Some(t)
    requires c == s.chains[s.Bucket(id)] && Scanned(s, c, id, k)
    ensures Scanned(s', s'.chains[s'.Bucket(id)], id, k)
  {
    forall j | 0 <= j < k
      ensures c[j] in s'.heap && s'.heap[c[j]].id != id
    {
      assert LinkOk(s, s.Bucket(id), j);
    }
  }

  lemma SearchingKept(s: State, s': State, t: Tid, id: int, cur: Option<Ptr>)
    requires Inv(s) && Entitled(s, s', t) && s.hashlock != Some(t)
    requires Searching(s, id, cur)
    ensures Searching(s', id, cur)
  {
    var c := s.chains[s.Bucket(id)];
    var k :| Scanned(s, c, id, k) && cur == At(c, k);
    ScannedKept(s, s', t, c, id, k);
  }

  lemma WalkingKept(s: State, s': State, t: Tid, p: Ptr, tfp: Option<Ptr>)
    requires Inv(s) && Entitled(s, s', t) && s.hashlock != Some(t)
    requires LinkedIn(s, p) && p in s'.heap && Walking(s, p, tfp)
    ensures Walking(s', p, tfp)
  {
    var k :| OnPath(s.chains[s.Bucket(s.heap[p].id)], tfp, p, k);
    assert OnPath(s'.chains[s'.Bucket(s'.heap[p].id)], tfp, p, k);
  }

  lemma FirstHitKept(s: State, s': State, t: Tid, id: int, p: Ptr)
    requires Inv(s) && Entitled(s, s', t) && s.hashlock != Some(t)
    requires FirstHit(s, id, p) && LinkedIn(s, p)
    ensures FirstHit(s', id, p)
  {
    var c := s.chains[s.Bucket(id)];
    var k :| Scanned(s, c, id, k) && At(c, k) == Some(p);
    ScannedKept(s, s', t, c, id, k);
  }

  lemma AllThreadsKeep(s: State, s': State, t: Tid)
    requires Inv(s) && Entitled(s, s', t) && ThreadOk(s', t, s'.threads[t])
    ensures ThreadsOk(s')
  {
    forall u
      ensures ThreadInv(s', u)
    {
      if u != t && u in s.threads {
        OthersKeep(s, s', t, u);
      }
    }
  }

  // ----- chains untouched -----

  /** The chained objects are the same, with the same ids and links. */
  ghost predicate SameChains(s: State, s': State) {
    && s'.fh == s.fh && s'.chains == s.chains
    && (forall p :: LinkedIn(s', p) <==> LinkedIn(s, p))
    && (forall p | LinkedIn(s, p) :: s'.heap[p].id == s.heap[p].id && s'.heap[p].next == s.heap[p].next)
  }

  lemma ChainsKept(s: State, s': State)
    requires ChainsOk(s) && SameChains(s, s')
    ensures ChainsOk(s')
  {
    forall b, k
      ensures LinkOk(s', b, k)
    {
      assert LinkOk(s, b, k);
    }
    forall p
      ensures ChainedOk(s', p)
    {
      assert ChainedOk(s, p);
    }
  }

  // ----- references -----

  lemma RefAdded(refs: map<Ref, Claim>, r: Ref, c: Claim)
    requires r !in refs
    ensures forall p :: |RefsTo(refs[r := c], p)| == |RefsTo(refs, p)| + (if p == c.obj then 1 else 0)
  {
    forall p
      ensures |RefsTo(refs[r := c], p)| == |RefsTo(refs, p)| + (if p == c.obj then 1 else 0)
    {
      assert RefsTo(refs[r := c], p) == RefsTo(refs, p) + (if p == c.obj then {r} else {});
    }
  }

  lemma RefDropped(refs: map<Ref, Claim>, r: Ref)
    requires r in refs
    ensures forall p :: |RefsTo(refs - {r}, p)| == |RefsTo(refs, p)| - (if p == refs[r].obj then 1 else 0)
  {
    forall p
      ensures |RefsTo(refs - {r}, p)| == |RefsTo(refs, p)| - (if p == refs[r].obj then 1 else 0)
    {
      assert RefsTo(refs, p) == RefsTo(refs - {r}, p) + (if p == refs[r].obj then {r} else {});
    }
  }

  lemma OnlyRef(refs: map<Ref, Claim>, r: Ref)
    requires r in refs && |RefsTo(refs, refs[r].obj)| <= 1
    ensures forall q | q in refs && refs[q].obj == refs[r].obj :: q == r
  {
    forall q | q in refs && refs[q].obj == refs[r].obj
      ensures q == r
    {
      if q != r {
        assert {q, r} <= RefsTo(refs, refs[r].obj);
        Subset({q, r}, RefsTo(refs, refs[r].obj));
      }
    }
  }

  lemma Subset(a: set<Ref>, b: set<Ref>)
    requires a <= b
    ensures |a| <= |b|
  {
    assert b == a + (b - a);
  }
}
