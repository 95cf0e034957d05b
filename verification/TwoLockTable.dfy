/**
 * The table under two levels of locking, as a step system: any number of threads, one shared memory
 * access or one lock operation per step, any interleaving. `repaired` selects whether the recheck
 * branch of the release also drops the caller's reference (the program as written does not).
 */
module TwoLockTable {
  import opened Common
  import opened FooTable
  import opened Sequences

  type Tid = nat
  type Ptr = nat
  /** A reference some caller owes a release for: one per successful alloc, hold or find. */
  type Ref = nat

  /** History of an object: not yet in a chain, in its chain, or unlinked and about to be freed. */
  datatype Phase = Private(owner: Tid) | Linked | Dying(freer: Tid)

  /** `forgotten` counts the releases of this object that returned without dropping their reference. */
  datatype Cell = Cell(id: int, count: int, next: Option<Ptr>, lock: Option<Tid>, phase: Phase, forgotten: nat)

  datatype Claim = Claim(owner: Tid, obj: Ptr)

  /** Where a thread is: the next line it runs, with its local variables. */
  datatype PC =
    | Idle
    | AllocLock(p: Ptr, r: Ref)
    | AllocNext(p: Ptr, r: Ref)
    | AllocPublish(p: Ptr, r: Ref)
    | AllocLockObj(p: Ptr, r: Ref)
    | AllocUnlockObj(p: Ptr, r: Ref)
    | AllocUnlock(p: Ptr, r: Ref)
    | HoldLockObj(p: Ptr, r: Ref)
    | HoldCount(p: Ptr, r: Ref)
    | HoldUnlockObj(p: Ptr, r: Ref)
    | FindLock(id: int)
    | FindHead(id: int)
    | FindTest(id: int, cur: Option<Ptr>)
    | FindLockObj(id: int, p: Ptr)
    | FindCount(id: int, p: Ptr)
    | FindUnlockObj(p: Ptr, r: Ref)
    | FindUnlock(result: Option<Ptr>)
    | RelLockObj(p: Ptr, r: Ref)
    | RelTest(p: Ptr, r: Ref)
    | RelUnlockObj(p: Ptr, r: Ref)
    | RelLock(p: Ptr, r: Ref)
    | RelRelockObj(p: Ptr, r: Ref)
    | RelRecheck(p: Ptr, r: Ref)
    | RelKeptUnlockObj(p: Ptr)
    | RelKeptUnlock
    | RelHead(p: Ptr, r: Ref)
    | RelWalk(p: Ptr, r: Ref, tfp: Option<Ptr>)
    | RelUnlock(p: Ptr)
    | RelDyingUnlockObj(p: Ptr)
    | RelFree(p: Ptr)
    | RelDecrement(p: Ptr, r: Ref)
    | RelLastUnlockObj(p: Ptr)

  datatype State = State(
    fh: seq<Option<Ptr>>, heap: map<Ptr, Cell>, hashlock: Option<Tid>,
    threads: map<Tid, PC>, refs: map<Ref, Claim>, chains: seq<seq<Ptr>>) {

    function Goto(t: Tid, pc: PC): State {
      this.(threads := threads[t := pc])
    }

    function Put(p: Ptr, c: Cell): State {
      this.(heap := heap[p := c])
    }

    function Bucket(id: int): nat
      requires |fh| > 0
    {
      HashOf(id, |fh|)
    }
  }

  datatype Action =
    | Malloc(t: Tid, id: int, p: Ptr, r: Ref)
    | CallHold(t: Tid, r: Ref)
    | CallFind(t: Tid, id: int)
    | CallRelease(t: Tid, r: Ref)
    | Transfer(r: Ref, to: Tid)
    | Run(t: Tid, tok: Ref)

  // ----- the program, line by line -----

  datatype Kind = LockHash | UnlockHash | LockObj | UnlockObj | CountUp | CountDown | Memory | NoCode

  function KindOf(pc: PC): Kind {
    match pc
    case Idle => NoCode
    case AllocLock(_, _) | FindLock(_) | RelLock(_, _) => LockHash
    case AllocUnlock(_, _) | FindUnlock(_) | RelKeptUnlock | RelUnlock(_) => UnlockHash
    case AllocLockObj(_, _) | HoldLockObj(_, _) | FindLockObj(_, _) | RelLockObj(_, _) | RelRelockObj(_, _) => LockObj
    case AllocUnlockObj(_, _) | HoldUnlockObj(_, _) | FindUnlockObj(_, _) | RelUnlockObj(_, _)
       | RelKeptUnlockObj(_) | RelDyingUnlockObj(_) | RelLastUnlockObj(_) => UnlockObj
    case HoldCount(_, _) | FindCount(_, _) => CountUp
    case RelDecrement(_, _) => CountDown
    case _ => Memory
  }

  /** The line after a lock, an unlock or a change of the count. */
  function After(pc: PC, tok: Ref): PC {
    match pc
    case AllocLock(p, r) => AllocNext(p, r)
    case AllocLockObj(p, r) => AllocUnlockObj(p, r)
    case AllocUnlockObj(p, r) => AllocUnlock(p, r)
    case HoldLockObj(p, r) => HoldCount(p, r)
    case HoldCount(p, r) => HoldUnlockObj(p, r)
    case FindLock(id) => FindHead(id)
    case FindLockObj(id, p) => FindCount(id, p)
    case FindCount(id, p) => FindUnlockObj(p, tok)
    case FindUnlockObj(p, r) => FindUnlock(Some(p))
    case RelLockObj(p, r) => RelTest(p, r)
    case RelUnlockObj(p, r) => RelLock(p, r)
    case RelLock(p, r) => RelRelockObj(p, r)
    case RelRelockObj(p, r) => RelRecheck(p, r)
    case RelKeptUnlockObj(p) => RelKeptUnlock
    case RelUnlock(p) => RelDyingUnlockObj(p)
    case RelDyingUnlockObj(p) => RelFree(p)
    case RelDecrement(p, r) => RelLastUnlockObj(p)
    case _ => Idle
  }

  /** Every pointer the next line follows is non-null and points to memory that has not been freed. */
  predicate Safe(s: State, pc: PC) {
    match pc
    case Idle | FindLock(_) | FindHead(_) | FindUnlock(_) | RelKeptUnlock | RelUnlock(_) | AllocLock(_, _)
       | AllocUnlock(_, _) | RelLock(_, _) => true
    case FindTest(_, cur) => cur.Some? ==> cur.value in s.heap
    case RelWalk(p, _, tfp) => p in s.heap && tfp.Some? && tfp.value in s.heap
    case _ => pc.p in s.heap
  }

  predicate Enabled(s: State, a: Action) {
    && |s.fh| > 0 && |s.chains| == |s.fh|
    && match a
       case Malloc(t, _, p, r) => t in s.threads && s.threads[t] == Idle && p !in s.heap && r !in s.refs
       case CallHold(t, r) => t in s.threads && s.threads[t] == Idle && r in s.refs && s.refs[r].owner == t
       case CallFind(t, _) => t in s.threads && s.threads[t] == Idle
       case CallRelease(t, r) => t in s.threads && s.threads[t] == Idle && r in s.refs && s.refs[r].owner == t
       case Transfer(r, to) =>
         && r in s.refs && to in s.threads
         && s.refs[r].owner in s.threads && s.threads[s.refs[r].owner] == Idle
       case Run(t, tok) =>
         && t in s.threads
         && var pc := s.threads[t];
         && Safe(s, pc)
         && match KindOf(pc)
            case NoCode => false
            case LockHash => s.hashlock == None
            case LockObj => s.heap[pc.p].lock == None
            case CountUp => tok !in s.refs
            case _ => true
  }

  // ----- the effect of each kind of line -----

  function TakeHash(s: State, t: Tid, next: PC): State {
    s.(hashlock := Some(t), threads := s.threads[t := next])
  }

  function DropHash(s: State, t: Tid, next: PC): State {
    s.(hashlock := None, threads := s.threads[t := next])
  }

  function SetLock(s: State, t: Tid, p: Ptr, lock: Option<Tid>, next: PC): State
    requires p in s.heap
  {
    s.(heap := s.heap[p := s.heap[p].(lock := lock)], threads := s.threads[t := next])
  }

  /** One more reference to `p`, owned by the thread. */
  function CountRef(s: State, t: Tid, p: Ptr, tok: Ref, next: PC): State
    requires p in s.heap
  {
    s.(heap := s.heap[p := s.heap[p].(count := s.heap[p].count + 1)],
       refs := s.refs[tok := Claim(t, p)], threads := s.threads[t := next])
  }

  /** The caller gives up reference `r`; `c` is the object's cell afterwards. */
  function DropRef(s: State, t: Tid, p: Ptr, r: Ref, c: Cell, next: PC): State {
    s.(heap := s.heap[p := c], refs := s.refs - {r}, threads := s.threads[t := next])
  }

  /** Taking `p` out of its chain, whose other pointers have just been redirected around it. */
  function Unlinked(s: State, t: Tid, p: Ptr, r: Ref): State
    requires p in s.heap && |s.fh| > 0 && |s.chains| == |s.fh|
  {
    var b := s.Bucket(s.heap[p].id);
    s.(heap := s.heap[p := s.heap[p].(phase := Dying(t))],
       chains := s.chains[b := Without(s.chains[b], p)],
       refs := s.refs - {r},
       threads := s.threads[t := RelUnlock(p)])
  }

  function RunMemory(s: State, t: Tid, repaired: bool): State
    requires |s.fh| > 0 && |s.chains| == |s.fh| && t in s.threads && KindOf(s.threads[t]) == Memory
    requires Safe(s, s.threads[t])
  {
    match s.threads[t]
    case AllocNext(p, r) =>
      s.Put(p, s.heap[p].(next := s.fh[s.Bucket(s.heap[p].id)])).Goto(t, AllocPublish(p, r))
    case AllocPublish(p, r) =>
      var b := s.Bucket(s.heap[p].id);
      s.(fh := s.fh[b := Some(p)], chains := s.chains[b := [p] + s.chains[b]])
       .Put(p, s.heap[p].(phase := Linked)).Goto(t, AllocLockObj(p, r))
    case FindHead(id) => s.Goto(t, FindTest(id, s.fh[s.Bucket(id)]))
    case FindTest(id, None) => s.Goto(t, FindUnlock(None))
    case FindTest(id, Some(q)) =>
      if s.heap[q].id == id then s.Goto(t, FindLockObj(id, q)) else s.Goto(t, FindTest(id, s.heap[q].next))
    case RelTest(p, r) =>
      if s.heap[p].count == 1 then s.Goto(t, RelUnlockObj(p, r)) else s.Goto(t, RelDecrement(p, r))
    case RelRecheck(p, r) =>
      var c := s.heap[p];
      if c.count == 1 then s.Goto(t, RelHead(p, r))
      else DropRef(s, t, p, r, if repaired then c.(count := c.count - 1) else c.(forgotten := c.forgotten + 1),
                   RelKeptUnlockObj(p))
    case RelHead(p, r) =>
      var b := s.Bucket(s.heap[p].id);
      if s.fh[b] == Some(p) then Unlinked(s.(fh := s.fh[b := s.heap[p].next]), t, p, r)
      else s.Goto(t, RelWalk(p, r, s.fh[b]))
    case RelWalk(p, r, Some(q)) =>
      if s.heap[q].next == Some(p) then Unlinked(s.Put(q, s.heap[q].(next := s.heap[p].next)), t, p, r)
      else s.Goto(t, RelWalk(p, r, s.heap[q].next))
    case RelFree(p) => s.(heap := s.heap - {p}).Goto(t, Idle)
  }

  function Next(s: State, a: Action, repaired: bool): State
    requires Enabled(s, a)
  {
    match a
    case Malloc(t, id, p, r) =>
      s.Put(p, Cell(id, 1, None, None, Private(t), 0)).(refs := s.refs[r := Claim(t, p)]).Goto(t, AllocLock(p, r))
    case CallHold(t, r) => s.Goto(t, HoldLockObj(s.refs[r].obj, r))
    case CallFind(t, id) => s.Goto(t, FindLock(id))
    case CallRelease(t, r) => s.Goto(t, RelLockObj(s.refs[r].obj, r))
    case Transfer(r, to) => s.(refs := s.refs[r := Claim(to, s.refs[r].obj)])
    case Run(t, tok) =>
      var pc := s.threads[t];
      match KindOf(pc)
      case LockHash => TakeHash(s, t, After(pc, tok))
      case UnlockHash => DropHash(s, t, After(pc, tok))
      case LockObj => SetLock(s, t, pc.p, Some(t), After(pc, tok))
      case UnlockObj => SetLock(s, t, pc.p, None, After(pc, tok))
      case CountUp => CountRef(s, t, pc.p, tok, After(pc, tok))
      case CountDown => DropRef(s, t, pc.p, pc.r, s.heap[pc.p].(count := s.heap[pc.p].count - 1), After(pc, tok))
      case Memory => RunMemory(s, t, repaired)
  }
}
