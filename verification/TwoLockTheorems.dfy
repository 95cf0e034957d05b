/** What the two-lock table guarantees in every reachable state and over every run. */
module TwoLockTheorems {
  import opened Common
  import opened FooTable
  import opened Sequences
  import opened TwoLockTable
  import opened TwoLockInv
  import opened TwoLockSteps
  import opened TwoLockUnlink

  // ----- memory safety and deadlock freedom -----

  /** No line of any thread follows a null pointer or touches freed memory. */
  lemma AlwaysSafe(s: State, t: Tid)
    requires Inv(s) && t in s.threads
    ensures Safe(s, s.threads[t])
  {
    assert ThreadInv(s, t);
    match s.threads[t]
    case FindTest(id, Some(q)) => SearchMovesOn(s, id, q);
    case RelWalk(p, r, tfp) =>
      var k :| OnPath(s.chains[s.Bucket(s.heap[p].id)], tfp, p, k);
      assert LinkOk(s, s.Bucket(s.heap[p].id), k);
    case _ =>
  }

  predicate IsWaiting(pc: PC) {
    KindOf(pc) == LockHash || KindOf(pc) == LockObj
  }

  /** Lines that take a lock are run holding none that comes after it. */
  lemma WaitingPc(pc: PC)
    requires IsWaiting(pc)
    ensures LockedObj(pc) == None
    ensures KindOf(pc) == LockHash ==> !HoldsHash(pc)
  {
  }

  /**
   * The two levels are taken in one order only: a thread about to take a lock is the recorded owner of
   * no object's lock, and one about to take the table's lock is the recorded owner of no lock at all.
   */
  lemma LockOrder(s: State, t: Tid)
    requires Inv(s) && t in s.threads && IsWaiting(s.threads[t])
    ensures forall p | p in s.heap :: s.heap[p].lock != Some(t)
    ensures KindOf(s.threads[t]) == LockHash ==> s.hashlock != Some(t)
  {
    WaitingPc(s.threads[t]);
    assert HashOk(s, t);
    forall p | p in s.heap
      ensures s.heap[p].lock != Some(t)
    {
      assert LockOk(s, p);
    }
  }

  /** The next line reads or writes a bucket's head or an object's link. */
  predicate OnChains(pc: PC) {
    pc.AllocNext? || pc.AllocPublish? || pc.FindHead? || pc.FindTest? || pc.RelHead? || pc.RelWalk?
  }

  /** The next line reads or writes the count of object `pc.p`. */
  predicate OnCount(pc: PC) {
    pc.HoldCount? || pc.FindCount? || pc.RelTest? || pc.RelRecheck? || pc.RelDecrement?
  }

  /** The chains are looked at under the table's lock only, and a count under its object's lock only. */
  lemma Guarded(s: State, t: Tid)
    requires Inv(s) && t in s.threads
    ensures OnChains(s.threads[t]) ==> s.hashlock == Some(t)
    ensures OnCount(s.threads[t]) ==> s.threads[t].p in s.heap && s.heap[s.threads[t].p].lock == Some(t)
  {
    assert HashOk(s, t) && HolderOk(s, t);
  }

  /** `s'` has the chains of `s`, and `p`, if it is in memory in both, the same link. */
  predicate SameLinks(s: State, s': State, p: Ptr) {
    s'.fh == s.fh && s'.chains == s.chains && (p in s.heap && p in s'.heap ==> s'.heap[p].next == s.heap[p].next)
  }

  predicate SameCount(s: State, s': State, p: Ptr) {
    p in s.heap && p in s'.heap ==> s'.heap[p].count == s.heap[p].count
  }

  lemma MemoryTouches(s: State, t: Tid, p: Ptr, repaired: bool)
    requires |s.fh| > 0 && |s.chains| == |s.fh| && t in s.threads && KindOf(s.threads[t]) == Memory
    requires Safe(s, s.threads[t])
    ensures OnChains(s.threads[t]) || SameLinks(s, RunMemory(s, t, repaired), p)
    ensures (OnCount(s.threads[t]) && s.threads[t].p == p) || SameCount(s, RunMemory(s, t, repaired), p)
  {
  }

  /** No thread changes a chain without the table's lock, or a count without its object's lock. */
  lemma WritesGuarded(s: State, t: Tid, tok: Ref, p: Ptr, repaired: bool)
    requires Inv(s) && Enabled(s, Run(t, tok)) && p in s.heap
    ensures s.hashlock == Some(t) || SameLinks(s, Next(s, Run(t, tok), repaired), p)
    ensures s.heap[p].lock == Some(t) || SameCount(s, Next(s, Run(t, tok), repaired), p)
  {
    Guarded(s, t);
    if KindOf(s.threads[t]) == Memory {
      MemoryTouches(s, t, p, repaired);
    }
  }

  lemma {:induction false} FreshRef(rs: set<Ref>) returns (bound: Ref)
    ensures forall r | r in rs :: r < bound
    decreases rs
  {
    if rs == {} {
      bound := 0;
    } else {
      var x :| x in rs;
      var rest := FreshRef(rs - {x});
      bound := if rest <= x then x + 1 else rest;
      assert forall r | r in rs :: r == x || r in rs - {x};
    }
  }

  /** A thread that is not waiting for a taken lock can run its next line. */
  lemma CanRun(s: State, t: Tid)
    requires Inv(s) && t in s.threads && s.threads[t] != Idle
    requires KindOf(s.threads[t]) == LockHash ==> s.hashlock == None
    requires KindOf(s.threads[t]) == LockObj ==> Safe(s, s.threads[t]) && s.heap[s.threads[t].p].lock == None
    ensures exists tok :: Enabled(s, Run(t, tok))
  {
    AlwaysSafe(s, t);
    var tok := FreshRef(s.refs.Keys);
    assert tok !in s.refs;
    assert Enabled(s, Run(t, tok));
  }

  /** The holder of an object lock never waits for anything. */
  lemma HolderRuns(s: State, p: Ptr)
    requires Inv(s) && p in s.heap && s.heap[p].lock.Some?
    ensures exists t, tok :: Enabled(s, Run(t, tok))
  {
    assert LockOk(s, p);
    var t := s.heap[p].lock.value;
    assert !IsWaiting(s.threads[t]) by {
      if IsWaiting(s.threads[t]) {
        LockOrder(s, t);
      }
    }
    CanRun(s, t);
    var tok :| Enabled(s, Run(t, tok));
  }

  lemma HashFreeRuns(s: State, t: Tid)
    requires Inv(s) && t in s.threads && s.threads[t] != Idle
    requires KindOf(s.threads[t]) == LockHash ==> s.hashlock == None
    ensures exists u, tok :: Enabled(s, Run(u, tok))
  {
    AlwaysSafe(s, t);
    if KindOf(s.threads[t]) == LockObj && s.heap[s.threads[t].p].lock.Some? {
      HolderRuns(s, s.threads[t].p);
    } else {
      CanRun(s, t);
      var tok :| Enabled(s, Run(t, tok));
    }
  }

  /** Whenever some call is unfinished, some thread can run. */
  lemma NoDeadlock(s: State, t: Tid)
    requires Inv(s) && t in s.threads && s.threads[t] != Idle
    ensures exists u, tok :: Enabled(s, Run(u, tok))
  {
    if s.hashlock.Some? {
      var u := s.hashlock.value;
      assert HashOk(s, u);
      if KindOf(s.threads[u]) == LockHash {
        LockOrder(s, u);
      }
      HashFreeRuns(s, u);
    } else {
      HashFreeRuns(s, t);
    }
  }

  // ----- refinement of the one-lock table -----

  function Abs(s: State): Table<Ptr> {
    Table(s.chains,
          map p | p in s.heap && s.heap[p].phase == Linked :: s.heap[p].id,
          map p | p in s.heap && s.heap[p].phase == Linked :: s.heap[p].count)
  }

  /** The recheck branch: the count changed while the thread held no lock. */
  predicate Kept(s: State, a: Action) {
    && a.Run? && a.t in s.threads && s.threads[a.t].RelRecheck?
    && s.threads[a.t].p in s.heap && s.heap[s.threads[a.t].p].count != 1
  }

  /**
   * The table operation that takes effect at this step, if any. `TwoLockCalls` proves which steps of
   * which calls these are.
   */
  function Event(s: State, a: Action, repaired: bool): Option<Op<Ptr>>
    requires Enabled(s, a)
  {
    if !a.Run? then None
    else
      match s.threads[a.t]
      case AllocPublish(p, _) => Some(Publish(p, s.heap[p].id))
      case HoldCount(p, _) => Some(Hold(p))
      case FindCount(id, p) => Some(Find(id, Some(p)))
      case FindTest(id, None) => Some(Find(id, None))
      case RelDecrement(p, _) => Some(Release(p))
      case RelRecheck(p, _) => if s.heap[p].count != 1 && repaired then Some(Release(p)) else None
      case RelHead(p, _) => if s.fh[s.Bucket(s.heap[p].id)] == Some(p) then Some(Release(p)) else None
      case RelWalk(p, _, tfp) => if s.heap[tfp.value].next == Some(p) then Some(Release(p)) else None
      case _ => None
  }

  /** Only linked objects matter to the abstract table. */
  lemma SameAbs(s: State, s': State)
    requires s'.chains == s.chains
    requires forall p :: LinkedIn(s', p) <==> LinkedIn(s, p)
    requires forall p | LinkedIn(s, p) ::
      p in s'.heap && s'.heap[p].id == s.heap[p].id && s'.heap[p].count == s.heap[p].count
    ensures Abs(s') == Abs(s)
  {
    assert forall p | p in s'.heap && s'.heap[p].phase == Linked :: LinkedIn(s', p);
    assert forall p | p in s.heap && s.heap[p].phase == Linked :: LinkedIn(s, p) && LinkedIn(s', p);
    assert Abs(s').id == Abs(s).id;
    assert Abs(s').count == Abs(s).count;
  }

  /** In every reachable state the abstract table is one the one-lock program could be in. */
  lemma AbsWf(s: State)
    requires Inv(s)
    ensures Abs(s).Wf()
  {
    var t := Abs(s);
    forall b, k
      ensures t.PlaceOk(b, k)
    {
      assert LinkOk(s, b, k);
    }
    forall b
      ensures t.Distinct(b)
    {
      if 0 <= b < |s.chains| {
        assert NoRepeats(s.chains[b]);
      }
    }
    forall p {:trigger t.MemberOk(p)} | p in t.id
      ensures t.MemberOk(p)
    {
      assert LinkedIn(s, p) && ChainedOk(s, p) && CountOk(s, p);
    }
  }

  lemma PublishRefines(s: State, t: Tid, p: Ptr, r: Ref)
    requires Inv(s) && t in s.threads && s.threads[t] == AllocPublish(p, r) && p in s.heap
    ensures var op := Publish(p, s.heap[p].id);
            Allowed(Abs(s), op) && Do(Abs(s), op) == Abs(Published(s, t, p, r))
  {
    assert ThreadInv(s, t);
    var s' := Published(s, t, p, r);
    assert Abs(s').id == Abs(s).id[p := s.heap[p].id];
    assert CountOk(s, p);
    assert Abs(s').count == Abs(s).count[p := 1];
  }

  lemma UnlinkRefines(s: State, s': State, t: Tid, p: Ptr, r: Ref, b: nat, k: nat)
    requires Inv(s) && JustUnlinked(s, s', t, p, r) && TakenOut(s, s', b, k, p) && s.heap[p].count == 1
    requires b == s.Bucket(s.heap[p].id)
    ensures Allowed(Abs(s), Release(p)) && Do(Abs(s), Release(p)) == Abs(s')
  {
    assert NoRepeats(s.chains[b]);
    WithoutAt(s.chains[b], p, k);
    assert Abs(s').id == Abs(s).id - {p};
    assert Abs(s').count == Abs(s).count - {p};
  }

  lemma UnlinkHeadRefines(s: State, t: Tid, p: Ptr, r: Ref, repaired: bool)
    requires Inv(s) && t in s.threads && s.threads[t] == RelHead(p, r)
    requires p in s.heap && s.fh[s.Bucket(s.heap[p].id)] == Some(p)
    ensures Allowed(Abs(s), Release(p)) && Do(Abs(s), Release(p)) == Abs(RunMemory(s, t, repaired))
  {
    var b := s.Bucket(s.heap[p].id);
    assert ThreadInv(s, t);
    assert s.fh[b] == At(s.chains[b], 0) && NoRepeats(s.chains[b]);
    WithoutAt(s.chains[b], p, 0);
    UnlinkRefines(s, RunMemory(s, t, repaired), t, p, r, b, 0);
  }

  lemma UnlinkMiddleRefines(s: State, t: Tid, p: Ptr, r: Ref, q: Ptr, repaired: bool)
    requires Inv(s) && t in s.threads && s.threads[t] == RelWalk(p, r, Some(q))
    requires p in s.heap && q in s.heap && s.heap[q].next == Some(p)
    ensures Allowed(Abs(s), Release(p)) && Do(Abs(s), Release(p)) == Abs(RunMemory(s, t, repaired))
  {
    var b := s.Bucket(s.heap[p].id);
    assert ThreadInv(s, t);
    var k :| OnPath(s.chains[b], Some(q), p, k);
    assert LinkOk(s, b, k) && NoRepeats(s.chains[b]);
    assert s.chains[b][k + 1] == p && q != p;
    WithoutAt(s.chains[b], p, k + 1);
    UnlinkRefines(s, RunMemory(s, t, repaired), t, p, r, b, k + 1);
  }

  /** What a search under the lock has established is what the abstract search returns. */
  lemma FirstHitIsFirst(s: State, id: int, p: Ptr)
    requires ChainsOk(s) && FirstHit(s, id, p)
    ensures LinkedIn(s, p) && FirstWith(Abs(s).Chain(id), Abs(s).id, id) == Some(p)
  {
    var b := s.Bucket(id);
    var k :| Scanned(s, s.chains[b], id, k) && At(s.chains[b], k) == Some(p);
    ChainInAbs(s, b);
    FirstWithAt(s.chains[b], Abs(s).id, id, k);
  }

  lemma MissIsNone(s: State, id: int)
    requires ChainsOk(s) && Searching(s, id, None)
    ensures FirstWith(Abs(s).Chain(id), Abs(s).id, id) == None
  {
    var b := s.Bucket(id);
    var k :| Scanned(s, s.chains[b], id, k) && At(s.chains[b], k) == None;
    ChainInAbs(s, b);
    FirstWithAt(s.chains[b], Abs(s).id, id, k);
  }

  lemma ChainInAbs(s: State, b: nat)
    requires ChainsOk(s) && b < |s.chains|
    ensures forall o | o in s.chains[b] :: LinkedIn(s, o) && o in Abs(s).id && Abs(s).id[o] == s.heap[o].id
  {
    forall k | 0 <= k < |s.chains[b]|
      ensures LinkedIn(s, s.chains[b][k])
    {
      assert LinkOk(s, b, k);
    }
  }

  lemma CountUpRefines(s: State, t: Tid, tok: Ref, repaired: bool)
    requires Inv(s) && Enabled(s, Run(t, tok)) && KindOf(s.threads[t]) == CountUp
    ensures var op := Event(s, Run(t, tok), repaired);
            op.Some? && Allowed(Abs(s), op.value)
            && Do(Abs(s), op.value) == Abs(CountRef(s, t, s.threads[t].p, tok, After(s.threads[t], tok)))
  {
    var pc := s.threads[t];
    assert ThreadInv(s, t);
    var s' := CountRef(s, t, pc.p, tok, After(pc, tok));
    if pc.FindCount? {
      FirstHitIsFirst(s, pc.id, pc.p);
    }
    assert Abs(s').id == Abs(s).id;
    assert Abs(s').count == Abs(s).count[pc.p := Abs(s).count[pc.p] + 1];
  }

  lemma DropRefines(s: State, t: Tid, p: Ptr, r: Ref, next: PC)
    requires LinkedIn(s, p) && |s.chains| > 0 && s.heap[p].count != 1
    ensures Allowed(Abs(s), Release(p))
    ensures Do(Abs(s), Release(p)) == Abs(DropRef(s, t, p, r, s.heap[p].(count := s.heap[p].count - 1), next))
  {
    var s' := DropRef(s, t, p, r, s.heap[p].(count := s.heap[p].count - 1), next);
    assert Abs(s').id == Abs(s).id;
    assert Abs(s').count == Abs(s).count[p := Abs(s).count[p] - 1];
  }

  /** The step and the abstract table agree, whether or not the step shows there. */
  ghost predicate Refines(s: State, s': State, op: Option<Op<Ptr>>) {
    match op
    case None => Abs(s') == Abs(s)
    case Some(op) => Allowed(Abs(s), op) && Do(Abs(s), op) == Abs(s')
  }

  lemma RecheckRefines(s: State, t: Tid, tok: Ref, repaired: bool)
    requires Inv(s) && Enabled(s, Run(t, tok)) && s.threads[t].RelRecheck?
    ensures Refines(s, RunMemory(s, t, repaired), Event(s, Run(t, tok), repaired))
  {
    assert ThreadInv(s, t);
    var p, r := s.threads[t].p, s.threads[t].r;
    if s.heap[p].count != 1 && repaired {
      DropRefines(s, t, p, r, RelKeptUnlockObj(p));
    } else {
      SameAbs(s, RunMemory(s, t, repaired));
    }
  }

  lemma WalkRefines(s: State, t: Tid, tok: Ref, repaired: bool)
    requires Inv(s) && Enabled(s, Run(t, tok)) && (s.threads[t].RelHead? || s.threads[t].RelWalk?)
    ensures Refines(s, RunMemory(s, t, repaired), Event(s, Run(t, tok), repaired))
  {
    match s.threads[t]
    case RelHead(p, r) =>
      if s.fh[s.Bucket(s.heap[p].id)] == Some(p) {
        UnlinkHeadRefines(s, t, p, r, repaired);
      }
    case RelWalk(p, r, Some(q)) =>
      if s.heap[q].next == Some(p) {
        UnlinkMiddleRefines(s, t, p, r, q, repaired);
      }
  }

  lemma MemoryRefines(s: State, t: Tid, tok: Ref, repaired: bool)
    requires Inv(s) && Enabled(s, Run(t, tok)) && KindOf(s.threads[t]) == Memory
    ensures Refines(s, RunMemory(s, t, repaired), Event(s, Run(t, tok), repaired))
  {
    match s.threads[t]
    case AllocPublish(p, r) => PublishRefines(s, t, p, r);
    case FindTest(id, None) =>
      assert ThreadInv(s, t);
      MissIsNone(s, id);
    case RelRecheck(_, _) => RecheckRefines(s, t, tok, repaired);
    case RelHead(_, _) => WalkRefines(s, t, tok, repaired);
    case RelWalk(_, _, _) => WalkRefines(s, t, tok, repaired);
    case AllocNext(_, _) =>
      assert ThreadInv(s, t);
      SameAbs(s, RunMemory(s, t, repaired));
    case RelFree(_) =>
      assert ThreadInv(s, t);
      SameAbs(s, RunMemory(s, t, repaired));
    case _ =>
  }

  /** Every step is either invisible in the abstract table or exactly one allowed operation on it. */
  lemma StepRefines(s: State, a: Action, repaired: bool)
    requires Inv(s) && Enabled(s, a)
    ensures Refines(s, Next(s, a, repaired), Event(s, a, repaired))
  {
    match a
    case Run(t, tok) =>
      var pc := s.threads[t];
      match KindOf(pc) {
        case CountUp => CountUpRefines(s, t, tok, repaired);
        case CountDown =>
          assert ThreadInv(s, t);
          DropRefines(s, t, pc.p, pc.r, After(pc, tok));
        case Memory => MemoryRefines(s, t, tok, repaired);
        case LockHash | UnlockHash | LockObj | UnlockObj => SameAbs(s, Next(s, a, repaired));
        case NoCode =>
      }
    case Malloc(t, id, p, r) => SameAbs(s, Next(s, a, repaired));
    case _ =>
  }

  // ----- whole runs -----

  /** Step `k` of the sequence of states is one the program can take. */
  predicate StepOk(ss: seq<State>, acts: seq<Action>, repaired: bool, k: int)
    requires |ss| == |acts| + 1
  {
    0 <= k < |acts| ==> Enabled(ss[k], acts[k]) && ss[k + 1] == Next(ss[k], acts[k], repaired)
  }

  ghost predicate IsRun(ss: seq<State>, acts: seq<Action>, repaired: bool) {
    |ss| == |acts| + 1 && forall k :: StepOk(ss, acts, repaired, k)
  }

  /** An operation that took effect in step `at` of a run, which was a step of thread `t`. */
  datatype Entry = Entry(at: nat, t: Tid, op: Op<Ptr>)

  /** What a step adds to the history: one entry or none. */
  function Logged(s: State, a: Action, repaired: bool, at: nat): seq<Entry> {
    if !Enabled(s, a) then []
    else
      match Event(s, a, repaired)
      case None => []
      case Some(op) => [Entry(at, a.t, op)]
  }

  /** The operations of the first `n` steps of a run, in the order in which they took effect. */
  function History(ss: seq<State>, acts: seq<Action>, repaired: bool, n: nat): seq<Entry>
    requires |ss| == |acts| + 1 && n <= |acts|
  {
    if n == 0 then []
    else History(ss, acts, repaired, n - 1) + Logged(ss[n - 1], acts[n - 1], repaired, n - 1)
  }

  lemma HistoryNext(ss: seq<State>, acts: seq<Action>, repaired: bool, n: nat)
    requires |ss| == |acts| + 1 && 0 < n <= |acts|
    ensures History(ss, acts, repaired, n)
         == History(ss, acts, repaired, n - 1) + Logged(ss[n - 1], acts[n - 1], repaired, n - 1)
  {
  }

  function Ops(h: seq<Entry>): seq<Op<Ptr>> {
    if h == [] then [] else Ops(h[..|h| - 1]) + [h[|h| - 1].op]
  }

  lemma {:induction false} RunInv(ss: seq<State>, acts: seq<Action>, repaired: bool, n: nat)
    requires IsRun(ss, acts, repaired) && Inv(ss[0]) && n <= |acts|
    ensures Inv(ss[n])
  {
    if n > 0 {
      RunInv(ss, acts, repaired, n - 1);
      assert StepOk(ss, acts, repaired, n - 1);
      StepKeeps(ss[n - 1], acts[n - 1], repaired);
    }
  }

  /** The operations of `h`, done one by one on `t`, are allowed at each point and lead to `u`. */
  ghost predicate LeadsTo(t: Table<Ptr>, h: seq<Entry>, u: Table<Ptr>) {
    AllAllowed(t, Ops(h)) && DoAll(t, Ops(h)) == u
  }

  lemma Extend(t: Table<Ptr>, h: seq<Entry>, h': seq<Entry>, u: Table<Ptr>, u': Table<Ptr>,
               ev: Option<Op<Ptr>>, more: seq<Entry>)
    requires LeadsTo(t, h, u) && h' == h + more
    requires match ev
             case None => more == [] && u' == u
             case Some(op) => |more| == 1 && more[0].op == op && Allowed(u, op) && Do(u, op) == u'
    ensures LeadsTo(t, h', u')
  {
    match ev
    case None => assert h + more == h;
    case Some(op) =>
      assert (h + more)[..|h|] == h;
      var all := Ops(h + more);
      assert all == Ops(h) + [op];
      assert all[..|all| - 1] == Ops(h);
  }

  /** A history extended by what the next step does. */
  lemma LinearStep(ss: seq<State>, acts: seq<Action>, repaired: bool, n: nat)
    requires IsRun(ss, acts, repaired) && 0 < n <= |acts| && Inv(ss[n - 1])
    requires LeadsTo(Abs(ss[0]), History(ss, acts, repaired, n - 1), Abs(ss[n - 1]))
    ensures LeadsTo(Abs(ss[0]), History(ss, acts, repaired, n), Abs(ss[n]))
  {
    assert StepOk(ss, acts, repaired, n - 1);
    HistoryNext(ss, acts, repaired, n);
    var s, a, s' := ss[n - 1], acts[n - 1], ss[n];
    StepRefines(s, a, repaired);
    Extend(Abs(ss[0]), History(ss, acts, repaired, n - 1), History(ss, acts, repaired, n), Abs(s), Abs(s'),
           Event(s, a, repaired), Logged(s, a, repaired, n - 1));
  }

  /**
   * Every run of the two-lock table is a run of the one-lock table: performing the operations one by
   * one, in the order in which they took effect, is allowed at each point and leads, after any number
   * of steps, to the same chains, ids and counts.
   */
  lemma {:induction false} Linearizable(ss: seq<State>, acts: seq<Action>, repaired: bool, n: nat)
    requires IsRun(ss, acts, repaired) && Inv(ss[0]) && n <= |acts|
    ensures LeadsTo(Abs(ss[0]), History(ss, acts, repaired, n), Abs(ss[n]))
  {
    if n > 0 {
      Linearizable(ss, acts, repaired, n - 1);
      RunInv(ss, acts, repaired, n - 1);
      LinearStep(ss, acts, repaired, n);
    }
  }

  // ----- the recheck branch -----

  /** How often a release of `p` took the recheck branch in the first `n` steps. */
  function KeptSteps(ss: seq<State>, acts: seq<Action>, p: Ptr, n: nat): nat
    requires |ss| == |acts| + 1 && n <= |acts|
  {
    if n == 0 then 0
    else
      KeptSteps(ss, acts, p, n - 1)
      + if Kept(ss[n - 1], acts[n - 1]) && ss[n - 1].threads[acts[n - 1].t].p == p then 1 else 0
  }

  function Forgotten(s: State, p: Ptr): nat {
    if p in s.heap then s.heap[p].forgotten else 0
  }

  lemma MemoryForgotten(s: State, t: Tid, repaired: bool, p: Ptr)
    requires Inv(s) && t in s.threads && KindOf(s.threads[t]) == Memory && Safe(s, s.threads[t])
    ensures Forgotten(RunMemory(s, t, repaired), p)
         == Forgotten(s, p) + if !repaired && Kept(s, Run(t, 0)) && s.threads[t].p == p then 1 else 0
  {
    assert ThreadInv(s, t) && CountOk(s, p);
    match s.threads[t]
    case AllocPublish(_, _) =>
    case RelRecheck(_, _) =>
    case RelFree(_) =>
    case _ =>
  }

  lemma StepForgotten(s: State, a: Action, repaired: bool, p: Ptr)
    requires Inv(s) && Enabled(s, a)
    ensures Forgotten(Next(s, a, repaired), p)
         == Forgotten(s, p) + if !repaired && Kept(s, a) && s.threads[a.t].p == p then 1 else 0
  {
    match a
    case Run(t, _) =>
      if KindOf(s.threads[t]) == Memory {
        MemoryForgotten(s, t, repaired, p);
      }
    case _ =>
  }

  lemma {:induction false} RunForgotten(ss: seq<State>, acts: seq<Action>, repaired: bool, p: Ptr, n: nat)
    requires IsRun(ss, acts, repaired) && IsInit(ss[0]) && n <= |acts|
    ensures Forgotten(ss[n], p) == if repaired then 0 else KeptSteps(ss, acts, p, n)
  {
    if n > 0 {
      RunForgotten(ss, acts, repaired, p, n - 1);
      InitHolds(ss[0]);
      RunInv(ss, acts, repaired, n - 1);
      assert StepOk(ss, acts, repaired, n - 1);
      StepForgotten(ss[n - 1], acts[n - 1], repaired, p);
    }
  }

  /**
   * The program as written: at any moment the count of an object in the table exceeds the number of
   * references still owed by the number of times its recheck branch was taken. So the two agree
   * exactly if that branch was never taken for it.
   */
  lemma CountAsWritten(ss: seq<State>, acts: seq<Action>, p: Ptr, n: nat)
    requires IsRun(ss, acts, false) && IsInit(ss[0]) && n <= |acts| && LinkedIn(ss[n], p)
    ensures ss[n].heap[p].count == |RefsTo(ss[n].refs, p)| + KeptSteps(ss, acts, p, n)
    ensures ss[n].heap[p].count == |RefsTo(ss[n].refs, p)| <==> KeptSteps(ss, acts, p, n) == 0
  {
    RunForgotten(ss, acts, false, p, n);
    InitHolds(ss[0]);
    RunInv(ss, acts, false, n);
    assert CountOk(ss[n], p);
  }

  /** The program as written: an object whose recheck branch was ever taken is never freed. */
  lemma LeakIsForever(ss: seq<State>, acts: seq<Action>, p: Ptr, n: nat)
    requires IsRun(ss, acts, false) && IsInit(ss[0]) && n <= |acts| && KeptSteps(ss, acts, p, n) > 0
    ensures LinkedIn(ss[n], p)
  {
    RunForgotten(ss, acts, false, p, n);
    InitHolds(ss[0]);
    RunInv(ss, acts, false, n);
    assert CountOk(ss[n], p);
  }

  /** With the repair the count is always exactly the number of references still owed. */
  lemma CountRepaired(ss: seq<State>, acts: seq<Action>, p: Ptr, n: nat)
    requires IsRun(ss, acts, true) && IsInit(ss[0]) && n <= |acts| && LinkedIn(ss[n], p)
    ensures ss[n].heap[p].count == |RefsTo(ss[n].refs, p)| >= 1
  {
    RunForgotten(ss, acts, true, p, n);
    InitHolds(ss[0]);
    RunInv(ss, acts, true, n);
    assert CountOk(ss[n], p);
  }
}
