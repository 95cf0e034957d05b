/**
 * Which operation of the history each call of a run stands for: exactly one, between its call and its
 * return, with the arguments it was given and the pointer it returns.
 */
module TwoLockCalls {
  import opened Common
  import opened FooTable
  import opened TwoLockTable
  import opened TwoLockInv
  import opened TwoLockSteps
  import opened TwoLockUnlink
  import opened TwoLockTheorems

  datatype Call = AllocCall(id: int) | HoldCall(p: Ptr) | FindCall(id: int) | ReleaseCall(p: Ptr)

  /** The call a thread makes in this step, with its arguments. */
  function CallOf(s: State, a: Action): Option<Call>
    requires Enabled(s, a)
  {
    match a
    case Malloc(_, id, _, _) => Some(AllocCall(id))
    case CallHold(_, r) => Some(HoldCall(s.refs[r].obj))
    case CallFind(_, id) => Some(FindCall(id))
    case CallRelease(_, r) => Some(ReleaseCall(s.refs[r].obj))
    case _ => None
  }

  /** The pointer an allocation or a search returns from this line on; the other calls return nothing. */
  function ValueOf(pc: PC): Option<Ptr> {
    match pc
    case AllocLockObj(p, _) => Some(p)
    case AllocUnlockObj(p, _) => Some(p)
    case AllocUnlock(p, _) => Some(p)
    case FindUnlockObj(p, _) => Some(p)
    case FindUnlock(result) => result
    case _ => None
  }

  /** The operation is the one the call asked for, with the call's own arguments and result. */
  predicate Performed(call: Call, value: Option<Ptr>, op: Op<Ptr>) {
    match call
    case AllocCall(id) => value.Some? && op == Publish(value.value, id)
    case HoldCall(p) => op == Hold(p)
    case FindCall(id) => op == Find(id, value)
    case ReleaseCall(p) => op == Release(p)
  }

  /** Thread `t` makes a call in step `k` and has not returned from it before step `n`. */
  ghost predicate Running(ss: seq<State>, acts: seq<Action>, repaired: bool, t: Tid, k: nat, n: nat)
    requires IsRun(ss, acts, repaired) && n <= |acts|
  {
    && k < n && StepOk(ss, acts, repaired, k) && CallOf(ss[k], acts[k]).Some? && acts[k].t == t
    && forall j | k < j <= n :: t in ss[j].threads && ss[j].threads[t] != Idle
  }

  /** Thread `t` makes a call in step `k` and returns from it in step `e`. */
  ghost predicate Completed(ss: seq<State>, acts: seq<Action>, repaired: bool, t: Tid, k: nat, e: nat)
    requires IsRun(ss, acts, repaired) && e < |acts|
  {
    && Running(ss, acts, repaired, t, k, e) && StepOk(ss, acts, repaired, e)
    && acts[e].Run? && acts[e].t == t && t in ss[e + 1].threads && ss[e + 1].threads[t] == Idle
  }

  predicate OwnedBy(a: Action, t: Tid) {
    !a.Transfer? && a.t == t
  }

  /** The operations among the first `n` of a history that thread `t` performed in steps `from` to `to`. */
  function FirstBetween(h: seq<Entry>, n: nat, t: Tid, from: nat, to: nat): seq<Op<Ptr>>
    requires n <= |h|
  {
    if n == 0 then []
    else
      FirstBetween(h, n - 1, t, from, to)
      + if h[n - 1].t == t && from <= h[n - 1].at <= to then [h[n - 1].op] else []
  }

  function Between(h: seq<Entry>, t: Tid, from: nat, to: nat): seq<Op<Ptr>> {
    FirstBetween(h, |h|, t, from, to)
  }

  predicate KeptBy(ss: seq<State>, acts: seq<Action>, t: Tid, j: nat)
    requires |ss| == |acts| + 1 && j < |acts|
  {
    Kept(ss[j], acts[j]) && acts[j].t == t
  }

  /** Thread `t` takes the recheck branch in some step from `k` to before `n`. */
  predicate TookRecheck(ss: seq<State>, acts: seq<Action>, t: Tid, k: nat, n: nat)
    requires |ss| == |acts| + 1 && n <= |acts|
  {
    exists j | k <= j < n :: KeptBy(ss, acts, t, j)
  }

  // ----- one thread inside one call -----

  predicate InAlloc(pc: PC) {
    pc.AllocLock? || pc.AllocNext? || pc.AllocPublish? || pc.AllocLockObj? || pc.AllocUnlockObj? || pc.AllocUnlock?
  }

  predicate InFind(pc: PC) {
    || pc.FindLock? || pc.FindHead? || pc.FindTest? || pc.FindLockObj? || pc.FindCount?
    || pc.FindUnlockObj? || pc.FindUnlock?
  }

  predicate InRelease(pc: PC) {
    || pc.RelLockObj? || pc.RelTest? || pc.RelUnlockObj? || pc.RelLock? || pc.RelRelockObj? || pc.RelRecheck?
    || pc.RelKeptUnlockObj? || pc.RelHead? || pc.RelWalk? || pc.RelUnlock? || pc.RelDyingUnlockObj? || pc.RelFree?
    || pc.RelDecrement? || pc.RelLastUnlockObj?
  }

  /** The line is one of the call's function, with the call's arguments. */
  predicate InCall(pc: PC, call: Call) {
    match call
    case AllocCall(_) => InAlloc(pc)
    case HoldCall(p) => (pc.HoldLockObj? || pc.HoldCount? || pc.HoldUnlockObj?) && pc.p == p
    case FindCall(id) => InFind(pc) && (pc.FindUnlockObj? || pc.FindUnlock? || pc.id == id)
    case ReleaseCall(p) => pc.RelKeptUnlock? || (InRelease(pc) && pc.p == p)
  }

  /** The object an allocation is working on has the id it was asked for. */
  predicate Fits(s: State, pc: PC, call: Call) {
    InCall(pc, call) && (call.AllocCall? ==> pc.p in s.heap && s.heap[pc.p].id == call.id)
  }

  /** The call has not yet taken effect. */
  predicate Pending(pc: PC) {
    || pc.AllocLock? || pc.AllocNext? || pc.AllocPublish? || pc.HoldLockObj? || pc.HoldCount?
    || pc.FindLock? || pc.FindHead? || pc.FindTest? || pc.FindLockObj? || pc.FindCount?
    || pc.RelLockObj? || pc.RelTest? || pc.RelUnlockObj? || pc.RelLock? || pc.RelRelockObj? || pc.RelRecheck?
    || pc.RelHead? || pc.RelWalk? || pc.RelDecrement?
  }

  predicate AfterRecheck(pc: PC) {
    pc.RelKeptUnlockObj? || pc.RelKeptUnlock?
  }

  /** What a thread at line `pc` of a call has contributed to the history so far. */
  predicate Contributed(pc: PC, call: Call, repaired: bool, ops: seq<Op<Ptr>>) {
    if Pending(pc) || (AfterRecheck(pc) && !repaired) then ops == []
    else |ops| == 1 && Performed(call, ValueOf(pc), ops[0])
  }

  /** What one step adds. */
  function Added(s: State, a: Action, repaired: bool): seq<Op<Ptr>>
    requires Enabled(s, a)
  {
    match Event(s, a, repaired)
    case None => []
    case Some(op) => [op]
  }

  lemma IdsKeptMemory(s: State, t: Tid, repaired: bool, p: Ptr)
    requires |s.fh| > 0 && |s.chains| == |s.fh| && t in s.threads && KindOf(s.threads[t]) == Memory
    requires Safe(s, s.threads[t])
    requires p in s.heap && p in RunMemory(s, t, repaired).heap
    ensures RunMemory(s, t, repaired).heap[p].id == s.heap[p].id
  {
  }

  lemma IdsKept(s: State, a: Action, repaired: bool, p: Ptr)
    requires Enabled(s, a) && p in s.heap && p in Next(s, a, repaired).heap
    ensures Next(s, a, repaired).heap[p].id == s.heap[p].id
  {
    match a
    case Run(t, _) =>
      if KindOf(s.threads[t]) == Memory {
        IdsKeptMemory(s, t, repaired, p);
      }
    case _ =>
  }

  /** After a step of `t` it is still in the call, and the program counter accounts for what the step added. */
  predicate StillFits(s: State, s': State, t: Tid, call: Call, repaired: bool, ops: seq<Op<Ptr>>, recheck: bool)
    requires t in s.threads && t in s'.threads
  {
    var pc, pc' := s.threads[t], s'.threads[t];
    if pc' == Idle then !Pending(pc) && Contributed(pc, call, repaired, ops) && !recheck
    else
      && Fits(s', pc', call) && Contributed(pc', call, repaired, ops)
      && (AfterRecheck(pc') <==> AfterRecheck(pc) || recheck)
  }

  lemma AfterFits(pc: PC, tok: Ref, repaired: bool, call: Call, ops: seq<Op<Ptr>>)
    requires IsLocking(KindOf(pc)) && InCall(pc, call) && Contributed(pc, call, repaired, ops)
    ensures var next := After(pc, tok);
            if next == Idle then !Pending(pc)
            else
              && InCall(next, call) && (call.AllocCall? ==> next.p == pc.p)
              && Contributed(next, call, repaired, ops) && (AfterRecheck(next) <==> AfterRecheck(pc))
  {
  }

  lemma LockingFits(s: State, t: Tid, tok: Ref, repaired: bool, call: Call, ops: seq<Op<Ptr>>)
    requires Enabled(s, Run(t, tok)) && IsLocking(KindOf(s.threads[t]))
    requires Fits(s, s.threads[t], call) && Contributed(s.threads[t], call, repaired, ops)
    ensures Event(s, Run(t, tok), repaired) == None && !Kept(s, Run(t, tok))
    ensures StillFits(s, Next(s, Run(t, tok), repaired), t, call, repaired, ops, false)
  {
    AfterFits(s.threads[t], tok, repaired, call, ops);
  }

  lemma CountFits(s: State, t: Tid, tok: Ref, repaired: bool, call: Call, ops: seq<Op<Ptr>>)
    requires Enabled(s, Run(t, tok)) && (KindOf(s.threads[t]) == CountUp || KindOf(s.threads[t]) == CountDown)
    requires Fits(s, s.threads[t], call) && Contributed(s.threads[t], call, repaired, ops)
    ensures StillFits(s, Next(s, Run(t, tok), repaired), t, call, repaired, ops + Added(s, Run(t, tok), repaired),
                      Kept(s, Run(t, tok)))
  {
  }

  lemma AllocFits(s: State, t: Tid, tok: Ref, repaired: bool, call: Call, ops: seq<Op<Ptr>>)
    requires Enabled(s, Run(t, tok)) && (s.threads[t].AllocNext? || s.threads[t].AllocPublish?)
    requires Fits(s, s.threads[t], call) && Contributed(s.threads[t], call, repaired, ops)
    ensures StillFits(s, RunMemory(s, t, repaired), t, call, repaired, ops + Added(s, Run(t, tok), repaired),
                      Kept(s, Run(t, tok)))
  {
  }

  lemma SearchFits(s: State, t: Tid, tok: Ref, repaired: bool, call: Call, ops: seq<Op<Ptr>>)
    requires Enabled(s, Run(t, tok)) && (s.threads[t].FindHead? || s.threads[t].FindTest?)
    requires Fits(s, s.threads[t], call) && Contributed(s.threads[t], call, repaired, ops)
    ensures StillFits(s, RunMemory(s, t, repaired), t, call, repaired, ops + Added(s, Run(t, tok), repaired),
                      Kept(s, Run(t, tok)))
  {
  }

  lemma TestFits(s: State, t: Tid, tok: Ref, repaired: bool, call: Call, ops: seq<Op<Ptr>>)
    requires Enabled(s, Run(t, tok)) && (s.threads[t].RelTest? || s.threads[t].RelFree?)
    requires Fits(s, s.threads[t], call) && Contributed(s.threads[t], call, repaired, ops)
    ensures StillFits(s, RunMemory(s, t, repaired), t, call, repaired, ops + Added(s, Run(t, tok), repaired),
                      Kept(s, Run(t, tok)))
  {
  }

  lemma RecheckFits(s: State, t: Tid, tok: Ref, repaired: bool, call: Call, ops: seq<Op<Ptr>>)
    requires Enabled(s, Run(t, tok)) && s.threads[t].RelRecheck?
    requires Fits(s, s.threads[t], call) && Contributed(s.threads[t], call, repaired, ops)
    ensures StillFits(s, RunMemory(s, t, repaired), t, call, repaired, ops + Added(s, Run(t, tok), repaired),
                      Kept(s, Run(t, tok)))
  {
  }

  lemma HeadFits(s: State, t: Tid, tok: Ref, repaired: bool, call: Call, ops: seq<Op<Ptr>>)
    requires Enabled(s, Run(t, tok)) && s.threads[t].RelHead?
    requires Fits(s, s.threads[t], call) && Contributed(s.threads[t], call, repaired, ops)
    ensures StillFits(s, RunMemory(s, t, repaired), t, call, repaired, ops + Added(s, Run(t, tok), repaired),
                      Kept(s, Run(t, tok)))
  {
  }

  lemma WalkFits(s: State, t: Tid, tok: Ref, repaired: bool, call: Call, ops: seq<Op<Ptr>>)
    requires Enabled(s, Run(t, tok)) && s.threads[t].RelWalk?
    requires Fits(s, s.threads[t], call) && Contributed(s.threads[t], call, repaired, ops)
    ensures StillFits(s, RunMemory(s, t, repaired), t, call, repaired, ops + Added(s, Run(t, tok), repaired),
                      Kept(s, Run(t, tok)))
  {
  }

  lemma MemoryFits(s: State, t: Tid, tok: Ref, repaired: bool, call: Call, ops: seq<Op<Ptr>>)
    requires Enabled(s, Run(t, tok)) && KindOf(s.threads[t]) == Memory
    requires Fits(s, s.threads[t], call) && Contributed(s.threads[t], call, repaired, ops)
    ensures StillFits(s, RunMemory(s, t, repaired), t, call, repaired, ops + Added(s, Run(t, tok), repaired),
                      Kept(s, Run(t, tok)))
  {
    match s.threads[t]
    case AllocNext(_, _) => AllocFits(s, t, tok, repaired, call, ops);
    case AllocPublish(_, _) => AllocFits(s, t, tok, repaired, call, ops);
    case FindHead(_) => SearchFits(s, t, tok, repaired, call, ops);
    case FindTest(_, _) => SearchFits(s, t, tok, repaired, call, ops);
    case RelTest(_, _) => TestFits(s, t, tok, repaired, call, ops);
    case RelFree(_) => TestFits(s, t, tok, repaired, call, ops);
    case RelRecheck(_, _) => RecheckFits(s, t, tok, repaired, call, ops);
    case RelHead(_, _) => HeadFits(s, t, tok, repaired, call, ops);
    case RelWalk(_, _, _) => WalkFits(s, t, tok, repaired, call, ops);
  }

  /** A step of the thread keeps to the call, and adds exactly what its program counter then accounts for. */
  lemma OwnStep(s: State, t: Tid, tok: Ref, repaired: bool, call: Call, ops: seq<Op<Ptr>>)
    requires Enabled(s, Run(t, tok))
    requires Fits(s, s.threads[t], call) && Contributed(s.threads[t], call, repaired, ops)
    ensures StillFits(s, Next(s, Run(t, tok), repaired), t, call, repaired, ops + Added(s, Run(t, tok), repaired),
                      Kept(s, Run(t, tok)))
  {
    match KindOf(s.threads[t])
    case CountUp => CountFits(s, t, tok, repaired, call, ops);
    case CountDown => CountFits(s, t, tok, repaired, call, ops);
    case Memory => MemoryFits(s, t, tok, repaired, call, ops);
    case LockHash | UnlockHash | LockObj | UnlockObj =>
      LockingFits(s, t, tok, repaired, call, ops);
      assert ops + Added(s, Run(t, tok), repaired) == ops;
    case NoCode =>
  }

  /** The thread whose program counter a step may change. */
  lemma OthersStay(s: State, a: Action, repaired: bool, t: Tid)
    requires Enabled(s, a) && t in s.threads && !OwnedBy(a, t)
    ensures var s' := Next(s, a, repaired); t in s'.threads && s'.threads[t] == s.threads[t]
  {
    match a
    case Run(u, _) =>
      if KindOf(s.threads[u]) == Memory {
        OthersStayMemory(s, u, repaired, t);
      }
    case _ =>
  }

  lemma OthersStayMemory(s: State, u: Tid, repaired: bool, t: Tid)
    requires |s.fh| > 0 && |s.chains| == |s.fh| && u in s.threads && KindOf(s.threads[u]) == Memory
    requires Safe(s, s.threads[u])
    requires t in s.threads && t != u
    ensures var s' := RunMemory(s, u, repaired); t in s'.threads && s'.threads[t] == s.threads[t]
  {
  }

  /** A step of anybody else changes nothing for the call. */
  lemma OthersStep(s: State, a: Action, s': State, repaired: bool, t: Tid, call: Call)
    requires Inv(s) && Enabled(s, a) && s' == Next(s, a, repaired) && Inv(s')
    requires t in s.threads && s.threads[t] != Idle && Fits(s, s.threads[t], call) && !OwnedBy(a, t)
    ensures t in s'.threads && s'.threads[t] == s.threads[t] && Fits(s', s.threads[t], call)
  {
    OthersStay(s, a, repaired, t);
    assert ThreadInv(s', t);
    if call.AllocCall? {
      IdsKept(s, a, repaired, s.threads[t].p);
    }
  }

  /** What a call finds when it starts. */
  lemma CallStarts(s: State, a: Action, repaired: bool)
    requires Enabled(s, a) && CallOf(s, a).Some?
    ensures var s' := Next(s, a, repaired);
            && a.t in s'.threads && Fits(s', s'.threads[a.t], CallOf(s, a).value)
            && Contributed(s'.threads[a.t], CallOf(s, a).value, repaired, [])
            && !AfterRecheck(s'.threads[a.t])
    ensures Event(s, a, repaired) == None && !Kept(s, a)
  {
  }

  /** Where a call is, what it has contributed, and whether it took the recheck branch. */
  predicate Accounts(s: State, t: Tid, call: Call, repaired: bool, ops: seq<Op<Ptr>>, recheck: bool) {
    && t in s.threads && s.threads[t] != Idle
    && Fits(s, s.threads[t], call)
    && Contributed(s.threads[t], call, repaired, ops)
    && (AfterRecheck(s.threads[t]) <==> recheck)
  }

  // ----- the calls of a run -----

  lemma {:induction false} FirstBetweenSame(h: seq<Entry>, more: seq<Entry>, n: nat, t: Tid, from: nat, to: nat)
    requires n <= |h|
    ensures FirstBetween(h + more, n, t, from, to) == FirstBetween(h, n, t, from, to)
  {
    if n > 0 {
      FirstBetweenSame(h, more, n - 1, t, from, to);
    }
  }

  lemma BetweenSkips(h: seq<Entry>, more: seq<Entry>, t: Tid, from: nat, to: nat)
    requires |more| <= 1 && (more != [] ==> more[0].at < from || to < more[0].at)
    ensures Between(h + more, t, from, to) == Between(h, t, from, to)
  {
    FirstBetweenSame(h, more, |h|, t, from, to);
    if more != [] {
      assert (h + more)[|h|] == more[0];
    }
  }

  lemma BetweenGrows(h: seq<Entry>, s: State, a: Action, repaired: bool, at: nat, t: Tid, from: nat, to: nat)
    requires Enabled(s, a)
    ensures Between(h + Logged(s, a, repaired, at), t, from, to)
         == Between(h, t, from, to) + if from <= at <= to && OwnedBy(a, t) then Added(s, a, repaired) else []
  {
    FirstBetweenSame(h, Logged(s, a, repaired, at), |h|, t, from, to);
    match Event(s, a, repaired)
    case None => assert h + Logged(s, a, repaired, at) == h;
    case Some(op) => assert (h + [Entry(at, a.t, op)])[|h|] == Entry(at, a.t, op);
  }

  function Joined(parts: seq<seq<Entry>>, n: nat): seq<Entry>
    requires n <= |parts|
  {
    if n == 0 then [] else Joined(parts, n - 1) + parts[n - 1]
  }

  /** Part `i` of a history has at most one entry, of step `i`. */
  predicate PartOk(parts: seq<seq<Entry>>, i: int) {
    0 <= i < |parts| ==> |parts[i]| <= 1 && (parts[i] != [] ==> parts[i][0].at == i)
  }

  lemma {:induction false} NoneBefore(parts: seq<seq<Entry>>, t: Tid, from: nat, to: nat, n: nat)
    requires n <= from && n <= |parts| && forall i :: PartOk(parts, i)
    ensures Between(Joined(parts, n), t, from, to) == []
  {
    if n > 0 {
      NoneBefore(parts, t, from, to, n - 1);
      assert PartOk(parts, n - 1);
      BetweenSkips(Joined(parts, n - 1), parts[n - 1], t, from, to);
    }
  }

  lemma {:induction false} NoneAfter(parts: seq<seq<Entry>>, t: Tid, from: nat, to: nat, n: nat)
    requires to < n <= |parts| && forall i :: PartOk(parts, i)
    ensures Between(Joined(parts, n), t, from, to) == Between(Joined(parts, to + 1), t, from, to)
  {
    if n > to + 1 {
      NoneAfter(parts, t, from, to, n - 1);
      assert PartOk(parts, n - 1);
      BetweenSkips(Joined(parts, n - 1), parts[n - 1], t, from, to);
    }
  }

  /** A history, step by step. */
  function Parts(ss: seq<State>, acts: seq<Action>, repaired: bool): seq<seq<Entry>>
    requires |ss| == |acts| + 1
  {
    seq(|acts|, i requires 0 <= i < |acts| => Logged(ss[i], acts[i], repaired, i))
  }

  lemma PartsOk(ss: seq<State>, acts: seq<Action>, repaired: bool)
    requires |ss| == |acts| + 1
    ensures forall i :: PartOk(Parts(ss, acts, repaired), i)
  {
    forall i
      ensures PartOk(Parts(ss, acts, repaired), i)
    {
      if 0 <= i < |acts| {
        assert Parts(ss, acts, repaired)[i] == Logged(ss[i], acts[i], repaired, i);
      }
    }
  }

  lemma {:induction false} PartsJoined(ss: seq<State>, acts: seq<Action>, repaired: bool, n: nat)
    requires |ss| == |acts| + 1 && n <= |acts|
    ensures Joined(Parts(ss, acts, repaired), n) == History(ss, acts, repaired, n)
  {
    if n > 0 {
      PartsJoined(ss, acts, repaired, n - 1);
      assert Parts(ss, acts, repaired)[n - 1] == Logged(ss[n - 1], acts[n - 1], repaired, n - 1);
    }
  }

  lemma NothingYet(ss: seq<State>, acts: seq<Action>, repaired: bool, t: Tid, k: nat, to: nat)
    requires |ss| == |acts| + 1 && k <= |acts|
    ensures Between(History(ss, acts, repaired, k), t, k, to) == []
  {
    PartsOk(ss, acts, repaired);
    PartsJoined(ss, acts, repaired, k);
    NoneBefore(Parts(ss, acts, repaired), t, k, to, k);
  }

  lemma SameBetween(h: seq<Entry>, h': seq<Entry>, g: seq<Entry>, g': seq<Entry>, t: Tid, from: nat, to: nat)
    requires g == h && g' == h' && Between(h, t, from, to) == Between(h', t, from, to)
    ensures Between(g, t, from, to) == Between(g', t, from, to)
  {
  }

  lemma NothingMore(ss: seq<State>, acts: seq<Action>, repaired: bool, t: Tid, k: nat, e: nat, n: nat)
    requires |ss| == |acts| + 1 && e < n <= |acts|
    ensures Between(History(ss, acts, repaired, n), t, k, e) == Between(History(ss, acts, repaired, e + 1), t, k, e)
  {
    PartsOk(ss, acts, repaired);
    PartsJoined(ss, acts, repaired, n);
    PartsJoined(ss, acts, repaired, e + 1);
    var parts := Parts(ss, acts, repaired);
    NoneAfter(parts, t, k, e, n);
    SameBetween(Joined(parts, n), Joined(parts, e + 1),
                History(ss, acts, repaired, n), History(ss, acts, repaired, e + 1), t, k, e);
  }

  /** What a call that is still running has done after `n` steps; `to` is any step from the last one on. */
  ghost predicate SoFar(ss: seq<State>, acts: seq<Action>, repaired: bool, t: Tid, k: nat, n: nat)
    requires IsRun(ss, acts, repaired) && k < n <= |acts|
    requires StepOk(ss, acts, repaired, k) && CallOf(ss[k], acts[k]).Some?
  {
    forall to: nat | n <= to + 1 ::
      Accounts(ss[n], t, CallOf(ss[k], acts[k]).value, repaired,
               Between(History(ss, acts, repaired, n), t, k, to), TookRecheck(ss, acts, t, k, n))
  }

  lemma SoFarStarts(ss: seq<State>, acts: seq<Action>, repaired: bool, t: Tid, k: nat, n: nat, to: nat)
    requires IsRun(ss, acts, repaired) && n <= |acts| && Running(ss, acts, repaired, t, k, n) && n == k + 1 <= to + 1
    ensures Accounts(ss[n], t, CallOf(ss[k], acts[k]).value, repaired,
                     Between(History(ss, acts, repaired, n), t, k, to), TookRecheck(ss, acts, t, k, n))
  {
    BetweenGrows(History(ss, acts, repaired, k), ss[k], acts[k], repaired, k, t, k, to);
    NothingYet(ss, acts, repaired, t, k, to);
    CallStarts(ss[k], acts[k], repaired);
  }

  lemma TookGrows(ss: seq<State>, acts: seq<Action>, t: Tid, k: nat, n: nat)
    requires |ss| == |acts| + 1 && k < n <= |acts|
    ensures TookRecheck(ss, acts, t, k, n) <==> TookRecheck(ss, acts, t, k, n - 1) || KeptBy(ss, acts, t, n - 1)
  {
  }

  /** Any step while the call goes on, with `h` and `took` before it and `h'` and `took'` after it. */
  lemma AccountsNext(s: State, a: Action, s': State, repaired: bool, t: Tid, call: Call,
                     h: seq<Entry>, h': seq<Entry>, at: nat, k: nat, to: nat, took: bool, took': bool)
    requires Inv(s) && Enabled(s, a) && s' == Next(s, a, repaired) && k <= at <= to
    requires h' == h + Logged(s, a, repaired, at) && (took' <==> took || (OwnedBy(a, t) && Kept(s, a)))
    requires Accounts(s, t, call, repaired, Between(h, t, k, to), took) && t in s'.threads && s'.threads[t] != Idle
    ensures Accounts(s', t, call, repaired, Between(h', t, k, to), took')
  {
    BetweenGrows(h, s, a, repaired, at, t, k, to);
    if OwnedBy(a, t) {
      OwnStep(s, t, a.tok, repaired, call, Between(h, t, k, to));
    } else {
      StepKeeps(s, a, repaired);
      OthersStep(s, a, s', repaired, t, call);
      assert Between(h, t, k, to) + [] == Between(h, t, k, to);
    }
  }

  lemma SoFarGoesOn(ss: seq<State>, acts: seq<Action>, repaired: bool, t: Tid, k: nat, n: nat)
    requires IsRun(ss, acts, repaired) && n <= |acts| && Running(ss, acts, repaired, t, k, n) && k + 1 < n
    requires Inv(ss[n - 1]) && SoFar(ss, acts, repaired, t, k, n - 1)
    ensures SoFar(ss, acts, repaired, t, k, n)
  {
    var h, h' := History(ss, acts, repaired, n - 1), History(ss, acts, repaired, n);
    var took, took' := TookRecheck(ss, acts, t, k, n - 1), TookRecheck(ss, acts, t, k, n);
    HistoryNext(ss, acts, repaired, n);
    TookGrows(ss, acts, t, k, n);
    assert StepOk(ss, acts, repaired, n - 1);
    forall to: nat | n <= to + 1 {
      AccountsNext(ss[n - 1], acts[n - 1], ss[n], repaired, t, CallOf(ss[k], acts[k]).value,
                   h, h', n - 1, k, to, took, took');
    }
  }

  lemma {:induction false} CallSoFar(ss: seq<State>, acts: seq<Action>, repaired: bool, t: Tid, k: nat, n: nat)
    requires IsRun(ss, acts, repaired) && Inv(ss[0]) && n <= |acts| && Running(ss, acts, repaired, t, k, n)
    ensures SoFar(ss, acts, repaired, t, k, n)
  {
    if n == k + 1 {
      forall to: nat | n <= to + 1 {
        SoFarStarts(ss, acts, repaired, t, k, n, to);
      }
    } else {
      CallSoFar(ss, acts, repaired, t, k, n - 1);
      RunInv(ss, acts, repaired, n - 1);
      SoFarGoesOn(ss, acts, repaired, t, k, n);
    }
  }

  /** The last step of a call adds nothing. */
  lemma LastStep(s: State, t: Tid, tok: Ref, repaired: bool, call: Call, ops: seq<Op<Ptr>>, recheck: bool)
    requires Enabled(s, Run(t, tok)) && Accounts(s, t, call, repaired, ops, recheck)
    requires t in Next(s, Run(t, tok), repaired).threads && Next(s, Run(t, tok), repaired).threads[t] == Idle
    ensures var all := ops + Added(s, Run(t, tok), repaired);
            if recheck && !repaired then all == []
            else |all| == 1 && Performed(call, ValueOf(s.threads[t]), all[0])
  {
    OwnStep(s, t, tok, repaired, call, ops);
  }

  /**
   * Every completed call contributes exactly one operation to the history, in a step between its call
   * and its return, with the call's own arguments and the pointer it returns. The exception is a
   * release, in the program as written, that took the recheck branch: it contributes none.
   */
  lemma OneOperationPerCall(ss: seq<State>, acts: seq<Action>, repaired: bool, t: Tid, k: nat, e: nat, n: nat)
    requires IsRun(ss, acts, repaired) && Inv(ss[0]) && e < n <= |acts| && Completed(ss, acts, repaired, t, k, e)
    ensures var ops := Between(History(ss, acts, repaired, n), t, k, e);
            if TookRecheck(ss, acts, t, k, e) && !repaired then ops == []
            else exists op ::
              ops == [op] && Performed(CallOf(ss[k], acts[k]).value, ValueOf(ss[e].threads[t]), op)
  {
    CallSoFar(ss, acts, repaired, t, k, e);
    var call, h := CallOf(ss[k], acts[k]).value, History(ss, acts, repaired, e);
    LastStep(ss[e], t, acts[e].tok, repaired, call, Between(h, t, k, e), TookRecheck(ss, acts, t, k, e));
    HistoryNext(ss, acts, repaired, e + 1);
    BetweenGrows(h, ss[e], acts[e], repaired, e, t, k, e);
    NothingMore(ss, acts, repaired, t, k, e, n);
    var ops := Between(History(ss, acts, repaired, n), t, k, e);
    assert |ops| == 1 ==> ops == [ops[0]];
  }

  /** A call that has not returned has contributed its one operation or nothing yet. */
  lemma UnfinishedCall(ss: seq<State>, acts: seq<Action>, repaired: bool, t: Tid, k: nat, n: nat)
    requires IsRun(ss, acts, repaired) && Inv(ss[0]) && n <= |acts| && Running(ss, acts, repaired, t, k, n)
    ensures var ops := Between(History(ss, acts, repaired, n), t, k, n);
            ops == [] || (|ops| == 1 && Performed(CallOf(ss[k], acts[k]).value, ValueOf(ss[n].threads[t]), ops[0]))
  {
    CallSoFar(ss, acts, repaired, t, k, n);
    assert Accounts(ss[n], t, CallOf(ss[k], acts[k]).value, repaired,
                    Between(History(ss, acts, repaired, n), t, k, n), TookRecheck(ss, acts, t, k, n));
  }

  lemma {:induction false} UnderWay(ss: seq<State>, acts: seq<Action>, repaired: bool, t: Tid, n: nat) returns (k: nat)
    requires IsRun(ss, acts, repaired) && IsInit(ss[0]) && n <= |acts| && t in ss[n].threads && ss[n].threads[t] != Idle
    ensures Running(ss, acts, repaired, t, k, n)
  {
    if t in ss[n - 1].threads && ss[n - 1].threads[t] != Idle {
      k := UnderWay(ss, acts, repaired, t, n - 1);
    } else {
      k := n - 1;
      assert StepOk(ss, acts, repaired, k);
      CallBegins(ss[n - 1], acts[n - 1], repaired, t);
    }
  }

  /** A thread leaves the idle state by making a call. */
  lemma CallBegins(s: State, a: Action, repaired: bool, t: Tid)
    requires Enabled(s, a) && (t in s.threads ==> s.threads[t] == Idle)
    requires t in Next(s, a, repaired).threads && Next(s, a, repaired).threads[t] != Idle
    ensures CallOf(s, a).Some? && a.t == t
  {
    if t in s.threads && !OwnedBy(a, t) {
      OthersStay(s, a, repaired, t);
    }
  }

  /** The operation took effect while its thread was in some call. */
  ghost predicate HasItsCall(ss: seq<State>, acts: seq<Action>, repaired: bool, entry: Entry, n: nat)
    requires IsRun(ss, acts, repaired) && n <= |acts|
  {
    entry.at < n && exists k :: Running(ss, acts, repaired, entry.t, k, entry.at)
  }

  lemma EventInCall(s: State, a: Action, repaired: bool)
    requires Enabled(s, a) && Event(s, a, repaired).Some?
    ensures a.t in s.threads && s.threads[a.t] != Idle
  {
  }

  lemma LoggedHasItsCall(ss: seq<State>, acts: seq<Action>, repaired: bool, n: nat)
    requires IsRun(ss, acts, repaired) && IsInit(ss[0]) && 0 < n <= |acts| && StepOk(ss, acts, repaired, n - 1)
    ensures forall entry | entry in Logged(ss[n - 1], acts[n - 1], repaired, n - 1) ::
              entry.at == n - 1 && HasItsCall(ss, acts, repaired, entry, n)
  {
    if Event(ss[n - 1], acts[n - 1], repaired).Some? {
      EventInCall(ss[n - 1], acts[n - 1], repaired);
      var k := UnderWay(ss, acts, repaired, acts[n - 1].t, n - 1);
    }
  }

  predicate InOrder(h: seq<Entry>) {
    forall i, j | 0 <= i < j < |h| :: h[i].at < h[j].at
  }

  lemma OrderGrows(h: seq<Entry>, more: seq<Entry>, at: nat)
    requires InOrder(h) && (forall entry | entry in h :: entry.at < at)
    requires |more| <= 1 && (forall entry | entry in more :: entry.at == at)
    ensures InOrder(h + more)
  {
    forall i, j | 0 <= i < j < |h + more|
      ensures (h + more)[i].at < (h + more)[j].at
    {
      if j >= |h| {
        assert h[i] in h && more[j - |h|] in more;
      }
    }
  }

  /** The history is in the order of the steps, and nothing in it comes from outside a call. */
  lemma {:induction false} EveryOperationHasItsCall(ss: seq<State>, acts: seq<Action>, repaired: bool, n: nat)
    requires IsRun(ss, acts, repaired) && IsInit(ss[0]) && n <= |acts|
    ensures forall entry | entry in History(ss, acts, repaired, n) :: HasItsCall(ss, acts, repaired, entry, n)
    ensures InOrder(History(ss, acts, repaired, n))
  {
    if n > 0 {
      EveryOperationHasItsCall(ss, acts, repaired, n - 1);
      assert StepOk(ss, acts, repaired, n - 1);
      LoggedHasItsCall(ss, acts, repaired, n);
      var h, more := History(ss, acts, repaired, n - 1), Logged(ss[n - 1], acts[n - 1], repaired, n - 1);
      forall entry | entry in h
        ensures entry.at < n - 1 && HasItsCall(ss, acts, repaired, entry, n)
      {
        assert HasItsCall(ss, acts, repaired, entry, n - 1);
      }
      OrderGrows(h, more, n - 1);
    }
  }
}
