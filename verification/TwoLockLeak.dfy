/** A run of the program as written in which a release forgets its reference. */
module TwoLockLeak {
  import opened Common
  import opened FooTable
  import opened TwoLockTable
  import opened TwoLockInv
  import opened TwoLockSteps
  import opened TwoLockTheorems

  /** Some run of the program as written leads from an empty table to `s`. */
  ghost predicate Reach(s: State) {
    exists ss, acts :: IsRun(ss, acts, false) && IsInit(ss[0]) && ss[|acts|] == s
  }

  /** In state `s` the program as written can do `a`, and that leads to `s'`. */
  predicate Goes(s: State, a: Action, s': State) {
    Enabled(s, a) && Next(s, a, false) == s'
  }

  lemma ReachNext(s: State, a: Action)
    requires Reach(s) && Enabled(s, a)
    ensures Reach(Next(s, a, false))
  {
    var ss, acts :| IsRun(ss, acts, false) && IsInit(ss[0]) && ss[|acts|] == s;
    var ss', acts' := ss + [Next(s, a, false)], acts + [a];
    forall k
      ensures StepOk(ss', acts', false, k)
    {
      assert StepOk(ss, acts, false, k);
    }
    assert ss'[0] == ss[0] && ss'[|acts'|] == Next(s, a, false);
  }

  type Threads = map<Tid, PC>

  /** A table of one bucket that holds one object, at address 0. */
  function Snap(threads: Threads, hash: Option<Tid>, cell: Cell, refs: map<Ref, Claim>): State {
    State([if cell.phase == Linked then Some(0) else None], map[0 := cell], hash, threads, refs,
          [if cell.phase == Linked then [0] else []])
  }

  // ----- one lemma for each kind of line the run goes through -----

  lemma TakeHashStep(ts: Threads, t: Tid, cell: Cell, refs: map<Ref, Claim>)
    requires t in ts && KindOf(ts[t]) == LockHash
    ensures Goes(Snap(ts, None, cell, refs), Run(t, 9), Snap(ts[t := After(ts[t], 9)], Some(t), cell, refs))
  {
  }

  lemma DropHashStep(ts: Threads, t: Tid, hash: Option<Tid>, cell: Cell, refs: map<Ref, Claim>)
    requires t in ts && KindOf(ts[t]) == UnlockHash && !ts[t].RelUnlock?
    ensures Goes(Snap(ts, hash, cell, refs), Run(t, 9), Snap(ts[t := After(ts[t], 9)], None, cell, refs))
  {
  }

  lemma TakeObjStep(ts: Threads, t: Tid, hash: Option<Tid>, cell: Cell, refs: map<Ref, Claim>)
    requires t in ts && KindOf(ts[t]) == LockObj && ts[t].p == 0 && cell.lock == None
    ensures Goes(Snap(ts, hash, cell, refs), Run(t, 9),
                 Snap(ts[t := After(ts[t], 9)], hash, cell.(lock := Some(t)), refs))
  {
    assert map[0 := cell][0 := cell.(lock := Some(t))] == map[0 := cell.(lock := Some(t))];
  }

  lemma DropObjStep(ts: Threads, t: Tid, hash: Option<Tid>, cell: Cell, refs: map<Ref, Claim>)
    requires t in ts && KindOf(ts[t]) == UnlockObj && ts[t].p == 0
    ensures Goes(Snap(ts, hash, cell, refs), Run(t, 9),
                 Snap(ts[t := After(ts[t], 9)], hash, cell.(lock := None), refs))
  {
    assert map[0 := cell][0 := cell.(lock := None)] == map[0 := cell.(lock := None)];
  }

  lemma MallocStep(s: State, ts: Threads, cell: Cell)
    requires cell == Cell(7, 1, None, None, Private(0), 0) && ts == map[0 := Idle, 1 := Idle]
    requires s == State([None], map[], None, ts, map[], [[]])
    ensures Reach(s) && Goes(s, Malloc(0, 7, 0, 0), Snap(ts[0 := AllocLock(0, 0)], None, cell, OneRef()))
  {
    assert IsRun([s], [], false) && IsInit([s][0]);
    assert map[][0 := cell] == map[0 := cell] && map[][0 := Claim(0, 0)] == OneRef();
  }

  lemma AllocNextStep(ts: Threads, hash: Option<Tid>, cell: Cell, refs: map<Ref, Claim>)
    requires 0 in ts && ts[0] == AllocNext(0, 0) && cell.phase == Private(0) && cell.next == None
    ensures Goes(Snap(ts, hash, cell, refs), Run(0, 9), Snap(ts[0 := AllocPublish(0, 0)], hash, cell, refs))
  {
    assert map[0 := cell][0 := cell.(next := None)] == map[0 := cell];
  }

  lemma PublishStep(ts: Threads, hash: Option<Tid>, cell: Cell, refs: map<Ref, Claim>)
    requires 0 in ts && ts[0] == AllocPublish(0, 0) && cell.phase == Private(0)
    ensures Goes(Snap(ts, hash, cell, refs), Run(0, 9),
                 Snap(ts[0 := AllocLockObj(0, 0)], hash, cell.(phase := Linked), refs))
  {
    assert map[0 := cell][0 := cell.(phase := Linked)] == map[0 := cell.(phase := Linked)];
    assert [0] + [] == [0];
  }

  lemma FindCountStep(ts: Threads, hash: Option<Tid>, cell: Cell, refs: map<Ref, Claim>)
    requires 1 in ts && ts[1] == FindCount(7, 0) && 1 !in refs
    ensures Goes(Snap(ts, hash, cell, refs), Run(1, 1),
                 Snap(ts[1 := FindUnlockObj(0, 1)], hash, cell.(count := cell.count + 1), refs[1 := Claim(1, 0)]))
  {
    assert map[0 := cell][0 := cell.(count := cell.count + 1)] == map[0 := cell.(count := cell.count + 1)];
  }

  lemma RecheckStep(ts: Threads, hash: Option<Tid>, cell: Cell, refs: map<Ref, Claim>)
    requires 0 in ts && ts[0] == RelRecheck(0, 0) && cell.count == 2
    ensures Goes(Snap(ts, hash, cell, refs), Run(0, 9),
                 Snap(ts[0 := RelKeptUnlockObj(0)], hash, cell.(forgotten := cell.forgotten + 1), refs - {0}))
  {
    var cell' := cell.(forgotten := cell.forgotten + 1);
    assert map[0 := cell][0 := cell'] == map[0 := cell'];
  }

  lemma StartStep(ts: Threads, t: Tid, cell: Cell, refs: map<Ref, Claim>, a: Action, next: PC)
    requires t in ts && ts[t] == Idle
    requires || (a == CallRelease(t, 0) && 0 in refs && refs[0] == Claim(t, 0) && next == RelLockObj(0, 0))
             || (a == CallFind(t, 7) && next == FindLock(7))
    ensures Goes(Snap(ts, None, cell, refs), a, Snap(ts[t := next], None, cell, refs))
  {
  }

  lemma TestStep(ts: Threads, t: Tid, hash: Option<Tid>, cell: Cell, refs: map<Ref, Claim>)
    requires t in ts && ts[t] == RelTest(0, 0) && cell.count == 1
    ensures Goes(Snap(ts, hash, cell, refs), Run(t, 9), Snap(ts[t := RelUnlockObj(0, 0)], hash, cell, refs))
  {
  }

  /** The two lines of the search that finds the object at once. */
  lemma SearchStep(ts: Threads, t: Tid, hash: Option<Tid>, cell: Cell, refs: map<Ref, Claim>, next: PC)
    requires t in ts
    requires || (ts[t] == FindHead(7) && cell.phase == Linked && next == FindTest(7, Some(0)))
             || (ts[t] == FindTest(7, Some(0)) && cell.id == 7 && next == FindLockObj(7, 0))
    ensures Goes(Snap(ts, hash, cell, refs), Run(t, 9), Snap(ts[t := next], hash, cell, refs))
  {
  }

  // ----- the run -----

  /** The object, in its chain, with the given count and lock. */
  function Obj(count: int, lock: Option<Tid>): Cell {
    Cell(7, count, None, lock, Linked, 0)
  }

  function OneRef(): map<Ref, Claim> {
    map[0 := Claim(0, 0)]
  }

  function BothRefs(): map<Ref, Claim> {
    OneRef()[1 := Claim(1, 0)]
  }

  /** Both threads at given lines. */
  function Two(pc0: PC, pc1: PC): Threads {
    map[0 := pc0, 1 := pc1]
  }

  lemma TwoUpdate(pc0: PC, pc1: PC, pc: PC)
    ensures Two(pc0, pc1)[0 := pc] == Two(pc, pc1)
    ensures Two(pc0, pc1)[1 := pc] == Two(pc0, pc)
  {
  }

  // Thread 0 allocates the object.

  lemma Locked()
    ensures Reach(Snap(Two(AllocNext(0, 0), Idle), Some(0), Cell(7, 1, None, None, Private(0), 0), OneRef()))
  {
    var s := State([None], map[], None, Two(Idle, Idle), map[], [[]]);
    MallocStep(s, Two(Idle, Idle), Cell(7, 1, None, None, Private(0), 0));
    TwoUpdate(Idle, Idle, AllocLock(0, 0));
    ReachNext(s, Malloc(0, 7, 0, 0));
    TakeHashStep(Two(AllocLock(0, 0), Idle), 0, Cell(7, 1, None, None, Private(0), 0), OneRef());
    TwoUpdate(AllocLock(0, 0), Idle, AllocNext(0, 0));
    ReachNext(Snap(Two(AllocLock(0, 0), Idle), None, Cell(7, 1, None, None, Private(0), 0), OneRef()), Run(0, 9));
  }

  lemma Published()
    ensures Reach(Snap(Two(AllocLockObj(0, 0), Idle), Some(0), Obj(1, None), OneRef()))
  {
    Locked();
    AllocNextStep(Two(AllocNext(0, 0), Idle), Some(0), Cell(7, 1, None, None, Private(0), 0), OneRef());
    TwoUpdate(AllocNext(0, 0), Idle, AllocPublish(0, 0));
    ReachNext(Snap(Two(AllocNext(0, 0), Idle), Some(0), Cell(7, 1, None, None, Private(0), 0), OneRef()), Run(0, 9));
    PublishStep(Two(AllocPublish(0, 0), Idle), Some(0), Cell(7, 1, None, None, Private(0), 0), OneRef());
    TwoUpdate(AllocPublish(0, 0), Idle, AllocLockObj(0, 0));
    ReachNext(Snap(Two(AllocPublish(0, 0), Idle), Some(0), Cell(7, 1, None, None, Private(0), 0), OneRef()), Run(0, 9));
  }

  lemma LetGo()
    ensures Reach(Snap(Two(AllocUnlock(0, 0), Idle), Some(0), Obj(1, None), OneRef()))
  {
    Published();
    TakeObjStep(Two(AllocLockObj(0, 0), Idle), 0, Some(0), Obj(1, None), OneRef());
    TwoUpdate(AllocLockObj(0, 0), Idle, AllocUnlockObj(0, 0));
    ReachNext(Snap(Two(AllocLockObj(0, 0), Idle), Some(0), Obj(1, None), OneRef()), Run(0, 9));
    DropObjStep(Two(AllocUnlockObj(0, 0), Idle), 0, Some(0), Obj(1, Some(0)), OneRef());
    TwoUpdate(AllocUnlockObj(0, 0), Idle, AllocUnlock(0, 0));
    ReachNext(Snap(Two(AllocUnlockObj(0, 0), Idle), Some(0), Obj(1, Some(0)), OneRef()), Run(0, 9));
  }

  // It starts its release and stops in the gap between its two tests of the count.

  lemma Releasing()
    ensures Reach(Snap(Two(RelLockObj(0, 0), Idle), None, Obj(1, None), OneRef()))
  {
    LetGo();
    DropHashStep(Two(AllocUnlock(0, 0), Idle), 0, Some(0), Obj(1, None), OneRef());
    TwoUpdate(AllocUnlock(0, 0), Idle, Idle);
    ReachNext(Snap(Two(AllocUnlock(0, 0), Idle), Some(0), Obj(1, None), OneRef()), Run(0, 9));
    StartStep(Two(Idle, Idle), 0, Obj(1, None), OneRef(), CallRelease(0, 0), RelLockObj(0, 0));
    TwoUpdate(Idle, Idle, RelLockObj(0, 0));
    ReachNext(Snap(Two(Idle, Idle), None, Obj(1, None), OneRef()), CallRelease(0, 0));
  }

  lemma Compared()
    ensures Reach(Snap(Two(RelUnlockObj(0, 0), Idle), None, Obj(1, Some(0)), OneRef()))
  {
    Releasing();
    TakeObjStep(Two(RelLockObj(0, 0), Idle), 0, None, Obj(1, None), OneRef());
    TwoUpdate(RelLockObj(0, 0), Idle, RelTest(0, 0));
    ReachNext(Snap(Two(RelLockObj(0, 0), Idle), None, Obj(1, None), OneRef()), Run(0, 9));
    TestStep(Two(RelTest(0, 0), Idle), 0, None, Obj(1, Some(0)), OneRef());
    TwoUpdate(RelTest(0, 0), Idle, RelUnlockObj(0, 0));
    ReachNext(Snap(Two(RelTest(0, 0), Idle), None, Obj(1, Some(0)), OneRef()), Run(0, 9));
  }

  // Meanwhile thread 1 finds the object and gets its own reference.

  lemma Finding()
    ensures Reach(Snap(Two(RelLock(0, 0), FindLock(7)), None, Obj(1, None), OneRef()))
  {
    Compared();
    DropObjStep(Two(RelUnlockObj(0, 0), Idle), 0, None, Obj(1, Some(0)), OneRef());
    TwoUpdate(RelUnlockObj(0, 0), Idle, RelLock(0, 0));
    ReachNext(Snap(Two(RelUnlockObj(0, 0), Idle), None, Obj(1, Some(0)), OneRef()), Run(0, 9));
    StartStep(Two(RelLock(0, 0), Idle), 1, Obj(1, None), OneRef(), CallFind(1, 7), FindLock(7));
    TwoUpdate(RelLock(0, 0), Idle, FindLock(7));
    ReachNext(Snap(Two(RelLock(0, 0), Idle), None, Obj(1, None), OneRef()), CallFind(1, 7));
  }

  lemma AtObject()
    ensures Reach(Snap(Two(RelLock(0, 0), FindTest(7, Some(0))), Some(1), Obj(1, None), OneRef()))
  {
    Finding();
    TakeHashStep(Two(RelLock(0, 0), FindLock(7)), 1, Obj(1, None), OneRef());
    TwoUpdate(RelLock(0, 0), FindLock(7), FindHead(7));
    ReachNext(Snap(Two(RelLock(0, 0), FindLock(7)), None, Obj(1, None), OneRef()), Run(1, 9));
    SearchStep(Two(RelLock(0, 0), FindHead(7)), 1, Some(1), Obj(1, None), OneRef(), FindTest(7, Some(0)));
    TwoUpdate(RelLock(0, 0), FindHead(7), FindTest(7, Some(0)));
    ReachNext(Snap(Two(RelLock(0, 0), FindHead(7)), Some(1), Obj(1, None), OneRef()), Run(1, 9));
  }

  lemma Holding()
    ensures Reach(Snap(Two(RelLock(0, 0), FindCount(7, 0)), Some(1), Obj(1, Some(1)), OneRef()))
  {
    AtObject();
    SearchStep(Two(RelLock(0, 0), FindTest(7, Some(0))), 1, Some(1), Obj(1, None), OneRef(),
              FindLockObj(7, 0));
    TwoUpdate(RelLock(0, 0), FindTest(7, Some(0)), FindLockObj(7, 0));
    ReachNext(Snap(Two(RelLock(0, 0), FindTest(7, Some(0))), Some(1), Obj(1, None), OneRef()), Run(1, 9));
    TakeObjStep(Two(RelLock(0, 0), FindLockObj(7, 0)), 1, Some(1), Obj(1, None), OneRef());
    TwoUpdate(RelLock(0, 0), FindLockObj(7, 0), FindCount(7, 0));
    ReachNext(Snap(Two(RelLock(0, 0), FindLockObj(7, 0)), Some(1), Obj(1, None), OneRef()), Run(1, 9));
  }

  lemma Counted()
    ensures Reach(Snap(Two(RelLock(0, 0), FindUnlockObj(0, 1)), Some(1), Obj(2, Some(1)), BothRefs()))
  {
    Holding();
    FindCountStep(Two(RelLock(0, 0), FindCount(7, 0)), Some(1), Obj(1, Some(1)), OneRef());
    TwoUpdate(RelLock(0, 0), FindCount(7, 0), FindUnlockObj(0, 1));
    ReachNext(Snap(Two(RelLock(0, 0), FindCount(7, 0)), Some(1), Obj(1, Some(1)), OneRef()), Run(1, 1));
  }

  lemma Unheld()
    ensures Reach(Snap(Two(RelLock(0, 0), FindUnlock(Some(0))), Some(1), Obj(2, None), BothRefs()))
  {
    Counted();
    DropObjStep(Two(RelLock(0, 0), FindUnlockObj(0, 1)), 1, Some(1), Obj(2, Some(1)), BothRefs());
    TwoUpdate(RelLock(0, 0), FindUnlockObj(0, 1), FindUnlock(Some(0)));
    ReachNext(Snap(Two(RelLock(0, 0), FindUnlockObj(0, 1)), Some(1), Obj(2, Some(1)), BothRefs()), Run(1, 9));
  }

  lemma Returned()
    ensures Reach(Snap(Two(RelLock(0, 0), Idle), None, Obj(2, None), BothRefs()))
  {
    Unheld();
    DropHashStep(Two(RelLock(0, 0), FindUnlock(Some(0))), 1, Some(1), Obj(2, None), BothRefs());
    TwoUpdate(RelLock(0, 0), FindUnlock(Some(0)), Idle);
    ReachNext(Snap(Two(RelLock(0, 0), FindUnlock(Some(0))), Some(1), Obj(2, None), BothRefs()), Run(1, 9));
  }

  // Thread 0 goes on: the count is no longer 1.

  lemma Back()
    ensures Reach(Snap(Two(RelRelockObj(0, 0), Idle), Some(0), Obj(2, None), BothRefs()))
  {
    Returned();
    TakeHashStep(Two(RelLock(0, 0), Idle), 0, Obj(2, None), BothRefs());
    TwoUpdate(RelLock(0, 0), Idle, RelRelockObj(0, 0));
    ReachNext(Snap(Two(RelLock(0, 0), Idle), None, Obj(2, None), BothRefs()), Run(0, 9));
  }

  lemma Leaked()
    ensures Reach(Snap(Two(RelKeptUnlockObj(0), Idle), Some(0), Cell(7, 2, None, Some(0), Linked, 1), BothRefs() - {0}))
  {
    Back();
    TakeObjStep(Two(RelRelockObj(0, 0), Idle), 0, Some(0), Obj(2, None), BothRefs());
    TwoUpdate(RelRelockObj(0, 0), Idle, RelRecheck(0, 0));
    ReachNext(Snap(Two(RelRelockObj(0, 0), Idle), Some(0), Obj(2, None), BothRefs()), Run(0, 9));
    RecheckStep(Two(RelRecheck(0, 0), Idle), Some(0), Obj(2, Some(0)), BothRefs());
    TwoUpdate(RelRecheck(0, 0), Idle, RelKeptUnlockObj(0));
    ReachNext(Snap(Two(RelRecheck(0, 0), Idle), Some(0), Obj(2, Some(0)), BothRefs()), Run(0, 9));
  }

  /** The first reference is gone but still counted, so the object is never freed. */
  lemma LeakHappens()
    ensures exists ss, acts :: IsRun(ss, acts, false) && IsInit(ss[0]) && KeptSteps(ss, acts, 0, |acts|) == 1
  {
    Leaked();
    var s := Snap(Two(RelKeptUnlockObj(0), Idle), Some(0), Cell(7, 2, None, Some(0), Linked, 1), BothRefs() - {0});
    var ss, acts :| IsRun(ss, acts, false) && IsInit(ss[0]) && ss[|acts|] == s;
    RunForgotten(ss, acts, false, 0, |acts|);
    assert Forgotten(s, 0) == 1;
  }
}
