/**
 * Workers sorting disjoint slices of one array, and a barrier. Workers run in any order, one
 * compare-and-exchange at a time; no two of them touch the same element, so finer steps add no behaviour.
 */
module ParallelSort {
  /** Where slice `t` begins: `t * size`. */
  function Start(t: nat, size: nat): nat {
    if t == 0 then 0 else Start(t - 1, size) + size
  }

  lemma {:induction false} StartIsProduct(t: nat, size: nat)
    ensures Start(t, size) == t * size
  {
    if t > 0 {
      StartIsProduct(t - 1, size);
    }
  }

  lemma {:induction false} StartOrder(t: nat, u: nat, size: nat)
    requires t < u
    ensures Start(t, size) + size <= Start(u, size)
  {
    if t + 1 < u {
      StartOrder(t, u - 1, size);
    }
  }

  predicate SortedSlice(s: seq<int>, lo: nat, hi: nat) {
    hi <= |s| && forall k, m | lo <= k < m < hi :: s[k] <= s[m]
  }

  predicate SliceOk(s: seq<int>, size: nat, t: nat) {
    SortedSlice(s, Start(t, size), Start(t + 1, size))
  }

  predicate Sorted(s: seq<int>) {
    SortedSlice(s, 0, |s|)
  }

  // ----- the exchange sort, one comparison at a time -----

  /** The two loop counters of one worker, and whether it has reached the barrier. */
  datatype Worker = Worker(ix: nat, jx: nat, waiting: bool)

  predicate Finished(w: Worker, size: nat) {
    w.ix + 1 >= size
  }

  function Advance(w: Worker, size: nat): Worker {
    if w.jx + 1 < size then w.(jx := w.jx + 1) else w.(ix := w.ix + 1, jx := w.ix + 2)
  }

  function Exchanged(s: seq<int>, i: nat, j: nat): seq<int>
    requires i < |s| && j < |s|
  {
    if s[i] > s[j] then s[i := s[j]][j := s[i]] else s
  }

  /** Element `k` is in place: it is before `ix`, so nothing after it in the slice is smaller. */
  predicate InPlace(s: seq<int>, lo: nat, size: nat, ix: nat, k: nat) {
    lo <= k < lo + ix && k < lo + size <= |s| ==> forall m | k < m < lo + size :: s[k] <= s[m]
  }

  /** Everything before `ix` is in place, and the element at `ix` is the least of those compared so far. */
  ghost predicate CursorOk(s: seq<int>, lo: nat, size: nat, w: Worker) {
    && 0 < size && lo + size <= |s|
    && w.ix < w.jx <= size && (!Finished(w, size) ==> w.jx < size)
    && (forall k: nat :: InPlace(s, lo, size, w.ix, k))
    && (forall m | lo + w.ix < m < lo + w.jx :: s[lo + w.ix] <= s[m])
  }

  lemma ExchangeKeepsCursor(s: seq<int>, lo: nat, size: nat, w: Worker)
    requires CursorOk(s, lo, size, w) && !Finished(w, size)
    ensures CursorOk(Exchanged(s, lo + w.ix, lo + w.jx), lo, size, Advance(w, size))
  {
    var s', w' := Exchanged(s, lo + w.ix, lo + w.jx), Advance(w, size);
    forall k: nat
      ensures InPlace(s', lo, size, w'.ix, k)
    {
      assert InPlace(s, lo, size, w.ix, k);
    }
  }

  lemma ExchangePermutes(s: seq<int>, i: nat, j: nat)
    requires i < |s| && j < |s|
    ensures multiset(Exchanged(s, i, j)) == multiset(s)
    ensures |Exchanged(s, i, j)| == |s|
    ensures forall k | 0 <= k < |s| && k != i && k != j :: Exchanged(s, i, j)[k] == s[k]
  {
  }

  lemma FinishedIsSorted(s: seq<int>, lo: nat, size: nat, w: Worker)
    requires CursorOk(s, lo, size, w) && Finished(w, size)
    ensures SortedSlice(s, lo, lo + size)
  {
    forall k, m | lo <= k < m < lo + size
      ensures s[k] <= s[m]
    {
      assert InPlace(s, lo, size, w.ix, k);
    }
  }

  /** How many comparisons the rows from `ix` on still need. */
  function Rows(ix: nat, size: nat): nat
    decreases size - ix
  {
    if ix + 1 >= size then 0 else size - 1 - ix + Rows(ix + 1, size)
  }

  function StepsLeft(w: Worker, size: nat): int {
    if Finished(w, size) then 0 else size - w.jx + Rows(w.ix + 1, size)
  }

  function TotalLeft(workers: seq<Worker>, size: nat): int {
    if workers == [] then 0
    else StepsLeft(workers[0], size) + (if workers[0].waiting then 0 else 1) + TotalLeft(workers[1..], size)
  }

  lemma {:induction false} TotalUpdate(workers: seq<Worker>, t: nat, w: Worker, size: nat)
    requires t < |workers|
    ensures TotalLeft(workers[t := w], size) - StepsLeft(w, size) - (if w.waiting then 0 else 1)
         == TotalLeft(workers, size) - StepsLeft(workers[t], size) - (if workers[t].waiting then 0 else 1)
  {
    if t == 0 {
      assert workers[t := w][1..] == workers[1..];
    } else {
      TotalUpdate(workers[1..], t - 1, w, size);
      assert workers[t := w][1..] == workers[1..][t - 1 := w];
    }
  }

  // ----- the race -----

  /** `arrived` is the barrier's own count; it opens when the workers and the main thread have all arrived. */
  datatype Race = Race(nums: seq<int>, size: nat, workers: seq<Worker>, mainWaiting: bool, arrived: nat) {
    predicate IsInit() {
      && size > 0 && |nums| == Start(|workers|, size) && !mainWaiting && arrived == 0
      && forall t | 0 <= t < |workers| :: workers[t] == Worker(0, 1, false)
    }

    predicate BarrierOpen() {
      arrived == |workers| + 1
    }

    ghost predicate WorkerOk(t: nat) {
      t < |workers| ==>
        CursorOk(nums, Start(t, size), size, workers[t]) && (workers[t].waiting ==> Finished(workers[t], size))
    }

    ghost predicate Inv() {
      && size > 0 && |nums| == Start(|workers|, size)
      && arrived == Waiting(workers) + (if mainWaiting then 1 else 0)
      && forall t: nat :: WorkerOk(t)
    }

    ghost predicate SlicesSorted() {
      forall t: nat | t < |workers| :: SliceOk(nums, size, t)
    }
  }

  function Waiting(workers: seq<Worker>): nat {
    if workers == [] then 0 else (if workers[0].waiting then 1 else 0) + Waiting(workers[1..])
  }

  lemma {:induction false} WaitingUpdate(workers: seq<Worker>, t: nat, w: Worker)
    requires t < |workers|
    ensures Waiting(workers[t := w]) + (if workers[t].waiting then 1 else 0)
         == Waiting(workers) + (if w.waiting then 1 else 0)
  {
    if t == 0 {
      assert workers[t := w][1..] == workers[1..];
    } else {
      WaitingUpdate(workers[1..], t - 1, w);
      assert workers[t := w][1..] == workers[1..][t - 1 := w];
    }
  }

  lemma {:induction false} WaitingAll(workers: seq<Worker>)
    ensures Waiting(workers) <= |workers|
    ensures Waiting(workers) == |workers| <==> forall t | 0 <= t < |workers| :: workers[t].waiting
  {
    if workers != [] {
      WaitingAll(workers[1..]);
      assert forall t | 1 <= t < |workers| :: workers[t] == workers[1..][t - 1];
      if forall t | 0 <= t < |workers| :: workers[t].waiting {
        assert forall t | 0 <= t < |workers[1..]| :: workers[1..][t] == workers[t + 1];
      }
    }
  }

  datatype Step = Compare(t: nat) | Arrive(t: nat) | MainArrive

  predicate Enabled(r: Race, st: Step) {
    match st
    case Compare(t) =>
      && t < |r.workers| && !Finished(r.workers[t], r.size)
      && r.workers[t].ix < r.workers[t].jx < r.size && Start(t, r.size) + r.size <= |r.nums|
    case Arrive(t) => t < |r.workers| && Finished(r.workers[t], r.size) && !r.workers[t].waiting
    case MainArrive => !r.mainWaiting
  }

  function Apply(r: Race, st: Step): Race
    requires Enabled(r, st)
  {
    match st
    case Compare(t) =>
      var w := r.workers[t];
      var lo := Start(t, r.size);
      r.(nums := Exchanged(r.nums, lo + w.ix, lo + w.jx), workers := r.workers[t := Advance(w, r.size)])
    case Arrive(t) =>
      r.(workers := r.workers[t := r.workers[t].(waiting := true)], arrived := r.arrived + 1)
    case MainArrive => r.(mainWaiting := true, arrived := r.arrived + 1)
  }

  lemma InitHolds(r: Race)
    requires r.IsInit()
    ensures r.Inv()
  {
    WaitingNone(r.workers);
    forall t: nat
      ensures r.WorkerOk(t)
    {
      if t < |r.workers| {
        SliceFits(r, t);
      }
    }
  }

  lemma {:induction false} WaitingNone(workers: seq<Worker>)
    requires forall t | 0 <= t < |workers| :: !workers[t].waiting
    ensures Waiting(workers) == 0
  {
    if workers != [] {
      WaitingNone(workers[1..]);
    }
  }

  lemma SliceFits(r: Race, t: nat)
    requires |r.nums| == Start(|r.workers|, r.size) && t < |r.workers|
    ensures Start(t, r.size) + r.size == Start(t + 1, r.size) <= |r.nums|
  {
    StartOrder(t, |r.workers|, r.size);
  }

  /** A comparison outside a slice changes nothing in it. */
  lemma CursorFrame(s: seq<int>, i: nat, j: nat, lo: nat, size: nat, w: Worker)
    requires CursorOk(s, lo, size, w) && i < j < |s| && (j < lo || lo + size <= i)
    ensures CursorOk(Exchanged(s, i, j), lo, size, w)
  {
    var s' := Exchanged(s, i, j);
    assert forall k | lo <= k < lo + size :: s'[k] == s[k];
    forall k: nat
      ensures InPlace(s', lo, size, w.ix, k)
    {
      assert InPlace(s, lo, size, w.ix, k);
    }
  }

  lemma SlicesApart(t: nat, u: nat, size: nat)
    requires t != u
    ensures Start(t, size) + size <= Start(u, size) || Start(u, size) + size <= Start(t, size)
  {
    if t < u {
      StartOrder(t, u, size);
    } else {
      StartOrder(u, t, size);
    }
  }

  lemma CompareKeeps(r: Race, t: nat)
    requires r.Inv() && Enabled(r, Compare(t))
    ensures Apply(r, Compare(t)).Inv() && multiset(Apply(r, Compare(t)).nums) == multiset(r.nums)
  {
    var r' := Apply(r, Compare(t));
    var w, lo := r.workers[t], Start(t, r.size);
    ExchangePermutes(r.nums, lo + w.ix, lo + w.jx);
    WaitingUpdate(r.workers, t, r'.workers[t]);
    forall u: nat
      ensures r'.WorkerOk(u)
    {
      assert r.WorkerOk(u);
      if u == t {
        CompareKeepsOwn(r, t);
      } else {
        CompareKeepsOther(r, t, u);
      }
    }
  }

  lemma CompareKeepsOwn(r: Race, t: nat)
    requires r.WorkerOk(t) && Enabled(r, Compare(t))
    ensures Apply(r, Compare(t)).WorkerOk(t)
  {
    ExchangeKeepsCursor(r.nums, Start(t, r.size), r.size, r.workers[t]);
  }

  lemma CompareKeepsOther(r: Race, t: nat, u: nat)
    requires u != t && r.WorkerOk(u) && Enabled(r, Compare(t))
    ensures Apply(r, Compare(t)).WorkerOk(u)
  {
    if u < |r.workers| {
      var i, j := Start(t, r.size) + r.workers[t].ix, Start(t, r.size) + r.workers[t].jx;
      SlicesApart(t, u, r.size);
      CursorFrame(r.nums, i, j, Start(u, r.size), r.size, r.workers[u]);
      var r' := Apply(r, Compare(t));
      assert r'.nums == Exchanged(r.nums, i, j) && r'.workers[u] == r.workers[u];
    }
  }

  lemma ArriveKeeps(r: Race, t: nat)
    requires r.Inv() && Enabled(r, Arrive(t))
    ensures Apply(r, Arrive(t)).Inv()
  {
    var r' := Apply(r, Arrive(t));
    WaitingUpdate(r.workers, t, r'.workers[t]);
    forall u: nat
      ensures r'.WorkerOk(u)
    {
      assert r.WorkerOk(u);
    }
  }

  lemma StepKeeps(r: Race, st: Step)
    requires r.Inv() && Enabled(r, st)
    ensures Apply(r, st).Inv() && multiset(Apply(r, st).nums) == multiset(r.nums)
    ensures Apply(r, st).size == r.size && |Apply(r, st).workers| == |r.workers|
  {
    match st {
      case Compare(t) => CompareKeeps(r, t);
      case Arrive(t) => ArriveKeeps(r, t);
      case MainArrive =>
        forall u: nat
          ensures Apply(r, st).WorkerOk(u)
        {
          assert r.WorkerOk(u);
        }
    }
  }

  lemma StepCost(r: Race, st: Step)
    requires r.Inv() && Enabled(r, st) && !st.MainArrive?
    ensures TotalLeft(Apply(r, st).workers, r.size) == TotalLeft(r.workers, r.size) - 1
  {
    assert r.WorkerOk(st.t);
    TotalUpdate(r.workers, st.t, Apply(r, st).workers[st.t], r.size);
  }

  lemma {:induction false} LeftNonNegative(r: Race, k: nat)
    requires r.Inv() && k <= |r.workers|
    ensures TotalLeft(r.workers[k..], r.size) >= 0
    decreases |r.workers| - k
  {
    if k < |r.workers| {
      assert r.WorkerOk(k);
      LeftNonNegative(r, k + 1);
      assert r.workers[k..][1..] == r.workers[k + 1..];
    }
  }

  /** The merge cannot start before every slice is sorted. */
  lemma OpenMeansSorted(r: Race)
    requires r.Inv() && r.BarrierOpen()
    ensures r.SlicesSorted()
  {
    WaitingAll(r.workers);
    forall t: nat | t < |r.workers|
      ensures SliceOk(r.nums, r.size, t)
    {
      assert r.WorkerOk(t);
      FinishedIsSorted(r.nums, Start(t, r.size), r.size, r.workers[t]);
    }
  }

  /** No thread can be stuck before the barrier. */
  lemma Progress(r: Race) returns (st: Step)
    requires r.Inv() && !r.BarrierOpen()
    ensures Enabled(r, st)
  {
    if !r.mainWaiting {
      st := MainArrive;
    } else {
      WaitingAll(r.workers);
      var t :| 0 <= t < |r.workers| && !r.workers[t].waiting;
      assert r.WorkerOk(t);
      SliceFits(r, t);
      st := if Finished(r.workers[t], r.size) then Arrive(t) else Compare(t);
    }
  }

  // ----- runs -----

  ghost predicate OneStep(r: Race, r': Race) {
    exists st :: Enabled(r, st) && r' == Apply(r, st)
  }

  ghost predicate IsRun(run: seq<Race>) {
    run != [] && run[0].IsInit() && forall i | 0 <= i < |run| - 1 :: OneStep(run[i], run[i + 1])
  }

  lemma {:induction false} RunKeeps(run: seq<Race>)
    requires IsRun(run)
    ensures var r := run[|run| - 1];
            && r.Inv() && r.size == run[0].size && |r.workers| == |run[0].workers|
            && multiset(r.nums) == multiset(run[0].nums)
  {
    if |run| > 1 {
      var k := |run| - 1;
      RunKeeps(run[..k]);
      assert OneStep(run[k - 1], run[k]);
      var st :| Enabled(run[k - 1], st) && run[k] == Apply(run[k - 1], st);
      StepKeeps(run[k - 1], st);
    } else {
      InitHolds(run[0]);
    }
  }

  /** Whatever the interleaving, when the barrier opens each slice is sorted and no number was lost. */
  lemma SlicesCorrect(run: seq<Race>)
    requires IsRun(run) && run[|run| - 1].BarrierOpen()
    ensures run[|run| - 1].SlicesSorted() && multiset(run[|run| - 1].nums) == multiset(run[0].nums)
  {
    RunKeeps(run);
    OpenMeansSorted(run[|run| - 1]);
  }

  // ----- the result does not depend on the schedule -----

  lemma FirstIsLeast(s: seq<int>, x: int)
    requires Sorted(s) && x in s
    ensures s[0] <= x
  {
    var k :| 0 <= k < |s| && s[k] == x;
    assert k == 0 || s[0] <= s[k];
  }

  lemma TailItems(s: seq<int>)
    requires s != []
    ensures multiset(s[1..]) == multiset(s) - multiset{s[0]}
  {
    assert s == [s[0]] + s[1..];
  }

  lemma TailSorted(s: seq<int>)
    requires Sorted(s) && s != []
    ensures Sorted(s[1..])
  {
    assert forall k | 0 <= k < |s| - 1 :: s[1..][k] == s[k + 1];
  }

  lemma SameHead(s: seq<int>, u: seq<int>)
    requires Sorted(s) && Sorted(u) && multiset(s) == multiset(u) && s != []
    ensures u != [] && s[0] == u[0] && multiset(s[1..]) == multiset(u[1..])
  {
    assert s[0] in multiset(u);
    assert u[0] in multiset(s);
    FirstIsLeast(s, u[0]);
    FirstIsLeast(u, s[0]);
    TailItems(s);
    TailItems(u);
  }

  lemma {:induction false} SortedUnique(s: seq<int>, u: seq<int>)
    requires Sorted(s) && Sorted(u) && multiset(s) == multiset(u)
    ensures s == u
  {
    if s == [] {
      assert |multiset(u)| == 0;
    } else {
      SameHead(s, u);
      TailSorted(s);
      TailSorted(u);
      SortedUnique(s[1..], u[1..]);
      assert s == [s[0]] + s[1..] && u == [u[0]] + u[1..];
    }
  }
}
