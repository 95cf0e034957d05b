/** The exchange sort, the merge of the sorted slices and the whole program, on the arrays they work in. */
module MergeSort {
  import opened ParallelSort

  const LONG_MAX: int := 0x7FFF_FFFF_FFFF_FFFF

  method CompareExchange(a: array<int>, i: nat, j: nat)
    requires i < a.Length && j < a.Length
    modifies a
    ensures a[..] == Exchanged(old(a[..]), i, j)
  {
    if a[i] > a[j] {
      var num := a[i];
      a[i] := a[j];
      a[j] := num;
    }
  }

  /** The elements of `s`, each as often as it occurs. */
  function Bag(s: seq<int>): multiset<int> {
    if s == [] then multiset{} else multiset{s[0]} + Bag(s[1..])
  }

  lemma {:induction false} BagIsMultiset(s: seq<int>)
    ensures Bag(s) == multiset(s) && |Bag(s)| == |s|
  {
    if s != [] {
      BagIsMultiset(s[1..]);
      assert s == [s[0]] + s[1..];
    }
  }

  lemma BagAppend(s: seq<int>, u: seq<int>)
    ensures Bag(s + u) == Bag(s) + Bag(u)
  {
    BagIsMultiset(s);
    BagIsMultiset(u);
    BagIsMultiset(s + u);
  }

  lemma PrefixBag(s: seq<int>, lo: nat, hi: nat)
    requires lo <= hi <= |s|
    ensures Bag(s[..hi]) == Bag(s[..lo]) + Bag(s[lo..hi])
  {
    BagAppend(s[..lo], s[lo..hi]);
    assert s[..hi] == s[..lo] + s[lo..hi];
  }

  lemma BagExchanged(s: seq<int>, i: nat, j: nat)
    requires i < |s| && j < |s|
    ensures Bag(Exchanged(s, i, j)) == Bag(s)
  {
    ExchangePermutes(s, i, j);
    BagIsMultiset(s);
    BagIsMultiset(Exchanged(s, i, j));
  }

  predicate SameOutside(s: seq<int>, was: seq<int>, lo: nat, hi: nat) {
    |s| == |was| && forall k | 0 <= k < |s| && !(lo <= k < hi) :: s[k] == was[k]
  }

  /** The slice is sorted as far as the loop counters say, and nothing else has moved. */
  ghost predicate SortedSoFar(s: seq<int>, was: seq<int>, lo: nat, len: nat, w: Worker) {
    CursorOk(s, lo, len, w) && Bag(s) == Bag(was) && SameOutside(s, was, lo, lo + len)
  }

  lemma ExchangeElsewhere(s: seq<int>, was: seq<int>, i: nat, j: nat, lo: nat, hi: nat)
    requires lo <= i < j < hi <= |s| && SameOutside(s, was, lo, hi)
    ensures SameOutside(Exchanged(s, i, j), was, lo, hi)
  {
  }

  lemma SortStep(s: seq<int>, was: seq<int>, lo: nat, len: nat, w: Worker)
    requires SortedSoFar(s, was, lo, len, w) && !Finished(w, len)
    ensures SortedSoFar(Exchanged(s, lo + w.ix, lo + w.jx), was, lo, len, Advance(w, len))
  {
    ExchangeKeepsCursor(s, lo, len, w);
    BagExchanged(s, lo + w.ix, lo + w.jx);
    ExchangeElsewhere(s, was, lo + w.ix, lo + w.jx, lo, lo + len);
  }

  /** The inner loop: afterwards element `ix` of the slice is in place. */
  method SortRow(a: array<int>, ghost was: seq<int>, lo: nat, len: nat, ix: nat)
    requires ix + 1 < len && SortedSoFar(a[..], was, lo, len, Worker(ix, ix + 1, false))
    modifies a
    ensures SortedSoFar(a[..], was, lo, len, Worker(ix + 1, ix + 2, false))
  {
    ghost var w := Worker(ix, ix + 1, false);
    var jx := ix + 1;
    while jx < len
      invariant ix < jx <= len && SortedSoFar(a[..], was, lo, len, w)
      invariant w == if jx < len then Worker(ix, jx, false) else Worker(ix + 1, ix + 2, false)
    {
      SortStep(a[..], was, lo, len, w);
      CompareExchange(a, lo + ix, lo + jx);
      w := Advance(w, len);
      jx := jx + 1;
    }
  }

  /** One worker alone: its slice ends up sorted, and nothing else has moved. */
  method ExchangeSort(a: array<int>, lo: nat, len: nat)
    requires 0 < len && lo + len <= a.Length
    modifies a
    ensures SortedSlice(a[..], lo, lo + len) && multiset(a[..]) == multiset(old(a[..]))
    ensures SameOutside(a[..], old(a[..]), lo, lo + len)
  {
    ghost var was := a[..];
    var ix := 0;
    while ix < len - 1
      invariant 0 <= ix <= len - 1 && SortedSoFar(a[..], was, lo, len, Worker(ix, ix + 1, false))
    {
      SortRow(a, was, lo, len, ix);
      ix := ix + 1;
    }
    FinishedIsSorted(a[..], lo, len, Worker(ix, ix + 1, false));
    BagIsMultiset(a[..]);
    BagIsMultiset(was);
  }

  // ----- merging -----

  /** Slice `i` still has elements; its head is the one under its cursor. */
  predicate HasHead(nums: seq<int>, idx: seq<nat>, size: nat, i: nat) {
    i < |idx| && idx[i] < Start(i + 1, size) <= |nums|
  }

  /** The cursor of slice `i` is inside the slice or at its end. */
  predicate CursorIn(nums: seq<int>, idx: seq<nat>, size: nat, i: nat) {
    i < |idx| ==> Start(i, size) <= idx[i] <= Start(i + 1, size) <= |nums|
  }

  /** What slice `i` still holds. */
  function Items(nums: seq<int>, idx: seq<nat>, size: nat, i: nat): multiset<int> {
    if HasHead(nums, idx, size, i) then Bag(nums[idx[i]..Start(i + 1, size)]) else multiset{}
  }

  function Held(nums: seq<int>, idx: seq<nat>, size: nat): (ms: seq<multiset<int>>)
    ensures |ms| == |idx| && forall i | 0 <= i < |idx| :: ms[i] == Items(nums, idx, size, i)
  {
    seq(|idx|, i requires 0 <= i < |idx| => Items(nums, idx, size, i))
  }

  function Sum(ms: seq<multiset<int>>, k: nat): multiset<int>
    requires k <= |ms|
  {
    if k == 0 then multiset{} else Sum(ms, k - 1) + ms[k - 1]
  }

  lemma {:induction false} SumUpdate(ms: seq<multiset<int>>, k: nat, p: nat, x: multiset<int>)
    requires p < |ms| && k <= |ms|
    ensures if p < k then Sum(ms[p := x], k) + ms[p] == Sum(ms, k) + x else Sum(ms[p := x], k) == Sum(ms, k)
  {
    if k > 0 {
      SumUpdate(ms, k - 1, p, x);
      if p == k - 1 {
        Swap(Sum(ms, p), x, ms[p]);
      } else if p < k - 1 {
        Swap(Sum(ms[p := x], k - 1), ms[k - 1], ms[p]);
        Swap(Sum(ms, k - 1), x, ms[k - 1]);
      }
    }
  }

  lemma Swap(a: multiset<int>, b: multiset<int>, c: multiset<int>)
    ensures (a + b) + c == (a + c) + b
  {
  }

  lemma Cancel(a: multiset<int>, b: multiset<int>, x: multiset<int>, v: multiset<int>)
    requires b + (x + v) == a + x
    ensures a == b + v
  {
    forall e
      ensures a[e] == (b + v)[e]
    {
      assert (b + (x + v))[e] == (a + x)[e];
    }
  }

  lemma {:induction false} SumSome(ms: seq<multiset<int>>, k: nat) returns (i: nat)
    requires k <= |ms| && Sum(ms, k) != multiset{}
    ensures i < k && ms[i] != multiset{}
  {
    if ms[k - 1] != multiset{} {
      i := k - 1;
    } else {
      i := SumSome(ms, k - 1);
    }
  }

  /** What all the slices still hold. */
  function Left(nums: seq<int>, idx: seq<nat>, size: nat): multiset<int> {
    Sum(Held(nums, idx, size), |idx|)
  }

  /** How far the first `k` cursors have moved, together. */
  function Advances(idx: seq<nat>, size: nat, k: nat): int
    requires k <= |idx|
  {
    if k == 0 then 0 else Advances(idx, size, k - 1) + idx[k - 1] - Start(k - 1, size)
  }

  /** Every cursor is at the start of its slice. */
  predicate AtStart(idx: seq<nat>, size: nat) {
    forall i {:trigger idx[i]} | 0 <= i < |idx| :: idx[i] == Start(i, size)
  }

  /** Entry `i` holds all of slice `i`. */
  predicate WholeSlice(ms: seq<multiset<int>>, nums: seq<int>, size: nat, i: nat) {
    i < |ms| && Start(i + 1, size) <= |nums| ==> ms[i] == Bag(nums[Start(i, size)..Start(i + 1, size)])
  }

  lemma HeldAtStart(nums: seq<int>, idx: seq<nat>, size: nat, i: nat)
    requires AtStart(idx, size)
    ensures WholeSlice(Held(nums, idx, size), nums, size, i)
  {
  }

  lemma {:induction false} SumOfSlices(ms: seq<multiset<int>>, nums: seq<int>, size: nat, k: nat)
    requires k <= |ms| && Start(k, size) <= |nums| && forall i: nat :: WholeSlice(ms, nums, size, i)
    ensures Sum(ms, k) == Bag(nums[..Start(k, size)])
  {
    if k == 0 {
      assert nums[..0] == [];
    } else {
      SumOfSlices(ms, nums, size, k - 1);
      assert WholeSlice(ms, nums, size, k - 1);
      PrefixBag(nums, Start(k - 1, size), Start(k, size));
    }
  }

  lemma {:induction false} AdvancesAtStart(idx: seq<nat>, size: nat, k: nat)
    requires k <= |idx| && AtStart(idx, size)
    ensures Advances(idx, size, k) == 0
  {
    if k > 0 {
      AdvancesAtStart(idx, size, k - 1);
    }
  }

  lemma ItemsTake(nums: seq<int>, idx: seq<nat>, size: nat, p: nat)
    requires HasHead(nums, idx, size, p)
    ensures Items(nums, idx, size, p) == Items(nums, idx[p := idx[p] + 1], size, p) + multiset{nums[idx[p]]}
  {
    var lo, hi := idx[p], Start(p + 1, size);
    assert nums[lo..hi][1..] == nums[lo + 1..hi];
    assert lo + 1 == hi ==> nums[lo + 1..hi] == [];
    assert Bag(nums[lo..hi]) == multiset{nums[lo]} + Bag(nums[lo + 1..hi]);
  }

  lemma LeftTake(nums: seq<int>, idx: seq<nat>, size: nat, p: nat)
    requires HasHead(nums, idx, size, p)
    ensures Left(nums, idx, size) == Left(nums, idx[p := idx[p] + 1], size) + multiset{nums[idx[p]]}
  {
    var idx' := idx[p := idx[p] + 1];
    var x := Items(nums, idx', size, p);
    ItemsTake(nums, idx, size, p);
    SumUpdate(Held(nums, idx, size), |idx|, p, x);
    HeldUpdate(nums, idx, size, p);
    Cancel(Left(nums, idx, size), Left(nums, idx', size), x, multiset{nums[idx[p]]});
  }

  lemma HeldUpdate(nums: seq<int>, idx: seq<nat>, size: nat, p: nat)
    requires p < |idx|
    ensures var idx' := idx[p := idx[p] + 1];
            Held(nums, idx', size) == Held(nums, idx, size)[p := Items(nums, idx', size, p)]
  {
  }

  lemma {:induction false} AdvanceTake(idx: seq<nat>, size: nat, k: nat, p: nat)
    requires p < |idx| && k <= |idx|
    ensures Advances(idx[p := idx[p] + 1], size, k) == Advances(idx, size, k) + if p < k then 1 else 0
  {
    if k > 0 {
      AdvanceTake(idx, size, k - 1, p);
    }
  }

  /** The head of slice `i` is smaller than the scan's starting value. */
  predicate Candidate(nums: seq<int>, idx: seq<nat>, size: nat, i: nat) {
    HasHead(nums, idx, size, i) && nums[idx[i]] < LONG_MAX
  }

  /** Slice `p` is the first of those among the first `k` whose head is least. */
  predicate FirstLeast(nums: seq<int>, idx: seq<nat>, size: nat, k: nat, p: nat) {
    && p < k && Candidate(nums, idx, size, p)
    && forall i: nat | i < k && Candidate(nums, idx, size, i) ::
         nums[idx[p]] <= nums[idx[i]] && (i < p ==> nums[idx[p]] < nums[idx[i]])
  }

  /**
   * The scan for the least head. Ties go to the lowest-numbered slice. The result is freshly chosen
   * exactly when some head is below LONG_MAX; otherwise the last round's choice is used again.
   */
  method PickSlice(nums: array<int>, idx: array<nat>, size: nat, stale: nat) returns (minIdx: nat)
    requires forall i: nat :: CursorIn(nums[..], idx[..], size, i)
    ensures (exists i: nat | i < idx.Length :: Candidate(nums[..], idx[..], size, i))
        ==> FirstLeast(nums[..], idx[..], size, idx.Length, minIdx)
    ensures (forall i: nat | i < idx.Length :: !Candidate(nums[..], idx[..], size, i)) ==> minIdx == stale
  {
    var minNum := LONG_MAX;
    minIdx := stale;
    for i := 0 to idx.Length
      invariant if minNum == LONG_MAX
                then minIdx == stale && forall j: nat | j < i :: !Candidate(nums[..], idx[..], size, j)
                else FirstLeast(nums[..], idx[..], size, i, minIdx) && minNum == nums[idx[minIdx]]
    {
      assert CursorIn(nums[..], idx[..], size, i);
      if idx[i] < Start(i + 1, size) && nums[idx[i]] < minNum {
        minNum := nums[idx[i]];
        minIdx := i;
        assert Candidate(nums[..], idx[..], size, i);
      }
    }
  }

  /**
   * The merge so far: no cursor has left its slice, together they have moved as often as there is output,
   * the output is sorted and no larger than anything left, and output and rest make up the input.
   */
  ghost predicate MergeOk(nums: seq<int>, size: nat, idx: seq<nat>, out: seq<int>) {
    && |nums| == Start(|idx|, size)
    && (forall i: nat :: CursorIn(nums, idx, size, i))
    && Advances(idx, size, |idx|) == |out|
    && Sorted(out)
    && (forall i: nat | HasHead(nums, idx, size, i) :: forall a | 0 <= a < |out| :: out[a] <= nums[idx[i]])
    && Bag(out) + Left(nums, idx, size) == Bag(nums)
  }

  ghost predicate SlicesOk(nums: seq<int>, size: nat, n: nat) {
    && (forall t: nat | t < n :: SliceOk(nums, size, t))
    && (forall k | 0 <= k < |nums| :: nums[k] < LONG_MAX)
  }

  /** Taking the least head keeps all of it. */
  lemma TakeKeeps(nums: seq<int>, size: nat, idx: seq<nat>, out: seq<int>, p: nat)
    requires MergeOk(nums, size, idx, out) && SlicesOk(nums, size, |idx|)
    requires FirstLeast(nums, idx, size, |idx|, p)
    ensures MergeOk(nums, size, idx[p := idx[p] + 1], out + [nums[idx[p]]])
  {
    var idx', v := idx[p := idx[p] + 1], nums[idx[p]];
    LeftTake(nums, idx, size, p);
    AdvanceTake(idx, size, |idx|, p);
    BagAppend(out, [v]);
    assert Bag([v]) == multiset{v};
    forall i: nat
      ensures CursorIn(nums, idx', size, i)
    {
      assert CursorIn(nums, idx, size, i);
    }
    forall i: nat | HasHead(nums, idx', size, i)
      ensures forall a | 0 <= a < |out + [v]| :: (out + [v])[a] <= nums[idx'[i]]
    {
      assert CursorIn(nums, idx, size, i) && HasHead(nums, idx, size, i);
      assert Candidate(nums, idx, size, i);
      if i == p {
        assert SliceOk(nums, size, p);
      }
    }
  }

  /** As long as output is missing, some slice has a head to offer. */
  lemma SomeCandidate(nums: seq<int>, size: nat, idx: seq<nat>, out: seq<int>) returns (i: nat)
    requires MergeOk(nums, size, idx, out) && SlicesOk(nums, size, |idx|) && |out| < |nums|
    ensures i < |idx| && Candidate(nums, idx, size, i)
  {
    BagIsMultiset(out);
    BagIsMultiset(nums);
    assert |Left(nums, idx, size)| > 0;
    i := SumSome(Held(nums, idx, size), |idx|);
  }

  /** One round: pick, copy, advance. */
  method MergeOne(nums: array<int>, snums: array<int>, idx: array<nat>, size: nat, k: nat, stale: nat)
    returns (minIdx: nat)
    requires nums != snums && k < snums.Length == nums.Length
    requires SlicesOk(nums[..], size, idx.Length) && MergeOk(nums[..], size, idx[..], snums[..k])
    modifies snums, idx
    ensures nums[..] == old(nums[..]) && MergeOk(nums[..], size, idx[..], snums[..k + 1])
    ensures FirstLeast(nums[..], old(idx[..]), size, idx.Length, minIdx)
    ensures snums[..] == old(snums[..])[k := nums[old(idx[minIdx])]]
    ensures idx[..] == old(idx[..])[minIdx := old(idx[minIdx]) + 1]
  {
    ghost var c := SomeCandidate(nums[..], size, idx[..], snums[..k]);
    minIdx := PickSlice(nums, idx, size, stale);
    TakeKeeps(nums[..], size, idx[..], snums[..k], minIdx);
    snums[k] := nums[idx[minIdx]];
    idx[minIdx] := idx[minIdx] + 1;
    assert snums[..k + 1] == old(snums[..k]) + [nums[old(idx[minIdx])]];
  }

  method Merge(nums: array<int>, snums: array<int>, n: nat, size: nat)
    requires nums != snums && nums.Length == snums.Length == Start(n, size)
    requires SlicesOk(nums[..], size, n)
    modifies snums
    ensures Sorted(snums[..]) && multiset(snums[..]) == multiset(nums[..])
  {
    var idx := new nat[n](i requires i >= 0 => Start(i, size));
    ghost var s := nums[..];
    MergeStarts(s, size, idx[..]);
    var minIdx: nat := *;
    for k := 0 to snums.Length
      invariant nums[..] == s && MergeOk(s, size, idx[..], snums[..k])
      modifies snums, idx
    {
      minIdx := MergeOne(nums, snums, idx, size, k, minIdx);
    }
    assert snums[..snums.Length] == snums[..];
    MergeEnds(s, size, idx[..], snums[..]);
  }

  lemma MergeStarts(nums: seq<int>, size: nat, idx: seq<nat>)
    requires |nums| == Start(|idx|, size) && AtStart(idx, size)
    ensures MergeOk(nums, size, idx, [])
  {
    forall i: nat
      ensures WholeSlice(Held(nums, idx, size), nums, size, i)
    {
      HeldAtStart(nums, idx, size, i);
    }
    SumOfSlices(Held(nums, idx, size), nums, size, |idx|);
    AdvancesAtStart(idx, size, |idx|);
    assert nums[..|nums|] == nums;
    forall i: nat
      ensures CursorIn(nums, idx, size, i)
    {
      if i < |idx| {
        StartOrder(i, |idx|, size);
      }
    }
  }

  lemma MergeEnds(nums: seq<int>, size: nat, idx: seq<nat>, out: seq<int>)
    requires MergeOk(nums, size, idx, out) && |out| == |nums|
    ensures multiset(out) == multiset(nums)
  {
    BagIsMultiset(out);
    BagIsMultiset(nums);
    assert |Left(nums, idx, size)| == 0;
  }

  // ----- the whole program -----

  /** One step of one thread, on the array and the threads' own variables. */
  method Perform(nums: array<int>, ghost r: Race, st: Step, workers: seq<Worker>, mainWaiting: bool, arrived: nat,
                 size: nat)
    returns (workers': seq<Worker>, mainWaiting': bool, arrived': nat)
    requires r == Race(nums[..], size, workers, mainWaiting, arrived) && Enabled(r, st)
    modifies nums
    ensures Apply(r, st) == Race(nums[..], size, workers', mainWaiting', arrived')
  {
    workers', mainWaiting', arrived' := workers, mainWaiting, arrived;
    match st {
      case MainArrive => mainWaiting', arrived' := true, arrived + 1;
      case Arrive(t) => workers', arrived' := workers[t := workers[t].(waiting := true)], arrived + 1;
      case Compare(t) =>
        CompareExchange(nums, Start(t, size) + workers[t].ix, Start(t, size) + workers[t].jx);
        workers' := workers[t := Advance(workers[t], size)];
    }
  }

  /**
   * Workers take their comparisons and arrive at the barrier in any order, and the main thread with
   * them; when the barrier opens the slices are merged. The result is the one sorted permutation.
   */
  method BarrierTest(nums: array<int>, snums: array<int>, n: nat, size: nat)
    requires size > 0 && nums != snums && nums.Length == snums.Length == Start(n, size)
    requires forall k | 0 <= k < nums.Length :: nums[k] < 0x7FFF_FFFF_FFFF_FFFF
    modifies nums, snums
    ensures Sorted(snums[..]) && multiset(snums[..]) == multiset(old(nums[..]))
  {
    var workers := seq(n, _ => Worker(0, 1, false));
    var mainWaiting, arrived := false, 0;
    ghost var r := Race(nums[..], size, workers, mainWaiting, arrived);
    InitHolds(r);
    while arrived != n + 1
      invariant r == Race(nums[..], size, workers, mainWaiting, arrived) && r.Inv() && |workers| == n
      invariant multiset(r.nums) == multiset(old(nums[..]))
      modifies nums
      decreases TotalLeft(workers, size), !mainWaiting
    {
      var st := Schedule(r, mainWaiting, arrived, workers, size);
      StepKeeps(r, st);
      if !st.MainArrive? {
        StepCost(r, st);
      }
      workers, mainWaiting, arrived := Perform(nums, r, st, workers, mainWaiting, arrived, size);
      r := Apply(r, st);
      LeftNonNegative(r, 0);
      assert workers[0..] == workers;
    }
    OpenMeansSorted(r);
    BelowMax(r.nums, old(nums[..]));
    Merge(nums, snums, n, size);
  }

  lemma BelowMax(s: seq<int>, was: seq<int>)
    requires multiset(s) == multiset(was) && forall k | 0 <= k < |was| :: was[k] < LONG_MAX
    ensures forall k | 0 <= k < |s| :: s[k] < LONG_MAX
  {
    forall k | 0 <= k < |s|
      ensures s[k] < LONG_MAX
    {
      assert s[k] in multiset(was);
    }
  }

  /** Any step any thread can take next. */
  method Schedule(ghost r: Race, mainWaiting: bool, arrived: nat, workers: seq<Worker>, size: nat) returns (st: Step)
    requires r.Inv() && !r.BarrierOpen()
    requires mainWaiting == r.mainWaiting && arrived == r.arrived && workers == r.workers && size == r.size
    ensures Enabled(r, st)
  {
    WaitingAll(r.workers);
    var mainFirst: bool := *;
    if !mainWaiting && (mainFirst || arrived == |workers|) {
      st := MainArrive;
    } else {
      var t :| 0 <= t < |workers| && !workers[t].waiting;
      assert r.WorkerOk(t);
      SliceFits(r, t);
      st := if Finished(workers[t], size) then Arrive(t) else Compare(t);
    }
  }
}
