/**
 * The work pool as a step system: any number of consumers and producers around one list, one mutex and
 * one condition variable. The list is a stack: a message is linked in, and taken, at its head.
 */
module WorkPool {
  import opened Sequences

  /** A consumer at its lock call, at its test, asleep, woken and waiting for the mutex, or with a message. */
  datatype Consumer =
    | Locking | Testing | Waiting | Relocking
    | Unlocking(m: nat) | Processing(m: nat) | Freeing(m: nat)

  /** A producer without a message, at its lock call, about to link, about to unlock, about to signal. */
  datatype Producer = Making | Arriving(m: nat) | Linking(m: nat) | Releasing | Signalling

  datatype Owner = Free | Con(i: nat) | Pro(j: nat)

  /** Messages are numbered as they are made; each is freed in two parts, its data and the message itself. */
  datatype Pool = Pool(cons: seq<Consumer>, pros: seq<Producer>, owner: Owner, queue: seq<nat>,
                       made: nat, freedData: seq<nat>, freed: seq<nat>) {
    predicate IsInit() {
      && cons != [] && owner == Free && queue == freedData == freed == [] && made == 0
      && (forall i | 0 <= i < |cons| :: cons[i] == Locking)
      && (forall j | 0 <= j < |pros| :: pros[j] == Making)
    }

    predicate ConOk(i: nat) {
      i < |cons| ==> (cons[i].Testing? || cons[i].Unlocking? <==> owner == Con(i))
    }

    predicate ProOk(j: nat) {
      j < |pros| ==> (pros[j].Linking? || pros[j].Releasing? <==> owner == Pro(j))
    }

    predicate OwnerOk() {
      (owner.Con? ==> owner.i < |cons|) && (owner.Pro? ==> owner.j < |pros|)
    }

    /** In how many places message `m` is. */
    function Places(m: nat): nat {
      Count(queue, m) + Gather(cons, InHand, m) + Gather(pros, OnTheWay, m) + Count(freed, m)
    }

    function DataPlaces(m: nat): nat {
      Count(queue, m) + Gather(cons, DataInHand, m) + Gather(pros, OnTheWay, m) + Count(freedData, m)
    }

    /** Every message made so far is in exactly one place, and so is its data. */
    predicate Placed(m: nat) {
      Places(m) == DataPlaces(m) == if m < made then 1 else 0
    }

    /** While anyone sleeps, each message in the list has an awake consumer or a signal on its way to it. */
    predicate NoLostWakeup() {
      Tally(cons, Asleep) > 0 ==> |queue| <= Tally(cons, Heading) + Tally(pros, Pending)
    }

    ghost predicate Inv() {
      && cons != [] && OwnerOk() && NoLostWakeup()
      && (forall i: nat :: ConOk(i))
      && (forall j: nat :: ProOk(j))
      && (forall m: nat :: Placed(m))
    }

    /** What still has to happen to the messages made so far. */
    function Work(): nat {
      20 * |queue| + Tally(cons, ConWork) + Tally(pros, ProWork)
    }
  }

  function Asleep(c: Consumer): nat {
    if c.Waiting? then 1 else 0
  }

  function Heading(c: Consumer): nat {
    if c.Locking? || c.Relocking? || c.Testing? then 1 else 0
  }

  function Pending(p: Producer): nat {
    if p.Releasing? || p.Signalling? then 1 else 0
  }

  function InHand(c: Consumer, m: nat): nat {
    if (c.Unlocking? || c.Processing? || c.Freeing?) && c.m == m then 1 else 0
  }

  function DataInHand(c: Consumer, m: nat): nat {
    if (c.Unlocking? || c.Processing?) && c.m == m then 1 else 0
  }

  function OnTheWay(p: Producer, m: nat): nat {
    if (p.Arriving? || p.Linking?) && p.m == m then 1 else 0
  }

  function ConWork(c: Consumer): nat {
    match c
    case Waiting => 0
    case Testing => 2
    case Locking => 3
    case Relocking => 3
    case Unlocking(_) => 12
    case Processing(_) => 11
    case Freeing(_) => 10
  }

  function ProWork(p: Producer): nat {
    match p
    case Making => 0
    case Signalling => 5
    case Releasing => 6
    case Linking(_) => 30
    case Arriving(_) => 31
  }

  // ----- sums over the list and the threads -----

  /** How often `m` occurs in `s`. */
  function Count(s: seq<nat>, m: nat): nat {
    if s == [] then 0 else (if s[0] == m then 1 else 0) + Count(s[1..], m)
  }

  lemma {:induction false} CountEnds(s: seq<nat>, x: nat, m: nat)
    ensures Count([x] + s, m) == Count(s, m) + if x == m then 1 else 0
    ensures Count(s + [x], m) == Count(s, m) + if x == m then 1 else 0
  {
    assert ([x] + s)[1..] == s;
    if s != [] {
      CountEnds(s[1..], x, m);
      assert (s + [x])[1..] == s[1..] + [x];
    }
  }

  lemma {:induction false} CountPositive(s: seq<nat>, m: nat)
    ensures Count(s, m) > 0 <==> m in s
  {
    if s != [] {
      CountPositive(s[1..], m);
      assert s == [s[0]] + s[1..];
    }
  }

  function Tally<T>(xs: seq<T>, f: T -> nat): nat {
    if xs == [] then 0 else f(xs[0]) + Tally(xs[1..], f)
  }

  /** How many of the threads hold message `m`, as `f` tells. */
  function Gather<T>(xs: seq<T>, f: (T, nat) -> nat, m: nat): nat {
    if xs == [] then 0 else f(xs[0], m) + Gather(xs[1..], f, m)
  }

  lemma {:induction false} TallyUpdate<T>(xs: seq<T>, i: nat, x: T, f: T -> nat)
    requires i < |xs|
    ensures Tally(xs[i := x], f) + f(xs[i]) == Tally(xs, f) + f(x)
  {
    if i == 0 {
      assert xs[i := x][1..] == xs[1..];
    } else {
      TallyUpdate(xs[1..], i - 1, x, f);
      assert xs[i := x][1..] == xs[1..][i - 1 := x];
    }
  }

  lemma {:induction false} GatherUpdate<T>(xs: seq<T>, i: nat, x: T, f: (T, nat) -> nat, m: nat)
    requires i < |xs|
    ensures Gather(xs[i := x], f, m) + f(xs[i], m) == Gather(xs, f, m) + f(x, m)
  {
    if i == 0 {
      assert xs[i := x][1..] == xs[1..];
    } else {
      GatherUpdate(xs[1..], i - 1, x, f, m);
      assert xs[i := x][1..] == xs[1..][i - 1 := x];
    }
  }

  lemma {:induction false} TallyZero<T>(xs: seq<T>, f: T -> nat)
    ensures Tally(xs, f) == 0 <==> forall i | 0 <= i < |xs| :: f(xs[i]) == 0
  {
    if xs != [] {
      TallyZero(xs[1..], f);
      assert forall i | 1 <= i < |xs| :: xs[i] == xs[1..][i - 1];
      if forall i | 0 <= i < |xs| :: f(xs[i]) == 0 {
        assert forall i | 0 <= i < |xs[1..]| :: xs[1..][i] == xs[i + 1];
      }
    }
  }

  lemma {:induction false} GatherNone<T>(xs: seq<T>, f: (T, nat) -> nat, m: nat)
    requires forall i | 0 <= i < |xs| :: f(xs[i], m) == 0
    ensures Gather(xs, f, m) == 0
  {
    if xs != [] {
      GatherNone(xs[1..], f, m);
    }
  }

  // ----- steps -----

  datatype Step =
    | Lock(i: nat) | Wait(i: nat) | Pop(i: nat) | Unlock(i: nat) | FreeData(i: nat) | FreeMsg(i: nat) | Spurious(i: nat)
    | Make(j: nat) | Enter(j: nat) | Link(j: nat) | Leave(j: nat) | Signal(j: nat, wake: nat) | SignalNobody(j: nat)
  {
    predicate ByConsumer() {
      Lock? || Wait? || Pop? || Unlock? || FreeData? || FreeMsg? || Spurious?
    }

    /** A step towards freeing what has been made: neither a new message nor a wakeup out of nowhere. */
    predicate Useful() {
      !Make? && !Spurious?
    }
  }

  predicate Enabled(p: Pool, st: Step) {
    if st.ByConsumer() then
      && st.i < |p.cons|
      && var c := p.cons[st.i];
         match st
         case Lock(_) => (c.Locking? || c.Relocking?) && p.owner == Free
         case Wait(_) => c.Testing? && p.queue == []
         case Pop(_) => c.Testing? && p.queue != []
         case Unlock(_) => c.Unlocking?
         case FreeData(_) => c.Processing?
         case FreeMsg(_) => c.Freeing?
         case _ => c.Waiting?
    else
      && st.j < |p.pros|
      && var q := p.pros[st.j];
         match st
         case Make(_) => q.Making?
         case Enter(_) => q.Arriving? && p.owner == Free
         case Link(_) => q.Linking?
         case Leave(_) => q.Releasing?
         case Signal(_, wake) => q.Signalling? && wake < |p.cons| && p.cons[wake].Waiting?
         case _ => q.Signalling? && forall i | 0 <= i < |p.cons| :: !p.cons[i].Waiting?
  }

  function Apply(p: Pool, st: Step): Pool
    requires Enabled(p, st)
  {
    match st
    case Lock(i) => p.(cons := p.cons[i := Testing], owner := Con(i))
    case Wait(i) => p.(cons := p.cons[i := Waiting], owner := Free)
    case Pop(i) => p.(cons := p.cons[i := Unlocking(p.queue[0])], queue := p.queue[1..])
    case Unlock(i) => p.(cons := p.cons[i := Processing(p.cons[i].m)], owner := Free)
    case FreeData(i) => p.(cons := p.cons[i := Freeing(p.cons[i].m)], freedData := p.freedData + [p.cons[i].m])
    case FreeMsg(i) => p.(cons := p.cons[i := Locking], freed := p.freed + [p.cons[i].m])
    case Spurious(i) => p.(cons := p.cons[i := Relocking])
    case Make(j) => p.(pros := p.pros[j := Arriving(p.made)], made := p.made + 1)
    case Enter(j) => p.(pros := p.pros[j := Linking(p.pros[j].m)], owner := Pro(j))
    case Link(j) => p.(pros := p.pros[j := Releasing], queue := [p.pros[j].m] + p.queue)
    case Leave(j) => p.(pros := p.pros[j := Signalling], owner := Free)
    case Signal(j, wake) => p.(pros := p.pros[j := Making], cons := p.cons[wake := Relocking])
    case SignalNobody(j) => p.(pros := p.pros[j := Making])
  }

  // ----- every step keeps the invariant -----

  lemma InitHolds(p: Pool)
    requires p.IsInit()
    ensures p.Inv()
  {
    TallyZero(p.cons, Asleep);
    forall m: nat
      ensures p.Placed(m)
    {
      GatherNone(p.cons, InHand, m);
      GatherNone(p.cons, DataInHand, m);
      GatherNone(p.pros, OnTheWay, m);
    }
  }

  lemma LocksKept(p: Pool, st: Step)
    requires p.Inv() && Enabled(p, st)
    ensures var p' := Apply(p, st);
            && p'.cons != [] && p'.OwnerOk() && (forall i: nat :: p'.ConOk(i)) && (forall j: nat :: p'.ProOk(j))
  {
    var p' := Apply(p, st);
    forall i: nat
      ensures p'.ConOk(i)
    {
      assert p.ConOk(i);
      assert st.ByConsumer() ==> p.ConOk(st.i);
      assert !st.ByConsumer() ==> p.ProOk(st.j);
    }
    forall j: nat
      ensures p'.ProOk(j)
    {
      assert p.ProOk(j);
      assert st.ByConsumer() ==> p.ConOk(st.i);
      assert !st.ByConsumer() ==> p.ProOk(st.j);
    }
  }

  /** What changing one consumer does to every count. */
  lemma ConCounts(p: Pool, i: nat, c: Consumer)
    requires i < |p.cons|
    ensures var cons' := p.cons[i := c];
            && Tally(cons', Asleep) + Asleep(p.cons[i]) == Tally(p.cons, Asleep) + Asleep(c)
            && Tally(cons', Heading) + Heading(p.cons[i]) == Tally(p.cons, Heading) + Heading(c)
            && Tally(cons', ConWork) + ConWork(p.cons[i]) == Tally(p.cons, ConWork) + ConWork(c)
  {
    TallyUpdate(p.cons, i, c, Asleep);
    TallyUpdate(p.cons, i, c, Heading);
    TallyUpdate(p.cons, i, c, ConWork);
  }

  lemma ProCounts(p: Pool, j: nat, q: Producer)
    requires j < |p.pros|
    ensures var pros' := p.pros[j := q];
            && Tally(pros', Pending) + Pending(p.pros[j]) == Tally(p.pros, Pending) + Pending(q)
            && Tally(pros', ProWork) + ProWork(p.pros[j]) == Tally(p.pros, ProWork) + ProWork(q)
  {
    TallyUpdate(p.pros, j, q, Pending);
    TallyUpdate(p.pros, j, q, ProWork);
  }

  lemma StepCounts(p: Pool, st: Step)
    requires Enabled(p, st)
    ensures p.NoLostWakeup() ==> Apply(p, st).NoLostWakeup()
    ensures st.Useful() ==> Apply(p, st).Work() < p.Work()
  {
    var p' := Apply(p, st);
    if st.ByConsumer() {
      ConCounts(p, st.i, p'.cons[st.i]);
    } else {
      ProCounts(p, st.j, p'.pros[st.j]);
      if st.Signal? {
        ConCounts(p, st.wake, Relocking);
      }
      if st.SignalNobody? {
        TallyZero(p.cons, Asleep);
      }
    }
  }

  lemma ConPlaces(p: Pool, i: nat, c: Consumer, m: nat)
    requires i < |p.cons|
    ensures var cons' := p.cons[i := c];
            && Gather(cons', InHand, m) + InHand(p.cons[i], m) == Gather(p.cons, InHand, m) + InHand(c, m)
            && Gather(cons', DataInHand, m) + DataInHand(p.cons[i], m)
               == Gather(p.cons, DataInHand, m) + DataInHand(c, m)
  {
    GatherUpdate(p.cons, i, c, InHand, m);
    GatherUpdate(p.cons, i, c, DataInHand, m);
  }

  lemma ConPlaced(p: Pool, st: Step, m: nat)
    requires p.Placed(m) && st.ByConsumer() && Enabled(p, st)
    ensures Apply(p, st).Placed(m)
  {
    ConPlaces(p, st.i, Apply(p, st).cons[st.i], m);
    match st {
      case Pop(i) => assert Count(p.queue, m) == Count(p.queue[1..], m) + if p.queue[0] == m then 1 else 0;
      case FreeData(i) => CountEnds(p.freedData, p.cons[i].m, m);
      case FreeMsg(i) => CountEnds(p.freed, p.cons[i].m, m);
      case _ =>
    }
  }

  lemma ProPlaced(p: Pool, st: Step, m: nat)
    requires p.Placed(m) && !st.ByConsumer() && Enabled(p, st)
    ensures Apply(p, st).Placed(m)
  {
    GatherUpdate(p.pros, st.j, Apply(p, st).pros[st.j], OnTheWay, m);
    match st {
      case Link(j) => CountEnds(p.queue, p.pros[j].m, m);
      case Signal(j, wake) => ConPlaces(p, wake, Relocking, m);
      case _ =>
    }
  }

  lemma StepKeeps(p: Pool, st: Step)
    requires p.Inv() && Enabled(p, st)
    ensures Apply(p, st).Inv()
  {
    LocksKept(p, st);
    StepCounts(p, st);
    forall m: nat
      ensures Apply(p, st).Placed(m)
    {
      assert p.Placed(m);
      if st.ByConsumer() {
        ConPlaced(p, st, m);
      } else {
        ProPlaced(p, st, m);
      }
    }
  }

  // ----- what the invariant means -----

  /** No two threads are inside the critical section. */
  lemma MutualExclusion(p: Pool, i: nat, i': nat, j: nat)
    requires p.Inv() && i < |p.cons| && i' < |p.cons| && j < |p.pros|
    ensures (p.cons[i].Testing? || p.cons[i].Unlocking?) && (p.cons[i'].Testing? || p.cons[i'].Unlocking?) ==> i == i'
    ensures (p.cons[i].Testing? || p.cons[i].Unlocking?) ==> !p.pros[j].Linking? && !p.pros[j].Releasing?
  {
    assert p.ConOk(i) && p.ConOk(i') && p.ProOk(j);
  }

  /** A message in the list has a consumer that is not asleep, or a producer that has yet to signal. */
  lemma SomeoneAwake(p: Pool)
    requires p.Inv() && p.queue != []
    ensures || (exists i | 0 <= i < |p.cons| :: !p.cons[i].Waiting?)
            || (exists j | 0 <= j < |p.pros| :: Pending(p.pros[j]) > 0)
  {
    if Tally(p.cons, Asleep) == 0 {
      TallyZero(p.cons, Asleep);
      assert Asleep(p.cons[0]) == 0;
    } else if Tally(p.cons, Heading) > 0 {
      TallyZero(p.cons, Heading);
    } else {
      TallyZero(p.pros, Pending);
    }
  }

  /** The consumer has taken the message and not yet freed it. */
  predicate HasMessage(c: Consumer, m: nat) {
    (c.Unlocking? && c.m == m) || (c.Processing? && c.m == m) || (c.Freeing? && c.m == m)
  }

  /**
   * Nothing is freed twice, nothing is freed while it is in the list or in the hands of a thread, and
   * a message goes after its data.
   */
  lemma FreedOnce(p: Pool, m: nat)
    requires p.Inv() && m in p.freed
    ensures Count(p.freed, m) == 1 == Count(p.freedData, m) && m < p.made && m !in p.queue
    ensures forall i | 0 <= i < |p.cons| :: !HasMessage(p.cons[i], m)
  {
    assert p.Placed(m);
    CountPositive(p.freed, m);
    CountPositive(p.queue, m);
    forall i | 0 <= i < |p.cons|
      ensures InHand(p.cons[i], m) == 0
    {
      GatherUpdate(p.cons, i, Locking, InHand, m);
    }
    GatherNone(p.cons, DataInHand, m);
  }

  /** The thread that holds the mutex can always go on. */
  lemma OwnerMoves(p: Pool) returns (st: Step)
    requires p.Inv() && p.owner != Free
    ensures Enabled(p, st) && st.Useful()
  {
    if p.owner.Con? {
      assert p.ConOk(p.owner.i);
      st := if p.cons[p.owner.i].Unlocking? then Unlock(p.owner.i)
            else if p.queue == [] then Wait(p.owner.i) else Pop(p.owner.i);
    } else {
      assert p.ProOk(p.owner.j);
      st := if p.pros[p.owner.j].Linking? then Link(p.owner.j) else Leave(p.owner.j);
    }
  }

  lemma FreeMoves(p: Pool, i: nat) returns (st: Step)
    requires p.owner == Free && p.ConOk(i) && i < |p.cons| && !p.cons[i].Waiting?
    ensures Enabled(p, st) && st.Useful()
  {
    st := if p.cons[i].Processing? then FreeData(i) else if p.cons[i].Freeing? then FreeMsg(i) else Lock(i);
  }

  lemma ProducerMoves(p: Pool, j: nat) returns (st: Step)
    requires p.owner == Free && p.ProOk(j) && j < |p.pros| && !p.pros[j].Making?
    ensures Enabled(p, st) && st.Useful()
  {
    if p.pros[j].Arriving? {
      st := Enter(j);
    } else if i :| 0 <= i < |p.cons| && p.cons[i].Waiting? {
      st := Signal(j, i);
    } else {
      st := SignalNobody(j);
    }
  }

  /**
   * The pool comes to rest only when its work is done: if no thread can take a useful step, every
   * message ever made has been freed, every consumer is asleep and no signal is outstanding.
   */
  lemma RestMeansDone(p: Pool)
    requires p.Inv() && forall st :: Enabled(p, st) ==> !st.Useful()
    ensures p.queue == [] && (forall i | 0 <= i < |p.cons| :: p.cons[i].Waiting?)
    ensures forall j | 0 <= j < |p.pros| :: p.pros[j].Making?
    ensures forall m: nat :: (m in p.freed <==> m < p.made) && Count(p.freed, m) <= 1
  {
    if p.owner != Free {
      var st := OwnerMoves(p);
      assert false;
    }
    forall i | 0 <= i < |p.cons|
      ensures p.cons[i].Waiting?
    {
      assert p.ConOk(i);
      if !p.cons[i].Waiting? {
        var st := FreeMoves(p, i);
      }
    }
    forall j | 0 <= j < |p.pros|
      ensures p.pros[j].Making?
    {
      assert p.ProOk(j);
      if !p.pros[j].Making? {
        var st := ProducerMoves(p, j);
      }
    }
    AtRest(p);
  }

  lemma AtRest(p: Pool)
    requires p.Inv() && (forall i | 0 <= i < |p.cons| :: p.cons[i].Waiting?)
    requires forall j | 0 <= j < |p.pros| :: p.pros[j].Making?
    ensures p.queue == []
    ensures forall m: nat :: (m in p.freed <==> m < p.made) && Count(p.freed, m) <= 1
  {
    TallyZero(p.cons, Asleep);
    TallyZero(p.cons, Heading);
    TallyZero(p.pros, Pending);
    assert Asleep(p.cons[0]) == 1;
    forall m: nat
      ensures (m in p.freed <==> m < p.made) && Count(p.freed, m) <= 1
    {
      GatherNone(p.cons, InHand, m);
      GatherNone(p.pros, OnTheWay, m);
      assert p.Placed(m);
      CountPositive(p.freed, m);
    }
  }

  // ----- runs -----

  ghost predicate OneStep(p: Pool, p': Pool) {
    exists st :: Enabled(p, st) && p' == Apply(p, st)
  }

  ghost predicate StepOk(run: seq<Pool>, n: int) {
    0 <= n < |run| - 1 ==> OneStep(run[n], run[n + 1])
  }

  ghost predicate IsRun(run: seq<Pool>) {
    run != [] && run[0].IsInit() && forall n :: StepOk(run, n)
  }

  lemma PrefixRun(run: seq<Pool>, n: nat)
    requires IsRun(run) && 0 < n <= |run|
    ensures IsRun(run[..n])
  {
    forall k
      ensures StepOk(run[..n], k)
    {
      assert StepOk(run, k);
    }
  }

  /** The invariant holds in every state the pool can reach. */
  lemma {:induction false} RunKeeps(run: seq<Pool>)
    requires IsRun(run)
    ensures run[|run| - 1].Inv()
  {
    if |run| > 1 {
      var k := |run| - 1;
      PrefixRun(run, k);
      RunKeeps(run[..k]);
      assert StepOk(run, k - 1);
      var st :| Enabled(run[k - 1], st) && run[k] == Apply(run[k - 1], st);
      StepKeeps(run[k - 1], st);
    } else {
      InitHolds(run[0]);
    }
  }

  lemma RunInv(run: seq<Pool>, n: nat)
    requires IsRun(run) && n < |run|
    ensures run[n].Inv()
  {
    PrefixRun(run, n + 1);
    RunKeeps(run[..n + 1]);
  }

  // ----- which message a consumer gets -----

  /** In step `n` message `m` comes onto the list. */
  predicate LinkedAt(run: seq<Pool>, n: nat, m: nat) {
    n + 1 < |run| && m !in run[n].queue && m in run[n + 1].queue
  }

  /** Message `m` came onto the list in step `j` and has been there until state `n`. */
  predicate ThereSince(run: seq<Pool>, m: nat, j: nat, n: nat) {
    j < n < |run| && LinkedAt(run, j, m) && forall x | j < x <= n :: m in run[x].queue
  }

  /** In step `n` consumer `i` leaves its test with message `m`. */
  predicate TakenAt(run: seq<Pool>, n: nat, i: nat, m: nat) {
    n + 1 < |run| && i < |run[n].cons| == |run[n + 1].cons|
    && run[n].cons[i] == Testing && run[n + 1].cons[i] == Unlocking(m)
  }

  /** The list changes at its head, by a message that is not elsewhere on it, or not at all. */
  predicate Shifts(q: seq<nat>, q': seq<nat>) {
    || q' == q
    || (q' != [] && q'[0] !in q && q'[1..] == q)
    || (q != [] && q[0] !in q' && q[1..] == q')
  }

  lemma StepShifts(p: Pool, st: Step)
    requires Enabled(p, st) && p.Inv() && Apply(p, st).Inv()
    ensures Shifts(p.queue, Apply(p, st).queue)
  {
    match st
    case Pop(_) =>
      assert p.Placed(p.queue[0]);
      CountPositive(p.queue[1..], p.queue[0]);
    case Link(j) =>
      var m := p.pros[j].m;
      assert Apply(p, st).Placed(m) && Apply(p, st).queue[1..] == p.queue;
      CountPositive(p.queue, m);
    case _ =>
  }

  lemma RunShifts(run: seq<Pool>, n: nat)
    requires IsRun(run) && n + 1 < |run|
    ensures Shifts(run[n].queue, run[n + 1].queue)
  {
    RunInv(run, n);
    RunInv(run, n + 1);
    assert StepOk(run, n);
    var st :| Enabled(run[n], st) && run[n + 1] == Apply(run[n], st);
    StepShifts(run[n], st);
  }

  lemma PlaceInRest(q: seq<nat>, a: nat)
    requires q != [] && q[0] !in q[1..] && a in q[1..]
    ensures IndexOf(q, a) == IndexOf(q[1..], a) + 1
  {
    var k := IndexOf(q[1..], a);
    assert q[k + 1] == q[1..][k];
    assert forall i | 0 < i < k + 1 :: q[i] == q[1..][i - 1];
    assert q[0] != a;
  }

  lemma OrderStays(q: seq<nat>, q': seq<nat>, a: nat, b: nat)
    requires Shifts(q, q') && a in q && b in q && a in q' && b in q'
    ensures IndexOf(q', a) < IndexOf(q', b) <==> IndexOf(q, a) < IndexOf(q, b)
  {
    if q' != [] && q'[0] !in q && q'[1..] == q {
      PlaceInRest(q', a);
      PlaceInRest(q', b);
    } else if q' != q {
      PlaceInRest(q, a);
      PlaceInRest(q, b);
    }
  }

  lemma ComesFirst(q: seq<nat>, q': seq<nat>, a: nat, b: nat)
    requires Shifts(q, q') && a !in q && a in q' && b in q' && a != b
    ensures b in q && IndexOf(q', a) < IndexOf(q', b)
  {
    assert q' == [q'[0]] + q'[1..];
  }

  /** Of two messages on the list, the one that came later is nearer its head. */
  lemma {:induction false} LaterIsNearer(run: seq<Pool>, n: nat, a: nat, j: nat, b: nat, k: nat)
    requires IsRun(run) && ThereSince(run, a, j, n) && ThereSince(run, b, k, n) && k < j
    ensures IndexOf(run[n].queue, a) < IndexOf(run[n].queue, b)
  {
    RunShifts(run, n - 1);
    if n == j + 1 {
      ComesFirst(run[j].queue, run[n].queue, a, b);
    } else {
      LaterIsNearer(run, n - 1, a, j, b, k);
      OrderStays(run[n - 1].queue, run[n].queue, a, b);
    }
  }

  lemma TakesHead(p: Pool, st: Step, i: nat, m: nat)
    requires Enabled(p, st) && i < |p.cons| && p.cons[i] == Testing && Apply(p, st).cons[i] == Unlocking(m)
    requires Shifts(p.queue, Apply(p, st).queue)
    ensures m in p.queue && IndexOf(p.queue, m) == 0 && m !in Apply(p, st).queue
  {
  }

  /** The last message to come onto the list is the first to be taken. */
  lemma LastInFirstOut(run: seq<Pool>, n: nat, i: nat, m: nat, j: nat, other: nat, k: nat)
    requires IsRun(run) && TakenAt(run, n, i, m) && ThereSince(run, m, j, n)
    requires ThereSince(run, other, k, n) && other != m
    ensures k < j
  {
    RunShifts(run, n);
    assert StepOk(run, n);
    var st :| Enabled(run[n], st) && run[n + 1] == Apply(run[n], st);
    TakesHead(run[n], st, i, m);
    if k > j {
      LaterIsNearer(run, n, other, k, m, j);
    } else if k == j {
      RunShifts(run, j);
      ComesFirst(run[j].queue, run[j + 1].queue, m, other);
    }
  }

  /** What a consumer takes is on the list until then, and so is everything else since some step of the run. */
  lemma TakenFromList(run: seq<Pool>, n: nat, i: nat, m: nat)
    requires IsRun(run) && TakenAt(run, n, i, m)
    ensures m in run[n].queue && m !in run[n + 1].queue
    ensures forall x | x in run[n].queue :: exists j :: ThereSince(run, x, j, n)
  {
    RunShifts(run, n);
    assert StepOk(run, n);
    var st :| Enabled(run[n], st) && run[n + 1] == Apply(run[n], st);
    TakesHead(run[n], st, i, m);
    forall x | x in run[n].queue
      ensures exists j :: ThereSince(run, x, j, n)
    {
      SinceSomeStep(run, n, x);
    }
  }

  lemma {:induction false} SinceSomeStep(run: seq<Pool>, n: nat, m: nat)
    requires IsRun(run) && n < |run| && m in run[n].queue
    ensures exists j :: ThereSince(run, m, j, n)
  {
    if n > 0 {
      if m in run[n - 1].queue {
        SinceSomeStep(run, n - 1, m);
        var j :| ThereSince(run, m, j, n - 1);
        assert ThereSince(run, m, j, n);
      } else {
        assert ThereSince(run, m, n - 1, n);
      }
    }
  }
}
