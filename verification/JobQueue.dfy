/** The doubly linked job queue: links that mirror each other, and the sequence of jobs they spell. */
module JobQueue {
  import opened Sequences

  class Job {
    var next: Job?
    var prev: Job?
    const id: int

    constructor (id: int)
      ensures this.id == id
    {
      this.id, next, prev := id, null, null;
    }
  }

  // ----- the queue as a sequence -----

  datatype Op = Insert(job: Job) | Append(job: Job) | Remove(job: Job)

  /** A job may be put in a queue it is not in, and taken out of one it is in. */
  predicate Allowed(js: seq<Job>, op: Op) {
    op.Remove? <==> op.job in js
  }

  function Do(js: seq<Job>, op: Op): seq<Job> {
    match op
    case Insert(x) => [x] + js
    case Append(x) => js + [x]
    case Remove(x) => Without(js, x)
  }

  predicate AllAllowed(js: seq<Job>, ops: seq<Op>)
    decreases |ops|
  {
    ops == [] || (Allowed(js, ops[0]) && AllAllowed(Do(js, ops[0]), ops[1..]))
  }

  function DoAll(js: seq<Job>, ops: seq<Op>): seq<Job>
    decreases |ops|
  {
    if ops == [] then js else DoAll(Do(js, ops[0]), ops[1..])
  }

  /** Removing undoes an insertion at either end. */
  lemma RemoveUndoes(js: seq<Job>, x: Job)
    requires x !in js
    ensures Do(Do(js, Insert(x)), Remove(x)) == js && Do(Do(js, Append(x)), Remove(x)) == js
  {
    WithoutUndoes(js, x);
  }

  lemma DoKeepsNoRepeats(js: seq<Job>, op: Op)
    requires NoRepeats(js) && Allowed(js, op)
    ensures NoRepeats(Do(js, op))
  {
    WithoutExactly(js, op.job);
  }

  /** After any run of operations, a job is in the queue exactly if the last operation on it put it there. */
  lemma {:induction false} MembersAfter(js: seq<Job>, ops: seq<Op>, x: Job)
    requires NoRepeats(js) && AllAllowed(js, ops)
    ensures NoRepeats(DoAll(js, ops))
    ensures x in DoAll(js, ops) <==> LastPut(ops, x, x in js)
    decreases |ops|
  {
    if ops != [] {
      var js' := Do(js, ops[0]);
      DoKeepsNoRepeats(js, ops[0]);
      WithoutExactly(js, ops[0].job);
      MembersAfter(js', ops[1..], x);
    }
  }

  /** Whether the last operation on `x` puts it in, or `otherwise` if there is none. */
  predicate LastPut(ops: seq<Op>, x: Job, otherwise: bool) {
    if ops == [] then otherwise
    else LastPut(ops[1..], x, if ops[0].job == x then !ops[0].Remove? else otherwise)
  }

  /** The position of the first job with the given id. */
  function FirstWith(js: seq<Job>, id: int): (k: nat)
    ensures k <= |js| && (k < |js| ==> js[k].id == id)
  {
    if js == [] then 0 else if js[0].id == id then 0 else 1 + FirstWith(js[1..], id)
  }

  lemma {:induction false} FirstWithIsFirst(js: seq<Job>, id: int, i: nat)
    requires i < FirstWith(js, id)
    ensures js[i].id != id
  {
    if i > 0 {
      FirstWithIsFirst(js[1..], id, i - 1);
    }
  }

  // ----- the links -----

  class Queue {
    var head: Job?
    var tail: Job?
    ghost var jobs: seq<Job>

    /** The links of the `i`-th job lead to its neighbours. */
    ghost predicate LinkOk(js: seq<Job>, i: nat)
      reads js
    {
      i < |js| ==>
        && js[i].next == (if i + 1 < |js| then js[i + 1] else null)
        && js[i].prev == (if i > 0 then js[i - 1] else null)
    }

    /** The queue's links spell `js`. */
    ghost predicate Spells(js: seq<Job>)
      reads `head, `tail, js
    {
      && NoRepeats(js)
      && head == (if js == [] then null else js[0])
      && tail == (if js == [] then null else js[|js| - 1])
      && forall i: nat :: LinkOk(js, i)
    }

    ghost predicate Valid()
      reads this, jobs
    {
      Spells(jobs)
    }

    constructor ()
      ensures Valid() && jobs == []
    {
      head, tail, jobs := null, null, [];
    }

    /** `job_insert`: at the head. */
    method Insert(jp: Job)
      requires Valid() && jp !in jobs
      modifies this, jp, jobs
      ensures Valid() && jobs == [jp] + old(jobs)
    {
      jp.prev := null;
      jp.next := head;
      if head != null {
        head.prev := jp;
      } else {
        tail := jp;
      }
      head := jp;
      jobs := [jp] + jobs;
      forall i: nat
        ensures LinkOk(jobs, i)
      {
        assert i > 0 ==> old(LinkOk(jobs, i - 1));
      }
    }

    /** `job_append` as its comment means it: at the tail. */
    method Append(jp: Job)
      requires Valid() && jp !in jobs
      modifies this, jp, jobs
      ensures Valid() && jobs == old(jobs) + [jp]
    {
      jp.prev := tail;
      jp.next := null;
      if tail != null {
        tail.next := jp;
      } else {
        head := jp;
      }
      tail := jp;
      jobs := jobs + [jp];
      forall i: nat
        ensures LinkOk(jobs, i)
      {
        assert old(LinkOk(jobs, i));
      }
    }

    /**
     * `job_append` as written: the two assignments after the test are exchanged, so the queue is right
     * exactly when it was empty. Otherwise the new job becomes the head and all the others are lost to
     * a forward walk.
     */
    method AppendAsWritten(jp: Job)
      requires Valid() && jp !in jobs
      modifies this`head, this`tail, jp, jobs
      ensures Spells(jobs + [jp]) <==> jobs == []
      ensures head == jp && jp.next == null && jp.prev == old(tail)
      ensures jobs != [] ==> tail == old(tail) && tail.next == jp
    {
      jp.prev := tail;
      jp.next := null;
      if tail != null {
        tail.next := jp;
      } else {
        tail := jp;
      }
      head := jp;
      assert (jobs + [jp])[0] == if jobs == [] then jp else jobs[0];
    }

    /** The head's branch of `job_remove`. */
    method RemoveHead(jp: Job)
      requires Valid() && jp == head
      modifies `head, `tail, jobs
      ensures jobs != [] && jp == jobs[0] && Spells(jobs[1..])
      ensures jp.next == old(jp.next) && jp.prev == old(jp.prev)
    {
      assert LinkOk(jobs, 0) && LinkOk(jobs, 1);
      head := jp.next;
      if jp == tail {
        tail := null;
      } else {
        jp.next.prev := jp.prev;
      }
      forall i: nat
        ensures LinkOk(jobs[1..], i)
      {
        assert i + 1 < |jobs| ==> jobs[1..][i] == jobs[i + 1];
        assert old(LinkOk(jobs, i + 1));
      }
    }

    /** The tail's branch. */
    method RemoveTail(jp: Job)
      requires Valid() && jp == tail && jp != head
      modifies `tail, jobs
      ensures |jobs| > 1 && jp == jobs[|jobs| - 1] && Spells(jobs[..|jobs| - 1])
      ensures jp.next == old(jp.next) && jp.prev == old(jp.prev)
    {
      ghost var n := |jobs| - 1;
      assert LinkOk(jobs, n) && LinkOk(jobs, n - 1);
      tail := jp.prev;
      jp.prev.next := jp.next;
      forall i: nat
        ensures LinkOk(jobs[..n], i)
      {
        assert old(LinkOk(jobs, i));
        assert i < n ==> jobs[i] != jp && (i + 1 < n ==> jobs[i] != jobs[n - 1]);
      }
    }

    /** The middle branch as intended: the neighbours are joined. */
    method RemoveMiddle(jp: Job) returns (ghost k: nat)
      requires Valid() && jp in jobs && jp != head && jp != tail
      modifies jobs
      ensures 0 < k < |jobs| - 1 && jobs[k] == jp && Spells(jobs[..k] + jobs[k + 1..])
      ensures jp.next == old(jp.next) && jp.prev == old(jp.prev)
    {
      k :| k < |jobs| && jobs[k] == jp;
      assert LinkOk(jobs, k) && 0 < k < |jobs| - 1;
      assert jobs[k - 1] != jp && jobs[k + 1] != jp && jobs[k - 1] != jobs[k + 1];
      jp.prev.next := jp.next;
      jp.next.prev := jp.prev;
      ghost var js := jobs[..k] + jobs[k + 1..];
      forall i: nat
        ensures LinkOk(js, i)
      {
        if i < |js| {
          var i0 := if i < k then i else i + 1;
          assert js[i] == jobs[i0] && jobs[i0] != jp && old(LinkOk(jobs, i0));
          assert i + 1 == k || (i0 != k - 1 && js[i].next == old(js[i].next));
          assert i == k || (i0 != k + 1 && js[i].prev == old(js[i].prev));
        }
      }
    }

    /** `job_remove` with the middle case as intended. */
    method Remove(jp: Job)
      requires Valid() && jp in jobs
      modifies this, jobs
      ensures Valid() && jobs == Without(old(jobs), jp)
      ensures jp.next == old(jp.next) && jp.prev == old(jp.prev)
    {
      ghost var js;
      if jp == head {
        RemoveHead(jp);
        js := jobs[1..];
        WithoutEnds(jobs);
      } else if jp == tail {
        RemoveTail(jp);
        js := jobs[..|jobs| - 1];
        WithoutEnds(jobs);
      } else {
        ghost var k := RemoveMiddle(jp);
        js := jobs[..k] + jobs[k + 1..];
        WithoutAt(jobs, jp, k);
      }
      assert Spells(js);
      jobs := js;
    }

    /** The middle branch as written: the job stays in the queue, its backward link pointing at itself. */
    method MiddleAsWritten(jp: Job)
      requires Valid() && jp in jobs && jp != head && jp != tail
      modifies jp
      ensures jp.prev == jp && jp.next == old(jp.next) && !Spells(Without(jobs, jp))
    {
      ghost var k := IndexOf(jobs, jp);
      assert LinkOk(jobs, k) && LinkOk(jobs, k + 1) && LinkOk(jobs, k - 1);
      jp.prev := jp.next.prev;
      jp.next := jp.prev.next;
      ghost var js := Without(jobs, jp);
      assert js[k - 1] == jobs[k - 1] && js[k - 1].next == jp;
      WithoutExactly(jobs, jp);
      assert !LinkOk(js, k - 1);
    }

    /** `job_remove` as written: right at the ends, and wrong everywhere else. */
    method RemoveAsWritten(jp: Job)
      requires Valid() && jp in jobs
      modifies this`head, this`tail, jobs
      ensures Spells(Without(jobs, jp)) <==> jp == old(head) || jp == old(tail)
      ensures jp != old(head) && jp != old(tail) ==>
                && jp.prev == jp && jp.next == old(jp.next) && head == old(head) && tail == old(tail)
                && forall o | o in jobs && o != jp :: o.next == old(o.next) && o.prev == old(o.prev)
    {
      if jp == head {
        RemoveHead(jp);
        WithoutEnds(jobs);
      } else if jp == tail {
        RemoveTail(jp);
        WithoutEnds(jobs);
      } else {
        MiddleAsWritten(jp);
      }
    }

    /** `job_find`: the first job with the id, unless the lock could not be taken. */
    method Find(id: int, locked: bool) returns (jp: Job?)
      requires Valid()
      ensures jp == if locked && FirstWith(jobs, id) < |jobs| then jobs[FirstWith(jobs, id)] else null
    {
      if !locked {
        return null;
      }
      ghost var i := 0;
      jp := head;
      while jp != null
        invariant 0 <= i <= |jobs| && jp == if i < |jobs| then jobs[i] else null
        invariant FirstWith(jobs, id) == i + FirstWith(jobs[i..], id)
        decreases |jobs| - i
      {
        assert LinkOk(jobs, i);
        if jp.id == id {
          break;
        }
        assert jobs[i..][1..] == jobs[i + 1..];
        jp := jp.next;
        i := i + 1;
      }
    }

    /** Any run of operations leaves the queue that the same run on a sequence leaves. */
    method PerformAll(ops: seq<Op>, ghost pool: set<Job>)
      requires Valid() && AllAllowed(jobs, ops)
      requires (forall x | x in jobs :: x in pool) && (forall op | op in ops :: op.job in pool)
      modifies this, pool
      ensures Valid() && jobs == DoAll(old(jobs), ops)
    {
      ghost var js := jobs;
      for k := 0 to |ops|
        invariant Valid() && AllAllowed(jobs, ops[k..]) && DoAll(jobs, ops[k..]) == DoAll(js, ops)
        invariant forall x | x in jobs :: x in pool
      {
        assert ops[k..][1..] == ops[k + 1..] && ops[k] in ops;
        match ops[k] {
          case Insert(x) => Insert(x);
          case Append(x) => Append(x);
          case Remove(x) => Remove(x);
        }
      }
    }
  }

  /** Forward and backward links are mirror images of each other. */
  lemma Mirror(q: Queue, a: Job, b: Job)
    requires q.Valid() && a in q.jobs && b in q.jobs
    ensures a.next == b <==> b.prev == a
    ensures (a.next == null <==> a == q.tail) && (a.prev == null <==> a == q.head)
  {
    var i, j := IndexOf(q.jobs, a), IndexOf(q.jobs, b);
    assert q.LinkOk(q.jobs, i) && q.LinkOk(q.jobs, j);
  }
}
