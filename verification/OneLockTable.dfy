/**
 * The table under one lock: each operation runs alone, on real bucket pointers and next pointers, and
 * computes the abstract operation of the same name.
 */
module OneLockTable {
  import opened Common
  import opened FooTable
  import opened Sequences

  class Foo {
    var count: int
    var id: int
    var next: Foo?

    constructor (id: int)
      ensures this.count == 1 && this.id == id && this.next == null
    {
      this.count, this.id, this.next := 1, id, null;
    }
  }

  function FooAt(c: seq<Foo>, k: nat): Foo? {
    if k < |c| then c[k] else null
  }

  function Found(fp: Foo?): Option<Foo> {
    if fp == null then None else Some(fp)
  }

  function Removed(chains: seq<seq<Foo>>, b: nat, fp: Foo): seq<seq<Foo>> {
    if b < |chains| then chains[b := Without(chains[b], fp)] else chains
  }

  type Tid = nat

  /** A lock that is not recursive: taking it is possible only while nobody owns it, not even the taker. */
  class Mutex {
    var owner: Option<Tid>

    constructor ()
      ensures owner == None
    {
      owner := None;
    }

    predicate CanLock()
      reads this
    {
      owner == None
    }

    method Lock(t: Tid)
      requires CanLock()
      modifies this
      ensures owner == Some(t)
    {
      owner := Some(t);
    }

    method Unlock(t: Tid)
      requires owner == Some(t)
      modifies this
      ensures owner == None
    {
      owner := None;
    }
  }

  /** How a call ends: it returns, or it waits for a lock that it can never get. */
  datatype Outcome = Returned(fp: Foo?) | Stuck

  class HashTable {
    const hashlock: Mutex
    const fh: array<Foo?>
    ghost var chains: seq<seq<Foo>>
    ghost var nodes: set<Foo>

    ghost function Abs(): Table<Foo>
      reads this, nodes
    {
      Table(chains, map o | o in nodes :: o.id, map o | o in nodes :: o.count)
    }

    ghost predicate LinkOk(b: int, k: int)
      reads this, nodes
    {
      0 <= b < |chains| && 0 <= k < |chains[b]| && chains[b][k] in nodes ==>
        chains[b][k].next == FooAt(chains[b], k + 1)
    }

    /** The pointers spell out the chains of `t`; counts play no part. */
    ghost predicate Spells(t: Table<Foo>)
      reads this, fh, nodes
    {
      && fh.Length > 0 && t.Wf()
      && t.chains == chains && |chains| == fh.Length && t.id == Abs().id
      && (forall b | 0 <= b < fh.Length :: fh[b] == FooAt(chains[b], 0))
      && (forall b, k :: LinkOk(b, k))
    }

    ghost predicate Valid()
      reads this, fh, nodes
    {
      Spells(Abs())
    }

    constructor (nhash: nat)
      requires nhash > 0
      ensures Valid() && fh.Length == nhash && nodes == {} && fresh(fh)
      ensures fresh(hashlock) && hashlock.CanLock()
      ensures Abs() == Table(seq(nhash, _ => []), map[], map[])
    {
      hashlock := new Mutex();
      fh := new Foo?[nhash](_ => null);
      chains := seq(nhash, _ => []);
      nodes := {};
    }

    lemma Located(t: Table<Foo>, b: nat, k: nat)
      requires Spells(t) && b < |chains| && k < |chains[b]|
      ensures chains[b][k] in nodes && HashOf(chains[b][k].id, fh.Length) == b
      ensures chains[b][k].next == FooAt(chains[b], k + 1)
    {
      assert t.PlaceOk(b, k);
      assert t.id[chains[b][k]] == chains[b][k].id;
      assert LinkOk(b, k);
    }

    /** Pointers and ids that did not change still spell the same chains. */
    twostate lemma StillSpells(t: Table<Foo>)
      requires old(Spells(t)) && chains == old(chains) && nodes == old(nodes) && fh[..] == old(fh[..])
      requires forall o | o in nodes :: o.next == old(o.next) && o.id == old(o.id)
      ensures Spells(t)
    {
      forall b, k
        ensures LinkOk(b, k)
      {
        assert old(LinkOk(b, k));
      }
      assert forall b | 0 <= b < fh.Length :: fh[b] == fh[..][b] == old(fh[..])[b];
    }

    /** Puts a new object in front of the chain its id belongs to. */
    method PushFront(node: Foo)
      requires Valid() && node !in nodes
      modifies this, fh, node`next
      ensures nodes == old(nodes) + {node} && |chains| == fh.Length
      ensures var b := HashOf(node.id, fh.Length);
              |old(chains)| == fh.Length && chains == old(chains)[b := [node] + old(chains)[b]]
      ensures forall b | 0 <= b < fh.Length :: fh[b] == FooAt(chains[b], 0)
      ensures forall b, k :: LinkOk(b, k)
    {
      var b := HashOf(node.id, fh.Length);
      node.next := fh[b];
      fh[b] := node;
      ghost var c := chains[b];
      chains := chains[b := [node] + c];
      nodes := nodes + {node};
      forall d, k
        ensures LinkOk(d, k)
      {
        var k' := if d == b then k - 1 else k;
        assert old(LinkOk(d, k')) && old(Abs().PlaceOk(d, k'));
      }
    }

    method Alloc(id: int, memory: bool) returns (fp: Foo?)
      requires Valid()
      modifies this, fh
      ensures Valid()
      ensures !memory ==> fp == null && Abs() == old(Abs())
      ensures memory ==> fp != null && fresh(fp) && Allowed(old(Abs()), Publish(fp, id))
      ensures memory ==> Abs() == Do(old(Abs()), Publish(fp, id))
    {
      if !memory {
        return null;
      }
      ghost var was := Abs();
      var node := new Foo(id);
      assert node !in was.id;
      PushFront(node);
      assert Abs() == Do(was, Publish(node, id));
      PublishKeepsWf(was, node, id);
      fp := node;
    }

    method Hold(fp: Foo)
      requires Valid() && fp in nodes
      modifies fp`count
      ensures Valid()
      ensures Abs() == Do(old(Abs()), Op.Hold(fp))
    {
      ghost var was := Abs();
      fp.count := fp.count + 1;
      StillSpells(was);
      assert Abs() == Do(was, Op.Hold(fp));
      DoKeepsWf(was, Op.Hold(fp));
    }

    /** The search loop: where it stops is the first object of the chain with that id, if any. */
    method Search(id: int) returns (fp: Foo?)
      requires Valid()
      ensures fp != null ==> fp in nodes && fp.id == id
      ensures FirstWith(Abs().Chain(id), Abs().id, id) == Found(fp)
    {
      var b := HashOf(id, fh.Length);
      ghost var c := chains[b];
      ghost var k := 0;
      fp := fh[b];
      while fp != null && fp.id != id
        invariant 0 <= k <= |c| && fp == FooAt(c, k)
        invariant forall j | 0 <= j < k :: c[j] in nodes && c[j].id != id
        decreases |c| - k
      {
        Located(Abs(), b, k);
        fp := fp.next;
        k := k + 1;
      }
      forall o | o in c
        ensures o in Abs().id
      {
        ChainMember(Abs(), b, o);
      }
      FirstWithAt(c, Abs().id, id, k);
    }

    method Find(id: int) returns (fp: Foo?)
      requires Valid()
      modifies nodes`count
      ensures Valid()
      ensures var op: Op<Foo> := Op.Find(id, Found(fp));
              Allowed(old(Abs()), op) && Abs() == Do(old(Abs()), op)
    {
      fp := Search(id);
      if fp != null {
        Hold(fp);
      }
    }

    /** `foo_hold` with its lock: it waits if anybody has the lock, and otherwise does the abstract hold. */
    method LockAndHold(t: Tid, fp: Foo) returns (waits: bool)
      requires Valid() && fp in nodes
      modifies hashlock, fp`count
      ensures Valid()
      ensures waits <==> !old(hashlock.CanLock())
      ensures waits ==> hashlock.owner == old(hashlock.owner) && Abs() == old(Abs())
      ensures !waits ==> hashlock.owner == None && Abs() == Do(old(Abs()), Op.Hold(fp))
    {
      waits := !hashlock.CanLock();
      if !waits {
        hashlock.Lock(t);
        Hold(fp);
        hashlock.Unlock(t);
      }
    }

    /**
     * The search as written calls `foo_hold` on a hit, with the lock still taken. It comes back exactly
     * when the table has no object with that id; otherwise it leaves a lock that nobody can take.
     */
    method FindAsWritten(t: Tid, id: int) returns (r: Outcome)
      requires Valid() && hashlock.CanLock()
      modifies hashlock, nodes`count
      ensures Valid() && Abs() == old(Abs())
      ensures r.Stuck? <==> exists o :: o in nodes && o.id == id
      ensures r.Stuck? ==> hashlock.owner == Some(t) && !hashlock.CanLock()
      ensures !r.Stuck? ==> r == Returned(null) && hashlock.CanLock()
    {
      hashlock.Lock(t);
      var fp := Search(id);
      FindComplete(Abs(), id);
      assert forall o :: o in Abs().id <==> o in nodes;
      if fp != null {
        var waits := LockAndHold(t, fp);
        if waits {
          return Stuck;
        }
      }
      hashlock.Unlock(t);
      r := Returned(fp);
    }

    /** The walk to the object whose pointer leads to `fp`, which is not the first of its chain. */
    method Predecessor(fp: Foo, b: nat, ghost t: Table<Foo>) returns (tfp: Foo, ghost k: nat)
      requires Spells(t) && b < fh.Length && fp in chains[b] && fh[b] != fp
      ensures 0 < k < |chains[b]| && tfp == chains[b][k - 1] && fp == chains[b][k] == tfp.next
    {
      ghost var c := chains[b];
      ghost var at :| 0 <= at < |c| && c[at] == fp;
      tfp := fh[b];
      k := 1;
      Located(t, b, 0);
      while tfp.next != fp
        invariant 1 <= k <= at && tfp == c[k - 1] && tfp.next == c[k]
        decreases |c| - k
      {
        tfp := tfp.next;
        Located(t, b, k);
        k := k + 1;
      }
    }

    /** Redirects the pointer that leads to `fp`, the object at place `k` of chain `b`, around it. */
    method Redirect(fp: Foo, ghost t: Table<Foo>) returns (b: nat, ghost k: nat)
      requires Spells(t) && fp in nodes
      modifies fh, nodes`next
      ensures b == HashOf(fp.id, fh.Length) && k < |chains[b]| && chains[b][k] == fp
      ensures fh[..] == if k == 0 then old(fh[..])[b := fp.next] else old(fh[..])
      ensures k > 0 ==> chains[b][k - 1] in nodes && chains[b][k - 1].next == fp.next
      ensures forall o | o in nodes && !(k > 0 && o == chains[b][k - 1]) :: o.next == old(o.next)
    {
      b := HashOf(fp.id, fh.Length);
      assert t.id[fp] == fp.id;
      ChainMember(t, b, fp);
      k := 0;
      if fh[b] == fp {
        fh[b] := fp.next;
      } else {
        var tfp;
        tfp, k := Predecessor(fp, b, t);
        Located(t, b, k - 1);
        assert t.Distinct(b);
        tfp.next := fp.next;
      }
    }

    method Unlink(fp: Foo, ghost t: Table<Foo>)
      requires Spells(t) && fp in nodes
      modifies this, fh, nodes`next
      ensures nodes == old(nodes) - {fp} && |chains| == fh.Length
      ensures chains == Removed(old(chains), old(HashOf(fp.id, fh.Length)), fp)
      ensures forall b | 0 <= b < fh.Length :: fh[b] == FooAt(chains[b], 0)
      ensures forall b, k :: LinkOk(b, k)
    {
      var b, k := Redirect(fp, t);
      ghost var c := chains[b];
      assert t.Distinct(b) && t.PlaceOk(b, k as int - 1) && old(LinkOk(b, k));
      WithoutAt(c, fp, k);
      chains := chains[b := c[..k] + c[k + 1..]];
      nodes := nodes - {fp};
      forall d, j
        ensures LinkOk(d, j)
      {
        if 0 <= d < |chains| && 0 <= j < |chains[d]| {
          var j0 := if d == b && j >= k then j + 1 else j;
          assert chains[d][j] == t.chains[d][j0];
          assert t.PlaceOk(d, j0) && old(LinkOk(d, j0));
          if d == b && j0 + 1 == k {
            assert c[k] != c[j0] && fp.next == old(fp.next);
            assert chains[d][j].next == FooAt(c, k + 1) == FooAt(chains[d], j + 1);
          } else {
            assert k > 0 ==> chains[d][j] != c[k - 1];
            assert chains[d][j].next == FooAt(t.chains[d], j0 + 1) == FooAt(chains[d], j + 1);
          }
        }
      }
      assert forall d | 0 <= d < fh.Length :: fh[d] == fh[..][d];
    }

    method Release(fp: Foo)
      requires Valid() && fp in nodes
      modifies this, fh, nodes
      ensures Valid()
      ensures Abs() == Do(old(Abs()), Op.Release(fp))
    {
      ghost var was := Abs();
      assert was.MemberOk(fp);
      fp.count := fp.count - 1;
      StillSpells(was);
      if fp.count == 0 {
        Unlink(fp, was);
      }
      assert Abs() == Do(was, Op.Release(fp));
      DoKeepsWf(was, Op.Release(fp));
    }
  }
}
