/**
 * The reference-counted table as one value, and its operations as single atomic changes. Both table
 * programs are proved against this: the one-lock program computes it, the two-lock one simulates it.
 */
module FooTable {
  import opened Common
  import opened Sequences

  /** `x % n` by repeated subtraction, which keeps the proofs about buckets in linear arithmetic. */
  function Remainder(x: nat, n: nat): (r: nat)
    requires n > 0
    ensures r < n
  {
    if x < n then x else Remainder(x - n, n)
  }

  lemma {:induction false} RemainderIsMod(x: nat, n: nat)
    requires n > 0
    ensures Remainder(x, n) == x % n
  {
    if x >= n {
      RemainderIsMod(x - n, n);
      assert x == (x - n) / n * n + (x - n) % n + n == ((x - n) / n + 1) * n + (x - n) % n;
      QuotientUnique(x, n, (x - n) / n + 1, (x - n) % n);
    } else {
      QuotientUnique(x, n, 0, x);
    }
  }

  lemma QuotientUnique(x: nat, n: nat, q: nat, r: nat)
    requires n > 0 && r < n && x == q * n + r
    ensures x % n == r
  {
    if q < x / n {
      NextMultiple(q, x / n, n);
    } else if x / n < q {
      NextMultiple(x / n, q, n);
    }
  }

  lemma NextMultiple(a: nat, b: nat, n: nat)
    requires a < b
    ensures a * n + n <= b * n
  {
    assert b * n == (a + 1) * n + (b - a - 1) * n;
  }

  /** `((unsigned long)id) % NHASH`: a negative id wraps to the top of the 64-bit range. */
  function HashOf(id: int, nhash: nat): (b: nat)
    requires nhash > 0
    ensures b < nhash
  {
    Remainder(id % 0x1_0000_0000_0000_0000, nhash)
  }

  /** An id goes to the bucket of its value, read as an unsigned 64-bit number, modulo the number of buckets. */
  lemma HashIs(id: int, nhash: nat)
    requires nhash > 0 && -0x1_0000_0000_0000_0000 <= id < 0x1_0000_0000_0000_0000
    ensures HashOf(id, nhash) == (if id >= 0 then id else id + 0x1_0000_0000_0000_0000) % nhash
  {
    RemainderIsMod(if id >= 0 then id else id + 0x1_0000_0000_0000_0000, nhash);
  }

  datatype Table<O(==)> = Table(chains: seq<seq<O>>, id: map<O, int>, count: map<O, int>) {
    /** The object at place `k` of chain `b` is in the table and belongs in that chain. */
    predicate PlaceOk(b: int, k: int) {
      0 <= b < |chains| && 0 <= k < |chains[b]| ==>
        chains[b][k] in id && HashOf(id[chains[b][k]], |chains|) == b
    }

    /** An object of the table is in its chain, and somebody owes a release for it. */
    predicate MemberOk(o: O) {
      o in id && o in count && |chains| > 0 ==> o in chains[HashOf(id[o], |chains|)] && count[o] >= 1
    }

    ghost predicate Distinct(b: int) {
      0 <= b < |chains| ==> NoRepeats(chains[b])
    }

    ghost predicate Wf() {
      && |chains| > 0
      && id.Keys == count.Keys
      && (forall b, k :: PlaceOk(b, k))
      && (forall b :: Distinct(b))
      && (forall o {:trigger MemberOk(o)} | o in id :: MemberOk(o))
    }

    function Chain(wanted: int): seq<O>
      requires |chains| > 0
    {
      chains[HashOf(wanted, |chains|)]
    }
  }

  /** The first object of the chain with the wanted id. */
  function FirstWith<O(==)>(c: seq<O>, id: map<O, int>, wanted: int): Option<O>
  {
    if c == [] then None
    else if c[0] in id && id[c[0]] == wanted then Some(c[0])
    else FirstWith(c[1..], id, wanted)
  }

  datatype Op<O> =
    | Publish(o: O, id: int)
    | Hold(o: O)
    | Find(id: int, result: Option<O>)
    | Release(o: O)

  /** When the operation is allowed: a caller may only name an object the table holds. */
  predicate Allowed<O>(t: Table<O>, op: Op<O>) {
    && |t.chains| > 0
    && match op
       case Publish(o, _) => o !in t.id && o !in t.count
       case Hold(o) => o in t.id && o in t.count
       case Find(id, result) =>
         && result == FirstWith(t.Chain(id), t.id, id)
         && (result.Some? ==> result.value in t.count)
       case Release(o) => o in t.id && o in t.count
  }

  function Do<O>(t: Table<O>, op: Op<O>): Table<O>
    requires Allowed(t, op)
  {
    match op
    case Publish(o, id) =>
      var b := HashOf(id, |t.chains|);
      Table(t.chains[b := [o] + t.chains[b]], t.id[o := id], t.count[o := 1])
    case Hold(o) => t.(count := t.count[o := t.count[o] + 1])
    case Find(_, None) => t
    case Find(_, Some(o)) => t.(count := t.count[o := t.count[o] + 1])
    case Release(o) =>
      if t.count[o] != 1 then t.(count := t.count[o := t.count[o] - 1])
      else
        var b := HashOf(t.id[o], |t.chains|);
        Table(t.chains[b := Without(t.chains[b], o)], t.id - {o}, t.count - {o})
  }

  /** Several operations one after the other. */
  predicate AllAllowed<O>(t: Table<O>, ops: seq<Op<O>>)
    decreases |ops|, 0
  {
    ops == [] || (AllAllowed(t, ops[..|ops| - 1]) && Allowed(DoAll(t, ops[..|ops| - 1]), ops[|ops| - 1]))
  }

  function DoAll<O>(t: Table<O>, ops: seq<Op<O>>): Table<O>
    requires AllAllowed(t, ops)
    decreases |ops|, 1
  {
    if ops == [] then t else Do(DoAll(t, ops[..|ops| - 1]), ops[|ops| - 1])
  }

  // ----- chains -----

  /** `FirstWith` is the member of the chain with that id before which no other has it. */
  lemma {:induction false} FirstWithAt<O>(c: seq<O>, id: map<O, int>, wanted: int, k: nat)
    requires k <= |c| && forall o | o in c :: o in id
    requires forall j | 0 <= j < k :: id[c[j]] != wanted
    requires k < |c| ==> id[c[k]] == wanted
    ensures FirstWith(c, id, wanted) == if k < |c| then Some(c[k]) else None
  {
    if k > 0 {
      FirstWithAt(c[1..], id, wanted, k - 1);
    }
  }

  lemma {:induction false} FirstWithFound<O>(c: seq<O>, id: map<O, int>, wanted: int)
    ensures match FirstWith(c, id, wanted)
            case Some(o) => o in c && o in id && id[o] == wanted
            case None => forall o | o in c && o in id :: id[o] != wanted
  {
    if c != [] {
      FirstWithFound(c[1..], id, wanted);
    }
  }

  // ----- what the operations mean -----

  lemma ChainMember<O>(t: Table<O>, b: nat, o: O)
    requires t.Wf() && b < |t.chains|
    ensures o in t.chains[b] <==> o in t.id && HashOf(t.id[o], |t.chains|) == b
  {
    assert t.MemberOk(o);
    if o in t.chains[b] {
      var k :| 0 <= k < |t.chains[b]| && t.chains[b][k] == o;
      assert t.PlaceOk(b, k);
    }
  }

  /** A search finds an object exactly when the table has one with that id. */
  lemma FindComplete<O>(t: Table<O>, id: int)
    requires t.Wf()
    ensures FirstWith(t.Chain(id), t.id, id).Some? <==> exists o :: o in t.id && t.id[o] == id
    ensures forall o | FirstWith(t.Chain(id), t.id, id) == Some(o) :: o in t.id && t.id[o] == id
  {
    FirstWithFound(t.Chain(id), t.id, id);
    forall o | o in t.id && t.id[o] == id
      ensures o in t.Chain(id)
    {
      ChainMember(t, HashOf(id, |t.chains|), o);
    }
  }

  lemma PublishKeepsWf<O>(t: Table<O>, o: O, id: int)
    requires t.Wf() && Allowed(t, Publish(o, id))
    ensures Do(t, Publish(o, id)).Wf()
  {
    var t' := Do(t, Publish(o, id));
    var b := HashOf(id, |t.chains|);
    forall c, k
      ensures t'.PlaceOk(c, k)
    {
      assert t.PlaceOk(c, if c == b then k - 1 else k);
    }
    forall c
      ensures t'.Distinct(c)
    {
      assert t.Distinct(c);
      if c == b {
        ChainMember(t, b, o);
      }
    }
    forall x | x in t'.id
      ensures t'.MemberOk(x)
    {
      assert t.MemberOk(x);
      assert t'.chains[b] == [o] + t.chains[b];
    }
  }

  lemma UnlinkKeepsWf<O>(t: Table<O>, o: O)
    requires t.Wf() && Allowed(t, Release(o)) && t.count[o] == 1
    ensures Do(t, Release(o)).Wf()
  {
    var b := HashOf(t.id[o], |t.chains|);
    var t' := Do(t, Release(o));
    assert t.Distinct(b);
    WithoutExactly(t.chains[b], o);
    forall c, k
      ensures t'.PlaceOk(c, k)
    {
      if 0 <= c < |t'.chains| && 0 <= k < |t'.chains[c]| {
        var x := t'.chains[c][k];
        assert x in t'.chains[c];
        ChainMember(t, c, x);
      }
    }
    forall c
      ensures t'.Distinct(c)
    {
      assert t.Distinct(c);
    }
    forall x | x in t'.id
      ensures t'.MemberOk(x)
    {
      assert t.MemberOk(x);
    }
  }

  lemma CountKeepsWf<O>(t: Table<O>, o: O, n: int)
    requires t.Wf() && o in t.id && n >= 1
    ensures t.(count := t.count[o := n]).Wf()
  {
    var t' := t.(count := t.count[o := n]);
    forall c, k
      ensures t'.PlaceOk(c, k)
    {
      assert t.PlaceOk(c, k);
    }
    forall c
      ensures t'.Distinct(c)
    {
      assert t.Distinct(c);
    }
    forall x | x in t'.id
      ensures t'.MemberOk(x)
    {
      assert t.MemberOk(x);
    }
  }

  /** Every operation keeps the table well formed: in particular no count ever reaches zero in it. */
  lemma DoKeepsWf<O>(t: Table<O>, op: Op<O>)
    requires t.Wf() && Allowed(t, op)
    ensures Do(t, op).Wf()
  {
    match op
    case Publish(o, id) => PublishKeepsWf(t, o, id);
    case Hold(o) =>
      assert t.MemberOk(o);
      CountKeepsWf(t, o, t.count[o] + 1);
    case Find(id, None) =>
    case Find(id, Some(o)) =>
      assert t.MemberOk(o);
      CountKeepsWf(t, o, t.count[o] + 1);
    case Release(o) =>
      assert t.MemberOk(o);
      if t.count[o] == 1 {
        UnlinkKeepsWf(t, o);
      } else {
        CountKeepsWf(t, o, t.count[o] - 1);
      }
  }

  /** Releasing the only reference undoes the allocation. */
  lemma PublishRelease<O>(t: Table<O>, o: O, id: int)
    requires t.Wf() && o !in t.id
    ensures var t' := Do(t, Publish(o, id));
            && Allowed(t', Find(id, Some(o)))
            && Allowed(t', Release(o)) && Do(t', Release(o)) == t
  {
    var b := HashOf(id, |t.chains|);
    ChainMember(t, b, o);
    WithoutUndoes(t.chains[b], o);
  }

  /** Releasing the reference a hold or a successful search took undoes it. */
  lemma HoldRelease<O>(t: Table<O>, o: O)
    requires t.Wf() && o in t.id
    ensures Do(Do(t, Hold(o)), Release(o)) == t
    ensures forall id | Allowed(t, Find(id, Some(o))) :: Do(t, Find(id, Some(o))) == Do(t, Hold(o))
  {
    assert o in t.count && t.MemberOk(o);
    var t' := Do(t, Hold(o));
    assert t'.count[o := t'.count[o] - 1] == t.count;
  }
}
