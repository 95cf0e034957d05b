/** The client table of the multiplexed echo servers, and the sets and counters kept beside it. */
module EchoTable {
  import opened Common
  import opened Sequences

  function Elements(s: seq<int>): set<int> {
    set x | x in s
  }

  lemma {:induction false} ElementCount(s: seq<int>)
    requires NoRepeats(s)
    ensures |Elements(s)| == |s|
  {
    if s != [] {
      var k := |s| - 1;
      ElementCount(s[..k]);
      assert Elements(s) == Elements(s[..k]) + {s[k]};
    }
  }

  lemma OneMore(s: seq<int>, x: int)
    requires NoRepeats(s) && x !in Elements(s)
    ensures NoRepeats(s + [x]) && Elements(s + [x]) == Elements(s) + {x}
  {
    assert forall i | 0 <= i < |s| :: s[i] in Elements(s);
  }

  lemma SubsetSize(a: set<int>, b: set<int>)
    requires a <= b
    ensures |a| <= |b| && (|a| == |b| ==> a == b)
  {
    assert b == a + (b - a);
  }

  /** The live descriptors of a client table; a free slot holds a negative number. */
  function Live(c: seq<int>): set<int> {
    set i | 0 <= i < |c| && c[i] >= 0 :: c[i]
  }

  predicate Apart(c: seq<int>, i: int, j: int) {
    0 <= i < j < |c| && c[i] >= 0 ==> c[i] != c[j]
  }

  /** No descriptor sits in two slots; free slots may look alike. */
  ghost predicate Distinct(c: seq<int>) {
    forall i, j :: Apart(c, i, j)
  }

  lemma LiveUpdate(c: seq<int>, i: nat, fd: int)
    requires i < |c| && Distinct(c) && fd >= -1 && fd !in Live(c) && (c[i] < 0 || fd < 0)
    ensures Distinct(c[i := fd])
    ensures Live(c[i := fd]) == Live(c) - {c[i]} + (if fd >= 0 then {fd} else {})
  {
    var d := c[i := fd];
    forall x | x in Live(c) - {c[i]} + (if fd >= 0 then {fd} else {})
      ensures x in Live(d)
    {
      if x == fd {
        assert d[i] == x;
      } else {
        var j :| 0 <= j < |c| && c[j] >= 0 && c[j] == x;
        assert d[j] == x;
      }
    }
    forall j, k
      ensures Apart(d, j, k)
    {
      assert Apart(c, j, k);
      if 0 <= j < k < |d| && d[j] >= 0 {
        if k == i {
          assert c[j] in Live(c);
        } else if j == i && d[k] >= 0 {
          assert c[k] in Live(c);
        }
      }
    }
    forall x | x in Live(d)
      ensures x in Live(c) - {c[i]} + (if fd >= 0 then {fd} else {})
    {
      var j :| 0 <= j < |d| && d[j] >= 0 && d[j] == x;
      if j != i {
        assert Apart(c, j, i) && Apart(c, i, j);
      }
    }
  }

  predicate AllTaken(c: seq<int>) {
    forall i | 0 <= i < |c| :: c[i] >= 0
  }

  /** A table with distinct descriptors is full when it has as many as slots. */
  lemma {:induction false} FullTable(c: seq<int>)
    requires Distinct(c)
    ensures |Live(c)| <= |c| && (|Live(c)| == |c| <==> AllTaken(c))
  {
    if c != [] {
      var k := |c| - 1;
      forall i, j
        ensures Apart(c[..k], i, j)
      {
        assert Apart(c, i, j);
      }
      FullTable(c[..k]);
      assert c[..k] + [c[k]] == c;
      LiveSnoc(c[..k], c[k]);
      assert AllTaken(c) <==> c[k] >= 0 && AllTaken(c[..k]);
    }
  }

  lemma LiveSnoc(c: seq<int>, fd: int)
    requires Distinct(c + [fd])
    ensures fd !in Live(c) && Live(c + [fd]) == Live(c) + if fd >= 0 then {fd} else {}
  {
    var d := c + [fd];
    assert d[|c|] == fd && forall i | 0 <= i < |c| :: d[i] == c[i] && Apart(d, i, |c|);
    forall x | x in Live(c) + if fd >= 0 then {fd} else {}
      ensures x in Live(d)
    {
      if x != fd {
        var i :| 0 <= i < |c| && c[i] >= 0 && c[i] == x;
        assert d[i] == x;
      }
    }
  }

  /** A slot holds a descriptor or -1, and above the last one in use it is free. */
  predicate SlotOk(c: seq<int>, last: int, i: int) {
    0 <= i < |c| ==> c[i] >= -1 && (i > last ==> c[i] == -1)
  }

  /** The first `k` clients of the table that were reported readable. */
  function Seen(c: seq<int>, k: nat, ready: set<int>): set<int> {
    set i | 0 <= i < k && i < |c| && c[i] in ready :: c[i]
  }

  /** The table after its first `k` slots have been served: clients whose read found the end are gone. */
  function Served(c: seq<int>, k: nat, ready: set<int>, gone: set<int>): seq<int> {
    seq(|c|, i requires 0 <= i < |c| => if i < k && c[i] in ready && c[i] in gone then -1 else c[i])
  }

  lemma SeenNext(c: seq<int>, k: nat, ready: set<int>, gone: set<int>)
    requires k < |c| && Distinct(c) && forall fd | fd in ready :: fd >= 0
    ensures Seen(c, k + 1, ready) == Seen(c, k, ready) + (if c[k] in ready then {c[k]} else {})
    ensures c[k] in ready ==> c[k] !in Seen(c, k, ready)
    ensures Served(c, k, ready, gone)[k] == c[k]
    ensures Served(c, k + 1, ready, gone)
         == if c[k] in ready && c[k] in gone then Served(c, k, ready, gone)[k := -1] else Served(c, k, ready, gone)
  {
    assert forall i | 0 <= i < k && c[i] in ready :: Apart(c, i, k);
  }

  /** A table served up to some slot is a table in which exactly the clients seen there were served. */
  lemma ServedIsSeen(c: seq<int>, k: nat, ready: set<int>, gone: set<int>)
    requires k <= |c| && Distinct(c) && forall fd | fd in ready :: fd >= 0
    ensures Served(c, k, ready, gone) == Served(c, |c|, Seen(c, k, ready), gone)
  {
    forall i | k <= i < |c|
      ensures c[i] !in Seen(c, k, ready)
    {
      assert forall j | 0 <= j < k && c[j] in ready :: Apart(c, j, i);
    }
  }

  lemma SeenEverything(c: seq<int>, k: nat, ready: set<int>)
    requires ready <= Live(c) && k <= |c| && forall i | k <= i < |c| :: c[i] < 0
    ensures Seen(c, k, ready) == ready
  {
    forall fd | fd in ready
      ensures fd in Seen(c, k, ready)
    {
      var j :| 0 <= j < |c| && c[j] >= 0 && c[j] == fd;
    }
  }

  /** As many distinct clients served as were reported: those are all of them, and the scan may stop. */
  lemma MayStop(c: seq<int>, k: nat, ready: set<int>, gone: set<int>, served: seq<int>)
    requires k <= |c| && Distinct(c) && ready <= Live(c)
    requires NoRepeats(served) && Elements(served) == Seen(c, k, ready) && |served| >= |ready|
    ensures Elements(served) == ready
    ensures Served(c, k, ready, gone) == Served(c, |c|, ready, gone)
  {
    assert forall fd | fd in ready :: fd >= 0;
    ElementCount(served);
    assert Seen(c, k, ready) <= ready;
    SubsetSize(Seen(c, k, ready), ready);
    ServedIsSeen(c, k, ready, gone);
  }

  /** A scan of every slot in use has served as many clients as were reported. */
  lemma NothingLeft(c: seq<int>, k: nat, ready: set<int>, served: seq<int>)
    requires ready <= Live(c) && k <= |c| && forall i | k <= i < |c| :: c[i] < 0
    requires NoRepeats(served) && Elements(served) == Seen(c, k, ready)
    ensures |served| == |ready|
  {
    SeenEverything(c, k, ready);
    ElementCount(served);
  }

  // ----- what the other ends see -----

  /** What each connection has received once the clients in `fds` were read; those at the end are closed. */
  function Delivered(received: map<int, seq<Byte>>, fds: set<int>, arrives: map<int, seq<Byte>>): map<int, seq<Byte>> {
    map fd | fd in received && !(fd in fds && fd in arrives && arrives[fd] == []) ::
      if fd in fds && fd in arrives then received[fd] + arrives[fd] else received[fd]
  }

  lemma DeliverOne(received: map<int, seq<Byte>>, fds: set<int>, fd: int, arrives: map<int, seq<Byte>>)
    requires fd in received && fd !in fds && fd in arrives
    ensures fd in Delivered(received, fds, arrives) && Delivered(received, fds, arrives)[fd] == received[fd]
    ensures Delivered(received, fds + {fd}, arrives)
         == if arrives[fd] == [] then Delivered(received, fds, arrives) - {fd}
            else Delivered(received, fds, arrives)[fd := received[fd] + arrives[fd]]
  {
  }

  lemma NothingDelivered(received: map<int, seq<Byte>>, arrives: map<int, seq<Byte>>)
    ensures Delivered(received, {}, arrives) == received
  {
  }

  /** The clients whose read finds the end of the stream. */
  function AtEnd(arrives: map<int, seq<Byte>>): set<int> {
    set fd | fd in arrives && arrives[fd] == []
  }

  /** The first `k` slots have been served: which clients, and what that did to table and connections. */
  ghost predicate ServedSoFar(c: seq<int>, r0: map<int, seq<Byte>>, k: nat, ready: set<int>,
                              arrives: map<int, seq<Byte>>, served: seq<int>,
                              table: seq<int>, received: map<int, seq<Byte>>) {
    && NoRepeats(served) && Elements(served) == Seen(c, k, ready)
    && table == Served(c, k, ready, AtEnd(arrives))
    && received == Delivered(r0, Elements(served), arrives)
  }

  lemma NothingServed(c: seq<int>, r0: map<int, seq<Byte>>, k: nat, ready: set<int>, arrives: map<int, seq<Byte>>)
    requires k <= |c| && forall i | 0 <= i < k :: c[i] !in ready
    ensures ServedSoFar(c, r0, k, ready, arrives, [], c, r0)
  {
    NothingDelivered(r0, arrives);
    assert c == Served(c, k, ready, AtEnd(arrives));
  }
}
