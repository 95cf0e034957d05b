/** The single-process echo server built on `poll`: the same table, with the reports kept in its slots. */
module EchoPoll {
  import opened Common
  import opened EchoRounds
  import opened EchoTable
  import opened Sequences

  /** What a read returns: bytes (none at end of file), a reset connection, or another error. */
  datatype ReadResult = Got(data: seq<Byte>) | Reset | Failed {
    function Size(): nat {
      if Got? then |data| else 0
    }
  }

  /** The reads that change the table or deliver something; a reset counts as an end. */
  function Arrivals(results: map<int, ReadResult>): map<int, seq<Byte>> {
    map fd | fd in results && !results[fd].Failed? :: if results[fd].Got? then results[fd].data else []
  }

  /** How many of `n` bytes the one write to `fd` gets through. */
  function Taken(takes: map<int, nat>, fd: int, n: nat): (k: nat)
    ensures k <= n
  {
    if fd in takes then Min(takes[fd], n) else n
  }

  /** What each connection has been sent once the clients in `fds` were read and answered by one write each. */
  function Echoed(sent: map<int, seq<Byte>>, fds: set<int>, arrives: map<int, seq<Byte>>, takes: map<int, nat>)
    : map<int, seq<Byte>>
  {
    map fd | fd in sent && !(fd in fds && fd in arrives && arrives[fd] == []) ::
      if fd in fds && fd in arrives then sent[fd] + arrives[fd][..Taken(takes, fd, |arrives[fd]|)] else sent[fd]
  }

  /** No write to these clients falls short. */
  predicate WritesAll(fds: set<int>, arrives: map<int, seq<Byte>>, takes: map<int, nat>) {
    forall fd | fd in fds && fd in arrives :: Taken(takes, fd, |arrives[fd]|) == |arrives[fd]|
  }

  /** The echo of a pass is exact if and only if no write fell short. */
  lemma EchoedExact(r: map<int, seq<Byte>>, fds: set<int>, arrives: map<int, seq<Byte>>, takes: map<int, nat>)
    requires fds <= r.Keys
    ensures Echoed(r, fds, arrives, takes) == Delivered(r, fds, arrives) <==> WritesAll(fds, arrives, takes)
  {
    var e, d := Echoed(r, fds, arrives, takes), Delivered(r, fds, arrives);
    forall fd | fd in fds && fd in arrives && arrives[fd] != []
      ensures fd in e && fd in d && (e[fd] == d[fd] <==> Taken(takes, fd, |arrives[fd]|) == |arrives[fd]|)
    {
      if Taken(takes, fd, |arrives[fd]|) == |arrives[fd]| {
        assert arrives[fd][..|arrives[fd]|] == arrives[fd];
      } else {
        assert |e[fd]| < |d[fd]|;
      }
    }
    if WritesAll(fds, arrives, takes) {
      assert e == d;
    }
  }

  /** What a client that sent something gets back: the front of it, as far as the one write went. */
  lemma EchoIsPrefix(sent: map<int, seq<Byte>>, fds: set<int>, arrives: map<int, seq<Byte>>, takes: map<int, nat>,
                     fd: int)
    requires fd in sent && fd in fds && fd in arrives && arrives[fd] != []
    ensures var e := Echoed(sent, fds, arrives, takes);
            && fd in e && sent[fd] <= e[fd] <= sent[fd] + arrives[fd]
            && |e[fd]| == |sent[fd]| + if fd in takes && takes[fd] < |arrives[fd]| then takes[fd] else |arrives[fd]|
  {
    var k := Taken(takes, fd, |arrives[fd]|);
    assert arrives[fd] == arrives[fd][..k] + arrives[fd][k..];
  }

  lemma EchoOne(sent: map<int, seq<Byte>>, fds: set<int>, fd: int, arrives: map<int, seq<Byte>>, takes: map<int, nat>)
    requires fd in sent && fd !in fds && fd in arrives
    ensures fd in Echoed(sent, fds, arrives, takes) && Echoed(sent, fds, arrives, takes)[fd] == sent[fd]
    ensures Echoed(sent, fds + {fd}, arrives, takes)
         == if arrives[fd] == [] then Echoed(sent, fds, arrives, takes) - {fd}
            else Echoed(sent, fds, arrives, takes)[fd := sent[fd] + arrives[fd][..Taken(takes, fd, |arrives[fd]|)]]
  {
  }

  ghost predicate TableOk(listenfd: int, c: seq<int>, maxindex: int) {
    && 0 <= maxindex < |c| && listenfd >= 0 && c[0] == listenfd && Distinct(c)
    && forall i :: SlotOk(c, maxindex, i)
  }

  /** The open connections are those of the table, but for the listener's slot. */
  predicate ClientOk(listenfd: int, c: seq<int>, received: map<int, seq<Byte>>, sent: map<int, seq<Byte>>, fd: int) {
    (fd in received <==> fd != listenfd && fd in Live(c)) && (fd in sent <==> fd in received)
  }

  ghost predicate ClientsOk(listenfd: int, c: seq<int>, received: map<int, seq<Byte>>, sent: map<int, seq<Byte>>) {
    forall fd :: ClientOk(listenfd, c, received, sent, fd)
  }

  lemma AddClient(listenfd: int, c: seq<int>, maxindex: int, i: nat, fd: int,
                  r: map<int, seq<Byte>>, s: map<int, seq<Byte>>)
    requires TableOk(listenfd, c, maxindex) && ClientsOk(listenfd, c, r, s)
    requires 0 < i < |c| && c[i] < 0 && fd >= 0 && fd != listenfd && fd !in r
    ensures TableOk(listenfd, c[i := fd], if i > maxindex then i else maxindex)
    ensures ClientsOk(listenfd, c[i := fd], r[fd := []], s[fd := []])
  {
    assert ClientOk(listenfd, c, r, s, fd);
    LiveUpdate(c, i, fd);
    var c', maxindex', r', s' := c[i := fd], if i > maxindex then i else maxindex, r[fd := []], s[fd := []];
    forall j
      ensures SlotOk(c', maxindex', j)
    {
      assert SlotOk(c, maxindex, j);
    }
    forall x
      ensures ClientOk(listenfd, c', r', s', x)
    {
      assert ClientOk(listenfd, c, r, s, x);
    }
  }

  lemma DropClient(listenfd: int, c: seq<int>, maxindex: int, i: nat, r: map<int, seq<Byte>>, s: map<int, seq<Byte>>)
    requires TableOk(listenfd, c, maxindex) && ClientsOk(listenfd, c, r, s) && 0 < i < |c| && c[i] >= 0
    ensures TableOk(listenfd, c[i := -1], maxindex)
    ensures c[i] in r && c[i] in s && ClientsOk(listenfd, c[i := -1], r - {c[i]}, s - {c[i]})
  {
    LiveUpdate(c, i, -1);
    assert c[i] in Live(c) && Apart(c, 0, i) && ClientOk(listenfd, c, r, s, c[i]);
    var c', r', s' := c[i := -1], r - {c[i]}, s - {c[i]};
    forall j
      ensures SlotOk(c', maxindex, j)
    {
      assert SlotOk(c, maxindex, j);
    }
    forall x
      ensures ClientOk(listenfd, c', r', s', x)
    {
      assert ClientOk(listenfd, c, r, s, x);
    }
  }

  lemma SameClients(listenfd: int, c: seq<int>, r: map<int, seq<Byte>>, s: map<int, seq<Byte>>,
                    r': map<int, seq<Byte>>, s': map<int, seq<Byte>>)
    requires ClientsOk(listenfd, c, r, s) && r'.Keys == r.Keys && s'.Keys == s.Keys
    ensures ClientsOk(listenfd, c, r', s')
  {
    forall x
      ensures ClientOk(listenfd, c, r', s', x)
    {
      assert ClientOk(listenfd, c, r, s, x);
      assert x in r' <==> x in r'.Keys;
    }
  }

  /** Every slot but the listener's is taken. */
  ghost predicate NoRoom(c: seq<int>) {
    forall i | 0 < i < |c| :: c[i] >= 0
  }

  /**
   * The kernel's side of one pass: the clients whose report has a bit the loop looks at, whether the
   * listener's has, how many `others` are counted although theirs has neither, the descriptor `accept`
   * returns if it is called, what the reads return and how much the writes take.
   */
  datatype Input = Input(marked: set<int>, listening: bool, others: nat, connfd: int,
                         results: map<int, ReadResult>, takes: map<int, nat>) {
    /** `poll` returns with something to report, and each client that may be read can be read. */
    predicate Reports() {
      && |marked| + (if listening then 1 else 0) + others > 0
      && marked <= results.Keys && (listening ==> connfd in results)
    }

    function AsRound(): Round {
      Round(listening, connfd, marked, Arrivals(results))
    }
  }

  class Server {
    const listenfd: int
    const fds: array<int>
    /** Slot by slot, whether the last report had the readable or the error bit set. */
    const revents: array<bool>
    var maxindex: int
    var received: map<int, seq<Byte>>
    var sent: map<int, seq<Byte>>

    ghost predicate Valid()
      reads this, fds
    {
      && fds.Length == revents.Length
      && TableOk(listenfd, fds[..], maxindex)
      && ClientsOk(listenfd, fds[..], received, sent)
    }

    /** The reports start as whatever the memory held. */
    constructor (listenfd: int, garbage: seq<bool>)
      requires listenfd >= 0 && |garbage| > 0
      ensures Valid() && fresh(fds) && fresh(revents) && this.listenfd == listenfd
      ensures received == sent == map[] && maxindex == 0 && revents[..] == garbage
    {
      this.listenfd := listenfd;
      fds := new int[|garbage|](i => if i == 0 then listenfd else -1);
      revents := new bool[|garbage|](i requires 0 <= i < |garbage| => garbage[i]);
      maxindex := 0;
      received, sent := map[], map[];
      new;
      assert Live(fds[..]) == {listenfd} by { assert fds[..][0] == listenfd; }
      assert Distinct(fds[..]);
    }

    /** `poll` reports on the slots up to `maxindex` and clears the report of a free slot. */
    method Poll(marked: set<int>)
      requires Valid()
      modifies revents
      ensures forall i | 0 <= i <= maxindex :: revents[i] == (fds[i] >= 0 && fds[i] in marked)
      ensures forall i | maxindex < i < revents.Length :: revents[i] == old(revents[i])
      ensures old(CleanAbove()) ==> CleanAbove()
    {
      var i := 0;
      while i <= maxindex
        invariant 0 <= i <= maxindex + 1
        invariant forall j | 0 <= j < i :: revents[j] == (fds[j] >= 0 && fds[j] in marked)
        invariant forall j | i <= j < revents.Length :: revents[j] == old(revents[j])
      {
        revents[i] := fds[i] >= 0 && fds[i] in marked;
        i := i + 1;
      }
    }

    /** The search for a slot; the table's length if there is none. */
    method FirstFree() returns (i: nat)
      requires Valid()
      ensures 1 <= i <= fds.Length && i <= maxindex + 1
      ensures i == fds.Length <==> NoRoom(fds[..])
      ensures i < fds.Length ==> fds[i] < 0
      ensures forall j | 0 < j < i :: fds[..][j] >= 0
    {
      i := 1;
      while i < fds.Length && fds[i] >= 0
        invariant 1 <= i <= fds.Length && i <= maxindex + 1
        invariant forall j | 0 < j < i :: fds[j] >= 0
      {
        assert SlotOk(fds[..], maxindex, i);
        i := i + 1;
      }
      assert i < fds.Length ==> fds[..][i] < 0;
    }

    /** The new connection goes to the first free slot; its report is whatever that slot held before. */
    method Accept(connfd: int) returns (full: bool, i: nat)
      requires Valid() && connfd >= 0 && connfd != listenfd && connfd !in received
      modifies this`maxindex, this`received, this`sent, fds
      ensures full <==> NoRoom(old(fds[..]))
      ensures full ==> unchanged(this) && unchanged(fds)
      ensures !full ==> Valid() && 0 < i < fds.Length && old(fds[i]) < 0 && fds[..] == old(fds[..])[i := connfd]
      ensures !full ==> forall j | 0 < j < i :: old(fds[..])[j] >= 0
      ensures !full ==> maxindex == if i > old(maxindex) then i else old(maxindex)
      ensures !full ==> received == old(received)[connfd := []] && sent == old(sent)[connfd := []]
      ensures !full ==> i <= old(maxindex) + 1
    {
      i := FirstFree();
      full := i == fds.Length;
      if full {
        return;
      }
      ghost var c := fds[..];
      assert c[i] < 0;
      AddClient(listenfd, c, maxindex, i, connfd, received, sent);
      fds[i] := connfd;
      assert fds[..] == c[i := connfd];
      if i > maxindex {
        maxindex := i;
      }
      received, sent := received[connfd := []], sent[connfd := []];
    }

    /** `Write`: a single attempt, of which the kernel takes `take` bytes; the rest is never sent. */
    method WriteOnce(fd: int, data: seq<Byte>, take: nat)
      requires fd in sent && take <= |data|
      modifies this`sent
      ensures sent == old(sent)[fd := old(sent[fd]) + data[..take]]
    {
      sent := sent[fd := sent[fd] + data[..take]];
    }

    /** `Close`, and the slot is free again. */
    method CloseSlot(i: nat)
      requires Valid() && 0 < i < fds.Length && fds[i] >= 0
      modifies this`received, this`sent, fds
      ensures Valid() && fds[..] == old(fds[..])[i := -1]
      ensures received == old(received) - {old(fds[i])} && sent == old(sent) - {old(fds[i])}
    {
      var fd := fds[i];
      ghost var c := fds[..];
      DropClient(listenfd, c, maxindex, i, received, sent);
      received, sent := received - {fd}, sent - {fd};
      fds[i] := -1;
      assert fds[..] == c[i := -1];
    }

    /** One client: an end or a reset closes it, another error is passed over, and data is answered by one write. */
    method ServeOne(i: nat, result: ReadResult, take: nat)
      requires Valid() && 0 < i < fds.Length && fds[i] >= 0 && take <= result.Size()
      modifies this`received, this`sent, fds
      ensures Valid() && old(fds[i]) in old(received) && old(fds[i]) in old(sent)
      ensures var ends := result.Reset? || (result.Got? && result.data == []);
              fds[..] == if ends then old(fds[..])[i := -1] else old(fds[..])
      ensures received == AfterRead(old(received), old(fds[i]), result, result.Size())
      ensures sent == AfterRead(old(sent), old(fds[i]), result, take)
    {
      var fd := fds[i];
      DropClient(listenfd, fds[..], maxindex, i, received, sent);
      match result {
        case Failed =>
        case Reset => CloseSlot(i);
        case Got(data) =>
          if data == [] {
            CloseSlot(i);
          } else {
            ghost var r0, s0 := received, sent;
            WriteOnce(fd, data, take);
            received := received[fd := received[fd] + data];
            SameClients(listenfd, fds[..], r0, s0, received, sent);
            assert data[..|data|] == data;
          }
      }
    }

    /** One slot of the scan: `c`, `r0` and `s0` are the table and the connections when the scan began. */
    method ServeSlot(i: nat, ghost ready: set<int>, input: Input, served: seq<int>,
                     ghost c: seq<int>, ghost r0: map<int, seq<Byte>>, ghost s0: map<int, seq<Byte>>)
      returns (hit: bool, served': seq<int>)
      requires Valid() && 0 < i <= maxindex && TableOk(listenfd, c, maxindex)
      requires ClientsOk(listenfd, c, r0, s0) && ready <= r0.Keys
      requires ready <= input.results.Keys
      requires |c| == fds.Length && (c[i] >= 0 ==> revents[i] == (c[i] in ready))
      requires EchoedSoFar(c, r0, s0, i, ready, input, served, fds[..], received, sent)
      modifies this`received, this`sent, fds
      ensures Valid() && (hit <==> c[i] in ready) && |served'| == |served| + if hit then 1 else 0
      ensures EchoedSoFar(c, r0, s0, i + 1, ready, input, served', fds[..], received, sent)
    {
      forall fd | fd in ready
        ensures fd >= 0 && fd in s0
      {
        assert ClientOk(listenfd, c, r0, s0, fd);
      }
      SeenNext(c, i, ready, AtEnd(Arrivals(input.results)));
      assert fds[..][i] == c[i];
      var fd := fds[i];
      hit := fd >= 0 && revents[i];
      if hit {
        ReadOne(r0, s0, Elements(served), fd, input);
        OneMore(served, fd);
        ServeOne(i, input.results[fd], Taken(input.takes, fd, input.results[fd].Size()));
        served' := served + [fd];
      } else {
        served' := served;
      }
    }

    /**
     * The scan over the table with its early exit after `nready` served clients. It stops short of the
     * end of the table only when it has served that many.
     */
    method Scan(ghost ready: set<int>, nready: nat, input: Input) returns (served: seq<int>, ghost k: nat)
      requires Valid() && nready > 0 && ready <= received.Keys && ready <= input.results.Keys
      requires forall i | 0 < i <= maxindex && fds[i] >= 0 :: revents[i] == (fds[i] in ready)
      modifies this`received, this`sent, fds
      ensures Valid() && k <= maxindex + 1
      ensures |served| <= nready && (|served| < nready ==> k == maxindex + 1)
      ensures EchoedSoFar(old(fds[..]), old(received), old(sent), k, ready, input, served, fds[..], received, sent)
    {
      ghost var c, r0, s0 := fds[..], received, sent;
      var left: int := nready;
      served, k := [], 1;
      assert ClientOk(listenfd, c, r0, s0, listenfd);
      NothingEchoed(c, r0, s0, ready, input);
      var i := 1;
      while i <= maxindex
        invariant Valid() && 1 <= i <= maxindex + 1
        invariant k == i && left > 0 && left == nready - |served|
        invariant EchoedSoFar(c, r0, s0, k, ready, input, served, fds[..], received, sent)
        decreases maxindex - i
      {
        var hit;
        hit, served := ServeSlot(i, ready, input, served, c, r0, s0);
        k := i + 1;
        if hit {
          left := left - 1;
          if left <= 0 {
            break;
          }
        }
        i := i + 1;
      }
    }

    /** No slot that was never in use carries a report. */
    ghost predicate CleanAbove()
      reads `maxindex, revents
    {
      forall i | 0 <= i < revents.Length && maxindex < i :: !revents[i]
    }

    /**
     * One pass of the main loop. Unless the table was full, every marked client is read exactly once and
     * nothing else is read, with one exception: the client accepted in this pass, exactly when its slot
     * lies above those in use and held a stale report, and `others` kept the counter from running out.
     */
    method Pass(input: Input) returns (full: bool, served: seq<int>, ghost stale: bool)
      requires Valid() && input.Reports() && Possible(received, listenfd, input.AsRound())
      modifies this`maxindex, this`received, this`sent, fds, revents
      ensures full <==> input.listening && NoRoom(old(fds[..]))
      ensures !full ==>
        (stale <==> input.listening && old(maxindex) < maxindex < |old(revents[..])| && old(revents[..])[maxindex])
      ensures old(CleanAbove()) ==> CleanAbove()
      ensures !full ==> Valid() && NoRepeats(served)
      ensures !full ==> Elements(served) == input.marked + if input.others > 0 && stale then {input.connfd} else {}
      ensures !full ==> received == AfterRound(old(received), input.AsRound().(read := Elements(served)))
      ensures !full ==> sent == AfterEchoes(old(sent), input, Elements(served))
    {
      full, stale := PollAndAccept(input.marked, input.listening, input.connfd);
      served := [];
      if full {
        return;
      }
      var nready: int := |input.marked| + (if input.listening then 1 else 0) + input.others;
      if input.listening {
        nready := nready - 1;
        if nready <= 0 {
          NothingDelivered(received, Arrivals(input.results));
          assert sent == Echoed(sent, {}, Arrivals(input.results), input.takes);
          return;
        }
      }
      ghost var c, k := fds[..], 0;
      InTable(listenfd, c, maxindex, received, sent, input.marked);
      served, k := Scan(input.marked + if stale then {input.connfd} else {}, nready, input);
      ScanOutcome(c, k, maxindex, input.marked, input.connfd, stale, input.others, served);
    }

    /** The first half of a pass: afterwards the reports fit the table, but for a stale one in a new slot. */
    method PollAndAccept(marked: set<int>, listening: bool, connfd: int) returns (full: bool, ghost stale: bool)
      requires Valid() && marked <= received.Keys
      requires listening ==> connfd >= 0 && connfd != listenfd && connfd !in received
      modifies this`maxindex, this`received, this`sent, fds, revents
      ensures full <==> listening && NoRoom(old(fds[..]))
      ensures !full ==>
        (stale <==> listening && old(maxindex) < maxindex < |old(revents[..])| && old(revents[..])[maxindex])
      ensures old(CleanAbove()) ==> CleanAbove()
      ensures !full ==> Valid() && received == if listening then old(received)[connfd := []] else old(received)
      ensures !full ==> sent == if listening then old(sent)[connfd := []] else old(sent)
      ensures !full ==> marked + (if stale then {connfd} else {}) <= received.Keys
      ensures !full && stale ==> fds[..][maxindex] == connfd
      ensures !full ==> forall i | 0 < i <= maxindex && fds[i] >= 0 ::
        revents[i] == (fds[i] in marked + if stale then {connfd} else {})
    {
      ghost var r0, high := revents[..], maxindex;
      Poll(marked + if listening then {listenfd} else {});
      full, stale := false, false;
      forall i | 0 < i <= maxindex
        ensures revents[i] == (fds[i] >= 0 && fds[i] in marked)
      {
        assert Apart(fds[..], 0, i);
      }
      if listening {
        full, stale := AcceptReported(marked, connfd);
        assert !full && high < maxindex ==> revents[maxindex] == r0[maxindex];
      }
    }

    /** The listener's branch: afterwards the reports fit the table, but for a stale one in a new slot. */
    method AcceptReported(ghost marked: set<int>, connfd: int) returns (full: bool, ghost stale: bool)
      requires Valid() && marked <= received.Keys && connfd >= 0 && connfd != listenfd && connfd !in received
      requires forall i | 0 < i <= maxindex :: revents[i] == (fds[i] >= 0 && fds[i] in marked)
      modifies this`maxindex, this`received, this`sent, fds
      ensures full <==> NoRoom(old(fds[..]))
      ensures full ==> !stale && unchanged(this) && unchanged(fds)
      ensures !full ==> (stale <==> old(maxindex) < maxindex < revents.Length && revents[maxindex])
      ensures old(CleanAbove()) ==> CleanAbove()
      ensures !full ==> Valid() && received == old(received)[connfd := []] && sent == old(sent)[connfd := []]
      ensures !full && stale ==> fds[..][maxindex] == connfd
      ensures !full ==> forall i | 0 < i <= maxindex && fds[i] >= 0 ::
        revents[i] == (fds[i] in marked + if stale then {connfd} else {})
    {
      ghost var high, c, r0, s0 := maxindex, fds[..], received, sent;
      var i;
      full, i := Accept(connfd);
      stale := !full && i > high && revents[i];
      if !full {
        assert fds[..][i] == connfd;
        forall j | 0 < j <= maxindex && fds[j] >= 0
          ensures revents[j] == (fds[j] in marked + if stale then {connfd} else {})
        {
          assert fds[..][j] == (if j == i then connfd else c[j]);
          if j != i {
            assert c[j] in Live(c) && ClientOk(listenfd, c, r0, s0, c[j]);
          }
        }
      }
    }

    /** A pass while no stale report is in the table. */
    method CleanPass(input: Input) returns (full: bool)
      requires Valid() && CleanAbove() && input.Reports() && Possible(received, listenfd, input.AsRound())
      modifies this`maxindex, this`received, this`sent, fds, revents
      ensures full <==> Overflows(old(received), fds.Length - 1, input.AsRound())
      ensures CleanAbove() && (!full ==> Valid())
      ensures !full ==> received == AfterRound(old(received), input.AsRound())
      ensures !full ==> sent == AfterEchoes(old(sent), input, input.marked)
    {
      FullPollTable(listenfd, fds[..], maxindex, received, sent);
      var served;
      ghost var stale;
      full, served, stale := Pass(input);
      assert !full ==> !stale && Elements(served) == input.marked;
    }

    /** The main loop, while no stale report is in the table: only marked clients are ever read. */
    method Run(inputs: seq<Input>) returns (full: bool)
      requires Valid() && CleanAbove() && forall i | 0 <= i < |inputs| :: inputs[i].Reports()
      requires AllPossible(received, listenfd, fds.Length - 1, Rounds(inputs))
      modifies this`maxindex, this`received, this`sent, fds, revents
      ensures full <==> AfterRounds(old(received), fds.Length - 1, Rounds(inputs)) == None
      ensures !full ==> Valid() && CleanAbove()
      ensures !full ==> AfterRounds(old(received), fds.Length - 1, Rounds(inputs)) == Some(received)
      ensures !full ==> sent == AllEchoes(old(sent), inputs)
    {
      ghost var size, rounds := fds.Length - 1, Rounds(inputs);
      ghost var outcome, echoes := AfterRounds(received, size, rounds), AllEchoes(sent, inputs);
      full := false;
      var k := 0;
      assert rounds[0..] == rounds && inputs[0..] == inputs;
      while k < |inputs|
        invariant k <= |inputs| && Valid() && CleanAbove() && AllPossible(received, listenfd, size, rounds[k..])
        invariant AfterRounds(received, size, rounds[k..]) == outcome
        invariant AllEchoes(sent, inputs[k..]) == echoes
      {
        NextRound(received, listenfd, size, rounds, k);
        assert inputs[k..][1..] == inputs[k + 1..];
        full := CleanPass(inputs[k]);
        if full {
          return;
        }
        k := k + 1;
      }
    }
  }

  /** Which clients a scan that stops after `|marked| + others` of them has served. */
  lemma ScanOutcome(c: seq<int>, k: nat, maxindex: nat, marked: set<int>, connfd: int, stale: bool, others: nat,
                    served: seq<int>)
    requires Distinct(c) && maxindex < |c| && k <= maxindex + 1 && forall i | maxindex < i < |c| :: c[i] < 0
    requires marked <= Live(c) && (stale ==> connfd !in marked && c[maxindex] == connfd >= 0)
    requires |marked| + others > 0
    requires NoRepeats(served) && Elements(served) == Seen(c, k, marked + if stale then {connfd} else {})
    requires |served| <= |marked| + others && (|served| < |marked| + others ==> k == maxindex + 1)
    ensures Elements(served) == marked + if others > 0 && stale then {connfd} else {}
  {
    var ready := marked + if stale then {connfd} else {};
    assert stale ==> connfd in Live(c);
    ElementCount(served);
    assert Seen(c, k, ready) <= ready;
    if k == maxindex + 1 {
      SeenEverything(c, k, ready);
      assert |ready| == |marked| + if stale then 1 else 0;
    } else if others == 0 {
      assert forall i | 0 <= i < k && c[i] in ready :: stale ==> Apart(c, i, maxindex);
      assert Seen(c, k, ready) <= marked;
      SubsetSize(Seen(c, k, ready), marked);
    } else {
      assert |ready| <= |marked| + 1;
      SubsetSize(Seen(c, k, ready), ready);
    }
  }

  /** One connection after its client was read: `take` bounds what is added of the data. */
  function AfterRead(m: map<int, seq<Byte>>, fd: int, result: ReadResult, take: nat): map<int, seq<Byte>> {
    match result
    case Failed => m
    case Reset => m - {fd}
    case Got(data) =>
      if data == [] then m - {fd} else if fd in m then m[fd := m[fd] + data[..Min(take, |data|)]] else m
  }

  /** The first `k` slots have been served, and each client read has been answered by one write. */
  ghost predicate EchoedSoFar(c: seq<int>, r0: map<int, seq<Byte>>, s0: map<int, seq<Byte>>, k: nat, ready: set<int>,
                              input: Input, served: seq<int>,
                              table: seq<int>, received: map<int, seq<Byte>>, sent: map<int, seq<Byte>>) {
    && ServedSoFar(c, r0, k, ready, Arrivals(input.results), served, table, received)
    && sent == Echoed(s0, Elements(served), Arrivals(input.results), input.takes)
  }

  lemma NothingEchoed(c: seq<int>, r0: map<int, seq<Byte>>, s0: map<int, seq<Byte>>, ready: set<int>, input: Input)
    requires c != [] && c[0] !in ready
    ensures EchoedSoFar(c, r0, s0, 1, ready, input, [], c, r0, s0)
  {
    NothingServed(c, r0, 1, ready, Arrivals(input.results));
    assert s0 == Echoed(s0, {}, Arrivals(input.results), input.takes);
  }

  /** Reading one more client, on both sides of its connection. */
  lemma ReadOne(r0: map<int, seq<Byte>>, s0: map<int, seq<Byte>>, fds: set<int>, fd: int, input: Input)
    requires fd in r0 && fd in s0 && fd !in fds && fd in input.results
    ensures var arrives, result := Arrivals(input.results), input.results[fd];
            && Delivered(r0, fds + {fd}, arrives) == AfterRead(Delivered(r0, fds, arrives), fd, result, result.Size())
            && Echoed(s0, fds + {fd}, arrives, input.takes)
               == AfterRead(Echoed(s0, fds, arrives, input.takes), fd, result, Taken(input.takes, fd, result.Size()))
  {
    var arrives := Arrivals(input.results);
    if fd in arrives {
      DeliverOne(r0, fds, fd, arrives);
      EchoOne(s0, fds, fd, arrives, input.takes);
      assert arrives[fd][..|arrives[fd]|] == arrives[fd];
    } else {
      DeliverNothing(r0, fds, fd, arrives);
      assert Echoed(s0, fds + {fd}, arrives, input.takes) == Echoed(s0, fds, arrives, input.takes);
    }
  }

  lemma DeliverNothing(received: map<int, seq<Byte>>, fds: set<int>, fd: int, arrives: map<int, seq<Byte>>)
    requires fd !in arrives
    ensures Delivered(received, fds + {fd}, arrives) == Delivered(received, fds, arrives)
  {
  }

  lemma InTable(listenfd: int, c: seq<int>, maxindex: int, r: map<int, seq<Byte>>, s: map<int, seq<Byte>>,
                marked: set<int>)
    requires TableOk(listenfd, c, maxindex) && ClientsOk(listenfd, c, r, s) && marked <= r.Keys
    ensures marked <= Live(c) && forall i | maxindex < i < |c| :: c[i] < 0
  {
    forall fd | fd in marked
      ensures fd in Live(c)
    {
      assert ClientOk(listenfd, c, r, s, fd);
    }
    forall i | maxindex < i < |c|
      ensures c[i] < 0
    {
      assert SlotOk(c, maxindex, i);
    }
  }

  /** There is no room exactly when there are as many clients as slots beside the listener's. */
  lemma FullPollTable(listenfd: int, c: seq<int>, maxindex: int, r: map<int, seq<Byte>>, s: map<int, seq<Byte>>)
    requires TableOk(listenfd, c, maxindex) && ClientsOk(listenfd, c, r, s)
    ensures NoRoom(c) <==> |r| == |c| - 1
  {
    FullTable(c);
    assert c[0] in Live(c);
    assert forall fd {:trigger fd in r} :: ClientOk(listenfd, c, r, s, fd);
    assert r.Keys == Live(c) - {listenfd};
    assert AllTaken(c) <==> NoRoom(c);
  }

  // ----- whole runs -----

  function Rounds(inputs: seq<Input>): seq<Round> {
    seq(|inputs|, i requires 0 <= i < |inputs| => inputs[i].AsRound())
  }

  /** What each connection has been sent after one pass that read the clients `read`. */
  function AfterEchoes(sent: map<int, seq<Byte>>, input: Input, read: set<int>): map<int, seq<Byte>> {
    Echoed(if input.listening then sent[input.connfd := []] else sent, read, Arrivals(input.results), input.takes)
  }

  function AllEchoes(sent: map<int, seq<Byte>>, inputs: seq<Input>): map<int, seq<Byte>>
    decreases |inputs|
  {
    if inputs == [] then sent else AllEchoes(AfterEchoes(sent, inputs[0], inputs[0].marked), inputs[1..])
  }

  /** While no write falls short, every open connection has been sent exactly what was received on it. */
  lemma {:induction false} EchoedThroughout(r: map<int, seq<Byte>>, listenfd: int, size: nat, inputs: seq<Input>)
    requires AllPossible(r, listenfd, size, Rounds(inputs)) && AfterRounds(r, size, Rounds(inputs)).Some?
    requires forall i | 0 <= i < |inputs| :: WritesAll(inputs[i].marked, Arrivals(inputs[i].results), inputs[i].takes)
    ensures AfterRounds(r, size, Rounds(inputs)) == Some(AllEchoes(r, inputs))
    decreases |inputs|
  {
    if inputs != [] {
      var next := if inputs[0].listening then r[inputs[0].connfd := []] else r;
      EchoedExact(next, inputs[0].marked, Arrivals(inputs[0].results), inputs[0].takes);
      assert Rounds(inputs)[1..] == Rounds(inputs[1..]);
      EchoedThroughout(AfterRound(r, inputs[0].AsRound()), listenfd, size, inputs[1..]);
    }
  }

  /**
   * The server itself, started on clean memory. It never reads a client that was not reported, and it
   * ends exactly when a connection comes in on a full table.
   */
  method Serve(listenfd: int, garbage: seq<bool>, inputs: seq<Input>) returns (server: Server, full: bool)
    requires listenfd >= 0 && |garbage| > 0 && (forall i | 0 < i < |garbage| :: !garbage[i])
    requires forall i | 0 <= i < |inputs| :: inputs[i].Reports()
    requires AllPossible(map[], listenfd, |garbage| - 1, Rounds(inputs))
    ensures fresh(server) && fresh(server.fds) && fresh(server.revents)
    ensures full <==> AfterRounds(map[], |garbage| - 1, Rounds(inputs)) == None
    ensures !full ==> server.Valid() && AfterRounds(map[], |garbage| - 1, Rounds(inputs)) == Some(server.received)
    ensures !full ==> server.sent == AllEchoes(map[], inputs)
  {
    server := new Server(listenfd, garbage);
    full := server.Run(inputs);
  }
}
