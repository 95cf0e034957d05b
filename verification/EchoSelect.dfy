/** The single-process echo server built on `select`: its table, one pass of its loop, any number of passes. */
module EchoSelect {
  import opened Common
  import opened EchoRounds
  import opened EchoTable
  import opened Sequences
  import opened Stream

  /** The set watches the listener and the clients of the table, and `maxfd` bounds it. */
  predicate WatchOk(listenfd: int, c: seq<int>, allset: set<int>, maxfd: int, fd: int) {
    (fd in allset <==> fd == listenfd || fd in Live(c)) && (fd in allset ==> fd <= maxfd)
  }

  /** The table, the descriptor set and the two bounds agree. */
  ghost predicate TableOk(listenfd: int, c: seq<int>, allset: set<int>, maxfd: int, maxi: int) {
    && listenfd >= 0 && -1 <= maxi < |c| && listenfd !in Live(c) && Distinct(c)
    && (forall i :: SlotOk(c, maxi, i))
    && (forall fd :: WatchOk(listenfd, c, allset, maxfd, fd))
  }

  lemma AddClient(listenfd: int, c: seq<int>, allset: set<int>, maxfd: int, maxi: int, i: nat, fd: int)
    requires TableOk(listenfd, c, allset, maxfd, maxi) && i < |c| && c[i] < 0 && fd >= 0 && fd !in allset
    ensures TableOk(listenfd, c[i := fd], allset + {fd}, if fd > maxfd then fd else maxfd, if i > maxi then i else maxi)
    ensures Live(c[i := fd]) == Live(c) + {fd}
  {
    assert WatchOk(listenfd, c, allset, maxfd, fd);
    LiveUpdate(c, i, fd);
    var c', allset' := c[i := fd], allset + {fd};
    var maxfd', maxi' := if fd > maxfd then fd else maxfd, if i > maxi then i else maxi;
    forall j
      ensures SlotOk(c', maxi', j)
    {
      assert SlotOk(c, maxi, j);
    }
    forall x
      ensures WatchOk(listenfd, c', allset', maxfd', x)
    {
      assert WatchOk(listenfd, c, allset, maxfd, x) && WatchOk(listenfd, c, allset, maxfd, listenfd);
    }
  }

  lemma DropClient(listenfd: int, c: seq<int>, allset: set<int>, maxfd: int, maxi: int, i: nat)
    requires TableOk(listenfd, c, allset, maxfd, maxi) && i < |c| && c[i] >= 0
    ensures TableOk(listenfd, c[i := -1], allset - {c[i]}, maxfd, maxi)
    ensures c[i] in Live(c) && Live(c[i := -1]) == Live(c) - {c[i]}
  {
    LiveUpdate(c, i, -1);
    assert c[i] in Live(c);
    var c', allset' := c[i := -1], allset - {c[i]};
    forall j
      ensures SlotOk(c', maxi, j)
    {
      assert SlotOk(c, maxi, j);
    }
    forall x
      ensures WatchOk(listenfd, c', allset', maxfd, x)
    {
      assert WatchOk(listenfd, c, allset, maxfd, x);
    }
  }

  /**
   * The kernel's side of one pass: what is readable, the descriptor `accept` returns if it is called,
   * what the reads return and what the writes do.
   */
  datatype Input = Input(ready: set<int>, connfd: int, arrives: map<int, seq<Byte>>, writes: map<int, seq<Event>>) {
    /** `select` returns with something to report, each reported client can be read, and writes do not fail. */
    predicate Reads(listenfd: int) {
      && ready != {}
      && (forall fd | fd in ready && fd != listenfd :: fd in arrives)
      && (forall fd | fd in writes :: Works(writes[fd]))
    }

    function AsRound(listenfd: int): Round {
      Round(listenfd in ready, connfd, ready - {listenfd}, arrives)
    }
  }

  predicate Works(script: seq<Event>) {
    Quiet(script) && Upto(0) !in script
  }

  class Server {
    const listenfd: int
    const client: array<int>
    var allset: set<int>
    var maxfd: int
    var maxi: int
    /** Per open connection: the bytes read from it and the bytes written to it. */
    var received: map<int, seq<Byte>>
    var sent: map<int, seq<Byte>>

    /** What holds every time the loop comes round to `select`. */
    ghost predicate Valid()
      reads this, client
    {
      && TableOk(listenfd, client[..], allset, maxfd, maxi)
      && received.Keys == Live(client[..])
      && sent == received
    }

    constructor (listenfd: int, size: nat)
      requires listenfd >= 0
      ensures Valid() && fresh(client) && this.listenfd == listenfd && client.Length == size
      ensures Live(client[..]) == {}
    {
      this.listenfd := listenfd;
      client := new int[size](_ => -1);
      allset, maxfd, maxi := {listenfd}, listenfd, -1;
      received, sent := map[], map[];
    }

    /** The new connection goes to the first free slot; a full table ends the server. */
    method Accept(connfd: int) returns (full: bool, i: nat)
      requires Valid() && connfd >= 0 && connfd !in allset
      modifies this, client
      ensures full <==> AllTaken(old(client[..]))
      ensures full ==> unchanged(this) && unchanged(client)
      ensures !full ==> Valid() && allset == old(allset) + {connfd}
      ensures !full ==> i < client.Length && old(client[i]) < 0 && client[..] == old(client[..])[i := connfd]
      ensures !full ==> forall j | 0 <= j < i :: old(client[..])[j] >= 0
      ensures !full ==> maxi == (if i > old(maxi) then i else old(maxi))
      ensures !full ==> maxfd == if connfd > old(maxfd) then connfd else old(maxfd)
      ensures !full ==> received == old(received)[connfd := []]
    {
      i := 0;
      while i < client.Length && client[i] >= 0
        invariant 0 <= i <= client.Length
        invariant forall j | 0 <= j < i :: client[j] >= 0
      {
        i := i + 1;
      }
      if i == client.Length {
        return true, i;
      }
      AddClient(listenfd, client[..], allset, maxfd, maxi, i, connfd);
      ghost var c := client[..];
      client[i] := connfd;
      assert client[..] == c[i := connfd];
      allset := allset + {connfd};
      if connfd > maxfd {
        maxfd := connfd;
      }
      if i > maxi {
        maxi := i;
      }
      received, sent := received[connfd := []], sent[connfd := []];
      full := false;
    }

    /** `Writen` on a connection. */
    method WriteAll(fd: int, data: seq<Byte>, script: seq<Event>)
      requires fd in sent && Works(script)
      modifies this`sent
      ensures sent == old(sent)[fd := old(sent[fd]) + data]
    {
      var buf := new Byte[|data|](i requires 0 <= i < |data| => data[i]);
      var sink := new Sink(script);
      var n := Writen(sink, buf, |data|);
      assert sink.taken == buf[..|data|] == data;
      sent := sent[fd := sent[fd] + sink.taken];
    }

    /** `Close` and `FD_CLR`, and the slot is free again. */
    method CloseSlot(i: nat)
      requires Valid() && i < client.Length && client[i] >= 0
      modifies this`allset, this`received, this`sent, client
      ensures Valid() && client[..] == old(client[..])[i := -1]
      ensures received == old(received) - {old(client[i])}
    {
      var fd := client[i];
      ghost var c := client[..];
      DropClient(listenfd, c, allset, maxfd, maxi, i);
      received, sent := received - {fd}, sent - {fd};
      allset := allset - {fd};
      client[i] := -1;
      assert client[..] == c[i := -1];
    }

    /** Reads one ready client: end of file closes it, anything else is echoed. */
    method ServeOne(i: nat, data: seq<Byte>, script: seq<Event>)
      requires Valid() && i < client.Length && client[i] >= 0 && Works(script)
      modifies this`allset, this`received, this`sent, client
      ensures Valid()
      ensures client[..] == if data == [] then old(client[..])[i := -1] else old(client[..])
      ensures old(client[i]) in old(received)
      ensures var fd := old(client[i]);
              received == if data == [] then old(received) - {fd} else old(received)[fd := old(received[fd]) + data]
    {
      var fd := client[i];
      assert client[..][i] == fd && fd in Live(client[..]);
      if data == [] {
        CloseSlot(i);
      } else {
        WriteAll(fd, data, script);
        received := received[fd := received[fd] + data];
      }
    }

    /** One slot of the scan: `c` and `r0` are the table and the connections when the scan began. */
    method ServeSlot(i: nat, input: Input, served: seq<int>, ghost c: seq<int>, ghost r0: map<int, seq<Byte>>,
                     ghost ready: set<int>)
      returns (hit: bool, served': seq<int>)
      requires Valid() && i <= maxi && |c| == client.Length && input.Reads(listenfd)
      requires Distinct(c) && listenfd !in Live(c)
      requires ready <= Live(c) == r0.Keys && forall fd | fd in Live(c) :: fd in ready <==> fd in input.ready
      requires ServedSoFar(c, r0, i, ready, input.arrives, served, client[..], received)
      modifies this`allset, this`received, this`sent, client
      ensures Valid() && (hit <==> c[i] in ready) && |served'| == |served| + if hit then 1 else 0
      ensures ServedSoFar(c, r0, i + 1, ready, input.arrives, served', client[..], received)
    {
      assert forall fd | fd in ready :: fd >= 0;
      SeenNext(c, i, ready, AtEnd(input.arrives));
      assert client[..][i] == c[i];
      assert c[i] >= 0 ==> c[i] in Live(c);
      var fd := client[i];
      hit := fd >= 0 && fd in input.ready;
      if hit {
        DeliverOne(r0, Elements(served), fd, input.arrives);
        OneMore(served, fd);
        ServeOne(i, input.arrives[fd], if fd in input.writes then input.writes[fd] else []);
        served' := served + [fd];
      } else {
        served' := served;
      }
    }

    /** The scan over the table with its early exit, which counts the reported clients not yet served. */
    method Scan(input: Input, nready: nat, ghost ready: set<int>) returns (served: seq<int>, ghost k: nat)
      requires Valid() && input.Reads(listenfd) && nready > 0
      requires ready <= Live(client[..]) && forall fd | fd in Live(client[..]) :: fd in ready <==> fd in input.ready
      modifies this`allset, this`received, this`sent, client
      ensures Valid() && k <= maxi + 1
      ensures |served| <= nready && (|served| < nready ==> k == maxi + 1)
      ensures ServedSoFar(old(client[..]), old(received), k, ready, input.arrives, served, client[..], received)
    {
      ghost var c, r0 := client[..], received;
      var left: int := nready;
      served, k := [], 0;
      NothingServed(c, r0, 0, ready, input.arrives);
      var i := 0;
      while i <= maxi
        invariant Valid() && 0 <= i <= maxi + 1
        invariant k == i && left > 0 && left == nready - |served|
        invariant ServedSoFar(c, r0, k, ready, input.arrives, served, client[..], received)
        decreases maxi - i
      {
        var hit;
        hit, served := ServeSlot(i, input, served, c, r0, ready);
        k := i + 1;
        if hit {
          left := left - 1;
          if left <= 0 {
            break;
          }
        }
        i := i + 1;
      }
    }

    /** Each reported client is read exactly once, and the early exit never skips one. */
    method ServeReady(input: Input, nready: nat) returns (served: seq<int>)
      requires Valid() && input.Reads(listenfd) && input.ready - {listenfd} <= Live(client[..])
      requires nready == |input.ready - {listenfd}| > 0
      modifies this`allset, this`received, this`sent, client
      ensures Valid() && NoRepeats(served) && Elements(served) == input.ready - {listenfd}
      ensures client[..] == Served(old(client[..]), client.Length, input.ready - {listenfd}, AtEnd(input.arrives))
      ensures received == Delivered(old(received), input.ready - {listenfd}, input.arrives)
    {
      ghost var c, k := client[..], 0;
      forall i | maxi < i < |c|
        ensures c[i] < 0
      {
        assert SlotOk(c, maxi, i);
      }
      served, k := Scan(input, nready, input.ready - {listenfd});
      ScanEnds(c, k, input.ready - {listenfd}, AtEnd(input.arrives), served);
    }

    /**
     * One pass of the main loop. Unless the table was full, exactly the clients reported readable are
     * read, once each, and never the one accepted in this pass.
     */
    method Pass(input: Input) returns (full: bool, served: seq<int>)
      requires Valid() && input.Reads(listenfd) && Possible(received, listenfd, input.AsRound(listenfd))
      modifies this, client
      ensures full <==> listenfd in input.ready && AllTaken(old(client[..]))
      ensures full <==> Overflows(old(received), client.Length, input.AsRound(listenfd))
      ensures full ==> unchanged(this) && unchanged(client)
      ensures !full ==> Valid() && NoRepeats(served) && Elements(served) == input.ready - {listenfd}
      ensures !full ==> received == AfterRound(old(received), input.AsRound(listenfd))
    {
      var ready := input.ready;
      ReadyClients(listenfd, ready);
      OpenClients(listenfd, client[..], allset, maxfd, maxi, received, input);
      FullTable(client[..]);
      var nready := |ready|;
      served := [];
      full := false;
      ghost var live := Live(client[..]);
      if listenfd in ready {
        var slot;
        full, slot := Accept(input.connfd);
        if full {
          return;
        }
        nready := nready - 1;
        if nready <= 0 {
          NothingDelivered(received, input.arrives);
          return;
        }
      }
      assert live <= Live(client[..]);
      served := ServeReady(input, nready);
    }

    /**
     * The main loop, for anything the kernel may report, accept and deliver: the server ends exactly when
     * a connection comes in on a full table, and until then every open connection has been sent what was
     * received on it, which is what arrived for it.
     */
    method Run(inputs: seq<Input>) returns (full: bool)
      requires Valid() && forall i | 0 <= i < |inputs| :: inputs[i].Reads(listenfd)
      requires AllPossible(received, listenfd, client.Length, Rounds(listenfd, inputs))
      modifies this, client
      ensures full <==> AfterRounds(old(received), client.Length, Rounds(listenfd, inputs)) == None
      ensures !full ==> Valid()
      ensures !full ==> AfterRounds(old(received), client.Length, Rounds(listenfd, inputs)) == Some(received)
    {
      ghost var rounds := Rounds(listenfd, inputs);
      ghost var outcome := AfterRounds(received, client.Length, rounds);
      full := false;
      var k := 0;
      assert rounds[0..] == rounds;
      while k < |inputs|
        invariant k <= |inputs| && Valid() && AllPossible(received, listenfd, client.Length, rounds[k..])
        invariant AfterRounds(received, client.Length, rounds[k..]) == outcome
      {
        NextRound(received, listenfd, client.Length, rounds, k);
        var served;
        full, served := Pass(inputs[k]);
        if full {
          return;
        }
        k := k + 1;
      }
    }
  }

  /** In terms of the server's own set: only what was in it is reported, and only a new descriptor comes in. */
  lemma OpenClients(listenfd: int, c: seq<int>, allset: set<int>, maxfd: int, maxi: int,
                    received: map<int, seq<Byte>>, input: Input)
    requires TableOk(listenfd, c, allset, maxfd, maxi) && received.Keys == Live(c)
    requires Possible(received, listenfd, input.AsRound(listenfd))
    ensures input.ready <= allset && (listenfd in input.ready ==> input.connfd >= 0 && input.connfd !in allset)
  {
    assert WatchOk(listenfd, c, allset, maxfd, input.connfd);
    forall fd | fd in input.ready
      ensures fd in allset
    {
      assert fd != listenfd ==> fd in input.AsRound(listenfd).read;
      assert WatchOk(listenfd, c, allset, maxfd, fd);
    }
  }

  lemma ReadyClients(listenfd: int, ready: set<int>)
    ensures listenfd in ready ==> |ready - {listenfd}| == |ready| - 1
    ensures listenfd !in ready ==> ready - {listenfd} == ready
    ensures |ready - {listenfd}| == 0 ==> ready - {listenfd} == {}
  {
    assert listenfd in ready ==> ready == ready - {listenfd} + {listenfd};
  }

  /** However the scan stopped, it has served everything that was reported. */
  lemma ScanEnds(c: seq<int>, k: nat, ready: set<int>, gone: set<int>, served: seq<int>)
    requires k <= |c| && Distinct(c) && ready <= Live(c)
    requires |served| < |ready| ==> forall i | k <= i < |c| :: c[i] < 0
    requires NoRepeats(served) && Elements(served) == Seen(c, k, ready)
    ensures Elements(served) == ready && Served(c, k, ready, gone) == Served(c, |c|, ready, gone)
  {
    if |served| < |ready| {
      NothingLeft(c, k, ready, served);
    }
    MayStop(c, k, ready, gone, served);
  }

  function Rounds(listenfd: int, inputs: seq<Input>): seq<Round> {
    seq(|inputs|, i requires 0 <= i < |inputs| => inputs[i].AsRound(listenfd))
  }

  /** A server started from nothing. */
  method Serve(listenfd: int, size: nat, inputs: seq<Input>) returns (server: Server, full: bool)
    requires listenfd >= 0 && (forall i | 0 <= i < |inputs| :: inputs[i].Reads(listenfd))
    requires AllPossible(map[], listenfd, size, Rounds(listenfd, inputs))
    ensures fresh(server) && fresh(server.client)
    ensures full <==> AfterRounds(map[], size, Rounds(listenfd, inputs)) == None
    ensures !full ==> server.Valid() && server.sent == server.received
    ensures !full ==> AfterRounds(map[], size, Rounds(listenfd, inputs)) == Some(server.received)
  {
    server := new Server(listenfd, size);
    full := server.Run(inputs);
  }
}
