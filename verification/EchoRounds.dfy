/**
 * Whole runs of the multiplexed echo servers, seen from outside: which connections are open and what each
 * has received, round after round. Both servers are proved against this.
 */
module EchoRounds {
  import opened Common
  import opened EchoTable

  /** One round: whether a connection came in and its descriptor, the clients read, and what the reads returned. */
  datatype Round = Round(listening: bool, connfd: int, read: set<int>, arrives: map<int, seq<Byte>>)

  /** The connections and what each has received after one round. */
  function AfterRound(received: map<int, seq<Byte>>, r: Round): map<int, seq<Byte>> {
    Delivered(if r.listening then received[r.connfd := []] else received, r.read, r.arrives)
  }

  /** The table has `size` slots for clients, all of them taken, and another connection comes in. */
  predicate Overflows(received: map<int, seq<Byte>>, size: nat, r: Round) {
    r.listening && |received| == size
  }

  /** What the kernel may report: open clients only, and a new descriptor that is not open. */
  predicate Possible(received: map<int, seq<Byte>>, listenfd: int, r: Round) {
    && r.read <= received.Keys
    && (r.listening ==> r.connfd >= 0 && r.connfd != listenfd && r.connfd !in received)
  }

  predicate AllPossible(received: map<int, seq<Byte>>, listenfd: int, size: nat, rounds: seq<Round>)
    decreases |rounds|
  {
    rounds == []
    || (Possible(received, listenfd, rounds[0])
        && (Overflows(received, size, rounds[0])
            || AllPossible(AfterRound(received, rounds[0]), listenfd, size, rounds[1..])))
  }

  /** The connections after all rounds, or nothing if the table overflowed on the way. */
  function AfterRounds(received: map<int, seq<Byte>>, size: nat, rounds: seq<Round>): Option<map<int, seq<Byte>>>
    decreases |rounds|
  {
    if rounds == [] then Some(received)
    else if Overflows(received, size, rounds[0]) then None
    else AfterRounds(AfterRound(received, rounds[0]), size, rounds[1..])
  }

  /** The round at hand, and what is left after it. */
  lemma NextRound(received: map<int, seq<Byte>>, listenfd: int, size: nat, rounds: seq<Round>, k: nat)
    requires k < |rounds| && AllPossible(received, listenfd, size, rounds[k..])
    ensures Possible(received, listenfd, rounds[k])
    ensures if Overflows(received, size, rounds[k]) then AfterRounds(received, size, rounds[k..]) == None
            else var next := AfterRound(received, rounds[k]);
              && AllPossible(next, listenfd, size, rounds[k + 1..])
              && AfterRounds(next, size, rounds[k + 1..]) == AfterRounds(received, size, rounds[k..])
  {
    assert rounds[k..][0] == rounds[k] && rounds[k..][1..] == rounds[k + 1..];
  }

  /** One client's conversation, looking only at the rounds' news about this one descriptor. */
  function Conversation(fd: int, sofar: Option<seq<Byte>>, rounds: seq<Round>): Option<seq<Byte>>
    decreases |rounds|
  {
    if rounds == [] then sofar
    else
      var r := rounds[0];
      var open := if r.listening && r.connfd == fd then Some([]) else sofar;
      var next := if open == None || fd !in r.read || fd !in r.arrives then open
                  else if r.arrives[fd] == [] then None
                  else Some(open.value + r.arrives[fd]);
      Conversation(fd, next, rounds[1..])
  }

  function Of(received: map<int, seq<Byte>>, fd: int): Option<seq<Byte>> {
    if fd in received then Some(received[fd]) else None
  }

  /** No client gets anything of another's: each conversation is made of its own news alone. */
  lemma {:induction false} EachItsOwn(received: map<int, seq<Byte>>, size: nat, rounds: seq<Round>, fd: int)
    requires AfterRounds(received, size, rounds).Some?
    ensures Of(AfterRounds(received, size, rounds).value, fd) == Conversation(fd, Of(received, fd), rounds)
    decreases |rounds|
  {
    if rounds != [] {
      EachItsOwn(AfterRound(received, rounds[0]), size, rounds[1..], fd);
    }
  }
}
