/**
 * The half-close echo session as a step system. Client and server take turns in any order, one system
 * call at a time, over two lossless byte channels; every read and write may move any number of bytes.
 */
module EchoSession {
  import opened Common

  /**
   * Where the client is: waiting in select, at the socket test, writing to stdout, at the stdin test,
   * writing to the socket, about to shut its sending side down, gone normally, or gone early.
   */
  datatype Pc = Selecting | Reading | Copying | Asking | Sending | Stopping | Exited | Quit

  /** The server waits for input, has bytes of its buffer left to echo, or has closed the connection. */
  datatype Peer = Receiving | Echoing | Closed

  predicate HasZero(s: seq<Byte>) {
    s != [] && (s[0] == 0 || HasZero(s[1..]))
  }

  /** `k` is the length of the string at the start of `m`: the place of the first zero. */
  predicate IsStrLen(m: seq<Byte>, k: nat) {
    k < |m| && m[k] == 0 && !HasZero(m[..k])
  }

  /** The `n` bytes just read into `m` hold no zero, and a zero follows them. */
  predicate CleanRead(m: seq<Byte>, n: nat) {
    n < |m| && !HasZero(m[..n]) && m[n] == 0
  }

  /** What has been sent, against what has been read. */
  predicate History(repaired: bool, sent: seq<Byte>, read: seq<Byte>, allClean: bool) {
    && (repaired ==> sent == read)
    && (!repaired ==> !HasZero(sent) && if allClean then sent == read else HasZero(read) || |sent| > |read|)
  }

  /** The memory at the client's line buffer after `read` has put `d` there. */
  function Loaded(mem: seq<Byte>, d: seq<Byte>): (m: seq<Byte>)
    requires |d| <= |mem|
    ensures |m| == |mem| && m[..|d|] == d
  {
    seq(|mem|, i requires 0 <= i < |mem| => if i < |d| then d[i] else mem[i])
  }

  /**
   * `mem` is the memory from the client's line buffer up to some zero after it, `cap` the buffer's size;
   * `toSend` and `recv` are what the two write loops still have to write. `sent` and `allClean` record
   * history: everything the client has handed to the socket, and whether every read was clean.
   */
  datatype Session = Session(
    repaired: bool, stdin: seq<Byte>, cap: nat,
    pc: Pc, pos: nat, eof: bool, inSet: bool, sockSet: bool,
    mem: seq<Byte>, toSend: seq<Byte>, recv: seq<Byte>, stdout: seq<Byte>,
    c2s: seq<Byte>, fin: bool, peer: Peer, buf: seq<Byte>, s2c: seq<Byte>,
    sent: seq<Byte>, allClean: bool)
  {
    predicate IsInit() {
      && 0 < cap < |mem| && mem[|mem| - 1] == 0
      && pc == Selecting && pos == 0 && !eof && !inSet && !sockSet && !fin && peer == Receiving && allClean
      && toSend == recv == stdout == c2s == buf == s2c == sent == []
    }

    predicate Readable() {
      s2c != [] || peer == Closed
    }

    /** What memory holds after `n` more bytes of stdin have been read into the line buffer. */
    function After(n: nat): seq<Byte>
      requires pos + n <= |stdin| && n <= |mem|
    {
      Loaded(mem, stdin[pos..pos + n])
    }

    /** How many bytes the client sends after reading `n`: as many, or as written, the length of a string. */
    predicate Sends(n: nat, k: nat)
      requires pos + n <= |stdin| && n <= |mem|
    {
      if repaired then k == n else IsStrLen(After(n), k)
    }

    /** `n` more bytes of stdin are in the line buffer, and its first `k` bytes are to be sent. */
    function Take(n: nat, k: nat): Session
      requires pos + n <= |stdin| && n <= |mem| && k <= |mem|
    {
      var out := After(n)[..k];
      this.(pos := pos + n, mem := After(n), toSend := out, sent := sent + out,
            allClean := allClean && CleanRead(After(n), n), pc := if k == 0 then Selecting else Sending)
    }

    // ----- invariant -----

    /** Every byte handed to the socket is in exactly one place, in order. */
    predicate Conserved() {
      stdout + recv + s2c + buf + c2s + toSend == sent
    }

    predicate Shape() {
      && pos <= |stdin|
      && 0 < cap < |mem| && mem[|mem| - 1] == 0
      && (recv != [] <==> pc == Copying)
      && (toSend != [] <==> pc == Sending)
      && (buf != [] <==> peer == Echoing)
    }

    /** Stdin is watched until it ends; the server closes only after it has seen the end and echoed everything. */
    predicate Closing() {
      && (eof ==> pos == |stdin|)
      && (fin <==> eof)
      && (pc == Selecting && eof ==> !inSet)
      && (pc != Selecting && inSet ==> !eof)
      && (pc == Sending ==> !eof)
      && (pc == Stopping ==> !eof && pos == |stdin|)
      && (pc == Reading ==> sockSet && Readable())
      && (peer == Closed ==> fin && c2s == [])
      && (pc == Exited ==> eof && peer == Closed && s2c == [])
      && pc != Quit
    }

    predicate Faithful()
      requires pos <= |stdin|
    {
      History(repaired, sent, stdin[..pos], allClean)
    }

    predicate Inv() {
      Shape() && Closing() && Conserved() && Faithful()
    }

    // ----- termination -----

    function Rank(): nat {
      match pc
      case Selecting => 3
      case Reading => 2
      case Copying => 5
      case Asking => if inSet then 1 else 4
      case Sending => 0
      case Stopping => 0
      case Exited => 0
      case Quit => 0
    }

    /** How far stdin still has to be read. */
    function Unread(): int {
      |stdin| - pos + if eof then 0 else 1
    }

    /** How far the bytes read still have to travel. */
    function Travel(): nat {
      20 * |toSend| + 16 * |c2s| + 12 * |buf| + 8 * |s2c| + 4 * |recv| + Rank() + if peer == Closed then 0 else 1
    }
  }

  datatype Step =
    | Select(sock: bool, input: bool)
    | ReadSocket(n: nat)
    | WriteStdout(n: nat)
    | SkipInput
    | ReadInput(n: nat, k: nat)
    | WriteSocket(n: nat)
    | Shutdown
    | PeerRead(n: nat)
    | PeerWrite(n: nat)
    | PeerInterrupted

  predicate Enabled(s: Session, st: Step) {
    match st
    case Select(sock, input) =>
      s.pc == Selecting && (sock || input) && (sock ==> s.Readable()) && (input ==> s.inSet || !s.eof)
    case ReadSocket(n) => s.pc == Reading && s.Readable() && n <= |s.s2c| && n <= s.cap && (n == 0 <==> s.s2c == [])
    case WriteStdout(n) => s.pc == Copying && 0 < n <= |s.recv|
    case SkipInput => s.pc == Asking && !s.inSet
    case ReadInput(n, k) =>
      && s.pc == Asking && s.inSet && s.pos + n <= |s.stdin| && n <= s.cap <= |s.mem| && k <= |s.mem|
      && (n == 0 <==> s.pos == |s.stdin|) && (n > 0 ==> s.Sends(n, k))
    case WriteSocket(n) => s.pc == Sending && 0 < n <= |s.toSend|
    case Shutdown => s.pc == Stopping
    case PeerRead(n) => s.peer == Receiving && n <= |s.c2s| && (n == 0 <==> s.c2s == []) && (n == 0 ==> s.fin)
    case PeerWrite(n) => s.peer == Echoing && 0 < n <= |s.buf|
    case PeerInterrupted => s.peer == Receiving
  }

  function Apply(s: Session, st: Step): Session
    requires Enabled(s, st)
  {
    match st
    case Select(sock, input) =>
      s.(sockSet := sock, inSet := input, pc := if sock then Reading else Asking)
    case ReadSocket(n) =>
      if n == 0 then s.(pc := if s.eof then Exited else Quit)
      else s.(recv := s.s2c[..n], s2c := s.s2c[n..], pc := Copying)
    case WriteStdout(n) =>
      s.(stdout := s.stdout + s.recv[..n], recv := s.recv[n..], pc := if n == |s.recv| then Asking else Copying)
    case SkipInput => s.(pc := Selecting)
    case ReadInput(n, k) =>
      if n == 0 then s.(pc := Stopping)
      else s.Take(n, k)
    case WriteSocket(n) =>
      s.(c2s := s.c2s + s.toSend[..n], toSend := s.toSend[n..], pc := if n == |s.toSend| then Selecting else Sending)
    case Shutdown => s.(eof := true, fin := true, inSet := false, pc := Selecting)
    case PeerRead(n) =>
      if n == 0 then s.(peer := Closed)
      else s.(buf := s.c2s[..n], c2s := s.c2s[n..], peer := Echoing)
    case PeerWrite(n) =>
      s.(s2c := s.s2c + s.buf[..n], buf := s.buf[n..], peer := if n == |s.buf| then Receiving else Echoing)
    case PeerInterrupted => s
  }
}
