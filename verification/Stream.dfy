/** Whole-buffer and line-at-a-time reading and writing over a descriptor that may do less than asked. */
module Stream {
  import opened Common

  /**
   * What one system call does. `Upto(n)` transfers at most `n` bytes but at least one if it can;
   * a script is what the calls to come will do, and calls beyond its end transfer all they can.
   */
  datatype Event = Interrupted | Broken | Upto(n: nat)

  predicate Quiet(script: seq<Event>) {
    Broken !in script
  }

  datatype Result = Moved(n: nat) | Eintr | Fail

  const NEWLINE: Byte := 10

  /** How many of `limit` bytes the next call transfers. */
  function Amount(script: seq<Event>, limit: nat): (n: nat)
    ensures n <= limit && (limit > 0 ==> n > 0)
  {
    if script == [] || !script[0].Upto? || script[0].n >= limit then limit
    else if script[0].n == 0 then Min(1, limit)
    else script[0].n
  }

  /** The next write takes nothing. */
  predicate TakesNothing(script: seq<Event>) {
    script != [] && script[0] == Upto(0)
  }

  /** A call fails before `want` bytes have been read or the stream of `avail` more bytes has ended. */
  predicate ReadFails(script: seq<Event>, want: nat, avail: nat) {
    want > 0 && script != []
    && match script[0]
       case Broken => true
       case Interrupted => ReadFails(script[1..], want, avail)
       case Upto(_) =>
         var n := Amount(script, Min(want, avail));
         avail > 0 && ReadFails(script[1..], want - n, avail - n)
  }

  /** A call fails, or takes nothing, before `want` bytes have been written. */
  predicate WriteFails(script: seq<Event>, want: nat) {
    want > 0 && script != []
    && match script[0]
       case Broken => true
       case Interrupted => WriteFails(script[1..], want)
       case Upto(n) => n == 0 || WriteFails(script[1..], want - Min(n, want))
  }

  /** Only a call that fails, or takes nothing, can make the whole fail. */
  lemma {:induction false} QuietSucceeds(script: seq<Event>, want: nat, avail: nat)
    requires Quiet(script)
    ensures !ReadFails(script, want, avail)
    ensures Upto(0) !in script ==> !WriteFails(script, want)
    decreases |script|
  {
    if script != [] {
      assert script[0] in script && forall e | e in script[1..] :: e in script;
      match script[0]
      case Upto(n) =>
        var taken := Amount(script, Min(want, avail));
        QuietSucceeds(script[1..], want - taken, avail - taken);
        QuietSucceeds(script[1..], want - Min(n, want), 0);
      case Interrupted =>
        QuietSucceeds(script[1..], want, avail);
      case Broken =>
    }
  }

  /** A descriptor open for reading: the bytes still to come and what its calls will do. */
  class Source {
    var rest: seq<Byte>
    var script: seq<Event>

    constructor (rest: seq<Byte>, script: seq<Event>)
      ensures this.rest == rest && this.script == script
    {
      this.rest, this.script := rest, script;
    }

    /** `read` into `buf[at..at + want]`. */
    method Read(buf: array<Byte>, at: nat, want: nat) returns (r: Result)
      requires want > 0 && at + want <= buf.Length
      modifies this, buf
      ensures script == if old(script) == [] then [] else old(script)[1..]
      ensures r.Moved? ==> r.n == Amount(old(script), Min(want, |old(rest)|))
      ensures r.Moved? ==> r.n <= want && r.n <= |old(rest)| && (r.n == 0 <==> old(rest) == [])
      ensures r.Moved? ==> rest == old(rest)[r.n..] && buf[at..at + r.n] == old(rest)[..r.n]
      ensures r.Moved? ==> buf[..at] == old(buf[..at]) && buf[at + r.n..] == old(buf[at + r.n..])
      ensures !r.Moved? ==> rest == old(rest) && buf[..] == old(buf[..]) && |script| < |old(script)|
      ensures r.Fail? <==> old(script) != [] && old(script)[0].Broken?
      ensures r.Eintr? <==> old(script) != [] && old(script)[0].Interrupted?
    {
      var ev := script;
      if script != [] {
        script := script[1..];
        if ev[0].Interrupted? {
          return Eintr;
        } else if ev[0].Broken? {
          return Fail;
        }
      }
      var n := Amount(ev, Min(want, |rest|));
      for k := 0 to n
        invariant forall j | 0 <= j < k :: buf[at + j] == rest[j]
        invariant forall j | 0 <= j < buf.Length && !(at <= j < at + k) :: buf[j] == old(buf[j])
        modifies buf
      {
        buf[at + k] := rest[k];
      }
      rest := rest[n..];
      r := Moved(n);
    }
  }

  /** A descriptor open for writing: everything it has taken. `Upto(0)` is a write that takes nothing. */
  class Sink {
    var taken: seq<Byte>
    var script: seq<Event>

    constructor (script: seq<Event>)
      ensures taken == [] && this.script == script
    {
      taken, this.script := [], script;
    }

    method Write(data: array<Byte>, at: nat, want: nat) returns (r: Result)
      requires want > 0 && at + want <= data.Length
      modifies this
      ensures script == if old(script) == [] then [] else old(script)[1..]
      ensures r.Moved? ==> r.n == if TakesNothing(old(script)) then 0 else Amount(old(script), want)
      ensures r.Moved? ==> taken == old(taken) + data[at..at + r.n]
      ensures !r.Moved? ==> taken == old(taken) && |script| < |old(script)|
      ensures r.Fail? <==> old(script) != [] && old(script)[0].Broken?
      ensures r.Eintr? <==> old(script) != [] && old(script)[0].Interrupted?
    {
      var ev := script;
      if script != [] {
        script := script[1..];
        if ev[0].Interrupted? {
          return Eintr;
        } else if ev[0].Broken? {
          return Fail;
        }
      }
      var n := if TakesNothing(ev) then 0 else Amount(ev, want);
      taken := taken + data[at..at + n];
      r := Moved(n);
    }
  }

  /**
   * `Readn`: all `n` bytes unless the stream ends first. A failure before that gives -1 and is the only
   * thing that does; whatever happens, the bytes put in the buffer and the bytes left make up the stream.
   */
  method Readn(fd: Source, buf: array<Byte>, n: nat) returns (r: int, ghost taken: nat)
    requires n <= buf.Length
    modifies fd, buf
    ensures r == -1 <==> ReadFails(old(fd.script), n, |old(fd.rest)|)
    ensures r == -1 ==> !Quiet(old(fd.script))
    ensures r != -1 ==> r == taken == Min(n, |old(fd.rest)|)
    ensures taken <= n && taken <= |old(fd.rest)| && fd.rest == old(fd.rest)[taken..]
    ensures buf[..taken] == old(fd.rest)[..taken] && buf[taken..] == old(buf[taken..])
  {
    ghost var s, was := fd.rest, buf[..];
    if Quiet(fd.script) {
      QuietSucceeds(fd.script, n, |s|);
    }
    var nleft, ptr := n, 0;
    while nleft > 0
      invariant 0 <= nleft && nleft + ptr == n && ptr <= |s| && fd.rest == s[ptr..]
      invariant buf[..ptr] == s[..ptr] && buf[ptr..] == was[ptr..]
      invariant ReadFails(fd.script, nleft, |fd.rest|) <==> ReadFails(old(fd.script), n, |old(fd.rest)|)
      decreases nleft, |fd.script|
    {
      ghost var b := buf[..];
      var nread := fd.Read(buf, ptr, nleft);
      match nread {
        case Fail =>
          assert buf[..ptr] == b[..ptr] && buf[ptr..] == b[ptr..];
          return -1, ptr;
        case Eintr =>
          assert buf[..ptr] == b[..ptr] && buf[ptr..] == b[ptr..];
        case Moved(k) =>
          if k == 0 {
            break;
          }
          Extend(s, was, b, buf[..], ptr, k);
          nleft, ptr := nleft - k, ptr + k;
      }
    }
    r, taken := n - nleft, ptr;
  }

  /** A read that appends to a prefix of the stream leaves a longer prefix of it. */
  lemma Extend(s: seq<Byte>, was: seq<Byte>, b: seq<Byte>, b': seq<Byte>, at: nat, k: nat)
    requires at + k <= |s| && at + k <= |b| == |b'| == |was|
    requires b[..at] == s[..at] && b[at..] == was[at..]
    requires b'[..at] == b[..at] && b'[at..at + k] == s[at..][..k] && b'[at + k..] == b[at + k..]
    ensures b'[..at + k] == s[..at + k] && b'[at + k..] == was[at + k..] && s[at..][k..] == s[at + k..]
  {
    assert b'[..at + k] == b'[..at] + b'[at..at + k];
    assert s[..at + k] == s[..at] + s[at..][..k];
    assert b[at + k..] == b[at..][k..];
  }

  /** `Writen`: all `n` bytes in order, or -1 after a failure or a write that takes nothing. */
  method Writen(fd: Sink, data: array<Byte>, n: nat) returns (r: int)
    requires n <= data.Length
    modifies fd
    ensures r == n || r == -1
    ensures r == -1 <==> WriteFails(old(fd.script), n)
    ensures r == -1 ==> !Quiet(old(fd.script)) || Upto(0) in old(fd.script)
    ensures r == n ==> fd.taken == old(fd.taken) + data[..n]
    ensures exists m: nat :: m <= n && fd.taken == old(fd.taken) + data[..m] && (r == -1 ==> m < n)
  {
    if Quiet(fd.script) && Upto(0) !in fd.script {
      QuietSucceeds(fd.script, n, 0);
    }
    var nleft, ptr := n, 0;
    while nleft > 0
      invariant 0 <= nleft && nleft + ptr == n
      invariant fd.taken == old(fd.taken) + data[..ptr]
      invariant WriteFails(fd.script, nleft) <==> WriteFails(old(fd.script), n)
      decreases nleft, |fd.script|
    {
      var nwritten := fd.Write(data, ptr, nleft);
      match nwritten {
        case Fail =>
          return -1;
        case Eintr =>
        case Moved(k) =>
          if k == 0 {
            return -1;
          }
          assert data[..ptr] + data[ptr..ptr + k] == data[..ptr + k];
          nleft, ptr := nleft - k, ptr + k;
      }
    }
    r := n - nleft;
  }
}
