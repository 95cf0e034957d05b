/** The client of the half-close session as the loop it is, each call made while the server takes any steps. */
module StrCli {
  import opened Common
  import opened EchoSession
  import opened HalfClose

  /** The session has moved on from `a` to `b`, or stayed. */
  predicate Later(a: Session, b: Session) {
    && b.Inv() && b.stdin == a.stdin && b.repaired == a.repaired
    && (b.Unread() < a.Unread() || (b.Unread() == a.Unread() && b.Travel() <= a.Travel()))
  }

  predicate Strictly(a: Session, b: Session) {
    Later(a, b) && (b.Unread() < a.Unread() || b.Travel() < a.Travel())
  }

  /** Nothing the client can see has changed, except that more may have come in. */
  predicate ClientSame(a: Session, b: Session) {
    && b.pc == a.pc && b.eof == a.eof && b.inSet == a.inSet && b.sockSet == a.sockSet
    && (a.Readable() ==> b.Readable())
  }

  /** The rest of the world as the client's system calls see it. */
  class World {
    var st: Session

    method Step(step: Step)
      requires st.Inv() && Enabled(st, step)
      modifies this
      ensures st == Apply(old(st), step) && Later(old(st), st)
      ensures !step.PeerInterrupted? ==> Strictly(old(st), st)
    {
      StepGood(st, step);
      st := Apply(st, step);
    }

    /** One step of the server, if it can take one. */
    method PeerStep() returns (moved: bool)
      requires st.Inv()
      modifies this
      ensures Later(old(st), st) && ClientSame(old(st), st)
      ensures moved ==> Strictly(old(st), st)
      ensures !moved ==> st.peer == Closed || (st.peer == Receiving && st.c2s == [] && !st.fin)
    {
      moved := true;
      if st.peer == Echoing {
        var n :| 0 < n <= |st.buf|;
        Step(PeerWrite(n));
      } else if st.peer == Receiving && st.c2s != [] {
        var n :| 0 < n <= |st.c2s|;
        Step(PeerRead(n));
      } else if st.peer == Receiving && st.fin {
        Step(PeerRead(0));
      } else {
        moved := false;
      }
    }

    /** The server runs for a while, as long as it likes or until something has come in. */
    method Meanwhile(untilReadable: bool)
      requires st.Inv() && (untilReadable ==> st.eof)
      modifies this
      ensures Later(old(st), st) && ClientSame(old(st), st)
      ensures untilReadable ==> st.Readable()
    {
      var moving := true;
      while moving && !(untilReadable && st.Readable())
        invariant Later(old(st), st) && ClientSame(old(st), st)
        invariant !moving && untilReadable ==> st.Readable()
        decreases moving, st.Unread(), st.Travel()
      {
        var enough: bool := *;
        if enough && !untilReadable {
          break;
        }
        moving := PeerStep();
      }
    }

    /** Blocks until one of the watched descriptors is ready, and reports some that are. */
    method Select(watchInput: bool) returns (sock: bool, input: bool)
      requires st.Inv() && st.pc == Selecting && (watchInput <==> st.inSet || !st.eof)
      modifies this
      ensures Strictly(old(st), st)
      ensures st.eof == old(st.eof) && st.inSet == input && (sock || input)
      ensures st.pc == if sock then Reading else Asking
    {
      Meanwhile(!watchInput);
      sock, input := false, watchInput;
      if st.Readable() {
        input := *;
        sock := *;
        input := input && watchInput;
        sock := sock || !input;
      }
      Step(EchoSession.Select(sock, input));
    }

    method ReadSocket() returns (n: nat)
      requires st.Inv() && st.pc == Reading
      modifies this
      ensures Strictly(old(st), st) && st.eof == old(st.eof) && st.inSet == old(st.inSet)
      ensures n == 0 ==> st.pc == if st.eof then Exited else Quit
      ensures n > 0 ==> st.pc == Copying
    {
      Meanwhile(false);
      n := 0;
      if st.s2c != [] {
        n :| 0 < n <= |st.s2c| && n <= st.cap;
      }
      Step(EchoSession.ReadSocket(n));
    }

    /** `Writen` to stdout: any number of writes until nothing is left. */
    method WritenStdout()
      requires st.Inv() && st.pc == Copying
      modifies this
      ensures Strictly(old(st), st) && st.eof == old(st.eof) && st.inSet == old(st.inSet) && st.pc == Asking
    {
      while st.pc == Copying
        invariant Later(old(st), st) && (st.pc == Asking ==> Strictly(old(st), st))
        invariant st.eof == old(st.eof) && st.inSet == old(st.inSet) && (st.pc == Copying || st.pc == Asking)
        decreases st.Unread(), st.Travel()
      {
        Meanwhile(false);
        var n :| 0 < n <= |st.recv|;
        Step(WriteStdout(n));
      }
    }

    method ReadInput() returns (n: nat)
      requires st.Inv() && st.pc == Asking && st.inSet
      modifies this
      ensures Strictly(old(st), st) && st.eof == old(st.eof)
      ensures n == 0 ==> st.pc == Stopping
      ensures n > 0 ==> st.pc == Sending || st.pc == Selecting
    {
      Meanwhile(false);
      n := 0;
      var k := 0;
      if st.pos < |st.stdin| {
        n :| 0 < n <= st.cap && st.pos + n <= |st.stdin|;
        LoadedHolds(st, n);
        k := n;
        if !st.repaired {
          k := StrLen(st.After(n));
        }
      }
      Step(EchoSession.ReadInput(n, k));
    }

    /** `Writen` to the socket of what was read, if there is anything to write. */
    method WritenSocket()
      requires st.Inv() && (st.pc == Sending || st.pc == Selecting)
      modifies this
      ensures Later(old(st), st) && st.eof == old(st.eof) && st.pc == Selecting
    {
      while st.pc == Sending
        invariant Later(old(st), st) && st.eof == old(st.eof) && (st.pc == Sending || st.pc == Selecting)
        decreases st.Unread(), st.Travel()
      {
        Meanwhile(false);
        var n :| 0 < n <= |st.toSend|;
        Step(WriteSocket(n));
      }
    }
  }

  /** The socket branch of the loop: copy what came in, or notice that the server has closed. */
  method SocketBranch(w: World) returns (over: bool)
    requires w.st.Inv() && w.st.pc == Reading
    modifies w
    ensures Strictly(old(w.st), w.st) && w.st.eof == old(w.st.eof) && w.st.inSet == old(w.st.inSet)
    ensures w.st.pc == if over then Exited else Asking
    ensures over ==> w.st.eof
  {
    var n := w.ReadSocket();
    over := n == 0;
    if !over {
      w.WritenStdout();
    }
  }

  /** The stdin branch of the loop: send what was typed, or shut the sending side down at its end. */
  method InputBranch(w: World, stdinEof: bool, inputSet: bool) returns (stdinEof': bool, inputSet': bool)
    requires w.st.Inv() && w.st.pc == Asking && w.st.eof == stdinEof && w.st.inSet == inputSet
    modifies w
    ensures Strictly(old(w.st), w.st) && w.st.pc == Selecting && w.st.eof == stdinEof' && (stdinEof' ==> !inputSet')
  {
    stdinEof', inputSet' := stdinEof, inputSet;
    if inputSet {
      var n := w.ReadInput();
      if n == 0 {
        stdinEof' := true;
        w.Step(Shutdown);
        inputSet' := false;
      } else {
        w.WritenSocket();
      }
    } else {
      w.Step(SkipInput);
    }
  }

  /**
   * The session always ends, always normally, and echoes all of stdin: with the repair, and as written
   * exactly when every read was free of zeros and followed by one.
   */
  method StrCliV4(w: World) returns (normal: bool)
    requires w.st.IsInit()
    modifies w
    ensures normal && w.st.pc == Exited && w.st.stdin == old(w.st.stdin) && w.st.repaired == old(w.st.repaired)
    ensures w.st.stdout == w.st.stdin <==> w.st.repaired || w.st.allClean
  {
    InitHolds(w.st);
    var stdinEof, inputSet := false, false;
    var over := false;
    while !over
      invariant Later(old(w.st), w.st) && w.st.eof == stdinEof
      invariant if over then w.st.pc == Exited && stdinEof else w.st.pc == Selecting && (stdinEof ==> !inputSet)
      decreases w.st.Unread(), w.st.Travel()
    {
      if !stdinEof {
        inputSet := true;
      }
      var sock;
      sock, inputSet := w.Select(inputSet);
      if sock {
        over := SocketBranch(w);
      }
      if !over {
        stdinEof, inputSet := InputBranch(w, stdinEof, inputSet);
      }
    }
    ExitedCorrect(w.st);
    normal := stdinEof;
  }
}
