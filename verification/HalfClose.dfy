/** What the half-close session guarantees in every reachable state and over every run. */
module HalfClose {
  import opened Common
  import opened EchoSession

  // ----- the string length taken for a read count -----

  lemma {:induction false} HasZeroIs(s: seq<Byte>)
    ensures HasZero(s) <==> exists i | 0 <= i < |s| :: s[i] == 0
  {
    if s != [] {
      HasZeroIs(s[1..]);
      if i :| 0 <= i < |s| && s[i] == 0 {
        assert i > 0 ==> s[1..][i - 1] == 0;
      }
    }
  }

  lemma {:induction false} HasZeroAppend(a: seq<Byte>, b: seq<Byte>)
    ensures HasZero(a + b) <==> HasZero(a) || HasZero(b)
  {
    if a == [] {
      assert a + b == b;
    } else {
      HasZeroAppend(a[1..], b);
      assert (a + b)[1..] == a[1..] + b;
    }
  }

  /** The string in memory is the bytes just read exactly when they hold no zero and a zero follows them. */
  lemma StringExact(m: seq<Byte>, n: nat, k: nat)
    requires n < |m| && IsStrLen(m, k)
    ensures m[..k] == m[..n] <==> CleanRead(m, n)
    ensures !HasZero(m[..n]) ==> k >= n
  {
    HasZeroIs(m[..n]);
    HasZeroIs(m[..k]);
    if k < n {
      assert m[..n][k] == 0;
    } else if k > n {
      assert m[..k][n] == m[n];
      assert |m[..k]| != |m[..n]|;
    }
  }

  /** Memory that holds a zero holds a string. */
  method StrLen(m: seq<Byte>) returns (k: nat)
    requires m != [] && m[|m| - 1] == 0
    ensures IsStrLen(m, k)
  {
    k := 0;
    while m[k] != 0
      invariant k < |m| && !HasZero(m[..k])
      decreases |m| - k
    {
      HasZeroAppend(m[..k], [m[k]]);
      assert m[..k + 1] == m[..k] + [m[k]];
      k := k + 1;
    }
  }

  lemma {:induction false} SomeStrLen(m: seq<Byte>) returns (k: nat)
    requires m != [] && m[|m| - 1] == 0
    ensures IsStrLen(m, k)
  {
    if m[0] == 0 {
      k := 0;
    } else {
      var j := SomeStrLen(m[1..]);
      k := j + 1;
      assert m[..k][1..] == m[1..][..j];
    }
  }

  /** A line shorter than the one before it drags the old line's tail along. */
  lemma StaleTail(mem: seq<Byte>, d: seq<Byte>, e: seq<Byte>)
    requires |e| < |d| < |mem| && mem[|d|] == 0 && !HasZero(d) && !HasZero(e)
    ensures var m := Loaded(Loaded(mem, d), e);
            IsStrLen(m, |d|) && m[..|d|] == e + d[|e|..]
  {
    var m := Loaded(Loaded(mem, d), e);
    assert |m| == |mem| && m[|d|] == mem[|d|];
    assert forall i | 0 <= i < |d| :: m[i] == if i < |e| then e[i] else d[i];
    assert m[..|d|] == e + d[|e|..];
    assert d == d[..|e|] + d[|e|..];
    HasZeroAppend(d[..|e|], d[|e|..]);
    HasZeroAppend(e, d[|e|..]);
  }

  // ----- every step keeps the invariant -----

  lemma LoadedHolds(s: Session, n: nat)
    requires s.Shape() && n <= s.cap && s.pos + n <= |s.stdin|
    ensures var m := s.After(n);
            |m| == |s.mem| && m[..n] == s.stdin[s.pos..s.pos + n] && m[|m| - 1] == 0 && n < |m|
  {
  }

  /** What a client may send for `d`, as far as the history goes. */
  predicate Answers(repaired: bool, d: seq<Byte>, out: seq<Byte>) {
    if repaired then out == d
    else !HasZero(out) && (HasZero(d) || |out| >= |d|) && (out == d || HasZero(d) || |out| > |d|)
  }

  lemma SentIs(s: Session, n: nat, k: nat)
    requires s.Shape() && n <= s.cap && s.pos + n <= |s.stdin| && s.Sends(n, k)
    ensures k <= |s.After(n)| && Answers(s.repaired, s.stdin[s.pos..s.pos + n], s.After(n)[..k])
    ensures !s.repaired ==> (s.After(n)[..k] == s.stdin[s.pos..s.pos + n] <==> CleanRead(s.After(n), n))
  {
    LoadedHolds(s, n);
    if !s.repaired {
      StringExact(s.After(n), n, k);
    }
  }

  lemma HistoryExtended(repaired: bool, sent: seq<Byte>, read: seq<Byte>, allClean: bool,
                        out: seq<Byte>, d: seq<Byte>, clean: bool)
    requires History(repaired, sent, read, allClean) && Answers(repaired, d, out)
    requires !repaired ==> (out == d <==> clean)
    ensures History(repaired, sent + out, read + d, allClean && clean)
  {
    HasZeroAppend(sent, out);
    HasZeroAppend(read, d);
  }

  lemma TakeHistory(s: Session, n: nat, k: nat)
    requires s.pos + n <= |s.stdin| && n <= |s.mem| && k <= |s.mem| && s.Faithful()
    requires Answers(s.repaired, s.stdin[s.pos..s.pos + n], s.After(n)[..k])
    requires !s.repaired ==> (s.After(n)[..k] == s.stdin[s.pos..s.pos + n] <==> CleanRead(s.After(n), n))
    ensures s.Take(n, k).pos <= |s.stdin| && s.Take(n, k).Faithful()
  {
    var d, out := s.stdin[s.pos..s.pos + n], s.After(n)[..k];
    HistoryExtended(s.repaired, s.sent, s.stdin[..s.pos], s.allClean, out, d, CleanRead(s.After(n), n));
    assert s.stdin[..s.pos + n] == s.stdin[..s.pos] + d;
  }

  lemma TakeKeeps(s: Session, n: nat, k: nat)
    requires s.Shape() && s.Conserved() && s.pc == Asking && k <= |s.mem|
    requires n <= s.cap && s.pos + n <= |s.stdin|
    ensures s.Take(n, k).Shape() && s.Take(n, k).Conserved()
  {
    LoadedHolds(s, n);
    var before := s.stdout + s.recv + s.s2c + s.buf + s.c2s;
    assert before + [] == before;
  }

  /** Moving bytes from one place to the next loses none and reorders none. */
  lemma Move(p: seq<Byte>, a: seq<Byte>, b: seq<Byte>, n: nat)
    requires n <= |b|
    ensures (p + (a + b[..n])) + b[n..] == (p + a) + b
    ensures (a + b[..n]) + b[n..] == a + b
    ensures [] + b[..n] == b[..n] && p + [] == p
  {
    assert b == b[..n] + b[n..];
  }

  // One lemma for each system call: it keeps the invariant and makes progress.

  /** The step from `s` to `s'` is a good one: nothing lost, and either stdin or the bytes under way have moved on. */
  predicate Good(s: Session, s': Session) {
    && s'.Inv() && s'.stdin == s.stdin && s'.repaired == s.repaired
    && 0 <= s'.Unread() <= s.Unread()
    && (s'.Unread() == s.Unread() ==> s'.Travel() < s.Travel())
  }

  lemma SelectGood(s: Session, sock: bool, input: bool)
    requires s.Inv() && Enabled(s, Select(sock, input))
    ensures Good(s, Apply(s, Select(sock, input)))
  {
  }

  lemma ReadSocketGood(s: Session, n: nat)
    requires s.Inv() && Enabled(s, ReadSocket(n))
    ensures Good(s, Apply(s, ReadSocket(n)))
  {
    Move(s.stdout, [], s.s2c, n);
  }

  lemma WriteStdoutGood(s: Session, n: nat)
    requires s.Inv() && Enabled(s, WriteStdout(n))
    ensures Good(s, Apply(s, WriteStdout(n)))
  {
    Move([], s.stdout, s.recv, n);
  }

  lemma SkipInputGood(s: Session)
    requires s.Inv() && Enabled(s, SkipInput)
    ensures Good(s, Apply(s, SkipInput))
  {
  }

  lemma TakeGood(s: Session, n: nat, k: nat)
    requires s.Inv() && Enabled(s, ReadInput(n, k)) && n > 0
    ensures Good(s, s.Take(n, k))
  {
    SentIs(s, n, k);
    TakeKeeps(s, n, k);
    TakeHistory(s, n, k);
  }

  lemma ReadInputGood(s: Session, n: nat, k: nat)
    requires s.Inv() && Enabled(s, ReadInput(n, k))
    ensures Good(s, Apply(s, ReadInput(n, k)))
  {
    if n > 0 {
      TakeGood(s, n, k);
    }
  }

  lemma WriteSocketGood(s: Session, n: nat)
    requires s.Inv() && Enabled(s, WriteSocket(n))
    ensures Good(s, Apply(s, WriteSocket(n)))
  {
    Move(s.stdout + s.recv + s.s2c + s.buf, s.c2s, s.toSend, n);
  }

  lemma ShutdownGood(s: Session)
    requires s.Inv() && Enabled(s, Shutdown)
    ensures Good(s, Apply(s, Shutdown))
  {
  }

  lemma PeerReadConserves(s: Session, n: nat)
    requires s.Shape() && s.Conserved() && Enabled(s, PeerRead(n))
    ensures Apply(s, PeerRead(n)).Conserved()
  {
    Move(s.stdout + s.recv + s.s2c, [], s.c2s, n);
  }

  lemma PeerReadShape(s: Session, n: nat)
    requires s.Shape() && s.Closing() && s.Faithful() && Enabled(s, PeerRead(n))
    ensures var s' := Apply(s, PeerRead(n)); s'.Shape() && s'.Closing() && s'.Faithful() && s'.Travel() < s.Travel()
  {
    assert |s.c2s[n..]| == |s.c2s| - n;
  }

  lemma PeerReadGood(s: Session, n: nat)
    requires s.Inv() && Enabled(s, PeerRead(n))
    ensures Good(s, Apply(s, PeerRead(n)))
  {
    PeerReadConserves(s, n);
    PeerReadShape(s, n);
  }

  lemma PeerWriteConserves(s: Session, n: nat)
    requires s.Conserved() && Enabled(s, PeerWrite(n))
    ensures Apply(s, PeerWrite(n)).Conserved()
  {
    Move(s.stdout + s.recv, s.s2c, s.buf, n);
  }

  lemma PeerWriteShape(s: Session, n: nat)
    requires s.Shape() && s.Closing() && s.Faithful() && Enabled(s, PeerWrite(n))
    ensures var s' := Apply(s, PeerWrite(n)); s'.Shape() && s'.Closing() && s'.Faithful() && s'.Travel() < s.Travel()
  {
    assert |s.buf[n..]| == |s.buf| - n && |s.s2c + s.buf[..n]| == |s.s2c| + n;
  }

  lemma PeerWriteGood(s: Session, n: nat)
    requires s.Inv() && Enabled(s, PeerWrite(n))
    ensures Good(s, Apply(s, PeerWrite(n)))
  {
    PeerWriteConserves(s, n);
    PeerWriteShape(s, n);
  }

  /** Every step but an interruption keeps the invariant and makes progress, whatever the order and the sizes. */
  lemma StepGood(s: Session, st: Step)
    requires s.Inv() && Enabled(s, st)
    ensures if st.PeerInterrupted? then Apply(s, st) == s else Good(s, Apply(s, st))
  {
    match st {
      case Select(sock, input) => SelectGood(s, sock, input);
      case ReadSocket(n) => ReadSocketGood(s, n);
      case WriteStdout(n) => WriteStdoutGood(s, n);
      case SkipInput => SkipInputGood(s);
      case ReadInput(n, k) => ReadInputGood(s, n, k);
      case WriteSocket(n) => WriteSocketGood(s, n);
      case Shutdown => ShutdownGood(s);
      case PeerRead(n) => PeerReadGood(s, n);
      case PeerWrite(n) => PeerWriteGood(s, n);
      case PeerInterrupted =>
    }
  }

  /** The session cannot hang: until the client has exited, the client or the server can make progress. */
  lemma NeverStuck(s: Session) returns (st: Step)
    requires s.Inv() && s.pc != Exited
    ensures Enabled(s, st) && !st.PeerInterrupted?
  {
    match s.pc {
      case Selecting =>
        if !s.eof {
          st := Select(false, true);
        } else if s.Readable() {
          st := Select(true, false);
        } else {
          st := match s.peer
            case Echoing => PeerWrite(1)
            case Receiving => PeerRead(|s.c2s|)
            case Closed => PeerInterrupted;
        }
      case Reading => st := ReadSocket(Min(|s.s2c|, s.cap));
      case Copying => st := WriteStdout(1);
      case Asking =>
        if s.inSet {
          var n := Min(|s.stdin| - s.pos, s.cap);
          LoadedHolds(s, n);
          var k := SomeStrLen(s.After(n));
          st := ReadInput(n, if s.repaired then n else k);
        } else {
          st := SkipInput;
        }
      case Sending => st := WriteSocket(1);
      case Stopping => st := Shutdown;
      case Exited => assert false;
      case Quit => assert false;
    }
  }

  // ----- runs -----

  /** Step `k` of the sequence of states is one the client or the server can take. */
  predicate StepOk(ss: seq<Session>, steps: seq<Step>, k: int)
    requires |ss| == |steps| + 1
  {
    0 <= k < |steps| ==> Enabled(ss[k], steps[k]) && ss[k + 1] == Apply(ss[k], steps[k])
  }

  ghost predicate IsRun(ss: seq<Session>, steps: seq<Step>) {
    |ss| == |steps| + 1 && ss[0].IsInit() && forall k :: StepOk(ss, steps, k)
  }

  lemma InitHolds(s: Session)
    requires s.IsInit()
    ensures s.Inv()
  {
    assert s.stdin[..0] == [];
  }

  lemma {:induction false} RunKeeps(ss: seq<Session>, steps: seq<Step>, n: nat)
    requires IsRun(ss, steps) && n <= |steps|
    ensures ss[n].Inv() && ss[n].stdin == ss[0].stdin && ss[n].repaired == ss[0].repaired
  {
    if n > 0 {
      RunKeeps(ss, steps, n - 1);
      assert StepOk(ss, steps, n - 1);
      StepGood(ss[n - 1], steps[n - 1]);
    } else {
      InitHolds(ss[0]);
    }
  }

  /** At every moment the bytes in the pipeline are the prefix of stdin read so far, and nobody quits early. */
  lemma Conservation(ss: seq<Session>, steps: seq<Step>)
    requires IsRun(ss, steps) && ss[0].repaired
    ensures var s := ss[|steps|];
            && s.pos <= |s.stdin|
            && s.stdout + s.recv + s.s2c + s.buf + s.c2s + s.toSend == s.stdin[..s.pos]
            && s.pc != Quit
  {
    RunKeeps(ss, steps, |steps|);
  }

  /**
   * At a normal exit everything the client sent has come back: with the repair that is all of stdin,
   * and as written it is all of stdin exactly if every read was free of zeros and followed by one.
   */
  lemma SessionCorrect(ss: seq<Session>, steps: seq<Step>)
    requires IsRun(ss, steps) && ss[|steps|].pc == Exited
    ensures var s := ss[|steps|];
            && s.stdin == ss[0].stdin
            && s.stdout == s.sent
            && (s.stdout == s.stdin <==> s.repaired || s.allClean)
  {
    RunKeeps(ss, steps, |steps|);
    ExitedCorrect(ss[|steps|]);
  }

  lemma ExitedCorrect(s: Session)
    requires s.Inv() && s.pc == Exited
    ensures s.stdout == s.sent && (s.stdout == s.stdin <==> s.repaired || s.allClean)
  {
    assert s.stdin[..s.pos] == s.stdin;
    assert s.stdout + [] + [] + [] + [] + [] == s.stdout;
  }

  // ----- every session can be finished -----

  /** Some run leads from `s0` to `s`. */
  ghost predicate Reach(s0: Session, s: Session) {
    exists ss, steps :: IsRun(ss, steps) && ss[0] == s0 && ss[|steps|] == s
  }

  lemma ReachNext(s0: Session, s: Session, st: Step, s': Session)
    requires Reach(s0, s) && Enabled(s, st) && s' == Apply(s, st)
    ensures Reach(s0, s') && s.Inv()
  {
    var ss, steps :| IsRun(ss, steps) && ss[0] == s0 && ss[|steps|] == s;
    RunKeeps(ss, steps, |steps|);
    var ss', steps' := ss + [s'], steps + [st];
    forall k
      ensures StepOk(ss', steps', k)
    {
      assert StepOk(ss, steps, k);
    }
    assert IsRun(ss', steps') && ss'[|steps'|] == s';
  }

  /** A read that was not clean is never made good. */
  lemma StaysUnclean(s: Session, st: Step)
    requires Enabled(s, st) && !s.allClean
    ensures !Apply(s, st).allClean
  {
  }

  /** From every state a session can get into it can go on to the normal exit. */
  lemma {:induction false} CanFinish(s0: Session, s: Session) returns (e: Session)
    requires Reach(s0, s) && s.Inv()
    ensures Reach(s0, e) && e.pc == Exited && (!s.allClean ==> !e.allClean)
    decreases s.Unread(), s.Travel()
  {
    if s.pc == Exited {
      e := s;
    } else {
      var st := NeverStuck(s);
      StepGood(s, st);
      ReachNext(s0, s, st, Apply(s, st));
      if !s.allClean {
        StaysUnclean(s, st);
      }
      e := CanFinish(s0, Apply(s, st));
    }
  }

  // ----- a session that goes wrong -----

  /** "hi" and "j", each with its newline, and the memory the program has for a line. */
  function TwoLines(): Session {
    Session(false, [104, 105, 10, 106, 10], 4, Selecting, 0, false, false, false, [0, 0, 0, 0, 0],
            [], [], [], [], false, Receiving, [], [], [], true)
  }

  /** The first line has been read, cleanly, and handed to the socket; the second is about to be read. */
  function FirstSent(): Session {
    TwoLines().(pc := Asking, pos := 3, inSet := true, mem := [104, 105, 10, 0, 0],
                c2s := [104, 105, 10], sent := [104, 105, 10])
  }

  lemma FirstRead()
    ensures Reach(TwoLines(), FirstSent().(pc := Sending, c2s := [], toSend := [104, 105, 10]))
  {
    var s0 := TwoLines();
    assert IsRun([s0], []) && Reach(s0, s0);
    var s1 := s0.(pc := Asking, inSet := true);
    ReachNext(s0, s0, Select(false, true), s1);
    var m := s1.After(3);
    assert m == [104, 105, 10, 0, 0] && m[..3] == [104, 105, 10];
    HasZeroIs(m[..3]);
    ReachNext(s0, s1, ReadInput(3, 3), Apply(s1, ReadInput(3, 3)));
  }

  lemma FirstLine()
    ensures Reach(TwoLines(), FirstSent())
  {
    FirstRead();
    var s2 := FirstSent().(pc := Sending, c2s := [], toSend := [104, 105, 10]);
    var s3 := FirstSent().(pc := Selecting);
    assert s2.toSend[..3] == s2.toSend && s2.toSend[3..] == [];
    ReachNext(TwoLines(), s2, WriteSocket(3), s3);
    ReachNext(TwoLines(), s3, Select(false, true), FirstSent());
  }

  /** Two lines typed at a terminal into zeroed memory: the second, being shorter, is sent with a stale tail. */
  lemma SecondLineIsWrong()
    ensures exists ss: seq<Session>, steps: seq<Step> ::
              IsRun(ss, steps) && !ss[0].repaired && ss[|steps|].pc == Exited && ss[|steps|].stdout != ss[0].stdin
  {
    FirstLine();
    var s0, s4 := TwoLines(), FirstSent();
    var m := s4.After(2);
    assert m == [106, 10, 10, 0, 0] && m[..3] == [106, 10, 10];
    HasZeroIs(m[..3]);
    var s5 := Apply(s4, ReadInput(2, 3));
    assert !CleanRead(m, 2) && !s5.allClean;
    ReachNext(s0, s4, ReadInput(2, 3), s5);
    StepGood(s4, ReadInput(2, 3));
    var e := CanFinish(s0, s5);
    var ss, steps :| IsRun(ss, steps) && ss[0] == s0 && ss[|steps|] == e;
    SessionCorrect(ss, steps);
    RunKeeps(ss, steps, |steps|);
  }

  // ----- why the connection is closed by halves -----

  /**
   * A client that returned at the end of stdin, instead of shutting its sending side down and reading on,
   * would leave a prefix of the output, and all of it exactly if nothing was under way at that moment.
   */
  lemma ReturnAtEnd(ss: seq<Session>, steps: seq<Step>)
    requires IsRun(ss, steps) && ss[0].repaired && ss[|steps|].pc == Stopping
    ensures var s := ss[|steps|];
            && s.stdout <= s.stdin
            && (s.stdout == s.stdin <==> s.recv == s.s2c == s.buf == s.c2s == s.toSend == [])
  {
    RunKeeps(ss, steps, |steps|);
    var s := ss[|steps|];
    var rest := s.recv + s.s2c + s.buf + s.c2s + s.toSend;
    assert s.stdin[..s.pos] == s.stdin;
    assert s.stdin == s.stdout + rest;
    assert s.stdout == s.stdin <==> |rest| == 0;
  }

  function OneByte(): Session {
    Session(true, [97], 1, Selecting, 0, false, false, false, [0, 0],
            [], [], [], [], false, Receiving, [], [], [], true)
  }

  /** The byte has been read and is about to be written. */
  function ByteRead(): Session {
    OneByte().(pc := Sending, pos := 1, inSet := true, mem := [97, 0], toSend := [97], sent := [97])
  }

  lemma ReadByte()
    ensures Reach(OneByte(), ByteRead())
  {
    var s0 := OneByte();
    assert IsRun([s0], []) && Reach(s0, s0);
    var s1 := s0.(pc := Asking, inSet := true);
    ReachNext(s0, s0, Select(false, true), s1);
    assert s1.After(1) == [97, 0] && [97, 0][..1] == [97] && !HasZero([97]);
    ReachNext(s0, s1, ReadInput(1, 1), ByteRead());
  }

  /** One byte of input, all of it still on its way when stdin ends. */
  lemma ReturnAtEndLoses()
    ensures exists ss: seq<Session>, steps: seq<Step> ::
              IsRun(ss, steps) && ss[0].repaired && ss[|steps|].pc == Stopping && ss[|steps|].stdout != ss[0].stdin
  {
    ReadByte();
    var s2 := ByteRead();
    var s3 := s2.(c2s := [97], toSend := [], pc := Selecting);
    assert s2.toSend[..1] == s2.toSend && s2.toSend[1..] == [];
    ReachNext(OneByte(), s2, WriteSocket(1), s3);
    ReachNext(OneByte(), s3, Select(false, true), s3.(pc := Asking));
    ReachNext(OneByte(), s3.(pc := Asking), ReadInput(0, 0), s3.(pc := Stopping));
  }
}
