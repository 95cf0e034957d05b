/** Reading lines byte by byte and through a private buffer: the same lines, for any chunking. */
module Lines {
  import opened Common
  import opened Stream

  /** How many bytes of the stream one line read takes: up to a newline, the end, or `maxlen - 1` bytes. */
  function LineLen(s: seq<Byte>, maxlen: nat): (k: nat)
    ensures k <= |s| && (maxlen > 0 ==> k < maxlen)
  {
    if s == [] || maxlen <= 1 then 0
    else if s[0] == NEWLINE then 1
    else 1 + LineLen(s[1..], maxlen - 1)
  }

  predicate EndsLine(s: seq<Byte>) {
    s != [] && s[|s| - 1] == NEWLINE
  }

  /** What both functions return: the bytes taken, but one more when the limit cut the line. */
  function LineCount(s: seq<Byte>, maxlen: nat): int
    requires maxlen > 0
  {
    var k := LineLen(s, maxlen);
    if EndsLine(s[..k]) || k < maxlen - 1 then k else maxlen
  }

  /** The buffer after a line read: the line, a zero, and what was there before. */
  function Stored(was: seq<Byte>, line: seq<Byte>): seq<Byte>
    requires |line| < |was|
  {
    line + [0] + was[|line| + 1..]
  }

  // ----- what a line read means -----

  /**
   * The first `n` bytes of the stream are its first line: a newline, byte 10, can only be the last of
   * them, and they stop short of one only at the end of the stream or the limit.
   */
  predicate IsLine(s: seq<Byte>, maxlen: nat, n: nat) {
    && n <= |s| && n < maxlen
    && (forall i | 0 <= i < n - 1 :: s[i] != 10)
    && ((n > 0 && s[n - 1] == 10) || n == |s| || n == maxlen - 1)
  }

  /** What is returned for a line of `n` bytes: one more where the limit cut it. */
  predicate IsCount(s: seq<Byte>, maxlen: nat, n: nat, r: int) {
    n <= |s| && r == if n == maxlen - 1 && (n == 0 || s[n - 1] != 10) then maxlen else n
  }

  lemma OneLine(s: seq<Byte>, maxlen: nat, n: nat, m: nat)
    requires IsLine(s, maxlen, n) && IsLine(s, maxlen, m)
    ensures n == m
  {
  }

  /** What a line read takes is the first line, of which there is exactly one. */
  lemma {:induction false} LineShape(s: seq<Byte>, maxlen: nat, n: nat)
    requires maxlen > 0
    ensures IsLine(s, maxlen, n) <==> n == LineLen(s, maxlen)
  {
    var k := LineLen(s, maxlen);
    if s != [] && maxlen > 1 && s[0] != 10 {
      LineShape(s[1..], maxlen - 1, k - 1);
      assert forall i | 0 < i < k - 1 :: s[i] == s[1..][i - 1];
      assert k > 1 ==> s[1..][k - 2] == s[k - 1];
    }
    assert IsLine(s, maxlen, k);
    if IsLine(s, maxlen, n) {
      OneLine(s, maxlen, n, k);
    }
  }

  lemma CountShape(s: seq<Byte>, maxlen: nat)
    requires maxlen > 0
    ensures IsCount(s, maxlen, LineLen(s, maxlen), LineCount(s, maxlen))
  {
    var k := LineLen(s, maxlen);
    assert k > 0 ==> s[..k][k - 1] == s[k - 1];
  }

  /** The line stops at the first newline if that is within the limit, and otherwise at the limit or the end. */
  lemma LineStops(s: seq<Byte>, maxlen: nat, i: nat)
    requires i <= |s| && forall j | 0 <= j < i :: s[j] != 10
    ensures i + 1 < maxlen && i < |s| && s[i] == 10 ==> LineLen(s, maxlen) == i + 1
    ensures maxlen > 0 && (i + 1 >= maxlen || i == |s|) ==> LineLen(s, maxlen) == Min(|s|, maxlen - 1)
  {
    if i + 1 < maxlen && i < |s| && s[i] == 10 {
      LineShape(s, maxlen, i + 1);
    } else if maxlen > 0 && (i + 1 >= maxlen || i == |s|) {
      LineShape(s, maxlen, Min(|s|, maxlen - 1));
    }
  }

  /** A line read of `s` has taken `n` bytes, returned `r` and left the line and a zero in the buffer. */
  predicate LineRead(s: seq<Byte>, maxlen: nat, n: nat, r: int, was: seq<Byte>, now: seq<Byte>) {
    && IsLine(s, maxlen, n) && IsCount(s, maxlen, n, r)
    && n < |was| == |now|
    && (forall i | 0 <= i < n :: now[i] == s[i]) && now[n] == 0 && (forall i | n < i < |was| :: now[i] == was[i])
  }

  lemma LineIsRead(s: seq<Byte>, maxlen: nat, was: seq<Byte>)
    requires 0 < maxlen <= |was|
    ensures LineRead(s, maxlen, LineLen(s, maxlen), LineCount(s, maxlen), was, Stored(was, s[..LineLen(s, maxlen)]))
  {
    LineShape(s, maxlen, LineLen(s, maxlen));
    CountShape(s, maxlen);
  }

  /**
   * What a caller can tell from the count alone: `maxlen` is returned exactly when the limit was reached
   * without a newline, 0 exactly at the end of the stream, and otherwise the line is complete or the last.
   */
  lemma CountTells(s: seq<Byte>, maxlen: nat)
    requires maxlen > 0
    ensures var n, count := LineLen(s, maxlen), LineCount(s, maxlen);
            && (count == maxlen <==> |s| >= maxlen - 1 && 10 !in s[..maxlen - 1])
            && (count == 0 <==> s == [] && maxlen > 1)
            && n == (if count == maxlen then maxlen - 1 else count)
            && (count < maxlen ==> (n > 0 && s[n - 1] == 10) || n == |s|)
  {
    var n := LineLen(s, maxlen);
    LineShape(s, maxlen, n);
    CountShape(s, maxlen);
    if |s| >= maxlen - 1 {
      assert forall i | 0 <= i < n :: s[i] in s[..maxlen - 1];
    }
  }

  datatype Line = Line(bytes: seq<Byte>, count: int)

  /** The first `k` lines of a stream. */
  function FirstLines(s: seq<Byte>, maxlen: nat, k: nat): seq<Line>
    requires maxlen > 0
  {
    if k == 0 then []
    else
      var n := LineLen(s, maxlen);
      [Line(s[..n], LineCount(s, maxlen))] + FirstLines(s[n..], maxlen, k - 1)
  }

  function AfterLines(s: seq<Byte>, maxlen: nat, k: nat): seq<Byte>
    requires maxlen > 0
  {
    if k == 0 then s else AfterLines(s[LineLen(s, maxlen)..], maxlen, k - 1)
  }

  function Joined(lines: seq<Line>): seq<Byte> {
    if lines == [] then [] else lines[0].bytes + Joined(lines[1..])
  }

  lemma ConserveStep(s: seq<Byte>, n: nat, line: Line, lines: seq<Line>, rest: seq<Byte>)
    requires n <= |s| && line.bytes == s[..n] && Joined(lines) + rest == s[n..]
    ensures Joined([line] + lines) + rest == s
  {
    assert ([line] + lines)[1..] == lines;
    assert Joined([line] + lines) + rest == line.bytes + (Joined(lines) + rest);
    assert s == s[..n] + s[n..];
  }

  /** Nothing is lost and nothing invented: the lines and the unread rest make up the stream. */
  lemma {:induction false} LinesConserve(s: seq<Byte>, maxlen: nat, k: nat)
    requires maxlen > 0
    ensures Joined(FirstLines(s, maxlen, k)) + AfterLines(s, maxlen, k) == s
  {
    if k > 0 {
      var n := LineLen(s, maxlen);
      LinesConserve(s[n..], maxlen, k - 1);
      ConserveStep(s, n, Line(s[..n], LineCount(s, maxlen)), FirstLines(s[n..], maxlen, k - 1),
                   AfterLines(s[n..], maxlen, k - 1));
    }
  }

  /** As many calls as there are bytes read the whole stream, unless the limit leaves room for none. */
  lemma {:induction false} WholeStream(s: seq<Byte>, maxlen: nat, k: nat)
    requires maxlen > 1 && k >= |s|
    ensures AfterLines(s, maxlen, k) == [] && Joined(FirstLines(s, maxlen, k)) == s
  {
    if k > 0 {
      WholeStream(s[LineLen(s, maxlen)..], maxlen, k - 1);
    }
    LinesConserve(s, maxlen, k);
    assert Joined(FirstLines(s, maxlen, k)) + [] == Joined(FirstLines(s, maxlen, k));
  }

  lemma {:induction false} LinesNext(s: seq<Byte>, maxlen: nat, k: nat)
    requires maxlen > 0
    ensures var rest := AfterLines(s, maxlen, k);
            && FirstLines(s, maxlen, k + 1)
               == FirstLines(s, maxlen, k) + [Line(rest[..LineLen(rest, maxlen)], LineCount(rest, maxlen))]
            && AfterLines(s, maxlen, k + 1) == rest[LineLen(rest, maxlen)..]
  {
    var n := LineLen(s, maxlen);
    if k > 0 {
      LinesNext(s[n..], maxlen, k - 1);
      assert FirstLines(s, maxlen, k) == [Line(s[..n], LineCount(s, maxlen))] + FirstLines(s[n..], maxlen, k - 1);
    } else {
      assert FirstLines(s, maxlen, 1) == [Line(s[..n], LineCount(s, maxlen))] + FirstLines(s[n..], maxlen, 0);
    }
  }

  /** The lines are the stream cut up one line after the other, and `rest` is what is left of it. */
  predicate CutUp(s: seq<Byte>, maxlen: nat, lines: seq<Line>, rest: seq<Byte>) {
    if lines == [] then rest == s
    else
      var n := |lines[0].bytes|;
      && IsLine(s, maxlen, n) && IsCount(s, maxlen, n, lines[0].count) && lines[0].bytes == s[..n]
      && CutUp(s[n..], maxlen, lines[1..], rest)
  }

  lemma CutOne(s: seq<Byte>, maxlen: nat, line: Line, lines: seq<Line>, rest: seq<Byte>)
    requires IsLine(s, maxlen, |line.bytes|) && IsCount(s, maxlen, |line.bytes|, line.count)
    requires line.bytes == s[..|line.bytes|] && CutUp(s[|line.bytes|..], maxlen, lines, rest)
    ensures CutUp(s, maxlen, [line] + lines, rest)
  {
    assert ([line] + lines)[1..] == lines;
  }

  lemma {:induction false} LinesCutUp(s: seq<Byte>, maxlen: nat, k: nat)
    requires maxlen > 0
    ensures |FirstLines(s, maxlen, k)| == k && CutUp(s, maxlen, FirstLines(s, maxlen, k), AfterLines(s, maxlen, k))
  {
    if k > 0 {
      LineShape(s, maxlen, LineLen(s, maxlen));
      CountShape(s, maxlen);
      var n := LineLen(s, maxlen);
      LinesCutUp(s[n..], maxlen, k - 1);
      var line, later := Line(s[..n], LineCount(s, maxlen)), FirstLines(s[n..], maxlen, k - 1);
      CutOne(s, maxlen, line, later, AfterLines(s, maxlen, k));
    }
  }

  // ----- one byte per call -----

  /** `read(fd, &c, 1)`. */
  method ReadByte(fd: Source) returns (r: Result, c: Byte)
    modifies fd
    ensures fd.script == if old(fd.script) == [] then [] else old(fd.script)[1..]
    ensures r.Moved? ==> r.n <= 1 && (r.n == 0 <==> old(fd.rest) == [])
    ensures r == Moved(1) ==> c == old(fd.rest)[0] && fd.rest == old(fd.rest)[1..]
    ensures r != Moved(1) ==> fd.rest == old(fd.rest)
    ensures !r.Moved? ==> |fd.script| < |old(fd.script)|
    ensures r.Fail? <==> old(fd.script) != [] && old(fd.script)[0].Broken?
    ensures r.Eintr? <==> old(fd.script) != [] && old(fd.script)[0].Interrupted?
  {
    var buf := new Byte[1](_ => 0);
    r := fd.Read(buf, 0, 1);
    c := buf[0];
    if r == Moved(1) {
      assert buf[..][0] == c;
    }
  }

  method Put(buf: array<Byte>, k: nat, b: Byte)
    requires k < buf.Length
    modifies buf
    ensures buf[..k] == old(buf[..k]) && buf[k] == b && buf[k + 1..] == old(buf[k + 1..])
  {
    buf[k] := b;
  }

  /** `d` holds the first `k` bytes of `s`, and what was there before after them. */
  ghost predicate Copied(d: seq<Byte>, s: seq<Byte>, k: nat, was: seq<Byte>) {
    k <= |s| && k <= |d| == |was| && d[..k] == s[..k] && d[k..] == was[k..]
  }

  lemma StoreByte(d: seq<Byte>, d': seq<Byte>, s: seq<Byte>, k: nat, was: seq<Byte>)
    requires Copied(d, s, k, was) && k < |s| && k < |d| == |d'|
    requires d'[..k] == d[..k] && d'[k] == s[k] && d'[k + 1..] == d[k + 1..]
    ensures Copied(d', s, k + 1, was)
  {
    assert d'[..k + 1] == d'[..k] + [s[k]] && d[k + 1..] == d[k..][1..] == was[k + 1..];
  }

  lemma Terminate(d: seq<Byte>, d': seq<Byte>, s: seq<Byte>, k: nat, was: seq<Byte>)
    requires Copied(d, s, k, was) && k < |d| == |d'|
    requires d'[..k] == d[..k] && d'[k] == 0 && d'[k + 1..] == d[k + 1..]
    ensures d' == Stored(was, s[..k])
  {
    assert d[k + 1..] == d[k..][1..] == was[k + 1..];
    assert d' == d'[..k] + [0] + d'[k + 1..];
  }

  /** `*ptr++ = c`. */
  method Store(buf: array<Byte>, k: nat, c: Byte, ghost s: seq<Byte>, ghost was: seq<Byte>)
    requires k < buf.Length && k < |s| && c == s[k] && Copied(buf[..], s, k, was)
    modifies buf
    ensures Copied(buf[..], s, k + 1, was)
  {
    ghost var b := buf[..];
    Put(buf, k, c);
    StoreByte(b, buf[..], s, k, was);
  }

  /** `*ptr = 0`. */
  method Finish(buf: array<Byte>, k: nat, ghost s: seq<Byte>, ghost was: seq<Byte>)
    requires k < buf.Length && Copied(buf[..], s, k, was)
    modifies buf
    ensures buf[..] == Stored(was, s[..k])
  {
    ghost var b := buf[..];
    Put(buf, k, 0);
    Terminate(b, buf[..], s, k, was);
  }

  /** A call of one byte each fails before the line is complete. */
  predicate LineFails(script: seq<Event>, s: seq<Byte>, maxlen: nat) {
    maxlen > 1 && script != []
    && match script[0]
       case Broken => true
       case Interrupted => LineFails(script[1..], s, maxlen)
       case Upto(_) => s != [] && s[0] != 10 && LineFails(script[1..], s[1..], maxlen - 1)
  }

  method ReadlineV1(fd: Source, buf: array<Byte>, maxlen: nat) returns (r: int, ghost taken: nat)
    requires 0 < maxlen <= buf.Length
    modifies fd, buf
    ensures Quiet(old(fd.script)) ==> Quiet(fd.script) && r != -1
    ensures taken <= |old(fd.rest)| && fd.rest == old(fd.rest)[taken..]
    ensures r != -1 ==> r == LineCount(old(fd.rest), maxlen) && taken == LineLen(old(fd.rest), maxlen)
    ensures r != -1 ==> buf[..] == Stored(old(buf[..]), old(fd.rest)[..taken])
    ensures r != -1 ==> LineRead(old(fd.rest), maxlen, taken, r, old(buf[..]), buf[..])
    ensures r == -1 <==> LineFails(old(fd.script), old(fd.rest), maxlen)
  {
    ghost var s, was := fd.rest, buf[..];
    var n, ptr := 1, 0;
    var newline, eof := false, false;
    while n < maxlen && !newline && !eof
      invariant n == (if newline then ptr else ptr + 1) <= maxlen
      invariant Taking(s, ptr, maxlen, fd.rest, newline) && Copied(buf[..], s, ptr, was)
      invariant Quiet(old(fd.script)) ==> Quiet(fd.script)
      invariant eof ==> !newline && n < maxlen && ptr == |s|
      invariant LineFails(old(fd.script), s, maxlen)
           <==> !newline && !eof && LineFails(fd.script, fd.rest, maxlen - ptr)
      decreases maxlen - n, !newline, !eof, |fd.script|
    {
      ghost var rest := fd.rest;
      var rc, c := ReadByte(fd);
      match rc {
        case Eintr =>
        case Fail =>
          return -1, ptr;
        case Moved(k) =>
          if k == 0 {
            eof := true;
          } else {
            ByteTaken(s, ptr, maxlen, rest, fd.rest);
            Store(buf, ptr, c, s, was);
            ptr := ptr + 1;
            newline := c == NEWLINE;
            n := if newline then n else n + 1;
          }
      }
    }
    EndLine(buf, ptr, newline, s, maxlen, fd.rest, was);
    r, taken := if eof then n - 1 else n, ptr;
  }

  // ----- what a line read has established after `k` bytes -----

  predicate NoNewline(s: seq<Byte>, k: int) {
    k <= |s| && forall i | 0 <= i < k :: s[i] != 10
  }

  /** The line is complete: its last byte, just taken, is a newline. */
  predicate Ended(s: seq<Byte>, k: nat, maxlen: nat, rest: seq<Byte>) {
    0 < k <= |s| && k < maxlen && rest == s[k..] && NoNewline(s, k - 1) && s[k - 1] == 10
  }

  /** `k` bytes of the line have been taken and the line goes on; `rest` is what is left of the stream. */
  predicate Partial(s: seq<Byte>, k: nat, maxlen: nat, rest: seq<Byte>) {
    k <= |s| && k < maxlen && rest == s[k..] && NoNewline(s, k)
  }

  predicate Taking(s: seq<Byte>, k: nat, maxlen: nat, rest: seq<Byte>, newline: bool) {
    if newline then Ended(s, k, maxlen, rest) else Partial(s, k, maxlen, rest)
  }

  lemma ByteTaken(s: seq<Byte>, k: nat, maxlen: nat, rest: seq<Byte>, rest': seq<Byte>)
    requires Partial(s, k, maxlen, rest) && k + 1 < maxlen && rest != [] && rest' == rest[1..]
    ensures k < |s| && rest[0] == s[k] && Taking(s, k + 1, maxlen, rest', s[k] == 10)
  {
    assert s[k..][1..] == s[k + 1..];
  }

  /** The line ends at a newline, at the end of the stream, or where there is no more room. */
  lemma LineDone(s: seq<Byte>, k: nat, maxlen: nat, rest: seq<Byte>, newline: bool)
    requires Taking(s, k, maxlen, rest, newline) && (newline || k == |s| || k == maxlen - 1)
    ensures k == LineLen(s, maxlen)
    ensures LineCount(s, maxlen) == if !newline && k == maxlen - 1 then maxlen else k
  {
    LineShape(s, maxlen, k);
    CountShape(s, maxlen);
    assert !newline && k > 0 ==> s[k - 1] != 10;
  }

  /** The zero after the line, whose count is then known. */
  method EndLine(buf: array<Byte>, k: nat, newline: bool, ghost s: seq<Byte>, ghost maxlen: nat, ghost rest: seq<Byte>,
                 ghost was: seq<Byte>)
    requires Taking(s, k, maxlen, rest, newline) && (newline || k == |s| || k == maxlen - 1)
    requires maxlen <= buf.Length && Copied(buf[..], s, k, was)
    modifies buf
    ensures k == LineLen(s, maxlen) && rest == s[k..] && buf[..] == Stored(was, s[..k])
    ensures LineCount(s, maxlen) == if !newline && k == maxlen - 1 then maxlen else k
    ensures LineRead(s, maxlen, k, LineCount(s, maxlen), was, buf[..])
  {
    LineDone(s, k, maxlen, rest, newline);
    Finish(buf, k, s, was);
    LineIsRead(s, maxlen, was);
  }

  /** The same for a pointer that has not moved. */
  method EndAsWritten(buf: array<Byte>, ghost k: nat, newline: bool, ghost s: seq<Byte>, ghost maxlen: nat,
                      ghost rest: seq<Byte>, ghost was: seq<Byte>)
    requires Taking(s, k, maxlen, rest, newline) && (newline || k == |s| || k == maxlen - 1)
    requires buf.Length == |was| > 0 && buf[1..] == was[1..]
    modifies buf
    ensures k == LineLen(s, maxlen) && rest == s[k..] && buf[..] == Stored(was, [])
    ensures LineCount(s, maxlen) == if !newline && k == maxlen - 1 then maxlen else k
    ensures IsLine(s, maxlen, k) && IsCount(s, maxlen, k, LineCount(s, maxlen))
  {
    LineDone(s, k, maxlen, rest, newline);
    LineShape(s, maxlen, k);
    CountShape(s, maxlen);
    Put(buf, 0, 0);
    Zeroed(was, buf[..]);
  }

  // ----- a private buffer -----

  /** The next call that is not interrupted fails. */
  predicate NextFails(script: seq<Event>) {
    script != [] && (script[0].Broken? || (script[0].Interrupted? && NextFails(script[1..])))
  }

  /**
   * The buffer has to be filled, and that fails, before the line at the front of `s` is complete. The
   * line read has got to place `k`; the next `have` bytes are in the buffer, which has room for `size`.
   */
  predicate BufferedFails(script: seq<Event>, s: seq<Byte>, k: nat, have: nat, size: nat, maxlen: nat)
    requires k + have <= |s|
    decreases |script| + maxlen - k
  {
    if maxlen <= k + 1 then false
    else if have > 0 then s[k] != 10 && BufferedFails(script, s, k + 1, have - 1, size, maxlen)
    else
      script != []
      && match script[0]
         case Broken => true
         case Interrupted => BufferedFails(script[1..], s, k, 0, size, maxlen)
         case Upto(_) =>
           k < |s| && BufferedFails(script[1..], s, k, Amount(script, Min(size, |s| - k)), size, maxlen)
  }

  lemma {:induction false} NoCallsFail(s: seq<Byte>, k: nat, have: nat, size: nat, maxlen: nat)
    requires k + have <= |s|
    ensures !BufferedFails([], s, k, have, size, maxlen)
    decreases have
  {
    if have > 0 {
      NoCallsFail(s, k + 1, have - 1, size, maxlen);
    }
  }

  class LineReader {
    const fd: Source
    const buf: array<Byte>
    var cnt: int
    var ptr: nat

    /** The stream as the caller still has to see it: what is buffered, then what was not read yet. */
    ghost var remaining: seq<Byte>

    ghost predicate Valid()
      reads this, buf, fd
    {
      && buf.Length > 0
      && (cnt > 0 ==> ptr + cnt <= buf.Length)
      && remaining == Pending() + fd.rest
    }

    /** Bytes read from the descriptor and not yet delivered. */
    ghost function Pending(): seq<Byte>
      requires cnt > 0 ==> ptr + cnt <= buf.Length
      reads this, buf
    {
      if cnt > 0 then buf[ptr..ptr + cnt] else []
    }

    /** The read of the line at the front of `s`, having got to place `k`, comes upon a failure. */
    ghost predicate WillFail(s: seq<Byte>, k: nat, maxlen: nat)
      requires Valid() && k <= |s| && remaining == s[k..]
      reads this, buf, fd
    {
      BufferedFails(fd.script, s, k, |Pending()|, buf.Length, maxlen)
    }

    constructor (fd: Source, size: nat)
      requires size > 0
      ensures Valid() && this.fd == fd && fresh(buf) && buf.Length == size && cnt == 0
      ensures remaining == fd.rest
    {
      this.fd, remaining := fd, fd.rest;
      buf := new Byte[size](_ => 0);
      cnt, ptr := 0, 0;
    }

    /** The retry loop: fills the buffer, or finds the end (0), or fails (-1). */
    method Fill(ghost s: seq<Byte>, ghost k: nat, ghost maxlen: nat)
      requires Valid() && cnt <= 0 && k <= |s| && remaining == s[k..] && k + 1 < maxlen
      modifies this`cnt, this`ptr, buf, fd
      ensures Valid() && -1 <= cnt && remaining == old(remaining)
      ensures Quiet(old(fd.script)) ==> Quiet(fd.script)
      ensures cnt == -1 <==> NextFails(old(fd.script))
      ensures cnt == -1 ==> !Quiet(old(fd.script))
      ensures old(WillFail(s, k, maxlen)) <==> cnt == -1 || (cnt > 0 && WillFail(s, k, maxlen))
      ensures cnt == 0 ==> remaining == []
      ensures cnt > 0 ==> ptr == 0
    {
      ghost var fd0 := fd.rest;
      while true
        invariant fd.rest == fd0 && NextFails(fd.script) == NextFails(old(fd.script))
        invariant Quiet(old(fd.script)) ==> Quiet(fd.script)
        invariant BufferedFails(fd.script, s, k, 0, buf.Length, maxlen) <==> old(WillFail(s, k, maxlen))
        decreases |fd.script|
      {
        var r := fd.Read(buf, 0, buf.Length);
        match r {
          case Eintr =>
          case Fail =>
            cnt := -1;
            return;
          case Moved(n) =>
            cnt, ptr := n, 0;
            NoCallsFail(s, k, n, buf.Length, maxlen);
            assert Pending() == fd0[..n];
            return;
        }
      }
    }

    /**
     * One byte from the buffer. When the descriptor fails, the repaired function reports it; the
     * function as written carries on, delivers a byte that was never read and leaves a count of -2.
     */
    method MyRead(repaired: bool, ghost s: seq<Byte>, ghost k: nat, ghost maxlen: nat)
      returns (rc: int, c: Byte, ghost failed: bool)
      requires Valid() && k <= |s| && remaining == s[k..] && k + 1 < maxlen
      modifies this, buf, fd
      ensures Valid() && (Quiet(old(fd.script)) ==> Quiet(fd.script))
      ensures failed <==> old(cnt) <= 0 && NextFails(old(fd.script))
      ensures failed ==> !Quiet(old(fd.script))
      ensures failed ==> remaining == old(remaining) && (if repaired then rc == -1 else rc == 1 && cnt == -2)
      ensures !failed ==> cnt >= 0 && rc == if old(remaining) == [] then 0 else 1
      ensures !failed && rc == 1 ==> c == old(remaining)[0] && remaining == old(remaining)[1..]
      ensures !failed && rc == 0 ==> remaining == []
      ensures !failed && rc == 1 ==> k < |s| && remaining == s[k + 1..]
      ensures old(WillFail(s, k, maxlen)) <==> failed || (rc == 1 && c != 10 && WillFail(s, k + 1, maxlen))
    {
      failed := false;
      if cnt <= 0 {
        Fill(s, k, maxlen);
        failed := cnt == -1;
        if cnt < 0 {
          if repaired {
            return -1, 0, true;
          }
        } else if cnt == 0 {
          return 0, 0, false;
        }
        ptr := 0;
      }
      c := Deliver();
      rc := 1;
    }

    /** The last three lines of `my_read`, which do not ask whether there is anything in the buffer. */
    method Deliver() returns (c: Byte)
      requires Valid() && cnt != 0 && ptr < buf.Length
      modifies this
      ensures Valid() && cnt == old(cnt) - 1
      ensures old(cnt) > 0 ==> old(remaining) != [] && c == old(remaining)[0] && remaining == old(remaining)[1..]
      ensures old(cnt) > 0 ==> Pending() == old(Pending())[1..] && c == old(Pending())[0]
      ensures old(cnt) < 0 ==> remaining == old(remaining)
    {
      if cnt > 0 {
        assert Pending()[0] == buf[ptr] && Pending()[1..] == buf[ptr + 1..ptr + cnt];
        remaining := remaining[1..];
      }
      cnt := cnt - 1;
      c := buf[ptr];
      ptr := ptr + 1;
    }

    /** `readlinebuf_v3`: the buffer's count, and where in the buffer its bytes start. */
    method Buffered() returns (n: int, start: nat)
      requires Valid()
      ensures n == cnt
      ensures n > 0 ==> start + n <= buf.Length && buf[start..start + n] == Pending()
      ensures n == 0 ==> Pending() == []
    {
      start := if cnt != 0 then ptr else 0;
      n := cnt;
    }

    /** One round of the loop: a byte of the line, or the end of the stream (0), or a failure (-1). */
    method NextInLine(repaired: bool, ghost s: seq<Byte>, ghost k: nat, ghost maxlen: nat)
      returns (rc: int, c: Byte, newline: bool)
      requires Valid() && k + 1 < maxlen && Partial(s, k, maxlen, remaining) && (repaired || Quiet(fd.script))
      modifies this, buf, fd
      ensures Valid() && (rc == -1 || rc == 0 || rc == 1)
      ensures Quiet(old(fd.script)) ==> Quiet(fd.script) && rc != -1
      ensures rc == 1 ==> k < |s| && c == s[k] && Taking(s, k + 1, maxlen, remaining, newline)
      ensures rc != 1 ==> !newline && Partial(s, k, maxlen, remaining)
      ensures rc == 0 ==> k == |s|
      ensures old(WillFail(s, k, maxlen)) <==> rc == -1 || (rc == 1 && !newline && WillFail(s, k + 1, maxlen))
    {
      ghost var rest := remaining;
      ghost var failed: bool;
      rc, c, failed := MyRead(repaired, s, k, maxlen);
      newline := rc == 1 && c == NEWLINE;
      if rc == 1 {
        ByteTaken(s, k, maxlen, rest, remaining);
      }
    }

    /** The same, with the byte stored where it belongs. */
    method NextIntoLine(dst: array<Byte>, k: nat, ghost maxlen: nat, ghost s: seq<Byte>, ghost was: seq<Byte>)
      returns (rc: int, newline: bool)
      requires Valid() && dst != buf && k + 1 < maxlen <= dst.Length
      requires Partial(s, k, maxlen, remaining) && Copied(dst[..], s, k, was)
      modifies this, buf, fd, dst
      ensures Valid() && (rc == -1 || rc == 0 || rc == 1) && (rc != 1 ==> !newline)
      ensures Quiet(old(fd.script)) ==> Quiet(fd.script) && rc != -1
      ensures Taking(s, if rc == 1 then k + 1 else k, maxlen, remaining, newline)
      ensures Copied(dst[..], s, if rc == 1 then k + 1 else k, was)
      ensures rc == 0 ==> k == |s|
      ensures old(WillFail(s, k, maxlen)) <==> rc == -1 || (rc == 1 && !newline && WillFail(s, k + 1, maxlen))
    {
      ghost var d := dst[..];
      var c: Byte;
      rc, c, newline := NextInLine(true, s, k, maxlen);
      assert dst[..] == d;
      if rc == 1 {
        Store(dst, k, c, s, was);
      }
    }

    /** The loop of the line read: `k` bytes of the line, the count so far, and how it ended. */
    method TakeLine(dst: array<Byte>, maxlen: nat, ghost was: seq<Byte>)
      returns (n: nat, k: nat, newline: bool, rc: int)
      requires Valid() && 0 < maxlen <= dst.Length && dst != buf && was == dst[..]
      modifies this, buf, fd, dst
      ensures Valid() && (Quiet(old(fd.script)) ==> Quiet(fd.script) && rc != -1)
      ensures n == (if newline then k else k + 1) <= maxlen
      ensures Taking(old(remaining), k, maxlen, remaining, newline) && Copied(dst[..], old(remaining), k, was)
      ensures if rc == 1 then newline || n == maxlen else !newline && n < maxlen && (rc == 0 || rc == -1)
      ensures rc == 0 ==> k == |old(remaining)|
      ensures rc == -1 <==> old(WillFail(remaining, 0, maxlen))
    {
      ghost var s := remaining;
      n, k, newline, rc := 1, 0, false, 1;
      while n < maxlen && !newline && rc == 1
        invariant Valid() && (Quiet(old(fd.script)) ==> Quiet(fd.script) && rc != -1)
        invariant n == (if newline then k else k + 1) <= maxlen
        invariant Taking(s, k, maxlen, remaining, newline)
        invariant Copied(dst[..], s, k, was)
        invariant rc != 1 ==> !newline && n < maxlen && (rc == 0 || rc == -1)
        invariant rc == 0 ==> k == |s|
        invariant old(WillFail(remaining, 0, maxlen)) <==> rc == -1 || (rc == 1 && !newline && WillFail(s, k, maxlen))
        decreases maxlen - n, !newline, rc
      {
        rc, newline := NextIntoLine(dst, k, maxlen, s, was);
        if rc == 1 {
          k := k + 1;
          n := if newline then n else n + 1;
        }
      }
    }

    /**
     * The buffered line read with both repairs: the pointer advances, and a failed read is reported.
     * Whatever happens, `taken` bytes have left the stream and the rest is still to come.
     */
    method ReadlineV3(dst: array<Byte>, maxlen: nat) returns (r: int, ghost taken: nat)
      requires Valid() && 0 < maxlen <= dst.Length && dst != buf
      modifies this, buf, fd, dst
      ensures Valid() && (Quiet(old(fd.script)) ==> Quiet(fd.script) && r != -1)
      ensures taken <= |old(remaining)| && remaining == old(remaining)[taken..]
      ensures r != -1 ==> r == LineCount(old(remaining), maxlen) && taken == LineLen(old(remaining), maxlen)
      ensures r != -1 ==> dst[..] == Stored(old(dst[..]), old(remaining)[..taken])
      ensures r != -1 ==> LineRead(old(remaining), maxlen, taken, r, old(dst[..]), dst[..])
      ensures r == -1 <==> old(WillFail(remaining, 0, maxlen))
    {
      ghost var s, was := remaining, dst[..];
      var n, ptr, newline, rc := TakeLine(dst, maxlen, was);
      if rc == -1 {
        return -1, ptr;
      }
      EndLine(dst, ptr, newline, s, maxlen, remaining, was);
      r, taken := if rc == 0 then n - 1 else n, ptr;
    }

    /** One round as written: whatever the byte, it goes to the front of the buffer. */
    method NextAsWritten(dst: array<Byte>, ghost k: nat, ghost maxlen: nat, ghost s: seq<Byte>)
      returns (rc: int, newline: bool)
      requires Valid() && dst != buf && k + 1 < maxlen <= dst.Length
      requires Partial(s, k, maxlen, remaining) && Quiet(fd.script)
      modifies this, buf, fd, dst
      ensures Valid() && (rc == 0 || rc == 1) && (rc != 1 ==> !newline)
      ensures Quiet(fd.script) && dst[1..] == old(dst[1..])
      ensures Taking(s, if rc == 1 then k + 1 else k, maxlen, remaining, newline)
      ensures rc == 0 ==> k == |s|
    {
      ghost var d := dst[1..];
      var c: Byte;
      rc, c, newline := NextInLine(false, s, k, maxlen);
      assert dst[1..] == d;
      if rc == 1 {
        Put(dst, 0, c);
      }
    }

    /** The loop as written. */
    method TakeAsWritten(dst: array<Byte>, maxlen: nat) returns (n: nat, ghost k: nat, newline: bool, rc: int)
      requires Valid() && 0 < maxlen <= dst.Length && dst != buf && Quiet(fd.script)
      modifies this, buf, fd, dst
      ensures Valid() && Quiet(fd.script) && dst[1..] == old(dst[1..])
      ensures n == (if newline then k else k + 1) <= maxlen && Taking(old(remaining), k, maxlen, remaining, newline)
      ensures rc == 0 || (rc == 1 && (newline || n == maxlen))
      ensures rc == 0 ==> !newline && n < maxlen && k == |old(remaining)|
    {
      ghost var s, was := remaining, dst[1..];
      n, k, newline, rc := 1, 0, false, 1;
      while n < maxlen && !newline && rc == 1
        invariant Valid() && Quiet(fd.script) && dst[1..] == was
        invariant n == (if newline then k else k + 1) <= maxlen && Taking(s, k, maxlen, remaining, newline)
        invariant rc == 0 || rc == 1
        invariant rc == 0 ==> !newline && n < maxlen && k == |s|
        decreases maxlen - n, !newline, rc
      {
        rc, newline := NextAsWritten(dst, k, maxlen, s);
        if rc == 1 {
          k := k + 1;
          n := if newline then n else n + 1;
        }
      }
    }

    /**
     * The function as written never advances its output pointer. As long as the descriptor does not
     * fail it takes the same bytes and returns the same count, but it leaves nothing but a zero in the
     * caller's buffer.
     */
    method ReadlineV3AsWritten(dst: array<Byte>, maxlen: nat) returns (r: int)
      requires Valid() && 0 < maxlen <= dst.Length && dst != buf
      requires Quiet(fd.script)
      modifies this, buf, fd, dst
      ensures Valid() && Quiet(fd.script)
      ensures r == LineCount(old(remaining), maxlen)
      ensures remaining == old(remaining)[LineLen(old(remaining), maxlen)..]
      ensures IsLine(old(remaining), maxlen, |old(remaining)| - |remaining|)
      ensures IsCount(old(remaining), maxlen, |old(remaining)| - |remaining|, r)
      ensures dst[..] == Stored(old(dst[..]), [])
    {
      ghost var s, was := remaining, dst[..];
      ghost var taken;
      var n, newline, rc;
      n, taken, newline, rc := TakeAsWritten(dst, maxlen);
      EndAsWritten(dst, taken, newline, s, maxlen, remaining, was);
      r := if rc == 0 then n - 1 else n;
    }
  }

  lemma Zeroed(was: seq<Byte>, d: seq<Byte>)
    requires |d| == |was| > 0 && d[0] == 0 && d[1..] == was[1..]
    ensures d == Stored(was, [])
  {
    assert Stored(was, []) == [0] + was[1..];
  }

  /** The text a caller sees in a buffer: the bytes before the first zero. */
  function CString(s: seq<Byte>): seq<Byte> {
    if s == [] || s[0] == 0 then [] else [s[0]] + CString(s[1..])
  }

  /** The line read as written delivers the right text exactly when there is no text to deliver. */
  lemma AsWrittenDelivers(was: seq<Byte>, line: seq<Byte>)
    requires |line| < |was|
    ensures CString(Stored(was, [])) == CString(Stored(was, line)) <==> line == [] || line[0] == 0
  {
    assert Stored(was, [])[0] == 0;
    assert line != [] ==> Stored(was, line)[0] == line[0];
  }

  // ----- call after call -----

  /** The length of the stored line, as a caller can tell it from the returned count. */
  function StoredLength(count: int, maxlen: nat): int {
    if count == maxlen then maxlen - 1 else count
  }

  method LinesV1(fd: Source, maxlen: nat, k: nat) returns (lines: seq<Line>)
    requires maxlen > 0 && Quiet(fd.script)
    modifies fd
    ensures lines == FirstLines(old(fd.rest), maxlen, k) && fd.rest == AfterLines(old(fd.rest), maxlen, k)
    ensures |lines| == k && CutUp(old(fd.rest), maxlen, lines, fd.rest)
  {
    ghost var s := fd.rest;
    lines := [];
    for i := 0 to k
      invariant lines == FirstLines(s, maxlen, i) && fd.rest == AfterLines(s, maxlen, i) && Quiet(fd.script)
    {
      LinesNext(s, maxlen, i);
      var buf := new Byte[maxlen](_ => 0);
      ghost var line := fd.rest[..LineLen(fd.rest, maxlen)];
      var count, taken := ReadlineV1(fd, buf, maxlen);
      assert buf[..][..|line|] == line;
      lines := lines + [Line(buf[..StoredLength(count, maxlen)], count)];
    }
    LinesCutUp(s, maxlen, k);
  }

  /** The same lines and counts, call after call, whatever the size of the private buffer and the chunks. */
  method LinesV3(reader: LineReader, maxlen: nat, k: nat) returns (lines: seq<Line>)
    requires reader.Valid() && maxlen > 0 && Quiet(reader.fd.script)
    modifies reader, reader.buf, reader.fd
    ensures reader.Valid() && lines == FirstLines(old(reader.remaining), maxlen, k)
    ensures reader.remaining == AfterLines(old(reader.remaining), maxlen, k)
    ensures |lines| == k && CutUp(old(reader.remaining), maxlen, lines, reader.remaining)
  {
    ghost var s := reader.remaining;
    lines := [];
    for i := 0 to k
      invariant reader.Valid() && lines == FirstLines(s, maxlen, i)
      invariant reader.remaining == AfterLines(s, maxlen, i) && Quiet(reader.fd.script)
    {
      LinesNext(s, maxlen, i);
      var dst := new Byte[maxlen](_ => 0);
      ghost var line := reader.remaining[..LineLen(reader.remaining, maxlen)];
      var count, taken := reader.ReadlineV3(dst, maxlen);
      assert dst[..][..|line|] == line;
      lines := lines + [Line(dst[..StoredLength(count, maxlen)], count)];
    }
    LinesCutUp(s, maxlen, k);
  }
}
