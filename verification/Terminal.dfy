/** The terminal mode machine over a kernel that may refuse a change or carry out only part of it. */
module Terminal {
  datatype Flag =
    | ECHO | ICANON | IEXTEN | ISIG
    | BRKINT | ICRNL | INPCK | ISTRIP | IXON
    | PARENB | SIZE_LOW | SIZE_HIGH
    | OPOST | Other(n: nat)

  const CSIZE: set<Flag> := {SIZE_LOW, SIZE_HIGH}
  const CS8: set<Flag> := {SIZE_LOW, SIZE_HIGH}

  datatype Termios = Termios(iflag: set<Flag>, oflag: set<Flag>, cflag: set<Flag>, lflag: set<Flag>,
                             vmin: int, vtime: int)

  datatype State = RESET | RAW | CBREAK

  // ----- what the modes ask for and what they are checked for -----

  function MakeCbreak(t: Termios): Termios {
    t.(lflag := t.lflag - {ECHO, ICANON}, vmin := 1, vtime := 0)
  }

  function MakeRaw(t: Termios): Termios {
    t.(lflag := t.lflag - {ECHO, ICANON, IEXTEN, ISIG},
       iflag := t.iflag - {BRKINT, ICRNL, INPCK, ISTRIP, IXON},
       cflag := t.cflag - (CSIZE + {PARENB}) + CS8,
       oflag := t.oflag - {OPOST}, vmin := 1, vtime := 0)
  }

  predicate CbreakHolds(t: Termios) {
    t.lflag * {ECHO, ICANON} == {} && t.vmin == 1 && t.vtime == 0
  }

  predicate RawHolds(t: Termios) {
    && t.lflag * {ECHO, ICANON, IEXTEN, ISIG} == {}
    && t.iflag * {BRKINT, ICRNL, INPCK, ISTRIP, IXON} == {}
    && t.cflag * (CSIZE + {PARENB} + CS8) == CS8
    && t.oflag * {OPOST} == {}
    && t.vmin == 1 && t.vtime == 0
  }

  /** The settings asked for pass the check made afterwards, and asking again for a mode that holds changes nothing. */
  lemma CheckMatchesRequest(t: Termios)
    ensures CbreakHolds(MakeCbreak(t)) && IsCbreak(MakeCbreak(t))
    ensures RawHolds(MakeRaw(t)) && IsRaw(MakeRaw(t))
    ensures CbreakHolds(t) <==> MakeCbreak(t) == t
    ensures RawHolds(t) <==> MakeRaw(t) == t
  {
    CbreakIs(t);
    RawIs(t);
    assert MakeCbreak(t).lflag * {ECHO, ICANON} == {};
    Cleared(t.lflag, {ECHO, ICANON});
    RawFlags(t);
    Cleared(t.lflag, {ECHO, ICANON, IEXTEN, ISIG});
    Cleared(t.iflag, {BRKINT, ICRNL, INPCK, ISTRIP, IXON});
    Cleared(t.oflag, {OPOST});
    Sized(t.cflag);
  }

  lemma Cleared(flags: set<Flag>, mask: set<Flag>)
    ensures flags * mask == {} <==> flags - mask == flags
  {
    if flags * mask == {} {
      forall f | f in flags
        ensures f in flags - mask
      {
        assert f !in flags * mask;
      }
    } else {
      var f :| f in flags * mask;
      assert f !in flags - mask;
    }
  }

  lemma Sized(flags: set<Flag>)
    ensures flags * (CSIZE + {PARENB} + CS8) == CS8 <==> flags - (CSIZE + {PARENB}) + CS8 == flags
  {
    var both := flags * (CSIZE + {PARENB} + CS8);
    if flags - (CSIZE + {PARENB}) + CS8 == flags {
      assert both == CS8;
    }
    if both == CS8 {
      assert PARENB !in both && SIZE_LOW in both && SIZE_HIGH in both;
    }
  }

  lemma RawFlags(t: Termios)
    ensures RawHolds(MakeRaw(t))
  {
    var r := MakeRaw(t);
    assert r.lflag * {ECHO, ICANON, IEXTEN, ISIG} == {};
    assert r.iflag * {BRKINT, ICRNL, INPCK, ISTRIP, IXON} == {};
    assert r.cflag * (CSIZE + {PARENB} + CS8) == CS8;
    assert r.oflag * {OPOST} == {};
  }

  // ----- the modes flag by flag -----

  /** A flag outside `mask` is set in both or in neither. */
  predicate SameOutside(f: Flag, mask: set<Flag>, flags: set<Flag>, flags': set<Flag>) {
    f in mask || (f in flags <==> f in flags')
  }

  /** No echo, and a read returns as soon as there is one byte. */
  predicate IsCbreak(t: Termios) {
    ECHO !in t.lflag && ICANON !in t.lflag && t.vmin == 1 && t.vtime == 0
  }

  /** Besides, no signals, no processing of input or output, and eight bits a character without parity. */
  predicate IsRaw(t: Termios) {
    && ECHO !in t.lflag && ICANON !in t.lflag && IEXTEN !in t.lflag && ISIG !in t.lflag
    && BRKINT !in t.iflag && ICRNL !in t.iflag && INPCK !in t.iflag && ISTRIP !in t.iflag && IXON !in t.iflag
    && SIZE_LOW in t.cflag && SIZE_HIGH in t.cflag && PARENB !in t.cflag
    && OPOST !in t.oflag
    && t.vmin == 1 && t.vtime == 0
  }

  /** `t'` is `t` in cbreak mode, and in everything else `t`. */
  ghost predicate CbreakOf(t: Termios, t': Termios) {
    && IsCbreak(t')
    && t'.iflag == t.iflag && t'.oflag == t.oflag && t'.cflag == t.cflag
    && forall f :: SameOutside(f, {ECHO, ICANON}, t.lflag, t'.lflag)
  }

  /** `t'` is `t` in raw mode, and in everything else `t`. */
  ghost predicate RawOf(t: Termios, t': Termios) {
    && IsRaw(t')
    && forall f ::
         && SameOutside(f, {ECHO, ICANON, IEXTEN, ISIG}, t.lflag, t'.lflag)
         && SameOutside(f, {BRKINT, ICRNL, INPCK, ISTRIP, IXON}, t.iflag, t'.iflag)
         && SameOutside(f, {SIZE_LOW, SIZE_HIGH, PARENB}, t.cflag, t'.cflag)
         && SameOutside(f, {OPOST}, t.oflag, t'.oflag)
  }

  lemma AllOff(flags: set<Flag>, mask: set<Flag>)
    ensures flags * mask == {} <==> forall f | f in mask :: f !in flags
  {
    if flags * mask == {} {
      forall f | f in mask
        ensures f !in flags
      {
        assert f !in flags * mask;
      }
    }
  }

  /** What is asked for, and what is checked for, is cbreak mode. */
  lemma CbreakIs(t: Termios)
    ensures CbreakOf(t, MakeCbreak(t)) && (CbreakHolds(t) <==> IsCbreak(t))
  {
    AllOff(t.lflag, {ECHO, ICANON});
  }

  lemma CheckedFlags(t: Termios)
    requires RawHolds(t)
    ensures IsRaw(t)
  {
    AllOff(t.lflag, {ECHO, ICANON, IEXTEN, ISIG});
    AllOff(t.iflag, {BRKINT, ICRNL, INPCK, ISTRIP, IXON});
    AllOff(t.oflag, {OPOST});
    var both := t.cflag * (CSIZE + {PARENB} + CS8);
    assert SIZE_LOW in both && SIZE_HIGH in both && PARENB !in both;
  }

  /** What is asked for, and what is checked for, is raw mode. */
  lemma RawIs(t: Termios)
    ensures RawOf(t, MakeRaw(t)) && (RawHolds(t) <==> IsRaw(t))
  {
    if RawHolds(t) {
      CheckedFlags(t);
    }
    if IsRaw(t) {
      assert t.lflag * {ECHO, ICANON, IEXTEN, ISIG} == {};
      assert t.iflag * {BRKINT, ICRNL, INPCK, ISTRIP, IXON} == {};
      assert t.oflag * {OPOST} == {};
      assert t.cflag * (CSIZE + {PARENB} + CS8) == CS8;
    }
  }

  /** Raw mode is stricter than cbreak mode. */
  lemma RawImpliesCbreak(t: Termios)
    requires RawHolds(t)
    ensures CbreakHolds(t)
  {
    assert forall f | f in {ECHO, ICANON} :: f !in t.lflag * {ECHO, ICANON, IEXTEN, ISIG};
  }

  predicate Holds(mode: State, t: Termios) {
    match mode
    case RESET => true
    case CBREAK => CbreakHolds(t)
    case RAW => RawHolds(t)
  }

  function Wanted(mode: State, t: Termios): Termios {
    match mode
    case RESET => t
    case CBREAK => MakeCbreak(t)
    case RAW => MakeRaw(t)
  }

  // ----- the kernel -----

  /** What one `tcsetattr` does: nothing, with an error; some of what was asked, or something else; all of it. */
  datatype Answer = Refused | Partly(got: Termios) | Fully

  /** The settings of a terminal set to `dev`, after `t` was asked for. */
  function Answered(a: Answer, dev: Termios, t: Termios): Termios {
    match a
    case Refused => dev
    case Partly(got) => got
    case Fully => t
  }

  /**
   * Whether a restore of `save` on a terminal set to `dev` puts the saved settings back: it was carried
   * out, or the part carried out happened to be all that was missing, or nothing had to be done.
   */
  predicate PutsBack(a: Answer, dev: Termios, save: Termios) {
    match a
    case Fully => true
    case Partly(got) => got == save
    case Refused => dev == save
  }

  function First<T>(script: seq<T>, otherwise: T): T {
    if script == [] then otherwise else script[0]
  }

  function Rest<T>(script: seq<T>): seq<T> {
    if script == [] then [] else script[1..]
  }

  // ----- the machine -----

  /** `sets` and `gets` say what the calls to come will do; calls beyond their end succeed in full. */
  datatype Machine = Machine(
    state: State, dev: Termios, save: Termios, savefd: int, sets: seq<Answer>, gets: seq<bool>)
  {
    function Answer(): Answer {
      First(sets, Fully)
    }

    predicate GetWorks() {
      First(gets, true)
    }

    function SetAttr(t: Termios): Machine {
      this.(dev := Answered(Answer(), dev, t), sets := Rest(sets))
    }

    function GetAttr(): Machine {
      this.(gets := Rest(gets))
    }

    /** Reset means the original settings; a mode means that it holds and the original settings are saved. */
    predicate Sound(orig: Termios) {
      if state == RESET then dev == orig else Holds(state, dev) && save == orig && savefd >= 0
    }
  }

  /** `tty_cbreak` and `tty_raw`: the new machine and the result. */
  function Enter(m: Machine, mode: State, fd: nat): (Machine, int) {
    if m.state != RESET then (m, -1)
    else if !m.GetWorks() then (m.GetAttr(), -1)
    else
      var asked := m.GetAttr().(save := m.dev).SetAttr(Wanted(mode, m.dev));
      if m.Answer() == Refused then (asked, -1)
      else
        var checked := asked.GetAttr();
        if asked.GetWorks() && Holds(mode, asked.dev) then (checked.(state := mode, savefd := fd), 0)
        else (checked.SetAttr(checked.save), -1)
  }

  /** `tty_reset`. */
  function Leave(m: Machine): (Machine, int) {
    if m.state == RESET then (m, 0)
    else if m.Answer() == Refused then (m.SetAttr(m.save), -1)
    else (m.SetAttr(m.save).(state := RESET), 0)
  }

  datatype Call = CallCbreak(fd: nat) | CallRaw(fd: nat) | CallReset | CallAtExit

  function Do(m: Machine, c: Call): Machine {
    match c
    case CallCbreak(fd) => Enter(m, CBREAK, fd).0
    case CallRaw(fd) => Enter(m, RAW, fd).0
    case CallReset => Leave(m).0
    case CallAtExit => if m.savefd >= 0 then Leave(m).0 else m
  }

  function DoAll(m: Machine, calls: seq<Call>): Machine
    decreases |calls|
  {
    if calls == [] then m else DoAll(Do(m, calls[0]), calls[1..])
  }

  // ----- one call -----

  /** The terminal after the request of a mode change, and whether the check that follows is passed. */
  function AfterRequest(m: Machine, mode: State): Termios {
    Answered(m.Answer(), m.dev, Wanted(mode, m.dev))
  }

  predicate CheckPassed(m: Machine, mode: State) {
    First(Rest(m.gets), true) && Holds(mode, AfterRequest(m, mode))
  }

  /** A mode change gets as far as asking for the mode, and the kernel does something about it. */
  predicate Requested(m: Machine) {
    m.state == RESET && m.GetWorks() && m.Answer() != Refused
  }

  /** A mode change succeeds only out of the reset state, when the kernel lets it and the mode then holds. */
  lemma EnterSucceeds(m: Machine, mode: State, fd: nat)
    requires mode != RESET
    ensures Enter(m, mode, fd).1 == 0 <==> Requested(m) && CheckPassed(m, mode)
    ensures Enter(m, mode, fd).1 == 0 ==>
              var m' := Enter(m, mode, fd).0;
              m'.state == mode && m'.savefd == fd && Holds(mode, m'.dev) && m'.save == m.dev
    ensures Enter(m, mode, fd).1 == 0 || Enter(m, mode, fd).1 == -1
  {
  }

  /**
   * After a mode change that succeeds the terminal is in that mode, whatever the kernel did with the
   * request; where it did what it was asked, everything else about the terminal is as it was.
   */
  lemma EnterLeaves(m: Machine, mode: State, fd: nat)
    requires mode != RESET && Enter(m, mode, fd).1 == 0
    ensures var dev := Enter(m, mode, fd).0.dev;
            && (mode == CBREAK ==> IsCbreak(dev) && (m.Answer() == Fully ==> CbreakOf(m.dev, dev)))
            && (mode == RAW ==> IsRaw(dev) && (m.Answer() == Fully ==> RawOf(m.dev, dev)))
  {
    var dev := Enter(m, mode, fd).0.dev;
    CbreakIs(m.dev);
    CbreakIs(dev);
    RawIs(m.dev);
    RawIs(dev);
  }

  /** Out of the reset state, and with a kernel that does what it is asked, a mode change succeeds. */
  lemma EnterWorks(m: Machine, mode: State, fd: nat)
    requires mode != RESET && m.state == RESET && m.Answer() == Fully && m.GetWorks() && First(Rest(m.gets), true)
    ensures Enter(m, mode, fd).1 == 0
  {
    CheckMatchesRequest(m.dev);
  }

  /**
   * A mode change that fails leaves the state alone, and it leaves the terminal as it was if and only if
   * nothing had been changed yet or the restore put the saved settings back. The restore is answered by
   * the second answer of the script.
   */
  lemma FailureRollsBack(m: Machine, mode: State, fd: nat)
    requires mode != RESET && Enter(m, mode, fd).1 == -1
    ensures var m' := Enter(m, mode, fd).0;
            && m'.state == m.state && m'.savefd == m.savefd
            && (m'.dev == m.dev <==>
                  !Requested(m) || PutsBack(First(Rest(m.sets), Fully), AfterRequest(m, mode), m.dev))
  {
  }

  /**
   * A reset of a reset terminal does nothing. A refused reset keeps everything; any other ends in the
   * reset state, with the saved settings if put back.
   */
  lemma LeavePutsBack(m: Machine)
    ensures var (m', r) := Leave(m);
            if m.state == RESET then r == 0 && m' == m
            else if m.Answer() == Refused then r == -1 && m' == m.(sets := Rest(m.sets))
            else r == 0 && m'.state == RESET && (m'.dev == m.save <==> PutsBack(m.Answer(), m.dev, m.save))
  {
  }

  /** The restore that call `c` makes, if it makes one, works; a refused `tty_reset` is not a restore. */
  predicate RestoreWorks(m: Machine, c: Call) {
    match c
    case CallCbreak(_) =>
      Requested(m) && !CheckPassed(m, CBREAK) ==> PutsBack(First(Rest(m.sets), Fully), AfterRequest(m, CBREAK), m.dev)
    case CallRaw(_) =>
      Requested(m) && !CheckPassed(m, RAW) ==> PutsBack(First(Rest(m.sets), Fully), AfterRequest(m, RAW), m.dev)
    case CallReset => m.state != RESET && m.Answer() != Refused ==> PutsBack(m.Answer(), m.dev, m.save)
    case CallAtExit =>
      m.savefd >= 0 && m.state != RESET && m.Answer() != Refused ==> PutsBack(m.Answer(), m.dev, m.save)
  }

  /** A call on a sound machine leaves a sound machine if and only if the restore it makes works. */
  lemma CallSound(m: Machine, c: Call, orig: Termios)
    requires m.Sound(orig)
    ensures Do(m, c).Sound(orig) <==> RestoreWorks(m, c)
  {
  }

  // ----- sequences of calls -----

  /** Every restore made in the course of the calls works. */
  predicate RestoresWork(m: Machine, calls: seq<Call>)
    decreases |calls|
  {
    calls == [] || (RestoreWorks(m, calls[0]) && RestoresWork(Do(m, calls[0]), calls[1..]))
  }

  predicate SoundThroughout(m: Machine, calls: seq<Call>, orig: Termios)
    decreases |calls|
  {
    m.Sound(orig) && (calls == [] || SoundThroughout(Do(m, calls[0]), calls[1..], orig))
  }

  /** The machine is sound after every single call if and only if every restore works. */
  lemma {:induction false} SoundExactly(m: Machine, calls: seq<Call>, orig: Termios)
    requires m.Sound(orig)
    ensures SoundThroughout(m, calls, orig) <==> RestoresWork(m, calls)
    ensures SoundThroughout(m, calls, orig) ==> DoAll(m, calls).Sound(orig)
    decreases |calls|
  {
    if calls != [] {
      CallSound(m, calls[0], orig);
      if RestoreWorks(m, calls[0]) {
        SoundExactly(Do(m, calls[0]), calls[1..], orig);
      }
    }
  }

  /** With a kernel that does what it is asked, any sequence of calls is sound, and an exit undoes it all. */
  lemma {:induction false} ObedientKernel(m: Machine, calls: seq<Call>, orig: Termios)
    requires m.Sound(orig) && m.sets == []
    ensures RestoresWork(m, calls) && DoAll(m, calls).Sound(orig) && DoAll(m, calls).sets == []
    ensures var last := Do(DoAll(m, calls), CallAtExit); last.state == RESET && last.dev == orig
    decreases |calls|
  {
    if calls != [] {
      CallSound(m, calls[0], orig);
      ObedientKernel(Do(m, calls[0]), calls[1..], orig);
    }
  }

  /** A cooked terminal: echo and line editing on. */
  function Cooked(): Termios {
    Termios({}, {}, {}, {ECHO, ICANON}, 0, 0)
  }

  /**
   * What can go wrong does: a request half carried out and a roll-back refused leave the machine reset on
   * a terminal without echo, and so does a reset that is believed though it changed nothing.
   */
  lemma UnsoundAfterAll(fd: nat)
    ensures var half := Cooked().(lflag := {ICANON});
            var m := Machine(RESET, Cooked(), Cooked(), -1, [Partly(half), Refused], []);
            m.Sound(Cooked()) && Enter(m, CBREAK, fd).1 == -1
            && Do(m, CallCbreak(fd)).state == RESET && Do(m, CallCbreak(fd)).dev == half != Cooked()
    ensures var m := Machine(RESET, Cooked(), Cooked(), -1, [Fully, Partly(MakeCbreak(Cooked()))], []);
            var last := DoAll(m, [CallCbreak(fd), CallReset]);
            m.Sound(Cooked()) && last.state == RESET && last.dev == MakeCbreak(Cooked()) != Cooked()
  {
    var half := Cooked().(lflag := {ICANON});
    assert ICANON in half.lflag * {ECHO, ICANON} && ECHO !in half.lflag;
    var m := Machine(RESET, Cooked(), Cooked(), -1, [Fully, Partly(MakeCbreak(Cooked()))], []);
    CheckMatchesRequest(Cooked());
    var calls := [CallCbreak(fd), CallReset];
    var m1 := Do(m, calls[0]);
    assert calls[1..][1..] == [];
    assert DoAll(m, calls) == DoAll(m1, calls[1..]) == DoAll(Do(m1, CallReset), []);
    assert ECHO !in MakeCbreak(Cooked()).lflag;
  }

  // ----- the program -----

  class Tty {
    var dev: Termios
    var sets: seq<Answer>
    var gets: seq<bool>

    var state: State
    var save: Termios
    var savefd: int

    ghost function Abs(): Machine
      reads this
    {
      Machine(state, dev, save, savefd, sets, gets)
    }

    constructor (dev: Termios, sets: seq<Answer>, gets: seq<bool>)
      ensures Abs() == Machine(RESET, dev, dev, -1, sets, gets) && Abs().Sound(dev)
    {
      this.dev, this.sets, this.gets := dev, sets, gets;
      state, save, savefd := RESET, dev, -1;
    }

    method TcGetAttr() returns (ok: bool, t: Termios)
      modifies `gets
      ensures t == dev && ok == old(Abs()).GetWorks() && Abs() == old(Abs()).GetAttr()
    {
      ok, t := First(gets, true), dev;
      gets := Rest(gets);
    }

    method TcSetAttr(t: Termios) returns (ok: bool)
      modifies `dev, `sets
      ensures ok <==> old(Abs()).Answer() != Refused
      ensures Abs() == old(Abs()).SetAttr(t)
    {
      var answer := First(sets, Fully);
      ok := answer != Refused;
      dev := Answered(answer, dev, t);
      sets := Rest(sets);
    }

    method Cbreak(fd: nat) returns (r: int)
      modifies this
      ensures (Abs(), r) == Enter(old(Abs()), CBREAK, fd)
      ensures r == 0 ==> IsCbreak(dev) && (old(Abs()).Answer() == Fully ==> CbreakOf(old(dev), dev))
      ensures old(state) == RESET && old(sets) == [] && old(gets) == [] ==> r == 0
    {
      ghost var m := Abs();
      if Enter(m, CBREAK, fd).1 == 0 {
        EnterLeaves(m, CBREAK, fd);
      } else if m.state == RESET && m.sets == [] && m.gets == [] {
        EnterWorks(m, CBREAK, fd);
      }
      if state != RESET {
        return -1;
      }
      var ok, buf := TcGetAttr();
      if !ok {
        return -1;
      }
      save := buf;
      var done := TcSetAttr(MakeCbreak(buf));
      if !done {
        return -1;
      }
      ok, buf := TcGetAttr();
      if !ok {
        var ignored := TcSetAttr(save);
        return -1;
      }
      if !CbreakHolds(buf) {
        var ignored := TcSetAttr(save);
        return -1;
      }
      state, savefd := CBREAK, fd;
      r := 0;
    }

    method Raw(fd: nat) returns (r: int)
      modifies this
      ensures (Abs(), r) == Enter(old(Abs()), RAW, fd)
      ensures r == 0 ==> IsRaw(dev) && (old(Abs()).Answer() == Fully ==> RawOf(old(dev), dev))
      ensures old(state) == RESET && old(sets) == [] && old(gets) == [] ==> r == 0
    {
      ghost var m := Abs();
      if Enter(m, RAW, fd).1 == 0 {
        EnterLeaves(m, RAW, fd);
      } else if m.state == RESET && m.sets == [] && m.gets == [] {
        EnterWorks(m, RAW, fd);
      }
      if state != RESET {
        return -1;
      }
      var ok, buf := TcGetAttr();
      if !ok {
        return -1;
      }
      save := buf;
      var done := TcSetAttr(MakeRaw(buf));
      if !done {
        return -1;
      }
      ok, buf := TcGetAttr();
      if !ok {
        var ignored := TcSetAttr(save);
        return -1;
      }
      if !RawHolds(buf) {
        var ignored := TcSetAttr(save);
        return -1;
      }
      state, savefd := RAW, fd;
      r := 0;
    }

    method Reset() returns (r: int)
      modifies this
      ensures (Abs(), r) == Leave(old(Abs()))
    {
      if state == RESET {
        return 0;
      }
      var ok := TcSetAttr(save);
      if !ok {
        return -1;
      }
      state := RESET;
      r := 0;
    }

    method AtExit()
      modifies this
      ensures Abs() == Do(old(Abs()), CallAtExit)
    {
      if savefd >= 0 {
        var r := Reset();
      }
    }

    /**
     * Any sequence of calls, whatever the kernel answers: the machine is sound after each of them exactly
     * if every restore worked, and then it is sound at the end.
     */
    method Run(calls: seq<Call>, ghost orig: Termios)
      requires Abs().Sound(orig)
      modifies this
      ensures Abs() == DoAll(old(Abs()), calls)
      ensures RestoresWork(old(Abs()), calls) ==> Abs().Sound(orig)
    {
      ghost var m := Abs();
      for k := 0 to |calls|
        invariant DoAll(Abs(), calls[k..]) == DoAll(m, calls)
      {
        assert calls[k..][1..] == calls[k + 1..];
        var r;
        match calls[k] {
          case CallCbreak(fd) => r := Cbreak(fd);
          case CallRaw(fd) => r := Raw(fd);
          case CallReset => r := Reset();
          case CallAtExit => AtExit();
        }
      }
      SoundExactly(m, calls, orig);
    }
  }
}
