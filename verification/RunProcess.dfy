/** RunProcess of src/RunProcess.cpp, the parent's side: the real loop, whose every execution is a run of the state
    machine. */
module Process {
  import opened Text
  import opened Protocol
  import opened ProtocolSafety
  import opened PostExit

  // ------------------------------------------------------------------ reachability

  ghost predicate Reaches(a: Sys, b: Sys)
    requires Fits(a)
  {
    exists ls :: Run(a, ls) && After(a, ls) == b
  }

  lemma {:induction false} RunSnoc(a: Sys, ls: seq<Label>, l: Label)
    requires Fits(a) && Run(a, ls) && Enabled(After(a, ls), l)
    ensures Run(a, ls + [l]) && After(a, ls + [l]) == Do(After(a, ls), l)
    decreases |ls|
  {
    hide Do, Enabled;
    if ls == [] {
      FitsKept(a, l);
      assert [] + [l] == [l] && [l][1..] == [];
    } else {
      FitsKept(a, ls[0]);
      RunSnoc(Do(a, ls[0]), ls[1..], l);
      assert (ls + [l])[1..] == ls[1..] + [l];
    }
  }

  lemma ReachesSelf(a: Sys)
    requires Fits(a)
    ensures Reaches(a, a)
  {
    assert Run(a, []) && After(a, []) == a;
  }

  lemma ReachesStep(a: Sys, b: Sys, l: Label)
    requires Fits(a) && Reaches(a, b) && Enabled(b, l)
    ensures Fits(b) && Reaches(a, Do(b, l))
  {
    hide Do, Enabled;
    var ls :| Run(a, ls) && After(a, ls) == b;
    RunSnoc(a, ls, l);
    assert Run(a, ls + [l]) && After(a, ls + [l]) == Do(b, l);
  }

  /** What the child and the signals may do to the world between two system calls of the parent. */
  predicate EnvRun(caps: Capacities, w: World, ls: seq<Label>)
    decreases |ls|
  {
    if ls == [] then true else EnvEnabled(caps, w, ls[0]) && EnvRun(caps, EnvDo(w, ls[0]), ls[1..])
  }

  function EnvAfter(w: World, ls: seq<Label>): World
    decreases |ls|
  {
    if ls == [] then w else EnvAfter(EnvDo(w, ls[0]), ls[1..])
  }

  ghost predicate EnvReaches(caps: Capacities, w: World, w': World) {
    exists ls :: EnvRun(caps, w, ls) && EnvAfter(w, ls) == w'
  }

  lemma EnvIdle(caps: Capacities, w: World)
    ensures EnvReaches(caps, w, w)
  {
    assert EnvRun(caps, w, []) && EnvAfter(w, []) == w;
  }

  lemma {:induction false} LiftRun(a: Sys, b: Sys, ls: seq<Label>)
    requires Fits(a) && Reaches(a, b) && b.p.pc != Finished && EnvRun(b.caps, b.w, ls)
    ensures Reaches(a, b.(w := EnvAfter(b.w, ls)))
    decreases |ls|
  {
    hide Reaches, EnvEnabled, EnvDo;
    if ls != [] {
      EnvIsEnabled(b, ls[0]);
      ReachesStep(a, b, ls[0]);
      LiftRun(a, b.(w := EnvDo(b.w, ls[0])), ls[1..]);
    }
  }

  lemma EnvIsEnabled(s: Sys, l: Label)
    requires s.p.pc != Finished && EnvEnabled(s.caps, s.w, l)
    ensures Enabled(s, l) && (Fits(s) ==> Do(s, l) == s.(w := EnvDo(s.w, l)))
  {
  }

  /** The environment goes on to the world `w`, and then the parent takes the step `l`. */
  lemma Advance(a: Sys, b: Sys, w: World, l: Label)
    requires Fits(a) && Reaches(a, b) && b.p.pc != Finished && EnvReaches(b.caps, b.w, w)
    requires Enabled(b.(w := w), l)
    ensures Fits(b.(w := w)) && Reaches(a, Do(b.(w := w), l))
  {
    hide Do, Enabled, Reaches;
    var ls :| EnvRun(b.caps, b.w, ls) && EnvAfter(b.w, ls) == w;
    LiftRun(a, b, ls);
    ReachesStep(a, b.(w := w), l);
  }

  // ------------------------------------------------------------------ the kernel

  const BUFFER_SIZE: nat := 1024

  /** The system calls. Their contracts are the assumptions on the environment: before every call the child may have
      done anything it can, and a signal may have come. The bodies only show that the contracts can be met. */
  class Kernel {
    const caps: Capacities
    var w: World
    var closed: seq<PipeEnd>
    var polls: nat

    constructor (caps: Capacities)
      ensures this.caps == caps && w == Start("", caps).w && closed == [] && polls == 0
    {
      this.caps := caps;
      w := Start("", caps).w;
      closed := [];
      polls := 0;
    }

    method Close(end: PipeEnd)
      modifies `closed
      ensures closed == old(closed) + [end]
    {
      closed := closed + [end];
    }

    method Poll(stdinClosed: bool) returns (ready: Ready)
      modifies `w, `polls
      ensures EnvReaches(caps, old(w), w) && PollOk(w, stdinClosed, ready) && polls == old(polls) + 1
    {
      EnvIdle(caps, w);
      polls := polls + 1;
      ready := Ready(true, true, true, true, false);
    }

    /** Takes up to `count` bytes off one of the three pipes to the parent. */
    method Read(fd: PipeEnd, count: nat) returns (bytes: string, ghost before: World)
      requires count == MAX_READ && (fd == OutRead || fd == ErrRead || fd == ReportRead)
      modifies `w
      ensures EnvReaches(caps, old(w), before)
      ensures var pipe := PipeOf(before, fd);
              ReadOk(pipe, |bytes|) && bytes == pipe[..|bytes|] && w == WithPipe(before, fd, pipe[|bytes|..])
    {
      EnvIdle(caps, w);
      before := w;
      var pipe := PipeOf(w, fd);
      var n := if |pipe| <= count then |pipe| else count;
      bytes := pipe[..n];
      w := WithPipe(w, fd, pipe[n..]);
    }

    /** The non-blocking write to the child, with EPIPE and EAGAIN ignored. */
    method Write(bytes: string) returns (n: nat, ghost before: World)
      requires |w.stdin| <= caps.stdin
      modifies `w
      ensures EnvReaches(caps, old(w), before) && WriteOk(caps, before, |bytes|, n)
      ensures w == before.(stdin := before.stdin + bytes[..n], accepted := before.accepted + bytes[..n])
    {
      EnvIdle(caps, w);
      before := w;
      var room := caps.stdin - |w.stdin|;
      n := if !w.stdinRead then 0 else if |bytes| <= room then |bytes| else room;
      w := w.(stdin := w.stdin + bytes[..n], accepted := w.accepted + bytes[..n]);
    }

    /** Without waiting: 0 while the child lives; otherwise the child is reaped. */
    method WaitPid() returns (pid: int, status: Status, ghost before: World)
      modifies `w
      ensures EnvReaches(caps, old(w), before)
      ensures before.alive ==> pid == 0 && w == before
      ensures !before.alive ==> pid > 0 && status == before.status && w == before.(reaped := true)
    {
      EnvIdle(caps, w);
      before := w;
      status := w.status;
      if w.alive {
        pid := 0;
      } else {
        pid := 1;
        w := w.(reaped := true);
      }
    }

    /** The variable the signal handler sets. */
    method SignalReceived() returns (signum: int)
      modifies `w
      ensures EnvReaches(caps, old(w), w) && signum == w.signal
    {
      EnvIdle(caps, w);
      signum := w.signal;
    }

    method Kill() returns (ok: bool)
      modifies `w
      ensures ok == !old(w).reaped
      ensures w == if old(w).alive && ok then old(w).(alive := false, stdinRead := false, status := Signaled(9))
              else old(w)
    {
      ok := !w.reaped;
      if ok && w.alive {
        w := w.(alive := false, stdinRead := false, status := Signaled(9));
      }
    }
  }

  function PipeOf(w: World, fd: PipeEnd): string {
    match fd
    case OutRead => w.stdout
    case ErrRead => w.stderr
    case _ => w.report
  }

  function WithPipe(w: World, fd: PipeEnd, s: string): World {
    match fd
    case OutRead => w.(stdout := s)
    case ErrRead => w.(stderr := s)
    case _ => w.(report := s)
  }

  // ------------------------------------------------------------------- the reads

  /** Fills the buffer in place and ends what was read with a NUL. */
  method ReadToBuffer(kernel: Kernel, fd: PipeEnd, buf: array<char>) returns (n: nat, ghost before: World)
    requires buf.Length == BUFFER_SIZE && (fd == OutRead || fd == ErrRead || fd == ReportRead)
    modifies kernel`w, buf
    ensures EnvReaches(kernel.caps, old(kernel.w), before)
    ensures var pipe := PipeOf(before, fd);
            ReadOk(pipe, n) && kernel.w == WithPipe(before, fd, pipe[n..]) && CString(buf[..]) == CString(pipe[..n])
  {
    var bytes;
    bytes, before := kernel.Read(fd, BUFFER_SIZE - 1);
    n := |bytes|;
    for i := 0 to n
      modifies buf
      invariant buf[..i] == bytes[..i]
    {
      buf[i] := bytes[i];
      assert bytes[..i + 1] == bytes[..i] + [bytes[i]];
    }
    buf[n] := '\0';
    assert buf[..] == bytes + buf[n..] && buf[n..][0] == '\0';
    CStringStops(bytes, buf[n..]);
  }

  lemma {:induction false} CStringStops(s: string, rest: string)
    requires rest != "" && rest[0] == '\0'
    ensures CString(s + rest) == CString(s)
  {
    if s == "" {
      assert s + rest == rest;
    } else {
      assert (s + rest)[1..] == s[1..] + rest;
      CStringStops(s[1..], rest);
      hide Leading;
      CStringHead(s);
      CStringHead(s + rest);
    }
  }

  lemma CStringHead(s: string)
    requires s != ""
    ensures CString(s) == if NotNul(s[0]) then [s[0]] + CString(s[1..]) else ""
  {
  }

  /** If the descriptor was ready, reads once and says what was read, as text and as a number of bytes. */
  method ReadIfReady(kernel: Kernel, fd: PipeEnd, isReady: bool, buf: array<char>, ghost start: Sys, ghost s: Sys)
      returns (text: string, readBytes: nat, ghost t: Sys)
    requires Fits(start) && Reaches(start, s) && s.w == kernel.w && s.caps == kernel.caps && buf.Length == BUFFER_SIZE
    requires fd == OutRead ==> s.p.pc == AtReadOut && isReady == s.p.ready.out
    requires fd == ErrRead ==> s.p.pc == AtReadErr && isReady == s.p.ready.err
    requires fd == ReportRead ==> s.p.pc == AtReadReport && isReady == s.p.ready.report
    requires fd == OutRead || fd == ErrRead || fd == ReportRead
    modifies kernel`w, buf
    ensures Reaches(start, t) && t.w == kernel.w && t.caps == s.caps && t.input == s.input
    ensures readBytes == 0 ==> text == ""
    ensures fd == OutRead ==> t.p == s.p.(pc := AtReadErr, output := s.p.output + text, outChunks := t.p.outChunks,
                                          mayHaveData := s.p.mayHaveData || readBytes > 0)
    ensures fd == ErrRead ==> t.p == s.p.(pc := AtWrite, errors := s.p.errors + text, errChunks := t.p.errChunks,
                                          mayHaveData := s.p.mayHaveData || readBytes > 0)
    ensures fd == ReportRead
            ==> t.p == s.p.(pc := AtWait, report := s.p.report + text, reportChunks := t.p.reportChunks)
  {
    hide Reaches, EnvReaches, CString;
    text, readBytes := "", 0;
    ghost var before := kernel.w;
    EnvIdle(kernel.caps, kernel.w);
    if isReady {
      readBytes, before := ReadToBuffer(kernel, fd, buf);
      text := CString(buf[..]);
    }
    NothingIsNothing();
    assert PipeOf(before, fd)[..0] == "" && PipeOf(before, fd)[0..] == PipeOf(before, fd);
    t := ReadStep(start, s, before, fd, isReady, readBytes);
  }

  lemma NothingIsNothing()
    ensures CString("") == ""
  {
  }

  lemma ReadStep(start: Sys, s: Sys, before: World, fd: PipeEnd, isReady: bool, n: nat) returns (t: Sys)
    requires Fits(start) && Reaches(start, s) && EnvReaches(s.caps, s.w, before)
    requires fd == OutRead ==> s.p.pc == AtReadOut && isReady == s.p.ready.out
    requires fd == ErrRead ==> s.p.pc == AtReadErr && isReady == s.p.ready.err
    requires fd == ReportRead ==> s.p.pc == AtReadReport && isReady == s.p.ready.report
    requires fd == OutRead || fd == ErrRead || fd == ReportRead
    requires if isReady then ReadOk(PipeOf(before, fd), n) else n == 0
    ensures Reaches(start, t) && t.caps == s.caps && t.input == s.input
    ensures t.w == WithPipe(before, fd, PipeOf(before, fd)[n..])
    ensures var text := CString(PipeOf(before, fd)[..n]);
            && (fd == OutRead ==> t.p == s.p.(pc := AtReadErr, output := s.p.output + text, outChunks := t.p.outChunks,
                                              mayHaveData := s.p.mayHaveData || n > 0))
            && (fd == ErrRead ==> t.p == s.p.(pc := AtWrite, errors := s.p.errors + text, errChunks := t.p.errChunks,
                                              mayHaveData := s.p.mayHaveData || n > 0))
            && (fd == ReportRead ==>
                  t.p == s.p.(pc := AtWait, report := s.p.report + text, reportChunks := t.p.reportChunks))
  {
    hide Reaches, EnvReaches, CString;
    var b := s.(w := before);
    Advance(start, s, before, Reads(n));
    t := Do(b, Reads(n));
    NothingIsNothing();
    if n == 0 {
      assert PipeOf(before, fd)[..0] == "" && PipeOf(before, fd)[0..] == PipeOf(before, fd);
    }
  }

  // -------------------------------------------------------------- the other steps

  lemma PollStep(start: Sys, s: Sys, w: World, ready: Ready) returns (t: Sys)
    requires Fits(start) && Reaches(start, s) && EnvReaches(s.caps, s.w, w) && s.p.pc == AtPoll
             && PollOk(w, s.p.stdinClosed, ready)
    ensures Reaches(start, t)
            && t == Sys(s.input, s.caps, w,
               s.p.(pc := AtReadOut, ready := ready, mayHaveData := false, rounds := s.p.rounds + 1))
  {
    hide Reaches, EnvReaches, PollOk;
    Advance(start, s, w, Polls(ready));
    t := Do(s.(w := w), Polls(ready));
  }

  /** A step of the parent alone. */
  lemma GoStep(start: Sys, s: Sys, l: Label) returns (t: Sys)
    requires Fits(start) && Reaches(start, s) && Enabled(s, l)
    ensures Fits(s) && Reaches(start, t) && t == Do(s, l)
  {
    hide Reaches, Enabled, Do;
    ReachesStep(start, s, l);
    t := Do(s, l);
  }

  lemma WriteStep(start: Sys, s: Sys, before: World, n: nat) returns (t: Sys)
    requires Fits(start) && Reaches(start, s) && EnvReaches(s.caps, s.w, before) && s.p.pc == AtWrite && Fits(s)
    requires if IsAbleToWrite(s.p.ready) && !IsAllDataWritten(s.p.wrote, s.input)
             then WriteOk(s.caps, before, |s.input| - s.p.wrote, n) else n == 0
    ensures s.p.wrote + n <= |s.input| && Reaches(start, t)
    ensures var bytes := s.input[s.p.wrote..][..n];
            t == Sys(s.input, s.caps, before.(stdin := before.stdin + bytes, accepted := before.accepted + bytes),
                     s.p.(pc := AtClose, wrote := s.p.wrote + n))
  {
    hide Reaches, EnvReaches;
    Advance(start, s, before, Writes(n));
    t := Do(s.(w := before), Writes(n));
    assert s.input[s.p.wrote..s.p.wrote + n] == s.input[s.p.wrote..][..n];
  }

  lemma WaitStep(start: Sys, s: Sys, before: World) returns (t: Sys)
    requires Fits(start) && Reaches(start, s) && EnvReaches(s.caps, s.w, before) && s.p.pc == AtWait
    ensures Fits(s) && Reaches(start, t) && t == DoWait(s.(w := before))
  {
    hide Reaches, EnvReaches, DoWait;
    Advance(start, s, before, Goes);
    t := Do(s.(w := before), Goes);
  }

  lemma LoopStep(start: Sys, s: Sys, w: World) returns (t: Sys)
    requires Fits(start) && Reaches(start, s) && EnvReaches(s.caps, s.w, w)
             && (s.p.pc == AtLoopTest || s.p.pc == AtSignalTest || s.p.pc == AtThrow)
    ensures Fits(s) && Reaches(start, t)
    ensures t == if s.p.pc == AtLoopTest then DoLoopTest(s.(w := w))
                 else if s.p.pc == AtSignalTest then DoSignalTest(s.(w := w))
                 else DoThrow(s.(w := w))
  {
    hide Reaches, EnvReaches, DoLoopTest, DoSignalTest, DoThrow;
    Advance(start, s, w, Goes);
    t := Do(s.(w := w), Goes);
  }

  /** Reachable states have the invariant. */
  lemma ReachedInv(input: string, caps: Capacities, s: Sys)
    requires Reaches(Start(input, caps), s)
    ensures Inv(s) && Fits(s) && s.input == input && s.caps == caps
  {
    hide Inv;
    var ls :| Run(Start(input, caps), ls) && After(Start(input, caps), ls) == s;
    InvAtStart(input, caps);
    InvAlways(Start(input, caps), ls);
  }

  // ------------------------------------------------------------------ RunProcess

  /** The local variables of RunProcess, src/RunProcess.cpp:145-175, and what is done with them. `s` is the state of the
      state machine that the variables and the kernel are in. */
  class Supervisor {
    const kernel: Kernel
    const input: string
    const buf: array<char>
    var fds: Ready
    var wroteToChild: nat
    var output: string
    var errors: string
    var internalErrors: string
    var processExitStatus: Option<Status>
    var isProcessRunning: bool
    var isToChildPipeWriteEndClosed: bool
    var systemBuffersMayStillHaveData: bool
    ghost var s: Sys

    ghost predicate Tracks(pc: Pc)
      reads this, kernel
    {
      && buf.Length == BUFFER_SIZE
      && Reaches(Start(input, kernel.caps), s) && s.input == input && s.caps == kernel.caps
      && s.w == kernel.w && s.p.closed == kernel.closed && s.p.rounds == kernel.polls
      && s.p.pc == pc && s.p.ready == fds
      && s.p.wrote == wroteToChild && s.p.output == output && s.p.errors == errors && s.p.report == internalErrors
      && s.p.running == isProcessRunning && s.p.stdinClosed == isToChildPipeWriteEndClosed
      && s.p.mayHaveData == systemBuffersMayStillHaveData && s.p.exitStatus == processExitStatus
    }

    constructor (kernel: Kernel, input: string)
      requires kernel.w == Start(input, kernel.caps).w && kernel.closed == [] && kernel.polls == 0
      modifies kernel
      ensures this.kernel == kernel && this.input == input && fresh(buf) && Tracks(AtPoll) && s.p.rounds == 0
    {
      this.kernel := kernel;
      this.input := input;
      buf := new char[BUFFER_SIZE];
      fds := Ready(false, false, false, false, false);
      wroteToChild, output, errors, internalErrors := 0, "", "", "";
      processExitStatus := None;
      isProcessRunning, isToChildPipeWriteEndClosed, systemBuffersMayStillHaveData := true, false, false;
      s := Start(input, kernel.caps);
      new;
      ReachesSelf(s);
      kernel.Close(OutWrite);
      kernel.Close(InRead);
      kernel.Close(ReportWrite);
      kernel.Close(ErrWrite);
    }

    method Poll()
      requires Tracks(AtPoll)
      modifies this, kernel
      ensures Tracks(AtReadOut) && s.p.rounds == old(s.p.rounds) + 1
    {
      hide Reaches, EnvReaches, PollOk;
      systemBuffersMayStillHaveData := false;
      fds := kernel.Poll(isToChildPipeWriteEndClosed);
      s := PollStep(Start(input, kernel.caps), s, kernel.w, fds);
    }

    method ReadOutput()
      requires Tracks(AtReadOut)
      modifies this, kernel, buf
      ensures Tracks(AtReadErr) && s.p.rounds == old(s.p.rounds)
    {
      hide Reaches, EnvReaches, CString;
      var text, readBytes, t := ReadIfReady(kernel, OutRead, fds.out, buf, Start(input, kernel.caps), s);
      if readBytes > 0 {
        output := output + text;
        systemBuffersMayStillHaveData := true;
      }
      s := t;
    }

    method ReadErrors()
      requires Tracks(AtReadErr)
      modifies this, kernel, buf
      ensures Tracks(AtWrite) && s.p.rounds == old(s.p.rounds)
    {
      hide Reaches, EnvReaches, CString;
      var text, readBytes, t := ReadIfReady(kernel, ErrRead, fds.err, buf, Start(input, kernel.caps), s);
      if readBytes > 0 {
        errors := errors + text;
        systemBuffersMayStillHaveData := true;
      }
      s := t;
    }

    method WriteInput()
      requires Tracks(AtWrite)
      modifies this, kernel
      ensures Tracks(AtClose) && s.p.rounds == old(s.p.rounds)
    {
      hide Reaches, EnvReaches, WriteOk, Inv;
      var n, before := WriteIfReady();
      s := WriteStep(Start(input, kernel.caps), s, before, n);
      wroteToChild := wroteToChild + n;
    }

    method WriteIfReady() returns (n: nat, ghost before: World)
      requires Tracks(AtWrite)
      modifies kernel`w
      ensures Fits(s) && EnvReaches(s.caps, s.w, before)
      ensures if IsAbleToWrite(fds) && !IsAllDataWritten(wroteToChild, input)
              then WriteOk(kernel.caps, before, |input| - wroteToChild, n) else n == 0
      ensures wroteToChild + n <= |input|
      ensures var bytes := input[wroteToChild..][..n];
              kernel.w == before.(stdin := before.stdin + bytes, accepted := before.accepted + bytes)
    {
      hide Reaches, EnvReaches;
      ReachedInv(input, kernel.caps, s);
      before := kernel.w;
      n := 0;
      EnvIdle(kernel.caps, kernel.w);
      if IsAbleToWrite(fds) && !IsAllDataWritten(wroteToChild, input) {
        n, before := kernel.Write(input[wroteToChild..]);
      } else {
        NoBytes(before, input[wroteToChild..]);
      }
    }

    method CloseWhenAllWritten()
      requires Tracks(AtClose)
      modifies this, kernel
      ensures Tracks(AtReadReport) && s.p.rounds == old(s.p.rounds)
    {
      hide Reaches, EnvReaches;
      if !isToChildPipeWriteEndClosed && IsAllDataWritten(wroteToChild, input) {
        kernel.Close(InWrite);
        isToChildPipeWriteEndClosed := true;
      }
      s := GoStep(Start(input, kernel.caps), s, Goes);
    }

    method ReadInternalErrors()
      requires Tracks(AtReadReport)
      modifies this, kernel, buf
      ensures Tracks(AtWait) && s.p.rounds == old(s.p.rounds)
    {
      hide Reaches, EnvReaches, CString;
      var text, readBytes, t := ReadIfReady(kernel, ReportRead, fds.report, buf, Start(input, kernel.caps), s);
      internalErrors := internalErrors + text;
      s := t;
    }

    method Wait()
      requires Tracks(AtWait)
      modifies this, kernel
      ensures Tracks(AtLoopTest) && s.p.rounds == old(s.p.rounds)
    {
      hide Reaches, EnvReaches;
      ghost var before := kernel.w;
      EnvIdle(kernel.caps, kernel.w);
      if isProcessRunning {
        var pid, status;
        pid, status, before := kernel.WaitPid();
        if pid != 0 {
          processExitStatus := Some(status);
        }
        isProcessRunning := pid == 0;
        systemBuffersMayStillHaveData := true;
      }
      s := WaitStep(Start(input, kernel.caps), s, before);
    }

    method LoopTest() returns (again: bool)
      requires Tracks(AtLoopTest)
      modifies this, kernel
      ensures Tracks(if again then AtPoll else AtSignalTest) && s.p.rounds == old(s.p.rounds)
    {
      hide Reaches, EnvReaches;
      var signum := kernel.SignalReceived();
      again := (isProcessRunning || systemBuffersMayStillHaveData) && signum == 0;
      s := LoopStep(Start(input, kernel.caps), s, kernel.w);
    }

    /** After the loop: kill and throw, or close what is open and hand over the results. */
    method Finish() returns (r: Outcome)
      requires Tracks(AtSignalTest)
      modifies this, kernel
      ensures Reaches(Start(input, kernel.caps), s) && s.w == kernel.w && s.p.closed == kernel.closed
      ensures s.p.pc == Finished && s.p.outcome == Some(r)
      ensures kernel.polls == old(kernel.polls)
    {
      hide Reaches, EnvReaches;
      var signum := kernel.SignalReceived();
      s := LoopStep(Start(input, kernel.caps), s, kernel.w);
      if signum != 0 {
        var killed := kernel.Kill();
        if !killed {
          return KillFailed;
        }
        signum := kernel.SignalReceived();
        s := LoopStep(Start(input, kernel.caps), s, kernel.w);
        return SignalReceived(signum);
      }
      r := CloseAndReturn();
    }

    method CloseAndReturn() returns (r: Outcome)
      requires Tracks(AtCleanup)
      modifies this, kernel
      ensures Reaches(Start(input, kernel.caps), s) && s.w == kernel.w && s.p.closed == kernel.closed
      ensures s.p.pc == Finished && s.p.outcome == Some(r)
      ensures kernel.polls == old(kernel.polls)
    {
      hide Reaches, EnvReaches;
      if !isToChildPipeWriteEndClosed {
        kernel.Close(InWrite);
      }
      kernel.Close(OutRead);
      kernel.Close(ReportRead);
      kernel.Close(ErrRead);
      StatusIsKnown(input, kernel.caps, s);
      r := if internalErrors != "" then SutExecution(internalErrors)
           else Returned(ProcessResults(ExitCode(processExitStatus.value), output, errors));
      s := CleanupStep(Start(input, kernel.caps), s);
    }

    /** `fuel` bounds the number of rounds, for the child need not ever exit; None says that it ran out. */
    method Run(fuel: nat) returns (r: Option<Outcome>)
      requires Tracks(AtPoll) && s.p.rounds == 0
      modifies this, kernel, buf
      ensures Reaches(Start(input, kernel.caps), s) && s.w == kernel.w && s.p.closed == kernel.closed
      ensures kernel.polls <= fuel
      ensures r.Some? ==> s.p.pc == Finished && s.p.outcome == r
      ensures r.None? ==> s.p.pc == AtPoll && s.p.rounds == kernel.polls == fuel
    {
      hide Reaches, EnvReaches;
      var rounds := 0;
      var again := true;
      while again
        invariant Tracks(if again then AtPoll else AtSignalTest) && s.p.rounds == rounds <= fuel
        decreases fuel - rounds, again
      {
        if rounds == fuel {
          return None;
        }
        Poll();
        ReadOutput();
        ReadErrors();
        WriteInput();
        CloseWhenAllWritten();
        ReadInternalErrors();
        Wait();
        again := LoopTest();
        rounds := rounds + 1;
      }
      var outcome := Finish();
      r := Some(outcome);
    }
  }

  lemma CleanupStep(start: Sys, s: Sys) returns (t: Sys)
    requires Fits(start) && Reaches(start, s) && s.p.pc == AtCleanup
    ensures Fits(s) && Reaches(start, t) && t == DoCleanup(s)
  {
    hide Reaches, DoCleanup;
    ReachesStep(start, s, Goes);
    t := Do(s, Goes);
  }

  lemma NoBytes(w: World, s: string)
    ensures s[..0] == "" && w == w.(stdin := w.stdin + s[..0], accepted := w.accepted + s[..0])
  {
    assert w.stdin + "" == w.stdin && w.accepted + "" == w.accepted;
  }

  /** The wait status has been assigned before it is used. */
  lemma StatusIsKnown(input: string, caps: Capacities, s: Sys)
    requires Reaches(Start(input, caps), s) && s.p.pc == AtCleanup
    ensures s.p.exitStatus.Some?
  {
    hide Reaches, Conserved, WritePrefix, ClosedOnce, OutcomeSound;
    ReachedInv(input, caps, s);
  }

  /** RunProcess as its caller sees it. */
  method RunProcess(kernel: Kernel, input: string, fuel: nat) returns (r: Option<Outcome>)
    requires kernel.w == Start(input, kernel.caps).w && kernel.closed == [] && kernel.polls == 0
    modifies kernel
    ensures kernel.polls <= fuel
    ensures r.Some? ==> Ends(input, kernel.w, kernel.closed, r.value)
    ensures r.None? ==> kernel.polls == fuel && GoesOn(input, kernel.caps, kernel.w, fuel)
  {
    hide Reaches, Ends, GoesOn;
    var parent := new Supervisor(kernel, input);
    r := parent.Run(fuel);
    if r.Some? {
      HowItEnds(input, kernel.caps, parent.s);
    } else {
      HowItGoesOn(input, kernel.caps, parent.s);
    }
  }

  /** What is so when the rounds have run out: the loop is at the start of a round; and if the child is dead, with b
      bytes queued, no more than b + 2 rounds were missing. */
  ghost predicate GoesOn(input: string, caps: Capacities, w: World, polls: nat) {
    exists s :: Reaches(Start(input, caps), s) && Fits(s) && s.w == w && s.p.pc == AtPoll && s.p.rounds == polls
                && (!w.alive ==> forall ls :: Run(s, ls) ==> PollCount(ls) <= |w.stdout| + |w.stderr| + 2)
  }

  lemma HowItGoesOn(input: string, caps: Capacities, s: Sys)
    requires Reaches(Start(input, caps), s) && s.p.pc == AtPoll
    ensures GoesOn(input, caps, s.w, s.p.rounds)
  {
    ReachedInv(input, caps, s);
    hide Reaches, Inv, Run, PollCount;
    forall ls | !s.w.alive && Run(s, ls)
      ensures PollCount(ls) <= |s.w.stdout| + |s.w.stderr| + 2
    {
      PostExitBound(s, ls);
    }
  }

  /** What an outcome promises of the child, of its pipes and of the parent's descriptors. */
  predicate Ends(input: string, w: World, closed: seq<PipeEnd>, r: Outcome) {
    match r
    case Returned(results) =>
      && !w.alive && w.reaped && w.stdout == "" && w.stderr == ""
      && (w.status.Exited? ==> results.exitCode == w.status.code)
      && (w.status.Signaled? ==> results.exitCode == 0x7FFF_FFFF)
      && (results.output == w.wroteOut <==> NulFree(w.wroteOut))
         && (results.errors == w.wroteErr <==> NulFree(w.wroteErr))
      && (NulFree(w.wroteReport) ==> w.wroteReport == "")
      && w.accepted <= input && closed == ALL_CLOSED
    case SutExecution(message) =>
      message != "" && (NulFree(w.wroteReport) ==> message + w.report == w.wroteReport) && closed == ALL_CLOSED
    case SignalReceived(signum) => signum == w.signal != 0 && !w.alive && !w.reaped
    case KillFailed => w.signal != 0 && w.reaped
  }

  lemma HowItEnds(input: string, caps: Capacities, s: Sys)
    requires Reaches(Start(input, caps), s) && s.p.outcome.Some?
    ensures Ends(input, s.w, s.p.closed, s.p.outcome.value)
  {
    hide Inv, NulFree, Run, After;
    var ls :| Run(Start(input, caps), ls) && After(Start(input, caps), ls) == s;
    CompleteDrain(input, caps, ls);
    OutcomeSoundness(input, caps, ls);
    WritePrefixAndCloseOnce(input, caps, ls);
  }
}
