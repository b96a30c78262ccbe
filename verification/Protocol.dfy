/**
 The parent's poll loop of src/RunProcess.cpp as a state machine: the parent, the kernel's pipes and the child,
 one system call or one action of the environment at a time.

 What is assumed of the environment is in `Enabled`: poll is level-triggered (it may also report more than there
 is); a read takes at least one byte of a pipe that has any; a write to an empty pipe that is still read takes at
 least one byte; only the child writes to its pipes; no system call fails, except `kill` of a
 reaped process. */
module Protocol {
  import opened Text

  // --------------------------------------------------------------------- the world

  datatype Capacities = Capacities(stdin: nat, stdout: nat, stderr: nat, report: nat)

  datatype Status = Exited(code: int) | Signaled(signum: int)

  /** Pipe contents, the child, and (from `accepted` on) the history of every pipe. `report` is the internal-error
      pipe. */
  datatype World = World(
    stdin: string, stdout: string, stderr: string, report: string,
    stdinRead: bool, alive: bool, reaped: bool, status: Status, signal: int,
    accepted: string, consumed: string, wroteOut: string, wroteErr: string, wroteReport: string)

  // -------------------------------------------------------------------- the parent

  datatype Pc =
    | AtPoll | AtReadOut | AtReadErr | AtWrite | AtClose | AtReadReport | AtWait | AtLoopTest
    | AtSignalTest | AtThrow | AtCleanup | Finished

  /** What poll said of the four descriptors. */
  datatype Ready = Ready(out: bool, err: bool, report: bool, pollOut: bool, pollErr: bool)

  datatype PipeEnd = OutRead | OutWrite | InRead | InWrite | ReportRead | ReportWrite | ErrRead | ErrWrite

  datatype ProcessResults = ProcessResults(exitCode: int, output: string, errors: string)

  /** How the call ends; the three exceptions are SutExecutionException, SignalReceivedException and SystemException. */
  datatype Outcome =
    | Returned(results: ProcessResults)
    | SutExecution(message: string)
    | SignalReceived(signum: int)
    | KillFailed

  /** The local variables of RunProcess; the chunks are the history of what the reads
      delivered, `closed` is the log of the calls of close, and the rounds count polls. */
  datatype Parent = Parent(
    pc: Pc, ready: Ready, wrote: nat, output: string, errors: string, report: string,
    running: bool, stdinClosed: bool, mayHaveData: bool, exitStatus: Option<Status>,
    closed: seq<PipeEnd>, outcome: Option<Outcome>,
    outChunks: seq<string>, errChunks: seq<string>, reportChunks: seq<string>, rounds: nat, exitRound: nat)

  datatype Sys = Sys(input: string, caps: Capacities, w: World, p: Parent)

  // ------------------------------------------------------------------ pure helpers

  const MAX_READ: nat := 1023

  function ExitCode(status: Status): int {
    match status case Exited(code) => code case Signaled(_) => INT_MAX
  }

  predicate IsAbleToWrite(r: Ready) { r.pollOut && !r.pollErr }

  predicate IsAllDataWritten(wrote: nat, input: string) { wrote == |input| }

  predicate NotNul(c: char) { c != '\0' }

  /** A chunk is appended as a C string: up to its first NUL. */
  function CString(chunk: string): string { chunk[..Leading(chunk, NotNul)] }

  predicate NulFree(s: string) { All(s, NotNul) }

  // ------------------------------------------------------------------------ labels

  datatype Label =
    | ChildReads(n: nat)
    | ChildWrites(bytes: string)
    | ChildComplains(bytes: string)
    | ChildReports(bytes: string)
    | ChildClosesStdin
    | ChildExits(status: Status)
    | SignalArrives(signum: int)
    | Polls(ready: Ready)
    | Reads(n: nat)
    | Writes(n: nat)
    | Goes
  {
    predicate IsParent() { Polls? || Reads? || Writes? || Goes? }
  }

  // -------------------------------------------------------------- environment steps

  predicate EnvEnabled(caps: Capacities, w: World, l: Label) {
    match l
    case ChildReads(n) => w.alive && w.stdinRead && 1 <= n <= |w.stdin|
    case ChildWrites(bytes) => w.alive && bytes != "" && |w.stdout| + |bytes| <= caps.stdout
    case ChildComplains(bytes) => w.alive && bytes != "" && |w.stderr| + |bytes| <= caps.stderr
    case ChildReports(bytes) => w.alive && bytes != "" && |w.report| + |bytes| <= caps.report
    case ChildClosesStdin => w.alive && w.stdinRead
    case ChildExits(_) => w.alive
    case SignalArrives(signum) => signum != 0
    case _ => false
  }

  function EnvDo(w: World, l: Label): World {
    match l
    case ChildReads(n) =>
      if n <= |w.stdin| then w.(stdin := w.stdin[n..], consumed := w.consumed + w.stdin[..n]) else w
    case ChildWrites(bytes) => w.(stdout := w.stdout + bytes, wroteOut := w.wroteOut + bytes)
    case ChildComplains(bytes) => w.(stderr := w.stderr + bytes, wroteErr := w.wroteErr + bytes)
    case ChildReports(bytes) => w.(report := w.report + bytes, wroteReport := w.wroteReport + bytes)
    case ChildClosesStdin => w.(stdinRead := false)
    case ChildExits(status) => w.(alive := false, stdinRead := false, status := status)
    case SignalArrives(signum) => w.(signal := signum)
    case _ => w
  }

  // ------------------------------------------------------------------- system calls

  predicate PollOk(w: World, stdinClosed: bool, r: Ready) {
    && (w.stdout != "" ==> r.out)
    && (w.stderr != "" ==> r.err)
    && (w.report != "" ==> r.report)
    && (w.stdin == "" && w.stdinRead && !stdinClosed ==> r.pollOut && !r.pollErr)
  }

  predicate ReadOk(pipe: string, n: nat) {
    n <= |pipe| && n <= MAX_READ && (pipe != "" ==> n >= 1)
  }

  /** What the non-blocking write may take of `count` bytes: 0 stands for EPIPE and EAGAIN. */
  predicate WriteOk(caps: Capacities, w: World, count: nat, n: nat) {
    n <= count && |w.stdin| + n <= caps.stdin && (!w.stdinRead ==> n == 0)
    && (w.stdin == "" && w.stdinRead && count > 0 && caps.stdin > 0 ==> n >= 1)
  }

  // ------------------------------------------------------------------- parent steps

  predicate ParentEnabled(s: Sys, l: Label) {
    match s.p.pc
    case AtPoll => l.Polls? && PollOk(s.w, s.p.stdinClosed, l.ready)
    case AtReadOut => l.Reads? && if s.p.ready.out then ReadOk(s.w.stdout, l.n) else l.n == 0
    case AtReadErr => l.Reads? && if s.p.ready.err then ReadOk(s.w.stderr, l.n) else l.n == 0
    case AtReadReport => l.Reads? && if s.p.ready.report then ReadOk(s.w.report, l.n) else l.n == 0
    case AtWrite =>
      l.Writes? &&
      if IsAbleToWrite(s.p.ready) && !IsAllDataWritten(s.p.wrote, s.input) && s.p.wrote <= |s.input|
      then WriteOk(s.caps, s.w, |s.input| - s.p.wrote, l.n) else l.n == 0
    case Finished => false
    case _ => l.Goes?
  }

  function DoPoll(s: Sys, r: Ready): Sys {
    s.(p := s.p.(pc := AtReadOut, ready := r, mayHaveData := false, rounds := s.p.rounds + 1))
  }

  function DoReadOut(s: Sys, n: nat): Sys
    requires n <= |s.w.stdout|
  {
    if n == 0 then s.(p := s.p.(pc := AtReadErr))
    else
      var chunk := s.w.stdout[..n];
      Sys(s.input, s.caps, s.w.(stdout := s.w.stdout[n..]),
          s.p.(pc := AtReadErr, output := s.p.output + CString(chunk), outChunks := s.p.outChunks + [chunk],
              mayHaveData := true))
  }

  function DoReadErr(s: Sys, n: nat): Sys
    requires n <= |s.w.stderr|
  {
    if n == 0 then s.(p := s.p.(pc := AtWrite))
    else
      var chunk := s.w.stderr[..n];
      Sys(s.input, s.caps, s.w.(stderr := s.w.stderr[n..]),
          s.p.(pc := AtWrite, errors := s.p.errors + CString(chunk), errChunks := s.p.errChunks + [chunk],
              mayHaveData := true))
  }

  function DoWrite(s: Sys, n: nat): Sys
    requires s.p.wrote + n <= |s.input|
  {
    var bytes := s.input[s.p.wrote..s.p.wrote + n];
    Sys(s.input, s.caps, s.w.(stdin := s.w.stdin + bytes, accepted := s.w.accepted + bytes),
        s.p.(pc := AtClose, wrote := s.p.wrote + n))
  }

  function DoClose(s: Sys): Sys {
    if !s.p.stdinClosed && IsAllDataWritten(s.p.wrote, s.input)
    then s.(p := s.p.(pc := AtReadReport, stdinClosed := true, closed := s.p.closed + [InWrite]))
    else s.(p := s.p.(pc := AtReadReport))
  }

  function DoReadReport(s: Sys, n: nat): Sys
    requires n <= |s.w.report|
  {
    var chunk := s.w.report[..n];
    if n == 0 then s.(p := s.p.(pc := AtWait))
    else Sys(s.input, s.caps, s.w.(report := s.w.report[n..]),
             s.p.(pc := AtWait, report := s.p.report + CString(chunk), reportChunks := s.p.reportChunks + [chunk]))
  }

  /** waitpid does not wait: it reaps the child if it is dead, and otherwise says 0. */
  function DoWait(s: Sys): Sys {
    if !s.p.running then s.(p := s.p.(pc := AtLoopTest))
    else if s.w.alive then s.(p := s.p.(pc := AtLoopTest, mayHaveData := true))
    else Sys(s.input, s.caps, s.w.(reaped := true),
             s.p.(pc := AtLoopTest, running := false, mayHaveData := true,
                  exitStatus := Some(s.w.status), exitRound := s.p.rounds))
  }

  function DoLoopTest(s: Sys): Sys {
    s.(p := s.p.(pc := if (s.p.running || s.p.mayHaveData) && s.w.signal == 0 then AtPoll else AtSignalTest))
  }

  /** A process that has been reaped is no longer there to be killed. */
  function DoSignalTest(s: Sys): Sys {
    if s.w.signal == 0 then s.(p := s.p.(pc := AtCleanup))
    else if s.w.reaped then s.(p := s.p.(pc := Finished, outcome := Some(KillFailed)))
    else Sys(s.input, s.caps,
             if s.w.alive then s.w.(alive := false, stdinRead := false, status := Signaled(9)) else s.w,
             s.p.(pc := AtThrow))
  }

  /** The signal's number is read again for the exception; it may be that of a later one by now. */
  function DoThrow(s: Sys): Sys {
    s.(p := s.p.(pc := Finished, outcome := Some(SignalReceived(s.w.signal))))
  }

  function DoCleanup(s: Sys): Sys {
    var closed := (if s.p.stdinClosed then s.p.closed else s.p.closed + [InWrite]) + [OutRead, ReportRead, ErrRead];
    var code := if s.p.exitStatus.Some? then ExitCode(s.p.exitStatus.value) else 0;
    var outcome := if s.p.report != "" then SutExecution(s.p.report)
                   else Returned(ProcessResults(code, s.p.output, s.p.errors));
    s.(p := s.p.(pc := Finished, closed := closed, outcome := Some(outcome)))
  }

  // ---------------------------------------------------------------------- the steps

  predicate Enabled(s: Sys, l: Label) {
    s.p.pc != Finished && if l.IsParent() then ParentEnabled(s, l) else EnvEnabled(s.caps, s.w, l)
  }

  function Do(s: Sys, l: Label): Sys
    requires Enabled(s, l) && s.p.wrote <= |s.input|
  {
    if !l.IsParent() then s.(w := EnvDo(s.w, l))
    else
      match s.p.pc
      case AtPoll => DoPoll(s, l.ready)
      case AtReadOut => DoReadOut(s, l.n)
      case AtReadErr => DoReadErr(s, l.n)
      case AtWrite => DoWrite(s, l.n)
      case AtClose => DoClose(s)
      case AtReadReport => DoReadReport(s, l.n)
      case AtWait => DoWait(s)
      case AtLoopTest => DoLoopTest(s)
      case AtSignalTest => DoSignalTest(s)
      case AtThrow => DoThrow(s)
      case AtCleanup => DoCleanup(s)
      case Finished => s
  }
}
