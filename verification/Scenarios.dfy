/** Runs of the state machine that show that what the theorems speak of does happen. */
module Scenarios {
  import opened Text
  import opened Protocol
  import opened ProtocolSafety
  import opened Reporting

  // ------------------------------------------------------------ one step at a time

  /** `b` is reached from `a`, with reads of the report that take at least `least` bytes. */
  ghost predicate Gets(least: nat, a: Sys, b: Sys)
    requires Fits(a)
  {
    exists ls :: ReportRun(least, a, ls) && Run(a, ls) && After(a, ls) == b
  }

  lemma {:induction false} OneMore(least: nat, a: Sys, ls: seq<Label>, l: Label)
    requires Fits(a) && ReportRun(least, a, ls) && Run(a, ls)
    requires Enabled(After(a, ls), l) && TakesEnough(least, After(a, ls), l)
    ensures ReportRun(least, a, ls + [l]) && Run(a, ls + [l]) && After(a, ls + [l]) == Do(After(a, ls), l)
    decreases |ls|
  {
    hide Do, Enabled, TakesEnough;
    if ls == [] {
      FitsKept(a, l);
      assert [] + [l] == [l] && [l][1..] == [];
    } else {
      FitsKept(a, ls[0]);
      OneMore(least, Do(a, ls[0]), ls[1..], l);
      assert (ls + [l])[1..] == ls[1..] + [l];
    }
  }

  lemma GetsSelf(least: nat, a: Sys)
    requires Fits(a)
    ensures Gets(least, a, a)
  {
    assert ReportRun(least, a, []) && Run(a, []) && After(a, []) == a;
  }

  lemma Step(least: nat, a: Sys, b: Sys, l: Label) returns (t: Sys)
    requires Fits(a) && Gets(least, a, b) && Enabled(b, l) && TakesEnough(least, b, l)
    ensures Fits(b) && t == Do(b, l) && Gets(least, a, t)
  {
    hide Do, Enabled, TakesEnough;
    var ls :| ReportRun(least, a, ls) && Run(a, ls) && After(a, ls) == b;
    OneMore(least, a, ls, l);
    assert ReportRun(least, a, ls + [l]);
    t := Do(b, l);
  }

  /** A step of the child, or a signal. */
  lemma Outside(least: nat, a: Sys, s: Sys, l: Label) returns (t: Sys)
    requires Fits(a) && Gets(least, a, s) && s.p.pc != Finished && !l.IsParent() && EnvEnabled(s.caps, s.w, l)
    ensures Gets(least, a, t) && t == s.(w := EnvDo(s.w, l))
  {
    hide Gets, EnvEnabled, EnvDo;
    t := Step(least, a, s, l);
  }

  // ------------------------------------------------------------------- half rounds

  /** A child that reads nothing, and a parent at the start of a round. */
  predicate Calm(s: Sys) {
    s.p.pc == AtPoll && !s.w.stdinRead && s.w.stderr == "" && s.w.signal == 0 && |s.w.stdout| <= MAX_READ
  }

  /** What poll says if there is something on stdout, or in the report. */
  function Sees(s: Sys): Ready { Ready(s.w.stdout != "", false, s.w.report != "", false, false) }

  /** From poll to the read of the report: all of stdout is read, and nothing is written. */
  lemma FirstHalf(least: nat, a: Sys, s: Sys) returns (t: Sys)
    requires Fits(a) && Gets(least, a, s) && Calm(s)
    ensures Gets(least, a, t) && t.p.pc == AtReadReport && t.p.ready == Sees(s) && t.input == s.input
            && t.caps == s.caps
    ensures t.w == s.w.(stdout := "") && t.p.mayHaveData == (s.w.stdout != "")
    ensures t.p.output == s.p.output + CString(s.w.stdout) && t.p.errors == s.p.errors && t.p.report == s.p.report
    ensures t.p.running == s.p.running && t.p.exitStatus == s.p.exitStatus
  {
    hide Gets, CString;
    var s1 := PollSees(least, a, s);
    var s2 := ReadAllOutput(least, a, s1);
    t := NothingWritten(least, a, s2);
  }

  lemma PollSees(least: nat, a: Sys, s: Sys) returns (t: Sys)
    requires Fits(a) && Gets(least, a, s) && Calm(s)
    ensures Gets(least, a, t) && t.input == s.input && t.caps == s.caps && t.w == s.w
    ensures t.p == s.p.(pc := AtReadOut, ready := Sees(s), mayHaveData := false, rounds := s.p.rounds + 1)
  {
    hide Gets;
    t := Step(least, a, s, Polls(Sees(s)));
  }

  lemma NothingWritten(least: nat, a: Sys, s: Sys) returns (t: Sys)
    requires Fits(a) && Gets(least, a, s) && s.p.pc == AtReadErr && !s.p.ready.err && !s.p.ready.pollOut
    ensures Gets(least, a, t) && t.input == s.input && t.caps == s.caps && t.w == s.w
    ensures t.p == s.p.(pc := AtReadReport, stdinClosed := t.p.stdinClosed, closed := t.p.closed)
  {
    hide Gets;
    var s1 := Step(least, a, s, Reads(0));
    var s2 := Step(least, a, s1, Writes(0));
    assert s2.w == s1.w by { assert s1.w.stdin + "" == s1.w.stdin && s1.w.accepted + "" == s1.w.accepted; }
    t := Step(least, a, s2, Goes);
  }

  lemma ReadAllOutput(least: nat, a: Sys, s: Sys) returns (t: Sys)
    requires Fits(a) && Gets(least, a, s) && s.p.pc == AtReadOut && s.p.ready.out == (s.w.stdout != "")
    requires |s.w.stdout| <= MAX_READ
    ensures Gets(least, a, t) && t.input == s.input && t.caps == s.caps && t.w == s.w.(stdout := "")
    ensures t.p == s.p.(pc := AtReadErr, output := s.p.output + CString(s.w.stdout), outChunks := t.p.outChunks,
                        mayHaveData := s.p.mayHaveData || s.w.stdout != "")
  {
    hide Gets;
    var n := |s.w.stdout|;
    assert s.w.stdout[..n] == s.w.stdout && s.w.stdout[n..] == "";
    t := Step(least, a, s, Reads(n));
    assert CString("") == "";
  }

  /** The child exits right after the report was read; its exit is seen at once. */
  lemma ExitIsSeen(least: nat, a: Sys, s: Sys, status: Status) returns (t: Sys)
    requires Fits(a) && Gets(least, a, s) && s.p.pc == AtWait && s.w.alive && s.p.running && s.w.signal == 0
    ensures Gets(least, a, t) && t.p.pc == AtPoll && t.input == s.input && t.caps == s.caps
    ensures t.w == s.w.(alive := false, stdinRead := false, reaped := true, status := status)
    ensures t.p.output == s.p.output && t.p.errors == s.p.errors && t.p.report == s.p.report
    ensures !t.p.running && t.p.exitStatus == Some(status)
  {
    hide Gets;
    var s1 := Step(least, a, s, ChildExits(status));
    var s2 := Step(least, a, s1, Goes);
    t := Step(least, a, s2, Goes);
  }

  /** The last steps of a round after the child's exit was seen, in which there was nothing on stdout. */
  lemma LoopEnds(least: nat, a: Sys, s: Sys) returns (t: Sys)
    requires Fits(a) && Gets(least, a, s) && s.p.pc == AtWait && !s.p.running && !s.p.mayHaveData && s.w.signal == 0
    requires s.p.exitStatus.Some?
    ensures Gets(least, a, t) && t.w == s.w
    ensures t.p.outcome == Some(if s.p.report != "" then SutExecution(s.p.report)
                                else Returned(ProcessResults(ExitCode(s.p.exitStatus.value), s.p.output, s.p.errors)))
  {
    hide Gets, ExitCode;
    var s1 := Step(least, a, s, Goes);
    var s2 := Step(least, a, s1, Goes);
    var s3 := Step(least, a, s2, Goes);
    t := Step(least, a, s3, Goes);
  }

  /** A signal comes before the loop's condition is tested. */
  lemma SignalEndsLoop(least: nat, a: Sys, s: Sys, signum: int) returns (t: Sys)
    requires Fits(a) && Gets(least, a, s) && s.p.pc == AtWait && signum != 0 && (s.p.running ==> s.w.alive)
    ensures Gets(least, a, t) && t.p.pc == AtSignalTest && t.w == s.w.(signal := signum)
  {
    hide Gets, CString;
    var s1 := Step(least, a, s, Goes);
    var s2 := Outside(least, a, s1, SignalArrives(signum));
    t := Step(least, a, s2, Goes);
  }

  // ------------------------------------------------------------------- the outcomes

  /** A child that does not read. */
  lemma Begin(least: nat, input: string, caps: Capacities) returns (s: Sys)
    ensures Gets(least, Start(input, caps), s)
    ensures s == var a := Start(input, caps); a.(w := a.w.(stdinRead := false))
  {
    GetsSelf(least, Start(input, caps));
    hide Gets;
    s := Step(least, Start(input, caps), Start(input, caps), ChildClosesStdin);
  }

  /** A read of the report that finds nothing, or all there is up to `n` bytes. */
  lemma ReadReport(least: nat, a: Sys, s: Sys, n: nat) returns (t: Sys)
    requires Fits(a) && Gets(least, a, s) && s.p.pc == AtReadReport && s.p.ready.report == (s.w.report != "")
    requires n <= |s.w.report| && n <= MAX_READ && (s.w.report != "" ==> n >= 1) && (n >= least || n == |s.w.report|)
    ensures Gets(least, a, t) && t.input == s.input && t.caps == s.caps
    ensures t.w == s.w.(report := s.w.report[n..])
    ensures t.p == s.p.(pc := AtWait, report := s.p.report + CString(s.w.report[..n]), reportChunks := t.p.reportChunks)
  {
    hide Gets;
    t := Step(least, a, s, Reads(n));
    if n == 0 {
      assert CString("") == "" && s.w.report[..0] == "";
    }
  }

  /** The child writes `bytes` and exits. What is returned is its exit code, or INT_MAX if it was killed, and what it
      wrote, up to the first NUL. */
  lemma CallReturns(input: string, caps: Capacities, bytes: string, status: Status) returns (ls: seq<Label>)
    requires bytes != "" && |bytes| <= caps.stdout && |bytes| <= MAX_READ
    ensures Run(Start(input, caps), ls)
    ensures var s := After(Start(input, caps), ls);
            s.w.wroteOut == bytes && s.w.status == status
            && s.p.outcome == Some(Returned(ProcessResults(
                 match status { case Exited(code) => code case Signaled(_) => 0x7FFF_FFFF }, CString(bytes), "")))
  {
    var a := Start(input, caps);
    var s := Begin(1, input, caps);
    hide Gets, CString;
    s := Outside(1, a, s, ChildWrites(bytes));
    s := FirstHalf(1, a, s);
    s := ReadReport(1, a, s, 0);
    s := ExitIsSeen(1, a, s, status);
    s := FirstHalf(1, a, s);
    s := ReadReport(1, a, s, 0);
    NothingAppended(CString(bytes));
    s := LoopEnds(1, a, s);
    ls := Witness(1, a, s);
  }

  lemma NothingAppended(s: string)
    ensures s + CString("") == s && "" + s == s
  {
  }

  lemma Witness(least: nat, a: Sys, b: Sys) returns (ls: seq<Label>)
    requires Fits(a) && Gets(least, a, b)
    ensures ReportRun(least, a, ls) && Run(a, ls) && After(a, ls) == b
  {
    ls :| ReportRun(least, a, ls) && Run(a, ls) && After(a, ls) == b;
  }

  /** A NUL cuts off what the child wrote behind it. */
  lemma NulLosesOutput(input: string, caps: Capacities) returns (ls: seq<Label>)
    requires caps.stdout >= 3
    ensures Run(Start(input, caps), ls)
    ensures var s := After(Start(input, caps), ls);
            s.w.wroteOut == "a\0b" && s.p.outcome == Some(Returned(ProcessResults(0, "a", "")))
  {
    ls := CallReturns(input, caps, "a\0b", Exited(0));
    hide Run, After;
    assert "a\0b"[..1] == "a";
  }

  lemma KillAndThrow(least: nat, a: Sys, s: Sys, signum: int) returns (t: Sys)
    requires Fits(a) && Gets(least, a, s) && s.p.pc == AtSignalTest && s.w.signal != 0 && signum != 0
    requires s.w.alive && !s.w.reaped
    ensures Gets(least, a, t) && t.w.status == Signaled(9) && !t.w.reaped && t.p.outcome == Some(SignalReceived(signum))
  {
    hide Gets;
    var s1 := Step(least, a, s, Goes);
    var s2 := Outside(least, a, s1, SignalArrives(signum));
    t := Step(least, a, s2, Goes);
  }

  lemma FailToKill(least: nat, a: Sys, s: Sys) returns (t: Sys)
    requires Fits(a) && Gets(least, a, s) && s.p.pc == AtSignalTest && s.w.signal != 0 && s.w.reaped
    ensures Gets(least, a, t) && t.w == s.w && t.p.outcome == Some(KillFailed)
  {
    hide Gets;
    t := Step(least, a, s, Goes);
  }

  /** A signal that comes while the child is running, and another before the exception is made: the child is killed,
      and the exception has the number of the later signal. */
  lemma SignalKills(input: string, caps: Capacities, first: int, second: int) returns (ls: seq<Label>)
    requires first != 0 && second != 0
    ensures Run(Start(input, caps), ls)
    ensures var s := After(Start(input, caps), ls);
            s.w.status == Signaled(9) && !s.w.reaped && s.p.outcome == Some(SignalReceived(second))
  {
    var a := Start(input, caps);
    var s := Begin(1, input, caps);
    hide Gets, CString;
    s := FirstHalf(1, a, s);
    s := ReadReport(1, a, s, 0);
    s := SignalEndsLoop(1, a, s, first);
    s := KillAndThrow(1, a, s, second);
    ls := Witness(1, a, s);
  }

  /** A signal that comes when the child has exited and has been waited for: there is nobody to kill. */
  lemma KillFails(input: string, caps: Capacities, status: Status, signum: int) returns (ls: seq<Label>)
    requires signum != 0
    ensures Run(Start(input, caps), ls)
    ensures var s := After(Start(input, caps), ls); s.w.status == status && s.p.outcome == Some(KillFailed)
  {
    var a := Start(input, caps);
    var s := Begin(1, input, caps);
    hide Gets, CString;
    s := FirstHalf(1, a, s);
    s := ReadReport(1, a, s, 0);
    s := ExitIsSeen(1, a, s, status);
    s := FirstHalf(1, a, s);
    s := ReadReport(1, a, s, 0);
    s := SignalEndsLoop(1, a, s, signum);
    s := FailToKill(1, a, s);
    ls := Witness(1, a, s);
  }

  // ---------------------------------------------------------------- long reports

  /** The child has reported the first `k` bytes of `r`, and the parent has read them all. */
  predicate Told(s: Sys, r: string, k: nat) {
    && Calm(s) && s.w.alive && s.p.running && s.w.stdout == "" && s.w.report == ""
    && k <= |r| && s.w.wroteReport == r[..k] && s.p.report == r[..k]
  }

  /** One round, in which the child reports one more byte. */
  lemma TellOne(least: nat, a: Sys, s: Sys, r: string, k: nat) returns (t: Sys)
    requires Fits(a) && Gets(least, a, s) && Told(s, r, k) && k < |r| && s.caps.report >= 1 && NulFree(r)
    ensures Gets(least, a, t) && Told(t, r, k + 1) && t.caps == s.caps
  {
    hide Gets, CString, NulFree;
    OneByte(r, k);
    t := Outside(least, a, s, ChildReports([r[k]]));
    t := FirstHalf(least, a, t);
    t := ReadReport(least, a, t, 1);
    t := Step(least, a, t, Goes);
    t := Step(least, a, t, Goes);
  }

  lemma OneByte(r: string, k: nat)
    requires k < |r| && NulFree(r)
    ensures r[..k] + [r[k]] == r[..k + 1] && CString([r[k]]) == [r[k]] && "" + [r[k]] == [r[k]]
    ensures [r[k]][..1] == [r[k]] && [r[k]][1..] == ""
  {
    CStringIsExact([r[k]]);
  }

  lemma {:induction false} TellMany(least: nat, a: Sys, s: Sys, r: string, k: nat) returns (t: Sys)
    requires Fits(a) && Gets(least, a, s) && Told(s, r, 0) && k <= |r| && s.caps.report >= 1 && NulFree(r)
    ensures Gets(least, a, t) && Told(t, r, k) && t.caps == s.caps
    decreases k
  {
    hide Gets, CString, NulFree, Told;
    if k == 0 {
      t := s;
    } else {
      t := TellMany(least, a, s, r, k - 1);
      t := TellOne(least, a, t, r, k - 1);
    }
  }

  /** Every report that has no NUL can arrive whole, through any pipe. */
  lemma ReportTold(input: string, caps: Capacities, r: string) returns (ls: seq<Label>)
    requires NulFree(r) && r != "" && caps.report >= 1
    ensures Run(Start(input, caps), ls)
    ensures var s := After(Start(input, caps), ls); s.w.wroteReport == r && s.p.outcome == Some(SutExecution(r))
  {
    var a := Start(input, caps);
    var s := Begin(1, input, caps);
    s := TellMany(1, a, s, r, |r|);
    hide Gets, CString, NulFree;
    LastBytes(r, |r|, 0);
    assert r[..|r|] == r;
    s := FirstHalf(1, a, s);
    s := ReadReport(1, a, s, 0);
    s := ExitIsSeen(1, a, s, Exited(1));
    s := FirstHalf(1, a, s);
    s := ReadReport(1, a, s, 0);
    s := LoopEnds(1, a, s);
    ls := Witness(1, a, s);
  }

  /** A report longer than the shortest read, through a pipe that holds more than that, may lose its last byte:
      the child reports the last `least + 1` bytes at once and exits, and only one read follows. */
  lemma ReportCut(input: string, caps: Capacities, least: nat, r: string) returns (ls: seq<Label>)
    requires NulFree(r) && 1 <= least <= MAX_READ && |r| > least && caps.report > least
    ensures ReportRun(least, Start(input, caps), ls) && Run(Start(input, caps), ls)
    ensures var s := After(Start(input, caps), ls);
            s.w.wroteReport == r && s.p.outcome == Some(SutExecution(r[..|r| - 1]))
  {
    var a, k := Start(input, caps), |r| - least - 1;
    var s := Begin(least, input, caps);
    s := TellMany(least, a, s, r, k);
    hide Gets, NulFree, Told;
    s := CutShort(least, a, s, r, k);
    ls := Witness(least, a, s);
  }

  lemma CutShort(least: nat, a: Sys, s: Sys, r: string, k: nat) returns (t: Sys)
    requires Fits(a) && Gets(least, a, s) && Told(s, r, k) && s.caps.report > least
    requires NulFree(r) && 1 <= least <= MAX_READ && |r| == k + least + 1
    ensures Gets(least, a, t) && t.w.wroteReport == r && t.p.outcome == Some(SutExecution(r[..|r| - 1]))
  {
    hide Gets, CString, NulFree;
    LastBytes(r, k, least);
    t := FirstHalf(least, a, s);
    t := ReadReport(least, a, t, 0);
    t := Outside(least, a, t, ChildReports(r[k..]));
    t := ExitIsSeen(least, a, t, Exited(1));
    t := FirstHalf(least, a, t);
    t := ReadReport(least, a, t, least);
    t := LoopEnds(least, a, t);
  }

  lemma LastBytes(r: string, k: nat, n: nat)
    requires NulFree(r) && k + n <= |r|
    ensures r[..k] + r[k..] == r && CString(r[k..][..n]) == r[k..][..n] && "" + r[k..] == r[k..]
    ensures r[..k] + r[k..][..n] == r[..k + n] && r[..k] + CString("") == r[..k]
  {
    CStringIsExact(r[k..][..n]);
  }

  /** Exactly when is a report always handed over whole? When it is no longer than the shortest read of the report, or
      the pipe holds no more than that. (With full reads of a pipe, `least` is MAX_READ.) */
  lemma WholeReportIff(input: string, caps: Capacities, least: nat, r: string)
    requires NulFree(r) && r != "" && 1 <= least <= MAX_READ
    ensures (forall ls {:trigger After(Start(input, caps), ls)} ::
               ReportRun(least, Start(input, caps), ls) && Run(Start(input, caps), ls) ==>
                 var s := After(Start(input, caps), ls);
                 EndsNormally(s) && s.w.wroteReport == r ==> s.p.outcome == Some(SutExecution(r)))
            <==> |r| <= least || caps.report <= least
  {
    var a := Start(input, caps);
    if |r| <= least || caps.report <= least {
      forall ls | ReportRun(least, a, ls) && Run(a, ls)
        ensures var s := After(a, ls);
                EndsNormally(s) && s.w.wroteReport == r ==> s.p.outcome == Some(SutExecution(r))
      {
        ReportArrives(input, caps, least, ls);
        var s := After(a, ls);
        hide Run, ReportRun, After, Start, NulFree;
        assert s.w.report == "" ==> s.p.report + s.w.report == s.p.report;
      }
    } else {
      var ls := ReportCut(input, caps, least, r);
      hide Run, ReportRun, Start;
      assert EndsNormally(After(a, ls));
    }
  }
}
