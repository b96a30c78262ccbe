/** What every step of the poll loop keeps, and what follows for every run. */
module ProtocolSafety {
  import opened Text
  import opened Protocol

  // ------------------------------------------------------------------------- runs

  /** The four ends the parent closes before the loop, the one it closes in it or after it, and the last three. */
  const FOUR_CLOSED := [OutWrite, InRead, ReportWrite, ErrWrite]
  const FIVE_CLOSED := [OutWrite, InRead, ReportWrite, ErrWrite, InWrite]
  const ALL_CLOSED := [OutWrite, InRead, ReportWrite, ErrWrite, InWrite, OutRead, ReportRead, ErrRead]

  function Start(input: string, caps: Capacities): Sys {
    Sys(input, caps,
        World("", "", "", "", true, true, false, Exited(0), 0, "", "", "", "", ""),
        Parent(AtPoll, Ready(false, false, false, false, false), 0, "", "", "", true, false, false, None,
               FOUR_CLOSED, None, [], [], [], 0, 0))
  }

  predicate Fits(s: Sys) { s.p.wrote <= |s.input| }

  lemma FitsKept(s: Sys, l: Label)
    requires Fits(s) && Enabled(s, l)
    ensures Fits(Do(s, l)) && Do(s, l).input == s.input && Do(s, l).caps == s.caps
  {
  }

  /** `ls` is a run from `s`: each label is enabled when its turn comes. */
  predicate Run(s: Sys, ls: seq<Label>)
    requires Fits(s)
    decreases |ls|
  {
    if ls == [] then true
    else Enabled(s, ls[0]) && (FitsKept(s, ls[0]); Run(Do(s, ls[0]), ls[1..]))
  }

  function After(s: Sys, ls: seq<Label>): (r: Sys)
    requires Fits(s) && Run(s, ls)
    ensures Fits(r) && r.input == s.input && r.caps == s.caps
    decreases |ls|
  {
    if ls == [] then s else (FitsKept(s, ls[0]); After(Do(s, ls[0]), ls[1..]))
  }

  // --------------------------------------------------------------------- chunks

  function Concat(chunks: seq<string>): string {
    if chunks == [] then "" else Concat(chunks[..|chunks| - 1]) + chunks[|chunks| - 1]
  }

  function ConcatC(chunks: seq<string>): string {
    if chunks == [] then "" else ConcatC(chunks[..|chunks| - 1]) + CString(chunks[|chunks| - 1])
  }

  lemma ConcatSnoc(chunks: seq<string>, chunk: string)
    ensures Concat(chunks + [chunk]) == Concat(chunks) + chunk
    ensures ConcatC(chunks + [chunk]) == ConcatC(chunks) + CString(chunk)
  {
    assert (chunks + [chunk])[..|chunks|] == chunks;
  }

  /** Appending chunks as C strings loses nothing exactly when no chunk has a NUL. */
  lemma {:induction false} CStringsAreExact(chunks: seq<string>)
    ensures |ConcatC(chunks)| <= |Concat(chunks)|
    ensures ConcatC(chunks) == Concat(chunks) <==> NulFree(Concat(chunks))
  {
    if chunks != [] {
      var front, last := chunks[..|chunks| - 1], chunks[|chunks| - 1];
      CStringsAreExact(front);
      CStringIsExact(last);
      NulFreeConcat(Concat(front), last);
      hide CString, NulFree;
      if |ConcatC(front)| == |Concat(front)| && |CString(last)| == |last| {
        EqualParts(ConcatC(front), CString(last), Concat(front), last);
      }
    }
  }

  lemma EqualParts(a: string, b: string, c: string, d: string)
    requires |a| == |c| && |b| == |d|
    ensures a + b == c + d <==> a == c && b == d
  {
    if a + b == c + d {
      assert a == (a + b)[..|a|] && b == (a + b)[|a|..];
      assert c == (c + d)[..|c|] && d == (c + d)[|c|..];
    }
  }

  lemma CStringIsExact(chunk: string)
    ensures |CString(chunk)| <= |chunk|
    ensures |CString(chunk)| == |chunk| <==> NulFree(chunk)
    ensures CString(chunk) == chunk <==> NulFree(chunk)
  {
    LeadingStops(chunk, NotNul);
  }

  lemma NulFreeConcat(a: string, b: string)
    ensures NulFree(a + b) <==> NulFree(a) && NulFree(b)
  {
    assert forall i :: 0 <= i < |a| ==> (a + b)[i] == a[i];
    assert forall i :: 0 <= i < |b| ==> (a + b)[|a| + i] == b[i];
  }

  // ------------------------------------------------------------------ invariants

  /** No channel loses, invents or reorders a byte. */
  predicate Conserved(s: Sys) {
    && s.w.accepted == s.w.consumed + s.w.stdin
    && s.w.wroteOut == Concat(s.p.outChunks) + s.w.stdout
    && s.w.wroteErr == Concat(s.p.errChunks) + s.w.stderr
    && s.w.wroteReport == Concat(s.p.reportChunks) + s.w.report
    && s.p.output == ConcatC(s.p.outChunks)
    && s.p.errors == ConcatC(s.p.errChunks)
    && s.p.report == ConcatC(s.p.reportChunks)
  }

  /** The child's stdin pipe took exactly a prefix of the input, and its write end is closed in the loop only at the
      end of it. */
  predicate WritePrefix(s: Sys) {
    && s.p.wrote <= |s.input| && s.w.accepted == s.input[..s.p.wrote]
    && (s.p.stdinClosed ==> s.p.wrote == |s.input|)
    && |s.w.stdin| <= s.caps.stdin
  }

  predicate LifeCycle(s: Sys) {
    && (s.w.stdinRead ==> s.w.alive)
    && (s.w.reaped ==> !s.w.alive)
    && (s.p.running <==> !s.w.reaped)
    && s.p.exitStatus == (if s.p.running then None else Some(s.w.status))
    && (!s.p.running ==> s.p.exitRound <= s.p.rounds)
  }

  predicate ClosedOnce(s: Sys) {
    && (s.p.pc != Finished
       ==> s.p.outcome == None && s.p.closed == if s.p.stdinClosed then FIVE_CLOSED else FOUR_CLOSED)
    && (s.p.pc == Finished ==> s.p.outcome.Some?)
    && (s.p.outcome.Some? && (s.p.outcome.value.Returned? || s.p.outcome.value.SutExecution?)
       ==> s.p.closed == ALL_CLOSED)
  }

  /** The child's exit was seen in an earlier round, and nothing it wrote is left in its two output pipes. */
  predicate Drained(s: Sys) {
    && !s.p.running && s.p.exitRound < s.p.rounds
    && s.w.stdout == "" && s.w.stderr == ""
    && (s.w.wroteReport != "" ==> Concat(s.p.reportChunks) != "")
  }

  /** How far the current round has come in finding the pipes empty. Only rounds that start after the exit count. */
  predicate Draining(s: Sys) {
    var quiet := !s.p.running && !s.p.mayHaveData;
    var late := !s.p.running && s.p.exitRound < s.p.rounds;
    match s.p.pc
    case AtPoll => true
    case AtReadOut =>
      !s.p.running ==> late && (s.w.stdout != "" ==> s.p.ready.out) && (s.w.stderr != "" ==> s.p.ready.err)
                       && (s.w.report != "" ==> s.p.ready.report)
    case AtReadErr =>
      && (quiet ==> s.w.stdout == "")
      && (!s.p.running ==> late && (s.w.stderr != "" ==> s.p.ready.err) && (s.w.report != "" ==> s.p.ready.report))
    case AtWrite | AtClose | AtReadReport =>
      && (quiet ==> s.w.stdout == "" && s.w.stderr == "")
      && (!s.p.running ==> late && (s.w.report != "" ==> s.p.ready.report))
    case AtWait =>
      && (quiet ==> s.w.stdout == "" && s.w.stderr == "")
      && (!s.p.running ==> late && (s.w.wroteReport != "" ==> Concat(s.p.reportChunks) != ""))
    case AtLoopTest => !s.p.mayHaveData ==> Drained(s)
    case AtSignalTest => s.w.signal == 0 ==> Drained(s)
    case AtThrow => s.w.signal != 0 && !s.w.alive && !s.w.reaped
    case AtCleanup => Drained(s)
    case Finished => true
  }

  /** What the outcome says of the state it was decided in. */
  predicate OutcomeSound(s: Sys) {
    match s.p.outcome
    case None => true
    case Some(Returned(results)) =>
      Drained(s) && s.p.report == "" && s.p.exitStatus.Some?
      && results == ProcessResults(ExitCode(s.p.exitStatus.value), s.p.output, s.p.errors)
    case Some(SutExecution(message)) => Drained(s) && message == s.p.report != ""
    case Some(SignalReceived(signum)) => signum == s.w.signal != 0 && !s.w.alive && !s.w.reaped
    case Some(KillFailed) => s.w.signal != 0 && s.w.reaped
  }

  predicate Inv(s: Sys) {
    Conserved(s) && WritePrefix(s) && LifeCycle(s) && ClosedOnce(s) && Draining(s) && OutcomeSound(s)
  }

  // ----------------------------------------------------------------- preservation

  lemma ConservedByEnv(s: Sys, l: Label)
    requires Conserved(s) && EnvEnabled(s.caps, s.w, l)
    ensures Conserved(s.(w := EnvDo(s.w, l)))
  {
    hide Concat, ConcatC;
    if l.ChildReads? {
      assert s.w.stdin == s.w.stdin[..l.n] + s.w.stdin[l.n..];
      Assoc(s.w.consumed, s.w.stdin[..l.n], s.w.stdin[l.n..]);
    } else if l.ChildWrites? {
      Assoc(Concat(s.p.outChunks), s.w.stdout, l.bytes);
    } else if l.ChildComplains? {
      Assoc(Concat(s.p.errChunks), s.w.stderr, l.bytes);
    } else if l.ChildReports? {
      Assoc(Concat(s.p.reportChunks), s.w.report, l.bytes);
    }
  }

  lemma ChunkMoves(chunks: seq<string>, pipe: string, n: nat)
    requires n <= |pipe|
    ensures Concat(chunks + [pipe[..n]]) + pipe[n..] == Concat(chunks) + pipe
    ensures ConcatC(chunks + [pipe[..n]]) == ConcatC(chunks) + CString(pipe[..n])
  {
    hide Concat, ConcatC, CString;
    ConcatSnoc(chunks, pipe[..n]);
    Assoc(Concat(chunks), pipe[..n], pipe[n..]);
    assert pipe == pipe[..n] + pipe[n..];
  }

  lemma ConservedByReadOut(s: Sys, n: nat)
    requires Conserved(s) && n <= |s.w.stdout|
    ensures Conserved(DoReadOut(s, n))
  {
    hide Concat, ConcatC, CString;
    ChunkMoves(s.p.outChunks, s.w.stdout, n);
  }

  lemma ConservedByReadErr(s: Sys, n: nat)
    requires Conserved(s) && n <= |s.w.stderr|
    ensures Conserved(DoReadErr(s, n))
  {
    hide Concat, ConcatC, CString;
    ChunkMoves(s.p.errChunks, s.w.stderr, n);
  }

  lemma ConservedByReadReport(s: Sys, n: nat)
    requires Conserved(s) && n <= |s.w.report|
    ensures Conserved(DoReadReport(s, n))
  {
    hide Concat, ConcatC, CString;
    ChunkMoves(s.p.reportChunks, s.w.report, n);
  }

  lemma ConservedByWrite(s: Sys, n: nat)
    requires Conserved(s) && s.p.wrote + n <= |s.input|
    ensures Conserved(DoWrite(s, n))
  {
    hide Concat, ConcatC;
    Assoc(s.w.consumed, s.w.stdin, s.input[s.p.wrote..s.p.wrote + n]);
  }

  lemma ConservedByRest(s: Sys, r: Ready)
    requires Conserved(s)
    ensures Conserved(DoPoll(s, r)) && Conserved(DoClose(s)) && Conserved(DoWait(s)) && Conserved(DoLoopTest(s))
    ensures Conserved(DoSignalTest(s)) && Conserved(DoThrow(s)) && Conserved(DoCleanup(s))
  {
    hide Concat, ConcatC;
  }

  lemma ConservedKept(s: Sys, l: Label)
    requires Conserved(s) && Fits(s) && Enabled(s, l)
    ensures Conserved(Do(s, l))
  {
    hide Conserved, DoPoll, DoReadOut, DoReadErr, DoReadReport, DoWrite, DoClose, DoWait, DoLoopTest, DoSignalTest,
         DoThrow, DoCleanup, EnvDo;
    if !l.IsParent() {
      ConservedByEnv(s, l);
    } else {
      match s.p.pc
      case AtReadOut => ConservedByReadOut(s, l.n);
      case AtReadErr => ConservedByReadErr(s, l.n);
      case AtReadReport => ConservedByReadReport(s, l.n);
      case AtWrite => ConservedByWrite(s, l.n);
      case AtPoll => ConservedByRest(s, l.ready);
      case _ => ConservedByRest(s, s.p.ready);
    }
  }

  lemma WritePrefixKept(s: Sys, l: Label)
    requires WritePrefix(s) && Enabled(s, l)
    ensures WritePrefix(Do(s, l))
  {
    if s.p.pc == AtWrite && l.Writes? {
      assert s.input[..s.p.wrote + l.n] == s.input[..s.p.wrote] + s.input[s.p.wrote..s.p.wrote + l.n];
    }
  }

  /** Only a pipe that was reported to have data is read, and only one that was reported writable and free of errors is
      written. */
  lemma OnlyReadyPipes(s: Sys, l: Label)
    requires Enabled(s, l)
    ensures s.p.pc == AtReadOut && l.Reads? && l.n > 0 ==> s.p.ready.out
    ensures s.p.pc == AtReadErr && l.Reads? && l.n > 0 ==> s.p.ready.err
    ensures s.p.pc == AtReadReport && l.Reads? && l.n > 0 ==> s.p.ready.report
    ensures s.p.pc == AtWrite && l.Writes? && l.n > 0 ==>
              s.p.ready.pollOut && !s.p.ready.pollErr && s.p.wrote + l.n <= |s.input|
  {
  }

  lemma LifeCycleKept(s: Sys, l: Label)
    requires LifeCycle(s) && Fits(s) && Enabled(s, l)
    ensures LifeCycle(Do(s, l))
  {
    hide CString;
  }

  lemma ClosedByClose(s: Sys)
    requires ClosedOnce(s) && s.p.pc == AtClose
    ensures ClosedOnce(DoClose(s))
  {
    assert FOUR_CLOSED + [InWrite] == FIVE_CLOSED;
  }

  lemma ClosedByCleanup(s: Sys)
    requires ClosedOnce(s) && s.p.pc == AtCleanup
    ensures ClosedOnce(DoCleanup(s))
  {
    assert FOUR_CLOSED + [InWrite] == FIVE_CLOSED;
    assert FIVE_CLOSED + [OutRead, ReportRead, ErrRead] == ALL_CLOSED;
  }

  /** Only three steps touch the log of closes, the flag that goes with it, or the outcome. */
  lemma Untouched(s: Sys, l: Label)
    requires Fits(s) && Enabled(s, l)
    requires l.IsParent() ==> s.p.pc != AtClose && s.p.pc != AtSignalTest && s.p.pc != AtThrow && s.p.pc != AtCleanup
    ensures var p := Do(s, l).p;
            p.closed == s.p.closed && p.stdinClosed == s.p.stdinClosed && p.outcome == s.p.outcome && p.pc != Finished
  {
    hide CString, EnvDo;
  }

  lemma ClosedOnceKept(s: Sys, l: Label)
    requires ClosedOnce(s) && Fits(s) && Enabled(s, l)
    ensures ClosedOnce(Do(s, l))
  {
    hide DoPoll, DoReadOut, DoReadErr, DoReadReport, DoWrite, DoClose, DoWait, DoLoopTest, DoCleanup, EnvDo;
    if l.IsParent() && s.p.pc == AtClose {
      ClosedByClose(s);
    } else if l.IsParent() && s.p.pc == AtCleanup {
      ClosedByCleanup(s);
    } else if !(l.IsParent() && (s.p.pc == AtSignalTest || s.p.pc == AtThrow)) {
      Untouched(s, l);
    }
  }

  lemma OutcomeKept(s: Sys, l: Label)
    requires OutcomeSound(s) && ClosedOnce(s) && Draining(s) && LifeCycle(s) && Fits(s) && Enabled(s, l)
    ensures OutcomeSound(Do(s, l))
  {
    hide DoPoll, DoReadOut, DoReadErr, DoReadReport, DoWrite, DoWait, DoLoopTest, EnvDo, Concat;
    if !(l.IsParent() && (s.p.pc == AtClose || s.p.pc == AtSignalTest || s.p.pc == AtThrow || s.p.pc == AtCleanup)) {
      Untouched(s, l);
    }
  }

  lemma DrainingByEnv(s: Sys, l: Label)
    requires Draining(s) && LifeCycle(s) && EnvEnabled(s.caps, s.w, l)
    ensures Draining(s.(w := EnvDo(s.w, l)))
  {
    hide Concat;
  }

  lemma DrainingByReads(s: Sys, n: nat)
    requires Draining(s) && LifeCycle(s) && Conserved(s)
    ensures s.p.pc == AtReadOut && (if s.p.ready.out then ReadOk(s.w.stdout, n) else n == 0)
            ==> Draining(DoReadOut(s, n))
    ensures s.p.pc == AtReadErr && (if s.p.ready.err then ReadOk(s.w.stderr, n) else n == 0)
            ==> Draining(DoReadErr(s, n))
  {
    hide Concat, ConcatC, CString, Conserved;
  }

  lemma DrainingByReadReport(s: Sys, n: nat)
    requires Draining(s) && LifeCycle(s) && Conserved(s)
    requires s.p.pc == AtReadReport && (if s.p.ready.report then ReadOk(s.w.report, n) else n == 0)
    ensures Draining(DoReadReport(s, n))
  {
    hide Concat, ConcatC, CString;
    ConcatSnoc(s.p.reportChunks, s.w.report[..n]);
  }

  lemma DrainingByRest(s: Sys, r: Ready, n: nat)
    requires Draining(s) && LifeCycle(s)
    ensures s.p.pc == AtPoll && PollOk(s.w, s.p.stdinClosed, r) ==> Draining(DoPoll(s, r))
    ensures s.p.pc == AtWrite && s.p.wrote + n <= |s.input| ==> Draining(DoWrite(s, n))
    ensures s.p.pc == AtClose ==> Draining(DoClose(s))
    ensures s.p.pc == AtWait ==> Draining(DoWait(s))
    ensures s.p.pc == AtLoopTest ==> Draining(DoLoopTest(s))
    ensures s.p.pc == AtSignalTest ==> Draining(DoSignalTest(s))
    ensures s.p.pc == AtThrow ==> Draining(DoThrow(s))
  {
    hide Concat;
  }

  lemma DrainingKept(s: Sys, l: Label)
    requires Draining(s) && LifeCycle(s) && Conserved(s) && Fits(s) && Enabled(s, l)
    ensures Draining(Do(s, l))
  {
    hide Draining, LifeCycle, Conserved, ReadOk, PollOk, EnvDo, EnvEnabled,
         DoPoll, DoReadOut, DoReadErr, DoReadReport, DoWrite, DoClose, DoWait, DoLoopTest, DoSignalTest, DoThrow;
    if !l.IsParent() {
      DrainingByEnv(s, l);
    } else {
      match s.p.pc
      case AtReadOut => DrainingByReads(s, l.n);
      case AtReadErr => DrainingByReads(s, l.n);
      case AtReadReport => DrainingByReadReport(s, l.n);
      case AtPoll => DrainingByRest(s, l.ready, 0);
      case AtWrite => DrainingByRest(s, s.p.ready, l.n);
      case AtCleanup => CleanupDrains(s);
      case AtClose | AtWait | AtLoopTest | AtSignalTest | AtThrow => DrainingByRest(s, s.p.ready, 0);
      case Finished =>
    }
  }

  lemma CleanupDrains(s: Sys)
    ensures Draining(DoCleanup(s))
  {
    hide Concat;
  }

  lemma InvKept(s: Sys, l: Label)
    requires Inv(s) && Enabled(s, l)
    ensures Inv(Do(s, l))
  {
    hide Conserved, WritePrefix, LifeCycle, ClosedOnce, Draining, OutcomeSound, Do, Enabled;
    InvFits(s);
    ConservedKept(s, l);
    WritePrefixKept(s, l);
    LifeCycleKept(s, l);
    ClosedOnceKept(s, l);
    DrainingKept(s, l);
    OutcomeKept(s, l);
  }

  lemma InvFits(s: Sys)
    requires Inv(s)
    ensures Fits(s)
  {
  }

  lemma InvAtStart(input: string, caps: Capacities)
    ensures Inv(Start(input, caps))
  {
  }

  lemma {:induction false} InvAlways(s: Sys, ls: seq<Label>)
    requires Inv(s) && Fits(s) && Run(s, ls)
    ensures Inv(After(s, ls))
    decreases |ls|
  {
    hide Inv, Do, Enabled;
    if ls != [] {
      InvKept(s, ls[0]);
      FitsKept(s, ls[0]);
      InvAlways(Do(s, ls[0]), ls[1..]);
    }
  }

  // ------------------------------------------------------------------- theorems

  predicate EndsNormally(s: Sys) {
    s.p.outcome.Some? && (s.p.outcome.value.Returned? || s.p.outcome.value.SutExecution?)
  }

  /** A run that ends without a signal has seen the child's exit in an earlier round and has emptied both pipes.
      What it collected is what the child wrote, in order, exactly when the child wrote no NUL. */
  lemma CompleteDrain(input: string, caps: Capacities, ls: seq<Label>)
    requires Run(Start(input, caps), ls)
    ensures var s := After(Start(input, caps), ls);
            EndsNormally(s) ==>
              && !s.w.alive && s.w.reaped && s.p.exitRound < s.p.rounds && s.w.stdout == "" && s.w.stderr == ""
              && (s.p.output == s.w.wroteOut <==> NulFree(s.w.wroteOut))
              && (s.p.errors == s.w.wroteErr <==> NulFree(s.w.wroteErr))
  {
    InvAtStart(input, caps);
    InvAlways(Start(input, caps), ls);
    var s := After(Start(input, caps), ls);
    hide Run, After, Start, Concat, ConcatC, NulFree, Draining;
    CStringsAreExact(s.p.outChunks);
    CStringsAreExact(s.p.errChunks);
    assert Concat(s.p.outChunks) + "" == Concat(s.p.outChunks) && Concat(s.p.errChunks) + "" == Concat(s.p.errChunks);
  }

  /** What each outcome means. */
  lemma OutcomeSoundness(input: string, caps: Capacities, ls: seq<Label>)
    requires Run(Start(input, caps), ls)
    ensures var s := After(Start(input, caps), ls);
            match s.p.outcome
            case None => s.p.pc != Finished
            case Some(Returned(results)) =>
              && s.p.exitStatus == Some(s.w.status)
              && (s.w.status.Exited? ==> results.exitCode == s.w.status.code)
              && (s.w.status.Signaled? ==> results.exitCode == 0x7FFF_FFFF)
              && results.output == s.p.output && results.errors == s.p.errors
              && (NulFree(s.w.wroteReport) ==> s.w.wroteReport == "")
            case Some(SutExecution(message)) =>
              && message != "" && s.w.wroteReport != ""
              && (NulFree(s.w.wroteReport) ==> message + s.w.report == s.w.wroteReport)
            case Some(SignalReceived(signum)) => signum == s.w.signal != 0 && !s.w.alive && !s.w.reaped
            case Some(KillFailed) => s.w.signal != 0 && s.w.reaped
  {
    InvAtStart(input, caps);
    InvAlways(Start(input, caps), ls);
    var s := After(Start(input, caps), ls);
    hide Run, After, Start, Concat, ConcatC, NulFree, Draining, WritePrefix;
    CStringsAreExact(s.p.reportChunks);
    NulFreeConcat(Concat(s.p.reportChunks), s.w.report);
  }

  /** The child's stdin took a prefix of the input, nothing after its end was closed, and each of the eight pipe ends
      is closed exactly once on a normal end. */
  lemma WritePrefixAndCloseOnce(input: string, caps: Capacities, ls: seq<Label>)
    requires Run(Start(input, caps), ls)
    ensures var s := After(Start(input, caps), ls);
            && s.p.wrote <= |input| && s.w.accepted == input[..s.p.wrote] && s.w.accepted == s.w.consumed + s.w.stdin
            && (s.p.pc != Finished && InWrite in s.p.closed ==> s.p.wrote == |input|)
            && (EndsNormally(s) ==> s.p.closed == ALL_CLOSED)
    ensures forall e: PipeEnd :: multiset(ALL_CLOSED)[e] == 1
  {
    InvAtStart(input, caps);
    InvAlways(Start(input, caps), ls);
    hide Run, After, Start, Concat, ConcatC, Draining, OutcomeSound;
    forall e: PipeEnd ensures multiset(ALL_CLOSED)[e] == 1 {
      EveryEnd(e);
    }
  }

  lemma EveryEnd(e: PipeEnd)
    ensures multiset(ALL_CLOSED)[e] == 1
  {
  }
}
