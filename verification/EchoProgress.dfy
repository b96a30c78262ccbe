/** The copying child and the poll loop never wait for each other for ever. */
module EchoProgress {
  import opened Protocol
  import opened ProtocolSafety
  import opened PostExit
  import opened Echo

  predicate GoodCaps(caps: Capacities) { caps.stdin >= 1 && caps.stdout >= 1 }

  predicate Reachable(s: Sys) {
    Inv(s) && EchoInv(s) && GoodCaps(s.caps)
  }

  /** How far the bytes still have to go: four steps from the input, three from stdin, two from the child, one from
      stdout. */
  function Weight(s: Sys): int {
    4 * (|s.input| - s.p.wrote) + 3 * |s.w.stdin| + 2 * (|s.w.consumed| - |s.w.wroteOut|) + |s.w.stdout|
  }

  function Flag(b: bool): int { if b then 1 else 0 }

  predicate InLoop(pc: Pc) {
    pc != AtSignalTest && pc != AtThrow && pc != AtCleanup && pc != Finished
  }

  /** The weight, and the four things that can each still happen once. */
  function Measure(s: Sys): int {
    Weight(s) + Flag(s.w.alive) + Flag(s.p.running) + Flag(!s.p.stdinClosed) + Flag(InLoop(s.p.pc))
  }

  predicate IsChild(l: Label) { !l.IsParent() && !l.SignalArrives? }

  predicate ChildCan(s: Sys, l: Label) { IsChild(l) && Enabled(s, l) && Scat(s, l) }

  // ---------------------------------------------------------------- single steps

  lemma ReachableKept(s: Sys, l: Label)
    requires Reachable(s) && Enabled(s, l) && Scat(s, l)
    ensures Fits(s) && Reachable(Do(s, l))
  {
    hide Inv, EchoInv, Scat, Enabled, Do;
    InvFits(s);
    FitsKept(s, l);
    InvKept(s, l);
    if l.IsParent() {
      EchoInvByParent(s, l);
    } else {
      EchoInvByEnv(s, l);
    }
  }

  lemma MeasureIsNatural(s: Sys)
    requires Reachable(s)
    ensures Measure(s) >= 0 && Weight(s) >= 0
  {
    hide Conserved, LifeCycle, Draining, OutcomeSound, ClosedOnce;
  }

  /** Every step of the child brings the end nearer. */
  lemma ChildProgress(s: Sys, l: Label)
    requires Reachable(s) && ChildCan(s, l)
    ensures Fits(s) && Measure(Do(s, l)) < Measure(s)
    ensures !l.ChildExits? ==> Weight(Do(s, l)) < Weight(s)
  {
    hide Conserved, Draining, OutcomeSound, ClosedOnce;
  }

  lemma NeutralReadOut(s: Sys, n: nat)
    requires s.p.pc == AtReadOut && n <= |s.w.stdout|
    ensures Measure(DoReadOut(s, n)) == Measure(s) - n && Weight(DoReadOut(s, n)) == Weight(s) - n
  {
    var t := DoReadOut(s, n);
    assert t.p.pc == AtReadErr && t.p.wrote == s.p.wrote && t.p.running == s.p.running
           && t.p.stdinClosed == s.p.stdinClosed;
    assert |t.w.stdout| == |s.w.stdout| - n && t.w.(stdout := s.w.stdout) == s.w;
    hide DoReadOut, CString;
  }

  lemma NeutralWrite(s: Sys, n: nat)
    requires s.p.pc == AtWrite && s.p.wrote + n <= |s.input|
    ensures Measure(DoWrite(s, n)) == Measure(s) - n && Weight(DoWrite(s, n)) == Weight(s) - n
  {
  }

  /** The other steps move none of the counted bytes, and undo nothing. */
  lemma RestFrame(s: Sys, l: Label)
    requires Fits(s) && l.IsParent() && Enabled(s, l) && s.p.pc != AtReadOut && s.p.pc != AtWrite
    ensures var t := Do(s, l);
            && t.p.wrote == s.p.wrote && t.w.stdin == s.w.stdin && t.w.stdout == s.w.stdout
            && t.w.consumed == s.w.consumed && t.w.wroteOut == s.w.wroteOut && t.input == s.input
            && (t.w.alive ==> s.w.alive) && (t.p.running ==> s.p.running)
            && (s.p.stdinClosed ==> t.p.stdinClosed) && (InLoop(t.p.pc) ==> InLoop(s.p.pc))
  {
    hide CString, DoReadOut, DoWrite, PollOk, ReadOk;
  }

  lemma NeutralRest(s: Sys, l: Label)
    requires Fits(s) && l.IsParent() && Enabled(s, l) && s.p.pc != AtReadOut && s.p.pc != AtWrite
    ensures Measure(Do(s, l)) <= Measure(s) && Weight(Do(s, l)) <= Weight(s)
  {
    hide Do, Enabled, InLoop;
    RestFrame(s, l);
  }

  /** No step of the parent takes it further away. */
  lemma ParentNeutral(s: Sys, l: Label)
    requires Fits(s) && l.IsParent() && Enabled(s, l)
    ensures Measure(Do(s, l)) <= Measure(s) && Weight(Do(s, l)) <= Weight(s)
  {
    hide Measure, Weight, DoPoll, DoReadOut, DoReadErr, DoReadReport, DoWrite, DoClose, DoWait, DoLoopTest,
         DoSignalTest, DoThrow, DoCleanup;
    if s.p.pc == AtReadOut {
      NeutralReadOut(s, l.n);
    } else if s.p.pc == AtWrite {
      NeutralWrite(s, l.n);
    } else {
      NeutralRest(s, l);
    }
  }

  /** The parent is never blocked. */
  lemma ParentNeverBlocks(s: Sys)
    requires Reachable(s) && s.p.pc != Finished
    ensures exists l: Label :: l.IsParent() && Enabled(s, l)
  {
    hide Conserved, LifeCycle, Draining, OutcomeSound, ClosedOnce, EchoInv;
    var l := match s.p.pc
      case AtPoll => Polls(Ready(true, true, true, true, false))
      case AtReadOut => Reads(if s.p.ready.out && s.w.stdout != "" then 1 else 0)
      case AtReadErr => Reads(if s.p.ready.err && s.w.stderr != "" then 1 else 0)
      case AtReadReport => Reads(if s.p.ready.report && s.w.report != "" then 1 else 0)
      case AtWrite =>
        Writes(if IsAbleToWrite(s.p.ready) && !IsAllDataWritten(s.p.wrote, s.input) && s.w.stdin == "" && s.w.stdinRead
            then 1 else 0)
      case _ => Goes;
    assert l.IsParent() && Enabled(s, l);
  }

  // ------------------------------------------------------- what a round must bring

  /** Something that the rest of the round is bound to bring about: a read, a write, a close, the child's end, the
      loop's end. */
  predicate Owed(s: Sys) {
    || (s.w.stdout != "" && (s.p.pc == AtPoll || (s.p.pc == AtReadOut && s.p.ready.out)))
    || (s.p.wrote < |s.input| && s.w.stdin == "" && s.w.stdinRead
        && (s.p.pc == AtPoll || (IsAbleToWrite(s.p.ready)
           && (s.p.pc == AtReadOut || s.p.pc == AtReadErr || s.p.pc == AtWrite))))
    || (s.p.wrote == |s.input| && !s.p.stdinClosed && InLoop(s.p.pc) && s.p.pc != AtReadReport && s.p.pc != AtWait
       && s.p.pc != AtLoopTest)
    || (!s.w.alive && s.p.running && InLoop(s.p.pc) && s.p.pc != AtLoopTest)
    || (Weight(s) == 0 && !s.w.alive && !s.p.running && s.p.stdinClosed && InLoop(s.p.pc)
       && (s.p.pc != AtPoll ==> !s.p.mayHaveData))
  }

  lemma OwedByPoll(s: Sys, r: Ready)
    requires Reachable(s) && Owed(s) && s.p.pc == AtPoll && PollOk(s.w, s.p.stdinClosed, r)
    ensures Owed(DoPoll(s, r))
  {
    hide Conserved, LifeCycle, Draining, OutcomeSound, ClosedOnce;
  }

  lemma OwedByReadOut(s: Sys, n: nat)
    requires Owed(s) && s.p.pc == AtReadOut && if s.p.ready.out then ReadOk(s.w.stdout, n) else n == 0
    ensures Measure(DoReadOut(s, n)) < Measure(s) || Owed(DoReadOut(s, n))
  {
    hide CString;
  }

  lemma OwedByWrite(s: Sys, l: Label)
    requires Reachable(s) && Owed(s) && s.p.pc == AtWrite && l.IsParent() && Enabled(s, l)
    ensures Fits(s) && (Measure(Do(s, l)) < Measure(s) || Owed(Do(s, l)))
  {
    hide Conserved, LifeCycle, Draining, OutcomeSound, ClosedOnce, DoPoll, DoReadOut, DoReadErr, DoReadReport, DoClose,
         DoWait, DoLoopTest, DoSignalTest, DoThrow, DoCleanup;
  }

  lemma OwedByRest(s: Sys, l: Label)
    requires Fits(s) && EchoInv(s) && Owed(s) && l.IsParent() && Enabled(s, l)
    requires s.p.pc != AtPoll && s.p.pc != AtReadOut && s.p.pc != AtWrite
    ensures Measure(Do(s, l)) < Measure(s) || (Owed(Do(s, l)) && s.p.pc != AtLoopTest)
  {
    hide CString, DoPoll, DoReadOut, DoWrite;
  }

  /** A debt is paid, or kept for the rest of the round. */
  lemma OwedStep(s: Sys, l: Label)
    requires Reachable(s) && Owed(s) && l.IsParent() && Enabled(s, l)
    ensures Fits(s) && (Measure(Do(s, l)) < Measure(s) || (Owed(Do(s, l)) && s.p.pc != AtLoopTest))
  {
    InvFits(s);
    hide Inv, EchoInv, Owed, Measure, PollOk, ReadOk, WriteOk, DoPoll, DoReadOut, DoReadErr, DoReadReport, DoWrite,
         DoClose, DoWait, DoLoopTest, DoSignalTest, DoThrow, DoCleanup;
    match s.p.pc
    case AtPoll => OwedByPoll(s, l.ready);
    case AtReadOut => OwedByReadOut(s, l.n);
    case AtWrite => OwedByWrite(s, l);
    case _ => OwedByRest(s, l);
  }

  /** At the start of a round, if the child can do nothing then the round owes something. */
  lemma NoDeadlock(s: Sys)
    requires Reachable(s) && s.p.pc == AtPoll
    ensures Owed(s) || exists l :: ChildCan(s, l)
  {
    hide Draining, OutcomeSound, Concat, ConcatC;
    if s.w.alive && s.w.stdout == "" {
      if s.w.wroteOut != s.w.consumed {
        var l := ChildWrites(s.w.consumed[|s.w.wroteOut|..|s.w.wroteOut| + 1]);
        assert s.w.wroteOut + l.bytes == s.w.consumed[..|s.w.wroteOut| + 1];
        assert ChildCan(s, l);
      } else if s.w.stdin != "" {
        assert ChildCan(s, ChildReads(1));
      } else if s.p.stdinClosed {
        assert ChildCan(s, ChildExits(Exited(0)));
      }
    } else if !s.w.alive {
      assert |s.w.accepted| == s.p.wrote;
    }
  }

  // -------------------------------------------------------------- fair executions

  /** A part of a run without signals. */
  predicate QuietRun(s: Sys, ls: seq<Label>)
    requires Fits(s)
  {
    EchoRun(s, ls) && forall l <- ls :: !l.SignalArrives?
  }

  lemma {:induction false} QuietProgress(s: Sys, ls: seq<Label>)
    requires Reachable(s) && Fits(s) && QuietRun(s, ls)
    ensures Run(s, ls) && Reachable(After(s, ls)) && Measure(After(s, ls)) <= Measure(s)
    ensures (exists l :: l in ls && IsChild(l)) ==> Measure(After(s, ls)) < Measure(s)
    decreases |ls|
  {
    hide Inv, EchoInv, Owed, Measure, Do, Enabled, Scat, Reachable;
    EchoRunIsRun(s, ls);
    if ls != [] {
      var l, rest := ls[0], ls[1..];
      FitsKept(s, l);
      ReachableKept(s, l);
      assert forall k :: k in ls ==> k == l || k in rest;
      assert forall k :: k in rest ==> k in ls;
      QuietProgress(Do(s, l), rest);
      if l.IsParent() {
        ParentNeutral(s, l);
      } else {
        ChildProgress(s, l);
      }
    }
  }

  /** What the start of a round owes is paid before the next round starts. */
  lemma {:induction false} RoundPays(s: Sys, ls: seq<Label>)
    requires Reachable(s) && Fits(s) && QuietRun(s, ls) && Run(s, ls) && Owed(s) && InLoop(s.p.pc)
    requires After(s, ls).p.pc == AtPoll || !InLoop(After(s, ls).p.pc)
    requires s.p.pc == AtPoll ==> PollCount(ls) > 0
    ensures Measure(After(s, ls)) < Measure(s)
    decreases |ls|
  {
    hide Inv, EchoInv, Owed, Measure, Do, Enabled, Scat, Reachable, InLoop;
    var l, rest := ls[0], ls[1..];
    FitsKept(s, l);
    ReachableKept(s, l);
    assert l in ls && forall k :: k in rest ==> k in ls;
    QuietProgress(Do(s, l), rest);
    if !l.IsParent() {
      ChildProgress(s, l);
    } else {
      OwedStep(s, l);
      ParentNeutral(s, l);
      if Measure(Do(s, l)) == Measure(s) {
        StaysInRound(s, l);
        RoundPays(Do(s, l), rest);
      }
    }
  }

  lemma StaysInRound(s: Sys, l: Label)
    requires Fits(s) && InLoop(s.p.pc) && s.p.pc != AtLoopTest && l.IsParent() && Enabled(s, l)
    ensures InLoop(Do(s, l).p.pc) && Do(s, l).p.pc != AtPoll
  {
    hide CString, ReadOk, WriteOk, PollOk;
  }

  /** One round of the loop, in which the child gets a turn if it can use one when the round starts. */
  ghost predicate FairRound(s: Sys, ls: seq<Label>)
    requires Fits(s)
  {
    && s.p.pc == AtPoll && QuietRun(s, ls) && Run(s, ls) && PollCount(ls) == 1
    && (After(s, ls).p.pc == AtPoll || !InLoop(After(s, ls).p.pc))
    && ((exists l :: ChildCan(s, l)) ==> exists l :: l in ls && IsChild(l))
  }

  ghost predicate FairRounds(s: Sys, rounds: seq<seq<Label>>)
    requires Fits(s)
    decreases |rounds|
  {
    if rounds == [] then true else FairRound(s, rounds[0]) && FairRounds(After(s, rounds[0]), rounds[1..])
  }

  /** Every fair round makes progress. */
  lemma FairRoundPays(s: Sys, ls: seq<Label>)
    requires Reachable(s) && Fits(s) && FairRound(s, ls)
    ensures Measure(After(s, ls)) < Measure(s)
  {
    QuietProgress(s, ls);
    NoDeadlock(s);
    hide Reachable, Owed, Measure, After, Run, QuietRun, ChildCan, IsChild;
    if Owed(s) {
      RoundPays(s, ls);
    }
  }

  /** So there are at most as many fair rounds as the measure says. */
  lemma {:induction false} FairRoundsAreBounded(s: Sys, rounds: seq<seq<Label>>)
    requires Reachable(s) && Fits(s) && FairRounds(s, rounds)
    ensures |rounds| <= Measure(s)
    decreases |rounds|
  {
    MeasureIsNatural(s);
    if rounds != [] {
      QuietProgress(s, rounds[0]);
      FairRoundPays(s, rounds[0]);
      hide Reachable, Measure, After, Run, FairRound;
      FairRoundsAreBounded(After(s, rounds[0]), rounds[1..]);
    }
  }

  /** In every fair execution without signals the loop ends within 4n + 4 rounds, for n bytes of input,
      whatever the capacities of the pipes and the sizes of the reads and writes. */
  lemma FairEchoEnds(input: string, caps: Capacities, rounds: seq<seq<Label>>)
    requires GoodCaps(caps) && FairRounds(Start(input, caps), rounds)
    ensures |rounds| <= 4 * |input| + 4
  {
    InvAtStart(input, caps);
    FairRoundsAreBounded(Start(input, caps), rounds);
  }
}
