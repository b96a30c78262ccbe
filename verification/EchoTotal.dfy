/** The poll loop with the copying child, from the first round to the result: the loop can always go on fairly until it
    is left, and then the call returns the input. */
module EchoTotal {
  import opened Protocol
  import opened ProtocolSafety
  import opened PostExit
  import opened Echo
  import opened EchoProgress

  // ------------------------------------------------------------ fair rounds exist

  lemma QuietCons(s: Sys, l: Label, rest: seq<Label>)
    requires Fits(s) && Enabled(s, l) && Scat(s, l) && !l.SignalArrives?
    requires Fits(Do(s, l)) && QuietRun(Do(s, l), rest) && Run(Do(s, l), rest)
    ensures QuietRun(s, [l] + rest) && Run(s, [l] + rest) && After(s, [l] + rest) == After(Do(s, l), rest)
    ensures PollCount([l] + rest) == (if l.Polls? then 1 else 0) + PollCount(rest)
  {
    hide Do, Enabled, Scat;
    var ls := [l] + rest;
    assert ls[0] == l && ls[1..] == rest;
  }

  function StepsLeft(pc: Pc): nat {
    match pc
    case AtReadOut => 7
    case AtReadErr => 6
    case AtWrite => 5
    case AtClose => 4
    case AtReadReport => 3
    case AtWait => 2
    case AtLoopTest => 1
    case _ => 0
  }

  lemma RoundGoesOn(s: Sys, l: Label)
    requires Fits(s) && Enabled(s, l) && l.IsParent() && InLoop(s.p.pc) && s.p.pc != AtPoll
    ensures !l.Polls? && StepsLeft(Do(s, l).p.pc) < StepsLeft(s.p.pc)
    ensures InLoop(Do(s, l).p.pc) || s.p.pc == AtLoopTest
  {
    hide CString, PollOk, ReadOk, WriteOk;
  }

  /** The parent can always get to the end of the round. */
  lemma {:induction false} RestOfRound(s: Sys) returns (ls: seq<Label>)
    requires Reachable(s) && Fits(s)
    ensures QuietRun(s, ls) && Run(s, ls) && PollCount(ls) == 0
    ensures After(s, ls).p.pc == AtPoll || !InLoop(After(s, ls).p.pc)
    decreases StepsLeft(s.p.pc)
  {
    hide Do, Enabled, Reachable, Scat, InLoop, StepsLeft;
    if s.p.pc == AtPoll || !InLoop(s.p.pc) {
      ls := [];
    } else {
      LoopIsNotFinished(s.p.pc);
      ParentNeverBlocks(s);
      var l: Label :| l.IsParent() && Enabled(s, l);
      RoundGoesOn(s, l);
      ParentIsFree(s, l);
      ReachableKept(s, l);
      FitsKept(s, l);
      var rest := RestOfRound(Do(s, l));
      QuietCons(s, l, rest);
      ls := [l] + rest;
    }
  }

  lemma LoopIsNotFinished(pc: Pc)
    ensures InLoop(pc) ==> pc != Finished
  {
  }

  lemma ParentIsFree(s: Sys, l: Label)
    requires l.IsParent()
    ensures Scat(s, l) && !l.SignalArrives?
  {
  }

  lemma PollLabel(s: Sys, l: Label)
    requires Fits(s) && s.p.pc == AtPoll && l.IsParent() && Enabled(s, l)
    ensures l.Polls?
  {
  }

  lemma ChildKeepsPc(s: Sys, l: Label)
    requires Fits(s) && !l.IsParent() && Enabled(s, l)
    ensures Do(s, l).p == s.p && !l.Polls?
  {
  }

  /** One round of the parent alone. */
  lemma WholeRound(s: Sys) returns (ls: seq<Label>)
    requires Reachable(s) && Fits(s) && s.p.pc == AtPoll
    ensures QuietRun(s, ls) && Run(s, ls) && PollCount(ls) == 1
    ensures After(s, ls).p.pc == AtPoll || !InLoop(After(s, ls).p.pc)
  {
    hide Do, Enabled, Reachable, Scat, InLoop;
    ParentNeverBlocks(s);
    var l: Label :| l.IsParent() && Enabled(s, l);
    PollLabel(s, l);
    ParentIsFree(s, l);
    ReachableKept(s, l);
    FitsKept(s, l);
    var rest := RestOfRound(Do(s, l));
    QuietCons(s, l, rest);
    ls := [l] + rest;
  }

  /** At the start of a round a fair one is always possible. */
  lemma FairRoundExists(s: Sys) returns (ls: seq<Label>)
    requires Reachable(s) && Fits(s) && s.p.pc == AtPoll
    ensures FairRound(s, ls)
  {
    hide Do, Enabled, Reachable, Scat, InLoop, QuietRun;
    if l :| ChildCan(s, l) {
      ChildKeepsPc(s, l);
      ReachableKept(s, l);
      FitsKept(s, l);
      var rest := WholeRound(Do(s, l));
      QuietCons(s, l, rest);
      ls := [l] + rest;
      assert l in ls && IsChild(l);
    } else {
      ls := WholeRound(s);
    }
  }

  // ---------------------------------------------------------------- without signals

  lemma SignalKept(s: Sys, l: Label)
    requires Fits(s) && Enabled(s, l) && !l.SignalArrives?
    ensures Do(s, l).w.signal == s.w.signal && Do(s, l).input == s.input && Do(s, l).caps == s.caps
  {
    hide CString, PollOk, ReadOk, WriteOk;
  }

  lemma {:induction false} QuietMeansNoSignal(s: Sys, ls: seq<Label>)
    requires Fits(s) && QuietRun(s, ls) && Run(s, ls)
    ensures After(s, ls).w.signal == s.w.signal
    decreases |ls|
  {
    hide Do, Enabled, Scat;
    if ls != [] {
      assert ls[0] in ls && forall k :: k in ls[1..] ==> k in ls;
      FitsKept(s, ls[0]);
      SignalKept(s, ls[0]);
      QuietMeansNoSignal(Do(s, ls[0]), ls[1..]);
    }
  }

  /** What the call returns: exit code 0, no errors, and the input, if it has no NUL. */
  predicate ReturnsInput(s: Sys) {
    && s.p.outcome.Some? && s.p.outcome.value.Returned?
    && s.p.outcome.value.results.exitCode == 0 && s.p.outcome.value.results.errors == ""
    && (s.p.outcome.value.results.output == s.input <==> NulFree(s.input))
  }

  lemma FinishedReturnsInput(s: Sys)
    requires Reachable(s) && s.p.pc == Finished && s.w.signal == 0
    ensures ReturnsInput(s)
  {
    hide Draining, WritePrefix, NulFree, Concat, ConcatC;
    CStringsAreExact(s.p.outChunks);
    CStringsAreExact(s.p.errChunks);
    CStringsAreExact(s.p.reportChunks);
    NoNulInNothing();
    assert Concat(s.p.outChunks) + "" == Concat(s.p.outChunks);
  }

  /** The steps behind the loop. */
  lemma {:induction false} RestOfCall(s: Sys) returns (ls: seq<Label>)
    requires Reachable(s) && Fits(s) && !InLoop(s.p.pc) && s.w.signal == 0
    ensures QuietRun(s, ls) && Run(s, ls) && After(s, ls).p.pc == Finished
    decreases s.p.pc == AtSignalTest, s.p.pc == AtCleanup
  {
    hide Do, Enabled, Reachable, Scat;
    if s.p.pc == Finished {
      ls := [];
    } else {
      BehindLoop(s);
      ReachableKept(s, Goes);
      FitsKept(s, Goes);
      SignalKept(s, Goes);
      var rest := RestOfCall(Do(s, Goes));
      QuietCons(s, Goes, rest);
      ls := [Goes] + rest;
    }
  }

  lemma BehindLoop(s: Sys)
    requires Reachable(s) && Fits(s) && !InLoop(s.p.pc) && s.p.pc != Finished && s.w.signal == 0
    ensures Enabled(s, Goes) && Scat(s, Goes)
    ensures s.p.pc == AtSignalTest ==> Do(s, Goes).p.pc == AtCleanup
    ensures s.p.pc == AtCleanup ==> Do(s, Goes).p.pc == Finished
    ensures s.p.pc == AtSignalTest || s.p.pc == AtCleanup
  {
    hide Conserved, OutcomeSound, ClosedOnce, Drained, EchoInv;
  }

  // --------------------------------------------------------------------- theorems

  ghost function AfterRounds(s: Sys, rounds: seq<seq<Label>>): (r: Sys)
    requires Fits(s) && FairRounds(s, rounds)
    ensures Fits(r) && r.input == s.input && r.caps == s.caps
    decreases |rounds|
  {
    if rounds == [] then s else AfterRounds(After(s, rounds[0]), rounds[1..])
  }

  lemma {:induction false} RoundsKeep(s: Sys, rounds: seq<seq<Label>>)
    requires Reachable(s) && Fits(s) && FairRounds(s, rounds) && s.w.signal == 0
    requires s.p.pc == AtPoll
    ensures var r := AfterRounds(s, rounds); Reachable(r) && r.w.signal == 0 && (r.p.pc == AtPoll || !InLoop(r.p.pc))
    decreases |rounds|
  {
    hide Reachable, QuietRun, InLoop, ChildCan, Run, After, IsChild;
    if rounds != [] {
      var ls := rounds[0];
      QuietProgress(s, ls);
      QuietMeansNoSignal(s, ls);
      if rounds[1..] != [] {
        RoundsKeep(After(s, ls), rounds[1..]);
      }
    }
  }

  /** Every fair execution without signals leaves the loop within 4n + 4 rounds, it can go on until it does, and then
      the call can only end by returning, with the input as output if that has no NUL. */
  lemma FairEchoReturns(input: string, caps: Capacities, rounds: seq<seq<Label>>)
    requires GoodCaps(caps) && FairRounds(Start(input, caps), rounds)
    ensures |rounds| <= 4 * |input| + 4
    ensures var s := AfterRounds(Start(input, caps), rounds);
            && (InLoop(s.p.pc) <==> exists ls :: FairRound(s, ls))
            && (!InLoop(s.p.pc) ==> exists ls :: QuietRun(s, ls) && Run(s, ls) && After(s, ls).p.pc == Finished)
            && (forall ls ::
                  QuietRun(s, ls) && Run(s, ls) && After(s, ls).p.pc == Finished ==> ReturnsInput(After(s, ls)))
  {
    var a := Start(input, caps);
    FairEchoEnds(input, caps, rounds);
    InvAtStart(input, caps);
    RoundsKeep(a, rounds);
    var s := AfterRounds(a, rounds);
    hide Start, FairRounds, AfterRounds, QuietRun, Run, After, Reachable, ReturnsInput;
    if InLoop(s.p.pc) {
      var ls := FairRoundExists(s);
    } else {
      var ls := RestOfCall(s);
      assert QuietRun(s, ls);
    }
    forall ls | QuietRun(s, ls) && Run(s, ls) && After(s, ls).p.pc == Finished
      ensures ReturnsInput(After(s, ls))
    {
      QuietProgress(s, ls);
      QuietMeansNoSignal(s, ls);
      FinishedReturnsInput(After(s, ls));
    }
  }

  lemma {:induction false} Complete(s: Sys) returns (rounds: seq<seq<Label>>)
    requires Reachable(s) && Fits(s) && s.p.pc == AtPoll && s.w.signal == 0
    ensures FairRounds(s, rounds) && !InLoop(AfterRounds(s, rounds).p.pc)
    decreases Measure(s)
  {
    hide Reachable, QuietRun, InLoop, ChildCan, Run, After, IsChild, Measure, Owed;
    var ls := FairRoundExists(s);
    QuietProgress(s, ls);
    QuietMeansNoSignal(s, ls);
    MeasureIsNatural(s);
    var t := After(s, ls);
    if t.p.pc == AtPoll {
      FairRoundPays(s, ls);
      MeasureIsNatural(t);
      var rest := Complete(t);
      rounds := [ls] + rest;
      assert rounds[1..] == rest;
    } else {
      rounds := [ls];
      assert rounds[1..] == [];
    }
  }

  /** There is such an execution, for every input and all capacities of at least 1. */
  lemma FairEchoExists(input: string, caps: Capacities) returns (rounds: seq<seq<Label>>, ls: seq<Label>)
    requires GoodCaps(caps)
    ensures FairRounds(Start(input, caps), rounds)
    ensures var s := AfterRounds(Start(input, caps), rounds);
            QuietRun(s, ls) && Run(s, ls) && After(s, ls).p.pc == Finished && ReturnsInput(After(s, ls))
  {
    var a := Start(input, caps);
    InvAtStart(input, caps);
    rounds := Complete(a);
    RoundsKeep(a, rounds);
    var s := AfterRounds(a, rounds);
    hide Start, FairRounds, AfterRounds, QuietRun, Run, After, Reachable, ReturnsInput;
    ls := RestOfCall(s);
    FairEchoReturns(input, caps, rounds);
  }
}
