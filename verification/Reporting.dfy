/** The internal-error pipe: how much of what the child reports reaches the parent. It is read once in each round, and
    what is in it does not keep the loop going. */
module Reporting {
  import opened Text
  import opened Protocol
  import opened ProtocolSafety

  /** A read of the report takes at least `least` bytes, or all there are. Reads of any size have `least` 1; reads
      that take what fits the buffer, as those of a pipe do, have `least` MAX_READ. */
  predicate TakesEnough(least: nat, s: Sys, l: Label) {
    s.p.pc == AtReadReport && l.Reads? && s.p.ready.report ==> l.n >= least || l.n == |s.w.report|
  }

  predicate ReportRun(least: nat, s: Sys, ls: seq<Label>)
    requires Fits(s)
    decreases |ls|
  {
    if ls == [] then true
    else
      && Enabled(s, ls[0]) && TakesEnough(least, s, ls[0])
      && (FitsKept(s, ls[0]); ReportRun(least, Do(s, ls[0]), ls[1..]))
  }

  lemma {:induction false} ReportRunIsRun(least: nat, s: Sys, ls: seq<Label>)
    requires Fits(s) && ReportRun(least, s, ls)
    ensures Run(s, ls)
    decreases |ls|
  {
    hide Do, Enabled, TakesEnough;
    if ls != [] {
      FitsKept(s, ls[0]);
      ReportRunIsRun(least, Do(s, ls[0]), ls[1..]);
    }
  }

  /** With `least` 1 all runs are meant. */
  lemma {:induction false} EveryRunIsReportRun(s: Sys, ls: seq<Label>)
    requires Fits(s) && Run(s, ls)
    ensures ReportRun(1, s, ls)
    decreases |ls|
  {
    hide Do, PollOk, WriteOk, EnvEnabled;
    if ls != [] {
      FitsKept(s, ls[0]);
      EveryRunIsReportRun(Do(s, ls[0]), ls[1..]);
    }
  }

  /** How much one read can leave of a report that is as long as the pipe allows. */
  function Excess(least: nat, s: Sys): nat {
    var most := if |s.w.wroteReport| < s.caps.report then |s.w.wroteReport| else s.caps.report;
    if most > least then most - least else 0
  }

  /** Once a round has started after the child's exit was seen, its one read has left no more than that. */
  predicate Caught(least: nat, s: Sys) {
    && |s.w.report| <= s.caps.report
    && match s.p.pc
       case AtWait => !s.p.running ==> |s.w.report| <= Excess(least, s)
       case AtLoopTest => !s.p.mayHaveData ==> |s.w.report| <= Excess(least, s)
       case AtSignalTest => s.w.signal == 0 ==> |s.w.report| <= Excess(least, s)
       case AtCleanup => |s.w.report| <= Excess(least, s)
       case Finished => EndsNormally(s) ==> |s.w.report| <= Excess(least, s)
       case _ => true
  }

  lemma CaughtByEnv(least: nat, s: Sys, l: Label)
    requires Inv(s) && Caught(least, s) && Enabled(s, l) && !l.IsParent()
    ensures Fits(s) && Caught(least, Do(s, l))
  {
    hide Conserved, OutcomeSound, ClosedOnce, Concat, ConcatC;
  }

  lemma CaughtByRead(least: nat, s: Sys, n: nat)
    requires Inv(s) && Caught(least, s) && s.p.pc == AtReadReport && n <= |s.w.report|
    requires if s.p.ready.report then n >= least || n == |s.w.report| else n == 0
    ensures Caught(least, DoReadReport(s, n))
  {
    hide ConcatC, OutcomeSound, ClosedOnce, CString;
  }

  lemma CaughtByRest(least: nat, s: Sys, l: Label)
    requires Inv(s) && Caught(least, s) && Enabled(s, l) && l.IsParent() && s.p.pc != AtReadReport
    ensures Fits(s) && Caught(least, Do(s, l))
  {
    hide Conserved, Concat, CString, PollOk, WriteOk;
  }

  lemma {:induction false} CaughtAlways(least: nat, s: Sys, ls: seq<Label>)
    requires Fits(s) && Inv(s) && Caught(least, s) && ReportRun(least, s, ls)
    ensures Run(s, ls) && Inv(After(s, ls)) && Caught(least, After(s, ls))
    decreases |ls|
  {
    hide Inv, Caught, Do;
    ReportRunIsRun(least, s, ls);
    if ls != [] {
      var l := ls[0];
      FitsKept(s, l);
      InvKept(s, l);
      CaughtStep(least, s, l);
      hide Enabled, TakesEnough;
      CaughtAlways(least, Do(s, l), ls[1..]);
    }
  }

  lemma CaughtStep(least: nat, s: Sys, l: Label)
    requires Inv(s) && Caught(least, s) && Enabled(s, l) && TakesEnough(least, s, l)
    ensures Fits(s) && Caught(least, Do(s, l))
  {
    hide Inv, Caught;
    InvFits(s);
    if !l.IsParent() {
      CaughtByEnv(least, s, l);
    } else if s.p.pc == AtReadReport {
      CaughtByRead(least, s, l.n);
    } else {
      hide Do, Enabled;
      CaughtByRest(least, s, l);
    }
  }

  /** At a normal end all of a NUL-free report was read but for the excess; so all of it, if either it or what
      the pipe holds is no longer than the shortest read. */
  lemma ReportArrives(input: string, caps: Capacities, least: nat, ls: seq<Label>)
    requires ReportRun(least, Start(input, caps), ls)
    ensures Run(Start(input, caps), ls)
    ensures var s := After(Start(input, caps), ls);
            EndsNormally(s) && NulFree(s.w.wroteReport) ==>
              && s.p.report + s.w.report == s.w.wroteReport && |s.w.report| <= Excess(least, s)
              && (s.p.outcome.value.Returned? <==> s.w.wroteReport == "")
              && (s.p.outcome.value.SutExecution? ==> s.p.outcome.value.message == s.p.report)
  {
    InvAtStart(input, caps);
    CaughtAlways(least, Start(input, caps), ls);
    var s := After(Start(input, caps), ls);
    OutcomeSoundness(input, caps, ls);
    hide Run, ReportRun, After, Start, Concat, ConcatC, NulFree, Draining, WritePrefix;
    CStringsAreExact(s.p.reportChunks);
    NulFreeConcat(Concat(s.p.reportChunks), s.w.report);
  }
}
