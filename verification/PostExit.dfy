/** The end of the poll loop once the child is dead. */
module PostExit {
  import opened Protocol
  import opened ProtocolSafety

  /** How many more polls there can be once the child is dead. */
  function Bound(s: Sys): nat {
    var queued := |s.w.stdout| + |s.w.stderr|;
    match s.p.pc
    case AtPoll => queued + if s.p.running then 2 else 1
    case AtLoopTest => if s.p.running then queued + 2 else if s.p.mayHaveData then queued + 1 else 0
    case AtSignalTest | AtThrow | AtCleanup | Finished => 0
    case _ => if s.p.running || s.p.mayHaveData then queued + 1 else queued
  }

  function PollCount(ls: seq<Label>): nat {
    if ls == [] then 0 else (if ls[0].Polls? then 1 else 0) + PollCount(ls[1..])
  }

  lemma BoundStep(s: Sys, l: Label)
    requires Fits(s) && Enabled(s, l) && !s.w.alive
    ensures !Do(s, l).w.alive && Bound(Do(s, l)) + (if l.Polls? then 1 else 0) <= Bound(s)
  {
    hide CString;
  }

  /** Every poll is paid for by the bound. */
  lemma {:induction false} PollsArePaid(s: Sys, ls: seq<Label>)
    requires Fits(s) && Run(s, ls) && !s.w.alive
    ensures PollCount(ls) + Bound(After(s, ls)) <= Bound(s)
    decreases |ls|
  {
    hide Bound, Do, Enabled;
    if ls != [] {
      BoundStep(s, ls[0]);
      FitsKept(s, ls[0]);
      PollsArePaid(Do(s, ls[0]), ls[1..]);
    }
  }

  function Queued(s: Sys): nat { |s.w.stdout| + |s.w.stderr| }

  /** With `b` bytes queued when the child dies, at whatever point of a round, at most b + 2 rounds are still to come;
      and every round that starts after the exit was seen, and is not the last, takes at least one of these bytes. */
  lemma PostExitBound(s: Sys, ls: seq<Label>)
    requires Fits(s) && Run(s, ls) && !s.w.alive
    ensures PollCount(ls) <= Queued(s) + 2
    ensures s.p.pc == AtPoll && !s.p.running && After(s, ls).p.pc == AtPoll ==>
              Queued(After(s, ls)) + PollCount(ls) <= Queued(s)
  {
    PollsArePaid(s, ls);
    hide Run, After;
  }
}
