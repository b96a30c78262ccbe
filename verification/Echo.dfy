/** The poll loop with the copying program as its child: what every reachable state conserves. */
module Echo {
  import opened Text
  import opened Protocol
  import opened ProtocolSafety

  // ------------------------------------------------------------ the copying child

  /** systemtests/apps/scat.cpp: it reads when it holds nothing, writes what it holds, and exits at the end of its
      input. */
  predicate Scat(s: Sys, l: Label) {
    match l
    case ChildReads(n) => s.w.wroteOut == s.w.consumed && n <= 1024
    case ChildWrites(bytes) => s.w.wroteOut + bytes <= s.w.consumed
    case ChildExits(status) => status == Exited(0) && s.w.wroteOut == s.w.consumed && s.w.stdin == "" && s.p.stdinClosed
    case ChildComplains(_) => false
    case ChildReports(_) => false
    case ChildClosesStdin => false
    case _ => true
  }

  predicate EchoRun(s: Sys, ls: seq<Label>)
    requires Fits(s)
    decreases |ls|
  {
    if ls == [] then true
    else Enabled(s, ls[0]) && Scat(s, ls[0]) && (FitsKept(s, ls[0]); EchoRun(Do(s, ls[0]), ls[1..]))
  }

  lemma {:induction false} EchoRunIsRun(s: Sys, ls: seq<Label>)
    requires Fits(s) && EchoRun(s, ls)
    ensures Run(s, ls)
    decreases |ls|
  {
    hide Do, Enabled, Scat;
    if ls != [] {
      FitsKept(s, ls[0]);
      EchoRunIsRun(Do(s, ls[0]), ls[1..]);
    }
  }

  predicate EchoInv(s: Sys) {
    && s.w.wroteOut <= s.w.consumed
    && s.w.wroteErr == "" && s.w.wroteReport == "" && s.w.stderr == ""
    && (s.w.alive ==> s.w.stdinRead)
    && (!s.w.alive && s.p.pc != AtThrow && (s.p.outcome.None? || !s.p.outcome.value.SignalReceived?) ==>
          s.w.status == Exited(0) && s.w.consumed == s.input && s.w.wroteOut == s.input)
  }

  lemma EchoInvByEnv(s: Sys, l: Label)
    requires Inv(s) && EchoInv(s) && Enabled(s, l) && Scat(s, l) && !l.IsParent()
    ensures EchoInv(Do(s, l))
  {
    hide Conserved, Draining, OutcomeSound, ClosedOnce;
    if l.ChildExits? {
      AllArrived(s);
    }
  }

  lemma AllArrived(s: Sys)
    requires Conserved(s) && WritePrefix(s) && s.w.stdin == "" && s.p.stdinClosed
    ensures s.w.consumed == s.input
  {
    hide Concat, ConcatC;
    assert s.input[..|s.input|] == s.input;
  }

  lemma EchoInvByParent(s: Sys, l: Label)
    requires Inv(s) && EchoInv(s) && Enabled(s, l) && l.IsParent()
    ensures EchoInv(Do(s, l))
  {
    hide Conserved, Draining, OutcomeSound, CString;
  }

  lemma {:induction false} EchoAlways(s: Sys, ls: seq<Label>)
    requires Fits(s) && EchoRun(s, ls) && Inv(s) && EchoInv(s)
    ensures Run(s, ls) && Inv(After(s, ls)) && EchoInv(After(s, ls))
    decreases |ls|
  {
    hide Inv, EchoInv, Do, Enabled, Scat;
    EchoRunIsRun(s, ls);
    if ls != [] {
      FitsKept(s, ls[0]);
      InvKept(s, ls[0]);
      if ls[0].IsParent() {
        EchoInvByParent(s, ls[0]);
      } else {
        EchoInvByEnv(s, ls[0]);
      }
      EchoAlways(Do(s, ls[0]), ls[1..]);
    }
  }

  function Held(s: Sys): string {
    if |s.w.wroteOut| <= |s.w.consumed| then s.w.consumed[|s.w.wroteOut|..] else ""
  }

  /** At every moment every byte of the input is in exactly one place. */
  lemma EchoConservation(input: string, caps: Capacities, ls: seq<Label>)
    requires EchoRun(Start(input, caps), ls) && NulFree(input)
    ensures Run(Start(input, caps), ls)
    ensures var s := After(Start(input, caps), ls);
            s.p.wrote <= |input|
            && input == s.p.output + (s.w.stdout + (Held(s) + (s.w.stdin + input[s.p.wrote..])))
  {
    InvAtStart(input, caps);
    EchoAlways(Start(input, caps), ls);
    var s := After(Start(input, caps), ls);
    hide EchoRun, Run, After, Start, Draining, OutcomeSound, ClosedOnce, LifeCycle, NulFree, Concat, ConcatC;
    var rest := input[s.p.wrote..];
    assert input == s.w.accepted + rest;
    Assoc(s.w.consumed, s.w.stdin, rest);
    assert s.w.consumed == s.w.wroteOut + Held(s);
    Assoc(s.w.wroteOut, Held(s), s.w.stdin + rest);
    Assoc(Concat(s.p.outChunks), s.w.stdout, Held(s) + (s.w.stdin + rest));
    NulFreeConcat(Concat(s.p.outChunks), s.w.stdout + (Held(s) + (s.w.stdin + rest)));
    CStringsAreExact(s.p.outChunks);
  }

  /** When the call returns it returns the input, if that has no NUL; and it never reports an execution error. */
  lemma EchoResult(input: string, caps: Capacities, ls: seq<Label>)
    requires EchoRun(Start(input, caps), ls)
    ensures Run(Start(input, caps), ls)
    ensures match After(Start(input, caps), ls).p.outcome
            case Some(Returned(results)) =>
              results.exitCode == 0 && results.errors == "" && (results.output == input <==> NulFree(input))
            case Some(SutExecution(_)) => false
            case _ => true
  {
    InvAtStart(input, caps);
    EchoAlways(Start(input, caps), ls);
    CompleteDrain(input, caps, ls);
    OutcomeSoundness(input, caps, ls);
    NoNulInNothing();
    hide EchoRun, Run, After, Start, Draining, ClosedOnce, Conserved, WritePrefix, NulFree;
  }

  lemma NoNulInNothing()
    ensures NulFree("")
  {
  }
}
