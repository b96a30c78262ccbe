/** A test file, a run of the program and the full-output expectation together (src/main.cpp:163-211). */
module Verdict {
  import opened Text
  import opened Words
  import opened Parsing
  import opened Layout
  import opened RoundTrip
  import opened FrontEnd
  import LineEndings
  import Difference
  import Protocol
  import Safety = ProtocolSafety

  // -------------------------------------------------- what stands behind a text

  /** What a file holds behind the text of its i-th expectation. */
  function Behind(es: seq<Expectation>, ls: seq<ClauseLayout>, tail: string, i: nat): string
    requires |ls| == |es| && i < |es|
  {
    PrintClauses(es[i + 1..], ls[i + 1..], tail)
  }

  /** An expected text is a view into the buffer: it stands there as it is, with the next EXPECT line right
      behind it. */
  lemma TextStandsInBuffer(data: TestData, l: FileLayout, i: nat) returns (front: string)
    requires Legal(data, l) && i < |data.expectations| && data.expectations[i].FullOutput?
    ensures var text, rest := data.expectations[i].text, Behind(data.expectations, l.clauses, l.tail, i);
            Render(data, l) == front + (text + rest) && EndsText(text, rest)
  {
    var es := data.expectations;
    var clauses := PrintClauses(es, l.clauses, l.tail);
    var prev := if l.emptyInput then None else Some(data.input);
    var a := InputInFront(data.input, l, clauses);
    var b := PiecesInFront(l.comments, "RUN" + (l.a + ("WITH" + (l.b + PrintInput(data.input, l, clauses)))));
    var c := ClausesInFront(prev, es, l.clauses, l.tail, i);
    hide PrintClauses, PrintInput, PrintPieces, Legal, EndsText, Behind;
    front := l.lead + (b + ("RUN" + (l.a + ("WITH" + (l.b + (a + c))))));
    var text := es[i].text + Behind(es, l.clauses, l.tail, i);
    Assoc(a, c, text);
    RegroupFile(l.lead, b, l.a, l.b, a + c, text);
  }

  lemma RegroupFile(lead: string, b: string, x: string, y: string, z: string, rest: string)
    ensures lead + (b + ("RUN" + (x + ("WITH" + (y + (z + rest))))))
            == lead + (b + ("RUN" + (x + ("WITH" + (y + z))))) + rest
  {
  }

  lemma InputInFront(input: string, l: FileLayout, rest: string) returns (front: string)
    requires !l.emptyInput ==> TextLegal(l.text, input, rest)
    ensures PrintInput(input, l, rest) == front + rest
  {
    hide TextLegal, PrintText;
    if l.emptyInput {
      front := "EMPTY" + (l.c + "INPUT");
      ThreeParts("EMPTY", l.c, "INPUT", rest);
    } else {
      var f := TextInFront(l.text, input, rest);
      front := "INPUT" + f;
      Assoc("INPUT", f, rest);
    }
  }

  lemma {:induction false} PiecesInFront(ps: seq<Piece>, rest: string) returns (front: string)
    ensures PrintPieces(ps, rest) == front + rest
    decreases |ps|
  {
    if ps == [] {
      front := "";
    } else {
      var f := PiecesInFront(ps[1..], rest);
      front := ps[0].word + (ps[0].gap + f);
    }
  }

  lemma {:induction false} ClausesInFront(prev: Option<string>, es: seq<Expectation>, ls: seq<ClauseLayout>,
      tail: string, i: nat)
      returns (front: string)
    requires |ls| == |es| && ClausesLegal(prev, es, ls, tail) && i < |es| && es[i].FullOutput?
    ensures var rest := Behind(es, ls, tail, i);
            PrintClauses(es, ls, tail) == front + (es[i].text + rest) && EndsText(es[i].text, rest)
    decreases |es|
  {
    FirstIsLegal(prev, es, ls, tail);
    PrintFirst(es, ls, tail);
    BehindRest(es, ls, tail, i);
    hide EndsText, ClausesLegal, PrintClauses, PrintTail, TailLegal, Behind, TextOf;
    var rest := PrintClauses(es[1..], ls[1..], tail);
    if i == 0 {
      ClausesFollow(TextOf(es[0]), es[1..], ls[1..], tail);
      TextFollows(es[0], rest);
      front := FullOutputInFront(es[0], ls[0], rest);
    } else {
      var f := ClausesInFront(TextOf(es[0]), es[1..], ls[1..], tail, i - 1);
      front := LaterInFront(es[0], ls[0], f, es[i].text + Behind(es, ls, tail, i));
    }
  }

  lemma FirstIsLegal(prev: Option<string>, es: seq<Expectation>, ls: seq<ClauseLayout>, tail: string)
    requires |ls| == |es| && ClausesLegal(prev, es, ls, tail) && es != []
    ensures TailLegal(es[0], ls[0], PrintClauses(es[1..], ls[1..], tail))
    ensures ClausesLegal(TextOf(es[0]), es[1..], ls[1..], tail)
  {
    hide TailLegal, PrintClauses;
  }

  lemma BehindRest(es: seq<Expectation>, ls: seq<ClauseLayout>, tail: string, i: nat)
    requires |ls| == |es| && i < |es|
    ensures i == 0 ==> Behind(es, ls, tail, i) == PrintClauses(es[1..], ls[1..], tail)
    ensures i > 0 ==> Behind(es[1..], ls[1..], tail, i - 1) == Behind(es, ls, tail, i)
  {
    hide PrintClauses;
    if i > 0 {
      assert es[1..][i..] == es[i + 1..] && ls[1..][i..] == ls[i + 1..];
    }
  }

  lemma TextFollows(e: Expectation, rest: string)
    requires e.FullOutput? && Follows(TextOf(e), rest)
    ensures EndsText(e.text, rest)
  {
    hide EndsText;
  }

  lemma LaterInFront(e: Expectation, l: ClauseLayout, f: string, below: string) returns (front: string)
    requires TailLegal(e, l, f + below)
    ensures l.sep + ("EXPECT" + (l.a + PrintTail(e, l, f + below))) == front + below
  {
    hide TailLegal, PrintTail;
    var g := TailInFront(e, l, f + below);
    front := l.sep + ("EXPECT" + (l.a + (g + f)));
    Assoc(g, f, below);
    Regroup(l.sep, l.a, g + f, below);
  }

  lemma PrintFirst(es: seq<Expectation>, ls: seq<ClauseLayout>, tail: string)
    requires |ls| == |es| && es != []
    ensures PrintClauses(es, ls, tail)
            == ls[0].sep + ("EXPECT" + (ls[0].a + PrintTail(es[0], ls[0], PrintClauses(es[1..], ls[1..], tail))))
  {
    hide PrintTail;
  }

  lemma Regroup(sep: string, a: string, z: string, rest: string)
    ensures sep + ("EXPECT" + (a + (z + rest))) == sep + ("EXPECT" + (a + z)) + rest
  {
  }

  lemma FullOutputInFront(e: Expectation, l: ClauseLayout, rest: string) returns (front: string)
    requires e.FullOutput? && TailLegal(e, l, rest)
    ensures l.sep + ("EXPECT" + (l.a + PrintTail(e, l, rest))) == front + (e.text + rest)
  {
    hide NoExpectLine;
    front := l.sep + ("EXPECT" + (l.a + ("OUTPUT" + (l.text.blanks + if l.text.eol then "\n" else ""))));
    if !l.text.eol {
      assert e.text + rest == "";
    }
  }

  lemma TailInFront(e: Expectation, l: ClauseLayout, rest: string) returns (front: string)
    requires TailLegal(e, l, rest)
    ensures PrintTail(e, l, rest) == front + rest
  {
    hide NoExpectLine, PrintText, TextLegal;
    match e {
      case EmptyOutput =>
        front := "EMPTY" + (l.b + "OUTPUT");
        ThreeParts("EMPTY", l.b, "OUTPUT", rest);
      case FullOutput(text) =>
        var f := TextInFront(l.text, text, rest);
        front := "OUTPUT" + f;
        Assoc("OUTPUT", f, rest);
      case PartialOutput(text) =>
        var f := TextInFront(l.text, text, rest);
        front := "IN" + (l.b + ("OUTPUT" + f));
        Assoc("OUTPUT", f, rest);
        ThreeParts("IN", l.b, "OUTPUT" + f, rest);
      case ExitCode(_) => front := ExitInFront(l, "CODE", l.digits, rest);
      case SuccessfulExit => front := ExitInFront(l, "WITH", "SUCCESS", rest);
      case FailureExit => front := ExitInFront(l, "WITH", "FAILURE", rest);
    }
  }

  lemma ExitInFront(l: ClauseLayout, word: string, last: string, rest: string) returns (front: string)
    ensures "EXIT" + (l.b + (word + (l.c + (last + rest)))) == front + rest
  {
    front := "EXIT" + (l.b + (word + (l.c + last)));
    ThreeParts(word, l.c, last, rest);
    ThreeParts("EXIT", l.b, word + (l.c + last), rest);
  }

  lemma ThreeParts(a: string, b: string, c: string, rest: string)
    ensures a + (b + (c + rest)) == a + (b + c) + rest
  {
  }

  lemma TextInFront(l: TextLayout, text: string, rest: string) returns (front: string)
    requires TextLegal(l, text, rest)
    ensures PrintText(l, text, rest) == front + rest
  {
    hide NoExpectLine;
    front := l.blanks + if l.eol then "\n" + text else "";
  }

  // -------------------------------------------------------- the reported position

  /** What the next EXPECT line begins with: its newline, which only an empty text can do without. */
  function NextMark(l: ClauseLayout): char { if l.sep == "" then 'E' else '\n' }

  lemma {:induction false} LegalFrom(prev: Option<string>, es: seq<Expectation>, ls: seq<ClauseLayout>, tail: string,
      i: nat)
    requires |ls| == |es| && ClausesLegal(prev, es, ls, tail) && i < |es|
    ensures ClausesLegal(TextOf(es[i]), es[i + 1..], ls[i + 1..], tail)
    decreases i
  {
    hide Separates, TailLegal, PrintClauses;
    if i > 0 {
      LegalFrom(TextOf(es[0]), es[1..], ls[1..], tail, i - 1);
      assert es[1..][i..] == es[i + 1..] && ls[1..][i..] == ls[i + 1..];
    }
  }

  lemma BehindStarts(data: TestData, l: FileLayout, i: nat)
    requires Legal(data, l) && i < |data.expectations| && data.expectations[i].FullOutput?
    ensures var rest := Behind(data.expectations, l.clauses, l.tail, i);
            && (rest == "" <==> i == |data.expectations| - 1)
            && (rest != "" ==> rest[0] == NextMark(l.clauses[i + 1]))
  {
    var es, ls := data.expectations, l.clauses;
    LegalFrom(if l.emptyInput then None else Some(data.input), es, ls, l.tail, i);
    hide TailLegal, PrintTail, TextLegal, WholeComments;
    if i < |es| - 1 {
      hide ClausesLegal;
      SepIsNewline(TextOf(es[i]), es[i + 1..], ls[i + 1..], l.tail);
      PrintFirst(es[i + 1..], ls[i + 1..], l.tail);
    }
  }

  lemma SepIsNewline(prev: Option<string>, es: seq<Expectation>, ls: seq<ClauseLayout>, tail: string)
    requires |ls| == |es| && es != [] && prev.Some? && ClausesLegal(prev, es, ls, tail)
    ensures ls[0].sep == "\n" || ls[0].sep == ""
  {
    hide TailLegal, PrintClauses;
  }

  /** For an accepted file, the reported position is the length of the longest common prefix exactly unless the output
      is the expected text and more, another EXPECT line follows the text, and the output goes on as that line begins.
      The search does not leave the buffer. */
  lemma ReportedPosition(data: TestData, l: FileLayout, i: nat, output: string, beyond: string)
    requires Legal(data, l) && i < |data.expectations| && data.expectations[i].FullOutput? && '\0' !in output
    ensures var expected, rest := data.expectations[i].text, Behind(data.expectations, l.clauses, l.tail, i);
            var p := Difference.DifferencePosition(expected, rest + "\0" + beyond, output);
            && p == Difference.DifferencePosition(expected, rest + "\0", output) <= |expected| + |rest|
            && (p == Difference.Agreement(output, expected) <==>
                  !(expected < output && i < |data.expectations| - 1
                    && output[|expected|] == NextMark(l.clauses[i + 1])))
  {
    var expected, rest := data.expectations[i].text, Behind(data.expectations, l.clauses, l.tail, i);
    BehindStarts(data, l, i);
    hide Legal, Behind;
    Difference.SearchStaysInBuffer(expected, rest, beyond, output);
    Difference.PositionIsCommonPrefixIff(expected, rest + "\0", output);
    assert (rest + "\0")[0] == if rest == "" then '\0' else rest[0];
    assert expected < output ==> output[|expected|] in output;
  }

  const EXIT_LINE := "\nEXPECT EXIT CODE 0"

  function TwoClauses(): TestData { TestData("", [FullOutput("ab"), ExitCode(0)]) }

  function TwoClausesFile(): string { "RUN\nWITH INPUT\n" + ("\nEXPECT OUTPUT\n" + ("ab" + EXIT_LINE)) }

  /** A program that prints one newline too many: the first difference is at 2, and 3 is reported. Of the expected
      text the whole is shown, without a pointer. */
  lemma NextLineMisleads()
    ensures Parse(LineEndings.Normalise(TwoClausesFile())) == Ok(TwoClauses())
    ensures Difference.Agreement("ab\n", "ab") == 2
    ensures Difference.Validate("ab", EXIT_LINE + "\0", "ab\n") == Some(Difference.FullOutputCause(3, "ab", "ab\n"))
    ensures Difference.Shown("ab", 3) == "ab" && '^' !in Difference.PointRow(0, 2, 3)
  {
    FileParses();
    AgreesUpToThree();
    hide Parse, TwoClauses, TwoClausesFile;
    Difference.OnePointer(0, 2, 3);
    hide Difference.PointRow;
  }

  lemma AgreesUpToThree()
    ensures Difference.Agreement("ab\n", "ab") == 2
    ensures Difference.DifferencePosition("ab", EXIT_LINE + "\0", "ab\n") == 3
  {
    assert "ab\n"[1..] == "b\n" && "b\n"[1..] == "\n" && "\n"[1..] == "" && "ab"[1..] == "b" && "b"[1..] == "";
    Difference.PositionSplits("ab", EXIT_LINE + "\0", "ab\n");
    assert "ab\n"[2..] == "\n" && (EXIT_LINE + "\0")[0] == '\n';
  }

  lemma FileParses()
    ensures Parse(LineEndings.Normalise(TwoClausesFile())) == Ok(TwoClauses())
  {
    TwoClausesExist();
    PlainIsLegal(TwoClauses());
    PlainFile();
    FileHasNoCr();
    hide Parse, TwoClauses, TwoClausesFile, Legal, Render, Plain;
    RenderThenParse(TwoClauses(), Plain(TwoClauses()));
    LineEndings.NormaliseKeepsCrFree(TwoClausesFile());
  }

  lemma TwoClausesExist()
    ensures Representable(TwoClauses())
  {
    assert |"\n" + "ab"| == 3 && |"\n" + ""| == 1;
  }

  lemma FileHasNoCr()
    ensures '\r' !in TwoClausesFile()
  {
  }

  lemma PlainFile()
    ensures |Plain(TwoClauses()).clauses| == 2 && Render(TwoClauses(), Plain(TwoClauses())) == TwoClausesFile()
  {
    PlainTwo();
    PlainClausesText();
    hide PrintClauses, PlainClauses;
    RunHead(PrintClauses(TwoClauses().expectations, PlainClauses(TwoClauses().expectations), ""));
  }

  lemma RunHead(rest: string)
    ensures "" + ("RUN" + ("\n" + ("WITH" + (" " + ("INPUT" + ("" + ("\n" + ("" + rest))))))))
            == "RUN\nWITH INPUT\n" + rest
  {
  }

  lemma PlainTwo()
    ensures var es := TwoClauses().expectations;
            es[1..] == [ExitCode(0)] && PlainClauses(es) == [PlainClause(es[0]), PlainClause(es[1])]
  {
    var es := TwoClauses().expectations;
    assert es[1..] == [ExitCode(0)] && es[1..][1..] == [];
    hide PlainClause;
  }

  lemma PlainClausesText()
    ensures var es := TwoClauses().expectations;
            PrintClauses(es, PlainClauses(es), "") == "\nEXPECT OUTPUT\n" + ("ab" + EXIT_LINE)
  {
    var es := TwoClauses().expectations;
    PlainTwo();
    var ls := PlainClauses(es);
    assert ls[1..] == [PlainClause(es[1])];
    PrintFirst(es, ls, "");
    ExitLine();
    OutputLine(EXIT_LINE);
    hide PrintClauses, PrintTail, PlainClause, PlainClauses;
  }

  lemma ExitLine()
    ensures PrintClauses([ExitCode(0)], [PlainClause(ExitCode(0))], "") == EXIT_LINE
  {
    PrintFirst([ExitCode(0)], [PlainClause(ExitCode(0))], "");
    assert PrintTail(ExitCode(0), PlainClause(ExitCode(0)), "") == "EXIT CODE 0";
    hide PrintTail;
  }

  lemma OutputLine(rest: string)
    ensures var e, l := FullOutput("ab"), PlainClause(FullOutput("ab"));
            l.sep + ("EXPECT" + (l.a + PrintTail(e, l, rest))) == "\nEXPECT OUTPUT\n" + ("ab" + rest)
  {
    assert PrintTail(FullOutput("ab"), PlainClause(FullOutput("ab")), rest) == "OUTPUT\n" + ("ab" + rest);
  }

  // ------------------------------------------------------------------ the output

  /** What the program's output is compared as, `ExecuteSut` of src/main.cpp. */
  function Compared(output: string): string { LineEndings.Normalise(output) }

  /** Whatever the program does, what is compared has no NUL and no CR. */
  lemma ComparedOutput(input: string, caps: Protocol.Capacities, ls: seq<Protocol.Label>)
    requires Safety.Run(Safety.Start(input, caps), ls)
    ensures var output := Compared(Safety.After(Safety.Start(input, caps), ls).p.output);
            '\0' !in output && '\r' !in output
  {
    Safety.InvAtStart(input, caps);
    Safety.InvAlways(Safety.Start(input, caps), ls);
    var p := Safety.After(Safety.Start(input, caps), ls).p;
    hide Safety.Run, Safety.After, Safety.Start, Safety.ConcatC;
    AppendedHasNoNul(p.outChunks);
    LineEndings.NormaliseRemovesCr(p.output);
    NormaliseKeepsNulFree(p.output);
  }

  lemma {:induction false} AppendedHasNoNul(chunks: seq<string>)
    ensures '\0' !in Safety.ConcatC(chunks)
  {
    if chunks != [] {
      var last := chunks[|chunks| - 1];
      AppendedHasNoNul(chunks[..|chunks| - 1]);
      LeadingStops(last, Protocol.NotNul);
    }
  }

  lemma {:induction false} NormaliseKeepsNulFree(s: string)
    requires '\0' !in s
    ensures '\0' !in LineEndings.Normalise(s)
  {
    if s != "" {
      assert s[0] in s && s == s[..LineEndings.HeadLength(s)] + s[LineEndings.HeadLength(s)..];
      NormaliseKeepsNulFree(s[LineEndings.HeadLength(s)..]);
    }
  }

  /** The verdict does not depend on the style of the newlines that the program prints, but for newlines that merge. */
  lemma VerdictIgnoresNewlineStyle(expected: string, behind: string, text: string, styles: seq<LineEndings.Style>)
    requires '\r' !in text && |styles| == |text|
    ensures Difference.Validate(expected, behind, Compared(LineEndings.Encode(text, styles)))
            == Difference.Validate(expected, behind, LineEndings.Merged(text, styles))
    ensures Difference.Validate(text, behind, Compared(LineEndings.Encode(text, styles))) == None
            <==> !LineEndings.Merges(text, styles)
  {
    hide Difference.Validate;
    LineEndings.EncodingNormalises(text, styles);
    LineEndings.AnyEncodingNormalisesBack(text, styles);
    Difference.CausePoints(text, behind, LineEndings.Merged(text, styles));
  }
}
