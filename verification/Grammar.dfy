/** The language of token lists that the parser accepts, and what each list means. */
module Grammar {
  import opened Text
  import opened Scanner
  import opened Parsing

  datatype InputPart = NoInput | TextInput(text: Token)

  datatype Clause =
    | NothingClause
    | OutputClause(text: Token)
    | InOutputClause(text: Token)
    | CodeClause(number: Token)
    | SuccessClause
    | FailureClause

  /** COMMENT* RUN WITH (EMPTY INPUT | INPUT t) (EXPECT clause)* */
  datatype Sentence = Sentence(comments: seq<Token>, input: InputPart, clauses: seq<Clause>)

  predicate ClauseOk(c: Clause) {
    match c
    case OutputClause(t) => t.kind != KEYWORD
    case InOutputClause(t) => t.kind != KEYWORD
    case CodeClause(n) => n.kind == INTEGER && Stoi(n.value).Ok?
    case _ => true
  }

  predicate SentenceOk(s: Sentence) {
    && (forall t <- s.comments :: t.kind == COMMENT)
    && (s.input.TextInput? ==> s.input.text.kind != KEYWORD)
    && (forall c <- s.clauses :: ClauseOk(c))
  }

  // -------------------------------------------------------------- yield, meaning

  function ClauseTail(c: Clause): seq<Token> {
    match c
    case NothingClause => [Keyword("EMPTY"), Keyword("OUTPUT")]
    case OutputClause(t) => [Keyword("OUTPUT"), t]
    case InOutputClause(t) => [Keyword("IN"), Keyword("OUTPUT"), t]
    case CodeClause(n) => [Keyword("EXIT"), Keyword("CODE"), n]
    case SuccessClause => [Keyword("EXIT"), Keyword("WITH"), Keyword("SUCCESS")]
    case FailureClause => [Keyword("EXIT"), Keyword("WITH"), Keyword("FAILURE")]
  }

  function ClausesYield(cs: seq<Clause>): seq<Token> {
    if cs == [] then [] else [Keyword("EXPECT")] + (ClauseTail(cs[0]) + ClausesYield(cs[1..]))
  }

  function InputYield(i: InputPart): seq<Token> {
    match i
    case NoInput => [Keyword("EMPTY"), Keyword("INPUT")]
    case TextInput(t) => [Keyword("INPUT"), t]
  }

  function Yield(s: Sentence): seq<Token> {
    s.comments + ([Keyword("RUN"), Keyword("WITH")] + (InputYield(s.input) + ClausesYield(s.clauses)))
  }

  function ClauseMeaning(c: Clause): Expectation
    requires ClauseOk(c)
  {
    match c
    case NothingClause => EmptyOutput
    case OutputClause(t) => FullOutput(t.value)
    case InOutputClause(t) => PartialOutput(t.value)
    case CodeClause(n) => ExitCode(Stoi(n.value).value)
    case SuccessClause => SuccessfulExit
    case FailureClause => FailureExit
  }

  function ClausesMeaning(cs: seq<Clause>): (es: seq<Expectation>)
    requires forall c <- cs :: ClauseOk(c)
    ensures |es| == |cs|
  {
    if cs == [] then [] else [ClauseMeaning(cs[0])] + ClausesMeaning(cs[1..])
  }

  function Meaning(s: Sentence): TestData
    requires SentenceOk(s)
  {
    TestData(if s.input.TextInput? then s.input.text.value else "", ClausesMeaning(s.clauses))
  }

  // ------------------------------------------------------------------- parsing

  function ParseList(state: State, data: TestData, ts: seq<Token>): Result<TestData, Error>
    requires state != DONE
  {
    Drive(state, data, Stream(ts, Eof))
  }

  /** The first token takes the parser from `state` to `to`. */
  lemma Shift(state: State, data: TestData, t: Token, rest: seq<Token>)
    requires state != DONE
    ensures ParseList(state, data, [t] + rest) == Onward(Feed(state, data, Some(t)), Stream(rest, Eof))
  {
    DriveStep(state, data, t, Stream(rest, Eof));
  }

  lemma ShiftTwo(state: State, data: TestData, t: Token, u: Token, rest: seq<Token>)
    requires state != DONE && Feed(state, data, Some(t)).Go?
    ensures var m := Feed(state, data, Some(t));
            ParseList(state, data, [t, u] + rest) == Onward(Feed(m.state, m.data, Some(u)), Stream(rest, Eof))
  {
    hide Feed, Drive;
    Shift(state, data, t, [u] + rest);
    assert [t, u] + rest == [t] + ([u] + rest);
    var m := Feed(state, data, Some(t));
    Shift(m.state, m.data, u, rest);
  }

  lemma ParseClause(data: TestData, c: Clause, rest: seq<Token>)
    requires ClauseOk(c)
    ensures ParseList(EXPECT_OR_FINISH, data, [Keyword("EXPECT")] + (ClauseTail(c) + rest))
         == ParseList(EXPECT_OR_FINISH, Add(data, ClauseMeaning(c)), rest)
  {
    hide Drive, Stoi;
    Shift(EXPECT_OR_FINISH, data, Keyword("EXPECT"), ClauseTail(c) + rest);
    var ts := ClauseTail(c);
    if |ts| == 2 {
      ShiftTwo(OUTPUT_OR_EXIT_OR_IN, data, ts[0], ts[1], rest);
    } else {
      var m := Feed(OUTPUT_OR_EXIT_OR_IN, data, Some(ts[0]));
      Shift(OUTPUT_OR_EXIT_OR_IN, data, ts[0], [ts[1], ts[2]] + rest);
      assert ts + rest == [ts[0]] + ([ts[1], ts[2]] + rest);
      ShiftTwo(m.state, data, ts[1], ts[2], rest);
    }
  }

  lemma {:induction false} ParseClauses(data: TestData, cs: seq<Clause>)
    requires forall c <- cs :: ClauseOk(c)
    ensures ParseList(EXPECT_OR_FINISH, data, ClausesYield(cs))
            == Ok(data.(expectations := data.expectations + ClausesMeaning(cs)))
    decreases |cs|
  {
    hide Drive, Stoi;
    if cs == [] {
      DriveEnds(EXPECT_OR_FINISH, data, Stream([], Eof));
      assert data.expectations + [] == data.expectations;
    } else {
      ParseClause(data, cs[0], ClausesYield(cs[1..]));
      ParseClauses(Add(data, ClauseMeaning(cs[0])), cs[1..]);
      Assoc(data.expectations, [ClauseMeaning(cs[0])], ClausesMeaning(cs[1..]));
    }
  }

  lemma ParseInput(i: InputPart, rest: seq<Token>)
    requires i.TextInput? ==> i.text.kind != KEYWORD
    ensures ParseList(RUN, NO_DATA, [Keyword("RUN"), Keyword("WITH")] + (InputYield(i) + rest))
         == ParseList(EXPECT_OR_FINISH, TestData(if i.TextInput? then i.text.value else "", []), rest)
  {
    hide Drive, Stoi;
    ShiftTwo(RUN, NO_DATA, Keyword("RUN"), Keyword("WITH"), InputYield(i) + rest);
    var ts := InputYield(i);
    ShiftTwo(EMPTY_OR_INPUT, NO_DATA, ts[0], ts[1], rest);
  }

  lemma {:induction false} ParseComments(data: TestData, comments: seq<Token>, rest: seq<Token>)
    requires forall t <- comments :: t.kind == COMMENT
    ensures ParseList(RUN, data, comments + rest) == ParseList(RUN, data, rest)
  {
    hide Drive, Stoi;
    if comments == [] {
      assert comments + rest == rest;
    } else {
      Shift(RUN, data, comments[0], comments[1..] + rest);
      assert comments + rest == [comments[0]] + (comments[1..] + rest);
      assert comments[0] in comments;
      ParseComments(data, comments[1..], rest);
    }
  }

  lemma ParseSentence(s: Sentence)
    requires SentenceOk(s)
    ensures ParseList(RUN, NO_DATA, Yield(s)) == Ok(Meaning(s))
  {
    hide Drive, Stoi, ParseList, ClauseOk, ClausesYield, ClausesMeaning, InputYield;
    ParseComments(NO_DATA, s.comments,
        [Keyword("RUN"), Keyword("WITH")] + (InputYield(s.input) + ClausesYield(s.clauses)));
    ParseInput(s.input, ClausesYield(s.clauses));
    var data := TestData(if s.input.TextInput? then s.input.text.value else "", []);
    ParseClauses(data, s.clauses);
    assert [] + ClausesMeaning(s.clauses) == ClausesMeaning(s.clauses);
  }

  // ------------------------------------------------------------------ unparsing

  /** Only the clause position can end a list; elsewhere there is a first token and the parser can take it. */
  lemma Unshift(state: State, data: TestData, ts: seq<Token>)
    requires state != DONE && ParseList(state, data, ts).Ok?
    requires state != EXPECT_OR_FINISH || ts != []
    ensures ts != [] && ts == [ts[0]] + ts[1..]
    ensures var m := Feed(state, data, Some(ts[0]));
            m.Go? && m.state != DONE && ParseList(state, data, ts) == ParseList(m.state, m.data, ts[1..])
  {
    hide Drive, Feed;
    if ts == [] {
      DriveEnds(state, data, Stream(ts, Eof));
    } else {
      Shift(state, data, ts[0], ts[1..]);
      assert ts == [ts[0]] + ts[1..];
    }
  }

  lemma UnparseClauseTail(data: TestData, ts: seq<Token>) returns (c: Clause, rest: seq<Token>)
    requires ParseList(OUTPUT_OR_EXIT_OR_IN, data, ts).Ok?
    ensures ClauseOk(c) && ts == ClauseTail(c) + rest
    ensures ParseList(OUTPUT_OR_EXIT_OR_IN, data, ts) == ParseList(EXPECT_OR_FINISH, Add(data, ClauseMeaning(c)), rest)
  {
    hide Drive, Stoi, ParseList;
    Unshift(OUTPUT_OR_EXIT_OR_IN, data, ts);
    var m := Feed(OUTPUT_OR_EXIT_OR_IN, data, Some(ts[0]));
    var us := ts[1..];
    Unshift(m.state, data, us);
    match m.state {
      case TEXT_OUTPUT => c, rest := OutputClause(us[0]), us[1..];
      case EMPTY_OUTPUT => c, rest := NothingClause, us[1..];
      case IN_OUTPUT =>
        Unshift(TEXT_IN_OUTPUT, data, us[1..]);
        c, rest := InOutputClause(us[1]), us[2..];
      case CODE_OR_WITH =>
        c, rest := UnparseExit(data, us);
    }
    assert ts == ClauseTail(c) + rest;
  }

  lemma UnparseExit(data: TestData, us: seq<Token>) returns (c: Clause, rest: seq<Token>)
    requires ParseList(CODE_OR_WITH, data, us).Ok?
    ensures ClauseOk(c) && [Keyword("EXIT")] + us == ClauseTail(c) + rest
    ensures ParseList(CODE_OR_WITH, data, us) == ParseList(EXPECT_OR_FINISH, Add(data, ClauseMeaning(c)), rest)
  {
    hide Drive, Stoi, ParseList;
    Unshift(CODE_OR_WITH, data, us);
    var m := Feed(CODE_OR_WITH, data, Some(us[0]));
    var vs := us[1..];
    Unshift(m.state, data, vs);
    if m.state == CODE_NUMBER {
      c := CodeClause(vs[0]);
    } else if vs[0] == Keyword("SUCCESS") {
      c := SuccessClause;
    } else {
      c := FailureClause;
    }
    rest := vs[1..];
    assert [Keyword("EXIT")] + us == ClauseTail(c) + rest;
  }

  lemma {:induction false} UnparseClauses(data: TestData, ts: seq<Token>) returns (cs: seq<Clause>)
    requires ParseList(EXPECT_OR_FINISH, data, ts).Ok?
    ensures (forall c <- cs :: ClauseOk(c)) && ts == ClausesYield(cs)
    decreases |ts|
  {
    hide Drive, Stoi, ParseList;
    if ts == [] {
      cs := [];
    } else {
      Unshift(EXPECT_OR_FINISH, data, ts);
      var c, rest := UnparseClauseTail(data, ts[1..]);
      var more := UnparseClauses(Add(data, ClauseMeaning(c)), rest);
      cs := [c] + more;
      assert cs[1..] == more;
    }
  }

  lemma UnparseInput(data: TestData, ts: seq<Token>) returns (i: InputPart, rest: seq<Token>)
    requires ParseList(WITH, data, ts).Ok?
    ensures (i.TextInput? ==> i.text.kind != KEYWORD) && ts == [Keyword("WITH")] + (InputYield(i) + rest)
    ensures ParseList(EXPECT_OR_FINISH, if i.TextInput? then data.(input := i.text.value) else data, rest).Ok?
  {
    hide Drive, Feed, ParseList, InputYield;
    InputStates(data);
    Unshift(WITH, data, ts);
    i, rest := UnparseInputText(data, ts[1..]);
  }

  lemma InputStates(data: TestData)
    ensures forall t ::
              Feed(WITH, data, Some(t)).Go? ==>
                t == Keyword("WITH") && Feed(WITH, data, Some(t)) == Go(EMPTY_OR_INPUT, data)
  {
    hide Stoi;
  }

  lemma UnparseInputText(data: TestData, us: seq<Token>) returns (i: InputPart, rest: seq<Token>)
    requires ParseList(EMPTY_OR_INPUT, data, us).Ok?
    ensures (i.TextInput? ==> i.text.kind != KEYWORD) && us == InputYield(i) + rest
    ensures ParseList(EXPECT_OR_FINISH, if i.TextInput? then data.(input := i.text.value) else data, rest).Ok?
  {
    hide Drive, Stoi, ParseList;
    Unshift(EMPTY_OR_INPUT, data, us);
    var m := Feed(EMPTY_OR_INPUT, data, Some(us[0]));
    Unshift(m.state, data, us[1..]);
    i := if m.state == EMPTY_INPUT then NoInput else TextInput(us[1]);
    rest := us[2..];
    assert us == InputYield(i) + rest;
  }

  lemma {:induction false} UnparseSentence(data: TestData, ts: seq<Token>) returns (s: Sentence)
    requires ParseList(RUN, data, ts).Ok?
    ensures SentenceOk(s) && Yield(s) == ts
    decreases |ts|
  {
    hide Drive, Stoi, ParseList, ClauseOk, ClausesYield, InputYield;
    Unshift(RUN, data, ts);
    if ts[0].kind == COMMENT {
      var u := UnparseSentence(data, ts[1..]);
      s := u.(comments := [ts[0]] + u.comments);
      Assoc([ts[0]], u.comments, [Keyword("RUN"), Keyword("WITH")] + (InputYield(s.input) + ClausesYield(s.clauses)));
    } else {
      var i, rest := UnparseInput(data, ts[1..]);
      var cs := UnparseClauses(if i.TextInput? then data.(input := i.text.value) else data, rest);
      s := Sentence([], i, cs);
      assert ts == [Keyword("RUN"), Keyword("WITH")] + (InputYield(i) + ClausesYield(cs));
    }
  }

  // ------------------------------------------------------------------- theorem

  /** The parser accepts exactly the sentences, and gives each the meaning the grammar gives it. */
  lemma GrammarEquivalence(ts: seq<Token>, data: TestData)
    ensures Drive(RUN, NO_DATA, Stream(ts, Eof)) == Ok(data)
        <==> exists s: Sentence :: SentenceOk(s) && Yield(s) == ts && Meaning(s) == data
  {
    hide Drive, Stoi, ClauseOk, ClausesYield, ClausesMeaning, InputYield, Yield, Meaning, SentenceOk;
    assert ParseList(RUN, NO_DATA, ts) == Drive(RUN, NO_DATA, Stream(ts, Eof));
    if ParseList(RUN, NO_DATA, ts).Ok? {
      var s := UnparseSentence(NO_DATA, ts);
      ParseSentence(s);
    }
    forall s: Sentence | SentenceOk(s) && Yield(s) == ts
      ensures ParseList(RUN, NO_DATA, ts) == Ok(Meaning(s))
    {
      ParseSentence(s);
    }
  }
}
