/** Lexing and parsing a rendered file gives back what was rendered. */
module RoundTrip {
  import opened Text
  import opened Scanner
  import opened Words
  import opened Parsing
  import opened Layout
  import opened Synchronisation

  function From(state: State, data: TestData, rest: string, mode: Mode): Result<TestData, Error>
    requires state != DONE
  {
    Drive(state, data, Tokens(Scan(rest, mode, false)))
  }

  // ------------------------------------------------------------------- keywords

  lemma WordFacts()
    ensures IsWord("RUN") && IsWord("WITH") && IsWord("EXIT") && IsWord("IN") && IsWord("SUCCESS") && IsWord("FAILURE")
    ensures IsWord("CODE") && IsWord("EXPECT") && IsWord("EMPTY") && IsWord("INPUT") && IsWord("OUTPUT")
    ensures Classify("RUN") == Classify("WITH") == Classify("EXIT") == Classify("IN") == OtherKeyword
    ensures Classify("SUCCESS") == Classify("FAILURE") == OtherKeyword
    ensures Classify("CODE") == CodeWord && Classify("EXPECT") == ExpectWord && Classify("EMPTY") == EmptyWord
    ensures Classify("INPUT") == Classify("OUTPUT") == TextIntroducer
  {
    OtherKeywordFacts();
  }

  lemma OtherKeywordFacts()
    ensures Classify("RUN") == Classify("WITH") == Classify("EXIT") == Classify("IN") == OtherKeyword
    ensures Classify("SUCCESS") == Classify("FAILURE") == OtherKeyword
  {
  }

  lemma FeedFacts(data: TestData)
    ensures Feed(EXPECT_OR_FINISH, data, Some(Keyword("EXPECT"))) == Go(OUTPUT_OR_EXIT_OR_IN, data)
    ensures Feed(OUTPUT_OR_EXIT_OR_IN, data, Some(Keyword("OUTPUT"))) == Go(TEXT_OUTPUT, data)
    ensures Feed(OUTPUT_OR_EXIT_OR_IN, data, Some(Keyword("EMPTY"))) == Go(EMPTY_OUTPUT, data)
    ensures Feed(OUTPUT_OR_EXIT_OR_IN, data, Some(Keyword("IN"))) == Go(IN_OUTPUT, data)
    ensures Feed(OUTPUT_OR_EXIT_OR_IN, data, Some(Keyword("EXIT"))) == Go(CODE_OR_WITH, data)
    ensures Feed(IN_OUTPUT, data, Some(Keyword("OUTPUT"))) == Go(TEXT_IN_OUTPUT, data)
    ensures Feed(EMPTY_OUTPUT, data, Some(Keyword("OUTPUT"))) == Go(EXPECT_OR_FINISH, Add(data, EmptyOutput))
    ensures forall text ::
            Feed(TEXT_OUTPUT, data, Some(Token(TEXT, text))) == Go(EXPECT_OR_FINISH, Add(data, FullOutput(text)))
    ensures forall text ::
            Feed(TEXT_IN_OUTPUT, data, Some(Token(TEXT, text))) == Go(EXPECT_OR_FINISH, Add(data, PartialOutput(text)))
    ensures ExitFacts(data)
  {
    MoreFeedFacts(data);
    hide Stoi, ExitFacts;
  }

  lemma MoreFeedFacts(data: TestData)
    ensures ExitFacts(data)
  {
    hide Stoi;
  }

  predicate ExitFacts(data: TestData) {
    && Feed(CODE_OR_WITH, data, Some(Keyword("CODE"))) == Go(CODE_NUMBER, data)
    && Feed(CODE_OR_WITH, data, Some(Keyword("WITH"))) == Go(EXIT_WITH_FAILURE_OR_SUCCESS, data)
    && Feed(EXIT_WITH_FAILURE_OR_SUCCESS, data, Some(Keyword("SUCCESS")))
       == Go(EXPECT_OR_FINISH, Add(data, SuccessfulExit))
    && Feed(EXIT_WITH_FAILURE_OR_SUCCESS, data, Some(Keyword("FAILURE")))
       == Go(EXPECT_OR_FINISH, Add(data, FailureExit))
  }

  // ---------------------------------------------------------------- single words

  lemma ReadKeyword(state: State, data: TestData, mode: Mode, gap: string, word: string, rest: string)
    requires state != DONE && Spaces(gap) && IsWord(word) && EndsWord(rest)
    requires mode == Keywords || (mode == KeywordsThenLines && !Classify(word).TextIntroducer?)
    requires Classify(word).IsKeyword()
    ensures Drive(state, data, Tokens(Scan(gap + (word + rest), mode, false)))
         == Onward(Feed(state, data, Some(Keyword(word))), Tokens(Scan(rest, ModeAfter(mode, Classify(word)), false)))
  {
    ReadWord(gap, word, rest);
    DriveScan(state, data, Scan(gap + (word + rest), mode, false));
    hide Word, AfterWord, Drive, Feed, Tokens, Classify, IsWord, EndsWord;
  }

  lemma NextAt(mode: Mode, gap: string, word: string, rest: string)
    requires mode != Lines && Spaces(gap) && IsWord(word) && EndsWord(rest)
    ensures var sc := Scan(gap + (word + rest), mode, false); Next(sc) == NextWord(sc, word, rest)
  {
    ReadWord(gap, word, rest);
    hide Word, AfterWord, NextWord;
  }

  lemma DigitsAreAWord(digits: string, code: int)
    requires Digits(digits, code)
    ensures IsWord(digits) && Leading(digits, IsDigit) == |digits| && !StartsWith(digits, "/*")
  {
    LeadingIs(digits, "", IsDigit);
    assert digits + "" == digits;
    hide Leading;
    assert forall i :: 0 <= i < |digits| ==> NotSpace(digits[i]);
    assert digits[0] != '/';
  }

  lemma NextDigits(gap: string, digits: string, code: int, rest: string)
    requires Spaces(gap) && Digits(digits, code) && EndsWord(rest)
    ensures Next(Scan(gap + (digits + rest), Integer, false))
            == Tok(Token(INTEGER, digits), Scan(rest, KeywordsThenLines, false))
  {
    DigitsAreAWord(digits, code);
    hide Leading, StartsWith, IsWord, EndsWord, Digits, Next;
    NextAt(Integer, gap, digits, rest);
  }

  lemma FeedDigits(data: TestData, digits: string, code: int)
    requires Digits(digits, code)
    ensures Feed(CODE_NUMBER, data, Some(Token(INTEGER, digits))) == Go(EXPECT_OR_FINISH, Add(data, ExitCode(code)))
  {
    StoiOfDigits(digits);
    hide Stoi;
  }

  lemma ReadInteger(data: TestData, gap: string, digits: string, code: int, rest: string)
    requires Spaces(gap) && Digits(digits, code) && EndsWord(rest)
    ensures From(CODE_NUMBER, data, gap + (digits + rest), Integer)
         == From(EXPECT_OR_FINISH, Add(data, ExitCode(code)), rest, KeywordsThenLines)
  {
    hide Next, Feed, Drive, Tokens, Digits, EndsWord;
    NextDigits(gap, digits, code, rest);
    FeedDigits(data, digits, code);
    DriveScan(CODE_NUMBER, data, Scan(gap + (digits + rest), Integer, false));
  }

  lemma SkipToLine(l: TextLayout, text: string, rest: string)
    requires All(l.blanks, IsBlank)
    ensures SkipBlanks(PrintText(l, text, rest)) == if l.eol then "\n" + (text + rest) else ""
  {
    var line := if l.eol then "\n" + (text + rest) else "";
    LeadingIs(l.blanks, line, IsBlank);
  }

  lemma TextEndsWord(l: TextLayout, text: string, rest: string)
    requires All(l.blanks, IsBlank)
    ensures EndsWord(PrintText(l, text, rest))
  {
  }

  lemma NextIntroducer(gap: string, word: string, l: TextLayout, text: string, rest: string)
    requires Spaces(gap) && (word == "INPUT" || word == "OUTPUT") && TextLegal(l, text, rest)
    ensures Next(Scan(gap + (word + PrintText(l, text, rest)), KeywordsThenLines, false))
         == Tok(Keyword(word), Scan(text + rest, Lines, false))
  {
    TextEndsWord(l, text, rest);
    SkipToLine(l, text, rest);
    assert IsWord(word) && Classify(word).TextIntroducer?;
    NextAt(KeywordsThenLines, gap, word, PrintText(l, text, rest));
    hide Next, Classify, PrintText, SkipBlanks, NoExpectLine, IsWord, EndsWord;
    if l.eol {
      assert ("\n" + (text + rest))[1..] == text + rest;
    }
  }

  lemma NextText(text: string, rest: string)
    requires NoExpectLine(text) && EndsText(text, rest)
    ensures Next(Scan(text + rest, Lines, false)) == Tok(Token(TEXT, text), Scan(rest, KeywordsThenLines, false))
  {
    ReadText(text, rest);
    hide LinesLength, NoExpectLine, EndsText;
  }

  /** A text-introducing keyword together with its text. */
  lemma ReadTextClause(state: State, data: TestData, gap: string, word: string, l: TextLayout, text: string,
      rest: string)
    requires state != DONE && Spaces(gap) && (word == "INPUT" || word == "OUTPUT")
    requires TextLegal(l, text, rest) && EndsText(text, rest)
    requires var m := Feed(state, data, Some(Keyword(word))); m.Go? && IsTextState(m.state)
    ensures var m := Feed(state, data, Some(Keyword(word)));
            From(state, data, gap + (word + PrintText(l, text, rest)), KeywordsThenLines)
            == From(EXPECT_OR_FINISH, Feed(m.state, m.data, Some(Token(TEXT, text))).data, rest, KeywordsThenLines)
  {
    var m := Feed(state, data, Some(Keyword(word)));
    assert Feed(m.state, m.data, Some(Token(TEXT, text))).Go?
           && Feed(m.state, m.data, Some(Token(TEXT, text))).state == EXPECT_OR_FINISH;
    hide Feed;
    DriveScan(state, data, Scan(gap + (word + PrintText(l, text, rest)), KeywordsThenLines, false));
    NextIntroducer(gap, word, l, text, rest);
    DriveScan(m.state, m.data, Scan(text + rest, Lines, false));
    NextText(text, rest);
    hide Next, Drive, Tokens, PrintText, TextLegal, EndsText;
  }

  // -------------------------------------------------------------------- clauses

  lemma Gaps(s: string)
    requires Gapped(s)
    ensures Spaces(s) && forall rest: string :: EndsWord(s + rest)
  {
  }

  lemma ReadTwo(state: State, data: TestData, mode: Mode, gap: string, w: string, gap2: string, v: string, rest: string)
    requires state != DONE && Spaces(gap) && IsWord(w) && IsWord(v) && Gapped(gap2) && EndsWord(rest)
    requires mode == KeywordsThenLines && Classify(w).IsKeyword() && !Classify(w).TextIntroducer?
    requires var m := Feed(state, data, Some(Keyword(w))); m.Go? && m.state != DONE
    requires Classify(v).IsKeyword()
    requires ModeAfter(mode, Classify(w)) == Keywords
          || (ModeAfter(mode, Classify(w)) == KeywordsThenLines && !Classify(v).TextIntroducer?)
    ensures var m := Feed(state, data, Some(Keyword(w))); var mode2 := ModeAfter(mode, Classify(w));
            From(state, data, gap + (w + (gap2 + (v + rest))), mode)
            == Onward(Feed(m.state, m.data, Some(Keyword(v))), Tokens(Scan(rest, ModeAfter(mode2, Classify(v)), false)))
  {
    Gaps(gap2);
    hide Feed, Drive, Tokens, Classify;
    ReadKeyword(state, data, mode, gap, w, gap2 + (v + rest));
    var m := Feed(state, data, Some(Keyword(w)));
    ReadKeyword(m.state, m.data, ModeAfter(mode, Classify(w)), gap2, v, rest);
  }

  /** The words behind EXPECT, whatever the clause. */
  lemma ReadTail(data: TestData, e: Expectation, l: ClauseLayout, gap: string, rest: string)
    requires Gapped(gap) && TailLegal(e, l, rest) && Follows(TextOf(e), rest)
    ensures From(OUTPUT_OR_EXIT_OR_IN, data, gap + PrintTail(e, l, rest), KeywordsThenLines)
         == From(EXPECT_OR_FINISH, Add(data, e), rest, if e == EmptyOutput then Keywords else KeywordsThenLines)
  {
    WordFacts();
    FeedFacts(data);
    hide Drive, Tokens, Feed, Classify, IsWord, NoExpectLine, EndsText, EndsWord;
    match e
    case EmptyOutput =>
      ReadTwo(OUTPUT_OR_EXIT_OR_IN, data, KeywordsThenLines, gap, "EMPTY", l.b, "OUTPUT", rest);
    case FullOutput(text) =>
      ReadTextClause(OUTPUT_OR_EXIT_OR_IN, data, gap, "OUTPUT", l.text, text, rest);
    case PartialOutput(text) =>
      ReadInOutput(data, l, gap, text, rest);
    case ExitCode(code) =>
      ReadExitCode(data, l, gap, code, rest);
    case SuccessfulExit =>
      ReadExitWith(data, l, gap, "SUCCESS", rest);
    case FailureExit =>
      ReadExitWith(data, l, gap, "FAILURE", rest);
  }

  lemma ReadInOutput(data: TestData, l: ClauseLayout, gap: string, text: string, rest: string)
    requires Gapped(gap) && Gapped(l.b) && TextLegal(l.text, text, rest) && EndsText(text, rest)
    ensures From(OUTPUT_OR_EXIT_OR_IN, data, gap + ("IN" + (l.b + ("OUTPUT" + PrintText(l.text, text, rest)))),
            KeywordsThenLines)
         == From(EXPECT_OR_FINISH, Add(data, PartialOutput(text)), rest, KeywordsThenLines)
  {
    Gaps(l.b);
    WordFacts();
    FeedFacts(data);
    hide Drive, Tokens, Feed, Classify, IsWord, TextLegal, EndsText, PrintText;
    ReadKeyword(OUTPUT_OR_EXIT_OR_IN, data, KeywordsThenLines, gap, "IN",
        l.b + ("OUTPUT" + PrintText(l.text, text, rest)));
    ReadTextClause(IN_OUTPUT, data, l.b, "OUTPUT", l.text, text, rest);
  }

  lemma ReadExitCode(data: TestData, l: ClauseLayout, gap: string, code: int, rest: string)
    requires Gapped(gap) && Gapped(l.b) && Gapped(l.c) && Digits(l.digits, code) && EndsWord(rest)
    ensures From(OUTPUT_OR_EXIT_OR_IN, data, gap + ("EXIT" + (l.b + ("CODE" + (l.c + (l.digits + rest))))),
            KeywordsThenLines)
         == From(EXPECT_OR_FINISH, Add(data, ExitCode(code)), rest, KeywordsThenLines)
  {
    Gaps(l.c);
    WordFacts();
    FeedFacts(data);
    hide Drive, Tokens, Feed, Classify, IsWord, Digits;
    ReadTwo(OUTPUT_OR_EXIT_OR_IN, data, KeywordsThenLines, gap, "EXIT", l.b, "CODE", l.c + (l.digits + rest));
    ReadInteger(data, l.c, l.digits, code, rest);
  }

  /** Three keywords that leave the mode as it is. */
  lemma ReadThree(state: State, data: TestData, gap: string, w: string, gap2: string, v: string, gap3: string,
      u: string, rest: string)
    requires state != DONE && Spaces(gap) && Gapped(gap2) && Gapped(gap3) && IsWord(w) && IsWord(v) && IsWord(u)
             && EndsWord(rest)
    requires Classify(w) == Classify(v) == Classify(u) == OtherKeyword
    requires var m := Feed(state, data, Some(Keyword(w))); m.Go? && m.state != DONE
    requires var m := Feed(state, data, Some(Keyword(w))); var m2 := Feed(m.state, m.data, Some(Keyword(v))); m2.Go?
    ensures var m := Feed(state, data, Some(Keyword(w))); var m2 := Feed(m.state, m.data, Some(Keyword(v)));
            From(state, data, gap + (w + (gap2 + (v + (gap3 + (u + rest))))), KeywordsThenLines)
            == Onward(Feed(m2.state, m2.data, Some(Keyword(u))), Tokens(Scan(rest, KeywordsThenLines, false)))
  {
    Gaps(gap3);
    hide Feed, Drive, Tokens, Classify, IsWord, EndsWord;
    ReadTwo(state, data, KeywordsThenLines, gap, w, gap2, v, gap3 + (u + rest));
    var m := Feed(state, data, Some(Keyword(w)));
    var m2 := Feed(m.state, m.data, Some(Keyword(v)));
    ReadKeyword(m2.state, m2.data, KeywordsThenLines, gap3, u, rest);
  }

  lemma ReadExitWith(data: TestData, l: ClauseLayout, gap: string, word: string, rest: string)
    requires Gapped(gap) && Gapped(l.b) && Gapped(l.c) && EndsWord(rest) && (word == "SUCCESS" || word == "FAILURE")
    ensures From(OUTPUT_OR_EXIT_OR_IN, data, gap + ("EXIT" + (l.b + ("WITH" + (l.c + (word + rest))))),
            KeywordsThenLines)
         == From(EXPECT_OR_FINISH, Add(data, if word == "SUCCESS" then SuccessfulExit else FailureExit), rest,
             KeywordsThenLines)
  {
    WordFacts();
    FeedFacts(data);
    var e := if word == "SUCCESS" then SuccessfulExit else FailureExit;
    assert Feed(EXIT_WITH_FAILURE_OR_SUCCESS, data, Some(Keyword(word))) == Go(EXPECT_OR_FINISH, Add(data, e));
    hide Drive, Tokens, Feed, Classify, IsWord, EndsWord, Spaces;
    ReadThree(OUTPUT_OR_EXIT_OR_IN, data, gap, "EXIT", l.b, "WITH", l.c, word, rest);
  }

  predicate ClauseMode(prev: Option<string>, mode: Mode) {
    mode == KeywordsThenLines || (mode == Keywords && prev == None)
  }

  lemma ReadClause(data: TestData, prev: Option<string>, mode: Mode, e: Expectation, l: ClauseLayout, rest: string)
    requires ClauseMode(prev, mode) && Separates(prev, l.sep) && Gapped(l.a)
    requires TailLegal(e, l, rest) && Follows(TextOf(e), rest)
    ensures From(EXPECT_OR_FINISH, data, l.sep + ("EXPECT" + (l.a + PrintTail(e, l, rest))), mode)
         == From(EXPECT_OR_FINISH, Add(data, e), rest, if e == EmptyOutput then Keywords else KeywordsThenLines)
  {
    assert IsWord("EXPECT") && Classify("EXPECT") == ExpectWord;
    assert Feed(EXPECT_OR_FINISH, data, Some(Keyword("EXPECT"))) == Go(OUTPUT_OR_EXIT_OR_IN, data);
    Gaps(l.a);
    hide Drive, Tokens, Feed, Classify, IsWord, TailLegal, Follows, PrintTail, EndsWord;
    ReadKeyword(EXPECT_OR_FINISH, data, mode, l.sep, "EXPECT", l.a + PrintTail(e, l, rest));
    ReadTail(data, e, l, l.a, rest);
  }

  lemma ReadEnd(data: TestData, mode: Mode, tail: string)
    requires mode != Lines && Spaces(tail)
    ensures From(EXPECT_OR_FINISH, data, tail, mode) == Ok(data)
  {
    ReadNoWord(tail);
    EndIsNoWord(Scan(tail, mode, false));
    DriveScan(EXPECT_OR_FINISH, data, Scan(tail, mode, false));
    hide Next, Word, Drive, Tokens;
  }

  lemma {:induction false} ReadClauses(data: TestData, prev: Option<string>, mode: Mode,
                                       es: seq<Expectation>, ls: seq<ClauseLayout>, tail: string)
    requires |ls| == |es| && ClausesLegal(prev, es, ls, tail) && ClauseMode(prev, mode)
    ensures From(EXPECT_OR_FINISH, data, PrintClauses(es, ls, tail), mode)
         == Ok(data.(expectations := data.expectations + es))
    decreases |es|
  {
    hide Drive, Tokens, From, TailLegal, Separates, Follows, PrintTail;
    if es == [] {
      ReadEnd(data, mode, tail);
      assert data.expectations + [] == data.expectations;
    } else {
      var rest := PrintClauses(es[1..], ls[1..], tail);
      ClausesFollow(TextOf(es[0]), es[1..], ls[1..], tail);
      ReadClause(data, prev, mode, es[0], ls[0], rest);
      ReadClauses(Add(data, es[0]), TextOf(es[0]), if es[0] == EmptyOutput then Keywords else KeywordsThenLines,
                  es[1..], ls[1..], tail);
      assert es == [es[0]] + es[1..];
      Assoc(data.expectations, [es[0]], es[1..]);
    }
  }

  // ------------------------------------------------------------------- comments

  /** White space in front of a word makes no difference. */
  lemma SkipGap(sc: Scan, gap: string)
    requires Spaces(gap) && (sc.mode == Lines ==> sc.inComment)
    ensures Next(sc.(rest := gap + sc.rest)) == Next(sc)
  {
    SkipGapWord(gap, sc.rest);
    hide Word, AfterWord;
  }

  lemma SkipGapWord(gap: string, s: string)
    requires Spaces(gap)
    ensures Word(gap + s) == Word(s) && AfterWord(gap + s) == AfterWord(s)
  {
    SplitWord(s);
    var word, after := Word(s), AfterWord(s);
    hide Word, AfterWord;
    if word == "" {
      SkipGapNoWord(gap, s);
    } else {
      ReadWord(gap + Gap(s), word, after);
      Assoc(gap, Gap(s), word + after);
    }
  }

  lemma SkipGapNoWord(gap: string, s: string)
    requires Spaces(gap) && Spaces(s)
    ensures Word(gap + s) == Word(s) == "" && AfterWord(gap + s) == AfterWord(s) == ""
  {
    ReadNoWord(gap + s);
    ReadNoWord(s);
    SplitWord(gap + s);
    SplitWord(s);
  }

  lemma NextComment(piece: Piece, inside: bool, rest: string)
    requires IsWord(piece.word) && Gapped(piece.gap) && (inside || StartsWith(piece.word, "/*"))
    ensures Next(Scan(piece.word + (piece.gap + rest), KeywordsThenLines, inside))
         == Tok(Token(COMMENT, piece.word),
             Scan(piece.gap + rest, KeywordsThenLines, !inside || !EndsWith(piece.word, "*/")))
  {
    var s := piece.word + (piece.gap + rest);
    assert "" + s == s;
    hide Word, AfterWord, Classify, StartsWith, EndsWith, IsWord, SkipBlanks;
    GapEndsWord(piece.gap, rest);
    NoGap();
    ReadWord("", piece.word, piece.gap + rest);
    OpensComment(piece.word);
    WordIsNotEmpty(piece.word);
  }

  lemma NoGap()
    ensures Spaces("")
  {
  }

  lemma GapEndsWord(gap: string, rest: string)
    requires Gapped(gap)
    ensures EndsWord(gap + rest)
  {
  }

  lemma WordIsNotEmpty(word: string)
    ensures IsWord(word) ==> word != ""
  {
  }

  lemma OpensComment(word: string)
    ensures StartsWith(word, "/*") ==> Classify(word) == CommentOpening
  {
    if StartsWith(word, "/*") {
      assert word[0] == '/';
    }
  }

  /** Whole comments before RUN change nothing: neither the result, nor the error if there is one. */
  lemma {:induction false} CommentTransparency(ps: seq<Piece>, inside: bool, data: TestData, rest: string)
    requires WholeComments(ps, inside)
    ensures Drive(RUN, data, Tokens(Scan(PrintPieces(ps, rest), KeywordsThenLines, inside)))
         == Drive(RUN, data, Tokens(Scan(rest, KeywordsThenLines, false)))
  {
    if ps != [] {
      var p, more := ps[0], PrintPieces(ps[1..], rest);
      var inside' := !inside || !EndsWith(p.word, "*/");
      NextComment(p, inside, more);
      DriveScan(RUN, data, Scan(PrintPieces(ps, rest), KeywordsThenLines, inside));
      DriveScan(RUN, data, Scan(p.gap + more, KeywordsThenLines, inside'));
      DriveScan(RUN, data, Scan(more, KeywordsThenLines, inside'));
      SkipGap(Scan(more, KeywordsThenLines, inside'), p.gap);
      CommentTransparency(ps[1..], inside', data, rest);
      hide Next, Drive, Tokens, EndsWith, StartsWith, IsWord;
    }
  }

  // ----------------------------------------------------------------- whole files

  lemma HeadFacts()
    ensures Feed(RUN, NO_DATA, Some(Keyword("RUN"))) == Go(WITH, NO_DATA)
    ensures Feed(WITH, NO_DATA, Some(Keyword("WITH"))) == Go(EMPTY_OR_INPUT, NO_DATA)
    ensures Feed(EMPTY_OR_INPUT, NO_DATA, Some(Keyword("EMPTY"))) == Go(EMPTY_INPUT, NO_DATA)
    ensures Feed(EMPTY_OR_INPUT, NO_DATA, Some(Keyword("INPUT"))) == Go(TEXT_INPUT, NO_DATA)
    ensures Feed(EMPTY_INPUT, NO_DATA, Some(Keyword("INPUT"))) == Go(EXPECT_OR_FINISH, NO_DATA)
    ensures forall text ::
            Feed(TEXT_INPUT, NO_DATA, Some(Token(TEXT, text))) == Go(EXPECT_OR_FINISH, TestData(text, []))
  {
    hide Stoi;
  }

  function InputTextOf(input: string, l: FileLayout): Option<string> {
    if l.emptyInput then None else Some(input)
  }

  lemma ReadInput(input: string, l: FileLayout, rest: string)
    requires Gapped(l.b) && Gapped(l.c)
    requires if l.emptyInput then input == "" else TextLegal(l.text, input, rest)
    requires Follows(InputTextOf(input, l), rest)
    ensures From(EMPTY_OR_INPUT, NO_DATA, l.b + PrintInput(input, l, rest), KeywordsThenLines)
         == From(EXPECT_OR_FINISH, TestData(input, []), rest, if l.emptyInput then Keywords else KeywordsThenLines)
  {
    HeadFacts();
    WordFacts();
    hide Feed, Classify, IsWord, Drive, Tokens, NoExpectLine, EndsWord, EndsText;
    if l.emptyInput {
      ReadTwo(EMPTY_OR_INPUT, NO_DATA, KeywordsThenLines, l.b, "EMPTY", l.c, "INPUT", rest);
    } else {
      ReadTextClause(EMPTY_OR_INPUT, NO_DATA, l.b, "INPUT", l.text, input, rest);
    }
  }

  lemma SkipLead(lead: string, text: string)
    requires Spaces(lead)
    ensures Parse(lead + text) == Parse(text)
  {
    DriveScan(RUN, NO_DATA, AtFileStart(lead + text));
    DriveScan(RUN, NO_DATA, AtFileStart(text));
    SkipGap(AtFileStart(text), lead);
    hide Next, Feed, Drive, Tokens;
  }

  lemma ReadRunWith(gap: string, rest: string)
    requires Gapped(gap) && EndsWord(rest)
    ensures Parse("RUN" + (gap + ("WITH" + rest))) == From(EMPTY_OR_INPUT, NO_DATA, rest, KeywordsThenLines)
  {
    HeadFacts();
    WordFacts();
    hide Feed, Classify, IsWord, Drive, Tokens, EndsWord;
    var body := "RUN" + (gap + ("WITH" + rest));
    assert "" + body == body;
    ReadTwo(RUN, NO_DATA, KeywordsThenLines, "", "RUN", gap, "WITH", rest);
  }

  lemma ReadHead(l: FileLayout, rest: string)
    requires Spaces(l.lead) && WholeComments(l.comments, false) && Gapped(l.a) && EndsWord(rest)
    ensures Parse(l.lead + PrintPieces(l.comments, "RUN" + (l.a + ("WITH" + rest))))
         == From(EMPTY_OR_INPUT, NO_DATA, rest, KeywordsThenLines)
  {
    hide Drive, Tokens, EndsWord, Spaces, PrintPieces, WholeComments, From;
    var body := "RUN" + (l.a + ("WITH" + rest));
    SkipLead(l.lead, PrintPieces(l.comments, body));
    CommentTransparency(l.comments, false, NO_DATA, body);
    ReadRunWith(l.a, rest);
  }

  /** The round trip: any data, in any legal layout. */
  lemma RenderThenParse(data: TestData, l: FileLayout)
    requires Legal(data, l)
    ensures Parse(Render(data, l)) == Ok(data)
  {
    hide Parse, From, PrintClauses, PrintInput, PrintPieces, ClausesLegal, WholeComments, TextLegal, Follows;
    var es, ls := data.expectations, l.clauses;
    var rest := PrintClauses(es, ls, l.tail);
    Gaps(l.b);
    ReadHead(l, l.b + PrintInput(data.input, l, rest));
    ClausesFollow(InputTextOf(data.input, l), es, ls, l.tail);
    ReadInput(data.input, l, rest);
    ReadClauses(TestData(data.input, []), InputTextOf(data.input, l),
                if l.emptyInput then Keywords else KeywordsThenLines, es, ls, l.tail);
    assert [] + es == es;
  }
}
