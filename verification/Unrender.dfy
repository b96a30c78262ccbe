/** Every file that is accepted is the rendering, in some legal layout, of the data it is parsed to. */
module Unrender {
  import opened Text
  import opened Scanner
  import opened Words
  import opened Parsing
  import opened Layout
  import opened Synchronisation
  import opened RoundTrip

  // ---------------------------------------------------------------- single steps

  /** Where parsing succeeds and is not at its end there is a token, and the parser takes it. */
  lemma Succeeds(state: State, data: TestData, sc: Scan)
    requires state != DONE && Drive(state, data, Tokens(sc)).Ok?
    requires state != EXPECT_OR_FINISH || !Next(sc).End?
    ensures Next(sc).Tok?
    ensures var m := Feed(state, data, Some(Next(sc).token));
            m.Go? && m.state != DONE && Drive(state, data, Tokens(sc)) == Drive(m.state, m.data, Tokens(Next(sc).next))
  {
    DriveScan(state, data, sc);
    hide Next, Feed, Drive, Tokens;
  }

  lemma NextSplits(s: string, mode: Mode, inside: bool)
    requires (mode == Lines ==> inside) && Next(Scan(s, mode, inside)).Tok?
    ensures var r := Next(Scan(s, mode, inside));
            && s == Gap(s) + (r.token.value + AfterWord(s)) && Spaces(Gap(s)) && IsWord(r.token.value)
               && EndsWord(AfterWord(s))
            && (EndsWord(s) ==> Gapped(Gap(s)))
            && r == NextWord(Scan(s, mode, inside), r.token.value, AfterWord(s))
  {
    var sc := Scan(s, mode, inside);
    SplitWord(s);
    if EndsWord(s) {
      GapOfWord(s);
    }
    TokenIsWord(sc, Word(s), AfterWord(s));
    hide Word, AfterWord, Gap, IsWord, EndsWord, NextWord;
  }

  lemma GapOfWord(s: string)
    requires EndsWord(s)
    ensures Word(s) != "" ==> Gapped(Gap(s))
  {
    SplitWord(s);
    if s != "" {
      assert Leading(s, IsSpace) > 0;
    }
  }

  /** A keyword that leaves the lexer reading words. */
  lemma UnreadKeyword(s: string, mode: Mode)
    requires mode == KeywordsThenLines || mode == Keywords
    requires var r := Next(Scan(s, mode, false)); r.Tok? && r.token.kind == KEYWORD && r.next.mode != Lines
    ensures var r := Next(Scan(s, mode, false));
            && s == Gap(s) + (r.token.value + r.next.rest) && Spaces(Gap(s)) && EndsWord(r.next.rest)
            && (EndsWord(s) ==> Gapped(Gap(s)))
            && r.next == Scan(r.next.rest, ModeAfter(mode, Classify(r.token.value)), false)
  {
    NextSplits(s, mode, false);
    var r := Next(Scan(s, mode, false));
    KeywordRest(Scan(s, mode, false), r.token.value, AfterWord(s));
    hide Next, NextWord, Gap, AfterWord, EndsWord, Classify, IsWord;
  }

  lemma KeywordRest(sc: Scan, word: string, after: string)
    requires |word| + |after| <= |sc.rest| && (sc.mode == KeywordsThenLines || sc.mode == Keywords) && !sc.inComment
    ensures var r := NextWord(sc, word, after);
            r.Tok? && r.token.kind == KEYWORD && r.next.mode != Lines ==>
              r.next == Scan(after, ModeAfter(sc.mode, Classify(word)), false)
  {
    hide Classify, SkipBlanks, StartsWith;
  }

  /** A text-introducing keyword and its text. */
  lemma UnreadText(s: string) returns (l: TextLayout, text: string, rest: string)
    requires var r := Next(Scan(s, KeywordsThenLines, false)); r.Tok? && r.token.kind == KEYWORD && r.next.mode == Lines
    ensures var r := Next(Scan(s, KeywordsThenLines, false));
            && s == Gap(s) + (r.token.value + PrintText(l, text, rest)) && Spaces(Gap(s))
               && (EndsWord(s) ==> Gapped(Gap(s)))
            && TextLegal(l, text, rest) && EndsText(text, rest)
            && Next(r.next) == Tok(Token(TEXT, text), Scan(rest, KeywordsThenLines, false))
  {
    NextSplits(s, KeywordsThenLines, false);
    var r := Next(Scan(s, KeywordsThenLines, false));
    var after := AfterWord(s);
    IntroducerIsLines(s, r.token.value, after);
    hide Next, NextWord, Gap, AfterWord, EndsText, NoExpectLine, EndsWord, IsWord, SkipBlanks, PrintText;
    text, rest := NextOfLines(r.next.rest);
    l := UnskipToLine(r.token.value, after, text, rest);
  }

  lemma NextOfLines(s: string) returns (text: string, rest: string)
    ensures s == text + rest && NoExpectLine(text) && EndsText(text, rest)
    ensures Next(Scan(s, Lines, false)) == Tok(Token(TEXT, text), Scan(rest, KeywordsThenLines, false))
  {
    var n := LinesLength(s);
    text, rest := s[..n], s[n..];
    SplitText(s);
    hide LinesLength, NoExpectLine, EndsText;
  }

  lemma IntroducerIsLines(s: string, word: string, after: string)
    requires |word| + |after| <= |s|
    requires var r := NextWord(Scan(s, KeywordsThenLines, false), word, after);
             r.Tok? && r.token.kind == KEYWORD && r.next.mode == Lines
    ensures NextWord(Scan(s, KeywordsThenLines, false), word, after) == LinesAfter(word, SkipBlanks(after))
    ensures var r := LinesAfter(word, SkipBlanks(after));
            r.Tok? && r.next.mode == Lines && !r.next.inComment && r.token == Keyword(word)
  {
    hide Classify, SkipBlanks, StartsWith;
  }

  lemma UnskipToLine(word: string, after: string, text: string, rest: string) returns (l: TextLayout)
    requires LinesAfter(word, SkipBlanks(after)).Tok? && LinesAfter(word, SkipBlanks(after)).next.rest == text + rest
    ensures All(l.blanks, IsBlank) && after == PrintText(l, text, rest) && (l.eol || (text == "" && rest == ""))
  {
    SplitLeading(after, IsBlank);
    var b := SkipBlanks(after);
    l := TextLayout(after[..|after| - |b|], b != "");
    hide Leading;
    assert b == "" || b == "\n" + b[1..];
    assert b == "" ==> |text + rest| == 0;
  }

  /** An exit code. */
  lemma UnreadInteger(data: TestData, s: string) returns (code: int)
    requires From(CODE_NUMBER, data, s, Integer).Ok?
    ensures var r := Next(Scan(s, Integer, false));
            && r.Tok? && s == Gap(s) + (r.token.value + r.next.rest) && Digits(r.token.value, code)
               && EndsWord(r.next.rest)
            && (EndsWord(s) ==> Gapped(Gap(s)))
            && From(CODE_NUMBER, data, s, Integer)
               == From(EXPECT_OR_FINISH, Add(data, ExitCode(code)), r.next.rest, KeywordsThenLines)
  {
    var sc := Scan(s, Integer, false);
    hide Next, NextWord, Drive, Tokens, Gap, AfterWord, EndsWord, IsWord, Feed, Stoi;
    Succeeds(CODE_NUMBER, data, sc);
    NextSplits(s, Integer, false);
    var t := Next(sc).token;
    SyncInteger(data, sc);
    code := UnfeedCode(data, t);
    IntegerRest(s, t.value, AfterWord(s));
  }

  lemma UnfeedCode(data: TestData, t: Token) returns (code: int)
    requires Feed(CODE_NUMBER, data, Some(t)).Go? && (t.kind == INTEGER ==> t.value != "" && All(t.value, IsDigit))
    ensures t.kind == INTEGER && Digits(t.value, code)
    ensures Feed(CODE_NUMBER, data, Some(t)) == Go(EXPECT_OR_FINISH, Add(data, ExitCode(code)))
  {
    StoiOfDigits(t.value);
    code := DigitsValue(t.value);
    hide Stoi;
  }

  lemma IntegerRest(s: string, word: string, after: string)
    requires |word| + |after| <= |s|
    ensures var r := NextWord(Scan(s, Integer, false), word, after);
            r.Tok? && r.token.kind == INTEGER ==> r.next == Scan(after, KeywordsThenLines, false)
  {
    hide Leading, StartsWith;
  }

  // -------------------------------------------------------------------- clauses

  const BLANK_LAYOUT := ClauseLayout(" ", " ", " ", " ", TextLayout("", true), "0")

  /** What is behind EXPECT is the printed tail of some clause. */
  ghost predicate Unprinted(data: TestData, s: string, e: Expectation, l: ClauseLayout, rest: string, mode: Mode) {
    && s == Gap(s) + PrintTail(e, l, rest) && Spaces(Gap(s)) && (EndsWord(s) ==> Gapped(Gap(s)))
    && TailLegal(e, l, rest) && Follows(TextOf(e), rest) && ClauseMode(TextOf(e), mode)
    && From(OUTPUT_OR_EXIT_OR_IN, data, s, KeywordsThenLines) == From(EXPECT_OR_FINISH, Add(data, e), rest, mode)
  }

  lemma UnprintText(state: State, data: TestData, s: string) returns (l: TextLayout, text: string, rest: string)
    requires state == OUTPUT_OR_EXIT_OR_IN || state == IN_OUTPUT || state == EMPTY_OR_INPUT
    requires From(state, data, s, KeywordsThenLines).Ok?
    requires var r := Next(Scan(s, KeywordsThenLines, false)); r.Tok? && r.token.kind == KEYWORD && r.next.mode == Lines
    ensures var word := Next(Scan(s, KeywordsThenLines, false)).token.value;
            var m := Feed(state, data, Some(Keyword(word)));
            && m.Go? && s == Gap(s) + (word + PrintText(l, text, rest)) && Spaces(Gap(s))
               && (EndsWord(s) ==> Gapped(Gap(s)))
            && TextLegal(l, text, rest) && EndsText(text, rest) && m.state != DONE
            && var m2 := Feed(m.state, m.data, Some(Token(TEXT, text)));
               m2.Go? && m2.state != DONE
               && From(state, data, s, KeywordsThenLines) == From(m2.state, m2.data, rest, KeywordsThenLines)
  {
    var sc := Scan(s, KeywordsThenLines, false);
    hide Feed, Drive, Tokens, PrintText, TextLegal, EndsText, Gap, EndsWord, Next;
    Succeeds(state, data, sc);
    l, text, rest := UnreadText(s);
    var r := Next(sc);
    var m := Feed(state, data, Some(r.token));
    TextStates(state, data, r.token);
    Succeeds(m.state, m.data, r.next);
  }

  lemma TextStates(state: State, data: TestData, t: Token)
    requires state == OUTPUT_OR_EXIT_OR_IN || state == IN_OUTPUT || state == EMPTY_OR_INPUT
    ensures Feed(state, data, Some(t)).Go?
            ==> Feed(state, data, Some(t)).state != EXPECT_OR_FINISH && t == Keyword(t.value)
  {
    hide Stoi;
  }

  /** Which words the parser takes, seen from the state it goes to. */
  lemma TakenWord(state: State, data: TestData, t: Token)
    requires state != DONE && !IsTextState(state) && state != CODE_NUMBER && state != RUN
    ensures var m := Feed(state, data, Some(t));
            m.Go? ==> t == Keyword(t.value)
                      && (IsTextState(m.state) || state == EMPTY_INPUT || state == EMPTY_OUTPUT
                         <==> Classify(t.value).TextIntroducer?)
  {
    hide Stoi;
  }

  /** The parser takes a keyword that leaves the lexer reading words. */
  lemma UnprintWord(state: State, data: TestData, s: string, mode: Mode) returns (word: string, rest: string)
    requires state != DONE && !IsTextState(state) && state != CODE_NUMBER && state != RUN
    requires From(state, data, s, mode).Ok? && (state != EXPECT_OR_FINISH || !Next(Scan(s, mode, false)).End?)
    requires mode == Keywords || (mode == KeywordsThenLines && state != EMPTY_INPUT && state != EMPTY_OUTPUT)
    requires var r := Next(Scan(s, mode, false));
             r.Tok? ==> var m := Feed(state, data, Some(r.token)); m.Go? ==> !IsTextState(m.state)
    ensures Next(Scan(s, mode, false)).Tok? && Next(Scan(s, mode, false)).token == Keyword(word)
    ensures s == Gap(s) + (word + rest) && Spaces(Gap(s)) && EndsWord(rest) && (EndsWord(s) ==> Gapped(Gap(s)))
    ensures var m := Feed(state, data, Some(Keyword(word)));
            m.Go? && m.state != DONE
                && From(state, data, s, mode) == From(m.state, m.data, rest, ModeAfter(mode, Classify(word)))
  {
    var sc := Scan(s, mode, false);
    hide Next, Feed, Drive, Tokens, Gap, EndsWord, Classify;
    Succeeds(state, data, sc);
    var t := Next(sc).token;
    TakenWord(state, data, t);
    ModeMoves(sc);
    word, rest := t.value, Next(sc).next.rest;
    UnreadKeyword(s, mode);
  }

  lemma TailWords(data: TestData, word: string)
    requires Feed(OUTPUT_OR_EXIT_OR_IN, data, Some(Keyword(word))).Go?
    ensures word == "OUTPUT" || word == "EXIT" || word == "IN" || word == "EMPTY"
  {
    hide Stoi;
  }

  lemma UnprintTail(data: TestData, s: string) returns (e: Expectation, l: ClauseLayout, rest: string, mode: Mode)
    requires From(OUTPUT_OR_EXIT_OR_IN, data, s, KeywordsThenLines).Ok?
    ensures Unprinted(data, s, e, l, rest, mode)
  {
    var sc := Scan(s, KeywordsThenLines, false);
    hide Next, Feed, Drive, Tokens, Gap, From, Unprinted, Classify;
    SucceedsFrom(OUTPUT_OR_EXIT_OR_IN, data, s, KeywordsThenLines);
    var t := Next(sc).token;
    var m := Feed(OUTPUT_OR_EXIT_OR_IN, data, Some(t));
    TakenWord(OUTPUT_OR_EXIT_OR_IN, data, t);
    TailWords(data, t.value);
    if t.value == "OUTPUT" {
      e, l, rest, mode := UnprintFull(data, s);
    } else if t.value == "EMPTY" {
      e, l, rest, mode := UnprintEmpty(data, s);
    } else if t.value == "IN" {
      e, l, rest, mode := UnprintPartial(data, s);
    } else {
      e, l, rest, mode := UnprintExit(data, s);
    }
  }

  lemma SucceedsFrom(state: State, data: TestData, s: string, mode: Mode)
    requires state != DONE && state != EXPECT_OR_FINISH && From(state, data, s, mode).Ok?
    ensures Next(Scan(s, mode, false)).Tok? && Feed(state, data, Some(Next(Scan(s, mode, false)).token)).Go?
  {
    hide Next, Feed, Drive, Tokens;
    Succeeds(state, data, Scan(s, mode, false));
  }

  lemma UnprintFull(data: TestData, s: string) returns (e: Expectation, l: ClauseLayout, rest: string, mode: Mode)
    requires From(OUTPUT_OR_EXIT_OR_IN, data, s, KeywordsThenLines).Ok?
    requires Next(Scan(s, KeywordsThenLines, false)).Tok?
             && Next(Scan(s, KeywordsThenLines, false)).token == Keyword("OUTPUT")
    ensures Unprinted(data, s, e, l, rest, mode)
  {
    hide Next, Feed, Drive, Tokens, Gap, From, Classify, PrintText, TextLegal, EndsWord, EndsText, IsWord;
    TextFacts(data);
    ModeMoves(Scan(s, KeywordsThenLines, false));
    var t, text;
    t, text, rest := UnprintText(OUTPUT_OR_EXIT_OR_IN, data, s);
    e, l, mode := FullOutput(text), BLANK_LAYOUT.(text := t), KeywordsThenLines;
  }

  lemma UnprintEmpty(data: TestData, s: string) returns (e: Expectation, l: ClauseLayout, rest: string, mode: Mode)
    requires From(OUTPUT_OR_EXIT_OR_IN, data, s, KeywordsThenLines).Ok?
    requires Next(Scan(s, KeywordsThenLines, false)).Tok?
             && Next(Scan(s, KeywordsThenLines, false)).token == Keyword("EMPTY")
    ensures Unprinted(data, s, e, l, rest, mode)
  {
    hide Next, Feed, Drive, Tokens, Gap, From, Classify, EndsWord, IsWord;
    EmptyFacts(data);
    OneWord(data);
    var word, s2 := UnprintWord(OUTPUT_OR_EXIT_OR_IN, data, s, KeywordsThenLines);
    var word2, s3 := UnprintWord(EMPTY_OUTPUT, data, s2, Keywords);
    e, l, rest, mode := EmptyOutput, BLANK_LAYOUT.(b := Gap(s2)), s3, Keywords;
  }

  lemma UnprintPartial(data: TestData, s: string) returns (e: Expectation, l: ClauseLayout, rest: string, mode: Mode)
    requires From(OUTPUT_OR_EXIT_OR_IN, data, s, KeywordsThenLines).Ok?
    requires Next(Scan(s, KeywordsThenLines, false)).Tok?
             && Next(Scan(s, KeywordsThenLines, false)).token == Keyword("IN")
    ensures Unprinted(data, s, e, l, rest, mode)
  {
    hide Next, Feed, Drive, Tokens, Gap, From, Classify, EndsWord, IsWord, PrintText, TextLegal, EndsText;
    TextFacts(data);
    WordFacts();
    OneWord(data);
    var word, s2 := UnprintWord(OUTPUT_OR_EXIT_OR_IN, data, s, KeywordsThenLines);
    SucceedsFrom(IN_OUTPUT, data, s2, KeywordsThenLines);
    ModeMoves(Scan(s2, KeywordsThenLines, false));
    var t, text;
    t, text, rest := UnprintText(IN_OUTPUT, data, s2);
    e, l, mode := PartialOutput(text), BLANK_LAYOUT.(b := Gap(s2), text := t), KeywordsThenLines;
  }

  lemma TextFacts(data: TestData)
    ensures Classify("OUTPUT") == TextIntroducer
    ensures Feed(OUTPUT_OR_EXIT_OR_IN, data, Some(Keyword("OUTPUT"))) == Go(TEXT_OUTPUT, data)
    ensures Feed(OUTPUT_OR_EXIT_OR_IN, data, Some(Keyword("IN"))) == Go(IN_OUTPUT, data)
    ensures Feed(IN_OUTPUT, data, Some(Keyword("OUTPUT"))) == Go(TEXT_IN_OUTPUT, data)
    ensures forall text ::
            Feed(TEXT_OUTPUT, data, Some(Token(TEXT, text))) == Go(EXPECT_OR_FINISH, Add(data, FullOutput(text)))
    ensures forall text ::
            Feed(TEXT_IN_OUTPUT, data, Some(Token(TEXT, text))) == Go(EXPECT_OR_FINISH, Add(data, PartialOutput(text)))
  {
    hide Feed, Classify;
    WordFacts();
    FeedFacts(data);
  }

  lemma EmptyFacts(data: TestData)
    ensures Classify("EMPTY") == EmptyWord && Classify("OUTPUT") == TextIntroducer
    ensures Feed(OUTPUT_OR_EXIT_OR_IN, data, Some(Keyword("EMPTY"))) == Go(EMPTY_OUTPUT, data)
    ensures Feed(EMPTY_OUTPUT, data, Some(Keyword("OUTPUT"))) == Go(EXPECT_OR_FINISH, Add(data, EmptyOutput))
  {
    hide Feed, Classify;
    WordFacts();
    FeedFacts(data);
  }

  lemma ExitClassFacts()
    ensures Classify("EXIT") == Classify("WITH") == Classify("SUCCESS") == Classify("FAILURE") == OtherKeyword
    ensures Classify("CODE") == CodeWord
  {
  }

  /** These two states take one word only. */
  lemma OneWord(data: TestData)
    ensures forall t :: Feed(EMPTY_OUTPUT, data, Some(t)).Go? <==> t == Keyword("OUTPUT")
    ensures forall t :: Feed(IN_OUTPUT, data, Some(t)).Go? <==> t == Keyword("OUTPUT")
  {
    hide Stoi;
  }

  lemma ExitWords(data: TestData)
    ensures forall t :: Feed(CODE_OR_WITH, data, Some(t)).Go? <==> t == Keyword("CODE") || t == Keyword("WITH")
    ensures forall t ::
              Feed(EXIT_WITH_FAILURE_OR_SUCCESS, data, Some(t)).Go? <==>
                t == Keyword("SUCCESS") || t == Keyword("FAILURE")
  {
    hide Stoi;
  }

  lemma ExitFeedFacts(data: TestData)
    ensures Feed(OUTPUT_OR_EXIT_OR_IN, data, Some(Keyword("EXIT"))) == Go(CODE_OR_WITH, data)
    ensures ExitFacts(data)
  {
    hide Feed, ExitFacts;
    FeedFacts(data);
  }

  lemma UnprintExit(data: TestData, s: string) returns (e: Expectation, l: ClauseLayout, rest: string, mode: Mode)
    requires From(OUTPUT_OR_EXIT_OR_IN, data, s, KeywordsThenLines).Ok?
    requires Next(Scan(s, KeywordsThenLines, false)).Tok?
             && Next(Scan(s, KeywordsThenLines, false)).token == Keyword("EXIT")
    ensures Unprinted(data, s, e, l, rest, mode)
  {
    hide Next, Feed, Drive, Tokens, Gap, From, Classify, EndsWord, IsWord, Unprinted;
    ExitClassFacts();
    ExitFeedFacts(data);
    ExitWords(data);
    var word, s2 := UnprintWord(OUTPUT_OR_EXIT_OR_IN, data, s, KeywordsThenLines);
    var word2, s3 := UnprintWord(CODE_OR_WITH, data, s2, KeywordsThenLines);
    mode := KeywordsThenLines;
    if word2 == "CODE" {
      e, l, rest := UnprintCode(data, s, s2, s3);
    } else {
      e, l, rest := UnprintWith(data, s, s2, s3);
    }
  }

  lemma UnprintWith(data: TestData, s: string, s2: string, s3: string)
      returns (e: Expectation, l: ClauseLayout, rest: string)
    requires From(OUTPUT_OR_EXIT_OR_IN, data, s, KeywordsThenLines)
             == From(EXIT_WITH_FAILURE_OR_SUCCESS, data, s3, KeywordsThenLines)
    requires From(EXIT_WITH_FAILURE_OR_SUCCESS, data, s3, KeywordsThenLines).Ok?
    requires s == Gap(s) + ("EXIT" + s2) && Spaces(Gap(s)) && (EndsWord(s) ==> Gapped(Gap(s))) && EndsWord(s2)
    requires s2 == Gap(s2) + ("WITH" + s3) && Gapped(Gap(s2)) && EndsWord(s3)
    ensures Unprinted(data, s, e, l, rest, KeywordsThenLines)
  {
    hide Next, Feed, Drive, Tokens, Gap, From, Classify, EndsWord;
    ExitClassFacts();
    ExitFeedFacts(data);
    ExitWords(data);
    var word3, s4 := UnprintWord(EXIT_WITH_FAILURE_OR_SUCCESS, data, s3, KeywordsThenLines);
    e := if word3 == "SUCCESS" then SuccessfulExit else FailureExit;
    l, rest := BLANK_LAYOUT.(b := Gap(s2), c := Gap(s3)), s4;
  }

  lemma UnprintCode(data: TestData, s: string, s2: string, s3: string)
      returns (e: Expectation, l: ClauseLayout, rest: string)
    requires From(OUTPUT_OR_EXIT_OR_IN, data, s, KeywordsThenLines) == From(CODE_NUMBER, data, s3, Integer)
    requires From(CODE_NUMBER, data, s3, Integer).Ok?
    requires s == Gap(s) + ("EXIT" + s2) && Spaces(Gap(s)) && (EndsWord(s) ==> Gapped(Gap(s))) && EndsWord(s2)
    requires s2 == Gap(s2) + ("CODE" + s3) && Gapped(Gap(s2)) && EndsWord(s3)
    ensures Unprinted(data, s, e, l, rest, KeywordsThenLines)
  {
    hide Next, Feed, Drive, Tokens, Gap, From, EndsWord, Digits;
    var code := UnreadInteger(data, s3);
    var r := Next(Scan(s3, Integer, false));
    e, l, rest := ExitCode(code), BLANK_LAYOUT.(b := Gap(s2), c := Gap(s3), digits := r.token.value), r.next.rest;
  }

  /** Where a clause position is not at its end, the white space there is a legal separator. */
  lemma SeparatorAt(prev: Option<string>, s: string)
    requires Follows(prev, s) && Word(s) != ""
    ensures Separates(prev, Gap(s))
  {
    match prev
    case None => GapOfWord(s);
    case Some(text) =>
      if LINE_EXPECT <= s {
        assert s == "\n" + s[1..] && NotSpace(s[1]);
        LeadingIs("\n", s[1..], IsSpace);
      } else if "EXPECT" <= s {
        LeadingIs("", s, IsSpace);
        assert "" + s == s;
      }
  }

  lemma NoWordAtEnd(prev: Option<string>, s: string)
    requires Follows(prev, s) && Word(s) == ""
    ensures Spaces(s) && (prev != None ==> s == "")
  {
    ExpectIsNoSpace(s);
    SplitWord(s);
    hide Word, AfterWord, Gap, EndsWord, Spaces;
  }

  lemma ExpectIsNoSpace(s: string)
    ensures LINE_EXPECT <= s || "EXPECT" <= s ==> !Spaces(s)
  {
    if LINE_EXPECT <= s {
      assert s[1] == 'E';
    } else if "EXPECT" <= s {
      assert s[0] == 'E';
    }
  }

  lemma TailIsLonger(e: Expectation, l: ClauseLayout, rest: string)
    requires TailLegal(e, l, rest)
    ensures |rest| <= |PrintTail(e, l, rest)|
  {
    hide NoExpectLine;
  }

  lemma {:induction false} UnprintClauses(prev: Option<string>, data: TestData, s: string, mode: Mode)
      returns (es: seq<Expectation>, ls: seq<ClauseLayout>, tail: string)
    requires From(EXPECT_OR_FINISH, data, s, mode).Ok? && ClauseMode(prev, mode) && Follows(prev, s)
    ensures |ls| == |es| && ClausesLegal(prev, es, ls, tail) && s == PrintClauses(es, ls, tail)
    decreases |s|
  {
    hide Next, Feed, Drive, Tokens, Gap, From, Classify, EndsWord, IsWord, Separates, Follows, Word, TailLegal,
         PrintTail;
    var sc := Scan(s, mode, false);
    EndIsNoWord(sc);
    if Next(sc).End? {
      NoWordAtEnd(prev, s);
      es, ls, tail := [], [], s;
    } else {
      SeparatorAt(prev, s);
      var s2 := UnshiftExpect(data, s, mode);
      var e, l, s3, mode3 := UnprintTail(data, s2);
      TailIsLonger(e, l, s3);
      var es1, ls1;
      es1, ls1, tail := UnprintClauses(TextOf(e), Add(data, e), s3, mode3);
      es, ls := [e] + es1, [l.(sep := Gap(s), a := Gap(s2))] + ls1;
      assert es[1..] == es1 && ls[1..] == ls1;
      TailIgnores(e, l, Gap(s), Gap(s2), s3);
    }
  }

  lemma TailIgnores(e: Expectation, l: ClauseLayout, sep: string, a: string, rest: string)
    ensures PrintTail(e, l.(sep := sep, a := a), rest) == PrintTail(e, l, rest)
    ensures TailLegal(e, l.(sep := sep, a := a), rest) == TailLegal(e, l, rest)
  {
    hide NoExpectLine;
  }

  lemma UnshiftExpect(data: TestData, s: string, mode: Mode) returns (rest: string)
    requires From(EXPECT_OR_FINISH, data, s, mode).Ok? && !Next(Scan(s, mode, false)).End?
    requires mode == Keywords || mode == KeywordsThenLines
    ensures s == Gap(s) + ("EXPECT" + rest) && EndsWord(rest) && |rest| < |s|
    ensures From(EXPECT_OR_FINISH, data, s, mode) == From(OUTPUT_OR_EXIT_OR_IN, data, rest, KeywordsThenLines)
  {
    hide Next, Feed, Drive, Tokens, Gap, From, Classify, EndsWord;
    ExpectFacts(data);
    var word;
    word, rest := UnprintWord(EXPECT_OR_FINISH, data, s, mode);
  }

  lemma ExpectFacts(data: TestData)
    ensures forall t :: Feed(EXPECT_OR_FINISH, data, Some(t)).Go? <==> t == Keyword("EXPECT")
    ensures Feed(EXPECT_OR_FINISH, data, Some(Keyword("EXPECT"))) == Go(OUTPUT_OR_EXIT_OR_IN, data)
    ensures Classify("EXPECT") == ExpectWord
  {
    hide Stoi;
  }

  // ------------------------------------------------------------------- the head

  lemma HeadWords()
    ensures forall t :: Feed(WITH, NO_DATA, Some(t)).Go? <==> t == Keyword("WITH")
    ensures forall t :: Feed(EMPTY_INPUT, NO_DATA, Some(t)).Go? <==> t == Keyword("INPUT")
    ensures forall t :: Feed(EMPTY_OR_INPUT, NO_DATA, Some(t)).Go? <==> t == Keyword("EMPTY") || t == Keyword("INPUT")
    ensures forall t: Token :: Feed(RUN, NO_DATA, Some(t)).Go? <==> t == Keyword("RUN") || t.kind == COMMENT
    ensures forall t: Token :: t.kind == COMMENT ==> Feed(RUN, NO_DATA, Some(t)) == Go(RUN, NO_DATA)
  {
    hide Stoi;
  }

  lemma CommentMoves(sc: Scan)
    requires sc.mode == KeywordsThenLines && Next(sc).Tok? && Next(sc).token.kind == COMMENT
    ensures var w := Next(sc).token.value;
            && (sc.inComment || StartsWith(w, "/*"))
            && Next(sc).next == Scan(AfterWord(sc.rest), KeywordsThenLines, !sc.inComment || !EndsWith(w, "*/"))
  {
    NextSplits(sc.rest, sc.mode, sc.inComment);
    CommentWord(sc, Next(sc).token.value, AfterWord(sc.rest));
    hide Next, NextWord, Word, AfterWord, EndsWith, StartsWith, Gap;
  }

  lemma CommentWord(sc: Scan, word: string, after: string)
    requires |word| + |after| <= |sc.rest| && sc.mode == KeywordsThenLines
    ensures var r := NextWord(sc, word, after);
            r.Tok? && r.token.kind == COMMENT ==>
              (sc.inComment || StartsWith(word, "/*"))
              && r.next == Scan(after, KeywordsThenLines, !sc.inComment || !EndsWith(word, "*/"))
  {
    hide SkipBlanks, EndsWith;
  }

  /** Up to RUN there are whole comments only. */
  lemma {:induction false} UnprintComments(s: string, inside: bool) returns (ps: seq<Piece>, rest: string)
    requires Drive(RUN, NO_DATA, Tokens(Scan(s, KeywordsThenLines, inside))).Ok?
    ensures WholeComments(ps, inside) && s == Gap(s) + PrintPieces(ps, "RUN" + rest) && EndsWord(rest) && Spaces(Gap(s))
    ensures Word(s) != ""
    ensures Drive(RUN, NO_DATA, Tokens(Scan(s, KeywordsThenLines, inside)))
            == From(WITH, NO_DATA, rest, KeywordsThenLines)
    decreases |s|
  {
    hide Next, Feed, Drive, Tokens, Gap, Classify, EndsWord, IsWord, StartsWith, EndsWith, Word, AfterWord;
    var sc := Scan(s, KeywordsThenLines, inside);
    Succeeds(RUN, NO_DATA, sc);
    EndIsNoWord(sc);
    HeadWords();
    NextSplits(s, KeywordsThenLines, inside);
    var t := Next(sc).token;
    if t.kind == COMMENT {
      CommentMoves(sc);
      var after := AfterWord(s);
      var ps1;
      ps1, rest := UnprintComments(after, Next(sc).next.inComment);
      GapOfWord(after);
      ps := [Piece(t.value, Gap(after))] + ps1;
      assert ps[1..] == ps1;
    } else {
      ps, rest := [], Next(sc).next.rest;
      RunRest(s, inside);
    }
  }

  lemma RunRest(s: string, inside: bool)
    requires var r := Next(Scan(s, KeywordsThenLines, inside)); r.Tok? && r.token == Keyword("RUN")
    ensures var r := Next(Scan(s, KeywordsThenLines, inside));
            !inside && r.next == Scan(r.next.rest, KeywordsThenLines, false) && s == Gap(s) + ("RUN" + r.next.rest)
                && EndsWord(r.next.rest)
    ensures Feed(RUN, NO_DATA, Some(Keyword("RUN"))) == Go(WITH, NO_DATA)
  {
    hide Next, Feed, Classify, Gap, EndsWord;
    HeadFacts();
    RunFacts();
    ModeMoves(Scan(s, KeywordsThenLines, inside));
    UnreadKeyword(s, KeywordsThenLines);
  }

  lemma RunFacts()
    ensures Classify("RUN") == Classify("WITH") == OtherKeyword && Classify("EMPTY") == EmptyWord
            && Classify("INPUT") == TextIntroducer
  {
  }

  /** WITH and the input clause. */
  lemma UnprintInput(s: string)
      returns (a: string, b: string, c: string, empty: bool, input: string, text: TextLayout, rest: string)
    requires From(WITH, NO_DATA, s, KeywordsThenLines).Ok? && EndsWord(s)
    ensures Gapped(a) && Gapped(b) && Gapped(c)
    ensures s == a + ("WITH"
            + (b + (if empty then "EMPTY" + (c + ("INPUT" + rest)) else "INPUT" + PrintText(text, input, rest))))
    ensures if empty then input == "" && EndsWord(rest) else TextLegal(text, input, rest) && EndsText(input, rest)
    ensures From(WITH, NO_DATA, s, KeywordsThenLines)
         == From(EXPECT_OR_FINISH, TestData(input, []), rest, if empty then Keywords else KeywordsThenLines)
  {
    hide Next, Feed, Drive, Tokens, Gap, From, Classify, EndsWord, IsWord, PrintText, TextLegal, EndsText, Gapped,
         Spaces;
    HeadWords();
    HeadFacts();
    RunFacts();
    BlankIsGap();
    SucceedsFrom(WITH, NO_DATA, s, KeywordsThenLines);
    var word, s2 := UnprintWord(WITH, NO_DATA, s, KeywordsThenLines);
    SucceedsFrom(EMPTY_OR_INPUT, NO_DATA, s2, KeywordsThenLines);
    ModeMoves(Scan(s2, KeywordsThenLines, false));
    a, b, empty := Gap(s), Gap(s2), Next(Scan(s2, KeywordsThenLines, false)).token == Keyword("EMPTY");
    if empty {
      c, rest := UnprintEmptyInput(s2);
      input, text := "", TextLayout("", true);
    } else {
      text, input, rest := UnprintText(EMPTY_OR_INPUT, NO_DATA, s2);
      c := " ";
    }
  }

  lemma BlankIsGap()
    ensures Gapped(" ")
  {
  }

  lemma UnprintEmptyInput(s: string) returns (c: string, rest: string)
    requires From(EMPTY_OR_INPUT, NO_DATA, s, KeywordsThenLines).Ok?
    requires Next(Scan(s, KeywordsThenLines, false)).Tok?
             && Next(Scan(s, KeywordsThenLines, false)).token == Keyword("EMPTY")
    ensures s == Gap(s) + ("EMPTY" + (c + ("INPUT" + rest))) && Gapped(c) && EndsWord(rest)
    ensures EndsWord(s) ==> Gapped(Gap(s))
    ensures From(EMPTY_OR_INPUT, NO_DATA, s, KeywordsThenLines) == From(EXPECT_OR_FINISH, NO_DATA, rest, Keywords)
  {
    hide Next, Feed, Drive, Tokens, Gap, From, Classify, EndsWord, Gapped, Spaces;
    HeadWords();
    HeadFacts();
    RunFacts();
    var word, s2 := UnprintWord(EMPTY_OR_INPUT, NO_DATA, s, KeywordsThenLines);
    var word2;
    word2, rest := UnprintWord(EMPTY_INPUT, NO_DATA, s2, Keywords);
    c := Gap(s2);
  }

  /** Completeness: an accepted file is a rendering. */
  lemma ParsedIsRendered(buffer: string) returns (data: TestData, l: FileLayout)
    requires Parse(buffer).Ok?
    ensures Legal(data, l) && buffer == Render(data, l) && Parse(buffer) == Ok(data)
  {
    hide Feed, Drive, Tokens, Gap, From, EndsWord, EndsText, PrintText, TextLegal, PrintPieces, PrintClauses,
         ClausesLegal, WholeComments;
    var ps, s := UnprintComments(buffer, false);
    var a, b, c, empty, input, text, rest := UnprintInput(s);
    var prev := if empty then None else Some(input);
    var es, ls, tail := UnprintClauses(prev, TestData(input, []), rest, if empty then Keywords else KeywordsThenLines);
    data := TestData(input, es);
    l := FileLayout(Gap(buffer), ps, a, b, empty, c, text, ls, tail);
    RenderThenParse(data, l);
  }
}
