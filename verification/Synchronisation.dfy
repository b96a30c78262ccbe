/** The lexer's mode and the parser's state change together, although neither looks at the other. */
module Synchronisation {
  import opened Text
  import opened Scanner
  import opened Parsing

  /** The mode in which the parser may find the lexer. A comment can be open only before RUN. */
  predicate InSync(state: State, sc: Scan) {
    && (sc.inComment ==> state == RUN)
    && match state {
         case RUN | WITH | EMPTY_OR_INPUT | OUTPUT_OR_EXIT_OR_IN | IN_OUTPUT | CODE_OR_WITH
              | EXIT_WITH_FAILURE_OR_SUCCESS =>
           sc.mode == KeywordsThenLines
         case EMPTY_INPUT | EMPTY_OUTPUT => sc.mode == Keywords
         case TEXT_INPUT | TEXT_OUTPUT | TEXT_IN_OUTPUT => sc.mode == Lines
         case CODE_NUMBER => sc.mode == Integer
         case EXPECT_OR_FINISH => sc.mode == KeywordsThenLines || sc.mode == Keywords
         case DONE => true
       }
  }

  // --------------------------------------------------------------- joint runs

  datatype Joint = Joint(state: State, data: TestData, sc: Scan)

  /** One token goes from the lexer to the parser; None when either throws, or when parsing is over. */
  function JointStep(j: Joint): Option<Joint> {
    if j.state == DONE then None
    else
      match Next(j.sc)
      case Bad(_) => None
      case End => Taken(Feed(j.state, j.data, None), j.sc.(rest := ""))
      case Tok(t, next) => Taken(Feed(j.state, j.data, Some(t)), next)
  }

  function Taken(move: Move, sc: Scan): Option<Joint> {
    match move
    case Stop(_) => None
    case Go(state, data) => Some(Joint(state, data, sc))
  }

  function JointAfter(buffer: string, n: nat): Option<Joint> {
    if n == 0 then Some(Joint(RUN, NO_DATA, AtFileStart(buffer)))
    else
      match JointAfter(buffer, n - 1)
      case None => None
      case Some(j) => JointStep(j)
  }

  // ------------------------------------------------------------------- the step

  lemma SyncText(state: State, data: TestData, sc: Scan)
    requires InSync(state, sc) && sc.mode == Lines && state != DONE
    ensures var r := Next(sc);
            r.Tok? && r.token.kind == TEXT && Feed(state, data, Some(r.token)).Go?
            && InSync(Feed(state, data, Some(r.token)).state, r.next)
  {
    hide LinesLength, Word, AfterWord;
  }

  lemma SyncInteger(data: TestData, sc: Scan)
    requires InSync(CODE_NUMBER, sc) && Next(sc).Tok?
    ensures var r := Next(sc); var m := Feed(CODE_NUMBER, data, Some(r.token));
            && (m.Go? ==> r.token.kind == INTEGER && InSync(m.state, r.next))
            && (r.token.kind == INTEGER ==> r.token.value != "" && All(r.token.value, IsDigit))
  {
    hide Word, AfterWord, Stoi, Leading;
    LeadingStops(Word(sc.rest), IsDigit);
  }

  /** What a token of a keyword mode, or of a comment, does to the mode. */
  lemma ModeMoves(sc: Scan)
    requires Next(sc).Tok? && (sc.inComment || sc.mode == KeywordsThenLines || sc.mode == Keywords)
    ensures var t, next := Next(sc).token, Next(sc).next;
            && (t.kind == KEYWORD ==>
                  && !sc.inComment && !next.inComment
                  && next.mode == if Classify(t.value).TextIntroducer? && sc.mode == KeywordsThenLines then Lines
                                  else ModeAfter(sc.mode, Classify(t.value)))
            && (t.kind != KEYWORD ==> next.mode == sc.mode)
            && (t.kind == TEXT ==> !next.inComment)
            && t.kind != INTEGER
            && (sc.inComment ==> t.kind == COMMENT)
  {
    hide Word, AfterWord, SkipBlanks, Leading, Classify, StartsWith, EndsWith;
  }

  lemma SyncKeyword(state: State, data: TestData, sc: Scan)
    requires InSync(state, sc) && Next(sc).Tok? && state != DONE
    requires sc.inComment || sc.mode == KeywordsThenLines || sc.mode == Keywords
    ensures var r := Next(sc); var m := Feed(state, data, Some(r.token));
            m.Go? ==> InSync(m.state, r.next)
  {
    ModeMoves(sc);
    var t, next := Next(sc).token, Next(sc).next;
    hide Next, Stoi;
    if t.kind == KEYWORD {
      SyncWord(state, data, sc.mode, t.value, next);
    } else {
      OnlyCommentsPass(state, data, t);
    }
  }

  lemma SyncWord(state: State, data: TestData, mode: Mode, word: string, next: Scan)
    requires InSync(state, Scan("", mode, false)) && state != DONE && !next.inComment
    requires mode == KeywordsThenLines || mode == Keywords
    requires next.mode == if Classify(word).TextIntroducer? && mode == KeywordsThenLines then Lines
                          else ModeAfter(mode, Classify(word))
    ensures var m := Feed(state, data, Some(Keyword(word))); m.Go? ==> InSync(m.state, next)
  {
    hide Stoi;
  }

  lemma OnlyCommentsPass(state: State, data: TestData, t: Token)
    requires state != DONE && t.kind != KEYWORD && !IsTextState(state) && state != CODE_NUMBER
    ensures Feed(state, data, Some(t)).Go?
            ==> state == RUN && t.kind == COMMENT && Feed(state, data, Some(t)) == Go(RUN, data)
  {
    hide Stoi;
  }

  predicate IsTextState(state: State) {
    state == TEXT_INPUT || state == TEXT_OUTPUT || state == TEXT_IN_OUTPUT
  }

  lemma SyncStep(state: State, data: TestData, sc: Scan)
    requires InSync(state, sc) && Next(sc).Tok? && state != DONE
    ensures var r := Next(sc); var m := Feed(state, data, Some(r.token));
            m.Go? ==> InSync(m.state, r.next)
  {
    hide Next, Feed;
    if sc.mode == Lines && !sc.inComment {
      SyncText(state, data, sc);
    } else if state == CODE_NUMBER {
      SyncInteger(data, sc);
    } else {
      SyncKeyword(state, data, sc);
    }
  }

  // ------------------------------------------------------------------ theorems

  /** In every reachable state of lexer and parser together the mode is the one the parser's state needs. */
  lemma {:induction false} ModeSynchronisation(buffer: string, n: nat)
    ensures JointAfter(buffer, n).Some? ==> InSync(JointAfter(buffer, n).value.state, JointAfter(buffer, n).value.sc)
  {
    hide Next, Feed;
    if n > 0 && JointAfter(buffer, n - 1).Some? {
      ModeSynchronisation(buffer, n - 1);
      var j := JointAfter(buffer, n - 1).value;
      if j.state != DONE && Next(j.sc).Tok? {
        SyncStep(j.state, j.data, j.sc);
      }
    }
  }

  /** With the real lexer the parser is never short of a text, never handed a keyword as one, and never a
      bad integer. */
  predicate Impossible(e: Error) {
    e.MissingText? || e.UnexpectedKeyword? || e.InvalidInteger?
  }

  lemma StopsProperly(state: State, data: TestData, sc: Scan)
    requires InSync(state, sc) && state != DONE
    ensures Next(sc).Tok? && Feed(state, data, Some(Next(sc).token)).Stop?
            ==> !Impossible(Feed(state, data, Some(Next(sc).token)).error)
    ensures Next(sc).End? && Feed(state, data, None).Stop? ==> !Impossible(Feed(state, data, None).error)
  {
    if sc.mode == Lines && !sc.inComment {
      SyncText(state, data, sc);
      hide Next, Feed;
    } else if state == CODE_NUMBER && Next(sc).Tok? {
      SyncInteger(data, sc);
      hide Next;
      DigitsAreAnInteger(Next(sc).token);
      hide Stoi;
    } else {
      hide Next, Feed;
      StopErrors(state, data, None);
      if Next(sc).Tok? {
        StopErrors(state, data, Some(Next(sc).token));
      }
    }
  }

  lemma StopErrors(state: State, data: TestData, t: Option<Token>)
    requires state != DONE && !IsTextState(state) && (state == CODE_NUMBER ==> t == None)
    ensures var m := Feed(state, data, t); m.Stop? ==> !Impossible(m.error)
  {
    hide Stoi;
  }

  lemma DigitsAreAnInteger(t: Token)
    ensures t.kind == INTEGER && t.value != "" && All(t.value, IsDigit) ==> Stoi(t.value) != Err(InvalidInteger)
  {
    if t.value != "" && All(t.value, IsDigit) {
      StoiOfDigits(t.value);
    }
  }

  lemma StoiOfDigits(s: string)
    requires s != "" && All(s, IsDigit)
    ensures Stoi(s) == if DigitsValue(s) <= INT_MAX then Ok(DigitsValue(s)) else Err(IntegerOutOfRange)
  {
    LeadingIs("", s, IsSpace);
    assert "" + s == s;
    LeadingIs(s, "", IsDigit);
    assert s + "" == s;
    assert s[..|s|] == s && s[0..] == s;
    DigitsValueNonNegative(s);
  }

  lemma {:induction false} DigitsValueNonNegative(s: string)
    requires All(s, IsDigit)
    ensures DigitsValue(s) >= 0
  {
    if s != "" {
      DigitsValueNonNegative(s[..|s| - 1]);
    }
  }

  lemma {:induction false} ErrorsFrom(state: State, data: TestData, sc: Scan)
    requires InSync(state, sc) && state != DONE
    ensures var r := Drive(state, data, Tokens(sc)); r.Err? ==> !Impossible(r.error)
    decreases Potential(sc)
  {
    DriveScan(state, data, sc);
    StopsProperly(state, data, sc);
    hide Next, Feed, Drive, Tokens;
    if Next(sc).Tok? {
      var m := Feed(state, data, Some(Next(sc).token));
      if m.Go? {
        SyncStep(state, data, sc);
        ErrorsFrom(m.state, m.data, Next(sc).next);
      }
    }
  }

  /** Whatever the parser hands to `stoi` is a non-empty string of digits. */
  lemma StoiSeesDigits(buffer: string, n: nat)
    ensures match JointAfter(buffer, n)
            case None => true
            case Some(j) =>
              j.state == CODE_NUMBER && Next(j.sc).Tok? && Next(j.sc).token.kind == INTEGER ==>
                Next(j.sc).token.value != "" && All(Next(j.sc).token.value, IsDigit)
  {
    ModeSynchronisation(buffer, n);
    hide Next, Feed, InSync, JointAfter;
    if JointAfter(buffer, n).Some? {
      var j := JointAfter(buffer, n).value;
      if j.state == CODE_NUMBER && Next(j.sc).Tok? {
        SyncInteger(j.data, j.sc);
      }
    }
  }

  lemma ImpossibleErrors(buffer: string)
    ensures Parse(buffer).Err? ==> !Impossible(Parse(buffer).error)
  {
    ErrorsFrom(RUN, NO_DATA, AtFileStart(buffer));
  }
}
