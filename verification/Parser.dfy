/** The parser of headers/parser/Parser.hpp: what its fifteen states do with one token, and the class itself. */
module Parsing {
  import opened Text
  import opened Scanner
  import opened Lexing

  datatype Expectation =
    | EmptyOutput
    | FullOutput(text: string)
    | PartialOutput(text: string)
    | ExitCode(code: int)
    | SuccessfulExit
    | FailureExit

  datatype TestData = TestData(input: string, expectations: seq<Expectation>)

  const NO_DATA := TestData("", [])

  datatype State =
    | RUN | WITH | EMPTY_OR_INPUT | EMPTY_INPUT | TEXT_INPUT | EXPECT_OR_FINISH | OUTPUT_OR_EXIT_OR_IN | IN_OUTPUT
    | EMPTY_OUTPUT | CODE_OR_WITH | CODE_NUMBER | EXIT_WITH_FAILURE_OR_SUCCESS | TEXT_OUTPUT | TEXT_IN_OUTPUT | DONE

  /** The exceptions. The lexer's exception carries the text that is unread from the unexpected character on. */
  datatype Error =
    | MissingKeyword(expected: seq<string>)
    | WrongToken(expected: seq<string>, kind: TokenKind, given: Token)
    | MissingText
    | MissingInteger
    | UnexpectedKeyword(value: string)
    | InvalidInteger
    | IntegerOutOfRange
    | UnexpectedCharacter(at: string)

  // ----------------------------------------------------------------- integers

  function DigitsValue(s: string): int {
    if s == "" then 0 else 10 * DigitsValue(s[..|s| - 1]) + (s[|s| - 1] as int - '0' as int)
  }

  /** `std::stoi`: white space, a sign, the longest run of digits; anything may follow. */
  function Stoi(s: string): Result<int, Error> {
    var t := SkipSpace(s);
    var negative := t != "" && t[0] == '-';
    var u := if negative || (t != "" && t[0] == '+') then t[1..] else t;
    var n := Leading(u, IsDigit);
    if n == 0 then Err(InvalidInteger)
    else
      var value: int := if negative then -DigitsValue(u[..n]) else DigitsValue(u[..n]);
      if -INT_MAX - 1 <= value <= INT_MAX then Ok(value) else Err(IntegerOutOfRange)
  }

  // ------------------------------------------------------------ what a state does

  datatype Move = Go(state: State, data: TestData) | Stop(error: Error)

  function Keyword(word: string): Token { Token(KEYWORD, word) }

  function Add(data: TestData, e: Expectation): TestData {
    data.(expectations := data.expectations + [e])
  }

  /** The token must be one of the keywords in `names`; otherwise, the error that the state reports. */
  function Wrong(names: seq<string>, t: Option<Token>): Error
  {
    match t
    case None => MissingKeyword(names)
    case Some(given) => WrongToken(names, KEYWORD, given)
  }

  function Feed(state: State, data: TestData, t: Option<Token>): (r: Move)
    requires state != DONE
    ensures t == None && r.Go? ==> state == EXPECT_OR_FINISH && r == Go(DONE, data)
    ensures t != None && r.Go? ==> r.state != DONE
  {
    match state
    case RUN =>
      if t == Some(Keyword("RUN")) then Go(WITH, data)
      else if t.Some? && t.value.kind == COMMENT then Go(RUN, data)
      else Stop(Wrong(["RUN"], t))
    case WITH =>
      if t == Some(Keyword("WITH")) then Go(EMPTY_OR_INPUT, data) else Stop(Wrong(["WITH"], t))
    case EMPTY_OR_INPUT =>
      if t == Some(Keyword("INPUT")) then Go(TEXT_INPUT, data)
      else if t == Some(Keyword("EMPTY")) then Go(EMPTY_INPUT, data)
      else Stop(Wrong(["EMPTY", "INPUT"], t))
    case EMPTY_INPUT =>
      if t == Some(Keyword("INPUT")) then Go(EXPECT_OR_FINISH, data) else Stop(Wrong(["INPUT"], t))
    case TEXT_INPUT =>
      if IsText(t) then Go(EXPECT_OR_FINISH, data.(input := t.value.value)) else Stop(NotText(t))
    case EXPECT_OR_FINISH =>
      if t == None then Go(DONE, data)
      else if t == Some(Keyword("EXPECT")) then Go(OUTPUT_OR_EXIT_OR_IN, data)
      else Stop(Wrong(["EXPECT"], t))
    case OUTPUT_OR_EXIT_OR_IN =>
      if t == Some(Keyword("OUTPUT")) then Go(TEXT_OUTPUT, data)
      else if t == Some(Keyword("EXIT")) then Go(CODE_OR_WITH, data)
      else if t == Some(Keyword("IN")) then Go(IN_OUTPUT, data)
      else if t == Some(Keyword("EMPTY")) then Go(EMPTY_OUTPUT, data)
      else Stop(Wrong(["EMPTY", "OUTPUT", "EXIT", "IN"], t))
    case IN_OUTPUT =>
      if t == Some(Keyword("OUTPUT")) then Go(TEXT_IN_OUTPUT, data) else Stop(Wrong(["OUTPUT"], t))
    case EMPTY_OUTPUT =>
      if t == Some(Keyword("OUTPUT")) then Go(EXPECT_OR_FINISH, Add(data, EmptyOutput)) else Stop(Wrong(["OUTPUT"], t))
    case CODE_OR_WITH =>
      if t == Some(Keyword("CODE")) then Go(CODE_NUMBER, data)
      else if t == Some(Keyword("WITH")) then Go(EXIT_WITH_FAILURE_OR_SUCCESS, data)
      else Stop(Wrong(["CODE", "WITH"], t))
    case CODE_NUMBER =>
      if t == None then Stop(MissingInteger)
      else if t.value.kind != INTEGER then Stop(WrongToken([], INTEGER, t.value))
      else FeedCode(data, Stoi(t.value.value))
    case EXIT_WITH_FAILURE_OR_SUCCESS =>
      if t == Some(Keyword("FAILURE")) then Go(EXPECT_OR_FINISH, Add(data, FailureExit))
      else if t == Some(Keyword("SUCCESS")) then Go(EXPECT_OR_FINISH, Add(data, SuccessfulExit))
      else Stop(Wrong(["FAILURE", "SUCCESS"], t))
    case TEXT_OUTPUT =>
      if IsText(t) then Go(EXPECT_OR_FINISH, Add(data, FullOutput(t.value.value))) else Stop(NotText(t))
    case TEXT_IN_OUTPUT =>
      if IsText(t) then Go(EXPECT_OR_FINISH, Add(data, PartialOutput(t.value.value))) else Stop(NotText(t))
  }

  function FeedCode(data: TestData, code: Result<int, Error>): (r: Move)
    ensures r.Go? ==> r.state == EXPECT_OR_FINISH
  {
    match code
    case Err(e) => Stop(e)
    case Ok(value) => Go(EXPECT_OR_FINISH, Add(data, ExitCode(value)))
  }

  /** Where a text is expected any token will do but a keyword. */
  predicate IsText(t: Option<Token>) {
    t.Some? && t.value.kind != KEYWORD
  }

  function NotText(t: Option<Token>): Error {
    match t
    case None => MissingText
    case Some(given) => UnexpectedKeyword(given.value)
  }

  /** The outcome of parsing `s` from `state` on, with `data` collected so far. */
  function Drive(state: State, data: TestData, s: Stream): Result<TestData, Error>
    requires state != DONE
    decreases |s.tokens|
  {
    if s.tokens == [] then
      match s.ending
      case Broken(at) => Err(UnexpectedCharacter(at))
      case Eof =>
        match Feed(state, data, None)
        case Stop(e) => Err(e)
        case Go(_, _) => Ok(data)
    else
      match Feed(state, data, Some(s.tokens[0]))
      case Stop(e) => Err(e)
      case Go(state', data') => Drive(state', data', Stream(s.tokens[1..], s.ending))
  }

  /** What parsing `s` comes to after `move`. */
  function Onward(move: Move, s: Stream): Result<TestData, Error> {
    match move
    case Stop(e) => Err(e)
    case Go(state, data) => if state == DONE then Ok(data) else Drive(state, data, s)
  }

  lemma DriveStep(state: State, data: TestData, t: Token, s: Stream)
    requires state != DONE
    ensures Drive(state, data, Stream([t] + s.tokens, s.ending)) == Onward(Feed(state, data, Some(t)), s)
  {
    hide Feed;
    assert ([t] + s.tokens)[1..] == s.tokens;
  }

  lemma DriveEnds(state: State, data: TestData, s: Stream)
    requires state != DONE && s.tokens == []
    ensures s.ending.Broken? ==> Drive(state, data, s) == Err(UnexpectedCharacter(s.ending.at))
    ensures s.ending.Eof? ==> Drive(state, data, s) == Onward(Feed(state, data, None), s)
  {
    hide Feed;
  }

  /** Lexing and parsing a whole test file (`ParseTestFile` of src/main.cpp). */
  function Parse(buffer: string): Result<TestData, Error> {
    Drive(RUN, NO_DATA, Tokens(AtFileStart(buffer)))
  }

  // ------------------------------------------------------------------- the class

  /** How a handler ends: the parser goes on, or an exception leaves it. */
  datatype Outcome = Continue | Throw(error: Error)

  /** The handler did with `t` what the state machine says. */
  predicate Fed(move: Move, r: Outcome, state: State, data: TestData) {
    match move
    case Stop(e) => r == Throw(e)
    case Go(s, d) => r == Continue && state == s && data == d
  }

  /** One handler that takes one token: `sc` is what was unread before the call and `sc'` what is unread after it. */
  predicate Took(sc: Scan, from: State, before: TestData, r: Outcome, state: State, data: TestData, sc': Scan)
    requires from != DONE
  {
    match Next(sc)
    case Bad(at) => r == Throw(UnexpectedCharacter(at))
    case End => Fed(Feed(from, before, None), r, state, data)
    case Tok(t, next) => Fed(Feed(from, before, Some(t)), r, state, data) && (r == Continue ==> sc' == next)
  }

  /** What is left to do comes to `expected`. */
  predicate Heading(expected: Result<TestData, Error>, r: Outcome, state: State, data: TestData, sc: Scan) {
    expected == Onward(if r.Throw? then Stop(r.error) else Go(state, data), Tokens(sc))
  }

  /** What parsing comes to once the lexer has replied `lexed`. */
  function Pulled(state: State, data: TestData, lexed: Lexed): Result<TestData, Error>
    requires state != DONE
  {
    match lexed
    case Bad(at) => Err(UnexpectedCharacter(at))
    case End => Onward(Feed(state, data, None), Stream([], Eof))
    case Tok(t, next) => Onward(Feed(state, data, Some(t)), Tokens(next))
  }

  /** Parsing the text that is unread, one token at a time. */
  lemma DriveScan(state: State, data: TestData, sc: Scan)
    requires state != DONE
    ensures Drive(state, data, Tokens(sc)) == Pulled(state, data, Next(sc))
  {
    hide Feed, NextWord, LinesLength, Drive;
    var lexed, s := Next(sc), Tokens(sc);
    if lexed.Tok? {
      TokensStep(sc);
      DriveStep(state, data, lexed.token, Tokens(lexed.next));
    } else {
      DriveEnds(state, data, s);
    }
  }

  lemma TookHeads(sc: Scan, from: State, before: TestData, r: Outcome, state: State, data: TestData, sc': Scan)
    requires from != DONE && Took(sc, from, before, r, state, data, sc')
    ensures Heading(Drive(from, before, Tokens(sc)), r, state, data, sc')
    ensures r == Continue && state != DONE ==> Potential(sc') < Potential(sc)
  {
    DriveScan(from, before, sc);
    hide Feed, Next, Drive, Tokens;
  }

  class Parser {
    const lexer: Lexer
    var currentState: State
    var testData: TestData

    constructor (lexer: Lexer)
      ensures this.lexer == lexer && currentState == RUN && testData == NO_DATA
    {
      this.lexer := lexer;
      currentState := RUN;
      testData := NO_DATA;
    }

    /** The lexer's next token; its exception passes through the parser. */
    method FindNextToken() returns (r: Outcome, t: Option<Token>)
      requires lexer.Valid()
      modifies lexer
      ensures match Next(old(lexer.Abs()))
              case Bad(at) => r == Throw(UnexpectedCharacter(at))
              case End => r == Continue && t == None && lexer.Valid()
              case Tok(token, next) => r == Continue && t == Some(token) && lexer.Valid() && lexer.Abs() == next
    {
      hide Next, View, Sound;
      var reply := lexer.FindNextToken();
      match reply
      case Found(token) => return Continue, Some(token);
      case NoToken => return Continue, None;
      case Unexpected(character, position) => return Throw(UnexpectedCharacter(lexer.inputBuffer[position..])), None;
    }

    /** `_ExpectKeywordAndSwitchToState`, headers/parser/Parser.hpp:346-355. */
    method ExpectKeywordAndSwitchToState(expectedKeywordName: string, state: State) returns (r: Outcome)
      requires lexer.Valid()
      modifies `currentState, lexer
      ensures match Next(old(lexer.Abs()))
              case Bad(at) => r == Throw(UnexpectedCharacter(at))
              case End => r == Throw(MissingKeyword([expectedKeywordName]))
              case Tok(t, next) =>
                if t == Keyword(expectedKeywordName) then
                  r == Continue && currentState == state && lexer.Valid() && lexer.Abs() == next
                else r == Throw(WrongToken([expectedKeywordName], KEYWORD, t))
    {
      hide Next, View, Sound;
      var t;
      r, t := FindNextToken();
      if r == Continue {
        if t == None {
          return Throw(MissingKeyword([expectedKeywordName]));
        }
        if t.value.kind != KEYWORD || t.value.value != expectedKeywordName {
          return Throw(WrongToken([expectedKeywordName], KEYWORD, t.value));
        }
        currentState := state;
      }
    }

    method HandleWithState() returns (r: Outcome)
      requires lexer.Valid() && currentState == WITH
      modifies this, lexer
      ensures r == Continue ==> lexer.Valid()
      ensures Took(old(lexer.Abs()), WITH, old(testData), r, currentState, testData,
                   if r == Continue then lexer.Abs() else old(lexer.Abs()))
    {
      hide Next, View, Sound;
      r := ExpectKeywordAndSwitchToState("WITH", EMPTY_OR_INPUT);
    }

    method HandleEmptyOrInputState() returns (r: Outcome)
      requires lexer.Valid() && currentState == EMPTY_OR_INPUT
      modifies this, lexer
      ensures r == Continue ==> lexer.Valid()
      ensures Took(old(lexer.Abs()), EMPTY_OR_INPUT, old(testData), r, currentState, testData,
                   if r == Continue then lexer.Abs() else old(lexer.Abs()))
    {
      hide Next, View, Sound;
      var t;
      r, t := FindNextToken();
      if r != Continue {
        return;
      }
      if t == None {
        return Throw(MissingKeyword(["EMPTY", "INPUT"]));
      }
      if t.value == Keyword("INPUT") {
        currentState := TEXT_INPUT;
      } else if t.value == Keyword("EMPTY") {
        currentState := EMPTY_INPUT;
      } else {
        return Throw(WrongToken(["EMPTY", "INPUT"], KEYWORD, t.value));
      }
    }

    method HandleEmptyInputState() returns (r: Outcome)
      requires lexer.Valid() && currentState == EMPTY_INPUT
      modifies this, lexer
      ensures r == Continue ==> lexer.Valid()
      ensures Took(old(lexer.Abs()), EMPTY_INPUT, old(testData), r, currentState, testData,
                   if r == Continue then lexer.Abs() else old(lexer.Abs()))
    {
      hide Next, View, Sound;
      r := ExpectKeywordAndSwitchToState("INPUT", EXPECT_OR_FINISH);
    }

    method HandleTextInputState() returns (r: Outcome)
      requires lexer.Valid() && currentState == TEXT_INPUT
      modifies this, lexer
      ensures r == Continue ==> lexer.Valid()
      ensures Took(old(lexer.Abs()), TEXT_INPUT, old(testData), r, currentState, testData,
                   if r == Continue then lexer.Abs() else old(lexer.Abs()))
    {
      hide Next, View, Sound;
      var t;
      r, t := FindNextToken();
      if r != Continue {
        return;
      }
      if t == None {
        return Throw(MissingText);
      }
      if t.value.kind == KEYWORD {
        return Throw(UnexpectedKeyword(t.value.value));
      }
      testData := testData.(input := t.value.value);
      currentState := EXPECT_OR_FINISH;
    }

    method HandleExpectOrFinishState() returns (r: Outcome)
      requires lexer.Valid() && currentState == EXPECT_OR_FINISH
      modifies this, lexer
      ensures r == Continue ==> lexer.Valid()
      ensures Took(old(lexer.Abs()), EXPECT_OR_FINISH, old(testData), r, currentState, testData,
                   if r == Continue then lexer.Abs() else old(lexer.Abs()))
    {
      hide Next, View, Sound;
      var t;
      r, t := FindNextToken();
      if r != Continue {
        return;
      }
      if t.Some? {
        if t.value != Keyword("EXPECT") {
          return Throw(WrongToken(["EXPECT"], KEYWORD, t.value));
        }
        currentState := OUTPUT_OR_EXIT_OR_IN;
      } else {
        currentState := DONE;
      }
    }

    method HandleEmptyOrOutputOrExitOrInState() returns (r: Outcome)
      requires lexer.Valid() && currentState == OUTPUT_OR_EXIT_OR_IN
      modifies this, lexer
      ensures r == Continue ==> lexer.Valid()
      ensures Took(old(lexer.Abs()), OUTPUT_OR_EXIT_OR_IN, old(testData), r, currentState, testData,
                   if r == Continue then lexer.Abs() else old(lexer.Abs()))
    {
      hide Next, View, Sound;
      var t;
      r, t := FindNextToken();
      if r != Continue {
        return;
      }
      if t == None {
        return Throw(MissingKeyword(["EMPTY", "OUTPUT", "EXIT", "IN"]));
      }
      if t.value == Keyword("OUTPUT") {
        currentState := TEXT_OUTPUT;
      } else if t.value == Keyword("EXIT") {
        currentState := CODE_OR_WITH;
      } else if t.value == Keyword("IN") {
        currentState := IN_OUTPUT;
      } else if t.value == Keyword("EMPTY") {
        currentState := EMPTY_OUTPUT;
      } else {
        return Throw(WrongToken(["EMPTY", "OUTPUT", "EXIT", "IN"], KEYWORD, t.value));
      }
    }

    method HandleInOutputState() returns (r: Outcome)
      requires lexer.Valid() && currentState == IN_OUTPUT
      modifies this, lexer
      ensures r == Continue ==> lexer.Valid()
      ensures Took(old(lexer.Abs()), IN_OUTPUT, old(testData), r, currentState, testData,
                   if r == Continue then lexer.Abs() else old(lexer.Abs()))
    {
      hide Next, View, Sound;
      r := ExpectKeywordAndSwitchToState("OUTPUT", TEXT_IN_OUTPUT);
    }

    method HandleEmptyOutputState() returns (r: Outcome)
      requires lexer.Valid() && currentState == EMPTY_OUTPUT
      modifies this, lexer
      ensures r == Continue ==> lexer.Valid()
      ensures Took(old(lexer.Abs()), EMPTY_OUTPUT, old(testData), r, currentState, testData,
                   if r == Continue then lexer.Abs() else old(lexer.Abs()))
    {
      hide Next, View, Sound;
      r := ExpectKeywordAndSwitchToState("OUTPUT", EXPECT_OR_FINISH);
      if r == Continue {
        testData := Add(testData, EmptyOutput);
      }
    }

    method HandleCodeOrWithState() returns (r: Outcome)
      requires lexer.Valid() && currentState == CODE_OR_WITH
      modifies this, lexer
      ensures r == Continue ==> lexer.Valid()
      ensures Took(old(lexer.Abs()), CODE_OR_WITH, old(testData), r, currentState, testData,
                   if r == Continue then lexer.Abs() else old(lexer.Abs()))
    {
      hide Next, View, Sound;
      var t;
      r, t := FindNextToken();
      if r != Continue {
        return;
      }
      if t == None {
        return Throw(MissingKeyword(["CODE", "WITH"]));
      }
      if t.value == Keyword("CODE") {
        currentState := CODE_NUMBER;
      } else if t.value == Keyword("WITH") {
        currentState := EXIT_WITH_FAILURE_OR_SUCCESS;
      } else {
        return Throw(WrongToken(["CODE", "WITH"], KEYWORD, t.value));
      }
    }

    method HandleCodeNumberState() returns (r: Outcome)
      requires lexer.Valid() && currentState == CODE_NUMBER
      modifies this, lexer
      ensures r == Continue ==> lexer.Valid()
      ensures Took(old(lexer.Abs()), CODE_NUMBER, old(testData), r, currentState, testData,
                   if r == Continue then lexer.Abs() else old(lexer.Abs()))
    {
      hide Next, View, Sound, Stoi;
      var t;
      r, t := FindNextToken();
      if r != Continue {
        return;
      }
      if t == None {
        return Throw(MissingInteger);
      }
      if t.value.kind == INTEGER {
        var expectedCode := Stoi(t.value.value);
        if expectedCode.Err? {
          return Throw(expectedCode.error);
        }
        testData := Add(testData, ExitCode(expectedCode.value));
        currentState := EXPECT_OR_FINISH;
      } else {
        return Throw(WrongToken([], INTEGER, t.value));
      }
    }

    method HandleExitWithFailureOrSuccessState() returns (r: Outcome)
      requires lexer.Valid() && currentState == EXIT_WITH_FAILURE_OR_SUCCESS
      modifies this, lexer
      ensures r == Continue ==> lexer.Valid()
      ensures Took(old(lexer.Abs()), EXIT_WITH_FAILURE_OR_SUCCESS, old(testData), r, currentState, testData,
                   if r == Continue then lexer.Abs() else old(lexer.Abs()))
    {
      hide Next, View, Sound;
      var t;
      r, t := FindNextToken();
      if r != Continue {
        return;
      }
      if t == None {
        return Throw(MissingKeyword(["FAILURE", "SUCCESS"]));
      }
      if t.value == Keyword("FAILURE") {
        testData := Add(testData, FailureExit);
        currentState := EXPECT_OR_FINISH;
      } else if t.value == Keyword("SUCCESS") {
        testData := Add(testData, SuccessfulExit);
        currentState := EXPECT_OR_FINISH;
      } else {
        return Throw(WrongToken(["FAILURE", "SUCCESS"], KEYWORD, t.value));
      }
    }

    method HandleTextOutputState() returns (r: Outcome)
      requires lexer.Valid() && currentState == TEXT_OUTPUT
      modifies this, lexer
      ensures r == Continue ==> lexer.Valid()
      ensures Took(old(lexer.Abs()), TEXT_OUTPUT, old(testData), r, currentState, testData,
                   if r == Continue then lexer.Abs() else old(lexer.Abs()))
    {
      hide Next, View, Sound;
      var t;
      r, t := FindNextToken();
      if r != Continue {
        return;
      }
      if t == None {
        return Throw(MissingText);
      }
      if t.value.kind == KEYWORD {
        return Throw(UnexpectedKeyword(t.value.value));
      }
      testData := Add(testData, FullOutput(t.value.value));
      currentState := EXPECT_OR_FINISH;
    }

    method HandleTextInOutputState() returns (r: Outcome)
      requires lexer.Valid() && currentState == TEXT_IN_OUTPUT
      modifies this, lexer
      ensures r == Continue ==> lexer.Valid()
      ensures Took(old(lexer.Abs()), TEXT_IN_OUTPUT, old(testData), r, currentState, testData,
                   if r == Continue then lexer.Abs() else old(lexer.Abs()))
    {
      hide Next, View, Sound;
      var t;
      r, t := FindNextToken();
      if r != Continue {
        return;
      }
      if t == None {
        return Throw(MissingText);
      }
      if t.value.kind == KEYWORD {
        return Throw(UnexpectedKeyword(t.value.value));
      }
      testData := Add(testData, PartialOutput(t.value.value));
      currentState := EXPECT_OR_FINISH;
    }

    /** The loop of `_GetNextNonCommentToken`, as the RUN state uses it: comments make no difference. */
    method GetNextNonCommentToken(ghost data: TestData) returns (r: Outcome, t: Option<Token>)
      requires lexer.Valid()
      modifies lexer
      ensures r == Continue ==> lexer.Valid()
      ensures r == Continue && t.Some?
              ==> t.value.kind != COMMENT && Potential(lexer.Abs()) < Potential(old(lexer.Abs()))
      ensures r.Throw? ==> Drive(RUN, data, Tokens(old(lexer.Abs()))) == Err(r.error)
      ensures r == Continue ==>
                Drive(RUN, data, Tokens(old(lexer.Abs())))
                == Onward(Feed(RUN, data, t), if t.Some? then Tokens(lexer.Abs()) else Stream([], Eof))
    {
      hide Next, View, Sound, Drive, Tokens, Potential;
      while true
        invariant lexer.Valid()
        invariant Potential(lexer.Abs()) <= Potential(old(lexer.Abs()))
        invariant Drive(RUN, data, Tokens(old(lexer.Abs()))) == Drive(RUN, data, Tokens(lexer.Abs()))
        decreases Potential(lexer.Abs())
      {
        DriveScan(RUN, data, lexer.Abs());
        r, t := FindNextToken();
        if r != Continue || t == None || t.value.kind != COMMENT {
          return;
        }
      }
    }

    method HandleRunState() returns (r: Outcome)
      requires lexer.Valid() && currentState == RUN
      modifies this, lexer
      ensures r == Continue
              ==> lexer.Valid() && currentState == WITH && Potential(lexer.Abs()) < Potential(old(lexer.Abs()))
      ensures r == Continue
              ==> Drive(RUN, old(testData), Tokens(old(lexer.Abs()))) == Drive(WITH, testData, Tokens(lexer.Abs()))
      ensures r.Throw? ==> Drive(RUN, old(testData), Tokens(old(lexer.Abs()))) == Err(r.error)
    {
      hide Next, View, Sound, Drive, Tokens;
      var t;
      r, t := GetNextNonCommentToken(testData);
      if r != Continue {
        return;
      }
      if t == None {
        return Throw(MissingKeyword(["RUN"]));
      }
      if t.value != Keyword("RUN") {
        return Throw(WrongToken(["RUN"], KEYWORD, t.value));
      }
      currentState := WITH;
    }

    /** The loop of headers/parser/Parser.hpp:47-98. */
    method Parse() returns (r: Result<TestData, Error>)
      requires lexer.Valid() && currentState == RUN && testData == NO_DATA
      modifies this, lexer
      ensures r == Drive(RUN, NO_DATA, old(lexer.Remaining()))
    {
      hide Next, View, Sound, Drive, Tokens, Took, Feed, Potential;
      ghost var expected := Drive(RUN, NO_DATA, lexer.Remaining());
      while currentState != DONE
        invariant currentState != DONE ==> lexer.Valid()
        invariant expected == if currentState == DONE then Ok(testData)
                  else Drive(currentState, testData, Tokens(lexer.Abs()))
        decreases currentState != DONE, if currentState == DONE then 0 else Potential(lexer.Abs())
      {
        var outcome := HandleState();
        if outcome.Throw? {
          return Err(outcome.error);
        }
      }
      return Ok(testData);
    }

    /** The switch over the current state. */
    method HandleState() returns (r: Outcome)
      requires lexer.Valid() && currentState != DONE
      modifies this, lexer
      ensures r == Continue ==> lexer.Valid()
      ensures Heading(old(Drive(currentState, testData, Tokens(lexer.Abs()))), r, currentState, testData,
                      if r == Continue then lexer.Abs() else old(lexer.Abs()))
      ensures r == Continue && currentState != DONE ==> Potential(lexer.Abs()) < Potential(old(lexer.Abs()))
    {
      hide Next, View, Sound, Drive, Tokens, Took, Feed, Potential;
      if currentState == RUN {
        r := HandleRunState();
        return;
      }
      match currentState {
        case WITH => r := HandleWithState();
        case EMPTY_OR_INPUT => r := HandleEmptyOrInputState();
        case EMPTY_INPUT => r := HandleEmptyInputState();
        case TEXT_INPUT => r := HandleTextInputState();
        case EXPECT_OR_FINISH => r := HandleExpectOrFinishState();
        case OUTPUT_OR_EXIT_OR_IN => r := HandleEmptyOrOutputOrExitOrInState();
        case IN_OUTPUT => r := HandleInOutputState();
        case EMPTY_OUTPUT => r := HandleEmptyOutputState();
        case CODE_OR_WITH => r := HandleCodeOrWithState();
        case CODE_NUMBER => r := HandleCodeNumberState();
        case EXIT_WITH_FAILURE_OR_SUCCESS => r := HandleExitWithFailureOrSuccessState();
        case TEXT_OUTPUT => r := HandleTextOutputState();
        case TEXT_IN_OUTPUT => r := HandleTextInOutputState();
      }
      TookHeads(old(lexer.Abs()), old(currentState), old(testData), r, currentState, testData,
                if r == Continue then lexer.Abs() else old(lexer.Abs()));
    }
  }
}
