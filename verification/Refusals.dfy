/** Which exception leaves the parser for a token list that is no sentence: the first token that no sentence can go on
    with decides, and the exception says what could have come instead. */
module Refusals {
  import opened Text
  import opened Scanner
  import opened Parsing
  import opened Grammar

  // --------------------------------------------------- places in a sentence

  /** How far the current clause has come. */
  datatype Within =
    | NotStarted | AfterExpect | AfterExpectEmpty | AfterOutput | AfterIn | AfterInOutput | AfterExit | AfterCode
    | AfterExitWith

  datatype Spot =
    | BeforeRun | AfterRun | AfterWith | AfterEmpty | AfterInput
    | InClauses(input: InputPart, clauses: seq<Clause>, within: Within)

  /** A place between two tokens of a sentence, by what stands in front of it. */
  datatype Place = Place(comments: seq<Token>, spot: Spot)

  predicate PlaceOk(p: Place) {
    && (forall t <- p.comments :: t.kind == COMMENT)
    && (p.spot.InClauses? ==>
          && (p.spot.input.TextInput? ==> p.spot.input.text.kind != KEYWORD)
          && (forall c <- p.spot.clauses :: ClauseOk(c)))
  }

  function WithinYield(w: Within): seq<Token> {
    match w
    case NotStarted => []
    case AfterExpect => [Keyword("EXPECT")]
    case AfterExpectEmpty => [Keyword("EXPECT"), Keyword("EMPTY")]
    case AfterOutput => [Keyword("EXPECT"), Keyword("OUTPUT")]
    case AfterIn => [Keyword("EXPECT"), Keyword("IN")]
    case AfterInOutput => [Keyword("EXPECT"), Keyword("IN"), Keyword("OUTPUT")]
    case AfterExit => [Keyword("EXPECT"), Keyword("EXIT")]
    case AfterCode => [Keyword("EXPECT"), Keyword("EXIT"), Keyword("CODE")]
    case AfterExitWith => [Keyword("EXPECT"), Keyword("EXIT"), Keyword("WITH")]
  }

  function SpotYield(spot: Spot): seq<Token> {
    match spot
    case BeforeRun => []
    case AfterRun => [Keyword("RUN")]
    case AfterWith => [Keyword("RUN"), Keyword("WITH")]
    case AfterEmpty => [Keyword("RUN"), Keyword("WITH"), Keyword("EMPTY")]
    case AfterInput => [Keyword("RUN"), Keyword("WITH"), Keyword("INPUT")]
    case InClauses(i, cs, w) =>
      [Keyword("RUN"), Keyword("WITH")] + (InputYield(i) + (ClausesYield(cs) + WithinYield(w)))
  }

  function PlaceYield(p: Place): seq<Token> { p.comments + SpotYield(p.spot) }

  // ----------------------------------------------------- what may come next

  /** What the parser looks for at a place: one of some keywords, the exit code, or a text. */
  datatype Wanted = Words(names: seq<string>) | Number | AnyText

  function WantedWithin(w: Within): Wanted {
    match w
    case NotStarted => Words(["EXPECT"])
    case AfterExpect => Words(["EMPTY", "OUTPUT", "EXIT", "IN"])
    case AfterExpectEmpty | AfterIn => Words(["OUTPUT"])
    case AfterOutput | AfterInOutput => AnyText
    case AfterExit => Words(["CODE", "WITH"])
    case AfterCode => Number
    case AfterExitWith => Words(["FAILURE", "SUCCESS"])
  }

  function WantedAt(spot: Spot): Wanted {
    match spot
    case BeforeRun => Words(["RUN"])
    case AfterRun => Words(["WITH"])
    case AfterWith => Words(["EMPTY", "INPUT"])
    case AfterEmpty => Words(["INPUT"])
    case AfterInput => AnyText
    case InClauses(_, _, w) => WantedWithin(w)
  }

  predicate Meets(wanted: Wanted, t: Token) {
    match wanted
    case Words(names) => t.kind == KEYWORD && t.value in names
    case Number => t.kind == INTEGER && Stoi(t.value).Ok?
    case AnyText => t.kind != KEYWORD
  }

  predicate FitsWithin(w: Within, t: Token) { Meets(WantedWithin(w), t) }

  predicate Fits(spot: Spot, t: Token) {
    (spot.BeforeRun? && t.kind == COMMENT) || Meets(WantedAt(spot), t)
  }

  /** The exception for a token that does not fit. */
  function Refused(spot: Spot, t: Token): Error
    requires !Fits(spot, t)
  {
    match WantedAt(spot)
    case Words(names) => WrongToken(names, KEYWORD, t)
    case Number => if t.kind == INTEGER then Stoi(t.value).error else WrongToken([], INTEGER, t)
    case AnyText => UnexpectedKeyword(t.value)
  }

  /** The exception for a list that ends where no sentence ends. */
  function Missing(spot: Spot): Error {
    match WantedAt(spot)
    case Words(names) => MissingKeyword(names)
    case Number => MissingInteger
    case AnyText => MissingText
  }

  predicate MayEnd(spot: Spot) { spot.InClauses? && spot.within == NotStarted }

  /** The clause that `t` completes, or else how far the clause has come with it. */
  datatype Advance = Completes(clause: Clause) | Reaches(within: Within)

  function AdvanceBy(w: Within, t: Token): Advance {
    match w
    case NotStarted => Reaches(AfterExpect)
    case AfterExpect =>
      Reaches(if t.value == "EMPTY" then AfterExpectEmpty else if t.value == "OUTPUT" then AfterOutput
              else if t.value == "EXIT" then AfterExit else AfterIn)
    case AfterExpectEmpty => Completes(NothingClause)
    case AfterIn => Reaches(AfterInOutput)
    case AfterOutput => Completes(OutputClause(t))
    case AfterInOutput => Completes(InOutputClause(t))
    case AfterExit => Reaches(if t.value == "CODE" then AfterCode else AfterExitWith)
    case AfterCode => Completes(CodeClause(t))
    case AfterExitWith => Completes(if t.value == "SUCCESS" then SuccessClause else FailureClause)
  }

  function NextWithin(i: InputPart, cs: seq<Clause>, w: Within, t: Token): Spot {
    match AdvanceBy(w, t)
    case Completes(c) => InClauses(i, cs + [c], NotStarted)
    case Reaches(w') => InClauses(i, cs, w')
  }

  function NextPlace(p: Place, t: Token): Place {
    match p.spot
    case BeforeRun => if t.kind == COMMENT then p.(comments := p.comments + [t]) else p.(spot := AfterRun)
    case AfterRun => p.(spot := AfterWith)
    case AfterWith => p.(spot := if t.value == "EMPTY" then AfterEmpty else AfterInput)
    case AfterEmpty => p.(spot := InClauses(NoInput, [], NotStarted))
    case AfterInput => p.(spot := InClauses(TextInput(t), [], NotStarted))
    case InClauses(i, cs, w) => p.(spot := NextWithin(i, cs, w, t))
  }

  lemma {:induction false} ClausesYieldSnoc(cs: seq<Clause>, c: Clause)
    ensures ClausesYield(cs + [c]) == ClausesYield(cs) + ([Keyword("EXPECT")] + ClauseTail(c))
    decreases |cs|
  {
    hide ClauseTail;
    if cs == [] {
      assert [] + [c] == [c] && [c][1..] == [];
      assert ClauseTail(c) + [] == ClauseTail(c);
    } else {
      ClausesYieldSnoc(cs[1..], c);
      assert (cs + [c])[1..] == cs[1..] + [c];
      var last := [Keyword("EXPECT")] + ClauseTail(c);
      Assoc(ClauseTail(cs[0]), ClausesYield(cs[1..]), last);
      Assoc([Keyword("EXPECT")], ClauseTail(cs[0]) + ClausesYield(cs[1..]), last);
    }
  }

  lemma AdvanceYields(w: Within, t: Token)
    requires FitsWithin(w, t)
    ensures match AdvanceBy(w, t)
            case Completes(c) => ClauseOk(c) && WithinYield(w) + [t] == [Keyword("EXPECT")] + ClauseTail(c)
            case Reaches(w') => WithinYield(w) + [t] == WithinYield(w')
  {
    hide Stoi;
  }

  /** A token that fits takes one place to the next. */
  lemma NextWithinYields(i: InputPart, cs: seq<Clause>, w: Within, t: Token)
    requires FitsWithin(w, t)
    ensures var n := NextWithin(i, cs, w, t);
            && n.InClauses? && n.input == i && (forall c <- n.clauses :: c in cs || ClauseOk(c))
            && ClausesYield(n.clauses) + WithinYield(n.within) == ClausesYield(cs) + (WithinYield(w) + [t])
  {
    AdvanceYields(w, t);
    hide ClausesYield, ClauseTail, AdvanceBy, FitsWithin, ClauseOk;
    match AdvanceBy(w, t) {
      case Completes(c) => ClausesYieldSnoc(cs, c);
      case Reaches(_) =>
    }
  }

  lemma NextPlaceYields(p: Place, t: Token)
    requires PlaceOk(p) && Fits(p.spot, t)
    ensures PlaceOk(NextPlace(p, t)) && PlaceYield(NextPlace(p, t)) == PlaceYield(p) + [t]
  {
    hide ClausesYield, WithinYield, NextWithin, Stoi, ClauseOk;
    if p.spot.InClauses? {
      var i, cs, w := p.spot.input, p.spot.clauses, p.spot.within;
      NextWithinYields(i, cs, w, t);
      hide Fits, FitsWithin, InputYield, Meets;
      Assoc(ClausesYield(cs), WithinYield(w), [t]);
      Assoc(InputYield(i), ClausesYield(cs) + WithinYield(w), [t]);
    } else {
      NoClausesYet();
    }
  }

  lemma NoClausesYet()
    ensures ClausesYield([]) + WithinYield(NotStarted) == []
  {
  }

  // --------------------------------------------------- the places one after another

  const START := Place([], BeforeRun)

  function Walk(p: Place, ts: seq<Token>): Place
    decreases |ts|
  {
    if ts == [] then p else Walk(NextPlace(p, ts[0]), ts[1..])
  }

  lemma {:induction false} WalkConcat(p: Place, a: seq<Token>, b: seq<Token>)
    ensures Walk(p, a + b) == Walk(Walk(p, a), b)
    decreases |a|
  {
    hide NextPlace;
    if a == [] {
      assert a + b == b;
    } else {
      WalkConcat(NextPlace(p, a[0]), a[1..], b);
      assert (a + b)[1..] == a[1..] + b;
    }
  }

  lemma WalkOne(p: Place, t: Token)
    ensures Walk(p, [t]) == NextPlace(p, t)
  {
    hide NextPlace;
    assert [t][1..] == [];
  }

  lemma {:induction false} WalkComments(before: seq<Token>, comments: seq<Token>)
    requires forall t <- comments :: t.kind == COMMENT
    ensures Walk(Place(before, BeforeRun), comments) == Place(before + comments, BeforeRun)
    decreases |comments|
  {
    if comments == [] {
      assert before + comments == before;
    } else {
      assert comments[0] in comments;
      WalkComments(before + [comments[0]], comments[1..]);
      Assoc(before, [comments[0]], comments[1..]);
      assert comments == [comments[0]] + comments[1..];
    }
  }

  lemma WalkFew(p: Place, a: Token, b: Token, c: Token)
    ensures Walk(p, []) == p && Walk(p, [a]) == NextPlace(p, a)
    ensures Walk(p, [a, b]) == NextPlace(NextPlace(p, a), b)
    ensures Walk(p, [a, b, c]) == NextPlace(NextPlace(NextPlace(p, a), b), c)
  {
    hide NextPlace;
    var p1 := NextPlace(p, a);
    var p2 := NextPlace(p1, b);
    WalkOne(p, a);
    WalkOne(p1, b);
    WalkOne(p2, c);
    assert [a, b][1..] == [b] && [a, b, c][1..] == [b, c] && [b, c][1..] == [c];
    assert Walk(p1, [b, c]) == Walk(p2, [c]);
  }

  lemma WalkWithin(comments: seq<Token>, i: InputPart, cs: seq<Clause>, w: Within)
    ensures Walk(Place(comments, InClauses(i, cs, NotStarted)), WithinYield(w)) == Place(comments, InClauses(i, cs, w))
  {
    var p, ts := Place(comments, InClauses(i, cs, NotStarted)), WithinYield(w);
    var none := Keyword("");
    WalkFew(p, if ts == [] then none else ts[0], if |ts| < 2 then none else ts[1], if |ts| < 3 then none else ts[2]);
    hide Walk;
  }

  lemma WalkClause(comments: seq<Token>, i: InputPart, cs: seq<Clause>, c: Clause)
    ensures Walk(Place(comments, InClauses(i, cs, NotStarted)), [Keyword("EXPECT")] + ClauseTail(c))
            == Place(comments, InClauses(i, cs + [c], NotStarted))
  {
    var p, ts := Place(comments, InClauses(i, cs, NotStarted)), ClauseTail(c);
    WalkFew(p, Keyword("EXPECT"), ts[0], ts[1]);
    WalkConcat(p, [Keyword("EXPECT")], ts);
    var q := NextPlace(p, Keyword("EXPECT"));
    WalkFew(q, ts[0], ts[1], if |ts| < 3 then ts[0] else ts[2]);
    hide Walk;
  }

  lemma {:induction false} WalkClauses(comments: seq<Token>, i: InputPart, before: seq<Clause>, cs: seq<Clause>)
    ensures Walk(Place(comments, InClauses(i, before, NotStarted)), ClausesYield(cs))
            == Place(comments, InClauses(i, before + cs, NotStarted))
    decreases |cs|
  {
    var p := Place(comments, InClauses(i, before, NotStarted));
    hide ClauseTail, NextPlace;
    if cs == [] {
      assert before + cs == before;
    } else {
      var head := [Keyword("EXPECT")] + ClauseTail(cs[0]);
      WalkClause(comments, i, before, cs[0]);
      WalkClauses(comments, i, before + [cs[0]], cs[1..]);
      WalkConcat(p, head, ClausesYield(cs[1..]));
      Assoc([Keyword("EXPECT")], ClauseTail(cs[0]), ClausesYield(cs[1..]));
      Assoc(before, [cs[0]], cs[1..]);
      assert cs == [cs[0]] + cs[1..];
    }
  }

  lemma WalkInput(comments: seq<Token>, i: InputPart)
    ensures Walk(Place(comments, AfterWith), InputYield(i)) == Place(comments, InClauses(i, [], NotStarted))
  {
    var ts := InputYield(i);
    WalkFew(Place(comments, AfterWith), ts[0], ts[1], ts[1]);
    hide Walk;
  }

  lemma WalkSpot(comments: seq<Token>, spot: Spot)
    ensures Walk(Place(comments, BeforeRun), SpotYield(spot)) == Place(comments, spot)
  {
    var p := Place(comments, BeforeRun);
    WalkFew(p, Keyword("RUN"), Keyword("WITH"), Keyword(if spot.AfterEmpty? then "EMPTY" else "INPUT"));
    if spot.InClauses? {
      var head := [Keyword("RUN"), Keyword("WITH")];
      var i, cs, w := spot.input, spot.clauses, spot.within;
      assert Walk(p, head) == Place(comments, AfterWith);
      WalkInput(comments, i);
      WalkClauses(comments, i, [], cs);
      WalkWithin(comments, i, cs, w);
      hide Walk, NextPlace, ClausesYield, WithinYield, InputYield;
      assert [] + cs == cs;
      WalkConcat(p, head, InputYield(i) + (ClausesYield(cs) + WithinYield(w)));
      WalkConcat(Place(comments, AfterWith), InputYield(i), ClausesYield(cs) + WithinYield(w));
      WalkConcat(Place(comments, InClauses(i, [], NotStarted)), ClausesYield(cs), WithinYield(w));
    } else {
      hide Walk;
    }
  }

  /** A place is determined by what stands in front of it. */
  lemma WalkBack(p: Place)
    requires PlaceOk(p)
    ensures Walk(START, PlaceYield(p)) == p
  {
    hide Walk, NextPlace, SpotYield, ClauseOk;
    WalkComments([], p.comments);
    WalkSpot(p.comments, p.spot);
    assert [] + p.comments == p.comments;
    WalkConcat(START, p.comments, SpotYield(p.spot));
  }

  // ---------------------------------------------------------------- the parser

  function StateAt(spot: Spot): (s: State)
    ensures s != DONE
  {
    match spot
    case BeforeRun => RUN
    case AfterRun => WITH
    case AfterWith => EMPTY_OR_INPUT
    case AfterEmpty => EMPTY_INPUT
    case AfterInput => TEXT_INPUT
    case InClauses(_, _, w) =>
      match w
      case NotStarted => EXPECT_OR_FINISH
      case AfterExpect => OUTPUT_OR_EXIT_OR_IN
      case AfterExpectEmpty => EMPTY_OUTPUT
      case AfterOutput => TEXT_OUTPUT
      case AfterIn => IN_OUTPUT
      case AfterInOutput => TEXT_IN_OUTPUT
      case AfterExit => CODE_OR_WITH
      case AfterCode => CODE_NUMBER
      case AfterExitWith => EXIT_WITH_FAILURE_OR_SUCCESS
  }

  /** A token that fits takes the parser to the state of the next place; any other is refused. */
  predicate FedWell(p: Place, m: Move, t: Token) {
    && (Fits(p.spot, t) ==> m.Go? && m.state == StateAt(NextPlace(p, t).spot))
    && (!Fits(p.spot, t) ==> m == Stop(Refused(p.spot, t)))
  }

  lemma FeedFits(p: Place, data: TestData, t: Token)
    ensures FedWell(p, Feed(StateAt(p.spot), data, Some(t)), t)
  {
    hide Feed, FedWell, StateAt;
    if p.spot.InClauses? {
      FeedFitsInClauses(p, data, t);
    } else {
      FeedFitsBefore(p, data, t);
    }
  }

  lemma FeedFitsBefore(p: Place, data: TestData, t: Token)
    requires !p.spot.InClauses?
    ensures FedWell(p, Feed(StateAt(p.spot), data, Some(t)), t)
  {
    hide Stoi, NextWithin;
  }

  lemma FeedFitsInClauses(p: Place, data: TestData, t: Token)
    requires p.spot.InClauses?
    ensures FedWell(p, Feed(StateAt(p.spot), data, Some(t)), t)
  {
    hide Stoi;
  }

  lemma FeedEnd(spot: Spot, data: TestData)
    ensures Feed(StateAt(spot), data, None) == if MayEnd(spot) then Go(DONE, data) else Stop(Missing(spot))
  {
    hide Stoi;
  }

  /** How many of the tokens fit, one after another. */
  function Fitting(p: Place, ts: seq<Token>): (n: nat)
    ensures n <= |ts|
    decreases |ts|
  {
    if ts == [] || !Fits(p.spot, ts[0]) then 0 else 1 + Fitting(NextPlace(p, ts[0]), ts[1..])
  }

  /** From a place the parser goes along with the tokens up to the first that does not fit; that one it refuses. */
  lemma {:induction false} ParserWalks(p: Place, data: TestData, ts: seq<Token>, more: Stream) returns (data': TestData)
    requires PlaceOk(p)
    ensures var n := Fitting(p, ts);
            var q := Walk(p, ts[..n]);
            && PlaceOk(q) && PlaceYield(q) == PlaceYield(p) + ts[..n]
            && var r := Drive(StateAt(p.spot), data, Stream(ts + more.tokens, more.ending));
               if n < |ts| then !Fits(q.spot, ts[n]) && r == Err(Refused(q.spot, ts[n]))
               else r == Drive(StateAt(q.spot), data', more)
    decreases |ts|
  {
    hide PlaceOk, Fits, Refused, PlaceYield, NextPlace, StateAt, Feed, Drive;
    data' := data;
    if ts == [] {
      assert ts[..0] == [] && PlaceYield(p) + [] == PlaceYield(p);
      assert Stream(ts + more.tokens, more.ending) == more;
    } else {
      var t, rest := ts[0], ts[1..];
      FeedFits(p, data, t);
      DriveStep(StateAt(p.spot), data, t, Stream(rest + more.tokens, more.ending));
      assert ts + more.tokens == [t] + (rest + more.tokens);
      if Fits(p.spot, t) {
        var m := Feed(StateAt(p.spot), data, Some(t));
        NextPlaceYields(p, t);
        data' := ParserWalks(NextPlace(p, t), m.data, rest, more);
        var k := Fitting(NextPlace(p, t), rest);
        assert ts[..k + 1][0] == t && ts[..k + 1][1..] == rest[..k] && ts[..k + 1] == [t] + rest[..k];
        Assoc(PlaceYield(p), [t], rest[..k]);
      } else {
        assert ts[..0] == [] && PlaceYield(p) + [] == PlaceYield(p);
      }
    }
  }

  // ------------------------------------------------------------------ viability

  /** Some sentence starts with `ts`. */
  ghost predicate Viable(ts: seq<Token>) {
    exists s: Sentence :: SentenceOk(s) && ts <= Yield(s)
  }

  /** A token that fits, on the shortest way to the end of a sentence. */
  function Example(spot: Spot): Token {
    match WantedAt(spot)
    case Words(names) =>
      Keyword(match spot
              case AfterWith => "EMPTY"
              case InClauses(_, _, AfterExpect) => "EMPTY"
              case InClauses(_, _, AfterExit) => "WITH"
              case _ => names[0])
    case Number => Token(INTEGER, "0")
    case AnyText => Token(TEXT, "")
  }

  function Distance(spot: Spot): nat {
    match spot
    case BeforeRun => 4
    case AfterRun => 3
    case AfterWith => 2
    case AfterEmpty => 1
    case AfterInput => 1
    case InClauses(_, _, w) =>
      match w
      case NotStarted => 0
      case AfterExpect => 2
      case AfterIn => 2
      case AfterExit => 2
      case _ => 1
  }
  lemma ExampleFits(p: Place)
    requires !MayEnd(p.spot)
    ensures var t := Example(p.spot); Fits(p.spot, t) && Distance(NextPlace(p, t).spot) < Distance(p.spot)
  {
    ZeroIsANumber();
    hide Stoi;
  }

  lemma ZeroIsANumber()
    ensures Stoi("0").Ok?
  {
    assert DigitsValue("0") == 0 by { assert "0"[..0] == ""; }
    LeadingIs("", "0", IsSpace);
    assert "" + "0" == "0" && "0"[0..] == "0";
    LeadingIs("0", "", IsDigit);
    assert "0" + "" == "0" && "0"[..1] == "0";
  }

  /** Every place is on the way to the end of some sentence. */
  lemma {:induction false} PlaceIsViable(p: Place) returns (s: Sentence)
    requires PlaceOk(p)
    ensures SentenceOk(s) && PlaceYield(p) <= Yield(s)
    ensures MayEnd(p.spot) ==> PlaceYield(p) == Yield(s)
    decreases Distance(p.spot)
  {
    hide NextPlace, Example, Fits, ClauseOk, Distance;
    if MayEnd(p.spot) {
      s := Sentence(p.comments, p.spot.input, p.spot.clauses);
      assert ClausesYield(p.spot.clauses) + [] == ClausesYield(p.spot.clauses);
    } else {
      hide PlaceOk, PlaceYield, Yield, SentenceOk, MayEnd;
      ExampleFits(p);
      NextPlaceYields(p, Example(p.spot));
      s := PlaceIsViable(NextPlace(p, Example(p.spot)));
    }
  }

  lemma StartFacts()
    ensures PlaceOk(START) && PlaceYield(START) == [] && StateAt(START.spot) == RUN
  {
  }

  /** All tokens in the front of a sentence fit. */
  lemma AllFit(ts: seq<Token>, s: Sentence)
    requires SentenceOk(s) && ts <= Yield(s)
    ensures Fitting(START, ts) == |ts|
  {
    hide SentenceOk, Yield, Walk, PlaceYield, PlaceOk, StateAt, Refused, Fits, Fitting, Drive;
    StartFacts();
    SentenceParses(ts, s);
    var data := ParserWalks(START, NO_DATA, ts, Stream(Yield(s)[|ts|..], Eof));
  }

  lemma SentenceParses(ts: seq<Token>, s: Sentence)
    requires SentenceOk(s) && ts <= Yield(s)
    ensures Drive(RUN, NO_DATA, Stream(ts + Yield(s)[|ts|..], Eof)).Ok?
  {
    ParseSentence(s);
    hide SentenceOk, Yield, Drive, Meaning;
    assert ts + Yield(s)[|ts|..] == Yield(s);
  }

  /** The parser gets from the start to every place. */
  lemma ParserArrives(p: Place, more: Stream) returns (data: TestData)
    requires PlaceOk(p)
    ensures Drive(RUN, NO_DATA, Stream(PlaceYield(p) + more.tokens, more.ending)) == Drive(StateAt(p.spot), data, more)
  {
    StartFacts();
    hide SentenceOk, Yield, Walk, PlaceYield, PlaceOk, StateAt, Refused, Fits, Fitting, Drive, ParseList, Meaning;
    var ts := PlaceYield(p);
    var s := PlaceIsViable(p);
    WalkBack(p);
    AllFit(ts, s);
    data := ParserWalks(START, NO_DATA, ts, more);
    assert ts[..|ts|] == ts;
  }

  /** A token fits at a place exactly when some sentence goes on with it. */
  lemma FitsIsViable(p: Place, t: Token)
    requires PlaceOk(p)
    ensures Fits(p.spot, t) <==> Viable(PlaceYield(p) + [t])
  {
    hide NextPlace, Yield, SentenceOk, StateAt, Refused, Drive, PlaceYield, PlaceOk, Feed;
    if Fits(p.spot, t) {
      NextPlaceYields(p, t);
      var s := PlaceIsViable(NextPlace(p, t));
    }
    var ts := PlaceYield(p) + [t];
    if Viable(ts) {
      var s: Sentence :| SentenceOk(s) && ts <= Yield(s);
      var rest := Yield(s)[|ts|..];
      ParseSentence(s);
      var data := ParserArrives(p, Stream([t] + rest, Eof));
      assert PlaceYield(p) + ([t] + rest) == Yield(s);
      DriveStep(StateAt(p.spot), data, t, Stream(rest, Eof));
      FeedFits(p, data, t);
    }
  }

  // ------------------------------------------------------------------- theorems

  /** What is wanted at a place is exactly what sentences go on with there, and MayEnd says where they end. */
  lemma WantedIsExact(p: Place)
    requires PlaceOk(p)
    ensures forall t :: Viable(PlaceYield(p) + [t]) <==> Fits(p.spot, t)
    ensures WantedAt(p.spot).Words? ==>
              forall w :: w in WantedAt(p.spot).names <==> Viable(PlaceYield(p) + [Keyword(w)])
    ensures MayEnd(p.spot) <==> exists s: Sentence :: SentenceOk(s) && Yield(s) == PlaceYield(p)
  {
    hide Yield, SentenceOk, StateAt, Drive, PlaceYield, PlaceOk, WantedAt, Viable;
    forall t ensures Viable(PlaceYield(p) + [t]) <==> Fits(p.spot, t) {
      FitsIsViable(p, t);
    }
    var s := PlaceIsViable(p);
    forall s: Sentence | SentenceOk(s) && Yield(s) == PlaceYield(p)
      ensures MayEnd(p.spot)
    {
      ParseSentence(s);
      var data := ParserArrives(p, Stream([], Eof));
      assert PlaceYield(p) + [] == PlaceYield(p);
      FeedEnd(p.spot, data);
      DriveEnds(StateAt(p.spot), data, Stream([], Eof));
    }
  }

  /** A list that some sentence starts with ends at a place. */
  lemma ViableIsPlace(ts: seq<Token>)
    requires Viable(ts)
    ensures PlaceOk(Walk(START, ts)) && PlaceYield(Walk(START, ts)) == ts
  {
    StartFacts();
    hide SentenceOk, Yield, Walk, PlaceYield, PlaceOk, StateAt, Refused, Fits, Fitting, Drive;
    var s: Sentence :| SentenceOk(s) && ts <= Yield(s);
    AllFit(ts, s);
    var data := ParserWalks(START, NO_DATA, ts, Stream([], Eof));
    assert ts[..|ts|] == ts && [] + ts == ts;
  }

  /** How parsing ends for any tokens: the longest part in front that some sentence starts with ends at a place `p`. The
      token behind it, which no sentence goes on with, is refused with what is wanted there; without one, the lexer's
      exception leaves, or the end is missed, or the tokens are a sentence. */
  lemma WhichException(s: Stream) returns (p: Place, n: nat)
    ensures n <= |s.tokens| && PlaceOk(p) && PlaceYield(p) == s.tokens[..n]
    ensures n < |s.tokens| ==>
              && !Viable(s.tokens[..n + 1]) && !Fits(p.spot, s.tokens[n])
              && Drive(RUN, NO_DATA, s) == Err(Refused(p.spot, s.tokens[n]))
    ensures n == |s.tokens| && s.ending.Broken? ==> Drive(RUN, NO_DATA, s) == Err(UnexpectedCharacter(s.ending.at))
    ensures n == |s.tokens| && s.ending.Eof? && !MayEnd(p.spot) ==> Drive(RUN, NO_DATA, s) == Err(Missing(p.spot))
    ensures n == |s.tokens| && s.ending.Eof? && MayEnd(p.spot) ==> Drive(RUN, NO_DATA, s).Ok?
  {
    StartFacts();
    hide Walk, PlaceYield, PlaceOk, StateAt, Refused, Fits, Drive, Viable, MayEnd, Missing, Feed;
    var more := Stream([], s.ending);
    var data := ParserWalks(START, NO_DATA, s.tokens, more);
    assert Stream(s.tokens + more.tokens, more.ending) == s;
    n := Fitting(START, s.tokens);
    p := Walk(START, s.tokens[..n]);
    assert [] + s.tokens[..n] == s.tokens[..n];
    if n < |s.tokens| {
      FitsIsViable(p, s.tokens[n]);
      assert s.tokens[..n + 1] == s.tokens[..n] + [s.tokens[n]];
    } else {
      DriveEnds(StateAt(p.spot), data, more);
      FeedEnd(p.spot, data);
    }
  }
}
