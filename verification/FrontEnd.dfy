/** From a test file's text to its test data: what the whole front end accepts, and what it makes of it. */
module FrontEnd {
  import opened Text
  import opened Scanner
  import opened Words
  import opened Lexing
  import opened Parsing
  import opened Layout
  import opened Synchronisation
  import opened RoundTrip
  import opened Unrender
  import LineEndings

  /** `ParseTestFile` of src/main.cpp. */
  method ParseTestFile(testFileBuffer: string) returns (r: Result<TestData, Error>)
    ensures r == Parse(testFileBuffer)
  {
    hide Drive, Tokens;
    var lexer := new Lexer(testFileBuffer);
    var parser := new Parser(lexer);
    r := parser.Parse();
  }

  /** What `readFile` hands over is accepted with `data` exactly when it is a legal rendering of `data`. */
  lemma AcceptedLanguage(buffer: string, data: TestData)
    ensures Parse(buffer) == Ok(data) <==> exists l :: Legal(data, l) && Render(data, l) == buffer
  {
    hide Parse, Render, ClausesLegal, WholeComments, TextLegal, PrintClauses;
    if Parse(buffer) == Ok(data) {
      var data', l := ParsedIsRendered(buffer);
    }
    forall l | Legal(data, l) && Render(data, l) == buffer
      ensures Parse(buffer) == Ok(data)
    {
      RenderThenParse(data, l);
    }
  }

  // ------------------------------------------------------------ which data exist

  /** Data that some buffer stands for. */
  ghost predicate Representable(data: TestData) {
    NoExpectLine(data.input) && forall e <- data.expectations :: ExpectationOk(e)
  }

  ghost predicate ExpectationOk(e: Expectation) {
    match e
    case FullOutput(text) => NoExpectLine(text)
    case PartialOutput(text) => NoExpectLine(text)
    case ExitCode(code) => 0 <= code <= INT_MAX
    case _ => true
  }

  function Digit(n: nat): char
    requires n < 10
  {
    '0' + n as char
  }

  function Decimal(n: nat): string {
    if n < 10 then [Digit(n)] else Decimal(n / 10) + [Digit(n % 10)]
  }

  lemma {:induction false} DecimalIsDigits(n: nat)
    ensures Decimal(n) != "" && All(Decimal(n), IsDigit) && DigitsValue(Decimal(n)) == n
  {
    if n < 10 {
      assert Decimal(n)[..0] == "";
    } else {
      DecimalIsDigits(n / 10);
      var s := Decimal(n / 10);
      assert (s + [Digit(n % 10)])[..|s|] == s;
    }
  }

  /** What is printed in decimal is read back as the same number, if that fits an `int`. */
  lemma DecimalRoundTrip(n: nat)
    ensures Stoi(Decimal(n)) == if n <= INT_MAX then Ok(n) else Err(IntegerOutOfRange)
  {
    DecimalIsDigits(n);
    StoiOfDigits(Decimal(n));
  }

  /** Digits are those of their value in decimal, but for zeros in front. */
  lemma {:induction false} DigitsAreDecimal(s: string) returns (zeros: string)
    requires s != "" && All(s, IsDigit)
    ensures DigitsValue(s) >= 0 && s == zeros + Decimal(DigitsValue(s)) && forall c <- zeros :: c == '0'
  {
    var front, d := s[..|s| - 1], s[|s| - 1];
    assert s == front + [d];
    if front == "" {
      zeros := "";
      assert DigitsValue(s) == d as int - '0' as int;
    } else {
      var z := DigitsAreDecimal(front);
      zeros := if DigitsValue(front) == 0 then front else z;
      DecimalGrows(DigitsValue(front), d as int - '0' as int);
      assert z + "0" + [d] == z + ("0" + [d]);
      Assoc(z, Decimal(DigitsValue(front)), [d]);
    }
  }

  lemma DecimalGrows(n: nat, d: nat)
    requires d < 10
    ensures Decimal(10 * n + d) == if n == 0 then [Digit(d)] else Decimal(n) + [Digit(d)]
    ensures Decimal(0) == "0"
  {
  }

  /** `stoi` skips white space, takes a sign, and reads as many digits as there are. */
  lemma StoiReads(space: string, sign: string, digits: string, more: string)
    requires Spaces(space) && sign in {"", "+", "-"} && digits != "" && All(digits, IsDigit)
    requires more == "" || !IsDigit(more[0])
    ensures var v := if sign == "-" then -DigitsValue(digits) else DigitsValue(digits);
            Stoi(space + (sign + (digits + more)))
            == if -0x8000_0000 <= v <= 0x7FFF_FFFF then Ok(v) else Err(IntegerOutOfRange)
  {
    hide Leading, DigitsValue, SkipSpace, IsSpace;
    DigitsAreNoSigns(digits, more);
    AfterSign(space, sign, digits + more);
    LeadingIs(digits, more, IsDigit);
    assert (digits + more)[..|digits|] == digits;
    var t := sign + (digits + more);
    assert t[0] == if sign == "" then digits[0] else sign[0];
  }

  lemma DigitsAreNoSigns(digits: string, more: string)
    requires digits != "" && All(digits, IsDigit)
    ensures (digits + more)[0] == digits[0] && !IsSpace(digits[0]) && digits[0] != '+' && digits[0] != '-'
  {
  }

  lemma StoiRefuses(space: string, sign: string, more: string)
    requires Spaces(space) && sign in {"", "+", "-"} && (more == "" || !IsDigit(more[0]))
    requires sign == "" && more != "" ==> !IsSpace(more[0]) && more[0] != '+' && more[0] != '-'
    ensures Stoi(space + (sign + more)) == Err(InvalidInteger)
  {
    AfterSign(space, sign, more);
  }

  lemma AfterSign(space: string, sign: string, more: string)
    requires Spaces(space) && sign in {"", "+", "-"}
    requires sign == "" && more != "" ==> !IsSpace(more[0])
    ensures SkipSpace(space + (sign + more)) == sign + more && (sign != "" ==> (sign + more)[1..] == more)
    ensures sign == "" ==> sign + more == more
  {
    LeadingIs(space, sign + more, IsSpace);
    assert (space + (sign + more))[|space|..] == sign + more;
  }

  /** One line for each clause, and texts on lines of their own. */
  function PlainClause(e: Expectation): ClauseLayout {
    ClauseLayout("\n", " ", " ", " ", TextLayout("", true), if e.ExitCode? && e.code >= 0 then Decimal(e.code) else "0")
  }

  function PlainClauses(es: seq<Expectation>): (ls: seq<ClauseLayout>)
    ensures |ls| == |es|
  {
    if es == [] then [] else [PlainClause(es[0])] + PlainClauses(es[1..])
  }

  function Plain(data: TestData): FileLayout {
    FileLayout("", [], "\n", " ", false, " ", TextLayout("", true), PlainClauses(data.expectations), "")
  }

  lemma {:induction false} PlainClausesLegal(prev: Option<string>, es: seq<Expectation>)
    requires forall e <- es :: ExpectationOk(e)
    ensures ClausesLegal(prev, es, PlainClauses(es), "")
    decreases |es|
  {
    hide NoExpectLine, PrintTail, PrintClauses;
    if es != [] {
      var e := es[0];
      assert e in es;
      if e.ExitCode? {
        DecimalIsDigits(e.code);
      }
      PlainClausesLegal(TextOf(e), es[1..]);
      var ls := PlainClauses(es);
      assert ls[0] == PlainClause(e) && ls[1..] == PlainClauses(es[1..]);
    }
  }

  lemma PlainIsLegal(data: TestData)
    requires Representable(data)
    ensures Legal(data, Plain(data))
  {
    PlainClausesLegal(Some(data.input), data.expectations);
    hide ClausesLegal, PlainClauses, PrintClauses, NoExpectLine;
  }

  lemma {:induction false} LegalClausesOk(prev: Option<string>, es: seq<Expectation>, ls: seq<ClauseLayout>,
      tail: string)
    requires |ls| == |es| && ClausesLegal(prev, es, ls, tail)
    ensures forall e <- es :: ExpectationOk(e)
    decreases |es|
  {
    hide NoExpectLine, PrintTail, PrintClauses;
    if es != [] {
      LegalClausesOk(TextOf(es[0]), es[1..], ls[1..], tail);
      if es[0].ExitCode? {
        DigitsValueNonNegative(ls[0].digits);
      }
      assert es == [es[0]] + es[1..];
    }
  }

  lemma EmptyTextOk()
    ensures NoExpectLine("")
  {
  }

  /** The data that buffers stand for are exactly the representable ones, for every way the text may be laid out. */
  lemma ExactImage(data: TestData)
    ensures Representable(data) <==> exists buffer :: Parse(buffer) == Ok(data)
  {
    hide Parse, Render, ClausesLegal, PrintClauses, NoExpectLine;
    if Representable(data) {
      PlainIsLegal(data);
      RenderThenParse(data, Plain(data));
      assert Parse(Render(data, Plain(data))) == Ok(data);
    }
    forall buffer | Parse(buffer) == Ok(data)
      ensures Representable(data)
    {
      var data', l := ParsedIsRendered(buffer);
      EmptyTextOk();
      LegalClausesOk(if l.emptyInput then None else Some(data.input), data.expectations, l.clauses, l.tail);
    }
  }

  /** Parsing, writing out in any legal layout, and parsing again is parsing once; some legal layout there always is. */
  lemma ParseRenderParse(buffer: string, l: FileLayout)
    requires Parse(buffer).Ok?
    ensures Legal(Parse(buffer).value, Plain(Parse(buffer).value))
    ensures Legal(Parse(buffer).value, l) ==> Parse(Render(Parse(buffer).value, l)) == Parse(buffer)
  {
    hide Parse, Render, Legal, Representable;
    var data := Parse(buffer).value;
    ExactImage(data);
    PlainIsLegal(data);
    if Legal(data, l) {
      RenderThenParse(data, l);
    }
  }

  // ------------------------------------------------------------------ whole files

  /** A test file as it is on disk: `readFile` normalises its line ends, and `ParseTestFile` parses what it
      hands over. */
  method ReadTestFile(file: string) returns (r: Result<TestData, Error>)
    ensures r == Parse(LineEndings.Normalise(file))
  {
    hide Parse;
    var outputBuffer := new LineEndings.Buffer(file);
    LineEndings.ChangeLineEndingsToLf(outputBuffer);
    r := ParseTestFile(outputBuffer.chars);
  }

  /** A file is accepted with `data` exactly when it is a legal rendering of `data`, with each newline written in any
      style, as long as no CR-style newline is followed at once by an LF-style one. */
  lemma AcceptedFiles(file: string, data: TestData)
    ensures Parse(LineEndings.Normalise(file)) == Ok(data) <==>
            exists l, styles :: Legal(data, l) && |styles| == |Render(data, l)|
                && WrittenAs(file, Render(data, l), styles)
  {
    hide Parse, Render, ClausesLegal, WholeComments, TextLegal, PrintClauses, WrittenAs;
    var buffer := LineEndings.Normalise(file);
    if Parse(buffer) == Ok(data) {
      AcceptedLanguage(buffer, data);
      var l :| Legal(data, l) && Render(data, l) == buffer;
      WrittenInItsStyles(file);
      assert |LineEndings.StylesOf(file)| == |Render(data, l)|;
    }
    forall l, styles | Legal(data, l) && |styles| == |Render(data, l)| && WrittenAs(file, Render(data, l), styles)
      ensures Parse(buffer) == Ok(data)
    {
      WrittenReadsBack(file, Render(data, l), styles);
      AcceptedLanguage(buffer, data);
    }
  }

  /** `file` is the CR-free `text` with its newlines written in `styles`, none of which merge. */
  predicate WrittenAs(file: string, text: string, styles: seq<LineEndings.Style>)
    requires |styles| == |text|
  {
    '\r' !in text && !LineEndings.Merges(text, styles) && LineEndings.Encode(text, styles) == file
  }

  lemma WrittenInItsStyles(file: string)
    ensures |LineEndings.StylesOf(file)| == |LineEndings.Normalise(file)|
    ensures WrittenAs(file, LineEndings.Normalise(file), LineEndings.StylesOf(file))
  {
    LineEndings.EveryTextIsEncoded(file);
  }

  lemma WrittenReadsBack(file: string, text: string, styles: seq<LineEndings.Style>)
    requires |styles| == |text| && WrittenAs(file, text, styles)
    ensures LineEndings.Normalise(file) == text
  {
    LineEndings.AnyEncodingNormalisesBack(text, styles);
  }

  /** No text of the data has a CR. */
  predicate CrFree(data: TestData) {
    '\r' !in data.input && CrFreeClauses(data.expectations)
  }

  predicate CrFreeClauses(es: seq<Expectation>) {
    forall e <- es :: '\r' !in OrElse(TextOf(e), "")
  }

  /** The data that test files stand for are exactly the representable ones without a CR in their texts. */
  lemma FileImage(data: TestData)
    ensures Representable(data) && CrFree(data) <==> exists file :: Parse(LineEndings.Normalise(file)) == Ok(data)
  {
    hide Parse, Render, Legal, Representable, CrFree, Plain;
    if Representable(data) && CrFree(data) {
      PlainIsLegal(data);
      RenderThenParse(data, Plain(data));
      PlainCrFree(data);
      LineEndings.NormaliseKeepsCrFree(Render(data, Plain(data)));
      assert Parse(LineEndings.Normalise(Render(data, Plain(data)))) == Ok(data);
    }
    forall file | Parse(LineEndings.Normalise(file)) == Ok(data)
      ensures Representable(data) && CrFree(data)
    {
      var buffer := LineEndings.Normalise(file);
      ExactImage(data);
      var data', l := ParsedIsRendered(buffer);
      LineEndings.NormaliseRemovesCr(file);
      RenderedCrFree(data, l);
    }
  }

  lemma PlainCrFree(data: TestData)
    requires Representable(data) && CrFree(data)
    ensures |Plain(data).clauses| == |data.expectations| && '\r' !in Render(data, Plain(data))
  {
    PlainClausesCrFree(data.expectations);
    hide PrintClauses, CrFreeClauses, ExpectationOk, PlainClauses;
  }

  lemma {:induction false} PlainClausesCrFree(es: seq<Expectation>)
    requires CrFreeClauses(es) && forall e <- es :: ExpectationOk(e)
    ensures '\r' !in PrintClauses(es, PlainClauses(es), "")
    decreases |es|
  {
    if es != [] {
      var rest := PrintClauses(es[1..], PlainClauses(es[1..]), "");
      PlainClausesCrFree(es[1..]);
      assert es[0] in es && PlainClauses(es)[0] == PlainClause(es[0]) && PlainClauses(es)[1..] == PlainClauses(es[1..]);
      PlainTailCrFree(es[0], rest);
      hide PrintTail, PlainClause;
      assert PrintClauses(es, PlainClauses(es), "")
             == PlainClause(es[0]).sep
                 + ("EXPECT" + (PlainClause(es[0]).a + PrintTail(es[0], PlainClause(es[0]), rest)));
    }
  }

  lemma PlainTailCrFree(e: Expectation, rest: string)
    requires ExpectationOk(e) && '\r' !in OrElse(TextOf(e), "") && '\r' !in rest
    ensures '\r' !in PrintTail(e, PlainClause(e), rest)
    ensures PlainClause(e).sep == "\n" && PlainClause(e).a == " "
  {
    hide Decimal, NoExpectLine, PrintText;
    KeywordsCrFree();
    match e {
      case FullOutput(text) => PlainTextCrFree(text, rest);
      case PartialOutput(text) => PlainTextCrFree(text, rest);
      case ExitCode(code) => DecimalCrFree(code);
      case _ =>
    }
  }

  lemma PlainTextCrFree(text: string, rest: string)
    requires '\r' !in text && '\r' !in rest
    ensures '\r' !in PrintText(TextLayout("", true), text, rest)
  {
  }

  lemma KeywordsCrFree()
    ensures '\r' !in "EMPTY" && '\r' !in "OUTPUT" && '\r' !in "IN" && '\r' !in "EXIT" && '\r' !in "CODE"
    ensures '\r' !in "WITH" && '\r' !in "SUCCESS" && '\r' !in "FAILURE" && '\r' !in " "
  {
  }

  lemma DecimalCrFree(n: nat)
    ensures '\r' !in Decimal(n)
  {
    DecimalIsDigits(n);
    hide Decimal, DigitsValue;
    assert forall c <- Decimal(n) :: IsDigit(c);
  }

  /** Texts stand in what is rendered as they are. */
  lemma RenderedCrFree(data: TestData, l: FileLayout)
    requires Legal(data, l) && '\r' !in Render(data, l)
    ensures CrFree(data)
  {
    var rest := PrintClauses(data.expectations, l.clauses, l.tail);
    PiecesCrFree(l.comments, "RUN" + (l.a + ("WITH" + (l.b + PrintInput(data.input, l, rest)))));
    hide PrintPieces, PrintClauses, ClausesLegal, CrFreeClauses, WholeComments, NoExpectLine;
    ClausesCrFree(if l.emptyInput then None else Some(data.input), data.expectations, l.clauses, l.tail);
  }

  lemma {:induction false} PiecesCrFree(ps: seq<Piece>, rest: string)
    requires '\r' !in PrintPieces(ps, rest)
    ensures '\r' !in rest
    decreases |ps|
  {
    if ps != [] {
      PiecesCrFree(ps[1..], rest);
    }
  }

  lemma {:induction false} ClausesCrFree(prev: Option<string>, es: seq<Expectation>, ls: seq<ClauseLayout>,
      tail: string)
    requires |ls| == |es| && ClausesLegal(prev, es, ls, tail) && '\r' !in PrintClauses(es, ls, tail)
    ensures CrFreeClauses(es)
    decreases |es|
  {
    hide NoExpectLine, PrintTail, TailLegal;
    if es != [] {
      TailCrFree(es[0], ls[0], PrintClauses(es[1..], ls[1..], tail));
      ClausesCrFree(TextOf(es[0]), es[1..], ls[1..], tail);
      assert es == [es[0]] + es[1..];
    }
  }

  lemma TailCrFree(e: Expectation, l: ClauseLayout, rest: string)
    requires TailLegal(e, l, rest) && '\r' !in PrintTail(e, l, rest)
    ensures '\r' !in OrElse(TextOf(e), "") && '\r' !in rest
  {
    hide NoExpectLine;
  }

  /** A text with a line that starts with EXPECTED cannot be written in any file. */
  lemma ExpectedLineUnwritable(file: string)
    ensures Parse(LineEndings.Normalise(file)) != Ok(TestData("a\nEXPECTED b", []))
    ensures Parse(LineEndings.Normalise(file)) != Ok(TestData("", [FullOutput("EXPECTED")]))
  {
    hide Parse;
    assert OccursAt("\n" + "a\nEXPECTED b", "\nEXPECT", 2);
    FileImage(TestData("a\nEXPECTED b", []));
    var data := TestData("", [FullOutput("EXPECTED")]);
    assert OccursAt("\n" + "EXPECTED", "\nEXPECT", 0);
    assert data.expectations[0] in data.expectations && !ExpectationOk(data.expectations[0]);
    FileImage(data);
  }

  /** The style of a file's newlines makes no difference but for newlines that merge: a file is read as its text is,
      without the LF-style newlines that follow a CR-style one at once. Every file is written so that none merge. */
  lemma NewlineStyleIndependence(text: string, styles: seq<LineEndings.Style>)
    requires '\r' !in text && |styles| == |text|
    ensures Parse(LineEndings.Normalise(LineEndings.Encode(text, styles))) == Parse(LineEndings.Merged(text, styles))
    ensures LineEndings.Merged(text, styles) == text <==> !LineEndings.Merges(text, styles)
  {
    hide Parse;
    LineEndings.EncodingNormalises(text, styles);
    LineEndings.AnyEncodingNormalisesBack(text, styles);
  }
}
