/** Test files as they may be laid out: the renderer that the program itself does not have. */
module Layout {
  import opened Text
  import opened Scanner
  import opened Words
  import opened Parsing

  predicate Gapped(s: string) { s != "" && Spaces(s) }

  // ------------------------------------------------------------------- comments

  /** A word of a comment and the white space behind it. */
  datatype Piece = Piece(word: string, gap: string)

  /** Whole comments only. One starts with a word that begins with the opening mark, and lasts
      until the first later word that ends with the closing mark. */
  predicate WholeComments(ps: seq<Piece>, inside: bool) {
    if ps == [] then !inside
    else
      && IsWord(ps[0].word) && Gapped(ps[0].gap)
      && (inside || StartsWith(ps[0].word, "/*"))
      && WholeComments(ps[1..], !inside || !EndsWith(ps[0].word, "*/"))
  }

  function PrintPieces(ps: seq<Piece>, rest: string): string {
    if ps == [] then rest else ps[0].word + (ps[0].gap + PrintPieces(ps[1..], rest))
  }

  // ---------------------------------------------------------------------- texts

  /** Between a text-introducing keyword and its text: blanks and the end of the line, which only an empty text
      at the end of the file can do without. */
  datatype TextLayout = TextLayout(blanks: string, eol: bool)

  function PrintText(l: TextLayout, text: string, rest: string): string {
    l.blanks + (if l.eol then "\n" + (text + rest) else "")
  }

  ghost predicate TextLegal(l: TextLayout, text: string, rest: string) {
    All(l.blanks, IsBlank) && NoExpectLine(text) && (l.eol || (text == "" && rest == ""))
  }

  // -------------------------------------------------------------------- clauses

  /** `sep` stands before EXPECT, and `a`, `b`, `c` before the words that follow it. */
  datatype ClauseLayout = ClauseLayout(sep: string, a: string, b: string, c: string, text: TextLayout, digits: string)

  function TextOf(e: Expectation): Option<string> {
    match e
    case FullOutput(text) => Some(text)
    case PartialOutput(text) => Some(text)
    case _ => None
  }

  function PrintTail(e: Expectation, l: ClauseLayout, rest: string): string {
    match e
    case EmptyOutput => "EMPTY" + (l.b + ("OUTPUT" + rest))
    case FullOutput(text) => "OUTPUT" + PrintText(l.text, text, rest)
    case PartialOutput(text) => "IN" + (l.b + ("OUTPUT" + PrintText(l.text, text, rest)))
    case ExitCode(_) => "EXIT" + (l.b + ("CODE" + (l.c + (l.digits + rest))))
    case SuccessfulExit => "EXIT" + (l.b + ("WITH" + (l.c + ("SUCCESS" + rest))))
    case FailureExit => "EXIT" + (l.b + ("WITH" + (l.c + ("FAILURE" + rest))))
  }

  function PrintClauses(es: seq<Expectation>, ls: seq<ClauseLayout>, tail: string): string
    requires |ls| == |es|
  {
    if es == [] then tail
    else ls[0].sep + ("EXPECT" + (ls[0].a + PrintTail(es[0], ls[0], PrintClauses(es[1..], ls[1..], tail))))
  }

  /** White space behind a word; behind a text one newline, which an empty text need not have of its own. */
  predicate Separates(prev: Option<string>, sep: string) {
    match prev
    case None => Gapped(sep)
    case Some(text) => sep == "\n" || (sep == "" && text == "")
  }

  predicate Digits(s: string, code: int) {
    s != "" && All(s, IsDigit) && DigitsValue(s) == code <= INT_MAX
  }

  ghost predicate TailLegal(e: Expectation, l: ClauseLayout, rest: string) {
    && Gapped(l.b) && Gapped(l.c)
    && match e {
         case FullOutput(text) => TextLegal(l.text, text, rest)
         case PartialOutput(text) => TextLegal(l.text, text, rest)
         case ExitCode(code) => Digits(l.digits, code)
         case _ => true
       }
  }

  ghost predicate ClausesLegal(prev: Option<string>, es: seq<Expectation>, ls: seq<ClauseLayout>, tail: string)
    requires |ls| == |es|
    decreases |es|
  {
    if es == [] then (if prev == None then Spaces(tail) else tail == "")
    else
      && Separates(prev, ls[0].sep) && Gapped(ls[0].a)
      && TailLegal(es[0], ls[0], PrintClauses(es[1..], ls[1..], tail))
      && ClausesLegal(TextOf(es[0]), es[1..], ls[1..], tail)
  }

  // ----------------------------------------------------------------- whole files

  /** `emptyInput` chooses EMPTY INPUT over INPUT with an empty text. */
  datatype FileLayout = FileLayout(
    lead: string, comments: seq<Piece>, a: string, b: string, emptyInput: bool, c: string, text: TextLayout,
    clauses: seq<ClauseLayout>, tail: string)

  function PrintInput(input: string, l: FileLayout, rest: string): string {
    if l.emptyInput then "EMPTY" + (l.c + ("INPUT" + rest)) else "INPUT" + PrintText(l.text, input, rest)
  }

  function Render(data: TestData, l: FileLayout): string
    requires |l.clauses| == |data.expectations|
  {
    l.lead + PrintPieces(l.comments,
      "RUN" + (l.a + ("WITH" + (l.b + PrintInput(data.input, l, PrintClauses(data.expectations, l.clauses, l.tail))))))
  }

  ghost predicate Legal(data: TestData, l: FileLayout) {
    && |l.clauses| == |data.expectations|
    && Spaces(l.lead) && WholeComments(l.comments, false) && Gapped(l.a) && Gapped(l.b) && Gapped(l.c)
    && (if l.emptyInput then data.input == ""
        else TextLegal(l.text, data.input, PrintClauses(data.expectations, l.clauses, l.tail)))
    && ClausesLegal(if l.emptyInput then None else Some(data.input), data.expectations, l.clauses, l.tail)
  }

  // ------------------------------------------------------------- what may follow

  predicate Follows(prev: Option<string>, rest: string) {
    match prev
    case None => EndsWord(rest)
    case Some(text) => EndsText(text, rest)
  }

  lemma ClausesFollow(prev: Option<string>, es: seq<Expectation>, ls: seq<ClauseLayout>, tail: string)
    requires |ls| == |es| && ClausesLegal(prev, es, ls, tail)
    ensures Follows(prev, PrintClauses(es, ls, tail))
  {
    if es != [] {
      var rest := ls[0].a + PrintTail(es[0], ls[0], PrintClauses(es[1..], ls[1..], tail));
      StartsExpect(ls[0].sep, rest);
    }
  }

  lemma StartsExpect(sep: string, rest: string)
    ensures sep == "\n" ==> LINE_EXPECT <= sep + ("EXPECT" + rest)
    ensures sep == "" ==> "EXPECT" <= sep + ("EXPECT" + rest)
    ensures Gapped(sep) ==> EndsWord(sep + ("EXPECT" + rest))
  {
    if sep == "\n" {
      assert (sep + ("EXPECT" + rest))[..7] == LINE_EXPECT;
    }
  }
}
