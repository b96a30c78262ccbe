/**
 What the lexer of src/lexer/Lexer.cpp means, stated on the text that is still unread.
 The class in Lexer.dfy works on a cursor into a fixed buffer and is proved to
 refine this. */
module Scanner {
  import opened Text

  datatype TokenKind = KEYWORD | TEXT | INTEGER | COMMENT

  datatype Token = Token(kind: TokenKind, value: string)

  /** The four reading modes. Being inside a comment is a separate flag: a comment suspends a mode. */
  datatype Mode = KeywordsThenLines | Keywords | Lines | Integer

  datatype Scan = Scan(rest: string, mode: Mode, inComment: bool)

  /** One call of FindNextToken: a token and what is then unread, no token, or an unexpected character
      (`at` is the unread text from that character on). */
  datatype Lexed = Tok(token: Token, next: Scan) | End | Bad(at: string)

  // ---------------------------------------------------------------- characters

  predicate IsSpace(c: char) { c == ' ' || '\t' <= c <= '\r' }
  predicate NotSpace(c: char) { !IsSpace(c) }
  predicate IsBlank(c: char) { c == ' ' || c == '\t' }
  predicate IsDigit(c: char) { '0' <= c <= '9' }

  // --------------------------------------------------------------------- words

  function SkipSpace(s: string): string { s[Leading(s, IsSpace)..] }

  function Word(s: string): string {
    var t := SkipSpace(s); t[..Leading(t, NotSpace)]
  }

  function AfterWord(s: string): (r: string)
    ensures |r| + |Word(s)| <= |s|
  {
    var t := SkipSpace(s); t[Leading(t, NotSpace)..]
  }

  function SkipBlanks(s: string): string { s[Leading(s, IsBlank)..] }

  /** The words the keyword modes tell apart. */
  datatype WordClass =
    | TextIntroducer | CodeWord | ExpectWord | EmptyWord | OtherKeyword | CommentOpening | OtherWord | NoWord
  {
    predicate IsKeyword() {
      TextIntroducer? || CodeWord? || ExpectWord? || EmptyWord? || OtherKeyword?
    }
  }

  function Classify(word: string): WordClass {
    if word == "" then NoWord
    else if word == "INPUT" || word == "OUTPUT" then TextIntroducer
    else if word == "CODE" then CodeWord
    else if word == "EXPECT" then ExpectWord
    else if word == "EMPTY" then EmptyWord
    else if word == "RUN" || word == "WITH" || word == "EXIT" || word == "IN" || word == "SUCCESS" || word == "FAILURE"
        then OtherKeyword
    else if StartsWith(word, "/*") then CommentOpening
    else OtherWord
  }

  function ModeAfter(mode: Mode, c: WordClass): Mode {
    match c
    case CodeWord => Integer
    case ExpectWord => KeywordsThenLines
    case EmptyWord => Keywords
    case _ => mode
  }

  const LINE_EXPECT := "\nEXPECT"

  /** How much of `s`, which starts a line, comes before the first line that starts with EXPECT. */
  function LinesLength(s: string): (n: nat)
    ensures n <= |s|
  {
    match Find("\n" + s, LINE_EXPECT, 0)
    case None => |s|
    case Some(at) => if at == 0 then 0 else at - 1
  }

  // ------------------------------------------------------------------- one step

  /** Strictly smaller after every token; see TokenBound. */
  function Potential(sc: Scan): nat {
    |sc.rest| + if sc.mode == Lines && !sc.inComment then 1 else 0
  }

  function Next(sc: Scan): (r: Lexed)
    ensures r.Tok? ==> Potential(r.next) < Potential(sc)
    ensures r.Bad? ==> r.at != "" && |r.at| <= |sc.rest|
  {
    if sc.mode == Lines && !sc.inComment then
      var n := LinesLength(sc.rest);
      Tok(Token(TEXT, sc.rest[..n]), Scan(sc.rest[n..], KeywordsThenLines, false))
    else
      NextWord(sc, Word(sc.rest), AfterWord(sc.rest))
  }

  function NextWord(sc: Scan, word: string, after: string): (r: Lexed)
    requires |word| + |after| <= |sc.rest| && (sc.mode == Lines ==> sc.inComment)
    ensures r.Tok? ==> Potential(r.next) < Potential(sc)
    ensures r.Bad? ==> r.at != "" && |r.at| <= |sc.rest|
  {
    if word == "" then End
    else if sc.inComment then
      Tok(Token(COMMENT, word), Scan(after, sc.mode, !EndsWith(word, "*/")))
    else if sc.mode == Integer then
      NextInteger(word, after)
    else
      var c := Classify(word);
      if c.TextIntroducer? && sc.mode == KeywordsThenLines then
        LinesAfter(word, SkipBlanks(after))
      else if c.IsKeyword() then
        Tok(Token(KEYWORD, word), Scan(after, ModeAfter(sc.mode, c), false))
      else if c.CommentOpening? then
        Tok(Token(COMMENT, word), Scan(after, sc.mode, true))
      else
        Tok(Token(TEXT, word), Scan(after, sc.mode, false))
  }

  function NextInteger(word: string, after: string): (r: Lexed)
    ensures r.Bad? ==> r.at != "" && |r.at| <= |word| + |after|
  {
    if StartsWith(word, "/*") then Tok(Token(COMMENT, word), Scan(after, Integer, true))
    else
      var d := Leading(word, IsDigit);
      if d < |word| then Bad(word[d..] + after)
      else Tok(Token(INTEGER, word), Scan(after, KeywordsThenLines, false))
  }

  /** After a text-introducing keyword only blanks may stand before the end of the line. */
  function LinesAfter(word: string, s: string): Lexed {
    if s == "" then Tok(Token(KEYWORD, word), Scan("", Lines, false))
    else if s[0] == '\n' then Tok(Token(KEYWORD, word), Scan(s[1..], Lines, false))
    else Bad(s)
  }

  // ------------------------------------------------------------------ whole text

  datatype Ending = Eof | Broken(at: string)

  datatype Stream = Stream(tokens: seq<Token>, ending: Ending)

  /** All the tokens still to come. There are no more of them than characters, but for one pending text. */
  function Tokens(sc: Scan): (s: Stream)
    ensures |s.tokens| <= Potential(sc)
    decreases Potential(sc)
  {
    match Next(sc)
    case End => Stream([], Eof)
    case Bad(at) => Stream([], Broken(at))
    case Tok(t, next) => var s := Tokens(next); Stream([t] + s.tokens, s.ending)
  }

  lemma TokensStep(sc: Scan)
    requires Next(sc).Tok?
    ensures Tokens(sc) == Stream([Next(sc).token] + Tokens(Next(sc).next).tokens, Tokens(Next(sc).next).ending)
  {
    hide Next;
  }

  function AtFileStart(buffer: string): Scan { Scan(buffer, KeywordsThenLines, false) }
}
