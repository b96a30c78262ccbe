/** The lexer class of src/lexer/Lexer.cpp: a cursor and two state fields over a fixed buffer. */
module Lexing {
  import opened Text
  import opened Scanner

  datatype State =
    | READ_KEYWORDS_AND_MOVE_TO_READING_LINES
    | READ_KEYWORDS
    | READ_LINES_UP_TO_EXPECT
    | READ_INTEGER
    | READ_COMMENT

  /** What FindNextToken gives back: a token, none, or the exception with its character and position. */
  datatype Reply = Found(token: Token) | NoToken | Unexpected(character: char, position: nat)

  function ModeOf(state: State): Mode {
    match state
    case READ_KEYWORDS_AND_MOVE_TO_READING_LINES => KeywordsThenLines
    case READ_KEYWORDS => Keywords
    case READ_LINES_UP_TO_EXPECT => Lines
    case READ_INTEGER => Integer
    case READ_COMMENT => Keywords
  }

  /** A comment remembers the mode that opened it. Lines are read from the start of a line or at the end of
      the buffer. */
  predicate Sound(buffer: string, position: nat, last: State, current: State) {
    && position <= |buffer|
    && (current == READ_COMMENT ==> last != READ_COMMENT && last != READ_LINES_UP_TO_EXPECT)
    && (current == READ_LINES_UP_TO_EXPECT ==> 1 <= position && (position == |buffer| || buffer[position - 1] == '\n'))
  }

  function View(buffer: string, position: nat, last: State, current: State): Scan
    requires position <= |buffer|
  {
    Scan(buffer[position..], ModeOf(if current == READ_COMMENT then last else current), current == READ_COMMENT)
  }

  /** The reply and the new fields are the step that the scanner takes from `sc`. */
  predicate Agrees(buffer: string, sc: Scan, r: Reply, position: nat, last: State, current: State) {
    match Next(sc)
    case Tok(t, next) =>
      r == Found(t) && Sound(buffer, position, last, current) && View(buffer, position, last, current) == next
    case End =>
      && r == NoToken && Sound(buffer, position, last, current)
      && View(buffer, position, last, current) == sc.(rest := "")
    case Bad(at) =>
      && r.Unexpected? && r.position < |buffer| && r.character == buffer[r.position]
      && at == buffer[r.position..]
  }

  class Lexer {
    const inputBuffer: string
    var currentPosition: nat
    var lastState: State
    var currentState: State

    /** A comment remembers the mode that opened it; lines are read from the start of a line, or at the end of the
        buffer. */
    ghost predicate Valid()
      reads this
    {
      Sound(inputBuffer, currentPosition, lastState, currentState)
    }

    ghost function Abs(): Scan
      reads this
      requires Valid()
    {
      View(inputBuffer, currentPosition, lastState, currentState)
    }

    ghost function Remaining(): Stream
      reads this
      requires Valid()
    {
      Tokens(Abs())
    }

    constructor (buffer: string)
      ensures Valid() && inputBuffer == buffer
      ensures Abs() == AtFileStart(buffer)
    {
      inputBuffer := buffer;
      currentPosition := 0;
      lastState := READ_KEYWORDS_AND_MOVE_TO_READING_LINES;
      currentState := READ_KEYWORDS_AND_MOVE_TO_READING_LINES;
      new;
      assert inputBuffer[0..] == buffer;
    }

    /** The reply is the step that the scanner takes. After an exception nothing is promised about the lexer. */
    method FindNextToken() returns (r: Reply)
      requires Valid()
      modifies this
      ensures Agrees(inputBuffer, old(Abs()), r, currentPosition, lastState, currentState)
    {
      match currentState {
        case READ_KEYWORDS_AND_MOVE_TO_READING_LINES => r := HandleReadingKeywordsState(true);
        case READ_KEYWORDS => r := HandleReadingKeywordsState(false);
        case READ_LINES_UP_TO_EXPECT => r := HandleReadingLinesUpToExpectState();
        case READ_INTEGER => r := HandleReadingInteger();
        case READ_COMMENT => r := HandleReadingComment();
      }
    }

    method HandleReadingComment() returns (r: Reply)
      requires Valid() && currentState == READ_COMMENT
      modifies this
      ensures Agrees(inputBuffer, old(Abs()), r, currentPosition, lastState, currentState)
    {
      hide Word, AfterWord, SkipSpace, Leading;
      var word := ReadNextWord();
      if EndsWith(word, "*/") {
        SwitchStateTo(lastState);
      }
      r := if word != "" then Found(Token(COMMENT, word)) else NoToken;
    }

    method HandleReadingKeywordsState(moveToLines: bool) returns (r: Reply)
      requires Valid()
      requires currentState == if moveToLines then READ_KEYWORDS_AND_MOVE_TO_READING_LINES else READ_KEYWORDS
      modifies this
      ensures Agrees(inputBuffer, old(Abs()), r, currentPosition, lastState, currentState)
    {
      hide Word, AfterWord, SkipSpace, Leading, SkipBlanks;
      var word := ReadNextWord();
      var c := Classify(word);
      if moveToLines && c.TextIntroducer? {
        SwitchStateTo(READ_LINES_UP_TO_EXPECT);
        ConsumeWhiteCharactersWithoutNewLine();
        var bad := ConsumeNewLineCharacter();
        if bad.Unexpected? {
          return bad;
        }
      }
      if c.CodeWord? {
        SwitchStateTo(READ_INTEGER);
      }
      if c.ExpectWord? {
        SwitchStateTo(READ_KEYWORDS_AND_MOVE_TO_READING_LINES);
      }
      if c.EmptyWord? {
        SwitchStateTo(READ_KEYWORDS);
      } else if c.CommentOpening? {
        SwitchStateTo(READ_COMMENT);
      }
      r := if c.IsKeyword() then Found(Token(KEYWORD, word))
           else if c.CommentOpening? then Found(Token(COMMENT, word))
           else if word != "" then Found(Token(TEXT, word))
           else NoToken;
    }

    method HandleReadingLinesUpToExpectState() returns (r: Reply)
      requires Valid() && currentState == READ_LINES_UP_TO_EXPECT
      modifies this
      ensures Agrees(inputBuffer, old(Abs()), r, currentPosition, lastState, currentState)
    {
      var beginOfLines := currentPosition;
      var beginOfLinesWithNewLine := currentPosition - 1;
      var found := Find(inputBuffer, LINE_EXPECT, beginOfLinesWithNewLine);
      SearchFromLineStart(inputBuffer, beginOfLines);
      var endOfLines := if found.None? then |inputBuffer|
                        else if found.value == beginOfLinesWithNewLine then beginOfLines
                        else found.value;
      ghost var unread := inputBuffer[beginOfLines..];
      assert inputBuffer[beginOfLines..endOfLines] == unread[..endOfLines - beginOfLines];
      assert inputBuffer[endOfLines..] == unread[endOfLines - beginOfLines..];
      SwitchStateTo(READ_KEYWORDS_AND_MOVE_TO_READING_LINES);
      currentPosition := endOfLines;
      r := Found(Token(TEXT, inputBuffer[beginOfLines..endOfLines]));
    }

    method HandleReadingInteger() returns (r: Reply)
      requires Valid() && currentState == READ_INTEGER
      modifies this
      ensures Agrees(inputBuffer, old(Abs()), r, currentPosition, lastState, currentState)
    {
      hide Agrees, Next, View, Word, AfterWord;
      ghost var begin := currentPosition;
      var word := ReadNextWord();
      IntegerReplies(inputBuffer, begin, lastState, currentPosition, word);
      if StartsWith(word, "/*") {
        SwitchStateTo(READ_COMMENT);
        return Found(Token(COMMENT, word));
      } else if word != "" {
        var bad := FirstNonDigit(word, currentPosition - |word|);
        if bad.Unexpected? {
          IntegerRefused(inputBuffer, begin, lastState, currentPosition, word);
          return bad;
        }
        SwitchStateTo(READ_KEYWORDS_AND_MOVE_TO_READING_LINES);
        return Found(Token(INTEGER, word));
      } else {
        return NoToken;
      }
    }

    /** The loop of throw_when_word_is_not_a_number, src/lexer/Lexer.cpp:51-61. */
    method FirstNonDigit(word: string, position: nat) returns (r: Reply)
      ensures var d := Leading(word, IsDigit);
              r == if d < |word| then Unexpected(word[d], position + d) else NoToken
    {
      for i := 0 to |word|
        invariant Leading(word, IsDigit) >= i
      {
        LeadingAtLeast(word, IsDigit, i);
        if !IsDigit(word[i]) {
          return Unexpected(word[i], position + i);
        }
      }
      return NoToken;
    }

    method SwitchStateTo(newState: State)
      modifies `lastState, `currentState
      ensures lastState == old(currentState) && currentState == newState
    {
      lastState := currentState;
      currentState := newState;
    }

    method ReadNextWord() returns (word: string)
      requires currentPosition <= |inputBuffer|
      modifies `currentPosition
      ensures old(currentPosition) <= currentPosition <= |inputBuffer|
      ensures word == Word(old(inputBuffer[currentPosition..]))
      ensures inputBuffer[currentPosition..] == AfterWord(old(inputBuffer[currentPosition..]))
      ensures word == "" ==> currentPosition == |inputBuffer|
      ensures |word| <= currentPosition && word == inputBuffer[currentPosition - |word|..currentPosition]
    {
      hide Word, AfterWord, SkipSpace, Leading;
      var wordBegin := FindNextLetterPosition(currentPosition);
      var wordEnd := FindNextWhiteCharPosition(wordBegin);
      WordAt(inputBuffer, currentPosition);
      currentPosition := wordEnd;
      word := inputBuffer[wordBegin..wordEnd];
    }

    function FindNextLetterPosition(begin: nat): (r: nat)
      requires begin <= |inputBuffer|
      ensures begin <= r <= |inputBuffer|
      ensures All(inputBuffer[begin..r], IsSpace) && (r < |inputBuffer| ==> NotSpace(inputBuffer[r]))
    {
      LeadingStops(inputBuffer[begin..], IsSpace);
      begin + Leading(inputBuffer[begin..], IsSpace)
    }

    function FindNextWhiteCharPosition(begin: nat): (r: nat)
      requires begin <= |inputBuffer|
      ensures begin <= r <= |inputBuffer|
      ensures All(inputBuffer[begin..r], NotSpace) && (r < |inputBuffer| ==> IsSpace(inputBuffer[r]))
    {
      LeadingStops(inputBuffer[begin..], NotSpace);
      begin + Leading(inputBuffer[begin..], NotSpace)
    }

    method ConsumeWhiteCharactersWithoutNewLine()
      requires currentPosition <= |inputBuffer|
      modifies `currentPosition
      ensures old(currentPosition) <= currentPosition <= |inputBuffer|
      ensures inputBuffer[currentPosition..] == SkipBlanks(old(inputBuffer[currentPosition..]))
    {
      currentPosition := currentPosition + Leading(inputBuffer[currentPosition..], IsBlank);
    }

    method ConsumeNewLineCharacter() returns (r: Reply)
      requires currentPosition <= |inputBuffer|
      modifies `currentPosition
      ensures var p := old(currentPosition);
              if p == |inputBuffer| then r == NoToken && currentPosition == p
              else if inputBuffer[p] == '\n' then r == NoToken && currentPosition == p + 1
              else r == Unexpected(inputBuffer[p], p) && currentPosition == p
    {
      r := NoToken;
      if currentPosition < |inputBuffer| {
        var character := inputBuffer[currentPosition];
        if character == '\n' {
          currentPosition := currentPosition + 1;
        } else {
          r := Unexpected(character, currentPosition);
        }
      }
    }
  }

  // ------------------------------------------------------- positions and suffixes

  lemma NextInIntegerMode(sc: Scan)
    requires sc.mode == Integer && !sc.inComment
    ensures Next(sc) == if Word(sc.rest) == "" then End else NextInteger(Word(sc.rest), AfterWord(sc.rest))
  {
  }

  lemma LeadingAtLeast(s: string, p: char -> bool, i: nat)
    requires i < |s| && i <= Leading(s, p)
    ensures p(s[i]) ==> i + 1 <= Leading(s, p)
    ensures !p(s[i]) ==> i == Leading(s, p)
  {
    LeadingStops(s, p);
    hide Leading;
  }

  lemma RestOfWord(buffer: string, word: string, after: string, end: nat, d: nat)
    requires d < |word| <= end <= |buffer| && word == buffer[end - |word|..end] && after == buffer[end..]
    ensures word[d..] + after == buffer[end - |word| + d..] && word[d] == buffer[end - |word| + d]
  {
    var at := end - |word| + d;
    assert word[d..] == buffer[at..end];
    assert buffer[at..] == buffer[at..end] + buffer[end..];
  }

  /** The replies of the integer mode, `begin` being where it starts to read and `end` where the word ends. */
  lemma IntegerReplies(buffer: string, begin: nat, last: State, end: nat, word: string)
    requires begin <= end <= |buffer|
    requires word == Word(buffer[begin..]) && buffer[end..] == AfterWord(buffer[begin..])
    requires word == "" ==> end == |buffer|
    ensures var sc := View(buffer, begin, last, READ_INTEGER);
            && (word == "" ==> Agrees(buffer, sc, NoToken, end, last, READ_INTEGER))
            && (StartsWith(word, "/*") ==>
                  Agrees(buffer, sc, Found(Token(COMMENT, word)), end, READ_INTEGER, READ_COMMENT))
            && (word != "" && !StartsWith(word, "/*") && Leading(word, IsDigit) == |word| ==>
                  Agrees(buffer, sc, Found(Token(INTEGER, word)), end, READ_INTEGER,
                      READ_KEYWORDS_AND_MOVE_TO_READING_LINES))
  {
    NextInIntegerMode(View(buffer, begin, last, READ_INTEGER));
    hide Next, Word, AfterWord, Leading;
  }

  lemma IntegerRefused(buffer: string, begin: nat, last: State, end: nat, word: string)
    requires begin <= end <= |buffer| && |word| <= end && word == buffer[end - |word|..end]
    requires word == Word(buffer[begin..]) && buffer[end..] == AfterWord(buffer[begin..])
    requires Leading(word, IsDigit) < |word| && !StartsWith(word, "/*")
    ensures var d := Leading(word, IsDigit);
            Agrees(buffer, View(buffer, begin, last, READ_INTEGER),
                   Unexpected(word[d], end - |word| + d), end, last, READ_INTEGER)
  {
    hide Next, NextInteger, Sound, Word, AfterWord, Leading, StartsWith;
    NextRefuses(View(buffer, begin, last, READ_INTEGER), word, buffer[end..]);
    RestOfWord(buffer, word, buffer[end..], end, Leading(word, IsDigit));
  }

  lemma NextRefuses(sc: Scan, word: string, after: string)
    requires sc.mode == Integer && !sc.inComment && word == Word(sc.rest) && after == AfterWord(sc.rest)
    requires Leading(word, IsDigit) < |word| && !StartsWith(word, "/*")
    ensures Next(sc) == Bad(word[Leading(word, IsDigit)..] + after)
  {
    NextInIntegerMode(sc);
    hide Next, Word, AfterWord, Leading;
  }

  lemma WordAt(buffer: string, begin: nat)
    requires begin <= |buffer|
    ensures var wordBegin := begin + Leading(buffer[begin..], IsSpace);
            var wordEnd := wordBegin + Leading(buffer[wordBegin..], NotSpace);
            && Word(buffer[begin..]) == buffer[wordBegin..wordEnd]
            && AfterWord(buffer[begin..]) == buffer[wordEnd..]
  {
    hide Leading;
    var n := Leading(buffer[begin..], IsSpace);
    Resliced(buffer, begin, n);
    Resliced(buffer, begin + n, Leading(buffer[begin + n..], NotSpace));
  }

  lemma Resliced(s: string, from: nat, n: nat)
    requires from + n <= |s|
    ensures s[from..][..n] == s[from..from + n] && s[from..][n..] == s[from + n..]
  {
  }

  lemma {:induction false} FindInSuffix(s: string, what: string, from: nat, pos: nat)
    requires from + pos <= |s|
    ensures Find(s, what, from + pos) ==
            match Find(s[from..], what, pos) case None => None case Some(at) => Some(from + at)
    decreases |s| - pos
  {
    var u := s[from..];
    if pos + |what| <= |u| {
      assert u[pos..pos + |what|] == s[from + pos..from + pos + |what|];
      if !OccursAt(u, what, pos) && pos < |u| {
        FindInSuffix(s, what, from, pos + 1);
      }
    }
  }

  /** Searching from one byte before the lines is searching the lines with a newline put in front. */
  lemma SearchFromLineStart(buffer: string, begin: nat)
    requires 1 <= begin <= |buffer| && (begin == |buffer| || buffer[begin - 1] == '\n')
    ensures begin + LinesLength(buffer[begin..]) ==
            match Find(buffer, LINE_EXPECT, begin - 1)
            case None => |buffer|
            case Some(at) => if at == begin - 1 then begin else at
  {
    if begin < |buffer| {
      assert "\n" + buffer[begin..] == buffer[begin - 1..];
      FindInSuffix(buffer, LINE_EXPECT, begin - 1, 0);
      hide Find;
    } else {
      assert "\n" + buffer[begin..] == "\n";
      TooShort("\n", LINE_EXPECT, 0);
      TooShort(buffer, LINE_EXPECT, begin - 1);
      hide Find;
    }
  }

  lemma TooShort(s: string, what: string, pos: nat)
    ensures |s| < pos + |what| ==> Find(s, what, pos) == None
  {
  }
}
