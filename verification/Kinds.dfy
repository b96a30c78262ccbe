/** Tokens by their spelling: of what kind each is, how it changes the mode, and which character is refused. */
module Kinds {
  import opened Text
  import opened Scanner
  import opened Words

  // ------------------------------------------------------------------ characters

  /** The white characters are the six of the C locale, and the digits are ten. */
  lemma CharacterClasses(c: char)
    ensures IsSpace(c) <==> c in {' ', '\t', '\n', 11 as char, 12 as char, '\r'}
    ensures IsBlank(c) <==> c in {' ', '\t'}
    ensures IsDigit(c) <==> c in "0123456789"
  {
    var digits := "0123456789";
    if IsDigit(c) {
      assert digits[c as int - '0' as int] == c;
    }
  }

  // ----------------------------------------------------------------------- kinds

  const KEYWORDS :=
    {"RUN", "WITH", "INPUT", "EXPECT", "OUTPUT", "EXIT", "CODE", "IN", "SUCCESS", "FAILURE", "EMPTY"}

  /** How the next characters will be read. */
  datatype Reading = Reading(mode: Mode, inComment: bool)

  /** The kind of a token that is read so and spelt so. */
  function KindOf(r: Reading, value: string): TokenKind {
    if r.inComment then COMMENT
    else if r.mode == Lines then TEXT
    else if "/*" <= value then COMMENT
    else if r.mode == Integer then INTEGER
    else if value in KEYWORDS then KEYWORD
    else TEXT
  }

  /** How reading goes on after such a token. */
  function Onto(r: Reading, value: string): Reading {
    if r.inComment then r.(inComment := !EndsWith(value, "*/"))
    else if r.mode == Lines then Reading(KeywordsThenLines, false)
    else if "/*" <= value then r.(inComment := true)
    else if r.mode == Integer then Reading(KeywordsThenLines, false)
    else if value == "CODE" then Reading(Integer, false)
    else if value == "EXPECT" then Reading(KeywordsThenLines, false)
    else if value == "EMPTY" then Reading(Keywords, false)
    else if r.mode == KeywordsThenLines && value in {"INPUT", "OUTPUT"} then Reading(Lines, false)
    else r
  }

  function ReadingOf(sc: Scan): Reading { Reading(sc.mode, sc.inComment) }

  lemma WordKinds(word: string)
    ensures Classify(word).IsKeyword() <==> word in KEYWORDS
    ensures Classify(word).TextIntroducer? <==> word in {"INPUT", "OUTPUT"}
    ensures Classify(word).CodeWord? <==> word == "CODE"
    ensures Classify(word).ExpectWord? <==> word == "EXPECT"
    ensures Classify(word).EmptyWord? <==> word == "EMPTY"
    ensures Classify(word).CommentOpening? <==> "/*" <= word
  {
    if "/*" <= word {
      assert word[0] == '/';
      assert forall k <- KEYWORDS :: k[0] != '/';
    }
  }

  /** The kind of a token, and what is read next, are settled by its spelling. An integer is made of digits. */
  lemma TokenBySpelling(sc: Scan)
    requires Next(sc).Tok?
    ensures var t, next := Next(sc).token, Next(sc).next;
            && t.kind == KindOf(ReadingOf(sc), t.value) && ReadingOf(next) == Onto(ReadingOf(sc), t.value)
            && (t.kind == INTEGER ==> t.value != "" && All(t.value, IsDigit))
  {
    var word := Word(sc.rest);
    WordKinds(word);
    LeadingStops(word, IsDigit);
    hide Word, AfterWord, SkipBlanks, Leading, Classify, KEYWORDS, LinesLength;
  }

  function ReadingAfter(r: Reading, ts: seq<Token>): Reading
    decreases |ts|
  {
    if ts == [] then r else ReadingAfter(Onto(r, ts[0].value), ts[1..])
  }

  /** So the kinds of all tokens follow from how they are spelt, one after another. */
  lemma {:induction false} TokensBySpelling(sc: Scan, i: nat)
    requires i < |Tokens(sc).tokens|
    ensures var ts := Tokens(sc).tokens; ts[i].kind == KindOf(ReadingAfter(ReadingOf(sc), ts[..i]), ts[i].value)
    decreases i
  {
    hide Next, KindOf, Onto, Tokens;
    FirstToken(sc);
    TokenBySpelling(sc);
    var ts, rest := Tokens(sc).tokens, Tokens(Next(sc).next).tokens;
    if i > 0 {
      TokensBySpelling(Next(sc).next, i - 1);
      assert ts[..i][0] == ts[0] && ts[..i][1..] == rest[..i - 1];
    } else {
      assert ts[..0] == [];
    }
  }

  lemma FirstToken(sc: Scan)
    requires Tokens(sc).tokens != []
    ensures Next(sc).Tok? && Tokens(sc).tokens == [Next(sc).token] + Tokens(Next(sc).next).tokens
  {
    hide Next;
  }

  // ---------------------------------------------------------------- refused characters

  /** `at` starts with a character that cannot come there: the first behind the blanks behind INPUT or OUTPUT that does
      not end the line, or the first character of a word that is no digit where the exit code is read. */
  predicate RefusedAfter(mode: Mode, word: string, skipped: string, at: string) {
    && at != ""
    && match mode
       case KeywordsThenLines =>
         word in {"INPUT", "OUTPUT"} && All(skipped, IsBlank) && !IsBlank(at[0]) && at[0] != '\n'
         && (skipped == "" ==> IsSpace(at[0]))
       case Integer =>
         word == "" && All(skipped, IsDigit) && !IsDigit(at[0]) && !IsSpace(at[0]) && !("/*" <= skipped + at)
       case _ => false
  }

  lemma LineRefused(sc: Scan, word: string, after: string) returns (skipped: string)
    requires |word| + |after| <= |sc.rest| && !sc.inComment && (sc.mode == KeywordsThenLines || sc.mode == Keywords)
    requires NextWord(sc, word, after).Bad? && EndsWord(after)
    ensures var at := NextWord(sc, word, after).at;
            after == skipped + at && RefusedAfter(sc.mode, word, skipped, at)
  {
    SplitLeading(after, IsBlank);
    WordKinds(word);
    hide Leading, Classify, KEYWORDS, IsSpace, IsBlank;
    skipped := after[..|after| - |SkipBlanks(after)|];
  }

  lemma IntegerRefused(word: string, after: string) returns (skipped: string)
    requires NextInteger(word, after).Bad? && IsWord(word) && EndsWord(after)
    ensures var at := NextInteger(word, after).at;
            word + after == skipped + at && RefusedAfter(Integer, "", skipped, at)
  {
    SplitLeading(word, IsDigit);
    var d := Leading(word, IsDigit);
    skipped := word[..d];
    hide Leading;
    var at := word[d..] + after;
    assert word + after == skipped + at by { Assoc(skipped, word[d..], after); }
    assert at[0] == word[d];
    NoCommentStart(word, after);
  }

  lemma NoCommentStart(word: string, after: string)
    requires IsWord(word) && EndsWord(after)
    ensures "/*" <= word + after <==> "/*" <= word
  {
    if "/*" <= word + after {
      assert (word + after)[0] == '/' && (word + after)[1] == '*';
      if |word| == 1 {
        assert false;
      }
    }
  }

  /** A refused character is one that cannot come where it stands. */
  lemma RefusalIsFound(sc: Scan) returns (gap: string, word: string, skipped: string)
    requires Next(sc).Bad?
    ensures Spaces(gap) && sc.rest == gap + (word + (skipped + Next(sc).at))
    ensures !sc.inComment && RefusedAfter(sc.mode, word, skipped, Next(sc).at)
  {
    var w, after := Word(sc.rest), AfterWord(sc.rest);
    SplitWord(sc.rest);
    gap := Gap(sc.rest);
    hide Word, AfterWord, Gap, RefusedAfter, EndsWord;
    if sc.mode == Integer {
      word := "";
      skipped := IntegerRefused(w, after);
      hide NextInteger;
      assert "" + (skipped + Next(sc).at) == skipped + Next(sc).at;
    } else {
      word := w;
      skipped := LineRefused(sc, w, after);
    }
  }

  /** And the first such character is refused. */
  lemma RefusalComes(sc: Scan, gap: string, word: string, skipped: string, at: string)
    requires !sc.inComment && Spaces(gap) && RefusedAfter(sc.mode, word, skipped, at)
    requires sc.rest == gap + (word + (skipped + at))
    ensures Next(sc) == Bad(at)
  {
    hide RefusedAfter, Next, Spaces;
    match sc.mode {
      case Integer => RefusalOfInteger(sc, gap, word, skipped, at);
      case KeywordsThenLines => RefusalOfLine(sc, gap, word, skipped, at);
      case _ => NoOtherRefusal(sc.mode, word, skipped, at);
    }
  }

  lemma NoOtherRefusal(mode: Mode, word: string, skipped: string, at: string)
    ensures RefusedAfter(mode, word, skipped, at) ==> mode == Integer || mode == KeywordsThenLines
  {
  }

  lemma RefusalOfLine(sc: Scan, gap: string, word: string, skipped: string, at: string)
    requires sc.mode == KeywordsThenLines && !sc.inComment && Spaces(gap) && RefusedAfter(sc.mode, word, skipped, at)
    requires sc.rest == gap + (word + (skipped + at))
    ensures Next(sc) == Bad(at)
  {
    WordKinds(word);
    IntroducersAreWords();
    ReadWord(gap, word, skipped + at);
    LeadingIs(skipped, at, IsBlank);
    assert (skipped + at)[|skipped|..] == at;
    hide Word, AfterWord, Leading, Classify, Spaces, KEYWORDS;
  }

  lemma RefusalOfInteger(sc: Scan, gap: string, word: string, skipped: string, at: string)
    requires sc.mode == Integer && !sc.inComment && Spaces(gap) && RefusedAfter(sc.mode, word, skipped, at)
    requires sc.rest == gap + (word + (skipped + at))
    ensures Next(sc) == Bad(at)
  {
    SplitLeading(at, NotSpace);
    var k := Leading(at, NotSpace);
    var x, after := at[..k], at[k..];
    hide Leading;
    assert word + (skipped + at) == skipped + at == skipped + x + after;
    DigitsAreNoSpace(skipped, x, at);
    IntegerIsRefused(skipped, x, after);
    ReadWord(gap, skipped + x, after);
    assert x + after == at;
    hide Word, AfterWord, NextInteger, Spaces;
    assert NextWord(sc, skipped + x, after) == NextInteger(skipped + x, after);
  }

  lemma IntegerIsRefused(skipped: string, x: string, after: string)
    requires All(skipped, IsDigit) && x != "" && !IsDigit(x[0]) && IsWord(skipped + x) && EndsWord(after)
    requires !("/*" <= skipped + x + after)
    ensures NextInteger(skipped + x, after) == Bad(x + after)
  {
    LeadingIs(skipped, x, IsDigit);
    NoCommentStart(skipped + x, after);
    assert (skipped + x)[|skipped|..] == x;
    hide Leading;
  }

  lemma IntroducersAreWords()
    ensures IsWord("INPUT") && IsWord("OUTPUT")
  {
  }

  lemma DigitsAreNoSpace(skipped: string, x: string, at: string)
    requires All(skipped, IsDigit) && at != "" && NotSpace(at[0]) && x <= at && All(x, NotSpace)
    requires x == at || IsSpace(at[|x|])
    ensures IsWord(skipped + x) && x != ""
  {
    assert forall i :: 0 <= i < |skipped| ==> (skipped + x)[i] == skipped[i];
    assert forall i :: 0 <= i < |x| ==> (skipped + x)[|skipped| + i] == x[i];
  }

  /** When a character is refused, the text is its tokens with white space between them, what stands in front of the
      character, and the rest from it on: nothing is lost then either. */
  lemma {:induction false} LosslessUpToRefusal(sc: Scan)
      returns (gaps: seq<string>, gap: string, mode: Mode, word: string, skipped: string)
    requires Tokens(sc).ending.Broken?
    ensures var tokens, at := Tokens(sc).tokens, Tokens(sc).ending.at;
            && |gaps| == |tokens| && Spaces(gap) && (forall g <- gaps :: Spaces(g))
            && RefusedAfter(mode, word, skipped, at)
            && sc.rest == Interleave(gaps, tokens, gap + (word + (skipped + at)))
    decreases Potential(sc)
  {
    hide Next, RefusedAfter, Spaces, Interleave;
    if Next(sc).Tok? {
      TokensStep(sc);
      var t, next := Next(sc).token, Next(sc).next;
      var front, trail := StepLossless(sc);
      var gaps1, gap1;
      gaps1, gap1, mode, word, skipped := LosslessUpToRefusal(next);
      var at := Tokens(sc).ending.at;
      gaps, gap := PutInFront(front, t, trail, gaps1, Tokens(next).tokens, gap1, word + (skipped + at));
    } else {
      gap, word, skipped := RefusalIsFound(sc);
      gaps, mode := [], sc.mode;
      NothingBetween(gap + (word + (skipped + Next(sc).at)));
    }
  }

  lemma NothingBetween(tail: string)
    ensures Interleave([], [], tail) == tail
  {
  }

  lemma PutInFront(front: string, t: Token, trail: string, gaps1: seq<string>, ts: seq<Token>, gap1: string,
      more: string)
      returns (gaps: seq<string>, gap: string)
    requires |gaps1| == |ts| && Spaces(front) && Spaces(trail) && Spaces(gap1) && forall g <- gaps1 :: Spaces(g)
    ensures |gaps| == |ts| + 1 && Spaces(gap) && forall g <- gaps :: Spaces(g)
    ensures front + (t.value + (trail + Interleave(gaps1, ts, gap1 + more))) == Interleave(gaps, [t] + ts, gap + more)
  {
    var gaps2;
    if ts == [] {
      gaps2, gap := [], trail + gap1;
      Assoc(trail, gap1, more);
    } else {
      gaps2, gap := [trail + gaps1[0]] + gaps1[1..], gap1;
      assert gaps1[0] in gaps1 && gaps2[1..] == gaps1[1..];
      Assoc(trail, gaps1[0], ts[0].value + Interleave(gaps1[1..], ts[1..], gap1 + more));
    }
    gaps := [front] + gaps2;
    assert gaps[1..] == gaps2 && ([t] + ts)[1..] == ts;
  }
}
