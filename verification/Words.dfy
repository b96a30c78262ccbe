/** How text is cut into words and lines, in both directions, and that no character is lost. */
module Words {
  import opened Text
  import opened Scanner

  predicate Spaces(s: string) { All(s, IsSpace) }

  predicate IsWord(s: string) { s != "" && All(s, NotSpace) }

  /** What may follow a word. */
  predicate EndsWord(s: string) { s == "" || IsSpace(s[0]) }

  // ---------------------------------------------------------------------- words

  lemma ReadWord(gap: string, word: string, rest: string)
    requires Spaces(gap) && IsWord(word) && EndsWord(rest)
    ensures Word(gap + (word + rest)) == word && AfterWord(gap + (word + rest)) == rest
  {
    LeadingIs(gap, word + rest, IsSpace);
    assert SkipSpace(gap + (word + rest)) == word + rest;
    LeadingIs(word, rest, NotSpace);
  }

  lemma ReadNoWord(gap: string)
    requires Spaces(gap)
    ensures Word(gap) == ""
  {
    LeadingIs(gap, "", IsSpace);
    assert gap + "" == gap;
    assert SkipSpace(gap) == "";
  }

  function Gap(s: string): string { s[..Leading(s, IsSpace)] }

  lemma SplitWord(s: string)
    ensures s == Gap(s) + (Word(s) + AfterWord(s)) && Spaces(Gap(s)) && EndsWord(AfterWord(s))
    ensures Word(s) == "" ==> Spaces(s) && AfterWord(s) == ""
    ensures Word(s) != "" ==> IsWord(Word(s))
  {
    var t := SkipSpace(s);
    SplitLeading(s, IsSpace);
    SplitLeading(t, NotSpace);
    hide Leading, IsSpace;
    SplitWordParts(s);
    if Word(s) == "" {
      assert t == "";
      assert s == Gap(s);
    }
  }

  lemma SplitWordParts(s: string)
    ensures s == Gap(s) + SkipSpace(s) && SkipSpace(s) == Word(s) + AfterWord(s)
  {
    hide Leading;
  }

  lemma SplitLeading(s: string, p: char -> bool)
    ensures var n := Leading(s, p); s == s[..n] + s[n..] && All(s[..n], p) && (s[n..] == "" || !p(s[n..][0]))
  {
    LeadingStops(s, p);
  }

  // ---------------------------------------------------------------------- lines

  /** No line of the text, its first included, starts with EXPECT. */
  ghost predicate NoExpectLine(text: string) {
    forall i :: !OccursAt("\n" + text, LINE_EXPECT, i)
  }

  /** What may follow a text: nothing, or a line that starts with EXPECT. An empty text may share that line. */
  predicate EndsText(text: string, rest: string) {
    rest == "" || LINE_EXPECT <= rest || (text == "" && "EXPECT" <= rest)
  }

  lemma ReadText(text: string, rest: string)
    requires NoExpectLine(text) && EndsText(text, rest)
    ensures LinesLength(text + rest) == |text|
  {
    var s := "\n" + (text + rest);
    assert s == ("\n" + text) + rest;
    FindIsFirst(s, LINE_EXPECT, 0);
    forall i | 0 <= i <= |text| && (text == "" ==> i != 0)
      ensures !OccursAt(s, LINE_EXPECT, i)
    {
      NoStraddle(text, rest, i);
    }
    if LINE_EXPECT <= rest {
      assert s[|text| + 1..|text| + 8] == rest[..7];
      assert OccursAt(s, LINE_EXPECT, |text| + 1);
    } else if rest != "" {
      assert s[0..7] == "\n" + rest[..6];
      assert OccursAt(s, LINE_EXPECT, 0);
    } else {
      assert s == "\n" + text;
    }
  }

  /** An EXPECT line begins only with its newline, so none begins inside the text. */
  lemma NoStraddle(text: string, rest: string, i: nat)
    requires NoExpectLine(text) && EndsText(text, rest)
    requires i <= |text| && (text == "" ==> i != 0)
    ensures !OccursAt("\n" + (text + rest), LINE_EXPECT, i)
  {
    var s := "\n" + (text + rest);
    if i + 7 <= |text| + 1 {
      assert s[i..i + 7] == ("\n" + text)[i..i + 7];
      assert !OccursAt("\n" + text, LINE_EXPECT, i);
    } else if LINE_EXPECT <= rest {
      assert s[|text| + 1] == rest[0] == '\n';
      assert s[i..i + 7][|text| + 1 - i] == '\n' != LINE_EXPECT[|text| + 1 - i];
    }
  }

  lemma SplitText(s: string)
    ensures var n := LinesLength(s); NoExpectLine(s[..n]) && EndsText(s[..n], s[n..])
  {
    var n := LinesLength(s);
    var text, u := s[..n], "\n" + s;
    FindIsFirst(u, LINE_EXPECT, 0);
    forall i ensures !OccursAt("\n" + text, LINE_EXPECT, i) {
      if 0 <= i && i + 7 <= n + 1 {
        assert ("\n" + text)[i..i + 7] == u[i..i + 7];
        assert !OccursAt(u, LINE_EXPECT, i);
      }
    }
    var found := Find(u, LINE_EXPECT, 0);
    if found.Some? {
      assert u[found.value..found.value + 7] == LINE_EXPECT;
      if found.value == 0 {
        assert s[..6] == u[0..7][1..];
      } else {
        assert s[n..][..7] == u[found.value..found.value + 7];
      }
    }
  }

  // -------------------------------------------------------- nothing is dropped

  /** A token stands in what was unread, between white space only, right before what is unread next. */
  lemma StepLossless(sc: Scan) returns (gap: string, trail: string)
    requires Next(sc).Tok?
    ensures Spaces(gap) && Spaces(trail)
    ensures sc.rest == gap + (Next(sc).token.value + (trail + Next(sc).next.rest))
  {
    if sc.mode == Lines && !sc.inComment {
      var n := LinesLength(sc.rest);
      gap, trail := "", "";
      assert sc.rest == sc.rest[..n] + sc.rest[n..];
    } else {
      var word, after := Word(sc.rest), AfterWord(sc.rest);
      SplitWord(sc.rest);
      hide Word, AfterWord;
      gap := Gap(sc.rest);
      trail := WordLossless(sc, word, after);
    }
  }

  lemma TokenIsWord(sc: Scan, word: string, after: string)
    requires |word| + |after| <= |sc.rest| && (sc.mode == Lines ==> sc.inComment)
    ensures NextWord(sc, word, after).Tok? ==> NextWord(sc, word, after).token.value == word != ""
  {
    hide Classify, SkipBlanks, Leading, StartsWith, EndsWith;
  }

  lemma WordLossless(sc: Scan, word: string, after: string) returns (trail: string)
    requires |word| + |after| <= |sc.rest| && (sc.mode == Lines ==> sc.inComment)
    requires NextWord(sc, word, after).Tok?
    ensures var r := NextWord(sc, word, after);
            r.token.value == word && Spaces(trail) && after == trail + r.next.rest
  {
    TokenIsWord(sc, word, after);
    hide Classify, Leading, StartsWith, EndsWith;
    if NextWord(sc, word, after).next.rest == after {
      trail := "";
      assert after == "" + after;
    } else {
      trail := LineLossless(word, after);
    }
  }

  lemma LineLossless(word: string, after: string) returns (trail: string)
    requires LinesAfter(word, SkipBlanks(after)).Tok?
    ensures Spaces(trail) && after == trail + LinesAfter(word, SkipBlanks(after)).next.rest
  {
    SplitLeading(after, IsBlank);
    var b := SkipBlanks(after);
    hide Leading;
    trail := after[..|after| - |b|] + if b == "" then "" else "\n";
    assert b == "" || b == "\n" + b[1..];
  }

  /** `gaps[i]` stands before the i-th token, and `tail` after the last. */
  function Interleave(gaps: seq<string>, tokens: seq<Token>, tail: string): string
    requires |gaps| == |tokens|
  {
    if tokens == [] then tail else gaps[0] + (tokens[0].value + Interleave(gaps[1..], tokens[1..], tail))
  }

  lemma {:induction false} WidenGap(extra: string, gaps: seq<string>, tokens: seq<Token>, tail: string)
      returns (gaps': seq<string>, tail': string)
    requires |gaps| == |tokens| && Spaces(extra) && Spaces(tail) && forall g <- gaps :: Spaces(g)
    ensures |gaps'| == |tokens| && Spaces(tail') && forall g <- gaps' :: Spaces(g)
    ensures Interleave(gaps', tokens, tail') == extra + Interleave(gaps, tokens, tail)
  {
    if tokens == [] {
      gaps', tail' := gaps, extra + tail;
    } else {
      gaps', tail' := [extra + gaps[0]] + gaps[1..], tail;
      assert gaps[0] in gaps && gaps'[1..] == gaps[1..];
      Assoc(extra, gaps[0], tokens[0].value + Interleave(gaps[1..], tokens[1..], tail));
    }
  }

  /** Lexing to the end of the text loses only white space: the text is its tokens, in order, with white gaps. */
  lemma {:induction false} Lossless(sc: Scan) returns (gaps: seq<string>, tail: string)
    requires Tokens(sc).ending.Eof?
    ensures var tokens := Tokens(sc).tokens;
            && |gaps| == |tokens| && Spaces(tail) && (forall g <- gaps :: Spaces(g))
            && sc.rest == Interleave(gaps, tokens, tail)
    decreases Potential(sc)
  {
    hide Next, NextWord, Word, AfterWord, LinesLength, Leading;
    if Next(sc).Tok? {
      TokensStep(sc);
      var t, next := Next(sc).token, Next(sc).next;
      var gap, trail := StepLossless(sc);
      var gaps1, tail1 := Lossless(next);
      var gaps2;
      gaps2, tail := WidenGap(trail, gaps1, Tokens(next).tokens, tail1);
      gaps := [gap] + gaps2;
      assert gaps[1..] == gaps2 && ([t] + Tokens(next).tokens)[1..] == Tokens(next).tokens;
    } else {
      gaps, tail := [], sc.rest;
      EndIsNoWord(sc);
      SplitWord(sc.rest);
    }
  }

  lemma EndIsNoWord(sc: Scan)
    ensures Next(sc).End? <==> Word(sc.rest) == "" && (sc.mode == Lines ==> sc.inComment)
  {
    hide Word, AfterWord, Leading;
  }

  /** Once there is no token, the whole text is read, and there never is one again. */
  lemma NoTokenIsFinal(sc: Scan)
    requires Next(sc).End?
    ensures Spaces(sc.rest) && Next(sc.(rest := "")).End? && Tokens(sc) == Stream([], Eof)
  {
    hide Next, Word, AfterWord;
    EndIsNoWord(sc);
    EndIsNoWord(sc.(rest := ""));
    SplitWord(sc.rest);
    ReadNoWord("");
  }
}
