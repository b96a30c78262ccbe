/** The line-ending rewriter of headers/LineEndings.hpp. */
module LineEndings {
  import opened Text

  /** A growable character buffer, changed in place (`std::string &`). */
  class Buffer {
    var chars: string

    constructor (s: string)
      ensures chars == s
    {
      chars := s;
    }
  }

  const CR := "\r"
  const LF := "\n"
  const CRLF := "\r\n"

  // ------------------------------------------------------------ specification

  /** Leftmost, non-overlapping substitution. What is put in is never looked at again. */
  function Substitute(s: string, what: string, text: string): string
    requires what != ""
  {
    if s == "" then ""
    else if what <= s then text + Substitute(s[|what|..], what, text)
    else [s[0]] + Substitute(s[1..], what, text)
  }

  predicate StartsWithPair(s: string) {
    |s| >= 2 && s[0] == '\r' && s[1] == '\n'
  }

  /** How many characters the first line end, or else the first character, of `s` takes. */
  function HeadLength(s: string): (n: nat)
    requires s != ""
    ensures n <= |s|
  {
    if StartsWithPair(s) then 2 else 1
  }

  /** One left-to-right scan: a CR LF pair is one line end, and so is a lone CR. */
  function Normalise(s: string): string {
    if s == "" then ""
    else [if s[0] == '\r' then '\n' else s[0]] + Normalise(s[HeadLength(s)..])
  }

  function CrLfPairs(s: string): nat {
    if s == "" then 0 else (if StartsWithPair(s) then 1 else 0) + CrLfPairs(s[1..])
  }

  // ----------------------------------------------------------- implementation

  /** The part of `chars` before `pos` is final; what is left of the work on `original` is to substitute the rest. */
  predicate Rewritten(chars: string, pos: nat, original: string, what: string, text: string)
    requires what != ""
  {
    pos <= |chars| && chars[..pos] + Substitute(chars[pos..], what, text) == Substitute(original, what, text)
  }

  /** The loop of headers/LineEndings.hpp:21-28. With an empty `what` it never ends (EmptyPatternRunsForever). */
  method Replace(buffer: Buffer, what: string, text: string)
    requires what != ""
    modifies buffer
    ensures buffer.chars == Substitute(old(buffer.chars), what, text)
  {
    hide Find, Substitute, Rewritten;
    var pos: nat := 0;
    var found := Find(buffer.chars, what, pos);
    ReplaceStarts(buffer.chars, what, text);
    while found.Some?
      invariant found == Find(buffer.chars, what, pos)
      invariant pos <= |buffer.chars| && Rewritten(buffer.chars, pos, old(buffer.chars), what, text)
      decreases |buffer.chars| - pos
    {
      ReplaceKeeps(buffer.chars, pos, found.value, old(buffer.chars), what, text);
      ghost var turn := Turn(buffer.chars, pos, what, text);
      buffer.chars := buffer.chars[..found.value] + text + buffer.chars[found.value + |what|..];
      pos := found.value + |text|;
      assert turn == Some((buffer.chars, pos));
      found := Find(buffer.chars, what, pos);
    }
    ReplaceEnds(buffer.chars, pos, old(buffer.chars), what, text);
  }

  lemma ReplaceStarts(s: string, what: string, text: string)
    requires what != ""
    ensures Rewritten(s, 0, s, what, text)
  {
    assert s[0..] == s;
  }

  lemma ReplaceKeeps(s: string, pos: nat, at: nat, original: string, what: string, text: string)
    requires what != "" && Rewritten(s, pos, original, what, text) && Find(s, what, pos) == Some(at)
    ensures var t := s[..at] + text + s[at + |what|..];
            |t| - (at + |text|) < |s| - pos && Rewritten(t, at + |text|, original, what, text)
  {
    SubstituteFrom(s, pos, what, text);
    var rest := Substitute(s[at + |what|..], what, text);
    Spliced(s, pos, at, at + |what|, text);
    Assoc(s[..pos], s[pos..at] + text, rest);
    Assoc(s[..pos], s[pos..at], text);
  }

  lemma Spliced(s: string, pos: nat, at: nat, end: nat, text: string)
    requires pos <= at <= end <= |s|
    ensures var t := s[..at] + text + s[end..];
            t[..at + |text|] == s[..at] + text && t[at + |text|..] == s[end..] && |t| == at + |text| + |s| - end
    ensures s[..pos] + s[pos..at] == s[..at]
  {
  }

  lemma ReplaceEnds(s: string, pos: nat, original: string, what: string, text: string)
    requires what != "" && Rewritten(s, pos, original, what, text) && Find(s, what, pos) == None
    ensures s == Substitute(original, what, text)
  {
    SubstituteFrom(s, pos, what, text);
    assert s[..pos] + s[pos..] == s;
  }

  method ChangeLineEndingsToLf(buffer: Buffer)
    modifies buffer
    ensures buffer.chars == Normalise(old(buffer.chars))
  {
    TwoPassesAreOneScan(buffer.chars);
    Replace(buffer, CRLF, LF);
    Replace(buffer, CR, LF);
  }

  /** Up to the first match everything is kept; the match is replaced; the rest is substituted on its own. */
  lemma {:induction false} SubstituteFrom(s: string, pos: nat, what: string, text: string)
    requires what != "" && pos <= |s|
    ensures match Find(s, what, pos)
            case None => Substitute(s[pos..], what, text) == s[pos..]
            case Some(at) =>
              Substitute(s[pos..], what, text) == s[pos..at] + text + Substitute(s[at + |what|..], what, text)
    decreases |s| - pos
  {
    if OccursAt(s, what, pos) {
      SubstituteHit(s, pos, what, text);
    } else if pos < |s| {
      SubstituteFrom(s, pos + 1, what, text);
      SubstituteSkips(s, pos, what, text);
      FindSkips(s, what, pos);
      var r := Find(s, what, pos + 1);
      if r.Some? {
        KeepFront(s, pos, r.value, text, Substitute(s[r.value + |what|..], what, text));
      }
    }
  }

  lemma SubstituteHit(s: string, pos: nat, what: string, text: string)
    requires what != "" && OccursAt(s, what, pos)
    ensures Substitute(s[pos..], what, text) == s[pos..pos] + text + Substitute(s[pos + |what|..], what, text)
  {
    MatchHere(s, pos, what);
    var u := s[pos..];
    assert Substitute(u, what, text) == text + Substitute(u[|what|..], what, text);
    assert s[pos..pos] + text == text;
  }

  lemma FindSkips(s: string, what: string, pos: nat)
    requires pos < |s| && !OccursAt(s, what, pos)
    ensures Find(s, what, pos) == Find(s, what, pos + 1)
  {
  }

  lemma MatchHere(s: string, pos: nat, what: string)
    requires pos <= |s|
    ensures what <= s[pos..] <==> OccursAt(s, what, pos)
    ensures OccursAt(s, what, pos) ==> s[pos..][|what|..] == s[pos + |what|..]
  {
    if |what| <= |s| - pos {
      assert s[pos..][..|what|] == s[pos..pos + |what|];
    }
  }

  lemma SubstituteSkips(s: string, pos: nat, what: string, text: string)
    requires what != "" && pos < |s| && !OccursAt(s, what, pos)
    ensures s[pos..] == [s[pos]] + s[pos + 1..]
    ensures Substitute(s[pos..], what, text) == [s[pos]] + Substitute(s[pos + 1..], what, text)
  {
    MatchHere(s, pos, what);
    assert s[pos..][1..] == s[pos + 1..];
  }

  lemma KeepFront(s: string, pos: nat, at: nat, text: string, rest: string)
    requires pos < at <= |s|
    ensures [s[pos]] + (s[pos + 1..at] + text + rest) == s[pos..at] + text + rest
  {
    assert s[pos..at] == [s[pos]] + s[pos + 1..at];
  }

  // ----------------------------------------------------------------- theorems

  /** One turn of the loop in `Replace`: the buffer and the position after it, or None when there is no turn. */
  function Turn(chars: string, pos: nat, what: string, text: string): Option<(string, nat)> {
    match Find(chars, what, pos)
    case None => None
    case Some(at) => Some((chars[..at] + text + chars[at + |what|..], at + |text|))
  }

  function Repeat(text: string, k: nat): string {
    if k == 0 then "" else Repeat(text, k - 1) + text
  }

  /** With an empty pattern every turn puts in one more `text` at the start, and there always is a next one. */
  lemma EmptyPatternRunsForever(s: string, text: string, k: nat)
    ensures Turn(Repeat(text, k) + s, |Repeat(text, k)|, "", text)
            == Some((Repeat(text, k + 1) + s, |Repeat(text, k + 1)|))
  {
    var chars, pos := Repeat(text, k) + s, |Repeat(text, k)|;
    assert chars[pos..pos + 0] == "";
    assert Find(chars, "", pos) == Some(pos);
    assert chars[..pos] == Repeat(text, k) && chars[pos + 0..] == s;
  }

  /** After the first pass CR LF pairs may remain ("\r\r\n" becomes "\r\n"), yet the result is that of one scan. */
  lemma {:induction false} TwoPassesAreOneScan(s: string)
    ensures Substitute(Substitute(s, CRLF, LF), CR, LF) == Normalise(s)
  {
    if s != "" {
      assert CRLF <= s <==> StartsWithPair(s);
      var k := HeadLength(s);
      TwoPassesAreOneScan(s[k..]);
      var rest := Substitute(s[k..], CRLF, LF);
      var head := if StartsWithPair(s) then LF else [s[0]];
      assert Substitute(s, CRLF, LF) == head + rest;
      assert (head + rest)[1..] == rest;
    }
  }

  lemma {:induction false} NormaliseLength(s: string)
    ensures |Normalise(s)| + CrLfPairs(s) == |s|
  {
    if s != "" {
      NormaliseLength(s[HeadLength(s)..]);
      if StartsWithPair(s) {
        assert s[1..][1..] == s[2..];
      }
    }
  }

  lemma {:induction false} NormaliseRemovesCr(s: string)
    ensures '\r' !in Normalise(s)
  {
    if s != "" {
      NormaliseRemovesCr(s[HeadLength(s)..]);
    }
  }

  lemma {:induction false} NormaliseKeepsCrFree(s: string)
    requires '\r' !in s
    ensures Normalise(s) == s
  {
    if s != "" {
      assert s[0] in s && s == [s[0]] + s[1..];
      NormaliseKeepsCrFree(s[1..]);
    }
  }

  lemma NormaliseIdempotent(s: string)
    ensures Normalise(Normalise(s)) == Normalise(s)
  {
    NormaliseRemovesCr(s);
    NormaliseKeepsCrFree(Normalise(s));
  }

  predicate Straddles(a: string, b: string) {
    a != "" && b != "" && a[|a| - 1] == '\r' && b[0] == '\n'
  }

  lemma {:induction false} NormaliseAcrossCut(a: string, b: string)
    ensures Normalise(a + b) == Normalise(a) + if Straddles(a, b) then Normalise(b)[1..] else Normalise(b)
  {
    if a == "" {
      assert a + b == b;
    } else if |a| == 1 {
      assert (a + b)[1..] == b;
      if Straddles(a, b) {
        assert (a + b)[2..] == b[1..];
      }
    } else {
      var k := HeadLength(a);
      assert HeadLength(a + b) == k && (a + b)[k..] == a[k..] + b;
      assert Straddles(a, b) <==> Straddles(a[k..], b);
      NormaliseAcrossCut(a[k..], b);
      var tail := if Straddles(a, b) then Normalise(b)[1..] else Normalise(b);
      var h := [if a[0] == '\r' then '\n' else a[0]];
      Assoc(h, Normalise(a[k..]), tail);
    }
  }

  /** Normalising piece by piece is right exactly when no CR LF pair straddles the cut. */
  lemma NormaliseConcat(a: string, b: string)
    ensures Normalise(a + b) == Normalise(a) + Normalise(b) <==> !Straddles(a, b)
    ensures |Normalise(a + b)| <= |Normalise(a)| + |Normalise(b)|
  {
    NormaliseAcrossCut(a, b);
  }

  /** `text` with its i-th newline written in the style `style(i)`. */
  datatype Style = Lf | Cr | CrLf {
    function Mark(): string {
      match this case Lf => LF case Cr => CR case CrLf => CRLF
    }
  }

  function Encode(text: string, styles: seq<Style>): string
    requires |styles| == |text|
  {
    if text == "" then ""
    else (if text[0] == '\n' then styles[0].Mark() else [text[0]]) + Encode(text[1..], styles[1..])
  }

  /** A newline written CR followed at once by one written LF reads back as a single newline. */
  predicate Merges(text: string, styles: seq<Style>)
    requires |styles| == |text|
  {
    exists i :: 0 <= i < |text| - 1 && text[i] == '\n' && text[i + 1] == '\n' && styles[i] == Cr && styles[i + 1] == Lf
  }

  predicate MergesFirst(text: string, styles: seq<Style>)
    requires |styles| == |text|
  {
    |text| > 1 && text[0] == '\n' && text[1] == '\n' && styles[0] == Cr && styles[1] == Lf
  }

  /** The text without the newlines that merge with the one before them. */
  function Merged(text: string, styles: seq<Style>): string
    requires |styles| == |text|
  {
    if text == "" then ""
    else [text[0]] + if MergesFirst(text, styles) then Merged(text[2..], styles[2..])
        else Merged(text[1..], styles[1..])
  }

  /** The style of each newline may be chosen freely, as long as no CR-style newline is followed by an LF-style one. */
  lemma {:induction false} AnyEncodingNormalisesBack(text: string, styles: seq<Style>)
    requires '\r' !in text && |styles| == |text|
    ensures Normalise(Encode(text, styles)) == text <==> !Merges(text, styles)
    ensures |Normalise(Encode(text, styles))| <= |text|
  {
    if text != "" {
      var head := if text[0] == '\n' then styles[0].Mark() else [text[0]];
      var rest := Encode(text[1..], styles[1..]);
      AnyEncodingNormalisesBack(text[1..], styles[1..]);
      NormaliseConcat(head, rest);
      assert Normalise(head) == [text[0]] by { NormaliseSmall(head); }
      var here := MergesFirst(text, styles);
      assert Straddles(head, rest) <==> here by { EncodeHead(text[1..], styles[1..]); }
      assert Merges(text, styles) <==> here || Merges(text[1..], styles[1..]) by { MergesSplit(text, styles); }
      if !here {
        assert Normalise(head + rest) == [text[0]] + Normalise(rest);
        assert [text[0]] + text[1..] == text;
        assert ([text[0]] + Normalise(rest))[1..] == Normalise(rest);
      }
    }
  }

  lemma NormaliseSmall(s: string)
    ensures s == CRLF ==> Normalise(s) == LF
    ensures s == CR ==> Normalise(s) == LF
    ensures |s| == 1 && s != CR ==> Normalise(s) == s
  {
    if s == CRLF {
      assert s[2..] == "";
    } else if |s| == 1 {
      assert s[1..] == "";
    }
  }

  lemma EncodeHead(text: string, styles: seq<Style>)
    requires '\r' !in text && |styles| == |text|
    ensures var e := Encode(text, styles);
            e != "" && e[0] == '\n' <==> text != "" && text[0] == '\n' && styles[0] == Lf
  {
  }

  lemma MergesSplit(text: string, styles: seq<Style>)
    requires text != "" && |styles| == |text|
    ensures Merges(text, styles) <==> MergesFirst(text, styles) || Merges(text[1..], styles[1..])
  {
    if Merges(text[1..], styles[1..]) {
      var i :| 0 <= i < |text| - 2 && text[1..][i] == '\n' && text[1..][i + 1] == '\n'
               && styles[1..][i] == Cr && styles[1..][i + 1] == Lf;
      assert text[i + 1] == '\n' && text[i + 2] == '\n' && styles[i + 1] == Cr && styles[i + 2] == Lf;
    }
    if Merges(text, styles) {
      var i :| 0 <= i < |text| - 1 && text[i] == '\n' && text[i + 1] == '\n' && styles[i] == Cr && styles[i + 1] == Lf;
      if i > 0 {
        assert text[1..][i - 1] == '\n' && text[1..][i] == '\n' && styles[1..][i - 1] == Cr && styles[1..][i] == Lf;
      }
    }
  }

  /** What any choice of styles reads back as, when newlines merge too. */
  lemma {:induction false} EncodingNormalises(text: string, styles: seq<Style>)
    requires '\r' !in text && |styles| == |text|
    ensures Normalise(Encode(text, styles)) == Merged(text, styles)
  {
    if text != "" {
      var head := if text[0] == '\n' then styles[0].Mark() else [text[0]];
      var rest := Encode(text[1..], styles[1..]);
      EncodingNormalises(text[1..], styles[1..]);
      NormaliseAcrossCut(head, rest);
      NormaliseSmall(head);
      EncodeHead(text[1..], styles[1..]);
      assert MergesFirst(text, styles) ==> text[1..][1..] == text[2..] && styles[1..][1..] == styles[2..];
    }
  }

  /** The styles in which the newlines of a text, as it is on disk, are written. */
  function StylesOf(s: string): seq<Style> {
    if s == "" then []
    else [if s[0] != '\r' then Lf else if StartsWithPair(s) then CrLf else Cr] + StylesOf(s[HeadLength(s)..])
  }

  /** Every text on disk is its normal form, written in some choice of styles in which no newlines merge. */
  lemma EveryTextIsEncoded(s: string)
    ensures '\r' !in Normalise(s) && |StylesOf(s)| == |Normalise(s)|
    ensures Encode(Normalise(s), StylesOf(s)) == s && !Merges(Normalise(s), StylesOf(s))
  {
    NormaliseRemovesCr(s);
    StylesWriteBack(s);
    AnyEncodingNormalisesBack(Normalise(s), StylesOf(s));
  }

  lemma {:induction false} StylesWriteBack(s: string)
    ensures |StylesOf(s)| == |Normalise(s)| && Encode(Normalise(s), StylesOf(s)) == s
  {
    if s != "" {
      var k := HeadLength(s);
      StylesWriteBack(s[k..]);
      var head := [if s[0] == '\r' then '\n' else s[0]];
      var style := [if s[0] != '\r' then Lf else if StartsWithPair(s) then CrLf else Cr];
      assert (head + Normalise(s[k..]))[1..] == Normalise(s[k..])
             && (style + StylesOf(s[k..]))[1..] == StylesOf(s[k..]);
      assert s == s[..k] + s[k..];
      assert s[..k] == if head[0] == '\n' then style[0].Mark() else head;
    }
  }

  /** Reading or writing a whole text in one uniform style loses nothing. */
  lemma UniformEncoding(text: string, style: Style)
    requires '\r' !in text
    ensures Normalise(Encode(text, seq(|text|, _ => style))) == text
  {
    AnyEncodingNormalisesBack(text, seq(|text|, _ => style));
  }
}
