/** Where two outputs differ (src/expectation/FullOutputExpectation.cpp), and how the place is shown
    (headers/logger/detail/Context.hpp). Characters stand for bytes. */
module Difference {
  import opened Text

  // ---------------------------------------------------------------- the position

  datatype Cause = FullOutputCause(differencePosition: nat, expectedOutput: string, output: string)

  /** How far two texts agree. */
  function Agreement(a: string, b: string): nat {
    if a == "" || b == "" || a[0] != b[0] then 0 else 1 + Agreement(a[1..], b[1..])
  }

  /** Texts agree over their longest common prefix. */
  lemma {:induction false} LongestCommonPrefix(a: string, b: string)
    ensures var p := Agreement(a, b);
            && p <= |a| && p <= |b| && a[..p] == b[..p] && (p < |a| && p < |b| ==> a[p] != b[p])
            && (forall k :: 0 <= k <= |a| && k <= |b| && a[..k] == b[..k] ==> k <= p)
  {
    var p := Agreement(a, b);
    if a != "" && b != "" && a[0] == b[0] {
      LongestCommonPrefix(a[1..], b[1..]);
      assert a[..p] == [a[0]] + a[1..][..p - 1];
      assert b[..p] == [b[0]] + b[1..][..p - 1];
    }
    forall k | p < k <= |a| && k <= |b|
      ensures a[..k] != b[..k]
    {
      assert a[..k][p] == a[p] && b[..k][p] == b[p];
    }
  }

  /** `std::mismatch` is given no end of the expected text, so it reads on into `behind`, what memory holds there. */
  function DifferencePosition(expected: string, behind: string, output: string): nat {
    Agreement(output, expected + behind)
  }

  /** The output goes on as memory does behind the expected text. */
  predicate ReadsOn(expected: string, behind: string, output: string) {
    expected < output && behind != "" && output[|expected|] == behind[0]
  }

  /** The reported position: that of the first difference, but if the whole of `expected` agrees then as much further
      as the rest of the output happens to agree with what stands behind it. */
  lemma {:induction false} PositionSplits(expected: string, behind: string, output: string)
    ensures DifferencePosition(expected, behind, output) ==
            if expected <= output then |expected| + Agreement(output[|expected|..], behind)
                else Agreement(output, expected)
  {
    if expected == "" {
      assert expected + behind == behind && output[0..] == output;
    } else if output != "" && output[0] == expected[0] {
      PositionSplits(expected[1..], behind, output[1..]);
      assert (expected + behind)[1..] == expected[1..] + behind;
      assert expected <= output <==> expected[1..] <= output[1..] by { PrefixTail(expected, output); }
      if expected <= output {
        assert output[1..][|expected| - 1..] == output[|expected|..];
      }
    }
  }

  lemma PrefixTail(a: string, b: string)
    requires a != "" && b != "" && a[0] == b[0]
    ensures a <= b <==> a[1..] <= b[1..]
  {
    if a[1..] <= b[1..] {
      assert a == [a[0]] + a[1..] && b == [a[0]] + b[1..];
    }
  }

  /** The reported position is the length of the longest common prefix exactly when the output does not read on; if it
      does, the position is beyond the end of the expected text. */
  lemma PositionIsCommonPrefixIff(expected: string, behind: string, output: string)
    ensures DifferencePosition(expected, behind, output) == Agreement(output, expected)
            <==> !ReadsOn(expected, behind, output)
    ensures DifferencePosition(expected, behind, output) > |expected| <==> ReadsOn(expected, behind, output)
    ensures DifferencePosition(expected, behind, output) <= |output|
  {
    PositionSplits(expected, behind, output);
    PositionSplits(expected, "", output);
    assert expected + "" == expected;
    LongestCommonPrefix(output, expected + behind);
    if expected <= output {
      assert output[|expected|..] == "" <==> |output| == |expected|;
    }
  }

  /** The expected text stands in a buffer that is ended by a NUL, with `rest` behind it. For an output without a NUL
      the search stays in that buffer, so its result does not depend on what is `beyond`. */
  lemma {:induction false} SearchStaysInBuffer(expected: string, rest: string, beyond: string, output: string)
    requires '\0' !in output
    ensures DifferencePosition(expected, rest + "\0" + beyond, output)
            == DifferencePosition(expected, rest + "\0", output)
    ensures DifferencePosition(expected, rest + "\0", output) <= |expected| + |rest|
  {
    Assoc(expected, rest, "\0");
    Assoc(expected, rest + "\0", beyond);
    StopsAtNul(output, expected + rest, beyond);
  }

  lemma {:induction false} StopsAtNul(output: string, text: string, beyond: string)
    requires '\0' !in output
    ensures Agreement(output, text + "\0" + beyond) == Agreement(output, text + "\0") <= |text|
  {
    if text == "" {
      assert text + "\0" == "\0" && ("\0" + beyond)[0] == '\0';
    } else if output != "" {
      assert (text + "\0")[1..] == text[1..] + "\0" && (text + "\0" + beyond)[1..] == text[1..] + "\0" + beyond;
      assert (text + "\0" + beyond)[0] == text[0] == (text + "\0")[0];
      StopsAtNul(output[1..], text[1..], beyond);
    }
  }

  function Validate(expected: string, behind: string, output: string): Option<Cause> {
    if expected == output then None
    else Some(FullOutputCause(DifferencePosition(expected, behind, output), expected, output))
  }

  /** A cause is given exactly for texts that differ, and it hands on both of them whole. Its position tells them apart
      unless it is beyond the expected text: then the output goes on behind the whole of it. */
  lemma CausePoints(expected: string, behind: string, output: string)
    ensures Validate(expected, behind, output) == None <==> expected == output
    ensures var v := Validate(expected, behind, output);
            v.Some? ==> var p := v.value.differencePosition;
                        && v.value.expectedOutput == expected && v.value.output == output
                        && p <= |output| && (p > |expected| <==> ReadsOn(expected, behind, output))
                        && (p <= |expected| ==> output[..p] == expected[..p] && output[p..] != expected[p..])
                        && (p > |expected| ==> expected < output)
  {
    PositionIsCommonPrefixIff(expected, behind, output);
    LongestCommonPrefix(output, expected);
    var p := Agreement(output, expected);
    if p == |output| == |expected| {
      assert output[..p] == output && expected[..p] == expected;
    }
    if output[p..] == expected[p..] {
      assert output == output[..p] + output[p..] && expected == expected[..p] + expected[p..];
    }
  }

  // ------------------------------------------------------------------ the window

  const CONTEXT_SIZE: nat := 6

  function StartPosition(mismatchPosition: nat): nat {
    if mismatchPosition > CONTEXT_SIZE then mismatchPosition - CONTEXT_SIZE else 0
  }

  function EndPosition(textLength: nat, mismatchPosition: nat): nat {
    if textLength < mismatchPosition + CONTEXT_SIZE + 1 then textLength else mismatchPosition + CONTEXT_SIZE + 1
  }

  function Shown(text: string, mismatchPosition: nat): string {
    var lower, upper := StartPosition(mismatchPosition), EndPosition(|text|, mismatchPosition);
    if lower <= upper then text[lower..upper] else ""
  }

  /** The two windows that are shown for a cause. Each holds its text around the position; they start at the same
      place, and unless the position is beyond the expected text they show the same up to it and differ from there. */
  lemma CauseIsShown(expected: string, behind: string, output: string)
    ensures var v := Validate(expected, behind, output);
            v.Some? ==>
              var p := v.value.differencePosition;
              var lower, e, o := StartPosition(p), Shown(v.value.expectedOutput, p), Shown(v.value.output, p);
              && lower <= p <= lower + |o| && o == output[lower..lower + |o|]
              && (lower == 0 || lower == p - 6) && (lower + |o| == |output| || lower + |o| == p + 7)
              && (!ReadsOn(expected, behind, output) ==>
                    && p <= lower + |e| && e == expected[lower..lower + |e|]
                    && (lower + |e| == |expected| || lower + |e| == p + 7)
                    && e[..p - lower] == o[..p - lower] && e[p - lower..] != o[p - lower..])
  {
    CausePoints(expected, behind, output);
    var v := Validate(expected, behind, output);
    if v.Some? && !ReadsOn(expected, behind, output) {
      var p := v.value.differencePosition;
      PositionIsCommonPrefixIff(expected, behind, output);
      LongestCommonPrefix(output, expected);
      hide Agreement, DifferencePosition;
      WindowsDiffer(expected, output, p);
    }
  }

  lemma WindowsDiffer(a: string, b: string, p: nat)
    requires p <= |a| && p <= |b| && a[..p] == b[..p] && a != b && (p < |a| && p < |b| ==> a[p] != b[p])
    ensures var k := p - StartPosition(p); var x, y := Shown(a, p), Shown(b, p);
            0 <= k <= |x| && k <= |y| && x[..k] == y[..k] && x[k..] != y[k..]
  {
    WindowStarts(a, p);
    WindowStarts(b, p);
    assert p < |a| || p < |b| by {
      assert |a| == p ==> a[..p] == a;
      assert |b| == p ==> b[..p] == b;
    }
  }

  lemma WindowStarts(a: string, p: nat)
    requires p <= |a|
    ensures var k, x := p - StartPosition(p), Shown(a, p);
            && 0 <= k <= |x| && x[..k] == a[..p][StartPosition(p)..]
            && (p == |a| ==> x[k..] == "") && (p < |a| ==> x[k..] != "" && x[k..][0] == a[p])
  {
  }

  // ------------------------------------------------------------------- the cells

  /** What stands for a character; `isprint` is that of the C locale, on bytes. */
  function Name(c: char): (r: string)
    ensures 1 <= |r| <= 3
  {
    if c == ' ' then "SPC"
    else if c == '\t' then "TAB"
    else if c == '\r' then "CR"
    else if c == '\n' then "LF"
    else if c as int == 11 then "VT"
    else if c as int == 12 then "FF"
    else if ' ' < c <= '~' then [c]
    else "NP"
  }

  function Padding(n: nat): (r: string)
    ensures |r| == n && forall c <- r :: c == ' '
  {
    if n == 0 then "" else Padding(n - 1) + " "
  }

  /** `std::setw(5) << std::left`. */
  function Cell(text: string): string {
    if |text| < 5 then text + Padding(5 - |text|) else text
  }

  function HexDigit(n: nat): char
    requires n < 16
  {
    "0123456789abcdef"[n]
  }

  function Hex(n: nat): (r: string)
    ensures r != ""
    ensures n < 16 ==> |r| == 1
    ensures n >= 16 ==> |r| >= 2
  {
    if n < 16 then [HexDigit(n)] else Hex(n / 16) + [HexDigit(n % 16)]
  }

  /** The writer takes an `int`: a byte from 0x80 on is a negative `char`, widened to 32 bits. */
  function HexCell(c: char): string {
    var n := if c as int < 0x80 then c as int else if c as int < 0x100 then 0x1_0000_0000 - 0x100 + c as int else 0;
    var digits := Hex(n);
    "0x" + (if |digits| < 2 then "0" + digits else digits) + " "
  }

  predicate SevenBit(c: char) { c as int < 0x80 }

  predicate IsByte(c: char) { c as int < 0x100 }

  // -------------------------------------------------------------------- the rows

  function NameRow(s: string): string {
    if s == "" then "" else NameRow(s[..|s| - 1]) + Cell(Name(s[|s| - 1]))
  }

  /** The row with the pointer, for the positions from `lower` on. */
  function PointRow(lower: nat, upper: nat, mismatchPosition: nat): string
    requires lower <= upper
    decreases upper - lower
  {
    if upper == lower then ""
    else PointRow(lower, upper - 1, mismatchPosition) + Cell(if upper - 1 == mismatchPosition then "^" else " ")
  }

  function HexRow(s: string): string {
    if s == "" then "" else HexRow(s[..|s| - 1]) + HexCell(s[|s| - 1])
  }

  /** The loop of headers/logger/detail/Context.hpp:98-146. */
  method Context(text: string, mismatchPosition: nat, includePointer: bool) returns (r: string)
    ensures var shown, lower := Shown(text, mismatchPosition), StartPosition(mismatchPosition);
            r == NameRow(shown) + "\n"
                 + (if includePointer then PointRow(lower, lower + |shown|, mismatchPosition) + "\n" else "")
                 + HexRow(shown)
  {
    hide NameRow, PointRow, HexRow, Cell, Name, HexCell;
    var alnum, point, hex := "", "", "";
    var lower := StartPosition(mismatchPosition);
    var upper := EndPosition(|text|, mismatchPosition);
    ghost var shown := Shown(text, mismatchPosition);
    EmptyRows(lower, mismatchPosition);
    var i := lower;
    while i < upper
      invariant lower <= i <= lower + |shown|
      invariant alnum == NameRow(shown[..i - lower]) && hex == HexRow(shown[..i - lower])
      invariant point == if includePointer then PointRow(lower, i, mismatchPosition) else ""
    {
      var c := text[i];
      assert c == shown[i - lower];
      NextCell(shown, i - lower, lower, mismatchPosition);
      alnum := alnum + Cell(Name(c));
      if includePointer {
        point := point + Cell(if i == mismatchPosition then "^" else " ");
      }
      hex := hex + HexCell(c);
      i := i + 1;
    }
    assert shown[..i - lower] == shown;
    r := if includePointer then alnum + "\n" + point + "\n" + hex else alnum + "\n" + hex;
    if includePointer {
      Assoc(alnum + "\n", point + "\n", hex);
      Assoc(alnum + "\n", point, "\n");
    }
  }

  lemma EmptyRows(lower: nat, p: nat)
    ensures NameRow("") == HexRow("") == PointRow(lower, lower, p) == ""
  {
  }

  lemma NextCell(s: string, n: nat, lower: nat, p: nat)
    requires n < |s|
    ensures NameRow(s[..n + 1]) == NameRow(s[..n]) + Cell(Name(s[n]))
    ensures HexRow(s[..n + 1]) == HexRow(s[..n]) + HexCell(s[n])
    ensures PointRow(lower, lower + n + 1, p)
            == PointRow(lower, lower + n, p) + Cell(if lower + n == p then "^" else " ")
  {
    hide Cell, Name, HexCell;
    assert s[..n + 1][..n] == s[..n];
  }

  // ------------------------------------------------------------------ properties

  /** For a position within the text, or right behind it, the window reaches six characters to either side, as far as
      there are any. For one beyond the text it is what is left of the six before it. */
  lemma Window(text: string, p: nat)
    ensures var lower, upper, shown := StartPosition(p), EndPosition(|text|, p), Shown(text, p);
            && lower <= p && (lower == 0 || p - lower == 6) && upper <= |text| && (p < upper <==> p < |text|)
            && (p <= |text| ==>
                  lower <= p <= upper && shown == text[lower..upper] && (upper == |text| || upper - p == 7))
            && (p > |text| ==>
                  && |shown| == (if p >= |text| + 6 then 0 else if p <= 6 then |text| else |text| + 6 - p)
                  && shown == text[|text| - |shown|..])
  {
  }

  lemma NameCellWidth(c: char)
    ensures |Cell(Name(c))| == 5
  {
  }

  lemma {:induction false} NameRowWidth(s: string)
    ensures |NameRow(s)| == 5 * |s|
  {
    hide Cell, Name;
    if s != "" {
      NameRowWidth(s[..|s| - 1]);
      NameCellWidth(s[|s| - 1]);
    }
  }

  /** The k-th cell of the row names the k-th character. */
  lemma {:induction false} NameRowCell(s: string, k: nat)
    requires k < |s|
    ensures |NameRow(s)| == 5 * |s| && NameRow(s)[5 * k..5 * k + 5] == Cell(Name(s[k]))
  {
    hide Cell, Name;
    var front, cell := s[..|s| - 1], Cell(Name(s[|s| - 1]));
    NameRowWidth(s);
    NameRowWidth(front);
    if k < |front| {
      NameRowCell(front, k);
      assert (NameRow(front) + cell)[5 * k..5 * k + 5] == NameRow(front)[5 * k..5 * k + 5];
    } else {
      assert (NameRow(front) + cell)[5 * k..5 * k + 5] == cell;
    }
  }

  /** Printable characters, and the six others that have names of their own. */
  predicate HasName(c: char) {
    ' ' <= c <= '~' || c in {'\t', '\n', '\r', 11 as char, 12 as char}
  }

  /** Reads a cell of the name row back; None for what stands for all other characters. */
  function ReadName(cell: string): Option<char> {
    if cell == "SPC  " then Some(' ')
    else if cell == "TAB  " then Some('\t')
    else if cell == "LF   " then Some('\n')
    else if cell == "CR   " then Some('\r')
    else if cell == "VT   " then Some(11 as char)
    else if cell == "FF   " then Some(12 as char)
    else if |cell| == 5 && cell[1..] == "    " then Some(cell[0])
    else None
  }

  function DecodeNameRow(row: string): (r: seq<Option<char>>)
    ensures |r| == |row| / 5
  {
    if |row| < 5 then [] else DecodeNameRow(row[..|row| - 5]) + [ReadName(row[|row| - 5..])]
  }

  lemma PrintableCell(c: char)
    ensures var cell := Cell([c]); cell[1..] == "    " && ReadName(cell) == Some(c) && cell != "NP   "
  {
    var cell := Cell([c]);
    assert Padding(4) == "    ";
    assert cell == [c] + "    " && cell[1..] == "    " && cell[1] == ' ' && "NP   "[1] == 'P';
    assert "SPC  "[1] == 'P' && "TAB  "[1] == 'A' && "LF   "[1] == 'F';
    assert "CR   "[1] == 'R' && "VT   "[1] == 'T' && "FF   "[1] == 'F';
  }

  lemma NamedCells()
    ensures ReadName(Cell("SPC")) == Some(' ') && ReadName(Cell("TAB")) == Some('\t')
    ensures ReadName(Cell("LF")) == Some('\n') && ReadName(Cell("CR")) == Some('\r')
    ensures ReadName(Cell("VT")) == Some(11 as char) && ReadName(Cell("FF")) == Some(12 as char)
    ensures ReadName(Cell("NP")) == None && Cell("NP") == "NP   "
  {
    ThreeWide("SPC");
    assert "SPC" + "  " == "SPC  ";
    ThreeWide("TAB");
    assert "TAB" + "  " == "TAB  ";
    TwoWide("LF");
    assert "LF" + "   " == "LF   ";
    TwoWide("CR");
    assert "CR" + "   " == "CR   ";
    TwoWide("VT");
    assert "VT" + "   " == "VT   ";
    TwoWide("FF");
    assert "FF" + "   " == "FF   ";
    TwoWide("NP");
    assert "NP" + "   " == "NP   ";
    hide Cell;
    assert "SPC  "[0] == 'S' && "TAB  "[0] == 'T' && "LF   "[0] == 'L' && "CR   "[0] == 'C';
    assert "VT   "[0] == 'V' && "FF   "[0] == 'F' && "NP   "[0] == 'N' && "NP   "[1..][0] == 'P';
  }

  lemma ThreeWide(name: string)
    ensures |name| == 3 ==> Cell(name) == name + "  "
  {
    assert Padding(2) == "  ";
  }

  lemma TwoWide(name: string)
    ensures |name| == 2 ==> Cell(name) == name + "   "
  {
    assert Padding(3) == "   ";
  }

  /** Every character that has a name is read back from its cell, and NP stands for exactly the others. */
  lemma NameReadsBack(c: char)
    ensures ReadName(Cell(Name(c))) == if HasName(c) then Some(c) else None
    ensures Cell(Name(c)) == "NP   " <==> !HasName(c)
  {
    NamedCells();
    PrintableCell(c);
    hide Cell, ReadName;
    assert ReadName("NP   ") == None;
  }

  /** `row` reads back as `s`, but for the characters that have no names. */
  predicate ReadsAs(row: string, s: string) {
    && |DecodeNameRow(row)| == |s|
    && forall k :: 0 <= k < |s| ==> DecodeNameRow(row)[k] == if HasName(s[k]) then Some(s[k]) else None
  }

  lemma {:induction false} NameRowRoundTrip(s: string)
    ensures |NameRow(s)| == 5 * |s| && ReadsAs(NameRow(s), s)
  {
    hide Cell, Name, ReadName, HasName;
    NameRowWidth(s);
    if s != "" {
      var front, c := s[..|s| - 1], s[|s| - 1];
      NameRowRoundTrip(front);
      NameCellWidth(c);
      NameReadsBack(c);
      DecodeLastName(NameRow(front), Cell(Name(c)));
      assert NameRow(s) == NameRow(front) + Cell(Name(c));
    }
  }

  lemma DecodeLastName(front: string, cell: string)
    requires |cell| == 5
    ensures DecodeNameRow(front + cell) == DecodeNameRow(front) + [ReadName(cell)]
  {
    hide ReadName;
    assert (front + cell)[..|front|] == front && (front + cell)[|front|..] == cell;
  }

  /** The pointer row is as wide as the name row, and its only pointer stands in the column of the position. */
  lemma {:induction false} OnePointer(lower: nat, upper: nat, p: nat)
    requires lower <= upper
    ensures var row := PointRow(lower, upper, p);
            |row| == 5 * (upper - lower)
            && forall k :: 0 <= k < |row| ==>
                 row[k] == if k == 5 * (p - lower) && lower <= p < upper then '^' else ' '
    decreases upper - lower
  {
    if lower < upper {
      OnePointer(lower, upper - 1, p);
      var front := PointRow(lower, upper - 1, p);
      var cell := Cell(if upper - 1 == p then "^" else " ");
      PointCell(if upper - 1 == p then "^" else " ");
      var row := PointRow(lower, upper, p);
      assert forall k :: 0 <= k < |front| ==> row[k] == front[k];
      assert forall k :: |front| <= k < |row| ==> row[k] == cell[k - |front|];
    }
  }

  lemma PointCell(text: string)
    requires text == "^" || text == " "
    ensures |Cell(text)| == 5 && forall k :: 0 <= k < 5 ==> Cell(text)[k] == if k == 0 then text[0] else ' '
  {
    assert forall k :: 1 <= k < 5 ==> Cell(text)[k] == Padding(4)[k - 1];
    assert forall k :: 0 <= k < 4 ==> Padding(4)[k] in Padding(4);
  }

  /** A cell is five wide for 7-bit characters only; a byte from 0x80 on takes eight digits. */
  lemma HexCellWidth(c: char)
    requires IsByte(c)
    ensures |HexCell(c)| == if SevenBit(c) then 5 else 11
  {
    var n := c as int;
    if SevenBit(c) {
      assert n / 16 < 16;
    } else {
      WideHex(n - 0x80);
    }
  }

  /** The number that hexadecimal digits stand for. */
  function HexNumber(digits: string): nat {
    if digits == "" then 0 else 16 * HexNumber(digits[..|digits| - 1]) + HexValue(digits[|digits| - 1])
  }

  lemma {:induction false} HexReadsBack(n: nat)
    ensures HexNumber(Hex(n)) == n
  {
    hide HexValue, HexDigit, HexNumber;
    HexDigitValue(n % 16);
    if n < 16 {
      OneDigitMore("", HexDigit(n));
      NoDigits();
      assert "" + [HexDigit(n)] == [HexDigit(n)];
    } else {
      HexReadsBack(n / 16);
      OneDigitMore(Hex(n / 16), HexDigit(n % 16));
    }
  }

  lemma NoDigits()
    ensures HexNumber("") == 0
  {
  }

  lemma OneDigitMore(front: string, d: char)
    ensures HexNumber(front + [d]) == 16 * HexNumber(front) + HexValue(d)
  {
    hide HexValue;
    assert (front + [d])[..|front|] == front;
  }

  lemma {:induction false} LeadingZero(digits: string)
    ensures HexNumber("0" + digits) == HexNumber(digits)
  {
    if digits == "" {
      OneDigitMore("", '0');
      assert "0" + digits == "" + ['0'];
    } else {
      var front, d := digits[..|digits| - 1], digits[|digits| - 1];
      hide HexValue;
      LeadingZero(front);
      OneDigitMore("0" + front, d);
      assert "0" + digits == ("0" + front) + [d];
    }
  }

  /** A cell is `0x`, digits and a blank; the digits are those of the byte, as a signed `char` widened to 32 bits. */
  lemma HexCellReadsBack(c: char)
    requires IsByte(c)
    ensures var cell := HexCell(c);
            && |cell| >= 5 && cell[..2] == "0x" && cell[|cell| - 1] == ' '
            && HexNumber(cell[2..|cell| - 1]) == if SevenBit(c) then c as int else c as int + 0xFFFF_FF00
  {
    var n := if SevenBit(c) then c as int else c as int + 0xFFFF_FF00;
    HexReadsBack(n);
    LeadingZero(Hex(n));
    var digits := if |Hex(n)| < 2 then "0" + Hex(n) else Hex(n);
    assert HexCell(c) == "0x" + digits + " ";
    hide HexCell, Hex, HexNumber;
    assert ("0x" + digits + " ")[2..2 + |digits|] == digits;
  }

  lemma WideHex(m: nat)
    requires m < 0x80
    ensures |Hex(0xFFFF_FF80 + m)| == 8
  {
    var v := 0xFFFF_FF80 + m;
    assert v / 16 == 0xFFF_FFF8 + m / 16 && (v / 16) / 16 == 0xFF_FFFF;
    assert |Hex(0xFF)| == 2 && |Hex(0xFFF)| == 3;
    assert |Hex(0xFFFF)| == 4 && |Hex(0xF_FFFF)| == 5;
    assert |Hex(0xFF_FFFF)| == 6;
  }

  /** The hex row lines up with the others exactly when all that is shown is 7-bit. */
  lemma {:induction false} HexRowWidth(s: string)
    requires All(s, IsByte)
    ensures |HexRow(s)| >= 5 * |s|
    ensures |HexRow(s)| == 5 * |s| <==> All(s, SevenBit)
  {
    if s != "" {
      HexRowWidth(s[..|s| - 1]);
      HexCellWidth(s[|s| - 1]);
      hide HexCell;
    }
  }

  function HexValue(d: char): nat {
    if '0' <= d <= '9' then d as int - '0' as int
    else if 'a' <= d <= 'f' then 10 + d as int - 'a' as int
    else 0
  }

  /** Reads a row of five-wide cells back. */
  function DecodeHexRow(row: string): string {
    if |row| < 5 then ""
    else DecodeHexRow(row[..|row| - 5]) + [(16 * HexValue(row[|row| - 3]) + HexValue(row[|row| - 2])) as char]
  }

  lemma HexCellDecodes(c: char)
    requires SevenBit(c)
    ensures var cell := HexCell(c);
            |cell| == 5 && 16 * HexValue(cell[2]) + HexValue(cell[3]) == c as int
  {
    var n := c as int;
    HexDigitValue(n % 16);
    if n >= 16 {
      HexDigitValue(n / 16);
      assert Hex(n) == [HexDigit(n / 16)] + [HexDigit(n % 16)];
    } else {
      assert Hex(n) == [HexDigit(n)];
    }
  }

  lemma HexDigitValue(n: nat)
    requires n < 16
    ensures HexValue(HexDigit(n)) == n
  {
  }

  /** From the hex row of 7-bit text the text can be read back. */
  lemma {:induction false} HexRowRoundTrip(s: string)
    requires All(s, SevenBit)
    ensures |HexRow(s)| == 5 * |s| && DecodeHexRow(HexRow(s)) == s
  {
    hide HexCell, HexValue;
    if s != "" {
      HexRowRoundTrip(s[..|s| - 1]);
      HexCellDecodes(s[|s| - 1]);
      DecodeLast(HexRow(s[..|s| - 1]), HexCell(s[|s| - 1]));
    }
  }

  lemma DecodeLast(front: string, cell: string)
    requires |cell| == 5
    ensures DecodeHexRow(front + cell) == DecodeHexRow(front) + [(16 * HexValue(cell[2]) + HexValue(cell[3])) as char]
  {
    hide HexValue;
    assert (front + cell)[..|front|] == front;
  }

  /** What a shown difference tells if all it shows is 7-bit: three rows of equal width, one pointer, in the column of
      the position, if and only if there is a character there, the characters by name, and the bytes themselves.
      Window says what is shown. */
  lemma DifferenceDisplay(text: string, p: nat)
    requires All(Shown(text, p), SevenBit)
    ensures var lower, shown := StartPosition(p), Shown(text, p);
            var names, points, hexes := NameRow(shown), PointRow(lower, lower + |shown|, p), HexRow(shown);
            && |names| == |points| == |hexes| == 5 * |shown|
            && lower <= p && (p < |text| <==> exists k :: 0 <= k < |points| && points[k] == '^')
            && (forall k :: 0 <= k < |points| && points[k] == '^' ==> k == 5 * (p - lower))
            && DecodeHexRow(hexes) == shown && ReadsAs(names, shown)
  {
    hide NameRow, PointRow, HexRow, DecodeHexRow, ReadsAs;
    var lower, shown := StartPosition(p), Shown(text, p);
    Window(text, p);
    NameRowRoundTrip(shown);
    OnePointer(lower, lower + |shown|, p);
    HexRowRoundTrip(shown);
    var points := PointRow(lower, lower + |shown|, p);
    if p < |text| {
      assert points[5 * (p - lower)] == '^';
    }
  }
}
