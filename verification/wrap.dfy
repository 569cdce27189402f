/** Soft wrapping of styled lines and of raw text to a number of terminal cells. */
module Wrapping {
  import opened DisplayWidth

  /** A character and its style; styles are left abstract. */
  datatype Glyph = Glyph(symbol: char, style: nat)

  function Symbols(glyphs: seq<Glyph>): string {
    if glyphs == [] then "" else Symbols(glyphs[..|glyphs| - 1]) + [glyphs[|glyphs| - 1].symbol]
  }

  function Cells(glyphs: seq<Glyph>): nat {
    if glyphs == [] then 0 else Cells(glyphs[..|glyphs| - 1]) + CharWidth(glyphs[|glyphs| - 1].symbol)
  }

  lemma CellsPush(glyphs: seq<Glyph>, g: Glyph)
    ensures Cells(glyphs + [g]) == Cells(glyphs) + CharWidth(g.symbol)
  {
    assert (glyphs + [g])[..|glyphs|] == glyphs;
  }

  // ----- What wrapping a styled line means

  predicate FitsOrSingle(line: seq<Glyph>, width: nat) { Cells(line) <= width || |line| == 1 }

  /**
   The line ends where it has to: `ahead` more glyphs still fit, the next one does not, and the line is
   broken at the last white space before that, or, if there is none, where the width ends.
   */
  predicate BreaksAt(line: seq<Glyph>, rest: seq<Glyph>, width: nat, ahead: nat) {
    && ahead < |rest| && Cells(line + rest[..ahead + 1]) > width
    && if ahead > 0 then
         && Cells(line + rest[..ahead]) <= width
         && IsWhite(rest[0].symbol) && forall j :: 0 < j < ahead ==> !IsWhite(rest[j].symbol)
       else
         line != [] && (Cells(line) <= width ==> forall j :: 0 <= j < |line| ==> !IsWhite(line[j].symbol))
  }

  ghost predicate HasToBreak(line: seq<Glyph>, rest: seq<Glyph>, width: nat) {
    exists ahead: nat :: BreaksAt(line, rest, width, ahead)
  }

  /** A break swallows the one white space it stands at. */
  function AfterBreak(rest: seq<Glyph>): seq<Glyph> {
    if rest != [] && IsWhite(rest[0].symbol) then rest[1..] else rest
  }

  ghost predicate IsNextLine(glyphs: seq<Glyph>, line: seq<Glyph>, width: nat) {
    && line <= glyphs && FitsOrSingle(line, width)
    && (|line| < |glyphs| ==> HasToBreak(line, glyphs[|line|..], width))
  }

  /** The lines are cut off one after the other, and `left` is what remains. */
  ghost predicate WrapsTo(glyphs: seq<Glyph>, lines: seq<seq<Glyph>>, width: nat, left: seq<Glyph>)
    decreases |lines|
  {
    if lines == [] then left == glyphs
    else
      && glyphs != [] && IsNextLine(glyphs, lines[0], width)
      && WrapsTo(AfterBreak(glyphs[|lines[0]|..]), lines[1..], width, left)
  }

  ghost predicate Wrapped(glyphs: seq<Glyph>, lines: seq<seq<Glyph>>, width: nat) {
    WrapsTo(glyphs, lines, width, [])
  }

  lemma {:induction false} OneMoreLine(glyphs: seq<Glyph>, lines: seq<seq<Glyph>>, width: nat, left: seq<Glyph>,
      line: seq<Glyph>)
    requires WrapsTo(glyphs, lines, width, left) && left != [] && IsNextLine(left, line, width)
    ensures WrapsTo(glyphs, lines + [line], width, AfterBreak(left[|line|..]))
    decreases |lines|
  {
    if lines == [] {
      assert ([] + [line])[1..] == [];
    } else {
      assert (lines + [line])[0] == lines[0] && (lines + [line])[1..] == lines[1..] + [line];
      OneMoreLine(AfterBreak(glyphs[|lines[0]|..]), lines[1..], width, left, line);
    }
  }

  /** Leading white space goes unless indentation is preserved. */
  function Trimmed(glyphs: seq<Glyph>): seq<Glyph> {
    if glyphs != [] && IsWhite(glyphs[0].symbol) then Trimmed(glyphs[1..]) else glyphs
  }

  lemma CellsNext(glyphs: seq<Glyph>, i: nat)
    requires i < |glyphs|
    ensures Cells(glyphs[..i + 1]) == Cells(glyphs[..i]) + CharWidth(glyphs[i].symbol)
  {
    assert glyphs[..i + 1] == glyphs[..i] + [glyphs[i]];
    CellsPush(glyphs[..i], glyphs[i]);
  }

  lemma CellsGrow(glyphs: seq<Glyph>, i: nat, j: nat)
    requires i <= j <= |glyphs|
    ensures Cells(glyphs[..i]) <= Cells(glyphs[..j])
    decreases j
  {
    if i < j {
      CellsNext(glyphs, j - 1);
      CellsGrow(glyphs, i, j - 1);
    }
  }

  /** The glyph after the longest beginning that fits does not fit. */
  lemma DoesNotFit(glyphs: seq<Glyph>, width: nat, fit: nat, cut: nat, ahead: nat)
    requires fit < |glyphs| && Cells(glyphs[..fit]) + CharWidth(glyphs[fit].symbol) > width
    requires cut + ahead >= fit && cut + ahead < |glyphs|
    ensures Cells(glyphs[..cut] + glyphs[cut..][..ahead + 1]) > width
  {
    var end := cut + ahead + 1;
    assert glyphs[..cut] + glyphs[cut..][..ahead + 1] == glyphs[..end];
    CellsNext(glyphs, fit);
    CellsGrow(glyphs, fit + 1, end);
  }

  // ----- The algorithm

  method WrapStyledLine(line: seq<Glyph>, width: nat, preserveIndentation: bool) returns (output: seq<seq<Glyph>>)
    ensures width == 0 ==> output == []
    ensures width > 0 ==>
      var glyphs := if preserveIndentation then line else Trimmed(line);
      if glyphs == [] then output == [[]] else Wrapped(glyphs, output, width)
  {
    if width == 0 {
      return [];
    }
    var glyphs := line;
    if !preserveIndentation {
      glyphs := TrimStart(line);
    }
    if glyphs == [] {
      return [[]];
    }
    output := WrapGlyphs(glyphs, width);
  }

  method WrapGlyphs(glyphs: seq<Glyph>, width: nat) returns (output: seq<seq<Glyph>>)
    requires width > 0
    ensures Wrapped(glyphs, output, width)
  {
    output := [];
    var start := 0;
    assert glyphs[0..] == glyphs;
    while start < |glyphs|
      invariant 0 <= start <= |glyphs| && WrapsTo(glyphs, output, width, glyphs[start..])
    {
      output, start := WrapOne(glyphs, output, start, width);
    }
    assert glyphs[start..] == [];
  }

  method WrapOne(glyphs: seq<Glyph>, output: seq<seq<Glyph>>, start: nat, width: nat)
    returns (more: seq<seq<Glyph>>, next: nat)
    requires width > 0 && start < |glyphs| && WrapsTo(glyphs, output, width, glyphs[start..])
    ensures start < next <= |glyphs| && WrapsTo(glyphs, more, width, glyphs[next..])
  {
    var cut := NextCut(glyphs, start, width);
    LineTaken(glyphs, output, start, cut, width);
    more := output + [glyphs[start..cut]];
    next := Skipped(glyphs, cut);
  }

  lemma Sliced(glyphs: seq<Glyph>, start: nat, cut: nat)
    requires start <= cut <= |glyphs|
    ensures glyphs[start..cut] == glyphs[start..][..cut - start] && glyphs[start..][cut - start..] == glyphs[cut..]
  {
  }

  /** Past the white space at a break. */
  function Skipped(glyphs: seq<Glyph>, cut: nat): (next: nat)
    requires cut <= |glyphs|
    ensures cut <= next <= |glyphs|
  {
    if cut < |glyphs| && IsWhite(glyphs[cut].symbol) then cut + 1 else cut
  }

  lemma LineTaken(glyphs: seq<Glyph>, output: seq<seq<Glyph>>, start: nat, cut: nat, width: nat)
    requires start <= cut <= |glyphs| && start < |glyphs|
    requires WrapsTo(glyphs, output, width, glyphs[start..]) && IsNextLine(glyphs[start..], glyphs[start..cut], width)
    ensures WrapsTo(glyphs, output + [glyphs[start..cut]], width, glyphs[Skipped(glyphs, cut)..])
  {
    OneMoreLine(glyphs, output, width, glyphs[start..], glyphs[start..cut]);
    assert glyphs[start..][cut - start..] == glyphs[cut..];
    assert AfterBreak(glyphs[cut..]) == glyphs[Skipped(glyphs, cut)..];
  }

  method TrimStart(line: seq<Glyph>) returns (glyphs: seq<Glyph>)
    ensures glyphs == Trimmed(line)
  {
    var trim := 0;
    while trim < |line| && IsWhite(line[trim].symbol)
      invariant 0 <= trim <= |line| && Trimmed(line) == Trimmed(line[trim..])
    {
      trim := trim + 1;
    }
    glyphs := line[trim..];
  }

  /** How many glyphs fit, and the last white space among them, if any. */
  method Measure(glyphs: seq<Glyph>, width: nat) returns (fit: nat, lastSpace: int)
    ensures fit <= |glyphs| && Cells(glyphs[..fit]) <= width
    ensures fit < |glyphs| ==> Cells(glyphs[..fit]) + CharWidth(glyphs[fit].symbol) > width
    ensures -1 <= lastSpace < fit && (lastSpace >= 0 ==> IsWhite(glyphs[lastSpace].symbol))
    ensures forall j :: lastSpace < j < fit ==> !IsWhite(glyphs[j].symbol)
  {
    var used := 0;
    fit := 0;
    lastSpace := -1;
    while fit < |glyphs| && used + CharWidth(glyphs[fit].symbol) <= width
      invariant 0 <= fit <= |glyphs| && used == Cells(glyphs[..fit]) <= width
      invariant -1 <= lastSpace < fit && (lastSpace >= 0 ==> IsWhite(glyphs[lastSpace].symbol))
      invariant forall j :: lastSpace < j < fit ==> !IsWhite(glyphs[j].symbol)
    {
      CellsNext(glyphs, fit);
      used := used + CharWidth(glyphs[fit].symbol);
      if IsWhite(glyphs[fit].symbol) {
        lastSpace := fit;
      }
      fit := fit + 1;
    }
  }

  /** Where the line that starts at `start` ends. */
  method NextCut(glyphs: seq<Glyph>, start: nat, width: nat) returns (cut: nat)
    requires start < |glyphs| && width > 0
    ensures start <= cut <= |glyphs| && IsNextLine(glyphs[start..], glyphs[start..cut], width)
    ensures cut == start ==> IsWhite(glyphs[start].symbol)
  {
    var rest := glyphs[start..];
    var end, lastSpace := Measure(rest, width);
    ghost var fit := end;
    if end == 0 {
      end := 1;
    }
    var length := if end < |rest| && lastSpace >= 0 then lastSpace else end;
    CutIsRight(rest, width, fit, lastSpace, length);
    cut := start + length;
    Sliced(glyphs, start, cut);
  }

  lemma CutIsRight(glyphs: seq<Glyph>, width: nat, fit: nat, lastSpace: int, cut: nat)
    requires glyphs != [] && fit <= |glyphs| && Cells(glyphs[..fit]) <= width
    requires fit < |glyphs| ==> Cells(glyphs[..fit]) + CharWidth(glyphs[fit].symbol) > width
    requires -1 <= lastSpace < fit && (lastSpace >= 0 ==> IsWhite(glyphs[lastSpace].symbol))
    requires forall j :: lastSpace < j < fit ==> !IsWhite(glyphs[j].symbol)
    requires var end := if fit == 0 then 1 else fit; cut == if end < |glyphs| && lastSpace >= 0 then lastSpace else end
    ensures IsNextLine(glyphs, glyphs[..cut], width)
  {
    var line := glyphs[..cut];
    if cut == lastSpace {
      CellsGrow(glyphs, cut, fit);
      assert line + glyphs[cut..][..fit - cut] == glyphs[..fit];
    }
    if cut < |glyphs| {
      var ahead := if lastSpace >= 0 then fit - cut else 0;
      DoesNotFit(glyphs, width, fit, cut, ahead);
      assert BreaksAt(line, glyphs[cut..], width, ahead);
    }
  }

  // ----- What wrapping keeps

  function NonWhite(glyphs: seq<Glyph>): seq<Glyph> {
    if glyphs == [] then []
    else (if IsWhite(glyphs[0].symbol) then [] else [glyphs[0]]) + NonWhite(glyphs[1..])
  }

  function Joined(lines: seq<seq<Glyph>>): seq<Glyph> {
    if lines == [] then [] else lines[0] + Joined(lines[1..])
  }

  lemma {:induction false} NonWhiteConcat(a: seq<Glyph>, b: seq<Glyph>)
    ensures NonWhite(a + b) == NonWhite(a) + NonWhite(b)
  {
    if a == [] {
      assert a + b == b;
    } else {
      assert (a + b)[0] == a[0] && (a + b)[1..] == a[1..] + b;
      NonWhiteConcat(a[1..], b);
    }
  }

  lemma BreakKeeps(glyphs: seq<Glyph>, line: seq<Glyph>)
    requires line <= glyphs
    ensures NonWhite(glyphs) == NonWhite(line) + NonWhite(AfterBreak(glyphs[|line|..]))
    ensures |line| + |AfterBreak(glyphs[|line|..])| <= |glyphs| <= |line| + |AfterBreak(glyphs[|line|..])| + 1
  {
    var rest := glyphs[|line|..];
    assert glyphs == line + rest;
    NonWhiteConcat(line, rest);
    NonWhiteAfterBreak(rest);
  }

  lemma NonWhiteAfterBreak(rest: seq<Glyph>)
    ensures NonWhite(AfterBreak(rest)) == NonWhite(rest)
    ensures |AfterBreak(rest)| <= |rest| <= |AfterBreak(rest)| + 1
  {
    if rest != [] && IsWhite(rest[0].symbol) {
      assert [] + NonWhite(rest[1..]) == NonWhite(rest[1..]);
    }
  }

  /**
   Every character is kept in order with its own style, but for at most one white space per line; and every
   line fits the width or is one character that is too wide.
   */
  lemma {:induction false} WrappingKeeps(glyphs: seq<Glyph>, lines: seq<seq<Glyph>>, width: nat)
    requires Wrapped(glyphs, lines, width)
    ensures NonWhite(Joined(lines)) == NonWhite(glyphs)
    ensures |Joined(lines)| <= |glyphs| <= |Joined(lines)| + |lines|
    ensures forall l :: l in lines ==> FitsOrSingle(l, width)
    decreases |lines|
  {
    if lines != [] {
      WrappingKeeps(AfterBreak(glyphs[|lines[0]|..]), lines[1..], width);
      BreakKeeps(glyphs, lines[0]);
      NonWhiteConcat(lines[0], Joined(lines[1..]));
    }
  }

  lemma {:induction false} TrimmedKeeps(glyphs: seq<Glyph>)
    ensures NonWhite(Trimmed(glyphs)) == NonWhite(glyphs) && |Trimmed(glyphs)| <= |glyphs|
    ensures Trimmed(glyphs) == glyphs[|glyphs| - |Trimmed(glyphs)|..]
    ensures Trimmed(glyphs) != [] ==> !IsWhite(Trimmed(glyphs)[0].symbol)
  {
    if glyphs != [] && IsWhite(glyphs[0].symbol) {
      TrimmedKeeps(glyphs[1..]);
    }
  }

  /** Of two lines that could come next, neither is shorter. */
  lemma NextLineUnique(glyphs: seq<Glyph>, a: seq<Glyph>, b: seq<Glyph>, width: nat)
    requires glyphs != [] && IsNextLine(glyphs, a, width) && IsNextLine(glyphs, b, width)
    ensures a == b
  {
    assert a == glyphs[..|a|] && b == glyphs[..|b|];
    if |a| < |b| {
      NotShorter(glyphs, |a|, |b|, width);
    } else if |b| < |a| {
      NotShorter(glyphs, |b|, |a|, width);
    }
  }

  lemma NotShorter(glyphs: seq<Glyph>, i: nat, j: nat, width: nat)
    requires i < j <= |glyphs| && IsNextLine(glyphs, glyphs[..i], width)
    ensures !IsNextLine(glyphs, glyphs[..j], width)
  {
    var (a, rest) := (glyphs[..i], glyphs[i..]);
    var ahead: nat :| BreaksAt(a, rest, width, ahead);
    assert a + rest[..ahead + 1] == glyphs[..i + ahead + 1];
    if j > i + ahead {
      TooLong(glyphs, i, j, width, ahead);
    } else {
      assert a + rest[..ahead] == glyphs[..i + ahead];
      CellsGrow(glyphs, j, i + ahead);
      assert forall k :: i < k < i + ahead ==> glyphs[k] == rest[k - i];
      WhiteInside(glyphs, i, j, width, ahead);
    }
  }

  /** A line beyond the glyph that does not fit would have to be a single glyph. */
  lemma TooLong(glyphs: seq<Glyph>, i: nat, j: nat, width: nat, ahead: nat)
    requires i + ahead < j <= |glyphs| && Cells(glyphs[..i + ahead + 1]) > width && (ahead == 0 ==> i > 0)
    ensures !FitsOrSingle(glyphs[..j], width)
  {
    CellsGrow(glyphs, i + ahead + 1, j);
  }

  /** A longer line would contain the white space at which the shorter one ends. */
  lemma WhiteInside(glyphs: seq<Glyph>, i: nat, j: nat, width: nat, ahead: nat)
    requires i < j <= i + ahead < |glyphs| && Cells(glyphs[..i + ahead + 1]) > width && Cells(glyphs[..j]) <= width
    requires IsWhite(glyphs[i].symbol) && forall k :: i < k < i + ahead ==> !IsWhite(glyphs[k].symbol)
    ensures !IsNextLine(glyphs, glyphs[..j], width)
  {
    var (b, after) := (glyphs[..j], glyphs[j..]);
    forall more: nat ensures !BreaksAt(b, after, width, more) {
      if BreaksAt(b, after, width, more) && more > 0 {
        assert b + after[..more] == glyphs[..j + more];
        if j == i + ahead {
          CellsGrow(glyphs, i + ahead + 1, j + more);
        }
      }
      assert b[i] == glyphs[i];
    }
  }

  /** The specification leaves no choice: the wrapped lines are determined by the text and the width. */
  lemma {:induction false} WrappingUnique(glyphs: seq<Glyph>, a: seq<seq<Glyph>>, b: seq<seq<Glyph>>, width: nat)
    requires Wrapped(glyphs, a, width) && Wrapped(glyphs, b, width)
    ensures a == b
    decreases |a|
  {
    if a != [] {
      NextLineUnique(glyphs, a[0], b[0], width);
      WrappingUnique(AfterBreak(glyphs[|a[0]|..]), a[1..], b[1..], width);
      assert a == [a[0]] + a[1..] && b == [b[0]] + b[1..];
    }
  }
}
