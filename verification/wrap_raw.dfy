/** Wrapping of raw text: line by line, with white space around breaks trimmed away. */
module RawWrapping {
  import opened Basics
  import opened DisplayWidth

  // ----- Trimming

  predicate AllWhite(text: string) { forall i :: 0 <= i < |text| ==> IsWhite(text[i]) }

  function TrimmedStart(text: string): (rest: string)
    ensures |rest| <= |text| && (rest != "" ==> !IsWhite(rest[0]))
  {
    if text != "" && IsWhite(text[0]) then TrimmedStart(text[1..]) else text
  }

  function TrimmedEnd(text: string): (rest: string)
    ensures |rest| <= |text| && (rest != "" ==> !IsWhite(rest[|rest| - 1]))
  {
    if text != "" && IsWhite(text[|text| - 1]) then TrimmedEnd(text[..|text| - 1]) else text
  }

  lemma {:induction false} TrimmedStartIs(text: string)
    ensures var n := |text| - |TrimmedStart(text)|; text[n..] == TrimmedStart(text) && AllWhite(text[..n])
  {
    if text != "" && IsWhite(text[0]) {
      TrimmedStartIs(text[1..]);
      var n := |text| - |TrimmedStart(text)|;
      assert text[..n] == [text[0]] + text[1..][..n - 1];
    }
  }

  lemma {:induction false} TrimmedEndIs(text: string)
    ensures TrimmedEnd(text) <= text && AllWhite(text[|TrimmedEnd(text)|..])
  {
    if text != "" && IsWhite(text[|text| - 1]) {
      var most := text[..|text| - 1];
      TrimmedEndIs(most);
      assert text[|TrimmedEnd(text)|..] == most[|TrimmedEnd(text)|..] + [text[|text| - 1]];
    }
  }

  method TrimStart(text: string) returns (rest: string)
    ensures rest == TrimmedStart(text)
  {
    var i := 0;
    while i < |text| && IsWhite(text[i])
      invariant 0 <= i <= |text| && TrimmedStart(text[i..]) == TrimmedStart(text)
    {
      assert text[i..][1..] == text[i + 1..];
      i := i + 1;
    }
    rest := text[i..];
  }

  method TrimEnd(text: string) returns (rest: string)
    ensures rest == TrimmedEnd(text)
  {
    var i := |text|;
    assert text[..i] == text;
    while i > 0 && IsWhite(text[i - 1])
      invariant 0 <= i <= |text| && TrimmedEnd(text[..i]) == TrimmedEnd(text)
    {
      assert text[..i][..i - 1] == text[..i - 1];
      i := i - 1;
    }
    rest := text[..i];
  }

  // ----- Where a line ends

  /** How many characters from the start fit, given that `end` do. */
  function Fitting(text: string, width: nat, end: nat): (fit: nat)
    requires end <= |text|
    ensures end <= fit <= |text|
    decreases |text| - end
  {
    if end < |text| && Width(text[..end + 1]) <= width then Fitting(text, width, end + 1) else end
  }

  /** The last white space before `end` that is not the first character, or zero. */
  function LastWhite(text: string, end: nat): (at: nat)
    requires end <= |text|
    ensures at == 0 || at < end
  {
    if end <= 1 then 0 else if IsWhite(text[end - 1]) then end - 1 else LastWhite(text, end - 1)
  }

  function CutOf(text: string, width: nat): (cut: nat)
    requires text != ""
    ensures 0 < cut <= |text|
  {
    var fit := Fitting(text, width, 0);
    var end := if fit == 0 then 1 else fit;
    if end < |text| && LastWhite(text, fit) > 0 then LastWhite(text, fit) else end
  }

  /**
   `fit` characters fit and no more; the cut is the last white space among them, or else all of them, at least one.
   */
  predicate LastBreak(text: string, width: nat, cut: nat, fit: nat) {
    && fit < |text| && Width(text[..fit]) <= width < Width(text[..fit + 1])
    && if cut < fit then IsWhite(text[cut]) && forall j :: cut < j < fit ==> !IsWhite(text[j])
       else cut == (if fit == 0 then 1 else fit) && forall j :: 0 < j < fit ==> !IsWhite(text[j])
  }

  lemma {:induction false} FittingFits(text: string, width: nat, end: nat)
    requires end <= |text| && Width(text[..end]) <= width
    ensures var fit := Fitting(text, width, end);
      Width(text[..fit]) <= width && (fit < |text| ==> Width(text[..fit + 1]) > width)
    decreases |text| - end
  {
    if end < |text| && Width(text[..end + 1]) <= width {
      FittingFits(text, width, end + 1);
    }
  }

  lemma {:induction false} LastWhiteIsLast(text: string, end: nat)
    requires end <= |text|
    ensures
      var at := LastWhite(text, end);
      (at > 0 ==> IsWhite(text[at])) && forall j :: at < j < end ==> !IsWhite(text[j])
  {
    if end > 1 && !IsWhite(text[end - 1]) {
      LastWhiteIsLast(text, end - 1);
    }
  }

  /** A line takes everything if everything fits; otherwise it ends at its last white space, or where no more fits. */
  lemma CutIsLastBreak(text: string, width: nat)
    requires text != ""
    ensures var cut := CutOf(text, width);
      if Width(text) <= width || |text| == 1 then cut == |text| else exists fit: nat :: LastBreak(text, width, cut, fit)
  {
    FitsAll(text, width);
    if Width(text) > width && |text| > 1 {
      BreaksLast(text, width);
    }
  }

  lemma BreaksLast(text: string, width: nat)
    requires |text| > 1 && Fitting(text, width, 0) < |text|
    ensures LastBreak(text, width, CutOf(text, width), Fitting(text, width, 0))
  {
    assert text[..0] == "";
    FittingFits(text, width, 0);
    LastWhiteIsLast(text, Fitting(text, width, 0));
  }

  lemma FitsAll(text: string, width: nat)
    ensures Width(text[..0]) == 0
    ensures Fitting(text, width, 0) == |text| <==> Width(text) <= width
  {
    var fit := Fitting(text, width, 0);
    assert text[..0] == "" && text[..|text|] == text;
    FittingFits(text, width, 0);
    if fit < |text| {
      WidthGrows(text, fit + 1, |text|);
    }
  }

  lemma {:induction false} WidthGrows(text: string, i: nat, j: nat)
    ensures i <= j <= |text| ==> Width(text[..i]) <= Width(text[..j])
    decreases j
  {
    if i < j <= |text| {
      assert text[..j] == text[..j - 1] + [text[j - 1]];
      WidthPush(text[..j - 1], text[j - 1]);
      WidthGrows(text, i, j - 1);
    }
  }

  lemma CutFits(text: string, width: nat)
    requires text != ""
    ensures Width(text[..CutOf(text, width)]) <= width || CutOf(text, width) == 1
  {
    var fit := Fitting(text, width, 0);
    assert text[..0] == "";
    FittingFits(text, width, 0);
    WidthGrows(text, CutOf(text, width), fit);
  }

  method NextCut(text: string, width: nat) returns (cut: nat)
    requires text != ""
    ensures cut == CutOf(text, width)
  {
    var used, end, lastSpace := 0, 0, 0;
    assert text[..0] == "";
    while end < |text| && used + CharWidth(text[end]) <= width
      invariant 0 <= end <= |text| && used == Width(text[..end])
      invariant Fitting(text, width, end) == Fitting(text, width, 0)
      invariant lastSpace == LastWhite(text, end)
    {
      PushOne(text, end);
      used := used + CharWidth(text[end]);
      if IsWhite(text[end]) {
        lastSpace := end;
      }
      end := end + 1;
    }
    if end < |text| {
      PushOne(text, end);
    }
    assert end == Fitting(text, width, 0);
    if end == 0 {
      end := 1;
    }
    cut := if end < |text| && lastSpace > 0 then lastSpace else end;
  }

  lemma PushOne(text: string, end: nat)
    requires end < |text|
    ensures Width(text[..end + 1]) == Width(text[..end]) + CharWidth(text[end])
  {
    assert text[..end + 1] == text[..end] + [text[end]];
    WidthPush(text[..end], text[end]);
  }

  // ----- Lines

  /** The lines of a text that begins with no white space: each is cut off and trimmed. */
  function Lines(text: string, width: nat): seq<string>
    decreases |text|
  {
    if text == "" then []
    else [TrimmedEnd(text[..CutOf(text, width)])] + Lines(TrimmedStart(text[CutOf(text, width)..]), width)
  }

  /** An empty line stays; a line of white space vanishes. */
  function LogicalLines(logical: string, width: nat): seq<string> {
    if logical == "" then [""] else Lines(TrimmedStart(logical), width)
  }

  function AllLines(logical: seq<string>, width: nat): seq<string> {
    if logical == [] then [] else LogicalLines(logical[0], width) + AllLines(logical[1..], width)
  }

  /** The logical lines of a text. */
  function Logical(text: string): (lines: seq<string>)
    ensures lines != []
  {
    SplitAt(text, '\n')
  }

  method WrapRawText(text: string, width: nat) returns (output: seq<string>)
    ensures output == if width == 0 then [] else AllLines(Logical(text), width)
  {
    output := [];
    if width == 0 {
      return;
    }
    var logical := Logical(text);
    assert logical[0..] == logical;
    for i := 0 to |logical|
      invariant output + AllLines(logical[i..], width) == AllLines(logical, width)
    {
      NextLogical(output, logical, i, width);
      var lines := WrapLogicalLine(logical[i], width);
      output := output + lines;
    }
    assert logical[|logical|..] == [];
  }

  lemma NextLogical(output: seq<string>, logical: seq<string>, i: nat, width: nat)
    requires i < |logical|
    ensures output + AllLines(logical[i..], width)
         == (output + LogicalLines(logical[i], width)) + AllLines(logical[i + 1..], width)
  {
    assert logical[i..][0] == logical[i] && logical[i..][1..] == logical[i + 1..];
  }

  method WrapLogicalLine(logical: string, width: nat) returns (lines: seq<string>)
    ensures lines == LogicalLines(logical, width)
  {
    if logical == "" {
      return [""];
    }
    var remaining := TrimStart(logical);
    lines := WrapTrimmed(remaining, width);
  }

  method WrapTrimmed(text: string, width: nat) returns (lines: seq<string>)
    ensures lines == Lines(text, width)
  {
    var remaining := text;
    lines := [];
    while remaining != ""
      invariant lines + Lines(remaining, width) == Lines(text, width)
      decreases |remaining|
    {
      var cut := NextCut(remaining, width);
      var line := TrimEnd(remaining[..cut]);
      lines := lines + [line];
      remaining := TrimStart(remaining[cut..]);
    }
  }

  // ----- What wrapping keeps

  /** The characters that are not white space, in order. */
  function Solid(text: string): string {
    if text == "" then "" else (if IsWhite(text[0]) then "" else [text[0]]) + Solid(text[1..])
  }

  function SolidOf(lines: seq<string>): string {
    if lines == [] then "" else Solid(lines[0]) + SolidOf(lines[1..])
  }

  /** A line fits or is one character, and white space neither begins nor ends it. */
  predicate GoodLine(line: string, width: nat) {
    && (Width(line) <= width || |line| == 1)
    && (line != "" ==> !IsWhite(line[0]) && !IsWhite(line[|line| - 1]))
  }

  lemma {:induction false} SolidConcat(a: string, b: string)
    ensures Solid(a + b) == Solid(a) + Solid(b)
  {
    if a == "" {
      assert a + b == b;
    } else {
      assert (a + b)[0] == a[0] && (a + b)[1..] == a[1..] + b;
      SolidConcat(a[1..], b);
    }
  }

  lemma {:induction false} WhiteIsNotSolid(text: string)
    requires AllWhite(text)
    ensures Solid(text) == ""
  {
    if text != "" {
      WhiteIsNotSolid(text[1..]);
    }
  }

  lemma WhiteAround(white: string, rest: string)
    requires AllWhite(white)
    ensures Solid(white + rest) == Solid(rest) == Solid(rest + white)
  {
    WhiteIsNotSolid(white);
    SolidConcat(white, rest);
    SolidConcat(rest, white);
  }

  lemma TrimsKeepSolid(text: string)
    ensures Solid(TrimmedStart(text)) == Solid(text) && Solid(TrimmedEnd(text)) == Solid(text)
  {
    StartKeepsSolid(text);
    EndKeepsSolid(text);
  }

  lemma StartKeepsSolid(text: string)
    ensures Solid(TrimmedStart(text)) == Solid(text)
  {
    TrimmedStartIs(text);
    var n := |text| - |TrimmedStart(text)|;
    assert text == text[..n] + TrimmedStart(text);
    WhiteAround(text[..n], TrimmedStart(text));
  }

  lemma EndKeepsSolid(text: string)
    ensures Solid(TrimmedEnd(text)) == Solid(text)
  {
    TrimmedEndIs(text);
    var white := text[|TrimmedEnd(text)|..];
    assert text == TrimmedEnd(text) + white;
    WhiteAround(white, TrimmedEnd(text));
  }

  lemma {:induction false} SolidOfConcat(a: seq<string>, b: seq<string>)
    ensures SolidOf(a + b) == SolidOf(a) + SolidOf(b)
  {
    if a == [] {
      assert a + b == b;
    } else {
      assert (a + b)[1..] == a[1..] + b;
      SolidOfConcat(a[1..], b);
    }
  }

  lemma {:induction false} LinesKeep(text: string, width: nat)
    requires width > 0 && (text != "" ==> !IsWhite(text[0]))
    ensures SolidOf(Lines(text, width)) == Solid(text)
    ensures forall l :: l in Lines(text, width) ==> GoodLine(l, width)
    ensures Lines(text, width) == [] <==> text == ""
    decreases |text|
  {
    if text != "" {
      var cut := CutOf(text, width);
      var (line, rest) := (TrimmedEnd(text[..cut]), TrimmedStart(text[cut..]));
      LinesKeep(rest, width);
      LineIsGood(text, width);
      SolidConcat(text[..cut], text[cut..]);
      assert text == text[..cut] + text[cut..];
      TrimsKeepSolid(text[..cut]);
      TrimsKeepSolid(text[cut..]);
      assert Lines(text, width) == [line] + Lines(rest, width);
      assert ([line] + Lines(rest, width))[1..] == Lines(rest, width);
    }
  }

  lemma LineIsGood(text: string, width: nat)
    requires text != "" && !IsWhite(text[0])
    ensures GoodLine(TrimmedEnd(text[..CutOf(text, width)]), width)
  {
    var cut := CutOf(text, width);
    var line := TrimmedEnd(text[..cut]);
    CutFits(text, width);
    TrimmedEndIs(text[..cut]);
    assert line == text[..|line|];
    WidthGrows(text, |line|, cut);
  }

  lemma {:induction false} SplitKeepsSolid(text: string, separator: char)
    requires IsWhite(separator)
    ensures SolidOf(SplitAt(text, separator)) == Solid(text)
  {
    if text == "" {
      assert [""][1..] == [];
    } else {
      SplitKeepsSolid(text[1..], separator);
      var rest := SplitAt(text[1..], separator);
      if text[0] == separator {
        SolidWithEmpty(rest);
      } else {
        SolidWithFirst(text[0], rest);
      }
    }
  }

  lemma SolidOfCons(first: string, rest: seq<string>)
    ensures SolidOf([first] + rest) == Solid(first) + SolidOf(rest)
  {
    assert ([first] + rest)[1..] == rest;
  }

  lemma SolidWithEmpty(rest: seq<string>)
    ensures SolidOf([""] + rest) == SolidOf(rest)
  {
    SolidOfCons("", rest);
    assert "" + SolidOf(rest) == SolidOf(rest);
  }

  lemma SolidOfOne(c: char)
    ensures Solid([c]) == if IsWhite(c) then "" else [c]
  {
    assert [c][1..] == "";
  }

  lemma SolidWithFirst(c: char, rest: seq<string>)
    requires rest != []
    ensures SolidOf([[c] + rest[0]] + rest[1..]) == (if IsWhite(c) then "" else [c]) + SolidOf(rest)
  {
    SolidOfCons([c] + rest[0], rest[1..]);
    SolidConcat([c], rest[0]);
    SolidOfOne(c);
    Grouped(if IsWhite(c) then "" else [c], Solid(rest[0]), SolidOf(rest[1..]));
  }

  lemma Grouped(a: string, b: string, c: string)
    ensures a + b + c == a + (b + c)
  {
  }

  lemma {:induction false} AllLinesKeep(logical: seq<string>, width: nat)
    requires width > 0
    ensures SolidOf(AllLines(logical, width)) == SolidOf(logical)
    ensures forall l :: l in AllLines(logical, width) ==> GoodLine(l, width)
  {
    if logical != [] {
      AllLinesKeep(logical[1..], width);
      LogicalKeep(logical[0], width);
      SolidOfConcat(LogicalLines(logical[0], width), AllLines(logical[1..], width));
    }
  }

  lemma LogicalKeep(logical: string, width: nat)
    requires width > 0
    ensures SolidOf(LogicalLines(logical, width)) == Solid(logical)
    ensures forall l :: l in LogicalLines(logical, width) ==> GoodLine(l, width)
    ensures LogicalLines(logical, width) == [] <==> logical != "" && AllWhite(logical)
  {
    if logical == "" {
      assert [""][1..] == [];
    } else {
      TrimsKeepSolid(logical);
      TrimmedStartIs(logical);
      LinesKeep(TrimmedStart(logical), width);
      var n := |logical| - |TrimmedStart(logical)|;
      if TrimmedStart(logical) == "" {
        assert logical[..n] == logical;
      } else {
        assert logical[n] == logical[n..][0];
      }
    }
  }

  /** No character but white space is lost, moved or added, and every line fits or is one wide character. */
  lemma RawWrappingKeeps(text: string, width: nat)
    requires width > 0
    ensures SolidOf(AllLines(Logical(text), width)) == Solid(text)
    ensures forall l :: l in AllLines(Logical(text), width) ==> GoodLine(l, width)
  {
    SplitKeepsSolid(text, '\n');
    AllLinesKeep(Logical(text), width);
  }
}
