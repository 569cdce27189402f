/**
 The prompt editor: a text and a cursor that is a UTF-8 byte offset. Slicing a text needs a character
 boundary, so the preconditions of `CharsBefore` are the panics the editor must avoid.
 */
module Composers {
  import opened Basics
  import opened DisplayWidth
  import opened Utf8
  import opened VisualLayouts
  import opened Wrappers

  // ----- Byte offsets

  /** The offset falls between two characters. */
  predicate IsBoundary(text: string, n: nat) {
    n == 0 || (text != "" && n >= |EncodeChar(text[0])| && IsBoundary(text[1..], n - |EncodeChar(text[0])|))
  }

  /** How many characters the offset spans; slicing `text[..n]` yields that many. */
  function CharsBefore(text: string, n: nat): (p: nat)
    requires IsBoundary(text, n)
    ensures p <= |text|
  {
    if n == 0 then 0 else 1 + CharsBefore(text[1..], n - |EncodeChar(text[0])|)
  }

  lemma {:induction false} BoundaryOffset(text: string, p: nat)
    requires p <= |text|
    ensures IsBoundary(text, Offset(text, p)) && CharsBefore(text, Offset(text, p)) == p
    decreases p
  {
    if p > 0 {
      var rest := text[1..];
      assert text[..p][0] == text[0] && text[..p][1..] == rest[..p - 1];
      BoundaryOffset(rest, p - 1);
      assert Offset(text, p) == |EncodeChar(text[0])| + Offset(rest, p - 1);
    }
  }

  lemma {:induction false} OffsetOfChars(text: string, n: nat)
    requires IsBoundary(text, n)
    ensures Offset(text, CharsBefore(text, n)) == n
    decreases n
  {
    if n > 0 {
      var (rest, m) := (text[1..], n - |EncodeChar(text[0])|);
      OffsetOfChars(rest, m);
      var p := CharsBefore(text, n);
      assert text[..p][0] == text[0] && text[..p][1..] == rest[..p - 1];
    } else {
      assert text[..0] == "";
    }
  }

  // ----- Clusters, words and lines

  /** Where the cluster before position `p` starts: zero-width characters belong to what precedes them. */
  function ClusterStart(text: string, p: nat): (s: nat)
    requires p <= |text|
    ensures s <= p && (p > 0 ==> s < p)
  {
    if p == 0 then 0 else if IsZeroWidth(text[p - 1]) then ClusterStart(text, p - 1) else p - 1
  }

  function ZeroWidthEnd(text: string, p: nat): (e: nat)
    requires p <= |text|
    ensures p <= e <= |text| && (e < |text| ==> !IsZeroWidth(text[e]))
    ensures forall i :: p <= i < e ==> IsZeroWidth(text[i])
    decreases |text| - p
  {
    if p < |text| && IsZeroWidth(text[p]) then ZeroWidthEnd(text, p + 1) else p
  }

  function ClusterEnd(text: string, p: nat): (e: nat)
    requires p <= |text|
    ensures p <= e <= |text| && (p < |text| ==> p < e)
  {
    if p == |text| then p else ZeroWidthEnd(text, p + 1)
  }

  lemma {:induction false} ClusterStartOver(text: string, s: nat, p: nat)
    requires s < p <= |text| && !IsZeroWidth(text[s]) && forall i :: s < i < p ==> IsZeroWidth(text[i])
    ensures ClusterStart(text, p) == s
    decreases p
  {
    if s < p - 1 {
      ClusterStartOver(text, s, p - 1);
    }
  }

  lemma {:induction false} ClusterStartIs(text: string, p: nat)
    requires p <= |text|
    ensures var s := ClusterStart(text, p);
      (s > 0 ==> !IsZeroWidth(text[s])) && forall i :: s < i < p ==> IsZeroWidth(text[i])
    decreases p
  {
    if p > 0 && IsZeroWidth(text[p - 1]) {
      ClusterStartIs(text, p - 1);
    }
  }

  /** Moving right over a cluster and left again returns to its start, and the other way round. */
  lemma ClustersInvert(text: string, p: nat)
    requires p <= |text|
    ensures p < |text| && !IsZeroWidth(text[p]) ==> ClusterStart(text, ClusterEnd(text, p)) == p
    ensures p > 0 && (p == |text| || !IsZeroWidth(text[p])) ==> ClusterEnd(text, ClusterStart(text, p)) == p
  {
    if p < |text| && !IsZeroWidth(text[p]) {
      ClusterStartOver(text, p, ClusterEnd(text, p));
    }
    if p > 0 && (p == |text| || !IsZeroWidth(text[p])) {
      ClusterStartIs(text, p);
      assert ClusterEnd(text, ClusterStart(text, p)) == ZeroWidthEnd(text, ClusterStart(text, p) + 1);
    }
  }

  /** `s` starts the logical line of position `p`. */
  predicate StartsLine(text: string, s: nat, p: nat) {
    s <= p <= |text| && (s == 0 || text[s - 1] == '\n') && '\n' !in text[s..p]
  }

  predicate EndsLine(text: string, e: nat, p: nat) {
    p <= e <= |text| && (e == |text| || text[e] == '\n') && '\n' !in text[p..e]
  }

  lemma NoBreak(text: string, i: nat, j: nat, k: nat)
    requires i <= k < j <= |text| && '\n' !in text[i..j]
    ensures text[k] != '\n'
  {
    assert text[i..j][k - i] == text[k];
  }

  lemma LineStartUnique(text: string, s: nat, r: nat, p: nat)
    requires StartsLine(text, s, p) && StartsLine(text, r, p)
    ensures s == r
  {
    if s < r {
      NoBreak(text, s, p, r - 1);
    } else if r < s {
      NoBreak(text, r, p, s - 1);
    }
  }

  lemma LineEndUnique(text: string, e: nat, f: nat, p: nat)
    requires EndsLine(text, e, p) && EndsLine(text, f, p)
    ensures e == f
  {
    if e < f {
      NoBreak(text, p, f, e);
    } else if f < e {
      NoBreak(text, p, e, f);
    }
  }

  /** `q` is `column` characters into the line from `t` to `e`, or at its end if the line is shorter. */
  predicate AtCharacter(t: nat, e: nat, column: nat, q: nat) {
    t <= q <= e && q - t <= column && (q - t < column ==> q == e)
  }

  /** From the line that starts at `s` to the line above it, which starts at `t`; the first line has none above. */
  predicate LandsAbove(text: string, s: nat, t: nat, p: nat, q: nat) {
    && StartsLine(text, s, p)
    && if s == 0 then t == 0 && q == p else StartsLine(text, t, s - 1) && AtCharacter(t, s - 1, p - s, q)
  }

  /** From the line between `s` and `e` to the line below it, which ends at `f`; the last line has none below. */
  predicate LandsBelow(text: string, s: nat, e: nat, f: nat, p: nat, q: nat) {
    && StartsLine(text, s, p) && EndsLine(text, e, p)
    && if e == |text| then f == e && q == p else EndsLine(text, f, e + 1) && AtCharacter(e + 1, f, p - s, q)
  }

  /** `q` is in the logical line above that of `p`, in the same column or at its end. */
  ghost predicate LineAbove(text: string, p: nat, q: nat) { exists s: nat, t: nat :: LandsAbove(text, s, t, p, q) }

  /** `q` is in the logical line below that of `p`, in the same column or at its end. */
  ghost predicate LineBelow(text: string, p: nat, q: nat) {
    exists s: nat, e: nat, f: nat :: LandsBelow(text, s, e, f, p, q)
  }

  lemma LineAboveUnique(text: string, p: nat, q: nat, r: nat)
    requires LineAbove(text, p, q) && LineAbove(text, p, r)
    ensures q == r
  {
    var s: nat, t: nat :| LandsAbove(text, s, t, p, q);
    var u: nat, v: nat :| LandsAbove(text, u, v, p, r);
    LineStartUnique(text, s, u, p);
    if s > 0 {
      LineStartUnique(text, t, v, s - 1);
    }
  }

  lemma LineBelowUnique(text: string, p: nat, q: nat, r: nat)
    requires LineBelow(text, p, q) && LineBelow(text, p, r)
    ensures q == r
  {
    var s: nat, e: nat, f: nat :| LandsBelow(text, s, e, f, p, q);
    var u: nat, v: nat, g: nat :| LandsBelow(text, u, v, g, p, r);
    LineStartUnique(text, s, u, p);
    LineEndUnique(text, e, v, p);
    if e < |text| {
      LineEndUnique(text, f, g, e + 1);
    }
  }

  /** Moving up and down again returns exactly if the line above reaches as far as the cursor. */
  lemma UpThenDown(text: string, s: nat, t: nat, p: nat, q: nat)
    requires s > 0 && LandsAbove(text, s, t, p, q)
    ensures LineBelow(text, q, p) <==> p - s <= s - 1 - t
  {
    assert text[t..s - 1] == text[t..q] + text[q..s - 1];
    var f := LineEndAfter(text, p);
    assert text[s..f] == text[s..p] + text[p..f];
    var (column, length) := (q - t, f - s);
    var back := s + if column < length then column else length;
    assert AtCharacter(s, f, column, back);
    assert LandsBelow(text, t, s - 1, f, q, back);
    if LineBelow(text, q, p) {
      LineBelowUnique(text, q, p, back);
    }
  }

  lemma {:induction false} LineEndAfter(text: string, p: nat) returns (e: nat)
    requires p <= |text|
    ensures EndsLine(text, e, p)
    decreases |text| - p
  {
    if p == |text| || text[p] == '\n' {
      e := p;
    } else {
      e := LineEndAfter(text, p + 1);
      assert text[p..e] == [text[p]] + text[p + 1..e];
    }
  }

  // ----- Scans over byte offsets

  /** Back over whole characters to behind the line break before `p`, or to the start of the text. */
  method ScanBack(text: string, p: nat, at: nat) returns (s: nat, start: nat)
    requires p <= |text| && at == Offset(text, p)
    ensures StartsLine(text, s, p) && start == Offset(text, s)
  {
    s, start := p, at;
    while s > 0 && text[s - 1] != '\n'
      invariant s <= p && start == Offset(text, s) && '\n' !in text[s..p]
    {
      OffsetNext(text, s - 1);
      assert text[s - 1..p] == [text[s - 1]] + text[s..p];
      s, start := s - 1, start - |EncodeChar(text[s - 1])|;
    }
  }

  /** On to the line break after `p`, or to the end of the text. */
  method ScanForward(text: string, p: nat, at: nat) returns (e: nat, end: nat)
    requires p <= |text| && at == Offset(text, p)
    ensures EndsLine(text, e, p) && end == Offset(text, e)
  {
    e, end := p, at;
    while e < |text| && text[e] != '\n'
      invariant p <= e <= |text| && end == Offset(text, e) && '\n' !in text[p..e]
    {
      OffsetNext(text, e);
      assert text[p..e + 1] == text[p..e] + [text[e]];
      e, end := e + 1, end + |EncodeChar(text[e])|;
    }
  }

  /** The number of characters between two offsets. */
  method CountChars(text: string, from: nat, start: nat, ghost p: nat, at: nat) returns (count: nat)
    requires from <= p <= |text| && start == Offset(text, from) && at == Offset(text, p)
    ensures count == p - from
  {
    var offset := start;
    count := 0;
    OffsetsGrow(text, from, p);
    while offset < at
      invariant from + count <= p && offset == Offset(text, from + count)
      decreases at - offset
    {
      assert from + count < p;
      OffsetNext(text, from + count);
      offset, count := offset + |EncodeChar(text[from + count])|, count + 1;
    }
    OffsetsGrow(text, from + count, p);
  }

  /** The offset of the character at a column of a line, or of the line's end. */
  method CharOffset(text: string, from: nat, start: nat, ghost to: nat, end: nat, column: nat)
    returns (at: nat, ghost q: nat)
    requires from <= to <= |text| && start == Offset(text, from) && end == Offset(text, to)
    ensures AtCharacter(from, to, column, q) && at == Offset(text, q)
  {
    var n := 0;
    at := start;
    OffsetsGrow(text, from, to);
    while n < column && at < end
      invariant 0 <= n <= column && from + n <= to
      invariant at == Offset(text, from + n)
      decreases column - n
    {
      assert from + n < to;
      OffsetNext(text, from + n);
      at, n := at + |EncodeChar(text[from + n])|, n + 1;
    }
    OffsetsGrow(text, from + n, to);
    q := from + n;
  }

  /** Deleting forward after moving left removes what backspace removes, at every cluster boundary. */
  lemma BackspaceIsDelete(text: string, p: nat)
    requires 0 < p <= |text| && (p == |text| || !IsZeroWidth(text[p]))
    ensures var s := ClusterStart(text, p); text[..s] + text[p..] == text[..s] + text[ClusterEnd(text, s)..]
  {
    ClustersInvert(text, p);
  }

  lemma StartOfText(text: string, s: nat)
    requires s <= |text|
    ensures Offset(text, s) == 0 <==> s == 0
  {
    assert text[..0] == "";
    OffsetsGrow(text, 0, s);
  }

  lemma EndOfText(text: string, e: nat)
    requires e <= |text|
    ensures Offset(text, e) == |Encode(text)| <==> e == |text|
  {
    assert text[..|text|] == text;
    OffsetsGrow(text, e, |text|);
  }

  // ----- The editor

  class Composer {
    var text: string
    var cursor: nat

    predicate Valid()
      reads this
    {
      IsBoundary(text, cursor)
    }

    /** The cursor's position in characters. */
    function At(): (p: nat)
      requires Valid()
      reads this
      ensures p <= |text|
    {
      CharsBefore(text, cursor)
    }

    constructor ()
      ensures Valid() && text == "" && cursor == 0
    {
      text, cursor := "", 0;
    }

    /** Inserts anywhere; the one-line operations refuse line breaks first and change nothing. */
    method InsertText(inserted: string)
      requires Valid()
      modifies this
      ensures Valid() && text == old(text[..At()] + inserted + text[At()..])
      ensures At() == old(At()) + |inserted|
    {
      var p := At();
      OffsetOfChars(text, cursor);
      var before := text[..p];
      text := text[..p] + inserted + text[p..];
      cursor := cursor + |Encode(inserted)|;
      EncodeConcat(before, inserted);
      assert text[..p + |inserted|] == before + inserted;
      BoundaryOffset(text, p + |inserted|);
    }

    method InsertLine(inserted: string) returns (ok: bool)
      requires Valid()
      modifies this
      ensures Valid() && (ok <==> '\n' !in inserted && '\r' !in inserted)
      ensures ok ==> text == old(text[..At()] + inserted + text[At()..]) && At() == old(At()) + |inserted|
      ensures !ok ==> text == old(text) && cursor == old(cursor)
    {
      if exists c :: c in inserted && (c == '\n' || c == '\r') {
        return false;
      }
      InsertText(inserted);
      return true;
    }

    /** Replaces everything and puts the cursor at the end. */
    method ReplaceFromEditor(replacement: string)
      modifies this
      ensures Valid() && text == replacement && At() == |replacement|
    {
      text := replacement;
      cursor := |Encode(replacement)|;
      assert replacement[..|replacement|] == replacement;
      BoundaryOffset(text, |text|);
    }

    /** Takes the whole input and leaves the editor empty. */
    method Take() returns (taken: string)
      modifies this
      ensures Valid() && text == "" && cursor == 0 && taken == old(text)
    {
      taken := text;
      text, cursor := "", 0;
    }

    method PreviousClusterStart() returns (start: nat)
      requires Valid()
      ensures start == Offset(text, ClusterStart(text, At()))
    {
      var p := At();
      OffsetOfChars(text, cursor);
      start := cursor;
      if p == 0 {
        return;
      }
      p := p - 1;
      OffsetNext(text, p);
      start := start - |EncodeChar(text[p])|;
      while IsZeroWidth(text[p])
        invariant p < |text| && start == Offset(text, p)
        invariant ClusterStart(text, At()) == ClusterStart(text, p + 1)
        decreases p
      {
        if p == 0 {
          return 0;
        }
        p := p - 1;
        OffsetNext(text, p);
        start := start - |EncodeChar(text[p])|;
      }
    }

    method MoveLeft()
      requires Valid()
      modifies this`cursor
      ensures Valid() && At() == ClusterStart(text, old(At()))
    {
      BoundaryOffset(text, ClusterStart(text, At()));
      cursor := PreviousClusterStart();
    }

    /** The offset past the cluster at the cursor. */
    method NextClusterEnd() returns (end: nat)
      requires Valid()
      ensures end == Offset(text, ClusterEnd(text, At()))
    {
      var p := At();
      OffsetOfChars(text, cursor);
      end := cursor;
      if p == |text| {
        return;
      }
      OffsetNext(text, p);
      end, p := end + |EncodeChar(text[p])|, p + 1;
      while p < |text| && IsZeroWidth(text[p])
        invariant p <= |text| && end == Offset(text, p)
        invariant ZeroWidthEnd(text, p) == ClusterEnd(text, At())
      {
        OffsetNext(text, p);
        end, p := end + |EncodeChar(text[p])|, p + 1;
      }
    }

    method MoveRight()
      requires Valid()
      modifies this`cursor
      ensures Valid() && At() == ClusterEnd(text, old(At()))
    {
      BoundaryOffset(text, ClusterEnd(text, At()));
      cursor := NextClusterEnd();
    }

    method Backspace()
      requires Valid()
      modifies this
      ensures Valid() && At() == ClusterStart(old(text), old(At()))
      ensures text == old(text[..ClusterStart(text, At())] + text[At()..])
    {
      var p := At();
      ghost var s := ClusterStart(text, p);
      var start := PreviousClusterStart();
      BoundaryOffset(text, s);
      var keep := text[..CharsBefore(text, start)];
      text := keep + text[p..];
      cursor := start;
      assert text[..s] == keep;
      BoundaryOffset(text, s);
    }

    method Delete()
      requires Valid()
      modifies this
      ensures Valid() && At() == old(At())
      ensures text == old(text[..At()] + text[ClusterEnd(text, At())..])
    {
      var p := At();
      OffsetOfChars(text, cursor);
      var end := NextClusterEnd();
      BoundaryOffset(text, ClusterEnd(text, p));
      var keep := text[..p];
      text := keep + text[CharsBefore(text, end)..];
      assert text[..p] == keep;
      BoundaryOffset(text, p);
    }

    /** Stops at the start of the word before the cursor. */
    method MoveWordLeft()
      requires Valid()
      modifies this`cursor
      ensures Valid() && WordLeft(text, old(At()), At())
    {
      var word := SkipLeft(text, At(), true);
      var start := SkipLeft(text, word, false);
      GoTo(start);
      assert Run(text, start, word, false) && Run(text, word, old(At()), true);
    }

    /** Stops at the end of the word after the cursor. */
    method MoveWordRight()
      requires Valid()
      modifies this`cursor
      ensures Valid() && WordRight(text, old(At()), At())
    {
      var word := SkipRight(text, At(), true);
      var end := SkipRight(text, word, false);
      GoTo(end);
      assert Run(text, old(At()), word, true) && Run(text, word, end, false);
    }

    method Home()
      requires Valid()
      modifies this`cursor
      ensures Valid() && StartsLine(text, At(), old(At()))
    {
      OffsetOfChars(text, cursor);
      var s, start := ScanBack(text, At(), cursor);
      BoundaryOffset(text, s);
      cursor := start;
    }

    method End()
      requires Valid()
      modifies this`cursor
      ensures Valid() && EndsLine(text, At(), old(At()))
    {
      OffsetOfChars(text, cursor);
      var e, end := ScanForward(text, At(), cursor);
      BoundaryOffset(text, e);
      cursor := end;
    }

    /** Keeps the character column on the line above, or goes to its end; the first line stays. */
    method MoveLineUp()
      requires Valid()
      modifies this`cursor
      ensures Valid() && LineAbove(text, old(At()), At())
    {
      ghost var p := At();
      OffsetOfChars(text, cursor);
      var s, start := ScanBack(text, At(), cursor);
      StartOfText(text, s);
      if start == 0 {
        assert LandsAbove(text, s, 0, p, p);
        return;
      }
      var column := CountChars(text, s, start, p, cursor);
      OffsetNext(text, s - 1);
      var t, first := ScanBack(text, s - 1, start - 1);
      var at, q := CharOffset(text, t, first, s - 1, start - 1, column);
      BoundaryOffset(text, q);
      cursor := at;
      assert LandsAbove(text, s, t, p, q);
    }

    /** Keeps the character column on the line below, or goes to its end; the last line stays. */
    method MoveLineDown()
      requires Valid()
      modifies this`cursor
      ensures Valid() && LineBelow(text, old(At()), At())
    {
      ghost var p := At();
      OffsetOfChars(text, cursor);
      var s, start := ScanBack(text, At(), cursor);
      var e, end := ScanForward(text, At(), cursor);
      EndOfText(text, e);
      if end == |Encode(text)| {
        assert LandsBelow(text, s, e, e, p, p);
        return;
      }
      var column := CountChars(text, s, start, p, cursor);
      OffsetNext(text, e);
      var f, last := ScanForward(text, e + 1, end + 1);
      var at, q := CharOffset(text, e + 1, end + 1, f, last, column);
      BoundaryOffset(text, q);
      cursor := at;
      assert LandsBelow(text, s, e, f, p, q);
    }

    /** Puts the cursor on a character position. */
    method GoTo(p: nat)
      requires p <= |text|
      modifies this`cursor
      ensures Valid() && At() == p
    {
      BoundaryOffset(text, p);
      cursor := Offset(text, p);
    }

    /**
     Moves within the text of the row above or below on the screen, if there is one, past the characters whose cells
     fit before the current column. `VisualMoveShownExactly` says when the cursor then appears in that row.
     */
    method MoveVisualLine(width: nat, down: bool) returns (moved: bool)
      requires Valid()
      modifies this`cursor
      ensures Valid() && (!moved ==> cursor == old(cursor))
      ensures exists rows, spans, row :: VisuallyMoved(text, rows, spans, row, width, down, old(At()), At(), moved)
    {
      ghost var p := At();
      StandsAtChar(text, cursor);
      var layout, spans := Measure(text, cursor, width, Some(p));
      var row := layout.cursorRow;
      if (!down && row == 0) || (down && row + 1 >= |layout.rows|) {
        moved := false;
        assert VisuallyMoved(text, layout.rows, spans, row, width, down, old(At()), At(), moved);
        return;
      }
      var target := if down then row + 1 else row - 1;
      var q := InRow(text, cursor, layout.rows, row, target, spans, ContentWidth(width));
      GoTo(q);
      assert VisuallyMoved(text, layout.rows, spans, row, width, down, p, q, true);
      return true;
    }
  }

  // ----- Words

  /** All characters from `i` up to `j` are white space, or none is. */
  predicate Run(text: string, i: nat, j: nat, white: bool) {
    i <= j <= |text| && forall k :: i <= k < j ==> IsWhite(text[k]) == white
  }

  /** White space, then a whole word, are passed on the way from `p` to `q`. */
  ghost predicate WordLeft(text: string, p: nat, q: nat) {
    exists m: nat ::
      && Run(text, q, m, false) && Run(text, m, p, true)
      && (m > 0 ==> !IsWhite(text[m - 1])) && (q > 0 ==> IsWhite(text[q - 1]))
  }

  ghost predicate WordRight(text: string, p: nat, q: nat) {
    exists m: nat ::
      && Run(text, p, m, true) && Run(text, m, q, false)
      && (m < |text| ==> !IsWhite(text[m])) && (q < |text| ==> IsWhite(text[q]))
  }

  method SkipLeft(text: string, p: nat, white: bool) returns (q: nat)
    requires p <= |text|
    ensures Run(text, q, p, white) && (q > 0 ==> IsWhite(text[q - 1]) != white)
  {
    q := p;
    while q > 0 && IsWhite(text[q - 1]) == white
      invariant Run(text, q, p, white)
    {
      q := q - 1;
    }
  }

  method SkipRight(text: string, p: nat, white: bool) returns (q: nat)
    requires p <= |text|
    ensures Run(text, p, q, white) && (q < |text| ==> IsWhite(text[q]) != white)
  {
    q := p;
    while q < |text| && IsWhite(text[q]) == white
      invariant Run(text, p, q, white)
    {
      q := q + 1;
    }
  }

  // ----- Visual rows

  /** The last position from `start` on whose text before it fits the cells. */
  method Advance(text: string, start: nat, end: nat, desired: nat) returns (p: nat)
    requires start <= end <= |text|
    ensures start <= p <= end && Width(text[start..p]) <= desired
    ensures p < end ==> Width(text[start..p]) + CharWidth(text[p]) > desired
  {
    var column := 0;
    p := start;
    while p < end && column + CharWidth(text[p]) <= desired
      invariant start <= p <= end && column == Width(text[start..p]) <= desired
    {
      assert text[start..p + 1] == text[start..p] + [text[p]];
      WidthPush(text[start..p], text[p]);
      column, p := column + CharWidth(text[p]), p + 1;
    }
  }

  /** A row's byte offsets name the ends of its span. */
  lemma RowEnds(text: string, row: Row, span: Span)
    requires Shows(text, row, span)
    ensures IsBoundary(text, row.start) && IsBoundary(text, row.end)
    ensures CharsBefore(text, row.start) == span.from && CharsBefore(text, row.end) == span.to
  {
    BoundaryOffset(text, span.from);
    BoundaryOffset(text, span.to);
  }

  /** The cursor of a valid composer stands at its character. */
  lemma StandsAtChar(text: string, cursor: nat)
    requires IsBoundary(text, cursor)
    ensures CharsBefore(text, cursor) <= |text| && cursor <= |Encode(text)|
    ensures StandsAt(text, Min(cursor, |Encode(text)|), Some(CharsBefore(text, cursor)))
  {
    OffsetOfChars(text, cursor);
    OffsetsGrow(text, CharsBefore(text, cursor), |text|);
    assert text[..|text|] == text;
  }

  /** The position in the target row's text at the column that the cursor has in its own row. */
  method InRow(text: string, cursor: nat, rows: seq<Row>, row: nat, target: nat, ghost spans: seq<Span>,
      ghost content: nat) returns (q: nat)
    requires IsBoundary(text, cursor) && Tiles(text, rows, spans, content) && row < |rows| && target < |rows|
    requires Belongs(text, spans[row], CharsBefore(text, cursor))
    ensures AtColumn(text, spans[target], q, Width(text[spans[row].from..CharsBefore(text, cursor)]))
  {
    RowFacts(text, rows, spans, content, row);
    RowFacts(text, rows, spans, content, target);
    RowEnds(text, rows[row], spans[row]);
    RowEnds(text, rows[target], spans[target]);
    var desired := Width(text[CharsBefore(text, rows[row].start)..CharsBefore(text, cursor)]);
    q := Advance(text, CharsBefore(text, rows[target].start), CharsBefore(text, rows[target].end), desired);
  }

  predicate HasAdjacent(rows: nat, row: nat, down: bool) { if down then row + 1 < rows else row > 0 }

  /** `q` is at the column of `p` in the adjacent row's text, or at its end; without such a row it is `p`. */
  ghost predicate VisuallyMoved(text: string, rows: seq<Row>, spans: seq<Span>, row: nat, width: nat, down: bool,
      p: nat, q: nat, moved: bool) {
    && Tiles(text, rows, spans, ContentWidth(width))
    && row < |spans| && Belongs(text, spans[row], p)
    && (moved <==> HasAdjacent(|spans|, row, down))
    && if !moved then q == p
       else AtColumn(text, spans[if down then row + 1 else row - 1], q, Width(text[spans[row].from..p]))
  }

  /** `q` is the last position in the row whose text before it takes at most the cells. */
  predicate AtColumn(text: string, span: Span, q: nat, cells: nat) {
    && span.from <= q <= span.to <= |text|
    && Width(text[span.from..q]) <= cells
    && (q < span.to ==> Width(text[span.from..q]) + CharWidth(text[q]) > cells)
  }

  lemma ColumnNotBeyond(text: string, span: Span, q: nat, r: nat, cells: nat)
    requires AtColumn(text, span, q, cells) && AtColumn(text, span, r, cells)
    ensures r <= q
  {
    if q < r {
      assert text[span.from..q + 1] == text[span.from..q] + [text[q]];
      WidthPush(text[span.from..q], text[q]);
      WidthOfPart(text, span.from, q + 1, r);
    }
  }

  lemma ColumnUnique(text: string, span: Span, q: nat, r: nat, cells: nat)
    requires AtColumn(text, span, q, cells) && AtColumn(text, span, r, cells)
    ensures r == q
  {
    ColumnNotBeyond(text, span, q, r, cells);
    ColumnNotBeyond(text, span, r, q, cells);
  }

  /** A visual move leads to one position only, and whether there is one does not depend on the tiling. */
  lemma VisualMoveUnique(text: string, width: nat, down: bool, p: nat,
      r: seq<Row>, a: seq<Span>, k: nat, q: nat, moved: bool, s: seq<Row>, b: seq<Span>, l: nat, t: nat, changed: bool)
    requires VisuallyMoved(text, r, a, k, width, down, p, q, moved)
      && VisuallyMoved(text, s, b, l, width, down, p, t, changed)
    ensures q == t && moved == changed
  {
    TilingUnique(text, r, a, s, b, ContentWidth(width));
    RowUnique(text, r, a, ContentWidth(width), k, l, p);
    if moved {
      ColumnUnique(text, a[if down then k + 1 else k - 1], q, t, Width(text[a[k].from..p]));
    }
  }

  /** The row after a soft break shows at least the character that did not fit before it. */
  lemma SoftBreakShownNext(text: string, rows: seq<Row>, spans: seq<Span>, content: nat, k: nat)
    requires Tiles(text, rows, spans, content) && k < |spans| && spans[k].to < |text| && text[spans[k].to] != '\n'
    ensures k + 1 < |spans| && spans[k + 1].from == spans[k].to && Belongs(text, spans[k + 1], spans[k].to)
  {
    RowFacts(text, rows, spans, content, k);
    RowFacts(text, rows, spans, content, k + 1);
  }

  lemma ColumnAtEnd(text: string, span: Span, q: nat, cells: nat)
    requires AtColumn(text, span, q, cells)
    ensures q < span.to <==> cells < Width(text[span.from..span.to])
  {
    if q < span.to {
      assert text[span.from..q + 1] == text[span.from..q] + [text[q]];
      WidthPush(text[span.from..q], text[q]);
      WidthOfPart(text, span.from, q + 1, span.to);
    }
  }

  /** The adjacent row ends hard, or is wider than the cells to go. */
  predicate ShowsColumn(text: string, span: Span, cells: nat)
    requires span.from <= span.to <= |text|
  {
    span.to == |text| || text[span.to] == '\n' || cells < Width(text[span.from..span.to])
  }

  /**
   After a move the cursor appears in the adjacent row exactly if that row ends at a line break or at the end of the
   text, or is wider than the cells before the old position. Otherwise it appears at the start of the row after it,
   so that a move up stays in the row it comes from and a move down skips one.
   */
  lemma VisualMoveShownExactly(text: string, rows: seq<Row>, spans: seq<Span>, row: nat, width: nat, down: bool,
      p: nat, q: nat)
    requires VisuallyMoved(text, rows, spans, row, width, down, p, q, true)
    ensures
      var target := if down then row + 1 else row - 1;
      var cells := Width(text[spans[row].from..p]);
      && spans[target].from <= spans[target].to <= |text|
      && (Belongs(text, spans[target], q) <==> ShowsColumn(text, spans[target], cells))
      && (!ShowsColumn(text, spans[target], cells) ==>
            target + 1 < |spans| && Belongs(text, spans[target + 1], q) && q == spans[target + 1].from)
  {
    var target := if down then row + 1 else row - 1;
    assert AtColumn(text, spans[target], q, Width(text[spans[row].from..p]));
    ColumnAtEnd(text, spans[target], q, Width(text[spans[row].from..p]));
    if spans[target].to < |text| && text[spans[target].to] != '\n' {
      SoftBreakShownNext(text, rows, spans, ContentWidth(width), target);
    }
  }

  function RowOf(text: string, span: Span): Row
    requires span.from <= span.to <= |text|
  {
    Row(text[span.from..span.to], Offset(text, span.from), Offset(text, span.to))
  }

  predicate IsNarrow(text: string) { forall c :: c in text ==> CharWidth(c) == 1 && c != '\n' }

  lemma {:induction false} NarrowWidth(text: string)
    requires IsNarrow(text)
    ensures Width(text) == |text|
  {
    if text != "" {
      NarrowWidth(text[..|text| - 1]);
    }
  }

  lemma NarrowPart(text: string, from: nat, to: nat)
    requires IsNarrow(text) && from <= to <= |text|
    ensures Width(text[from..to]) == to - from && '\n' !in text[from..to]
  {
    assert forall c :: c in text[from..to] ==> c in text;
    NarrowWidth(text[from..to]);
  }

  /** Narrow characters for two rows fill both. */
  lemma TwoFullRows(text: string, content: nat)
    requires IsNarrow(text) && |text| == 2 * content > 0
    ensures
      var spans := [Span(0, content), Span(content, |text|)];
      Tiles(text, [RowOf(text, spans[0]), RowOf(text, spans[1])], spans, content)
  {
    var spans := [Span(0, content), Span(content, |text|)];
    var rows := [RowOf(text, spans[0]), RowOf(text, spans[1])];
    NarrowPart(text, 0, content);
    NarrowPart(text, content, |text|);
    assert CharWidth(text[content]) == 1 && text[content] != '\n' by { assert text[content] in text; }
    assert rows[..1] == [rows[0]] && spans[..1] == [spans[0]];
    assert RowAt(text, rows[..1], spans[..1], 0, content) && RowFollowed(text, spans[..1], 0, content, content);
  }

  /** Up from the end of the second of two full rows, as from 8 in "abcdefgh" at width 6, leads to its start. */
  lemma UpStaysInRow(text: string, width: nat)
    requires IsNarrow(text) && |text| == 2 * ContentWidth(width)
    ensures
      var n := ContentWidth(width);
      var spans := [Span(0, n), Span(n, |text|)];
      && VisuallyMoved(text, [RowOf(text, spans[0]), RowOf(text, spans[1])], spans, 1, width, false, |text|, n, true)
      && Belongs(text, spans[1], |text|) && Belongs(text, spans[1], n)
  {
    TwoFullRows(text, ContentWidth(width));
    NarrowPart(text, 0, ContentWidth(width));
    NarrowPart(text, ContentWidth(width), |text|);
  }
}
