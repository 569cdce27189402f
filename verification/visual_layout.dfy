/**
 The composer's rows on screen: hard line breaks, soft wrapping, and where the cursor appears. Offsets are
 UTF-8 byte offsets; the two cells of the prompt before every row are counted in columns only.
 */
module VisualLayouts {
  import opened Basics
  import opened DisplayWidth
  import opened Utf8
  import opened Wrappers

  /** The byte offset of character `p`. */
  function Offset(text: string, p: nat): nat
    requires p <= |text|
  {
    |Encode(text[..p])|
  }

  lemma OffsetNext(text: string, p: nat)
    requires p < |text|
    ensures Offset(text, p + 1) == Offset(text, p) + |EncodeChar(text[p])|
  {
    EncodeConcat(text[..p], [text[p]]);
    assert text[..p + 1] == text[..p] + [text[p]];
    assert [text[p]][1..] == "" && Encode([text[p]]) == EncodeChar(text[p]) + [];
  }

  lemma {:induction false} OffsetsGrow(text: string, p: nat, q: nat)
    requires p <= q <= |text|
    ensures Offset(text, p) + (q - p) <= Offset(text, q)
    decreases q
  {
    if p < q {
      OffsetNext(text, q - 1);
      OffsetsGrow(text, p, q - 1);
    }
  }

  /** The offset identifies the character. */
  lemma OffsetUnique(text: string, p: nat, q: nat)
    requires p <= |text| && q <= |text| && Offset(text, p) == Offset(text, q)
    ensures p == q
  {
    if p < q { OffsetsGrow(text, p, q); } else { OffsetsGrow(text, q, p); }
  }

  /** `at` is the character at which a byte cursor stands, if it is on a boundary. */
  ghost predicate StandsAt(text: string, cursor: nat, at: Option<nat>) {
    if at.Some? then at.value <= |text| && Offset(text, at.value) == cursor
    else forall q: nat :: q <= |text| ==> Offset(text, q) != cursor
  }

  lemma StandsHere(text: string, cursor: nat, at: Option<nat>, i: nat)
    requires i <= |text| && StandsAt(text, cursor, at)
    ensures cursor == Offset(text, i) <==> at == Some(i)
  {
    if cursor == Offset(text, i) {
      OffsetUnique(text, at.value, i);
    }
  }

  /** A row of the screen: its text, and its characters `from` up to `to`. */
  datatype Row = Row(text: string, start: nat, end: nat)

  datatype Layout = Layout(rows: seq<Row>, cursorRow: nat, cursorColumn: nat, cursorByte: nat)

  /** The characters a row shows. */
  datatype Span = Span(from: nat, to: nat)

  predicate Shows(text: string, row: Row, span: Span) {
    && span.from <= span.to <= |text|
    && row.text == text[span.from..span.to] && '\n' !in row.text
    && row.start == Offset(text, span.from) && row.end == Offset(text, span.to)
  }

  /** After a row the next begins past a line break, or where one more character would not have fitted. */
  predicate Follows(text: string, span: Span, next: nat, content: nat) {
    && span.from <= span.to < |text|
    && if text[span.to] == '\n' then next == span.to + 1
       else
         && next == span.to && Width(text[span.from..span.to]) > 0
         && Width(text[span.from..span.to]) + CharWidth(text[span.to]) > content
  }

  /** A row fits the width, or its last character is the only one with cells. */
  predicate FitsRow(text: string, from: nat, to: nat, content: nat) {
    from <= to <= |text| && (Width(text[from..to]) <= content || (from < to && Width(text[from..to - 1]) == 0))
  }

  predicate RowOk(text: string, row: Row, span: Span, content: nat) {
    Shows(text, row, span) && FitsRow(text, span.from, span.to, content)
  }

  predicate RowAt(text: string, rows: seq<Row>, spans: seq<Span>, k: nat, content: nat)
    requires k < |rows| == |spans|
  {
    RowOk(text, rows[k], spans[k], content)
  }

  predicate RowFollowed(text: string, spans: seq<Span>, k: nat, next: nat, content: nat)
    requires k < |spans|
  {
    Follows(text, spans[k], if k + 1 < |spans| then spans[k + 1].from else next, content)
  }

  /** Complete rows cover the text before character `next` without overlap, each within the width. */
  ghost predicate TilesTo(text: string, rows: seq<Row>, spans: seq<Span>, content: nat, next: nat) {
    && |rows| == |spans|
    && (forall k :: 0 <= k < |rows| ==> RowAt(text, rows, spans, k, content))
    && (forall k :: 0 <= k < |spans| ==> RowFollowed(text, spans, k, next, content))
    && (if rows == [] then next == 0 else spans[0].from == 0)
  }

  /** The rows are the complete ones and one last row up to the end of the text. */
  ghost predicate Tiles(text: string, rows: seq<Row>, spans: seq<Span>, content: nat) {
    && |rows| == |spans| > 0
    && var n := |rows| - 1;
    && TilesTo(text, rows[..n], spans[..n], content, spans[n].from)
    && RowOk(text, rows[n], spans[n], content) && spans[n].to == |text|
  }

  /** Character `p` belongs to the row: inside it, or at its end before a line break or the end of the text. */
  predicate Belongs(text: string, span: Span, p: nat) {
    && span.from <= p <= span.to <= |text|
    && (p == span.to ==> p == |text| || text[p] == '\n')
  }

  function ContentWidth(width: nat): nat { if width > 3 then width - 2 else 1 }

  /** The cursor's character `q` has been met in row `row`, the current one beginning at `current`. */
  predicate Placed(text: string, spans: seq<Span>, current: nat, row: nat, column: nat, q: nat) {
    && row <= |spans|
    && var from := if row < |spans| then spans[row].from else current;
    && from <= q < |text| && column == 2 + Width(text[from..q])
    && (row < |spans| ==> q <= spans[row].to && (q == spans[row].to ==> text[q] == '\n'))
  }

  lemma RowDone(text: string, rows: seq<Row>, spans: seq<Span>, content: nat, from: nat, to: nat, next: nat)
    requires TilesTo(text, rows, spans, content, from) && from <= to < |text| && '\n' !in text[from..to]
    requires FitsRow(text, from, to, content) && Follows(text, Span(from, to), next, content)
    ensures
      var row := Row(text[from..to], Offset(text, from), Offset(text, to));
      TilesTo(text, rows + [row], spans + [Span(from, to)], content, next)
  {
    var (row, span) := (Row(text[from..to], Offset(text, from), Offset(text, to)), Span(from, to));
    assert RowOk(text, row, span, content);
    var (r, s) := (rows + [row], spans + [span]);
    forall k | 0 <= k < |s| ensures RowAt(text, r, s, k, content) && RowFollowed(text, s, k, next, content) {
      if k < |spans| {
        assert RowAt(text, rows, spans, k, content);
        assert RowFollowed(text, spans, k, from, content);
      }
    }
  }

  // ----- The loop over the characters

  /** What the loop has measured: the complete rows, the row in progress, and the cursor. */
  datatype Draft = Draft(
    rows: seq<Row>,
    rowStart: nat,
    rowText: string,
    used: nat,
    offset: nat,
    cursorRow: nat,
    cursorColumn: nat)

  /** The row in progress shows the characters from `from` up to `i`. */
  predicate InProgress(text: string, d: Draft, from: nat, i: nat, content: nat) {
    && from <= i <= |text| && d.offset == Offset(text, i) && d.rowStart == Offset(text, from)
    && d.rowText == text[from..i] && '\n' !in d.rowText && d.used == Width(d.rowText)
    && FitsRow(text, from, i, content)
  }

  /** The cursor has been found if it is before character `met`; one between no characters never is. */
  predicate Found(text: string, d: Draft, spans: seq<Span>, from: nat, met: nat, at: Option<nat>) {
    if at.Some? then at.value < met ==> Placed(text, spans, from, d.cursorRow, d.cursorColumn, at.value)
    else d.cursorRow == 0 && d.cursorColumn == 2
  }

  ghost predicate DraftOk(text: string, d: Draft, spans: seq<Span>, from: nat, i: nat, met: nat, at: Option<nat>,
      content: nat)
  {
    InProgress(text, d, from, i, content) && TilesTo(text, d.rows, spans, content, from)
      && Found(text, d, spans, from, met, at)
  }

  function Marked(d: Draft): Draft { d.(cursorRow := |d.rows|, cursorColumn := 2 + d.used) }

  function RowEnded(d: Draft, start: nat): Draft {
    d.(rows := d.rows + [Row(d.rowText, d.rowStart, d.offset)], rowStart := start, rowText := "", used := 0)
  }

  function Put(d: Draft, symbol: char): Draft {
    d.(rowText := d.rowText + [symbol], used := d.used + CharWidth(symbol), offset := d.offset + |EncodeChar(symbol)|)
  }

  /** Whether a soft break comes before the character. */
  predicate Breaks(used: nat, symbol: char, content: nat) { used != 0 && used + CharWidth(symbol) > content }

  lemma MarkStep(text: string, d: Draft, spans: seq<Span>, from: nat, i: nat, at: Option<nat>, content: nat)
    requires InProgress(text, d, from, i, content) && |d.rows| == |spans| && i < |text|
    requires Found(text, d, spans, from, i, at)
    ensures Found(text, if at == Some(i) then Marked(d) else d, spans, from, i + 1, at)
  {
  }

  lemma RowEndStep(text: string, d: Draft, spans: seq<Span>, from: nat, i: nat, next: nat, content: nat)
    requires InProgress(text, d, from, i, content) && TilesTo(text, d.rows, spans, content, from)
    requires i < |text| && Follows(text, Span(from, i), next, content)
    ensures TilesTo(text, d.rows + [Row(d.rowText, d.rowStart, d.offset)], spans + [Span(from, i)], content, next)
  {
    RowDone(text, d.rows, spans, content, from, i, next);
  }

  lemma FoundInEnded(text: string, d: Draft, ended: Draft, spans: seq<Span>, from: nat, i: nat, next: nat, met: nat,
      at: Option<nat>)
    requires Found(text, d, spans, from, met, at) && from <= i <= next <= |text| && i < |text|
    requires ended.cursorRow == d.cursorRow && ended.cursorColumn == d.cursorColumn
    requires met <= i || (met == i + 1 && text[i] == '\n')
    ensures Found(text, ended, spans + [Span(from, i)], next, met, at)
  {
  }

  lemma SoftStep(text: string, d: Draft, spans: seq<Span>, from: nat, i: nat, at: Option<nat>, content: nat)
    requires DraftOk(text, d, spans, from, i, i, at, content) && i < |text| && text[i] != '\n'
    requires Breaks(d.used, text[i], content)
    ensures DraftOk(text, RowEnded(d, d.offset), spans + [Span(from, i)], i, i, i, at, content)
  {
    RowEndStep(text, d, spans, from, i, i, content);
    FoundInEnded(text, d, RowEnded(d, d.offset), spans, from, i, i, i, at);
    FreshRow(text, RowEnded(d, d.offset), i, content);
  }

  lemma FreshRow(text: string, d: Draft, i: nat, content: nat)
    requires i <= |text| && d.offset == d.rowStart == Offset(text, i) && d.rowText == "" && d.used == 0
    ensures InProgress(text, d, i, i, content)
  {
    assert text[i..i] == "";
  }

  lemma HardStep(text: string, d: Draft, spans: seq<Span>, from: nat, i: nat, at: Option<nat>, content: nat)
    requires DraftOk(text, d, spans, from, i, i + 1, at, content) && i < |text| && text[i] == '\n'
    ensures
      var next := RowEnded(d, d.offset + 1).(offset := d.offset + 1);
      DraftOk(text, next, spans + [Span(from, i)], i + 1, i + 1, i + 1, at, content)
  {
    var next := RowEnded(d, d.offset + 1).(offset := d.offset + 1);
    RowEndStep(text, d, spans, from, i, i + 1, content);
    OffsetNext(text, i);
    FoundInEnded(text, d, next, spans, from, i, i + 1, i + 1, at);
    FreshRow(text, next, i + 1, content);
  }

  lemma PutStep(text: string, d: Draft, from: nat, i: nat, content: nat)
    requires InProgress(text, d, from, i, content) && i < |text| && text[i] != '\n'
    requires !Breaks(d.used, text[i], content)
    ensures InProgress(text, Put(d, text[i]), from, i + 1, content)
  {
    OffsetNext(text, i);
    WidthPush(d.rowText, text[i]);
    var row := d.rowText + [text[i]];
    assert text[from..i + 1] == row;
    assert Width(row) == d.used + CharWidth(text[i]);
  }

  lemma PutKeeps(text: string, d: Draft, spans: seq<Span>, from: nat, i: nat, at: Option<nat>, content: nat)
    requires DraftOk(text, d, spans, from, i, i + 1, at, content) && i < |text| && text[i] != '\n'
    requires !Breaks(d.used, text[i], content)
    ensures DraftOk(text, Put(d, text[i]), spans, from, i + 1, i + 1, at, content)
  {
    PutStep(text, d, from, i, content);
    var e := Put(d, text[i]);
    assert e.rows == d.rows && e.cursorRow == d.cursorRow && e.cursorColumn == d.cursorColumn;
  }

  /**
   Measures the layout. The rows tile the text, and a cursor on a character boundary is reported in the row it
   belongs to, at the cell after the prompt and the row's text before it. A cursor past the text counts as its end;
   one inside a character is reported at the start.
   */
  method Measure(text: string, position: nat, width: nat, ghost at: Option<nat>)
    returns (layout: Layout, ghost spans: seq<Span>)
    requires StandsAt(text, Min(position, |Encode(text)|), at)
    ensures Tiles(text, layout.rows, spans, ContentWidth(width))
    ensures at.Some? ==> Reported(text, layout, spans, at.value, width)
    ensures at.None? ==> layout.cursorRow == 0 && layout.cursorColumn == Min(2, if width > 0 then width - 1 else 0)
    ensures layout.cursorByte == Min(position, |Encode(text)|)
  {
    var content := ContentWidth(width);
    var cursor := Min(position, |Encode(text)|);
    var d := Draft([], 0, "", 0, 0, 0, 2);
    spans := [];
    ghost var from := 0;
    assert text[..0] == "";
    FreshRow(text, d, 0, content);
    for i := 0 to |text|
      invariant DraftOk(text, d, spans, from, i, i, at, content)
    {
      d, spans, from := TakeChar(text, d, spans, from, i, cursor, at, content);
    }
    StandsHere(text, cursor, at, |text|);
    LastRow(text, d, spans, from, at, content);
    if cursor == d.offset {
      d := Marked(d);
    }
    layout := Layout(
      d.rows + [Row(d.rowText, d.rowStart, d.offset)], d.cursorRow,
      Min(d.cursorColumn, if width > 0 then width - 1 else 0), cursor);
    spans := spans + [Span(from, |text|)];
  }

  /** One character: a line break ends the row; another may have to start a new one. */
  method TakeChar(text: string, draft: Draft, ghost spans: seq<Span>, ghost from: nat, i: nat, cursor: nat,
      ghost at: Option<nat>, content: nat)
    returns (d: Draft, ghost more: seq<Span>, ghost next: nat)
    requires i < |text| && StandsAt(text, cursor, at) && DraftOk(text, draft, spans, from, i, i, at, content)
    ensures DraftOk(text, d, more, next, i + 1, i + 1, at, content)
  {
    d, more, next := BreakSoftly(text, draft, spans, from, i, at, content);
    d := MarkCursor(text, d, more, next, i, cursor, at, content);
    d, more, next := Consume(text, d, more, next, i, at, content);
  }

  method BreakSoftly(text: string, draft: Draft, ghost spans: seq<Span>, ghost from: nat, i: nat,
      ghost at: Option<nat>, content: nat)
    returns (d: Draft, ghost more: seq<Span>, ghost next: nat)
    requires i < |text| && DraftOk(text, draft, spans, from, i, i, at, content)
    ensures DraftOk(text, d, more, next, i, i, at, content)
    ensures text[i] != '\n' ==> !Breaks(d.used, text[i], content)
  {
    d, more, next := draft, spans, from;
    if text[i] != '\n' && Breaks(d.used, text[i], content) {
      SoftStep(text, draft, spans, from, i, at, content);
      d, more, next := RowEnded(draft, draft.offset), spans + [Span(from, i)], i;
    }
  }

  method MarkCursor(text: string, draft: Draft, ghost spans: seq<Span>, ghost from: nat, i: nat, cursor: nat,
      ghost at: Option<nat>, content: nat)
    returns (d: Draft)
    requires i < |text| && StandsAt(text, cursor, at) && DraftOk(text, draft, spans, from, i, i, at, content)
    ensures DraftOk(text, d, spans, from, i, i + 1, at, content) && d.used == draft.used
  {
    StandsHere(text, cursor, at, i);
    MarkStep(text, draft, spans, from, i, at, content);
    d := draft;
    if cursor == d.offset {
      d := Marked(d);
    }
  }

  method Consume(text: string, draft: Draft, ghost spans: seq<Span>, ghost from: nat, i: nat,
      ghost at: Option<nat>, content: nat)
    returns (d: Draft, ghost more: seq<Span>, ghost next: nat)
    requires i < |text| && DraftOk(text, draft, spans, from, i, i + 1, at, content)
    requires text[i] != '\n' ==> !Breaks(draft.used, text[i], content)
    ensures DraftOk(text, d, more, next, i + 1, i + 1, at, content)
  {
    if text[i] == '\n' {
      HardStep(text, draft, spans, from, i, at, content);
      d := RowEnded(draft, draft.offset + 1).(offset := draft.offset + 1);
      more, next := spans + [Span(from, i)], i + 1;
    } else {
      PutKeeps(text, draft, spans, from, i, at, content);
      d, more, next := Put(draft, text[i]), spans, from;
    }
  }

  /** The cursor's row contains character `q`, and its column is the clamped width of the row before it. */
  predicate Reported(text: string, layout: Layout, spans: seq<Span>, q: nat, width: nat) {
    && layout.cursorRow < |spans| && Belongs(text, spans[layout.cursorRow], q)
    && layout.cursorColumn ==
         Min(2 + Width(text[spans[layout.cursorRow].from..q]), if width > 0 then width - 1 else 0)
  }

  lemma LastRow(text: string, d: Draft, spans: seq<Span>, from: nat, at: Option<nat>, content: nat)
    requires DraftOk(text, d, spans, from, |text|, |text|, at, content) && (at.Some? ==> at.value <= |text|)
    ensures
      var all := spans + [Span(from, |text|)];
      var last := if at == Some(|text|) then Marked(d) else d;
      && Tiles(text, d.rows + [Row(d.rowText, d.rowStart, d.offset)], all, content)
      && (at.Some? ==>
            && last.cursorRow < |all| && Belongs(text, all[last.cursorRow], at.value)
            && last.cursorColumn == 2 + Width(text[all[last.cursorRow].from..at.value]))
  {
    var all := spans + [Span(from, |text|)];
    var rows := d.rows + [Row(d.rowText, d.rowStart, d.offset)];
    assert rows[..|rows| - 1] == d.rows && all[..|all| - 1] == spans;
    if d.cursorRow < |spans| {
      assert RowAt(text, d.rows, spans, d.cursorRow, content);
    }
  }

  // ----- There is only one layout

  lemma WidthOfPart(text: string, from: nat, i: nat, j: nat)
    requires from <= i <= j <= |text|
    ensures Width(text[from..i]) <= Width(text[from..j])
  {
    assert text[from..j] == text[from..i] + text[i..j];
    WidthConcat(text[from..i], text[i..j]);
  }

  /** A row that begins where a complete one begins cannot go beyond it. */
  lemma RowNotLonger(text: string, a: Span, next: nat, b: Span, content: nat)
    requires a.from == b.from && Follows(text, a, next, content)
    requires FitsRow(text, b.from, b.to, content) && '\n' !in text[b.from..b.to]
    ensures b.to <= a.to
  {
    if a.to < b.to {
      assert text[a.to] == text[b.from..b.to][a.to - b.from];
      WidthPush(text[a.from..a.to], text[a.to]);
      assert text[a.from..a.to + 1] == text[a.from..a.to] + [text[a.to]];
      WidthOfPart(text, a.from, a.to + 1, b.to);
      WidthOfPart(text, a.from, a.to, b.to - 1);
    }
  }

  lemma NotBeyond(text: string, rows: seq<Row>, spans: seq<Span>, k: nat, other: Row, b: Span, content: nat)
    requires Tiles(text, rows, spans, content) && k < |spans| && spans[k].from == b.from
      && RowOk(text, other, b, content)
    ensures b.to <= spans[k].to && (k == |spans| - 1 <==> spans[k].to == |text|)
  {
    RowFacts(text, rows, spans, content, k);
    if k < |spans| - 1 {
      RowNotLonger(text, spans[k], spans[k + 1].from, b, content);
    }
  }

  lemma SameRow(text: string, r: seq<Row>, a: seq<Span>, q: seq<Row>, b: seq<Span>, content: nat, k: nat)
    requires Tiles(text, r, a, content) && Tiles(text, q, b, content) && k < |a| && k < |b| && a[k].from == b[k].from
    ensures a[k] == b[k] && r[k] == q[k]
    ensures k == |a| - 1 <==> k == |b| - 1
  {
    assert RowOk(text, r[k], a[k], content) by { RowFacts(text, r, a, content, k); }
    assert RowOk(text, q[k], b[k], content) by { RowFacts(text, q, b, content, k); }
    NotBeyond(text, r, a, k, q[k], b[k], content);
    NotBeyond(text, q, b, k, r[k], a[k], content);
  }

  lemma NextStart(text: string, rows: seq<Row>, spans: seq<Span>, content: nat, k: nat)
    requires Tiles(text, rows, spans, content) && k + 1 < |spans|
    ensures spans[k].to < |text| && spans[k + 1].from == spans[k].to + if text[spans[k].to] == '\n' then 1 else 0
  {
    RowFacts(text, rows, spans, content, k);
  }

  /** Two tilings of one text agree on every row they both have. */
  lemma {:induction false} TilingsAgree(text: string, r: seq<Row>, a: seq<Span>, q: seq<Row>, b: seq<Span>,
      content: nat, k: nat)
    requires Tiles(text, r, a, content) && Tiles(text, q, b, content) && k < |a| && k < |b|
    ensures a[k] == b[k] && r[k] == q[k]
    ensures k == |a| - 1 <==> k == |b| - 1
  {
    if k == 0 {
      RowFacts(text, r, a, content, 0);
      RowFacts(text, q, b, content, 0);
    } else {
      TilingsAgree(text, r, a, q, b, content, k - 1);
      NextStart(text, r, a, content, k - 1);
      NextStart(text, q, b, content, k - 1);
    }
    SameRow(text, r, a, q, b, content, k);
  }

  lemma RowFacts(text: string, rows: seq<Row>, spans: seq<Span>, content: nat, k: nat)
    requires Tiles(text, rows, spans, content) && k < |rows|
    ensures RowOk(text, rows[k], spans[k], content)
    ensures k < |rows| - 1 ==> Follows(text, spans[k], spans[k + 1].from, content)
    ensures k == |rows| - 1 ==> spans[k].to == |text|
    ensures k == 0 ==> spans[k].from == 0
  {
    var n := |rows| - 1;
    if k < n {
      assert RowAt(text, rows[..n], spans[..n], k, content);
      assert RowFollowed(text, spans[..n], k, spans[n].from, content);
    }
  }

  /** The rows of a text are determined by its characters and the width. */
  lemma TilingUnique(text: string, r: seq<Row>, a: seq<Span>, q: seq<Row>, b: seq<Span>, content: nat)
    requires Tiles(text, r, a, content) && Tiles(text, q, b, content)
    ensures r == q && a == b
  {
    var n := if |a| < |b| then |a| else |b|;
    TilingsAgree(text, r, a, q, b, content, n - 1);
    forall k | 0 <= k < n ensures r[k] == q[k] && a[k] == b[k] {
      TilingsAgree(text, r, a, q, b, content, k);
    }
  }

  lemma {:induction false} RowsAscend(text: string, rows: seq<Row>, spans: seq<Span>, content: nat, k: nat, l: nat)
    requires Tiles(text, rows, spans, content) && k < l < |spans|
    ensures spans[k].to <= spans[l].from
    ensures spans[k].to < |text| && (text[spans[k].to] == '\n' ==> spans[k].to < spans[l].from)
    decreases l
  {
    RowFacts(text, rows, spans, content, k);
    if k < l - 1 {
      RowsAscend(text, rows, spans, content, k, l - 1);
      RowFacts(text, rows, spans, content, l - 1);
    }
  }

  /** Each character position belongs to one row, so the reported cursor is determined as well. */
  lemma RowUnique(text: string, rows: seq<Row>, spans: seq<Span>, content: nat, k: nat, l: nat, p: nat)
    requires Tiles(text, rows, spans, content) && k < |spans| && l < |spans|
    requires Belongs(text, spans[k], p) && Belongs(text, spans[l], p)
    ensures k == l
  {
    if k < l {
      RowsAscend(text, rows, spans, content, k, l);
    } else if l < k {
      RowsAscend(text, rows, spans, content, l, k);
    }
  }

  lemma WidthOfFit(text: string, from: nat, to: nat, content: nat)
    requires FitsRow(text, from, to, content)
    ensures Width(text[from..to]) <= if content > 2 then content else 2
  {
    if from < to {
      assert text[from..to] == text[from..to - 1] + [text[to - 1]];
      WidthPush(text[from..to - 1], text[to - 1]);
    }
  }

  /** A row takes at most the width, or the two cells of one wide character. */
  lemma RowsFit(text: string, rows: seq<Row>, spans: seq<Span>, content: nat, k: nat)
    requires Tiles(text, rows, spans, content) && k < |rows|
    ensures Width(rows[k].text) <= if content > 2 then content else 2
  {
    assert RowOk(text, rows[k], spans[k], content) by { RowFacts(text, rows, spans, content, k); }
    WidthOfFit(text, spans[k].from, spans[k].to, content);
  }

  /** Two layouts of one text, cursor and width are the same. */
  lemma LayoutUnique(text: string, f: Layout, a: seq<Span>, g: Layout, b: seq<Span>, q: nat, width: nat)
    requires Tiles(text, f.rows, a, ContentWidth(width)) && Reported(text, f, a, q, width)
    requires Tiles(text, g.rows, b, ContentWidth(width)) && Reported(text, g, b, q, width)
    ensures f.(cursorByte := g.cursorByte) == g
  {
    TilingUnique(text, f.rows, a, g.rows, b, ContentWidth(width));
    RowUnique(text, f.rows, a, ContentWidth(width), f.cursorRow, g.cursorRow, q);
  }
}
