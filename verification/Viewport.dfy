/** Viewports: a client's window on the scrollback and screen of a terminal. */
module Viewport {
  import opened Common
  import Utf8

  /** What the terminal library reports: text lines, and for each screen row the same row with its
      styling for a given offset and width. */
  datatype Snapshot = Snapshot(scrollback: seq<bytes>, visible: seq<bytes>, cursorRow: nat, cursorColumn: nat)

  type Styling = (nat, nat, nat) -> bytes

  datatype State = State(columns: nat, rows: nat, horizontalOffset: nat, followCursor: bool)

  function AllLines(s: Snapshot): seq<bytes> { s.scrollback + s.visible }

  datatype View = View(
    columns: nat, rows: nat, total: nat, top: nat, offset: nat,
    cursorRow: Option<nat>, cursorColumn: Option<nat>, lines: seq<bytes>)

  /** The lines on view: the last `rows` of all lines, or all of them followed by blank ones. */
  function LastLines(all: seq<bytes>, rows: nat): (r: seq<bytes>)
    ensures |r| == rows
  {
    if |all| >= rows then all[|all| - rows..] else all + seq(rows - |all|, _ => "")
  }

  function ClipAll(lines: seq<bytes>, offset: nat, columns: nat): (r: seq<bytes>)
    ensures |r| == |lines|
  {
    seq(|lines|, i requires 0 <= i < |lines| => Utf8.Clipped(lines[i], offset, columns))
  }

  method ViewportSnapshot(s: Snapshot, state: State) returns (v: View)
    ensures v.rows == Max(1, state.rows) && v.columns == Max(1, state.columns)
    ensures v.total == |AllLines(s)| && v.top == Max(v.total, v.rows) - v.rows
    ensures v.lines == ClipAll(LastLines(AllLines(s), v.rows), v.offset, v.columns)
    // The offset moves only to keep a followed cursor inside, and no further than needed.
    ensures state.followCursor ==> v.offset <= s.cursorColumn < v.offset + v.columns
    ensures v.offset < state.horizontalOffset ==> state.followCursor && v.offset == s.cursorColumn
    ensures v.offset > state.horizontalOffset ==> state.followCursor && v.offset + v.columns == s.cursorColumn + 1
    // The cursor is reported exactly when it is on view, at the place where it is.
    ensures v.cursorRow.Some? <==> v.top <= |s.scrollback| + s.cursorRow < v.top + v.rows
    ensures v.cursorRow.Some? ==> v.top + v.cursorRow.value == |s.scrollback| + s.cursorRow
    ensures v.cursorColumn.Some? <==> v.cursorRow.Some? && v.offset <= s.cursorColumn < v.offset + v.columns
    ensures v.cursorColumn.Some? ==> v.offset + v.cursorColumn.value == s.cursorColumn
  {
    var rows, columns := Max(1, state.rows), Max(1, state.columns);
    var total := |s.scrollback| + |s.visible|;
    var cursorAbsoluteRow := |s.scrollback| + s.cursorRow;
    var top := 0;
    if total > rows { top := total - rows; }
    var offset := state.horizontalOffset;
    if state.followCursor {
      if s.cursorColumn < offset {
        offset := s.cursorColumn;
      } else if s.cursorColumn >= offset + columns {
        offset := s.cursorColumn + 1 - columns;
      }
    }
    var lines := VisibleLines(AllLines(s), top, rows, offset, columns);
    var cursorRow, cursorColumn := None, None;
    if cursorAbsoluteRow >= top && cursorAbsoluteRow < top + rows {
      cursorRow := Some(cursorAbsoluteRow - top);
      if s.cursorColumn >= offset && s.cursorColumn < offset + columns {
        cursorColumn := Some(s.cursorColumn - offset);
      }
    }
    v := View(columns, rows, total, top, offset, cursorRow, cursorColumn, lines);
  }

  method VisibleLines(all: seq<bytes>, top: nat, rows: nat, offset: nat, columns: nat) returns (lines: seq<bytes>)
    requires top == Max(|all|, rows) - rows
    ensures lines == ClipAll(LastLines(all, rows), offset, columns)
  {
    lines := [];
    ghost var expected := LastLines(all, rows);
    for index := 0 to rows
      invariant |lines| == index
      invariant forall k :: 0 <= k < index ==> lines[k] == Utf8.Clipped(expected[k], offset, columns)
    {
      if top + index >= |all| {
        assert expected[index] == "";
        lines := lines + [""];
        continue;
      }
      assert expected[index] == all[top + index];
      var line := Utf8.ClipUtf8Columns(all[top + index], offset, columns);
      lines := lines + [line];
    }
  }

  /** If the terminal's lines are well formed, so is every line on view: it holds the characters of
      its line that fall in the viewport's columns. */
  lemma {:induction false} ViewDecodes(all: seq<bytes>, rows: nat, offset: nat, columns: nat, k: nat)
    requires k < rows && forall i :: 0 <= i < |all| ==> Utf8.Decoded(all[i]).Some?
    ensures var line := LastLines(all, rows)[k];
            && Utf8.Decoded(line).Some?
            && Utf8.Decoded(ClipAll(LastLines(all, rows), offset, columns)[k])
               == Some(Utf8.Columns(Utf8.Decoded(line).value, offset, columns))
  {
    var line := LastLines(all, rows)[k];
    assert line == "" || exists i :: 0 <= i < |all| && line == all[i];
    Utf8.ClipDecodes(line, offset, columns);
  }

  // ----- the bootstrap -----

  /** What a bootstrap is made of: lines, and the control sequences between them. */
  datatype Token = Line(text: bytes) | NewLine | ClearAndHome | NextRow | CursorTo(row: nat, column: nat)

  /** The lines a bootstrap emits, in order. */
  function Emitted(tokens: seq<Token>): seq<bytes> {
    if tokens == [] then []
    else if tokens[|tokens| - 1].Line? then Emitted(tokens[..|tokens| - 1]) + [tokens[|tokens| - 1].text]
    else Emitted(tokens[..|tokens| - 1])
  }

  lemma {:induction false} EmittedSnoc(tokens: seq<Token>, t: Token)
    ensures Emitted(tokens + [t]) == if t.Line? then Emitted(tokens) + [t.text] else Emitted(tokens)
  {
    assert (tokens + [t])[..|tokens|] == tokens;
  }

  /** A client's terminal: the lines that have scrolled off its screen, the rows of the screen, the row
      it is on, and where the cursor was put last. */
  datatype Terminal = Terminal(scrolled: seq<bytes>, screen: seq<bytes>, row: nat, cursor: Option<(nat, nat)>)

  /** A new line on the last row scrolls the screen; erasing the display loses what is still on it. */
  function Read(t: Terminal, token: Token): Terminal {
    match token
    case Line(text) =>
      if t.row < |t.screen| then t.(screen := t.screen[t.row := t.screen[t.row] + text]) else t
    case NewLine =>
      if t.row + 1 < |t.screen| || t.screen == [] then t.(row := t.row + 1)
      else t.(scrolled := t.scrolled + [t.screen[0]], screen := t.screen[1..] + [""])
    case ClearAndHome => t.(screen := Blank(|t.screen|), row := 0)
    case NextRow => t.(row := if t.row + 1 < |t.screen| then t.row + 1 else t.row)
    case CursorTo(row, column) => t.(cursor := Some((row, column)))
  }

  function Blank(rows: nat): (r: seq<bytes>)
    ensures |r| == rows
  {
    seq(rows, _ => "")
  }

  /** A fresh terminal of that many rows after reading everything. */
  function ReadAll(rows: nat, tokens: seq<Token>): Terminal {
    if tokens == [] then Terminal([], Blank(rows), 0, None)
    else Read(ReadAll(rows, tokens[..|tokens| - 1]), tokens[|tokens| - 1])
  }

  lemma {:induction false} ReadSnoc(rows: nat, tokens: seq<Token>, t: Token)
    ensures ReadAll(rows, tokens + [t]) == Read(ReadAll(rows, tokens), t)
  {
    assert (tokens + [t])[..|tokens|] == tokens;
  }

  // ----- a terminal that only scrolls -----

  /** The terminal once these lines have been written, the last of them not ended: the last `rows` are on
      the screen, the others have scrolled off. */
  function Showing(lines: seq<bytes>, rows: nat): Terminal
    requires lines != [] && rows >= 1
  {
    var off := Minus(|lines|, rows);
    Terminal(lines[..off], lines[off..] + Blank(rows - (|lines| - off)), |lines| - off - 1, None)
  }

  lemma {:induction false} ShowingNewLine(lines: seq<bytes>, rows: nat)
    requires lines != [] && rows >= 1
    ensures Read(Showing(lines, rows), NewLine) == Showing(lines + [""], rows)
  {
    var off, all := Minus(|lines|, rows), lines + [""];
    if |lines| < rows {
      assert all[0..] + Blank(rows - |all|) == lines[0..] + Blank(rows - |lines|);
      assert all[..0] == lines[..0];
    } else {
      assert lines[off..] + Blank(0) == lines[off..];
      assert all[off + 1..] + Blank(0) == lines[off..][1..] + [""];
      assert all[..off + 1] == lines[..off] + [lines[off..][0]];
    }
  }

  lemma {:induction false} ShowingText(lines: seq<bytes>, rows: nat, text: bytes)
    requires rows >= 1
    ensures Read(Showing(lines + [""], rows), Line(text)) == Showing(lines + [text], rows)
  {
    var before, after := lines + [""], lines + [text];
    var off := Minus(|before|, rows);
    var row := |before| - off - 1;
    assert "" + text == text;
    var screen := before[off..] + Blank(rows - (|before| - off));
    assert screen[row] == "";
    assert screen[row := text] == after[off..] + Blank(rows - (|after| - off));
    assert before[..off] == after[..off];
  }

  // ----- building it -----

  /** Line `i` of the terminal as it is sent: scrollback clipped, screen rows styled, blank beyond. */
  function Sent(s: Snapshot, styled: Styling, v: View, i: nat): bytes {
    if i < |s.scrollback| then Utf8.Clipped(s.scrollback[i], v.offset, v.columns)
    else if i < |AllLines(s)| then styled(i - |s.scrollback|, v.offset, v.columns)
    else ""
  }

  function SentLines(s: Snapshot, styled: Styling, v: View, first: nat, count: nat): (r: seq<bytes>)
    ensures |r| == count
  {
    seq(count, k requires 0 <= k < count => Sent(s, styled, v, first + k))
  }

  lemma {:induction false} SentSnoc(s: Snapshot, styled: Styling, v: View, n: nat)
    ensures SentLines(s, styled, v, 0, n) + [Sent(s, styled, v, n)] == SentLines(s, styled, v, 0, n + 1)
  {}

  predicate IsView(s: Snapshot, v: View) {
    v.rows >= 1 && v.total == |AllLines(s)| && v.top == Max(v.total, v.rows) - v.rows
  }

  function Cursor(v: View): Option<(nat, nat)> {
    if v.cursorRow.Some? && v.cursorColumn.Some? then Some((v.cursorRow.value + 1, v.cursorColumn.value + 1)) else None
  }

  /** How many of the lines above the viewport have scrolled off a client's screen when it is erased. */
  function Reached(v: View): nat { Minus(v.top + 1, v.rows) }

  /** Every line is emitted once and in order.  A client that reads the bootstrap shows every line of the
      viewport on its own row; of the lines above it, those that had not scrolled off the screen when it
      was erased are lost. */
  method BuildViewportBootstrapAnsi(s: Snapshot, styled: Styling, v: View) returns (out: seq<Token>)
    requires IsView(s, v)
    ensures Emitted(out) == SentLines(s, styled, v, 0, v.total)
    ensures ReadAll(v.rows, out)
         == Terminal(SentLines(s, styled, v, 0, Reached(v)), SentLines(s, styled, v, v.top, v.rows), v.rows - 1,
                     Cursor(v))
  {
    out := History(s, styled, v);
    ReadSnoc(v.rows, out, ClearAndHome);
    EmittedSnoc(out, ClearAndHome);
    out := out + [ClearAndHome];
    out := Screen(s, styled, v, out);
    if v.cursorRow.Some? && v.cursorColumn.Some? {
      var t := CursorTo(v.cursorRow.value + 1, v.cursorColumn.value + 1);
      ReadSnoc(v.rows, out, t);
      EmittedSnoc(out, t);
      out := out + [t];
    }
  }

  /** Styling that adds nothing to the text of the screen's rows. */
  ghost predicate Plain(s: Snapshot, styled: Styling, v: View) {
    forall r :: 0 <= r < |s.visible| ==>
      styled(r, v.offset, v.columns) == Utf8.Clipped(s.visible[r], v.offset, v.columns)
  }

  /** A client that has read the bootstrap shows the lines of the viewport snapshot: in every row taken
      from the scrollback or beyond the last line, and in every row if the styling adds nothing. */
  lemma {:induction false} BootstrapShowsTheView(s: Snapshot, styled: Styling, v: View)
    requires IsView(s, v) && v.lines == ClipAll(LastLines(AllLines(s), v.rows), v.offset, v.columns)
    ensures forall k :: 0 <= k < v.rows && (v.top + k < |s.scrollback| || v.top + k >= v.total) ==>
              SentLines(s, styled, v, v.top, v.rows)[k] == v.lines[k]
    ensures Plain(s, styled, v) ==> SentLines(s, styled, v, v.top, v.rows) == v.lines
    ensures Plain(s, styled, v) ==>
              SentLines(s, styled, v, 0, v.total) == ClipAll(AllLines(s), v.offset, v.columns)
  {
    forall k | 0 <= k < v.rows
      ensures v.top + k < |s.scrollback| || v.top + k >= v.total || Plain(s, styled, v) ==>
        SentLines(s, styled, v, v.top, v.rows)[k] == v.lines[k]
    {
      RowOnView(s, v, k);
      SentPlain(s, styled, v, v.top + k);
    }
  }

  lemma {:induction false} SentPlain(s: Snapshot, styled: Styling, v: View, i: nat)
    ensures i < |s.scrollback| || i >= |AllLines(s)| || Plain(s, styled, v) ==>
      Sent(s, styled, v, i) == if i < |AllLines(s)| then Utf8.Clipped(AllLines(s)[i], v.offset, v.columns) else ""
  {}

  /** Row `k` of the snapshot is line `top + k`, clipped. */
  lemma {:induction false} RowOnView(s: Snapshot, v: View, k: nat)
    requires IsView(s, v) && k < v.rows
    ensures ClipAll(LastLines(AllLines(s), v.rows), v.offset, v.columns)[k]
         == if v.top + k < v.total then Utf8.Clipped(AllLines(s)[v.top + k], v.offset, v.columns) else ""
  {
    assert LastLines(AllLines(s), v.rows)[k] == if v.top + k < v.total then AllLines(s)[v.top + k] else "";
    assert Utf8.Clipped("", v.offset, v.columns) == "";
  }

  /** All lines above the viewport reach the client's history if and only if there are none or the
      viewport has a single row; otherwise the last ones are missing. */
  lemma {:induction false} HistoryIsComplete(s: Snapshot, styled: Styling, v: View)
    requires IsView(s, v)
    ensures SentLines(s, styled, v, 0, Reached(v)) == SentLines(s, styled, v, 0, v.top) <==> v.top == 0 || v.rows == 1
    ensures v.top - Reached(v) == Min(v.top, v.rows - 1)
  {
    assert |SentLines(s, styled, v, 0, Reached(v))| == Reached(v) && |SentLines(s, styled, v, 0, v.top)| == v.top;
  }

  /** The bootstrap for three lines in a viewport of two rows. */
  function ThreeInTwo(a: bytes, b: bytes, c: bytes): seq<Token> {
    [Line(a)] + [NewLine] + [ClearAndHome] + [Line(b)] + [NextRow] + [Line(c)]
  }

  /** The first line is printed, erased and lost. */
  lemma {:induction false} ErasedLineIsLost(a: bytes, b: bytes, c: bytes)
    ensures Emitted(ThreeInTwo(a, b, c)) == [a, b, c]
    ensures ReadAll(2, ThreeInTwo(a, b, c)) == Terminal([], [b, c], 1, None)
  {
    EmittedInTwo(a, b, c);
    ReadInTwo(a, b, c);
  }

  lemma {:induction false} EmittedInTwo(a: bytes, b: bytes, c: bytes)
    ensures Emitted(ThreeInTwo(a, b, c)) == [a, b, c]
  {
    assert [] + [Line(a)] == [Line(a)];
    EmittedSnoc([], Line(a));
    EmittedSnoc([Line(a)], NewLine);
    EmittedSnoc([Line(a)] + [NewLine], ClearAndHome);
    EmittedSnoc([Line(a)] + [NewLine] + [ClearAndHome], Line(b));
    EmittedSnoc([Line(a)] + [NewLine] + [ClearAndHome] + [Line(b)], NextRow);
    EmittedSnoc([Line(a)] + [NewLine] + [ClearAndHome] + [Line(b)] + [NextRow], Line(c));
    assert [] + [a] == [a] && [a] + [b] == [a, b] && [a, b] + [c] == [a, b, c];
  }

  lemma {:induction false} ErasedInTwo(a: bytes)
    ensures ReadAll(2, [Line(a)] + [NewLine] + [ClearAndHome]) == Terminal([], Blank(2), 0, None)
  {
    assert [] + [Line(a)] == [Line(a)];
    ReadSnoc(2, [], Line(a));
    ReadSnoc(2, [Line(a)], NewLine);
    ReadSnoc(2, [Line(a)] + [NewLine], ClearAndHome);
  }

  lemma {:induction false} ReadInTwo(a: bytes, b: bytes, c: bytes)
    ensures ReadAll(2, ThreeInTwo(a, b, c)) == Terminal([], [b, c], 1, None)
  {
    var erased := [Line(a)] + [NewLine] + [ClearAndHome];
    ErasedInTwo(a);
    ReadSnoc(2, erased, Line(b));
    ReadSnoc(2, erased + [Line(b)], NextRow);
    ReadSnoc(2, erased + [Line(b)] + [NextRow], Line(c));
    assert "" + b == b && "" + c == c;
    assert Blank(2)[0 := b] == [b, ""] && [b, ""][1 := c] == [b, c];
  }

  /** The lines a client has been sent of those above the viewport, the current one still blank. */
  function Above(s: Snapshot, styled: Styling, v: View, n: nat): (r: seq<bytes>)
    ensures |r| == n + 1
  {
    SentLines(s, styled, v, 0, n) + [""]
  }

  /** Before the screen is erased: the lines above the viewport. */
  method History(s: Snapshot, styled: Styling, v: View) returns (out: seq<Token>)
    requires IsView(s, v)
    ensures ReadAll(v.rows, out) == Showing(Above(s, styled, v, v.top), v.rows)
    ensures Emitted(out) == SentLines(s, styled, v, 0, v.top)
  {
    out := [];
    StartsBlank(s, styled, v);
    if v.top > 0 {
      var historyCount := if v.top < v.total then v.top else v.total;
      for index := 0 to historyCount
        invariant Emitted(out) == SentLines(s, styled, v, 0, index)
        invariant ReadAll(v.rows, out) == Showing(Begun(s, styled, v, index), v.rows)
      {
        if index > 0 { out := EndLine(s, styled, v, out, index); }
        out := EmitLine(s, styled, v, out, index);
      }
      out := EndLine(s, styled, v, out, v.top);
    }
  }

  /** The lines once line `index - 1` has been written and not ended. */
  function Begun(s: Snapshot, styled: Styling, v: View, index: nat): (r: seq<bytes>)
    ensures r != []
  {
    if index == 0 then [""] else SentLines(s, styled, v, 0, index)
  }

  lemma {:induction false} StartsBlank(s: Snapshot, styled: Styling, v: View)
    requires v.rows >= 1
    ensures Showing([""], v.rows) == Terminal([], Blank(v.rows), 0, None)
    ensures Above(s, styled, v, 0) == [""]
  {
    assert [""][0..] + Blank(v.rows - 1) == Blank(v.rows);
  }

  method EndLine(s: Snapshot, styled: Styling, v: View, before: seq<Token>, index: nat) returns (out: seq<Token>)
    requires IsView(s, v) && index > 0
    requires ReadAll(v.rows, before) == Showing(Begun(s, styled, v, index), v.rows)
    ensures ReadAll(v.rows, out) == Showing(Above(s, styled, v, index), v.rows) && Emitted(out) == Emitted(before)
  {
    ReadSnoc(v.rows, before, NewLine);
    EmittedSnoc(before, NewLine);
    ShowingNewLine(Begun(s, styled, v, index), v.rows);
    out := before + [NewLine];
  }

  /** The text of a line: scrollback is clipped, screen rows are styled. */
  method TextOf(s: Snapshot, styled: Styling, v: View, index: nat) returns (text: bytes)
    requires index < |AllLines(s)|
    ensures text == Sent(s, styled, v, index)
  {
    if index < |s.scrollback| {
      text := Utf8.ClipUtf8Columns(s.scrollback[index], v.offset, v.columns);
    } else {
      text := styled(index - |s.scrollback|, v.offset, v.columns);
    }
  }

  method EmitLine(s: Snapshot, styled: Styling, v: View, before: seq<Token>, index: nat) returns (out: seq<Token>)
    requires IsView(s, v) && index < v.total
    requires ReadAll(v.rows, before) == Showing(Above(s, styled, v, index), v.rows)
    requires Emitted(before) == SentLines(s, styled, v, 0, index)
    ensures ReadAll(v.rows, out) == Showing(Begun(s, styled, v, index + 1), v.rows)
    ensures Emitted(out) == SentLines(s, styled, v, 0, index + 1)
  {
    var text := TextOf(s, styled, v, index);
    ReadSnoc(v.rows, before, Line(text));
    EmittedSnoc(before, Line(text));
    ShowingText(SentLines(s, styled, v, 0, index), v.rows, text);
    SentSnoc(s, styled, v, index);
    out := before + [Line(text)];
  }

  function PartScreen(s: Snapshot, styled: Styling, v: View, row: nat): seq<bytes>
    requires row <= v.rows
  {
    SentLines(s, styled, v, v.top, row) + Blank(v.rows - row)
  }

  /** Writes the row at the top of the blank part. */
  lemma {:induction false} PartStep(s: Snapshot, styled: Styling, v: View, row: nat)
    requires row < v.rows
    ensures PartScreen(s, styled, v, row)[row] == ""
    ensures PartScreen(s, styled, v, row)[row := Sent(s, styled, v, v.top + row)] == PartScreen(s, styled, v, row + 1)
  {}

  function AfterRows(s: Snapshot, styled: Styling, v: View, scrolled: seq<bytes>, row: nat): Terminal
    requires row <= v.rows
  {
    Terminal(scrolled, PartScreen(s, styled, v, row), if row < v.rows || row == 0 then row else row - 1, None)
  }

  /** After the screen is erased: the rows of the viewport. */
  method Screen(s: Snapshot, styled: Styling, v: View, before: seq<Token>) returns (out: seq<Token>)
    requires IsView(s, v) && Emitted(before) == SentLines(s, styled, v, 0, v.top)
    requires ReadAll(v.rows, before) == Terminal(ReadAll(v.rows, before).scrolled, Blank(v.rows), 0, None)
    ensures Emitted(out) == SentLines(s, styled, v, 0, v.total)
    ensures ReadAll(v.rows, out)
         == Terminal(ReadAll(v.rows, before).scrolled, SentLines(s, styled, v, v.top, v.rows), v.rows - 1, None)
  {
    out := before;
    ghost var scrolled := ReadAll(v.rows, before).scrolled;
    assert PartScreen(s, styled, v, 0) == Blank(v.rows);
    for row := 0 to v.rows
      invariant ReadAll(v.rows, out) == AfterRows(s, styled, v, scrolled, row)
      invariant Emitted(out) == SentLines(s, styled, v, 0, Min(v.total, v.top + row))
    {
      out := Row(s, styled, v, scrolled, out, row);
      if row + 1 < v.rows {
        ReadSnoc(v.rows, out, NextRow);
        EmittedSnoc(out, NextRow);
        out := out + [NextRow];
      }
    }
    assert PartScreen(s, styled, v, v.rows) == SentLines(s, styled, v, v.top, v.rows);
  }

  method Row(s: Snapshot, styled: Styling, v: View, ghost scrolled: seq<bytes>, before: seq<Token>, row: nat)
    returns (out: seq<Token>)
    requires IsView(s, v) && row < v.rows && ReadAll(v.rows, before) == AfterRows(s, styled, v, scrolled, row)
    requires Emitted(before) == SentLines(s, styled, v, 0, Min(v.total, v.top + row))
    ensures ReadAll(v.rows, out) == AfterRows(s, styled, v, scrolled, row).(screen := PartScreen(s, styled, v, row + 1))
    ensures Emitted(out) == SentLines(s, styled, v, 0, Min(v.total, v.top + row + 1))
  {
    out := before;
    PartStep(s, styled, v, row);
    var index := v.top + row;
    if index >= v.total {
      var part := PartScreen(s, styled, v, row);
      assert part[row := ""] == part;
      return;
    }
    var text := TextOf(s, styled, v, index);
    assert "" + text == text;
    ReadSnoc(v.rows, out, Line(text));
    EmittedSnoc(out, Line(text));
    SentSnoc(s, styled, v, index);
    out := out + [Line(text)];
  }
}
