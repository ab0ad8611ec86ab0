/**
 * dinv (user/app/dinv/dinv.c): a gap buffer, the key handlers, and a screen that is redrawn in part.  On a screen of more
 * than 64 columns the text area shows after every key what a full redraw would show.
 */
module Editor {
  import opened Blocks
  import opened EditorText
  import opened EditorScreen

  const TEXT_CAP: nat := 262144
  const KEY_ESC: byte := 27
  const BACKSPACE: byte := 8

  datatype Mode = Normal | Insert | Command
  datatype Damage = None | Tail | Cmd | Below | Full

  const NORMAL: Text := [78, 79, 82, 77, 65, 76]
  const INSERT: Text := [73, 78, 83, 69, 82, 84]
  const COLON: byte := 58

  /** The bytes of a text. */
  ghost function Said(s: string): (t: Text)
    ensures |t| == |s|
  {
    seq(|s|, i requires 0 <= i < |s| => if s[i] as int < 0x80 then s[i] as int else 0)
  }

  lemma Messages()
    ensures NORMAL == Said("NORMAL") && INSERT == Said("INSERT") && [COLON] == Said(":")
    ensures NOT_FOUND == Said("Command not found") && FAILED == Said("Failed to save")
  {
  }

  const NOT_FOUND: Text := [67, 111, 109, 109, 97, 110, 100, 32, 110, 111, 116, 32, 102, 111, 117, 110, 100]
  const FAILED: Text := [70, 97, 105, 108, 101, 100, 32, 116, 111, 32, 115, 97, 118, 101]

  /** What stands at the start of the bottom row. */
  ghost function Status(mode: Mode, complaint: Text): (t: Text)
    ensures t != [] && (|complaint| <= 17 ==> |t| <= 17) && (complaint == [] ==> |t| <= 6)
  {
    if complaint != [] then complaint
    else match mode case Normal => Said("NORMAL") case Insert => Said("INSERT") case Command => Said(":")
  }

  /** The line buffer holds the visible part of what has been seen of a line. */
  ghost predicate Holding(buf: seq<byte>, n: nat, c: nat, seen: Text, left: nat, width: nat) {
    n <= |buf| && buf[..n] == Clip(seen, left, width) && c == |seen|
  }

  class Dinv {
    const text: array<byte>
    var gapStart: nat
    var gapEnd: nat
    const screen: array<Text>   // the rows of the text area
    const linebuf: array<byte>
    const width: nat            // text_cols()
    var topRow: nat
    var leftCol: nat
    var mode: Mode
    var damage: Damage          // replacement_status
    var cmd: Text               // cmd_buf[..cmd_len]
    const cols: nat             // screen_cols
    var bottom: Text            // the bottom row
    var complaint: Text         // empty while not complaining
    var running: bool

    ghost predicate Valid()
      reads this
    {
      && text.Length == TEXT_CAP && gapStart <= gapEnd <= TEXT_CAP && text != linebuf
      && linebuf.Length == LINEBUF && 0 < width <= LINEBUF && COL_OFFSET + width <= cols && (cols <= LINEBUF ==> COL_OFFSET + width == cols)
      && |bottom| == cols && |cmd| <= CMD_MAX && |complaint| <= 17
    }

    ghost function Before(): Text
      reads this, text
      requires Valid()
    {
      text[..gapStart]
    }

    ghost function After(): Text
      reads this, text
      requires Valid()
    {
      text[gapEnd..]
    }

    /** The text being edited. */
    ghost function Contents(): Text
      reads this, text
      requires Valid()
    {
      Before() + After()
    }

    /** The text area shows what a full redraw of this text at this scroll position shows. */
    ghost predicate Shows(s: Text)
      reads this, screen
    {
      Shown(screen[..], s, topRow, leftCol, width)
    }

    /** The cursor lies in the part of the text that is on the screen. */
    ghost predicate InWindow()
      reads this, text
      requires Valid()
    {
      && (screen.Length > 0 ==> topRow <= Newlines(Before()) < topRow + screen.Length)
      && leftCol <= Column(Before()) < leftCol + width
    }

    /** The command and the status end before the last column. */
    ghost predicate Fits()
      reads this
    {
      1 + |cmd| < cols && |Status(mode, complaint)| < cols
    }

    ghost function Screen(): Console
      reads this, screen
    {
      Console(screen[..], bottom)
    }

    ghost predicate Drawn()
      reads this, text, screen
    {
      Valid() && Shows(Contents())
    }

    /** The state that app_dinv starts from: empty, a cleared screen, everything to be drawn. */
    constructor (screenRows: nat, screenCols: nat)
      requires screenRows > 0 && screenCols > COL_OFFSET
      ensures Valid() && Framed() && Contents() == [] && screen.Length == screenRows - 1 && damage == Full && mode == Normal
      ensures topRow == 0 == leftCol && cols == screenCols && cmd == [] == complaint && running && fresh(text) && fresh(screen) && fresh(linebuf) && gapStart == 0 && gapEnd == TEXT_CAP
    {
      text := new byte[TEXT_CAP](_ => 0);
      linebuf := new byte[LINEBUF](_ => 0);
      var w := if LINEBUF > screenCols - COL_OFFSET then screenCols - COL_OFFSET else LINEBUF;
      screen := new Text[screenRows - 1](_ => Spaces(COL_OFFSET + w));
      width, cols := w, screenCols;
      bottom, complaint, running := Spaces(screenCols), [], true;
      gapStart, gapEnd, topRow, leftCol := 0, TEXT_CAP, 0, 0;
      mode, damage, cmd := Normal, Full, [];
    }

    /** The loop that reads the file into the buffer. */
    method Load(file: Text)
      requires Valid() && gapStart == 0 && gapEnd == TEXT_CAP && |file| < TEXT_CAP
      modifies this`gapStart, text
      ensures Valid() && Before() == file && After() == []
    {
      for i := 0 to |file|
        invariant gapStart == i && text[..i] == file[..i]
      {
        text[gapStart] := file[i];
        gapStart := gapStart + 1;
      }
      assert file[..|file|] == file;
    }

    // ----- moving the gap

    /** cursor_right. */
    method CursorRight()
      requires Valid()
      modifies this`gapStart, this`gapEnd, text
      ensures Valid() && Contents() == old(Contents())
      ensures old(After()) == [] ==> Before() == old(Before()) && After() == []
      ensures old(After()) != [] ==> Before() == old(Before()) + [old(After())[0]] && After() == old(After())[1..]
      ensures gapEnd == old(gapEnd) + if old(gapEnd) == TEXT_CAP then 0 else 1
    {
      if gapEnd == TEXT_CAP { return; }
      ghost var a, b := Before(), After();
      text[gapStart] := text[gapEnd];
      gapStart := gapStart + 1;
      gapEnd := gapEnd + 1;
      assert Before() == a + [b[0]];
      assert After() == b[1..];
      assert a + [b[0]] + b[1..] == a + b;
    }

    /** cursor_left. */
    method CursorLeft()
      requires Valid()
      modifies this`gapStart, this`gapEnd, text
      ensures Valid() && Contents() == old(Contents())
      ensures gapStart == if old(gapStart) == 0 then 0 else old(gapStart) - 1
      ensures Before() == old(Before())[..gapStart]
    {
      if gapStart == 0 { return; }
      ghost var a, b := Before(), After();
      gapEnd := gapEnd - 1;
      gapStart := gapStart - 1;
      text[gapEnd] := text[gapStart];
      assert Before() == a[..gapStart];
      assert After() == [a[gapStart]] + b;
      assert a[..gapStart] + ([a[gapStart]] + b) == a + b;
    }

    // ----- where the cursor is

    /** cursor_rowcol. */
    method CursorRowCol() returns (row: nat, col: nat)
      requires Valid()
      ensures row == Newlines(Before()) && col == Column(Before())
    {
      hide Newlines, Column;
      row, col := 0, 0;
      assert text[..0] == [];
      Nothing();
      for i := 0 to gapStart
        invariant row == Newlines(text[..i]) && col == Column(text[..i])
      {
        Append(text[..i], text[i]);
        assert text[..i] + [text[i]] == text[..i + 1];
        if text[i] == NEWLINE {
          row, col := row + 1, 0;
        } else {
          col := col + 1;
        }
      }
    }

    /** buf_rows. */
    method BufRows() returns (r: nat)
      requires Valid()
      ensures r == Newlines(Contents()) + 1
    {
      hide Newlines;
      r := 1;
      Nothing();
      assert text[..0] == [];
      for i := 0 to gapStart
        invariant r == 1 + Newlines(text[..i])
      {
        Append(text[..i], text[i]);
        assert text[..i] + [text[i]] == text[..i + 1];
        if text[i] == NEWLINE { r := r + 1; }
      }
      assert text[gapEnd..gapEnd] == [];
      for i := gapEnd to TEXT_CAP
        invariant r == 1 + Newlines(Before()) + Newlines(text[gapEnd..i])
      {
        Append(text[gapEnd..i], text[i]);
        assert text[gapEnd..i] + [text[i]] == text[gapEnd..i + 1];
        if text[i] == NEWLINE { r := r + 1; }
      }
      NewlinesJoin(Before(), After());
      assert text[gapEnd..TEXT_CAP] == After();
    }

    /** The walk back to the beginning of a line. */
    method BackToLine(from: nat) returns (begin: nat)
      requires Valid() && from <= TEXT_CAP
      ensures begin == from - Column(text[..from])
    {
      hide Column;
      begin := from;
      while begin > 0 && text[begin - 1] != NEWLINE
        invariant begin <= from && Plain(text[begin..from])
      {
        begin := begin - 1;
        assert text[begin..from] == [text[begin]] + text[begin + 1..from];
      }
      assert text[..from][begin..] == text[begin..from];
      ColumnIs(text[..from], from - begin);
    }

    /** The walk forward to the end of a line. */
    method ForwardToEnd(from: nat) returns (end: nat)
      requires Valid() && from <= TEXT_CAP
      ensures end == from + LineEnd(text[from..])
    {
      hide LineEnd;
      end := from;
      while end < TEXT_CAP && text[end] != NEWLINE
        invariant from <= end <= TEXT_CAP && Plain(text[from..end])
      {
        assert text[from..end + 1] == text[from..end] + [text[end]];
        end := end + 1;
      }
      assert text[from..][..end - from] == text[from..end];
      LineEndIs(text[from..], end - from);
    }

    // ----- one row

    /** The loop that copies part of a line, stopping when the window is full. */
    method Fill(from: nat, to: nat, c0: nat, n0: nat, ghost seen0: Text) returns (c: nat, n: nat, ghost upto: nat)
      requires Valid() && from <= to <= TEXT_CAP && Holding(linebuf[..], n0, c0, seen0, leftCol, width) && n0 <= width
      modifies linebuf
      ensures from <= upto <= to && (upto == to || n == width) && n0 <= n && (n0 == width ==> upto == from)
      ensures Holding(linebuf[..], n, c, seen0 + text[from..upto], leftCol, width) && n <= width
    {
      hide Clip;
      c, n := c0, n0;
      assert seen0 + text[from..from] == seen0;
      var i := from;
      while i < to && n < width
        invariant from <= i <= to && n0 <= n <= width && (n0 == width ==> i == from)
        invariant Holding(linebuf[..], n, c, seen0 + text[from..i], leftCol, width)
      {
        ghost var seen := seen0 + text[from..i];
        ClipAppend(seen, text[i], leftCol, width);
        assert seen + [text[i]] == seen0 + text[from..i + 1];
        if c >= leftCol {
          ghost var was := linebuf[..n];
          linebuf[n] := Sanitize(text[i]);
          n := n + 1;
          assert linebuf[..n] == was + [Sanitize(text[i])];
        }
        c := c + 1;
        i := i + 1;
      }
      upto := i;
    }

    /** The loop that fills the line up with blanks. */
    method Pad(n0: nat, c: nat, ghost seen: Text, ghost rest: Text)
      requires Valid() && Holding(linebuf[..], n0, c, seen, leftCol, width) && n0 <= width && (rest == [] || n0 == width)
      modifies linebuf
      ensures linebuf[..width] == View(seen + rest, leftCol, width)
    {
      hide Clip;
      ghost var shown := Clip(seen, leftCol, width);
      if rest == [] { assert seen + rest == seen; } else { ClipFull(seen, rest, leftCol, width); }
      var n := n0;
      assert linebuf[..n] == shown + Spaces(0);
      while n < width
        invariant n0 <= n <= width && linebuf[..n] == shown + Spaces(n - n0)
      {
        ghost var was := linebuf[..n];
        linebuf[n] := SPACE;
        n := n + 1;
        assert linebuf[..n] == was + [SPACE];
        assert Spaces(n - n0) == Spaces(n - 1 - n0) + [SPACE];
      }
    }

    /** Puts a string on the screen from a column on. */
    method Write(r: nat, col: nat, s: Text) returns (next: nat)
      requires r < screen.Length && col + |s| <= |screen[r]|
      modifies screen
      ensures screen[r] == old(screen[r][..col]) + s + old(screen[r][col + |s|..]) && next == col + |s|
      ensures forall k :: 0 <= k < screen.Length && k != r ==> screen[k] == old(screen[k])
    {
      screen[r] := screen[r][..col] + s + screen[r][col + |s|..];
      next := col + |s|;
    }

    /** Puts the line buffer on the screen behind the number of its row; `blank` is for rows past the end. */
    method DrawRow(r: nat, row: nat, numRows: nat, blank: bool)
      requires Valid() && r < screen.Length && |screen[r]| == COL_OFFSET + width && (row < numRows || blank)
      modifies screen
      ensures screen[r] == (if row < numRows then Header(row) else Blank()) + linebuf[..width]
      ensures forall k :: 0 <= k < screen.Length && k != r ==> screen[k] == old(screen[k])
    {
      hide Header, Blank;
      var col := 0;
      var header: Text := Blank();
      if row < numRows {
        header := LineHeader(row);
        col := Write(r, 0, header);
      } else if blank {
        col := Write(r, 0, header);
      }
      col := Write(r, col, linebuf[..width]);
      assert screen[r] == header + linebuf[..width];
    }

    /** Every row of the text area has its full length. */
    ghost predicate Framed()
      reads this, screen
    {
      forall r :: 0 <= r < screen.Length ==> |screen[r]| == COL_OFFSET + width
    }

    /** A line that lies on one side of the gap. */
    method ComposePart(from: nat, to: nat)
      requires Valid() && from <= to <= TEXT_CAP
      modifies linebuf
      ensures linebuf[..width] == View(text[from..to], leftCol, width)
    {
      hide Clip, View;
      NothingSeen(linebuf[..], leftCol, width);
      var c, n;
      ghost var upto;
      c, n, upto := Fill(from, to, 0, 0, []);
      assert [] + text[from..upto] == text[from..upto];
      Pad(n, c, text[from..upto], text[upto..to]);
      assert text[from..upto] + text[upto..to] == text[from..to];
    }

    /** The line of the cursor, which lies on both sides. */
    method ComposeCursorLine(begin: nat, end: nat)
      requires Valid() && begin <= gapStart && gapEnd <= end <= TEXT_CAP
      modifies linebuf
      ensures linebuf[..width] == View(text[begin..gapStart] + text[gapEnd..end], leftCol, width)
    {
      hide Clip, View, Holding;
      NothingSeen(linebuf[..], leftCol, width);
      var c, n;
      ghost var u, u';
      c, n, u := Fill(begin, gapStart, 0, 0, []);
      assert [] + text[begin..u] == text[begin..u];
      c, n, u' := Fill(gapEnd, end, c, n, text[begin..u]);
      ghost var rest := Unseen(text[..], begin, gapStart, gapEnd, end, u, u');
      SeenAndUnseen(text[..], begin, gapStart, gapEnd, end, u, u');
      Pad(n, c, text[begin..u] + text[gapEnd..u'], rest);
    }

    /** DMG_TAIL: the row of the cursor. */
    method RenderTail(cursorRow: nat, numRows: nat)
      requires Valid() && Framed() && cursorRow == Newlines(Before()) && numRows == Newlines(Contents()) + 1
      modifies linebuf, screen
      ensures Framed()
      ensures forall k :: 0 <= k < screen.Length ==>
                            screen[k] == if topRow + k == cursorRow then FullRow(Contents(), cursorRow, leftCol, width) else old(screen[k])
    {
      hide LineEnd, Newlines, Column, View, Line;
      if cursorRow < topRow || cursorRow - topRow >= screen.Length { return; }
      ghost var a, b := Before(), After();
      NewlinesJoin(a, b);
      var begin := BackToLine(gapStart);
      var end := ForwardToEnd(gapEnd);
      ComposeCursorLine(begin, end);
      CursorLine(text[..], gapStart, gapEnd, begin, end);
      ViewLength(Line(a + b, cursorRow), leftCol, width);
      DrawRow(cursorRow - topRow, cursorRow, numRows, false);
    }

    /** The row above the cursor's, redrawn by DMG_BELOW when it is on the screen. */
    method RenderAbove(cursorRow: nat, numRows: nat, begin: nat)
      requires Valid() && Framed() && cursorRow == Newlines(Before()) && numRows == Newlines(Contents()) + 1
      requires begin == gapStart - Column(Before()) && topRow < cursorRow && cursorRow - topRow < screen.Length
      modifies linebuf, screen
      ensures Framed()
      ensures forall k :: 0 <= k < screen.Length ==>
                            screen[k] == if topRow + k == cursorRow - 1 then FullRow(Contents(), cursorRow - 1, leftCol, width) else old(screen[k])
    {
      hide LineEnd, Newlines, Column, View, Line;
      ghost var a, b := Before(), After();
      NewlinesJoin(a, b);
      NoColumn(a);
      var prev := BackToLine(begin - 1);
      LineAboveCursor(text[..], gapStart, gapEnd, begin, prev);
      assert text[..][..begin - 1] == text[..begin - 1];
      ComposePart(prev, begin - 1);
      ViewLength(Line(a + b, cursorRow - 1), leftCol, width);
      DrawRow(cursorRow - 1 - topRow, cursorRow - 1, numRows, false);
    }

    /** Row r, whose line starts at `from`; returns where the next one starts. */
    method RenderRow(r: nat, numRows: nat, from: nat, ghost s: Text) returns (next: nat)
      requires Valid() && Framed() && from <= TEXT_CAP && text[from..] == Drop(s, r) && numRows == Newlines(s) + 1
      requires topRow <= r && r - topRow < screen.Length
      modifies linebuf, screen
      ensures Framed() && next <= TEXT_CAP && text[next..] == Drop(s, r + 1)
      ensures screen[r - topRow] == FullRow(s, r, leftCol, width)
      ensures forall k :: 0 <= k < screen.Length && topRow + k != r ==> screen[k] == old(screen[k])
    {
      hide LineEnd, Newlines, View, Drop;
      var end := ForwardToEnd(from);
      assert text[from..end] == FirstLine(text[from..]);
      ComposePart(from, end);
      ViewLength(Line(s, r), leftCol, width);
      DrawRow(r - topRow, r, numRows, true);
      DropNext(s, r);
      assert end < TEXT_CAP ==> text[from..][end - from + 1..] == text[end + 1..];
      next := if end < TEXT_CAP then end + 1 else TEXT_CAP;
    }

    /** Rows from `first` on that follow the text at `from`. */
    method RenderRest(first: nat, numRows: nat, from: nat, ghost s: Text)
      requires Valid() && Framed() && from <= TEXT_CAP && text[from..] == Drop(s, first) && topRow <= first && numRows == Newlines(s) + 1
      modifies linebuf, screen
      ensures Framed()
      ensures forall k :: 0 <= k < screen.Length ==>
                            screen[k] == if topRow + k >= first then FullRow(s, topRow + k, leftCol, width) else old(screen[k])
    {
      hide LineEnd, Newlines, FullRow, Drop;
      var next: nat, r: nat := from, first;
      while r - topRow < screen.Length
        invariant first <= r && next <= TEXT_CAP && text[next..] == Drop(s, r) && Framed()
        invariant forall k :: 0 <= k < screen.Length ==>
                                screen[k] == if first <= topRow + k < r then FullRow(s, topRow + k, leftCol, width) else old(screen[k])
      {
        next := RenderRow(r, numRows, next, s);
        r := r + 1;
      }
    }

    /** DMG_BELOW: the row above the cursor's, the cursor's, and all that follow. */
    method RenderBelow(cursorRow: nat, numRows: nat)
      requires Valid() && Framed() && cursorRow == Newlines(Before()) && numRows == Newlines(Contents()) + 1
      requires topRow <= cursorRow
      modifies linebuf, screen
      ensures Framed()
      ensures cursorRow - topRow >= screen.Length ==> screen[..] == old(screen[..])
      ensures cursorRow - topRow < screen.Length ==>
                forall k :: 0 <= k < screen.Length ==>
                              screen[k] == if topRow + k + 1 >= cursorRow then FullRow(Contents(), topRow + k, leftCol, width) else old(screen[k])
    {
      hide LineEnd, Newlines, Column, View, Line, Drop, FullRow;
      if cursorRow < topRow || cursorRow - topRow >= screen.Length { return; }
      ghost var a, b := Before(), After();
      var begin := BackToLine(gapStart);
      var end := ForwardToEnd(gapEnd);
      if cursorRow - topRow > 0 { RenderAbove(cursorRow, numRows, begin); }
      RenderTail(cursorRow, numRows);
      var next := if end < TEXT_CAP then end + 1 else TEXT_CAP;
      BehindCursor(text[..], gapStart, gapEnd, end);
      RenderRest(cursorRow + 1, numRows, next, a + b);
    }

    /** A position outside the gap. */
    predicate Spot(pos: nat)
      reads this
    {
      pos < gapStart || gapEnd <= pos <= TEXT_CAP
    }

    /** The text from a position on, the gap left out. */
    ghost function Rest(pos: nat): Text
      reads this, text
      requires Valid() && Spot(pos)
    {
      RestOf(text[..], gapStart, gapEnd, pos)
    }

    /** The next position, the gap left out. */
    method Advance(pos: nat) returns (next: nat)
      requires Valid() && Spot(pos) && pos < TEXT_CAP
      ensures Spot(next) && Rest(pos) != [] && Rest(pos)[0] == text[pos] && Rest(next) == Rest(pos)[1..]
    {
      RestNext(text[..], gapStart, gapEnd, pos);
      next := pos + 1;
      if next == gapStart { next := gapEnd; }
    }

    /** Past the newline that ends a line, if there is one. */
    method PastNewline(pos: nat, ghost all: Text, ghost k: nat) returns (next: nat)
      requires Valid() && Spot(pos) && k <= |all| && Rest(pos) == all[k..] && Plain(all[..k]) && (pos == TEXT_CAP || text[pos] == NEWLINE)
      ensures Spot(next) && Rest(next) == Drop(all, 1) && LineEnd(all) == k
    {
      hide LineEnd, Plain;
      RestEmpty(text[..], gapStart, gapEnd, pos);
      next := pos;
      if pos < TEXT_CAP {
        next := Advance(pos);
        assert all[k] == all[k..][0];
        LineEndIs(all, k);
        assert all[k..][1..] == all[k + 1..];
      } else {
        LineEndIs(all, k);
        assert all[k..] == [];
      }
      DropNext(all, 0);
    }

    /** The loop that skips one line of the text. */
    method SkipLine(pos0: nat) returns (pos: nat)
      requires Valid() && Spot(pos0)
      ensures Spot(pos) && Rest(pos) == Drop(Rest(pos0), 1)
    {
      hide LineEnd, Drop;
      ghost var all, k := Rest(pos0), 0;
      pos := pos0;
      while pos < TEXT_CAP && text[pos] != NEWLINE
        invariant Spot(pos) && k <= |all| && Rest(pos) == all[k..] && Plain(all[..k])
        decreases |all| - k
      {
        pos := Advance(pos);
        assert all[k] == all[k..][0] && all[k..][1..] == all[k + 1..];
        assert all[..k + 1] == all[..k] + [all[k]];
        k := k + 1;
      }
      pos := PastNewline(pos, all, k);
    }

    /** The loop that copies one line of the text into the line buffer. */
    method CopyLine(pos0: nat) returns (pos: nat)
      requires Valid() && Spot(pos0)
      modifies linebuf
      ensures Spot(pos) && Rest(pos) == Drop(Rest(pos0), 1)
      ensures linebuf[..width] == View(FirstLine(Rest(pos0)), leftCol, width)
    {
      hide LineEnd, Drop, Clip, View;
      ghost var all, k := Rest(pos0), 0;
      pos := pos0;
      var c: nat, n: nat := 0, 0;
      NothingSeen(linebuf[..], leftCol, width);
      assert all[..0] == [];
      while pos < TEXT_CAP && text[pos] != NEWLINE
        invariant Spot(pos) && k <= |all| && Rest(pos) == all[k..] && Plain(all[..k])
        invariant n <= width && Holding(linebuf[..], n, c, all[..k], leftCol, width)
        decreases |all| - k
      {
        var ch := text[pos];
        pos := Advance(pos);
        assert all[k] == all[k..][0] && all[k..][1..] == all[k + 1..];
        assert all[..k + 1] == all[..k] + [all[k]];
        c, n := CopyChar(ch, c, n, all[..k]);
        k := k + 1;
      }
      pos := PastNewline(pos, all, k);
      Pad(n, c, all[..k], []);
      assert all[..k] + [] == FirstLine(all);
    }

    method CopyChar(ch: byte, c0: nat, n0: nat, ghost seen: Text) returns (c: nat, n: nat)
      requires Valid() && n0 <= width && Holding(linebuf[..], n0, c0, seen, leftCol, width)
      modifies linebuf
      ensures n <= width && Holding(linebuf[..], n, c, seen + [ch], leftCol, width)
    {
      hide Clip;
      ClipAppend(seen, ch, leftCol, width);
      c, n := c0 + 1, n0;
      if c0 >= leftCol && n < width {
        ghost var was := linebuf[..n];
        linebuf[n] := Sanitize(ch);
        n := n + 1;
        assert linebuf[..n] == was + [Sanitize(ch)];
      }
    }

    /** The position of the first row on the screen. */
    method SeekTop() returns (pos: nat)
      requires Valid()
      ensures Spot(pos) && Rest(pos) == Drop(Contents(), topRow)
    {
      hide LineEnd, Drop;
      ghost var s := Contents();
      pos := 0;
      if pos == gapStart { pos := gapEnd; }
      RestStart(text[..], gapStart, gapEnd);
      DropZero(s);
      for skip := 0 to topRow
        invariant Spot(pos) && Rest(pos) == Drop(s, skip)
      {
        DropMore(s, skip, 1);
        pos := SkipLine(pos);
      }
    }

    /** DMG_FULL: every row. */
    method RenderFull(numRows: nat)
      requires Valid() && Framed() && numRows == Newlines(Contents()) + 1
      modifies linebuf, screen
      ensures Framed() && Shows(Contents()) && CellsShow(screen[..], Contents(), topRow, leftCol, width)
    {
      hide CellsShow, Newlines, FullRow;
      RenderRows(numRows);
      ShownCells(screen[..], Contents(), topRow, leftCol, width);
    }

    /** The rows from the first in the window on. */
    method RenderRows(numRows: nat)
      requires Valid() && Framed() && numRows == Newlines(Contents()) + 1
      modifies linebuf, screen
      ensures Framed() && Shows(Contents())
    {
      hide LineEnd, Newlines, View, Drop, RestOf;
      ghost var s := Contents();
      var pos := SeekTop();
      for r := 0 to screen.Length
        invariant Spot(pos) && Rest(pos) == Drop(s, topRow + r) && Framed()
        invariant forall k :: 0 <= k < r ==> screen[k] == FullRow(s, topRow + k, leftCol, width)
      {
        DropMore(s, topRow + r, 1);
        pos := CopyLine(pos);
        ViewLength(Line(s, topRow + r), leftCol, width);
        DrawRow(r, topRow + r, numRows, true);
      }
    }

    // ----- keys

    /** Repeated cursor_right. */
    method RightBy(n: nat)
      requires Valid() && n <= |After()|
      modifies this`gapStart, this`gapEnd, text
      ensures Valid() && Contents() == old(Contents())
      ensures Before() == old(Before()) + old(After())[..n] && After() == old(After())[n..]
    {
      ghost var a, b := Before(), After();
      var target := gapEnd + n;
      ghost var i := 0;
      assert a + b[..0] == a;
      while gapEnd != target
        invariant Valid() && i <= n && gapEnd == target - n + i && Before() == a + b[..i] && After() == b[i..]
        invariant Contents() == a + b
        decreases n - i
      {
        StepRight(a, b, i);
        CursorRight();
        i := i + 1;
      }
    }

    /** Repeated cursor_left. */
    method LeftTo(target: nat)
      requires Valid() && target <= gapStart
      modifies this`gapStart, this`gapEnd, text
      ensures Valid() && Contents() == old(Contents()) && gapStart == target && Before() == old(Before())[..target]
    {
      ghost var a, s := Before(), Contents();
      while gapStart != target
        invariant Valid() && target <= gapStart <= |a| && Before() == a[..gapStart] && Contents() == s
        decreases gapStart
      {
        CursorLeft();
        assert a[..gapStart + 1][..gapStart] == a[..gapStart];
      }
    }

    /** Up to n characters to the right, but not past the end of the line. */
    method RightWithin(n: nat) returns (ghost m: nat)
      requires Valid()
      modifies this`gapStart, this`gapEnd, text
      ensures Valid() && Contents() == old(Contents())
      ensures m == (if n < LineEnd(old(After())) then n else LineEnd(old(After()))) && Before() == old(Before()) + old(After())[..m]
    {
      hide LineEnd, FirstLine, Plain;
      ghost var a, b := Before(), After();
      var k: nat := 0;
      assert a + b[..0] == a;
      while k < n
        invariant Valid() && k <= n && k <= LineEnd(b) && Before() == a + b[..k] && After() == b[k..] && Contents() == a + b
      {
        assert After() == text[gapEnd..];
        if gapEnd == TEXT_CAP || text[gapEnd] == NEWLINE {
          EndsHere(b, k);
          return k;
        }
        StepRight(a, b, k);
        NotEnd(b, k);
        CursorRight();
        k := k + 1;
      }
      m := k;
    }

    /** Key j: one row down, at the same column or at the end of a shorter line. */
    method MoveDown()
      requires Valid()
      modifies this`gapStart, this`gapEnd, text
      ensures Valid() && Contents() == old(Contents())
      ensures LineEnd(old(After())) == |old(After())| ==> Before() == old(Before())
      ensures LineEnd(old(After())) < |old(After())| ==> Landed(Contents(), Before(), Newlines(old(Before())) + 1, Column(old(Before())))
    {
      hide LineEnd, Newlines, Column, Landed;
      ghost var a, b := Before(), After();
      var row, col := CursorRowCol();
      var p := ForwardToEnd(gapEnd);
      if p == TEXT_CAP { return; }
      ghost var e := LineEnd(b) + 1;
      RightBy(p + 1 - gapEnd);
      ghost var k := RightWithin(col);
      TwoSteps(a, b, e, k);
      LandedAt(a, b, e, k, col);
    }

    /** Key k: one row up. */
    method MoveUp()
      requires Valid()
      modifies this`gapStart, this`gapEnd, text
      ensures Valid() && Contents() == old(Contents())
      ensures Newlines(old(Before())) == 0 ==> Before() == old(Before())
      ensures Newlines(old(Before())) > 0 ==> Landed(Contents(), Before(), Newlines(old(Before())) - 1, Column(old(Before())))
    {
      hide Newlines, Column, Line;
      ghost var a, b := Before(), After();
      var row, col := CursorRowCol();
      var p := BackToLine(gapStart);
      NoColumn(a);
      if p == 0 { return; }
      LineBefore(a, b);
      LeftTo(p - 1);
      ghost var a0 := Before();
      var row', colTemp := CursorRowCol();
      ghost var was := colTemp;
      assert a0[..|a0| - 0] == a0;
      while colTemp > col
        invariant colTemp <= was && (was > col ==> colTemp >= col) && (was <= col ==> colTemp == was)
        invariant Valid() && gapStart == |a0| - (was - colTemp) && Before() == a0[..gapStart] && Contents() == a + b
        decreases colTemp
      {
        CursorLeft();
        assert a0[..gapStart + 1][..gapStart] == a0[..gapStart];
        colTemp := colTemp - 1;
      }
      ColumnCut(a0, was - colTemp);
    }

    /** handle_normal: cursor keys move the gap and leave the text alone. */
    method HandleNormal(c: byte)
      requires Valid() && damage == None
      modifies this`gapStart, this`gapEnd, this`mode, this`damage, this`cmd, this`complaint, text
      ensures Prompt(cmd, complaint, running) == if c == COLON then Prompt([], [], running) else old(Prompt(cmd, complaint, running))
      ensures Valid() && Contents() == old(Contents()) && (damage == None || damage == Cmd) && mode == NextMode(Normal, c)
      ensures Moved(old(Before()), old(After()), c, Before())
    {
      hide LineEnd, Newlines, Column, Landed;
      mode := Normal;
      if c == 58 {         // ':'
        cmd, complaint := [], [];
        mode := Command;
        damage := Cmd;
      } else if c == 105 { // 'i'
        mode := Insert;
      } else if c == 97 {  // 'a'
        CursorRight();
        mode := Insert;
      } else if c == 104 { // 'h'
        CursorLeft();
      } else if c == 106 { // 'j'
        MoveDown();
      } else if c == 107 { // 'k'
        MoveUp();
      } else if c == 108 { // 'l'
        CursorRight();
      }
    }

    /** handle_insert. */
    method HandleInsert(c: byte)
      requires Valid() && damage == None
      modifies this`gapStart, this`mode, this`damage, text
      ensures Valid() && After() == old(After()) && Before() == Typed(old(Before()), old(gapStart == gapEnd), c)
      ensures Covered(old(Contents()), Contents(), damage, Newlines(Before())) && damage != Full && mode == NextMode(Insert, c)
    {
      hide Newlines, SameRow;
      mode := Insert;
      ghost var a, b := Before(), After();
      if c >= 0x80 { return; }
      if c == KEY_ESC {
        mode := Normal;
        return;
      }
      if c == BACKSPACE {
        if gapStart > 0 {
          damage := if text[gapStart - 1] == NEWLINE then Below else Tail;
          gapStart := gapStart - 1;
          ghost var a', ch := Before(), text[gapStart];
          assert a == a' + [ch];
          DeletionCovered(a', ch, b);
        }
        return;
      }
      if gapStart == gapEnd { return; }
      damage := if c == NEWLINE then Below else Tail;
      text[gapStart] := c;
      gapStart := gapStart + 1;
      assert Before() == a + [c];
      assert After() == b;
      InsertionCovered(a, c, b);
    }

    /** save, as far as the buffer goes: the cursor moves to the end. */
    method SaveCursor()
      requires Valid()
      modifies this`gapStart, this`gapEnd, text
      ensures Valid() && Contents() == old(Contents()) && After() == []
    {
      ghost var s := Contents();
      while gapEnd != TEXT_CAP
        invariant Valid() && Contents() == s
        decreases TEXT_CAP - gapEnd
      {
        CursorRight();
      }
    }

    /** What handle_command does with a complete command; `saves` is the outcome of a save. */
    method Execute(saves: bool)
      requires Valid()
      modifies this`gapStart, this`gapEnd, this`complaint, this`running, text
      ensures Valid() && Contents() == old(Contents()) && (Before() == old(Before()) || After() == [])
      ensures Prompt(cmd, complaint, running) == Executed(old(Prompt(cmd, complaint, running)), saves)
    {
      hide Said;
      Messages();
      Words();
      var w := Word(cmd);
      var quits := w == [113] || w == [113, 97] || w == [119, 113] || w == [119, 113, 97];   // q qa wq wqa
      if !quits && w != [119] && w != [119, 97] {   // w wa
        complaint := NOT_FOUND;
        return;
      }
      if w[0] == 119 {   // w wa wq wqa
        SaveCursor();
        if !saves { complaint := FAILED; }
      }
      if quits && (w[0] == 113 || complaint == []) { running := false; }
    }

    /** handle_command. */
    method HandleCommand(c: byte, saves: bool)
      requires Valid() && damage == None
      modifies this`gapStart, this`gapEnd, this`mode, this`damage, this`cmd, this`complaint, this`running, text
      ensures Valid() && Contents() == old(Contents()) && (damage == None || damage == Cmd) && mode == NextMode(Command, c)
      ensures Before() == old(Before()) || (c == NEWLINE && After() == [])
      ensures Prompt(cmd, complaint, running) == Entered(old(Prompt(cmd, complaint, running)), c, saves)
      ensures cmd != old(cmd) ==> damage == Cmd
    {
      hide Executed;
      mode := Command;
      if c >= 0x80 { return; }
      if c == KEY_ESC {
        mode, damage, cmd := Normal, Cmd, [];
      } else if c == BACKSPACE {
        if cmd != [] { cmd, damage := cmd[..|cmd| - 1], Cmd; }
      } else if c == NEWLINE {
        Execute(saves);
        mode, damage, cmd := Normal, Cmd, [];
      } else if |cmd| < CMD_MAX {
        cmd, damage := cmd + [c], Cmd;
      }
    }

    /**
     * check_scroll: the cursor is in the window afterwards, which moves no further than it must, and a window that has
     * moved asks for a full redraw.
     */
    method CheckScroll()
      requires Valid()
      modifies this`topRow, this`leftCol, this`damage
      ensures Valid() && InWindow()
      ensures screen.Length > 0 ==> Nearest(old(topRow), topRow, Newlines(Before()), screen.Length)
      ensures Nearest(old(leftCol), leftCol, Column(Before()), width)
      ensures old(InWindow()) && screen.Length > 0 ==> damage == old(damage)
      ensures damage == Full || (damage == old(damage) && topRow == old(topRow) && leftCol == old(leftCol))
    {
      hide Newlines, Column;
      var row, col := CursorRowCol();
      if row < topRow {
        topRow, damage := row, Full;
      } else if row >= topRow + screen.Length {
        topRow, damage := row - screen.Length + 1, Full;
      }
      if col < leftCol {
        leftCol, damage := col, Full;
      } else if col >= leftCol + width {
        leftCol, damage := col - width + 1, Full;
      }
    }

    /** gap_render, on the text area: s is the text that the screen shows. */
    method RenderText(ghost s: Text)
      requires Valid() && Framed() && InWindow()
      modifies linebuf, screen
      ensures Framed()
      ensures damage == Full || (old(Shows(s)) && Covered(s, Contents(), damage, Newlines(Before()))) ==> Shows(Contents())
      ensures damage == None || damage == Cmd ==> screen[..] == old(screen[..])
    {
      hide Newlines, FullRow, SameRow, Column;
      var row, col := CursorRowCol();
      var numRows := BufRows();
      ghost var s' := Contents();
      ghost var due := Shows(s) && Covered(s, s', damage, row);
      match damage
      case None =>
      case Cmd =>
      case Tail =>
        RenderTail(row, numRows);
        if due {
          forall k | 0 <= k < screen.Length ensures screen[k] == FullRow(s', topRow + k, leftCol, width) {
            if topRow + k != row { SameRowShown(s, s', topRow + k, leftCol, width); }
          }
        }
      case Below =>
        if screen.Length > 0 { RenderBelow(row, numRows); }
        if due {
          forall k | 0 <= k < screen.Length ensures screen[k] == FullRow(s', topRow + k, leftCol, width) {
            if topRow + k + 1 < row { SameRowShown(s, s', topRow + k, leftCol, width); }
          }
        }
      case Full => RenderFull(numRows);
    }

    /** scroll. */
    method Scroll()
      requires Valid() && Framed()
      modifies this`bottom, screen
      ensures Valid() && Framed() && Screen() == Scrolled(old(Screen()), COL_OFFSET + width)
    {
      var n := screen.Length;
      ghost var was := screen[..];
      if n > 0 {
        for r := 1 to n
          invariant bottom == old(bottom) && forall k :: 0 <= k < r - 1 ==> screen[k] == was[k + 1]
          invariant forall k :: r - 1 <= k < n ==> screen[k] == was[k]
        {
          screen[r - 1] := screen[r];
        }
        screen[n - 1] := bottom[..COL_OFFSET + width];
        assert screen[..] == was[1..] + [bottom[..COL_OFFSET + width]];
      }
      bottom := Spaces(cols);
    }

    /** Writes a string to the bottom row, from a column on. */
    method WriteBottom(col0: nat, s: Text)
      requires Valid() && Framed() && col0 < cols
      modifies this`bottom, screen
      ensures Valid() && Framed() && Screen() == Fed(old(Screen()), col0, s, COL_OFFSET + width)
    {
      hide Scrolled;
      var col: nat := col0;
      for i := 0 to |s|
        invariant Valid() && Framed() && col < cols
        invariant Fed(Screen(), col, s[i..], COL_OFFSET + width) == Fed(old(Screen()), col0, s, COL_OFFSET + width)
      {
        assert s[i..][0] == s[i] && s[i..][1..] == s[i + 1..];
        bottom := bottom[col := s[i]];
        col := col + 1;
        if col == cols {
          col := 0;
          Scroll();
        }
      }
    }

    /** gap_render, on the bottom row. */
    method RenderBottom()
      requires Valid() && Framed()
      modifies this`bottom, screen
      ensures Valid() && Framed()
      ensures Screen() == Painted(old(Screen()), damage == Cmd, cmd, Status(mode, complaint), COL_OFFSET + width)
    {
      hide Fed;
      if damage == Cmd {
        var wide := if COL_OFFSET + width > LINEBUF then LINEBUF else COL_OFFSET + width;
        WriteBottom(1, Spaces(wide - 2));
        WriteBottom(1, cmd);
      }
      Messages();
      var t := complaint;
      if t == [] { t := if mode == Normal then NORMAL else if mode == Insert then INSERT else [COLON]; }
      WriteBottom(0, t);
    }

    /** gap_render: the text area is redrawn, and stays so while the bottom row does not overflow. */
    method Render(ghost s: Text) returns (ghost drawn: seq<Text>)
      requires Valid() && Framed() && InWindow()
      modifies linebuf, screen, this`bottom
      ensures Valid() && Framed() && InWindow() && |drawn| == screen.Length
      ensures Screen() == Painted(Console(drawn, old(bottom)), damage == Cmd, cmd, Status(mode, complaint), COL_OFFSET + width)
      ensures damage == Full || (old(Shows(s)) && Covered(s, Contents(), damage, Newlines(Before()))) ==>
                Shown(drawn, Contents(), topRow, leftCol, width) && (Fits() ==> Drawn())
      ensures |Status(mode, complaint)| < cols && (damage == Cmd ==> 1 + |cmd| < cols) ==> screen[..] == drawn && bottom[0] == Status(mode, complaint)[0]
    {
      hide Newlines, Column, FullRow, Covered, Painted;
      RenderText(s);
      drawn := screen[..];
      ghost var was := bottom;
      RenderBottom();
      if |Status(mode, complaint)| < cols && (damage == Cmd ==> 1 + |cmd| < cols) {
        PaintedFits(Console(drawn, was), damage == Cmd, cmd, Status(mode, complaint), COL_OFFSET + width);
      }
    }

    /** The handler of the mode. */
    method Handle(c: byte, saves: bool)
      requires Valid() && damage == None
      modifies this`gapStart, this`gapEnd, this`mode, this`damage, this`cmd, this`complaint, this`running, text
      ensures Valid() && mode == NextMode(old(mode), c) && damage != Full && Covered(old(Contents()), Contents(), damage, Newlines(Before()))
      ensures old(mode) == Normal ==> Contents() == old(Contents()) && Moved(old(Before()), old(After()), c, Before())
      ensures old(mode) == Insert ==> Before() == Typed(old(Before()), old(gapStart == gapEnd), c) && After() == old(After())
      ensures old(mode) == Command ==> Contents() == old(Contents()) && (Before() == old(Before()) || (c == NEWLINE && After() == []))
      ensures Prompt(cmd, complaint, running) == Prompted(old(Prompt(cmd, complaint, running)), old(mode), c, saves)
      ensures old(mode) == Command && cmd != old(cmd) ==> damage == Cmd
    {
      hide Newlines, Column, LineEnd, SameRow, Typed, Moved, Entered;
      match mode {
        case Normal => HandleNormal(c);
        case Insert => HandleInsert(c);
        case Command => HandleCommand(c, saves);
      }
    }

    /** One turn of the main loop. */
    method Key(c: byte, saves: bool) returns (ghost drawn: seq<Text>)
      requires Valid() && Framed()
      modifies this, text, linebuf, screen
      ensures Valid() && Framed() && InWindow() && mode == NextMode(old(mode), c)
      ensures old(mode) == Normal ==> Contents() == old(Contents()) && Moved(old(Before()), old(After()), c, Before())
      ensures old(mode) == Insert ==> Before() == Typed(old(Before()), old(gapStart == gapEnd), c) && After() == old(After())
      ensures old(mode) == Command ==> Contents() == old(Contents()) && (Before() == old(Before()) || (c == NEWLINE && After() == []))
      ensures Prompt(cmd, complaint, running) == Prompted(old(Prompt(cmd, complaint, running)), old(mode), c, saves)
      ensures |drawn| == screen.Length && (old(Drawn()) ==> Shown(drawn, Contents(), topRow, leftCol, width) && (Fits() ==> Drawn()))
      ensures Screen() == Painted(Console(drawn, old(bottom)), damage == Cmd, cmd, Status(mode, complaint), COL_OFFSET + width)
      ensures |Status(mode, complaint)| < cols && (damage == Cmd ==> 1 + |cmd| < cols) ==> bottom[0] == Status(mode, complaint)[0]
      ensures old(mode) == Command && cmd != old(cmd) && Before() == old(Before()) && old(InWindow()) && screen.Length > 0 ==> damage == Cmd
      ensures screen.Length > 0 ==> Nearest(old(topRow), topRow, Newlines(Before()), screen.Length)
      ensures Nearest(old(leftCol), leftCol, Column(Before()), width)
    {
      hide Newlines, Column, LineEnd, FullRow, SameRow, Typed, Moved, Painted, Prompted, Covered, Fits, Shown, Nearest;
      ghost var s := Contents();
      damage := None;
      Handle(c, saves);
      CheckScroll();
      drawn := Render(s);
    }

    /** The turn of the main loop in which a complaint expires. */
    method Expire()
      requires Valid() && Framed() && InWindow()
      modifies this`damage, this`complaint, this`bottom, linebuf, screen
      ensures Valid() && Framed() && InWindow() && complaint == []
      ensures old(Drawn()) && Fits() ==> Drawn()
    {
      hide Newlines, Column, FullRow, SameRow, Painted;
      if complaint != [] {
        complaint, damage := [], Cmd;
        ghost var drawn := Render(Contents());
      }
    }
  }

  // ----- the window

  function Distance(a: nat, b: nat): nat {
    if a < b then b - a else a - b
  }

  /** Of the windows of this size that hold pos, the one at t' is nearest to t. */
  ghost predicate Nearest(t: nat, t': nat, pos: nat, size: nat) {
    t' <= pos < t' + size && forall u: nat :: u <= pos < u + size ==> Distance(t, t') <= Distance(t, u)
  }

  // ----- the command line

  /** The command being typed, the complaint being shown, and whether the editor goes on. */
  datatype Prompt = Prompt(cmd: Text, complaint: Text, running: bool)

  /** The C string in the command buffer. */
  function Word(s: Text): Text {
    if s == [] || s[0] == 0 then [] else [s[0]] + Word(s[1..])
  }

  lemma Words()
    ensures Said("q") == [113] && Said("qa") == [113, 97] && Said("wq") == [119, 113] && Said("wqa") == [119, 113, 97]
    ensures Said("w") == [119] && Said("wa") == [119, 97]
  {
  }

  ghost predicate Quits(w: Text) {
    w == Said("q") || w == Said("qa") || w == Said("wq") || w == Said("wqa")
  }

  ghost predicate Saves(w: Text) {
    w == Said("w") || w == Said("wa") || w == Said("wq") || w == Said("wqa")
  }

  /** A save that fails is complained about, and then nothing quits. */
  ghost function Executed(p: Prompt, saves: bool): Prompt {
    var w := Word(p.cmd);
    var complaint := if !Quits(w) && !Saves(w) then Said("Command not found") else if Saves(w) && !saves then Said("Failed to save") else p.complaint;
    Prompt(p.cmd, complaint, p.running && !(Quits(w) && (!Saves(w) || complaint == [])))
  }

  ghost function Entered(p: Prompt, c: byte, saves: bool): Prompt {
    if c >= 0x80 then p
    else if c == 27 then p.(cmd := [])
    else if c == 8 then p.(cmd := if p.cmd == [] then [] else p.cmd[..|p.cmd| - 1])
    else if c == 10 then Executed(p, saves).(cmd := [])
    else if |p.cmd| < 63 then p.(cmd := p.cmd + [c])
    else p
  }

  ghost function Prompted(p: Prompt, mode: Mode, c: byte, saves: bool): Prompt {
    match mode
    case Normal => if c == 58 then Prompt([], [], p.running) else p
    case Insert => p
    case Command => Entered(p, c, saves)
  }

  /**
   * Where a key in normal mode takes the cursor: h, l and a by one character; j and k to the next or previous row, at
   * the same column or at the end of a shorter line.
   */
  ghost predicate Moved(a: Text, b: Text, c: byte, a': Text) {
    if c == 104 then a' == a[..if a == [] then 0 else |a| - 1]
    else if c == 108 || c == 97 then a' == a + b[..if b == [] then 0 else 1]
    else if c == 106 then (if LineEnd(b) < |b| then Landed(a + b, a', Newlines(a) + 1, Column(a)) else a' == a)
    else if c == 107 then (if Newlines(a) > 0 then Landed(a + b, a', Newlines(a) - 1, Column(a)) else a' == a)
    else a' == a
  }

  function NextMode(m: Mode, c: byte): Mode {
    match m
    case Normal => if c == 58 then Command else if c == 105 || c == 97 then Insert else Normal
    case Insert => if c == 27 then Normal else Insert
    case Command => if c == 27 || c == 10 then Normal else Command
  }

  /** What stands before the cursor after a key in insert mode. */
  function Typed(a: Text, full: bool, c: byte): Text {
    if c >= 0x80 || c == 27 then a
    else if c == 8 then (if a == [] then [] else a[..|a| - 1])
    else if full then a
    else a + [c]
  }

  /** The rows that differ between s and s' are among those that this damage redraws. */
  ghost predicate Covered(s: Text, s': Text, d: Damage, row: nat) {
    match d
    case None => s' == s
    case Cmd => s' == s
    case Tail => forall r: nat :: r != row ==> SameRow(s, s', r)
    case Below => forall r: nat :: r + 1 < row ==> SameRow(s, s', r)
    case Full => true
  }

  lemma InsertionCovered(a: Text, c: byte, b: Text)
    ensures Covered(a + b, a + [c] + b, if c == NEWLINE then Below else Tail, Newlines(a + [c]))
  {
    hide Newlines, SameRow;
    Append(a, c);
    if c == NEWLINE {
      forall r: nat | r < Newlines(a) ensures SameRow(a + b, a + [c] + b, r) { NewlineChangesBelow(a, b, r); }
    } else {
      forall r: nat | r != Newlines(a) ensures SameRow(a + b, a + [c] + b, r) { CharChangesOneRow(a, c, b, r); }
    }
  }

  lemma DeletionCovered(a: Text, c: byte, b: Text)
    ensures Covered(a + [c] + b, a + b, if c == NEWLINE then Below else Tail, Newlines(a))
  {
    hide Newlines, SameRow;
    Append(a, c);
    if c == NEWLINE {
      forall r: nat | r < Newlines(a) ensures SameRow(a + [c] + b, a + b, r) {
        NewlineChangesBelow(a, b, r);
        SameRowSym(a + b, a + [c] + b, r);
      }
    } else {
      forall r: nat | r != Newlines(a) ensures SameRow(a + [c] + b, a + b, r) {
        CharChangesOneRow(a, c, b, r);
        SameRowSym(a + b, a + [c] + b, r);
      }
    }
  }

  lemma TwoSteps(a: Text, b: Text, e: nat, k: nat)
    requires e + k <= |b|
    ensures a + b[..e] + b[e..][..k] == a + b[..e + k]
  {
    assert b[..e] + b[e..][..k] == b[..e + k];
  }

  lemma StepRight(a: Text, b: Text, k: nat)
    requires k < |b|
    ensures b[k..][0] == b[k] && b[k..][1..] == b[k + 1..] && a + b[..k] + [b[k]] == a + b[..k + 1]
  {
  }

  lemma NotEnd(b: Text, k: nat)
    requires k <= LineEnd(b) && k < |b| && b[k] != NEWLINE
    ensures k < LineEnd(b)
  {
    hide LineEnd;
    LineEndFacts(b);
  }

  lemma EndsHere(b: Text, k: nat)
    requires k <= LineEnd(b) && (b[k..] == [] || b[k..][0] == NEWLINE)
    ensures k == LineEnd(b)
  {
    hide LineEnd;
    PlainPrefix(b, k);
    LineEndIs(b, k);
  }

  /** The cursor behind a is in this row of s, at the old column or at the end of the line if that is shorter. */
  ghost predicate Landed(s: Text, a: Text, row: nat, col: nat) {
    Newlines(a) == row && Column(a) == if col < |Line(s, row)| then col else |Line(s, row)|
  }

  lemma LandedAt(a: Text, b: Text, e: nat, k: nat, col: nat)
    requires LineEnd(b) < |b| && e == LineEnd(b) + 1 && k == (if col < LineEnd(b[e..]) then col else LineEnd(b[e..]))
    ensures Landed(a + b, a + b[..e + k], Newlines(a) + 1, col)
  {
    hide LineEnd, Newlines, Column, Line, FirstLine;
    NextLineColumn(a, b, k);
    FirstLineIs(b[e..]);
  }

  ghost function RestOf(t: Text, gapStart: nat, gapEnd: nat, pos: nat): Text
    requires gapStart <= gapEnd <= |t| && (pos < gapStart || gapEnd <= pos <= |t|)
  {
    if pos < gapStart then t[pos..gapStart] + t[gapEnd..] else t[pos..]
  }

  lemma RestNext(t: Text, gapStart: nat, gapEnd: nat, pos: nat)
    requires gapStart <= gapEnd <= |t| && (pos < gapStart || gapEnd <= pos) && pos < |t|
    ensures var r, next := RestOf(t, gapStart, gapEnd, pos), if pos + 1 == gapStart then gapEnd else pos + 1;
            (next < gapStart || gapEnd <= next <= |t|) && r != [] && r[0] == t[pos] && RestOf(t, gapStart, gapEnd, next) == r[1..]
  {
  }

  lemma RestEmpty(t: Text, gapStart: nat, gapEnd: nat, pos: nat)
    requires gapStart <= gapEnd <= |t| && (pos < gapStart || gapEnd <= pos <= |t|)
    ensures RestOf(t, gapStart, gapEnd, pos) == [] <==> pos == |t|
    ensures pos < |t| ==> RestOf(t, gapStart, gapEnd, pos)[0] == t[pos]
  {
  }

  lemma RestStart(t: Text, gapStart: nat, gapEnd: nat)
    requires gapStart <= gapEnd <= |t|
    ensures RestOf(t, gapStart, gapEnd, if gapStart == 0 then gapEnd else 0) == t[..gapStart] + t[gapEnd..]
  {
  }

  /** What follows the line of the cursor. */
  lemma BehindCursor(t: Text, gapStart: nat, gapEnd: nat, end: nat)
    requires gapStart <= gapEnd <= |t| && end == gapEnd + LineEnd(t[gapEnd..])
    ensures end <= |t|
    ensures t[if end < |t| then end + 1 else |t|..] == Drop(t[..gapStart] + t[gapEnd..], Newlines(t[..gapStart]) + 1)
  {
    hide LineEnd, Newlines;
    var a, b := t[..gapStart], t[gapEnd..];
    LineBelow(a, b, 1);
    if end < |t| { assert b[LineEnd(b) + 1..] == t[end + 1..]; }
    assert t[|t|..] == [];
    DropNext(b, 0);
  }

  /** What is left of a line on both sides of the gap, seen up to u on the one side and up to u' on the other. */
  ghost function Unseen(t: Text, begin: nat, gapStart: nat, gapEnd: nat, end: nat, u: nat, u': nat): Text
    requires begin <= u <= gapStart <= gapEnd <= u' <= end <= |t|
  {
    if u == gapStart then t[u'..end] else t[u..gapStart] + t[gapEnd..end]
  }

  lemma SeenAndUnseen(t: Text, begin: nat, gapStart: nat, gapEnd: nat, end: nat, u: nat, u': nat)
    requires begin <= u <= gapStart <= gapEnd <= u' <= end <= |t| && (u == gapStart || u' == gapEnd)
    ensures t[begin..u] + t[gapEnd..u'] + Unseen(t, begin, gapStart, gapEnd, end, u, u') == t[begin..gapStart] + t[gapEnd..end]
    ensures u == gapStart && u' == end ==> Unseen(t, begin, gapStart, gapEnd, end, u, u') == []
  {
    assert t[begin..u] + t[u..gapStart] == t[begin..gapStart];
    assert t[gapEnd..u'] + t[u'..end] == t[gapEnd..end];
  }

  /** The line above the cursor's lies before the gap. */
  lemma LineAboveCursor(t: Text, gapStart: nat, gapEnd: nat, begin: nat, prev: nat)
    requires gapStart <= gapEnd <= |t| && begin == gapStart - Column(t[..gapStart]) && begin > 0
    requires prev == begin - 1 - Column(t[..begin - 1])
    ensures prev <= begin - 1 && Newlines(t[..gapStart]) > 0
    ensures t[prev..begin - 1] == Line(t[..gapStart] + t[gapEnd..], Newlines(t[..gapStart]) - 1)
  {
    hide Newlines, Column, Line;
    var a, b := t[..gapStart], t[gapEnd..];
    LineBefore(a, b);
    assert a[..begin - 1] == t[..begin - 1];
    assert t[prev..begin - 1] == LastLine(t[..begin - 1]);
  }

  lemma NothingSeen(buf: seq<byte>, left: nat, width: nat)
    ensures Holding(buf, 0, 0, [], left, width)
  {
  }

  /** What the two walks around the gap enclose is the line of the cursor. */
  lemma CursorLine(t: Text, gapStart: nat, gapEnd: nat, begin: nat, end: nat)
    requires gapStart <= gapEnd <= |t| && begin == gapStart - Column(t[..gapStart]) && end == gapEnd + LineEnd(t[gapEnd..])
    ensures 0 <= begin <= gapStart && gapEnd <= end <= |t|
    ensures t[begin..gapStart] + t[gapEnd..end] == Line(t[..gapStart] + t[gapEnd..], Newlines(t[..gapStart]))
  {
    hide LineEnd, Newlines, Column, Line;
    var a, b := t[..gapStart], t[gapEnd..];
    LineAt(a, b);
    assert t[begin..gapStart] == LastLine(a);
    assert t[gapEnd..end] == FirstLine(b);
  }

  /** write_line_header. */
  method LineHeader(row: nat) returns (header: Text)
    ensures header == Header(row)
  {
    var h := new byte[COL_OFFSET](_ => 0);
    var off, left := 3, row;
    ghost var i := 0;
    while off >= 0
      invariant -1 <= off <= 3 && i == 3 - off && left == Leading(row, i)
      invariant forall k :: off < k <= 3 ==> h[k] == Digit(row, 3 - k)
      decreases off
    {
      if off < 3 && left == 0 { break; }
      h[off] := 48 + left % 10;
      off := off - 1;
      left := left / 10;
      i := i + 1;
    }
    while off >= 0
      invariant -1 <= off <= 3 && (forall k :: off < k <= 3 ==> h[k] == Digit(row, 3 - k))
      invariant off >= 0 ==> off < 3 && Leading(row, 3 - off) == 0
      decreases off
    {
      h[off] := SPACE;
      off := off - 1;
    }
    h[4] := 62;
    h[5] := SPACE;
    header := h[..];
  }

  lemma Nothing()
    ensures Newlines([]) == 0 && Column([]) == 0
  {
  }

  // ----- whole sessions

  /** A key with the outcome of a save, should it cause one, or the expiry of a complaint. */
  datatype Event = Press(c: byte, saves: bool) | Lapse

  /** The editor between two events. */
  datatype Shot = Shot(before: Text, after: Text, mode: Mode, prompt: Prompt, rows: seq<Text>, top: nat, left: nat, width: nat)

  ghost function ShotOf(d: Dinv): Shot
    reads d, d.text, d.screen
    requires d.Valid()
  {
    Shot(d.Before(), d.After(), d.mode, Prompt(d.cmd, d.complaint, d.running), d.screen[..], d.topRow, d.leftCol, d.width)
  }

  /** The text area shows the text, and the cursor is in it. */
  ghost predicate Faithful(e: Shot, width: nat) {
    && Shown(e.rows, e.before + e.after, e.top, e.left, width) && CellsShow(e.rows, e.before + e.after, e.top, e.left, width)
    && (e.rows != [] ==> e.top <= Newlines(e.before) < e.top + |e.rows|) && e.left <= Column(e.before) < e.left + width
  }

  /** What an event does to text, cursor, mode, command line and window. */
  ghost predicate Turned(e: Shot, ev: Event, e': Shot) {
    match ev
    case Lapse => e'.before == e.before && e'.after == e.after && e'.mode == e.mode && e'.prompt == e.prompt.(complaint := []) && e'.top == e.top && e'.left == e.left
    case Press(c, saves) =>
      && e'.mode == NextMode(e.mode, c) && e'.prompt == Prompted(e.prompt, e.mode, c, saves)
      && (e'.rows != [] ==> Nearest(e.top, e'.top, Newlines(e'.before), |e'.rows|)) && Nearest(e.left, e'.left, Column(e'.before), e'.width)
      && match e.mode
         case Normal => e'.before + e'.after == e.before + e.after && Moved(e.before, e.after, c, e'.before)
         case Insert => e'.before == Typed(e.before, |e.before| + |e.after| == 262144, c) && e'.after == e.after
         case Command => e'.before + e'.after == e.before + e.after && (e'.before == e.before || (c == NEWLINE && e'.after == []))
  }

  ghost predicate IsSession(events: seq<Event>, trace: seq<Shot>) {
    && 0 < |trace| <= |events| + 1 && (forall i :: 0 <= i < |trace| - 1 ==> trace[i].prompt.running && Turned(trace[i], events[i], trace[i + 1]))
    && (|trace| == |events| + 1 || !trace[|trace| - 1].prompt.running)
  }

  /** The first drawing. */
  method Start(screenRows: nat, screenCols: nat, file: Text) returns (d: Dinv)
    requires screenRows > 0 && screenCols > COL_OFFSET && |file| < 262144
    ensures fresh(d) && fresh(d.text) && fresh(d.linebuf) && fresh(d.screen)
    ensures d.Valid() && d.Framed() && d.InWindow() && d.Drawn() && d.Before() == file && d.After() == [] && d.mode == Normal
    ensures d.cols == screenCols && d.screen.Length == screenRows - 1 && d.cmd == [] == d.complaint && d.running
  {
    hide Newlines, Column, LineEnd, FullRow, SameRow, Painted;
    d := new Dinv(screenRows, screenCols);
    d.Load(file);
    d.CheckScroll();
    ghost var drawn := d.Render(d.Contents());
  }

  /** One event. */
  method Turn(d: Dinv, ev: Event)
    requires d.Valid() && d.Framed() && d.InWindow()
    modifies d, d.text, d.linebuf, d.screen
    ensures d.Valid() && d.Framed() && d.InWindow() && Turned(old(ShotOf(d)), ev, ShotOf(d))
    ensures d.cols > CMD_MAX + 1 && old(d.Drawn()) ==> d.Drawn()
  {
    hide Newlines, Column, LineEnd, FullRow, SameRow, Typed, Moved, Painted, Prompted, Shown, Nearest;
    match ev
    case Press(c, saves) => ghost var drawn := d.Key(c, saves);
    case Lapse => d.Expire();
  }

  lemma DrawnFaithful(d: Dinv)
    requires d.Drawn() && d.InWindow()
    ensures Faithful(ShotOf(d), d.width)
  {
    hide Newlines, Column, Shown, CellsShow;
    ShownCells(d.screen[..], d.Contents(), d.topRow, d.leftCol, d.width);
  }

  /** app_dinv on a file, with any keys: the screen shows the text all the time, if it has more than 64 columns. */
  method Session(screenRows: nat, screenCols: nat, file: Text, events: seq<Event>) returns (d: Dinv, ghost trace: seq<Shot>)
    requires screenRows > 0 && screenCols > COL_OFFSET && |file| < 262144
    ensures d.Valid() && IsSession(events, trace) && trace[|trace| - 1] == ShotOf(d) && trace[0].before == file && trace[0].after == []
    ensures screenCols > 64 ==> forall i :: 0 <= i < |trace| ==> Faithful(trace[i], d.width)
  {
    hide Turned, Faithful, Dinv.Drawn, Dinv.Framed, Dinv.InWindow;
    d := Start(screenRows, screenCols, file);
    trace := [ShotOf(d)];
    if d.Drawn() { DrawnFaithful(d); }
    var i := 0;
    while i < |events| && d.running
      invariant i <= |events| && d.Valid() && d.Framed() && d.InWindow() && d.cols == screenCols
      invariant fresh(d) && fresh(d.text) && fresh(d.linebuf) && fresh(d.screen)
      invariant |trace| == i + 1 && trace[i] == ShotOf(d) && trace[0].before == file && trace[0].after == []
      invariant forall j :: 0 <= j < i ==> trace[j].prompt.running && Turned(trace[j], events[j], trace[j + 1])
      invariant screenCols > CMD_MAX + 1 ==> d.Drawn() && forall j :: 0 <= j <= i ==> Faithful(trace[j], d.width)
    {
      Turn(d, events[i]);
      if d.Drawn() { DrawnFaithful(d); }
      trace := trace + [ShotOf(d)];
      i := i + 1;
    }
  }

  /**
   * A colon and as many letters as the command line takes, or as fill the bottom row: the text area survives exactly on
   * a screen of more than 64 columns.
   */
  method LongCommand(screenRows: nat, screenCols: nat, file: Text, letter: byte) returns (d: Dinv)
    requires screenRows > 1 && screenCols > COL_OFFSET && |file| < 262144 && 97 <= letter <= 122
    ensures d.Valid() && d.mode == Command
    ensures d.Drawn() <==> screenCols > 64
  {
    hide Newlines, Column, LineEnd, FullRow, SameRow, Typed, Moved, Painted, Shown;
    d := Start(screenRows, screenCols, file);
    ghost var drawn := d.Key(COLON, true);
    Messages();
    var n := if screenCols > CMD_MAX then CMD_MAX else screenCols - 1;
    var k := 0;
    while k < n
      invariant k <= n && d.Valid() && d.Framed() && d.InWindow() && d.cols == screenCols && d.screen.Length == screenRows - 1
      invariant fresh(d) && fresh(d.text) && fresh(d.linebuf) && fresh(d.screen)
      invariant d.mode == Command && |d.cmd| == k && d.complaint == []
      invariant k + 1 < screenCols ==> d.Drawn() && d.bottom[0] == COLON
      invariant k + 1 >= screenCols ==> !d.Drawn()
    {
      ghost var was := d.bottom;
      drawn := d.Key(letter, true);
      k := k + 1;
      if k + 1 == screenCols { Overflowed(d.Screen(), drawn, was, d.cmd, d.Contents(), d.topRow, d.leftCol, d.width); }
    }
  }

  /** After a command has filled the bottom row, the last row of the text area starts with the colon. */
  lemma Overflowed(c: Console, drawn: seq<Text>, bottom: Text, cmd: Text, s: Text, top: nat, left: nat, width: nat)
    requires COL_OFFSET + width == |bottom| && drawn != [] && 0 < width && 1 + |cmd| == |bottom| && bottom[0] == COLON
    requires c == Painted(Console(drawn, bottom), true, cmd, [COLON], COL_OFFSET + width)
    ensures !Shown(c.rows, s, top, left, width)
  {
    hide FullRow, Painted;
    PaintedScrolls(Console(drawn, bottom), cmd, [COLON], COL_OFFSET + width);
    var last := |c.rows| - 1;
    assert c.rows[last][0] == COLON;
    NoColon(s, top + last, left, width);
  }
}
