/**
 * The console (kernel/drivers/fb/fbController.c) as dinv (user/app/dinv/dinv.c) writes to it: the rows of the text area,
 * the bottom row, and the scrolling that a write past the end of the bottom row sets off.
 */
module EditorScreen {
  import opened Blocks
  import opened EditorText

  const LINEBUF: nat := 256
  const CMD_MAX: nat := 63   // sizeof(cmd_buf) - 1

  /** The first w columns of each row of the text area, and the whole bottom row. */
  datatype Console = Console(rows: seq<Text>, bottom: Text)

  /** scroll: every row moves up by one. */
  function Scrolled(c: Console, w: nat): (r: Console)
    requires w <= |c.bottom|
    ensures |r.rows| == |c.rows| && |r.bottom| == |c.bottom|
  {
    Console(if c.rows == [] then [] else c.rows[1..] + [c.bottom[..w]], Spaces(|c.bottom|))
  }

  /** fb_draw_char_no_upd in the bottom row. */
  function Drew(c: Console, col: nat, ch: byte, w: nat): (r: Console)
    requires col < |c.bottom| && w <= |c.bottom|
    ensures |r.rows| == |c.rows| && |r.bottom| == |c.bottom|
  {
    var c1 := c.(bottom := c.bottom[col := ch]);
    if col + 1 < |c.bottom| then c1 else Scrolled(c1, w)
  }

  /** The column after that write. */
  function Right(col: nat, cols: nat): nat {
    if col + 1 < cols then col + 1 else 0
  }

  /** Writing a string to the bottom row, character by character. */
  function Fed(c: Console, col: nat, s: Text, w: nat): (r: Console)
    requires col < |c.bottom| && w <= |c.bottom|
    ensures |r.rows| == |c.rows| && |r.bottom| == |c.bottom|
    decreases |s|
  {
    if s == [] then c else Fed(Drew(c, col, s[0], w), Right(col, |c.bottom|), s[1..], w)
  }

  /** A string that ends before the last column is all that changes. */
  lemma {:induction false} FedFits(c: Console, col: nat, s: Text, w: nat)
    requires col + |s| < |c.bottom| && w <= |c.bottom|
    ensures Fed(c, col, s, w) == c.(bottom := c.bottom[..col] + s + c.bottom[col + |s|..])
    decreases |s|
  {
    if s == [] {
      assert c.bottom[..col] + s + c.bottom[col..] == c.bottom;
    } else {
      var c1 := Drew(c, col, s[0], w);
      FedFits(c1, col + 1, s[1..], w);
      assert c1.bottom[..col + 1] + s[1..] == c.bottom[..col] + s;
      assert c1.bottom[col + |s|..] == c.bottom[col + |s|..];
    }
  }

  /** A string that reaches the last column scrolls the text area. */
  lemma {:induction false} FedExactly(c: Console, col: nat, s: Text, w: nat)
    requires s != [] && col + |s| == |c.bottom| && w <= |c.bottom|
    ensures Fed(c, col, s, w) == Scrolled(c.(bottom := c.bottom[..col] + s), w)
    decreases |s|
  {
    var c1 := Drew(c, col, s[0], w);
    if |s| == 1 {
      assert c.bottom[col := s[0]] == c.bottom[..col] + s;
    } else {
      FedExactly(c1, col + 1, s[1..], w);
      assert c1.bottom[..col + 1] + s[1..] == c.bottom[..col] + s;
    }
  }

  /** The end of gap_render: the command if it is to be redrawn, then the status. */
  function Painted(c: Console, again: bool, cmd: Text, status: Text, w: nat): (r: Console)
    requires COL_OFFSET < w <= |c.bottom|
    ensures |r.rows| == |c.rows| && |r.bottom| == |c.bottom|
  {
    var c1 := if again then Fed(Fed(c, 1, Spaces(Wiped(w)), w), 1, cmd, w) else c;
    Fed(c1, 0, status, w)
  }

  /** How many columns are wiped before the command is written. */
  function Wiped(w: nat): nat
    requires COL_OFFSET < w
  {
    (if w > LINEBUF then LINEBUF else w) - 2
  }

  /** A command and a status that end before the last column leave the text area alone. */
  lemma PaintedFits(c: Console, again: bool, cmd: Text, status: Text, w: nat)
    requires COL_OFFSET < w <= |c.bottom| && (again ==> 1 + |cmd| < |c.bottom|) && |status| < |c.bottom|
    ensures Painted(c, again, cmd, status, w).rows == c.rows
    ensures status != [] ==> Painted(c, again, cmd, status, w).bottom[0] == status[0]
  {
    hide Fed;
    var c1 := c;
    if again {
      FedFits(c, 1, Spaces(Wiped(w)), w);
      c1 := Fed(c, 1, Spaces(Wiped(w)), w);
      FedFits(c1, 1, cmd, w);
      c1 := Fed(c1, 1, cmd, w);
    }
    FedFits(c1, 0, status, w);
  }

  /** A command that just reaches the last column ends up in the last row of the text area. */
  lemma PaintedScrolls(c: Console, cmd: Text, status: Text, w: nat)
    requires COL_OFFSET < w <= |c.bottom| && 1 + |cmd| == |c.bottom| && |status| < |c.bottom| && c.rows != []
    ensures var r := Painted(c, true, cmd, status, w); r.rows == c.rows[1..] + [([c.bottom[0]] + cmd)[..w]]
  {
    hide Fed;
    FedFits(c, 1, Spaces(Wiped(w)), w);
    var c1 := Fed(c, 1, Spaces(Wiped(w)), w);
    FedExactly(c1, 1, cmd, w);
    assert c1.bottom[..1] == [c.bottom[0]];
    FedFits(Fed(c1, 1, cmd, w), 0, status, w);
  }

  /** The rows show this text at this scroll position as a full redraw would. */
  ghost predicate Shown(rows: seq<Text>, s: Text, top: nat, left: nat, width: nat) {
    forall r :: 0 <= r < |rows| ==> rows[r] == FullRow(s, top + r, left, width)
  }

  /** Cell by cell: every row shows its line from the left edge on, and every cell is printable. */
  ghost predicate CellsShow(rows: seq<Text>, s: Text, top: nat, left: nat, width: nat) {
    forall r :: 0 <= r < |rows| ==> RowShows(rows[r], Line(s, top + r), left, width)
  }

  ghost predicate RowShows(row: Text, line: Text, left: nat, width: nat) {
    |row| == COL_OFFSET + width && Printable(row) && forall j :: COL_OFFSET <= j < |row| ==> Depicts(row[j], line, left + j - COL_OFFSET)
  }

  lemma ShownCells(rows: seq<Text>, s: Text, top: nat, left: nat, width: nat)
    requires Shown(rows, s, top, left, width)
    ensures CellsShow(rows, s, top, left, width)
  {
    hide FullRow, Line, Printable, Depicts;
    forall r | 0 <= r < |rows| ensures RowShows(rows[r], Line(s, top + r), left, width) {
      FullRowAt(s, top + r, left, width);
    }
  }

  /** No row of the text area starts with a colon. */
  lemma NoColon(s: Text, row: nat, left: nat, width: nat)
    ensures |FullRow(s, row, left, width)| > 0 && FullRow(s, row, left, width)[0] != 58
  {
    hide Line, View, Newlines;
    assert Digit(row, 3) != 58;
  }
}
