/** Lines, rows and columns of a text, and how dinv (user/app/dinv/dinv.c) shows one row of it. */
module EditorText {
  import opened Blocks

  type Text = seq<byte>

  const NEWLINE: byte := 10
  const SPACE: byte := 32
  const COL_OFFSET: nat := 6

  // ----- lines

  /** No newline in it. */
  predicate Plain(s: Text) {
    forall k :: 0 <= k < |s| ==> s[k] != 10
  }

  /** The length of the first line. */
  function LineEnd(s: Text): (e: nat)
    ensures e <= |s|
  {
    if s == [] || s[0] == 10 then 0 else 1 + LineEnd(s[1..])
  }

  function FirstLine(s: Text): Text {
    s[..LineEnd(s)]
  }

  /** The text after its first k lines. */
  function Drop(s: Text, k: nat): Text
    decreases k
  {
    if k == 0 then s else if LineEnd(s) == |s| then [] else Drop(s[LineEnd(s) + 1..], k - 1)
  }

  /** Line number k, empty past the last one. */
  function Line(s: Text, k: nat): Text {
    FirstLine(Drop(s, k))
  }

  function Newlines(s: Text): nat {
    if s == [] then 0 else Newlines(s[..|s| - 1]) + if s[|s| - 1] == 10 then 1 else 0
  }

  /** The number of characters after the last newline: the column of a cursor behind s. */
  function Column(s: Text): (c: nat)
    ensures c <= |s|
  {
    if s == [] || s[|s| - 1] == 10 then 0 else 1 + Column(s[..|s| - 1])
  }

  function LastLine(s: Text): Text {
    s[|s| - Column(s)..]
  }

  lemma {:induction false} LineEndFacts(s: Text)
    ensures Plain(FirstLine(s)) && (LineEnd(s) < |s| ==> s[LineEnd(s)] == NEWLINE)
  {
    if s != [] && s[0] != NEWLINE {
      LineEndFacts(s[1..]);
      assert FirstLine(s) == [s[0]] + FirstLine(s[1..]);
    }
  }

  lemma {:induction false} LineEndIs(s: Text, e: nat)
    requires e <= |s| && Plain(s[..e]) && (e < |s| ==> s[e] == NEWLINE)
    ensures LineEnd(s) == e
  {
    if e > 0 {
      assert s[0] == s[..e][0];
      assert s[1..][..e - 1] == s[..e][1..];
      LineEndIs(s[1..], e - 1);
    }
  }

  lemma {:induction false} ColumnFacts(s: Text)
    ensures Plain(LastLine(s)) && (Column(s) < |s| ==> s[|s| - Column(s) - 1] == NEWLINE)
  {
    if s != [] && s[|s| - 1] != NEWLINE {
      var t := s[..|s| - 1];
      ColumnFacts(t);
      SuffixMore(s, Column(t));
      assert LastLine(s) == LastLine(t) + [s[|s| - 1]];
    }
  }

  lemma SuffixMore(s: Text, n: nat)
    requires n < |s|
    ensures var t := s[..|s| - 1];
            s[|s| - n - 1..] == t[|t| - n..] + [s[|s| - 1]]
  {
  }

  lemma {:induction false} ColumnIs(s: Text, c: nat)
    requires c <= |s| && Plain(s[|s| - c..]) && (c < |s| ==> s[|s| - c - 1] == NEWLINE)
    ensures Column(s) == c
  {
    if c > 0 {
      var t := s[..|s| - 1];
      assert s[|s| - 1] == s[|s| - c..][c - 1];
      assert t[|t| - (c - 1)..] == s[|s| - c..][..c - 1];
      ColumnIs(t, c - 1);
    }
  }

  lemma {:induction false} NewlinesJoin(a: Text, b: Text)
    ensures Newlines(a + b) == Newlines(a) + Newlines(b)
    decreases |b|
  {
    if b == [] {
      assert a + b == a;
    } else {
      assert (a + b)[..|a + b| - 1] == a + b[..|b| - 1];
      NewlinesJoin(a, b[..|b| - 1]);
    }
  }

  lemma {:induction false} NoNewlines(s: Text)
    requires Plain(s)
    ensures Newlines(s) == 0 && Column(s) == |s| && LineEnd(s) == |s|
  {
    if s != [] { NoNewlines(s[..|s| - 1]); }
    assert s[..|s|] == s;
    LineEndIs(s, |s|);
  }

  /** One more character. */
  lemma Append(s: Text, c: byte)
    ensures Newlines(s + [c]) == Newlines(s) + if c == NEWLINE then 1 else 0
    ensures Column(s + [c]) == if c == NEWLINE then 0 else Column(s) + 1
  {
    assert (s + [c])[..|s|] == s;
  }

  /** Only what follows the last newline counts for the column. */
  lemma {:induction false} ColumnAfter(a: Text, b: Text)
    ensures Column(a + [NEWLINE] + b) == Column(b)
    decreases |b|
  {
    if b == [] {
      assert a + [NEWLINE] + b == a + [NEWLINE];
      Append(a, NEWLINE);
    } else {
      var t, c := b[..|b| - 1], b[|b| - 1];
      assert a + [NEWLINE] + b == a + [NEWLINE] + t + [c] && b == t + [c];
      Append(a + [NEWLINE] + t, c);
      Append(t, c);
      ColumnAfter(a, t);
    }
  }

  lemma PeelText(s: Text)
    requires LineEnd(s) < |s|
    ensures s == FirstLine(s) + [NEWLINE] + s[LineEnd(s) + 1..]
  {
    hide LineEnd, Plain;
    LineEndFacts(s);
    Around(s, LineEnd(s));
  }

  lemma Around(s: Text, e: nat)
    requires e < |s|
    ensures s == s[..e] + [s[e]] + s[e + 1..]
  {
  }

  /** Splitting off the first line. */
  lemma Peel(s: Text)
    requires LineEnd(s) < |s|
    ensures s == FirstLine(s) + [NEWLINE] + s[LineEnd(s) + 1..]
    ensures Newlines(s) == 1 + Newlines(s[LineEnd(s) + 1..]) && Column(s) == Column(s[LineEnd(s) + 1..])
  {
    hide LineEnd, Newlines, Column, Plain, FirstLine;
    var f, rest := FirstLine(s), s[LineEnd(s) + 1..];
    PeelText(s);
    LineEndFacts(s);
    NewlinesJoin(f + [NEWLINE], rest);
    Append(f, NEWLINE);
    NoNewlines(f);
    ColumnAfter(f, rest);
  }

  lemma Suffix(s: Text, i: nat, n: nat)
    requires i + n <= |s|
    ensures s[i..][|s| - i - n..] == s[|s| - n..]
  {
  }

  lemma PeelLast(s: Text)
    requires LineEnd(s) < |s|
    ensures LastLine(s) == LastLine(s[LineEnd(s) + 1..])
  {
    hide LineEnd, Newlines, Column, FirstLine;
    Peel(s);
    var rest := s[LineEnd(s) + 1..];
    Suffix(s, LineEnd(s) + 1, Column(rest));
  }

  /** A text of one line. */
  lemma OneLine(s: Text)
    requires LineEnd(s) == |s|
    ensures Plain(s) && Newlines(s) == 0 && LastLine(s) == s
  {
    hide LineEnd, Newlines, Column, Plain;
    LineEndFacts(s);
    assert s[..|s|] == s;
    NoNewlines(s);
  }

  lemma JoinEnd(l: Text, b: Text)
    requires Plain(l)
    ensures LineEnd(l + b) == |l| + LineEnd(b) && FirstLine(l + b) == l + FirstLine(b)
  {
    hide LineEnd;
    LineEndFacts(b);
    var e := |l| + LineEnd(b);
    assert (l + b)[..e] == l + FirstLine(b);
    LineEndIs(l + b, e);
  }

  /** With a newline in front, what follows the first line does not matter to it. */
  lemma FrontEnd(a: Text, b: Text)
    requires LineEnd(a) < |a|
    ensures LineEnd(a + b) == LineEnd(a) && FirstLine(a + b) == FirstLine(a) && (a + b)[LineEnd(a) + 1..] == a[LineEnd(a) + 1..] + b
  {
    hide LineEnd;
    LineEndFacts(a);
    var e := LineEnd(a);
    assert (a + b)[..e] == a[..e];
    LineEndIs(a + b, e);
  }

  /** Dropping all the complete lines of a leaves its last line. */
  lemma {:induction false} DropAll(a: Text, b: Text)
    ensures Drop(a + b, Newlines(a)) == LastLine(a) + b
    decreases |a|
  {
    hide LineEnd, Newlines, LastLine;
    var e := LineEnd(a);
    if e == |a| {
      OneLine(a);
    } else {
      Peel(a);
      PeelLast(a);
      FrontEnd(a, b);
      DropAll(a[e + 1..], b);
    }
  }

  lemma {:induction false} DropMore(s: Text, i: nat, j: nat)
    ensures Drop(s, i + j) == Drop(Drop(s, i), j)
    decreases i
  {
    hide LineEnd;
    if i > 0 {
      if LineEnd(s) == |s| { DropNone(j); } else { DropMore(s[LineEnd(s) + 1..], i - 1, j); }
    }
  }

  lemma DropNone(j: nat)
    ensures Drop([], j) == []
  {
  }

  /** The row that the split is in. */
  lemma LineAt(a: Text, b: Text)
    ensures Line(a + b, Newlines(a)) == LastLine(a) + FirstLine(b)
  {
    hide LineEnd, Newlines, LastLine, Drop, FirstLine;
    DropAll(a, b);
    ColumnFacts(a);
    JoinEnd(LastLine(a), b);
  }

  /** The rows below the split depend on the part behind it only. */
  lemma LineBelow(a: Text, b: Text, k: nat)
    requires k > 0
    ensures Drop(a + b, Newlines(a) + k) == Drop(b, k) && Line(a + b, Newlines(a) + k) == Line(b, k)
  {
    hide LineEnd, Newlines, LastLine, Plain, FirstLine;
    DropMore(a + b, Newlines(a), k);
    DropAll(a, b);
    var l := LastLine(a);
    ColumnFacts(a);
    JoinEnd(l, b);
    if LineEnd(b) < |b| { assert (l + b)[|l| + LineEnd(b) + 1..] == b[LineEnd(b) + 1..]; }
  }

  /** The rows above the split depend on the part before it only. */
  lemma {:induction false} LineAbove(a: Text, b: Text, r: nat)
    requires r < Newlines(a)
    ensures Line(a + b, r) == Line(a, r)
    decreases r
  {
    hide LineEnd, Newlines, FirstLine;
    var e := LineEnd(a);
    if e == |a| { OneLine(a); }
    Peel(a);
    FrontEnd(a, b);
    if r > 0 { LineAbove(a[e + 1..], b, r - 1); }
  }

  // ----- one row of the screen

  function Sanitize(c: byte): byte {
    if c < 0x20 || c == 0x7F then 46 else c
  }

  /** The visible part of a line: its characters from column `left` on, at most `width` of them. */
  function Clip(s: Text, left: nat, width: nat): (r: Text)
    ensures |r| <= width
  {
    if s == [] then []
    else
      var p := Clip(s[..|s| - 1], left, width);
      if |s| - 1 >= left && |p| < width then p + [Sanitize(s[|s| - 1])] else p
  }

  function Spaces(n: nat): Text {
    seq(n, _ => SPACE)
  }

  /** A line as it is shown. */
  function View(line: Text, left: nat, width: nat): Text {
    Clip(line, left, width) + Spaces(width - |Clip(line, left, width)|)
  }

  /** What Clip keeps: exactly the characters in the window. */
  lemma {:induction false} ClipLength(s: Text, left: nat, width: nat)
    ensures |Clip(s, left, width)| == if |s| <= left then 0 else if |s| - left < width then |s| - left else width
  {
    if s != [] { ClipLength(s[..|s| - 1], left, width); }
  }

  lemma {:induction false} ClipAt(s: Text, left: nat, width: nat, k: nat)
    requires k < |Clip(s, left, width)|
    ensures left + k < |s| && Clip(s, left, width)[k] == Sanitize(s[left + k])
  {
    hide Sanitize;
    var t := s[..|s| - 1];
    ClipLength(s, left, width);
    ClipLength(t, left, width);
    if k < |Clip(t, left, width)| {
      ClipAt(t, left, width, k);
      assert t[left + k] == s[left + k];
    }
  }

  /** What a cell of the text area shows of column j: a printable byte as itself, any other as a dot, a blank behind the end. */
  predicate Depicts(cell: byte, line: Text, j: nat) {
    if j >= |line| then cell == 32
    else if 0x20 <= line[j] && line[j] != 0x7F then cell == line[j]
    else cell == 46
  }

  /** No byte that a terminal would act on. */
  predicate Printable(t: Text) {
    forall k :: 0 <= k < |t| ==> 0x20 <= t[k] && t[k] != 0x7F
  }

  /** Column k of a row shows the character k places right of the left edge. */
  lemma ViewAt(line: Text, left: nat, width: nat, k: nat)
    requires k < width
    ensures |View(line, left, width)| == width && Depicts(View(line, left, width)[k], line, left + k)
  {
    hide Clip;
    ClipLength(line, left, width);
    if k < |Clip(line, left, width)| { ClipAt(line, left, width, k); }
  }

  /** A row of a full redraw, cell by cell. */
  lemma FullRowAt(s: Text, row: nat, left: nat, width: nat)
    ensures |FullRow(s, row, left, width)| == COL_OFFSET + width && Printable(FullRow(s, row, left, width))
    ensures var r := FullRow(s, row, left, width);
            forall j :: COL_OFFSET <= j < |r| ==> Depicts(r[j], Line(s, row), left + j - COL_OFFSET)
  {
    hide View, Newlines, Line, Depicts, Header, Blank;
    var line, r, head := Line(s, row), FullRow(s, row, left, width), if row <= Newlines(s) then Header(row) else Blank();
    ViewLength(line, left, width);
    forall j | COL_OFFSET <= j < |r| ensures Depicts(r[j], line, left + j - COL_OFFSET) && 0x20 <= r[j] && r[j] != 0x7F {
      ViewAt(line, left, width, j - COL_OFFSET);
      PrintableCell(r[j], line, left + j - COL_OFFSET);
    }
    HeaderPrintable(row);
    assert forall j :: 0 <= j < COL_OFFSET ==> r[j] == head[j];
  }

  lemma PrintableCell(cell: byte, line: Text, j: nat)
    requires Depicts(cell, line, j)
    ensures 0x20 <= cell && cell != 0x7F
  {
  }

  lemma HeaderPrintable(row: nat)
    ensures Printable(Header(row)) && Printable(Blank())
  {
  }

  lemma ClipAppend(s: Text, c: byte, left: nat, width: nat)
    ensures var p := Clip(s, left, width);
            Clip(s + [c], left, width) == if |s| >= left && |p| < width then p + [Sanitize(c)] else p
  {
    assert (s + [c])[..|s|] == s;
  }

  /** Once the window is full, the rest of the line does not matter. */
  lemma {:induction false} ClipFull(seen: Text, rest: Text, left: nat, width: nat)
    requires |Clip(seen, left, width)| == width
    ensures Clip(seen + rest, left, width) == Clip(seen, left, width)
    decreases |rest|
  {
    if rest == [] {
      assert seen + rest == seen;
    } else {
      var t, c := rest[..|rest| - 1], rest[|rest| - 1];
      ClipFull(seen, t, left, width);
      assert seen + rest == seen + t + [c];
      ClipAppend(seen + t, c, left, width);
    }
  }

  /** A number without its last i digits. */
  function Leading(row: nat, i: nat): nat {
    if i == 0 then row else Leading(row, i - 1) / 10
  }

  /** The character i places left of the last digit of a row number. */
  function Digit(row: nat, i: nat): byte {
    if i == 0 || Leading(row, i) > 0 then 48 + Leading(row, i) % 10 else SPACE
  }

  /** The number of a row, right-aligned in four columns. */
  function Header(row: nat): (h: Text)
    ensures |h| == COL_OFFSET
  {
    [Digit(row, 3), Digit(row, 2), Digit(row, 1), Digit(row, 0), 62, SPACE]
  }

  function Blank(): (h: Text)
    ensures |h| == COL_OFFSET
  {
    Spaces(COL_OFFSET)
  }

  /** A row of the screen as a full redraw shows it. */
  function FullRow(s: Text, row: nat, left: nat, width: nat): Text {
    (if row <= Newlines(s) then Header(row) else Blank()) + View(Line(s, row), left, width)
  }

  // ----- which rows an edit changes

  ghost predicate SameRow(s: Text, s': Text, row: nat) {
    Line(s', row) == Line(s, row) && (row <= Newlines(s') <==> row <= Newlines(s))
  }

  lemma SameRowShown(s: Text, s': Text, row: nat, left: nat, width: nat)
    requires SameRow(s, s', row)
    ensures FullRow(s', row, left, width) == FullRow(s, row, left, width)
  {
    hide Line, Newlines, View, Header;
  }

  lemma AboveSame(a: Text, b: Text, b': Text, row: nat)
    requires row < Newlines(a)
    ensures SameRow(a + b, a + b', row)
  {
    hide Line, Newlines;
    LineAbove(a, b, row);
    LineAbove(a, b', row);
    NewlinesJoin(a, b);
    NewlinesJoin(a, b');
  }

  lemma BelowSame(a: Text, a': Text, b: Text, row: nat)
    requires Newlines(a') == Newlines(a) < row
    ensures SameRow(a + b, a' + b, row)
  {
    hide Line, Newlines, Drop;
    LineBelow(a, b, row - Newlines(a));
    LineBelow(a', b, row - Newlines(a));
    NewlinesJoin(a, b);
    NewlinesJoin(a', b);
  }

  /** Inserting or deleting an ordinary character changes the row of the cursor only. */
  lemma CharChangesOneRow(a: Text, c: byte, b: Text, row: nat)
    requires c != NEWLINE && row != Newlines(a)
    ensures SameRow(a + b, a + [c] + b, row)
  {
    hide Line, Newlines, SameRow;
    Append(a, c);
    assert a + [c] + b == a + ([c] + b);
    if row < Newlines(a) { AboveSame(a, b, [c] + b, row); } else { BelowSame(a, a + [c], b, row); }
  }

  /** Inserting or deleting a newline changes no row above that of the cursor. */
  lemma NewlineChangesBelow(a: Text, b: Text, row: nat)
    requires row < Newlines(a)
    ensures SameRow(a + b, a + [NEWLINE] + b, row)
  {
    hide Line, Newlines, SameRow;
    assert a + [NEWLINE] + b == a + ([NEWLINE] + b);
    AboveSame(a, b, [NEWLINE] + b, row);
  }

  lemma SameRowSym(s: Text, s': Text, row: nat)
    requires SameRow(s, s', row)
    ensures SameRow(s', s, row)
  {
  }

  /** The row above the cursor's. */
  lemma LineBefore(a: Text, b: Text)
    requires Column(a) < |a|
    ensures var a0 := a[..|a| - Column(a) - 1];
            Newlines(a) == Newlines(a0) + 1 && Line(a + b, Newlines(a0)) == LastLine(a0)
  {
    hide Line, Newlines, Column, Plain, FirstLine;
    ColumnFacts(a);
    var a0, l := a[..|a| - Column(a) - 1], LastLine(a);
    assert a == a0 + [NEWLINE] + l;
    Append(a0, NEWLINE);
    NewlinesJoin(a0 + [NEWLINE], l);
    NoNewlines(l);
    assert a + b == a0 + ([NEWLINE] + l + b);
    LineAt(a0, [NEWLINE] + l + b);
    StartsNewline([NEWLINE] + l + b);
    assert LastLine(a0) + [] == LastLine(a0);
  }

  lemma StartsNewline(s: Text)
    requires s != [] && s[0] == NEWLINE
    ensures FirstLine(s) == []
  {
  }

  lemma NoColumn(a: Text)
    ensures Newlines(a) == 0 <==> Column(a) == |a|
  {
    hide Newlines, Column, Plain;
    ColumnFacts(a);
    if Column(a) == |a| {
      assert LastLine(a) == a;
      NoNewlines(a);
    } else {
      LineBefore(a, []);
    }
  }

  lemma ViewLength(line: Text, left: nat, width: nat)
    ensures |View(line, left, width)| == width
  {
  }

  /** One more line dropped. */
  lemma DropNext(s: Text, k: nat)
    ensures var t := Drop(s, k);
            Drop(s, k + 1) == if LineEnd(t) == |t| then [] else t[LineEnd(t) + 1..]
  {
    hide LineEnd;
    DropMore(s, k, 1);
  }

  /** Stepping back within a line. */
  lemma {:induction false} ColumnCut(s: Text, n: nat)
    requires n <= Column(s)
    ensures Column(s[..|s| - n]) == Column(s) - n && Newlines(s[..|s| - n]) == Newlines(s)
    decreases n
  {
    if n == 0 {
      assert s[..|s|] == s;
    } else {
      var t := s[..|s| - 1];
      ColumnCut(t, n - 1);
      assert t[..|t| - (n - 1)] == s[..|s| - n];
    }
  }

  /** Stepping forward into the next line. */
  lemma NextLineColumn(a: Text, b: Text, m: nat)
    requires LineEnd(b) < |b| && m <= LineEnd(b[LineEnd(b) + 1..])
    ensures var e := LineEnd(b) + 1;
            && Newlines(a + b[..e + m]) == Newlines(a) + 1 && Column(a + b[..e + m]) == m
            && Line(a + b, Newlines(a) + 1) == FirstLine(b[e..])
  {
    hide Newlines, Column, LineEnd, FirstLine, Plain, Line;
    var rest := b[LineEnd(b) + 1..];
    LineEndFacts(b);
    PlainPrefix(rest, m);
    FirstLineIs(b);
    Across(a, b, LineEnd(b), m);
    AfterNewline(a, FirstLine(b), rest[..m]);
    NextLine(a, b);
  }

  lemma AfterNewline(a: Text, f: Text, l: Text)
    requires Plain(f) && Plain(l)
    ensures Newlines(a + f + [NEWLINE] + l) == Newlines(a) + 1 && Column(a + f + [NEWLINE] + l) == |l|
  {
    hide Newlines, Column, LineEnd, Plain;
    ColumnAfter(a + f, l);
    NoNewlines(l);
    NoNewlines(f);
    NewlinesJoin(a, f);
    Append(a + f, NEWLINE);
    NewlinesJoin(a + f + [NEWLINE], l);
  }

  lemma NextLine(a: Text, b: Text)
    requires LineEnd(b) < |b|
    ensures Line(a + b, Newlines(a) + 1) == FirstLine(b[LineEnd(b) + 1..])
  {
    hide Newlines, LineEnd, FirstLine, Drop;
    LineBelow(a, b, 1);
    DropNext(b, 0);
    DropZero(b);
  }

  lemma DropZero(s: Text)
    ensures Drop(s, 0) == s
  {
  }

  lemma Across(a: Text, b: Text, e: nat, m: nat)
    requires e + 1 + m <= |b|
    ensures a + b[..e + 1 + m] == a + b[..e] + [b[e]] + b[e + 1..][..m]
  {
  }

  lemma FirstLineIs(s: Text)
    ensures FirstLine(s) == s[..LineEnd(s)]
  {
  }

  lemma PlainPrefix(s: Text, m: nat)
    requires m <= LineEnd(s)
    ensures Plain(s[..m])
  {
    hide LineEnd;
    LineEndFacts(s);
    assert forall k :: 0 <= k < m ==> s[..m][k] == FirstLine(s)[k];
  }
}
