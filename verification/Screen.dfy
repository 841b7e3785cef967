/**
 * Text output (lib.c): video memory holds 25 rows of 80 cells, two bytes a cell, of which
 * the second is the colour.  The functions give the effect of each operation on a value;
 * the class does it in place.
 */
module Screen {
  import opened Bytes

  const NUM_COLS := 80
  const NUM_ROWS := 25
  const VIDEO_BYTES := 2 * NUM_ROWS * NUM_COLS

  const PROMPT := Ascii("391OS> ")

  datatype Display = Display(cells: seq<Byte>, x: int, y: int) {
    predicate Ok() {
      |cells| == VIDEO_BYTES && 0 <= x < NUM_COLS && 0 <= y < NUM_ROWS
    }
  }

  /** Where the character of a row and column is in video memory. */
  function At(row: int, col: int): int {
    2 * (NUM_COLS * row + col)
  }

  predicate IsBreak(c: Byte) {
    c == NEWLINE || c == RETURN
  }

  function Scrolled(cells: seq<Byte>): (r: seq<Byte>)
    requires |cells| == VIDEO_BYTES
    ensures |r| == VIDEO_BYTES
  {
    seq(VIDEO_BYTES, i requires 0 <= i < VIDEO_BYTES =>
      if i % 2 == 1 then cells[i]
      else if i < At(NUM_ROWS - 1, 0) then cells[i + 2 * NUM_COLS]
      else NUL)
  }

  function Enter(d: Display): (r: Display)
    requires |d.cells| == VIDEO_BYTES && 0 <= d.y < NUM_ROWS
    ensures r.Ok()
  {
    if d.y == NUM_ROWS - 1 then Display(Scrolled(d.cells), 0, NUM_ROWS - 1)
    else Display(d.cells, 0, d.y + 1)
  }

  function Put(d: Display, c: Byte): (r: Display)
    requires d.Ok()
    ensures r.Ok()
  {
    if IsBreak(c) then Enter(d)
    else
      var e := Display(d.cells[At(d.y, d.x) := c], d.x + 1, d.y);
      if e.x >= NUM_COLS then Enter(e) else e
  }

  function Print(d: Display, text: seq<Byte>): (r: Display)
    requires d.Ok()
    ensures r.Ok()
  {
    if text == [] then d
    else Put(Print(d, text[..|text| - 1]), text[|text| - 1])
  }

  /** Erase to the left; in column 0 the code goes to column 78 of the row above. */
  function Backspace(d: Display): (r: Display)
    requires d.Ok() && (d.x > 0 || d.y > 0)
    ensures r.Ok()
  {
    var x, y := if d.x == 0 then NUM_COLS - 2 else d.x - 1, if d.x == 0 then d.y - 1 else d.y;
    Display(d.cells[At(y, x) := NUL], x, y)
  }

  /** All characters blank, colours kept, cursor at the top left. */
  function Blank(cells: seq<Byte>): (r: Display)
    requires |cells| == VIDEO_BYTES
    ensures r.Ok()
  {
    Display(seq(VIDEO_BYTES, i requires 0 <= i < VIDEO_BYTES => if i % 2 == 0 then SPACE else cells[i]), 0, 0)
  }

  /**
   * One character: newline and return go to the start of the next row and leave all cells as
   * they are, any other character is stored where the cursor is, two bytes a cell, 80 cells a
   * row; behind column 79 the next row begins.  From the last of the 25 rows there is no next
   * one: the others move up.
   */
  lemma {:induction false} PutIs(d: Display, c: Byte)
    requires d.Ok()
    ensures var stored := if c == 10 || c == 13 then d.cells else d.cells[2 * (80 * d.y + d.x) := c];
            var leaves := c == 10 || c == 13 || d.x == 79;
            && Put(d, c).x == (if leaves then 0 else d.x + 1)
            && Put(d, c).y == (if leaves && d.y < 24 then d.y + 1 else d.y)
            && |Put(d, c).cells| == 4000
            && forall i {:trigger Put(d, c).cells[i]} :: 0 <= i < 4000 ==>
                 Put(d, c).cells[i] == if !leaves || d.y < 24 || i % 2 == 1 then stored[i]
                                       else if i < 3840 then stored[i + 160]
                                       else 0
  {
  }

  /** A cleared screen has blanks everywhere, in the colours that were there. */
  lemma {:induction false} BlankIs(cells: seq<Byte>)
    requires |cells| == VIDEO_BYTES
    ensures Blank(cells).x == Blank(cells).y == 0 && |Blank(cells).cells| == 4000
    ensures forall i :: 0 <= i < 4000 ==> Blank(cells).cells[i] == if i % 2 == 0 then 32 else cells[i]
  {
  }

  /** Backspace puts a NUL where it goes: one to the left, or to column 78 of the row above. */
  lemma {:induction false} BackspaceIs(d: Display)
    requires d.Ok() && (d.x > 0 || d.y > 0)
    ensures var b := Backspace(d);
            && (if d.x > 0 then b.x == d.x - 1 && b.y == d.y else b.x == 78 && b.y == d.y - 1)
            && b.cells == d.cells[2 * (80 * b.y + b.x) := 0]
  {
  }

  lemma {:induction false} PrintAppend(d: Display, a: seq<Byte>, b: seq<Byte>)
    requires d.Ok()
    ensures Print(d, a + b) == Print(Print(d, a), b)
  {
    if b == [] {
      assert a + b == a;
    } else {
      var n := |b| - 1;
      assert (a + b)[..|a + b| - 1] == a + b[..n];
      PrintAppend(d, a, b[..n]);
    }
  }

  lemma {:induction false} PrintNone(d: Display)
    requires d.Ok()
    ensures Print(d, []) == d
  {
  }

  lemma {:induction false} PrintNext(d: Display, text: seq<Byte>, i: nat)
    requires d.Ok() && i < |text|
    ensures Print(d, text[..i + 1]) == Put(Print(d, text[..i]), text[i])
  {
    assert text[..i + 1][..i] == text[..i];
  }

  // ----- the transcript -----

  /** The position of the first line break, or the length. */
  function FirstBreak(t: seq<Byte>): (i: nat)
    ensures i <= |t|
    ensures i < |t| ==> IsBreak(t[i])
    ensures forall k :: 0 <= k < i ==> !IsBreak(t[k])
  {
    if t == [] || IsBreak(t[0]) then 0 else 1 + FirstBreak(t[1..])
  }

  /** A paragraph in rows; a row that is full is left at once. */
  function Wrap(p: seq<Byte>): (rows: seq<seq<Byte>>)
    ensures rows != []
    decreases |p|
  {
    if |p| < NUM_COLS then [p] else [p[..NUM_COLS]] + Wrap(p[NUM_COLS..])
  }

  /** All rows ever written by a text, on paper without end. */
  function Layout(t: seq<Byte>): (rows: seq<seq<Byte>>)
    ensures rows != []
    decreases |t|
  {
    var i := FirstBreak(t);
    if i == |t| then Wrap(t) else Wrap(t[..i]) + Layout(t[i + 1..])
  }

  /** One more character on that paper. */
  function AddChar(rows: seq<seq<Byte>>, c: Byte): seq<seq<Byte>>
    requires rows != []
  {
    var n := |rows| - 1;
    if IsBreak(c) then rows + [[]]
    else if |rows[n]| + 1 < NUM_COLS then rows[..n] + [rows[n] + [c]]
    else rows[..n] + [rows[n] + [c], []]
  }

  lemma {:induction false} WrapAdd(p: seq<Byte>, c: Byte)
    requires !IsBreak(c)
    ensures Wrap(p + [c]) == AddChar(Wrap(p), c)
    decreases |p|
  {
    if |p| < NUM_COLS {
      if |p| + 1 == NUM_COLS {
        assert (p + [c])[..NUM_COLS] == p + [c] && (p + [c])[NUM_COLS..] == [];
      }
    } else {
      assert (p + [c])[..NUM_COLS] == p[..NUM_COLS] && (p + [c])[NUM_COLS..] == p[NUM_COLS..] + [c];
      WrapAdd(p[NUM_COLS..], c);
      AddCharBehind([p[..NUM_COLS]], Wrap(p[NUM_COLS..]), c);
    }
  }

  lemma {:induction false} AddCharBehind(a: seq<seq<Byte>>, rows: seq<seq<Byte>>, c: Byte)
    requires rows != []
    ensures AddChar(a + rows, c) == a + AddChar(rows, c)
  {
    var n := |rows| - 1;
    assert (a + rows)[..|a| + n] == a + rows[..n];
  }

  lemma {:induction false} FirstBreakIs(t: seq<Byte>, i: nat)
    requires i <= |t|
    requires i < |t| ==> IsBreak(t[i])
    requires forall k :: 0 <= k < i ==> !IsBreak(t[k])
    ensures FirstBreak(t) == i
  {
  }

  lemma {:induction false} LayoutAdd(t: seq<Byte>, c: Byte)
    ensures Layout(t + [c]) == AddChar(Layout(t), c)
    decreases |t|
  {
    var i, u := FirstBreak(t), t + [c];
    if i < |t| {
      FirstBreakIs(u, i);
      assert u[..i] == t[..i] && u[i + 1..] == t[i + 1..] + [c];
      LayoutAdd(t[i + 1..], c);
      AddCharBehind(Wrap(t[..i]), Layout(t[i + 1..]), c);
    } else if IsBreak(c) {
      FirstBreakIs(u, |t|);
      assert u[..|t|] == t && u[|t| + 1..] == [];
      assert Layout([]) == [[]];
    } else {
      FirstBreakIs(u, |u|);
      WrapAdd(t, c);
    }
  }

  /** No row is longer than the screen, and the last one has room. */
  ghost predicate Fit(rows: seq<seq<Byte>>) {
    && rows != [] && |rows[|rows| - 1]| < NUM_COLS
    && forall k :: 0 <= k < |rows| ==> |rows[k]| <= NUM_COLS
  }

  lemma {:induction false} FitBehind(a: seq<seq<Byte>>, b: seq<seq<Byte>>)
    requires Fit(b) && forall k :: 0 <= k < |a| ==> |a[k]| <= NUM_COLS
    ensures Fit(a + b)
  {
  }

  lemma {:induction false} RowsFit(p: seq<Byte>)
    ensures Fit(Wrap(p))
    decreases |p|
  {
    if |p| >= NUM_COLS {
      RowsFit(p[NUM_COLS..]);
      FitBehind([p[..NUM_COLS]], Wrap(p[NUM_COLS..]));
    }
  }

  lemma {:induction false} LayoutFits(t: seq<Byte>)
    ensures Fit(Layout(t))
    decreases |t|
  {
    var i := FirstBreak(t);
    if i == |t| {
      RowsFit(t);
    } else {
      RowsFit(t[..i]);
      LayoutFits(t[i + 1..]);
      FitBehind(Wrap(t[..i]), Layout(t[i + 1..]));
    }
  }

  /** The paper is blank on its first 25 rows and NUL below. */
  function Cell(rows: seq<seq<Byte>>, r: nat, c: nat): Byte {
    if r < |rows| && c < |rows[r]| then rows[r][c]
    else if r < NUM_ROWS then SPACE
    else NUL
  }

  function Top(rows: seq<seq<Byte>>): nat {
    if |rows| <= NUM_ROWS then 0 else |rows| - NUM_ROWS
  }

  /** Is there text of these rows at row `r` and column `c`? */
  predicate OnText(rows: seq<seq<Byte>>, r: nat, c: nat) {
    r < |rows| && c < |rows[r]|
  }

  /** The character shown at row `r`, column `c` of the paper; where text was erased, NUL is left. */
  predicate CellShown(b: Byte, rows: seq<seq<Byte>>, r: nat, c: nat, erased: bool) {
    b == Cell(rows, r, c) || (erased && !OnText(rows, r, c) && b == NUL)
  }

  ghost predicate CellsShown(cells: seq<Byte>, rows: seq<seq<Byte>>, erased: bool)
    requires |cells| == VIDEO_BYTES
  {
    forall r, c :: 0 <= r < NUM_ROWS && 0 <= c < NUM_COLS ==> CellShown(cells[At(r, c)], rows, Top(rows) + r, c, erased)
  }

  ghost predicate ShowsRows(d: Display, rows: seq<seq<Byte>>, erased: bool)
    requires d.Ok()
  {
    && rows != []
    && d.y == |rows| - 1 - Top(rows)
    && d.x == |rows[|rows| - 1]|
    && CellsShown(d.cells, rows, erased)
  }

  /**
   * The screen is the window over the last 25 rows of the transcript `t`, cursor at its
   * end; with `erased`, cells behind the end of a row may be NUL.
   */
  ghost predicate Shows(d: Display, t: seq<Byte>, erased: bool)
    requires d.Ok()
  {
    ShowsRows(d, Layout(t), erased)
  }

  lemma {:induction false} PutGlyph(d: Display, rows: seq<seq<Byte>>, c: Byte, erased: bool)
    requires d.Ok() && ShowsRows(d, rows, erased) && !IsBreak(c) && |rows[|rows| - 1]| < NUM_COLS
    ensures var n := |rows| - 1;
            CellsShown(d.cells[At(d.y, d.x) := c], rows[..n] + [rows[n] + [c]], erased)
  {
    var n := |rows| - 1;
    var cells, more := d.cells[At(d.y, d.x) := c], rows[..n] + [rows[n] + [c]];
    forall i, j | 0 <= i < NUM_ROWS && 0 <= j < NUM_COLS
      ensures CellShown(cells[At(i, j)], more, Top(more) + i, j, erased)
    {
      assert CellShown(d.cells[At(i, j)], rows, Top(rows) + i, j, erased);
      if i == d.y {
        assert Top(rows) + i == n;
      }
    }
  }

  /** Going to the next row shows the paper with one empty row more. */
  lemma {:induction false} EnterShows(d: Display, rows: seq<seq<Byte>>, erased: bool)
    requires |d.cells| == VIDEO_BYTES && rows != [] && d.y == |rows| - 1 - Top(rows)
    requires CellsShown(d.cells, rows, erased)
    ensures ShowsRows(Enter(d), rows + [[]], erased)
  {
    var e, more := Enter(d), rows + [[]];
    forall r, c | 0 <= r < NUM_ROWS && 0 <= c < NUM_COLS
      ensures CellShown(e.cells[At(r, c)], more, Top(more) + r, c, erased)
    {
      assert CellShown(d.cells[At(r, c)], rows, Top(rows) + r, c, erased);
      if d.y == NUM_ROWS - 1 && r < NUM_ROWS - 1 {
        assert CellShown(d.cells[At(r + 1, c)], rows, Top(rows) + r + 1, c, erased);
        assert At(r, c) + 2 * NUM_COLS == At(r + 1, c);
        assert At(r, c) < At(NUM_ROWS - 1, 0);
      }
    }
  }

  /** One character keeps the screen a window over the transcript. */
  lemma {:induction false} PutShows(d: Display, t: seq<Byte>, c: Byte, erased: bool)
    requires d.Ok() && Shows(d, t, erased)
    ensures Shows(Put(d, c), t + [c], erased)
  {
    LayoutAdd(t, c);
    LayoutFits(t);
    PutShowsRows(d, Layout(t), c, erased);
  }

  lemma {:induction false} PutShowsRows(d: Display, rows: seq<seq<Byte>>, c: Byte, erased: bool)
    requires d.Ok() && ShowsRows(d, rows, erased) && |rows[|rows| - 1]| < NUM_COLS
    ensures ShowsRows(Put(d, c), AddChar(rows, c), erased)
  {
    hide CellsShown, Enter;
    var n := |rows| - 1;
    if IsBreak(c) {
      EnterShows(d, rows, erased);
    } else {
      var e := Display(d.cells[At(d.y, d.x) := c], d.x + 1, d.y);
      var more := rows[..n] + [rows[n] + [c]];
      PutGlyph(d, rows, c, erased);
      if e.x >= NUM_COLS {
        EnterShows(e, more, erased);
        assert more + [[]] == rows[..n] + [rows[n] + [c], []];
      }
    }
  }

  lemma {:induction false} PrintShows(d: Display, t: seq<Byte>, text: seq<Byte>, erased: bool)
    requires d.Ok() && Shows(d, t, erased)
    ensures Shows(Print(d, text), t + text, erased)
  {
    hide Shows, Put;
    if text == [] {
      assert t + text == t;
    } else {
      var n := |text| - 1;
      PrintShows(d, t, text[..n], erased);
      PutShows(Print(d, text[..n]), t + text[..n], text[n], erased);
      assert t + text[..n] + [text[n]] == t + text;
    }
  }

  /**
   * When does erasing to the left take the last character off the transcript `t`?  Outside
   * column 0 always; in column 0 only if that character is a line break behind a row of 78
   * characters, on paper that has not been scrolled.
   */
  predicate TakesBack(d: Display, t: seq<Byte>) {
    d.x > 0 || (
      && t != [] && IsBreak(t[|t| - 1])
      && var rows := Layout(t[..|t| - 1]);
         |rows[|rows| - 1]| == NUM_COLS - 2 && |rows| < NUM_ROWS)
  }

  lemma {:induction false} BackspaceShows(d: Display, t: seq<Byte>, erased: bool)
    requires d.Ok() && Shows(d, t, erased) && (d.x > 0 || d.y > 0)
    ensures t != [] && (Shows(Backspace(d), t[..|t| - 1], true) <==> TakesBack(d, t))
  {
    hide Layout, AddChar, ShowsRows, Backspace;
    EmptyShowsOrigin(d, t, erased);
    var m := |t| - 1;
    assert t == t[..m] + [t[m]];
    LayoutAdd(t[..m], t[m]);
    LayoutFits(t[..m]);
    if d.x > 0 {
      BackspaceShowsRows(d, Layout(t[..m]), t[m], erased);
    } else {
      BackspaceAtMargin(d, Layout(t[..m]), t[m], erased);
    }
  }

  lemma {:induction false} EmptyShowsOrigin(d: Display, t: seq<Byte>, erased: bool)
    requires d.Ok() && Shows(d, t, erased)
    ensures t == [] ==> d.x == 0 && d.y == 0
  {
    assert Layout([]) == [[]];
  }

  lemma {:induction false} BackspaceAtMargin(d: Display, rows: seq<seq<Byte>>, c: Byte, erased: bool)
    requires d.Ok() && Fit(rows) && ShowsRows(d, AddChar(rows, c), erased) && d.x == 0 && d.y > 0
    ensures ShowsRows(Backspace(d), rows, true)
            <==> IsBreak(c) && |rows[|rows| - 1]| == NUM_COLS - 2 && |rows| < NUM_ROWS
  {
    hide CellsShown;
    if IsBreak(c) && |rows| < NUM_ROWS {
      BackspaceToRow(d, rows, erased);
    }
  }

  /** In column 0 behind a line break, erasing leaves the cursor in column 78 of the row that ended there. */
  lemma {:induction false} BackspaceToRow(d: Display, rows: seq<seq<Byte>>, erased: bool)
    requires d.Ok() && 0 < |rows| < NUM_ROWS && ShowsRows(d, rows + [[]], erased) && d.y > 0
    ensures ShowsRows(Backspace(d), rows, true) <==> |rows[|rows| - 1]| == NUM_COLS - 2
  {
    var more, e := rows + [[]], Backspace(d);
    if |rows[|rows| - 1]| == NUM_COLS - 2 {
      forall i, j | 0 <= i < NUM_ROWS && 0 <= j < NUM_COLS
        ensures CellShown(e.cells[At(i, j)], rows, Top(rows) + i, j, true)
      {
        assert CellShown(d.cells[At(i, j)], more, Top(more) + i, j, erased);
      }
    }
  }

  lemma {:induction false} BackspaceShowsRows(d: Display, rows: seq<seq<Byte>>, c: Byte, erased: bool)
    requires d.Ok() && rows != [] && ShowsRows(d, AddChar(rows, c), erased) && d.x > 0
    ensures ShowsRows(Backspace(d), rows, true)
  {
    var n, more, e := |rows| - 1, AddChar(rows, c), Backspace(d);
    assert more == rows[..n] + [rows[n] + [c]];
    forall i, j | 0 <= i < NUM_ROWS && 0 <= j < NUM_COLS
      ensures CellShown(e.cells[At(i, j)], rows, Top(rows) + i, j, true)
    {
      assert CellShown(d.cells[At(i, j)], more, Top(more) + i, j, erased);
      if i == d.y {
        assert Top(rows) + i == n;
      }
    }
  }

  lemma {:induction false} BlankShowsNothing(cells: seq<Byte>)
    requires |cells| == VIDEO_BYTES
    ensures Shows(Blank(cells), [], false)
  {
    assert Layout([]) == [[]];
  }

  /** Whatever is printed on a cleared screen, the screen holds its last 25 rows. */
  lemma {:induction false} WindowOverTranscript(cells: seq<Byte>, text: seq<Byte>)
    requires |cells| == VIDEO_BYTES
    ensures Shows(Print(Blank(cells), text), text, false)
  {
    BlankShowsNothing(cells);
    PrintShows(Blank(cells), [], text, false);
    assert [] + text == text;
  }

  /** Two screens that show the same transcript have the same characters and cursor. */
  lemma {:induction false} ShownOnce(d: Display, e: Display, t: seq<Byte>)
    requires d.Ok() && e.Ok() && Shows(d, t, false) && Shows(e, t, false)
    ensures d.x == e.x && d.y == e.y
    ensures forall r, c :: 0 <= r < NUM_ROWS && 0 <= c < NUM_COLS ==> d.cells[At(r, c)] == e.cells[At(r, c)]
  {
    forall r, c | 0 <= r < NUM_ROWS && 0 <= c < NUM_COLS ensures d.cells[At(r, c)] == e.cells[At(r, c)] {
      assert CellShown(d.cells[At(r, c)], Layout(t), Top(Layout(t)) + r, c, false);
      assert CellShown(e.cells[At(r, c)], Layout(t), Top(Layout(t)) + r, c, false);
    }
  }

  /** Colours are never changed. */
  lemma {:induction false} PrintKeepsColours(d: Display, text: seq<Byte>)
    requires d.Ok()
    ensures forall i :: 0 <= i < VIDEO_BYTES && i % 2 == 1 ==> Print(d, text).cells[i] == d.cells[i]
  {
    if text != [] {
      PrintKeepsColours(d, text[..|text| - 1]);
    }
  }

  /**
   * Backspace takes back one printed character's cursor motion exactly when that character
   * was not put in the last column.
   */
  lemma {:induction false} BackspaceUndoesPut(d: Display, c: Byte)
    requires d.Ok() && !IsBreak(c)
    ensures var e := Backspace(Put(d, c));
            e == d.(cells := d.cells[At(d.y, d.x) := NUL]) <==> d.x < NUM_COLS - 1
  {
    var p := Put(d, c);
    if d.x < NUM_COLS - 1 {
      assert Backspace(p).cells == d.cells[At(d.y, d.x) := c][At(d.y, d.x) := NUL];
      assert Backspace(p).cells == d.cells[At(d.y, d.x) := NUL];
    }
  }

  // ----- in place -----

  /** The characters below position `n` have been replaced by those one row further on. */
  ghost predicate ShiftedUpTo(was: seq<Byte>, now: seq<Byte>, n: int) {
    && |was| == |now| == VIDEO_BYTES && n <= At(NUM_ROWS - 1, 0)
    && forall i {:trigger now[i]} :: 0 <= i < VIDEO_BYTES ==>
         now[i] == if i % 2 == 0 && i < n then was[i + 2 * NUM_COLS] else was[i]
  }

  class TextScreen {
    const video: array<Byte>
    var screenX: int
    var screenY: int
    /** The two bytes of the hardware cursor position. */
    var cursorHigh: Byte
    var cursorLow: Byte

    ghost predicate Valid()
      reads this
    {
      video.Length == VIDEO_BYTES && 0 <= screenX < NUM_COLS && 0 <= screenY < NUM_ROWS && Synced()
    }

    /** The hardware cursor stands where the next character goes. */
    predicate Synced()
      reads this
    {
      256 * cursorHigh + cursorLow == NUM_COLS * screenY + screenX
    }

    function View(): Display
      reads this, video
    {
      Display(video[..], screenX, screenY)
    }

    constructor ()
      ensures Valid() && fresh(video)
      ensures View().x == 0 && View().y == 0
    {
      video := new Byte[VIDEO_BYTES](_ => 0);
      screenX, screenY := 0, 0;
      cursorHigh, cursorLow := 0, 0;
    }

    method SetScreenPos(x: int, y: int)
      modifies this`screenX, this`screenY
      ensures screenX == x && screenY == y
    {
      screenX, screenY := x, y;
    }

    /** update_cursor_loc: the position is cut to 16 bits and sent as two bytes. */
    method UpdateCursorLoc(x: int, y: int)
      requires 0 <= x && 0 <= y
      modifies this`cursorHigh, this`cursorLow
      ensures 256 * cursorHigh + cursorLow == (NUM_COLS * y + x) % 0x1_0000
    {
      var pos := (NUM_COLS * y + x) % 0x1_0000;
      assert 0 <= pos / 256 < 256 && pos == 256 * (pos / 256) + pos % 256;
      cursorHigh := (pos / 256) % 256;
      cursorLow := pos % 256;
    }

    method Scroll()
      requires video.Length == VIDEO_BYTES
      modifies this`screenX, this`screenY, video
      ensures View() == Display(Scrolled(old(video[..])), 0, NUM_ROWS - 1)
    {
      ghost var was := video[..];
      var row := 0;
      while row < NUM_ROWS - 1
        invariant 0 <= row <= NUM_ROWS - 1
        invariant ShiftedUpTo(was, video[..], At(row, 0))
      {
        var col := 0;
        while col < NUM_COLS
          invariant 0 <= col <= NUM_COLS
          invariant ShiftedUpTo(was, video[..], At(row, col))
        {
          var currentLine := NUM_COLS * (row + 1) + col;
          var scrollLine := NUM_COLS * row + col;
          assert 2 * scrollLine == At(row, col) && 2 * currentLine == At(row, col) + 2 * NUM_COLS;
          assert At(row, col + 1) == At(row, col) + 2 && At(row, col) % 2 == 0;
          video[2 * scrollLine] := video[2 * currentLine];
          col := col + 1;
        }
        row := row + 1;
      }
      ghost var shifted := video[..];
      var col := 0;
      while col < NUM_COLS
        invariant 0 <= col <= NUM_COLS
        invariant forall i :: 0 <= i < VIDEO_BYTES ==>
          video[i] == if i % 2 == 0 && At(NUM_ROWS - 1, 0) <= i < At(NUM_ROWS - 1, col) then NUL else shifted[i]
      {
        var scrollLine := NUM_COLS * (NUM_ROWS - 1) + col;
        video[2 * scrollLine] := NUL;
        col := col + 1;
      }
      forall i | 0 <= i < VIDEO_BYTES ensures video[i] == Scrolled(was)[i] {
        assert shifted[i] == if i % 2 == 0 && i < At(NUM_ROWS - 1, 0) then was[i + 2 * NUM_COLS] else was[i];
      }
      assert video[..] == Scrolled(was);
      screenX := 0;
      screenY := NUM_ROWS - 1;
    }

    method DoEnter()
      requires video.Length == VIDEO_BYTES && 0 <= screenY < NUM_ROWS && 0 <= screenX <= NUM_COLS
      modifies this, video
      ensures Valid() && View() == Enter(old(View()))
    {
      if screenY == NUM_ROWS - 1 {
        Scroll();
      } else {
        screenY := screenY + 1;
      }
      screenX := 0;
      UpdateCursorLoc(screenX, screenY);
    }

    method Putc(c: Byte)
      requires Valid()
      modifies this, video
      ensures Valid() && View() == Put(old(View()), c)
    {
      if c == NEWLINE || c == RETURN {
        DoEnter();
      } else {
        video[2 * (NUM_COLS * screenY + screenX)] := c;
        screenX := screenX + 1;
        assert View() == Display(old(video[..])[At(old(screenY), old(screenX)) := c], old(screenX) + 1, old(screenY));
        if screenX >= NUM_COLS {
          DoEnter();
        } else {
          UpdateCursorLoc(screenX, screenY);
        }
      }
    }

    method Puts(s: seq<Byte>) returns (index: nat)
      requires Valid()
      modifies this, video
      ensures Valid() && index == |CString(s)| && View() == Print(old(View()), CString(s))
    {
      index := 0;
      while CharAt(s, index) != NUL
        invariant index <= |CString(s)|
        invariant Valid() && View() == Print(old(View()), CString(s)[..index])
        decreases |s| - index
      {
        assert CharAt(s, index) == CString(s)[index];
        PrintNext(old(View()), CString(s), index);
        Putc(s[index]);
        index := index + 1;
      }
      assert CString(s)[..index] == CString(s);
    }

    /** clear: blanks the screen and prints the prompt. */
    method Clear()
      requires Valid()
      modifies this, video
      ensures Valid() && View() == Print(Blank(old(video[..])), PROMPT)
    {
      ghost var was := video[..];
      var i := 0;
      while i < NUM_ROWS * NUM_COLS
        invariant 0 <= i <= NUM_ROWS * NUM_COLS
        invariant screenX == old(screenX) && screenY == old(screenY)
        invariant forall k :: 0 <= k < VIDEO_BYTES ==> video[k] == if k % 2 == 0 && k < 2 * i then SPACE else was[k]
      {
        video[2 * i] := SPACE;
        i := i + 1;
      }
      SetScreenPos(0, 0);
      UpdateCursorLoc(0, 0);
      assert View() == Blank(was);
      IndexOfIs(PROMPT, NUL, |PROMPT|);
      assert CString(PROMPT) == PROMPT;
      var n := Puts(PROMPT);
    }

    method DoBackspace()
      requires Valid() && (screenX > 0 || screenY > 0)
      modifies this, video
      ensures Valid() && View() == Backspace(old(View()))
    {
      if screenX == 0 && screenY > 0 {
        screenX := NUM_COLS - 2;
        screenY := screenY - 1;
      } else {
        screenX := screenX - 1;
      }
      video[2 * (NUM_COLS * screenY + screenX)] := NUL;
      UpdateCursorLoc(screenX, screenY);
    }
  }
}
