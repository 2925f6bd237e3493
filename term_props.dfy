/** What `print`, `execute`, `csi_dispatch`, `esc_dispatch`,
    `auto_scroll` and `handle_bytes` of src/terminal/mod.rs guarantee, stated
    about the value model in `TermModel`. */
module TermProps {
  import opened Wrappers
  import Decimal
  import EscapeSpec
  import Colour
  import opened TermModel

  // ----- Writing characters -----

  /** `print` puts the character under the cursor and moves one column
      right. Without insert mode it replaces the cell and the row keeps the
      length `alloc_area` gave it; in insert mode the rest of the row moves
      one cell right. Other rows and the rest of the state are unchanged. */
  lemma PrintWrites(t: Term, c: char)
    ensures var r, x, y := Print(t, c), t.position.x, t.position.y;
      var row := AllocArea(t.buf, t.attr, x, y, 1, 1)[y];
      && r.position == Position(x + 1, y)
      && y < |r.buf| && x < |r.buf[y]| && r.buf[y][x] == Character(t.attr, c)
      && (forall i :: 0 <= i < |t.buf| && i != y ==> r.buf[i] == t.buf[i])
      && (!t.mode.decim ==>
            |r.buf[y]| == |row| && forall k :: 0 <= k < |row| && k != x ==> r.buf[y][k] == row[k])
      && (t.mode.decim ==>
            |r.buf[y]| == |row| + 1 && r.buf[y][..x] == row[..x] && r.buf[y][x + 1..] == row[x..])
      && r.(buf := t.buf, position := t.position) == t
  {
    var x, y := t.position.x, t.position.y;
    var row := AllocArea(t.buf, t.attr, x, y, 1, 1)[y];
    assert x < |row|;
    if t.mode.decim {
      var r := Print(t, c);
      assert r.buf[y] == row[..x] + [Character(t.attr, c)] + row[x..];
      assert r.buf[y][x + 1..] == row[x..];
    }
  }

  // ----- Scrolling the region -----

  /** Scrolling up drops row `top`, moves rows `top+1..=bottom` up by one,
      blanks row `bottom`, and leaves the number of rows and the rows
      outside the region alone. */
  lemma ScrollUpShifts(buf: Grid, region: ScrollingRegion, attr: Attribute)
    requires region.top <= region.bottom < |buf|
    ensures var r := ScrollUp(buf, region, attr);
      && |r| == |buf|
      && (forall i :: 0 <= i < region.top ==> r[i] == buf[i])
      && (forall i :: region.top <= i < region.bottom ==> r[i] == buf[i + 1])
      && r[region.bottom] == BlankRow(attr)
      && (forall i :: region.bottom < i < |buf| ==> r[i] == buf[i])
  {
    var top, bottom := region.top, region.bottom;
    var rest := buf[..top] + buf[top + 1..];
    assert forall i :: 0 <= i < top ==> rest[i] == buf[i];
    assert forall i :: top <= i < |rest| ==> rest[i] == buf[i + 1];
    var r := rest[..bottom] + [BlankRow(attr)] + rest[bottom..];
    assert forall i :: bottom < i < |buf| ==> r[i] == rest[i - 1];
  }

  /** Scrolling down is the mirror image: row `bottom` is dropped, rows
      `top..bottom` move down by one, and row `top` is blanked. */
  lemma ScrollDownShifts(buf: Grid, region: ScrollingRegion, attr: Attribute)
    requires region.top <= region.bottom < |buf|
    ensures var r := ScrollDown(buf, region, attr);
      && |r| == |buf|
      && (forall i :: 0 <= i < region.top ==> r[i] == buf[i])
      && r[region.top] == BlankRow(attr)
      && (forall i :: region.top < i <= region.bottom ==> r[i] == buf[i - 1])
      && (forall i :: region.bottom < i < |buf| ==> r[i] == buf[i])
  {
    var top, bottom := region.top, region.bottom;
    var rest := buf[..bottom] + buf[bottom + 1..];
    assert forall i :: 0 <= i < bottom ==> rest[i] == buf[i];
    assert forall i :: bottom <= i < |rest| ==> rest[i] == buf[i + 1];
    var r := rest[..top] + [BlankRow(attr)] + rest[top..];
    assert forall i :: top < i < |buf| ==> r[i] == rest[i - 1];
  }

  /** Scrolling down undoes scrolling up, except that the row scrolled off
      the top is gone: it comes back blank. */
  lemma ScrollDownUndoesUp(buf: Grid, region: ScrollingRegion, attr: Attribute)
    requires region.top <= region.bottom < |buf|
    ensures ScrollDown(ScrollUp(buf, region, attr), region, attr) == buf[region.top := BlankRow(attr)]
  {
    var up := ScrollUp(buf, region, attr);
    ScrollUpShifts(buf, region, attr);
    ScrollDownShifts(up, region, attr);
  }

  /** LF, VT and FF move the cursor down inside the region; on or below its
      bottom row they scroll it up instead and the cursor stays. */
  lemma LineFeed(t: Term, b: byte)
    requires IsLineFeed(b) && CanExecute(t, b)
    requires t.region.top <= t.region.bottom
    ensures var r, top, bottom := Execute(t, b), t.region.top, t.region.bottom;
      && (t.position.y < bottom ==>
            r.buf == t.buf && r.position == t.position.(y := t.position.y + 1))
      && (t.position.y >= bottom ==>
            && r.position == t.position
            && |r.buf| == |t.buf|
            && (forall i :: 0 <= i < top ==> r.buf[i] == t.buf[i])
            && (forall i :: top <= i < bottom ==> r.buf[i] == t.buf[i + 1])
            && r.buf[bottom] == BlankRow(t.attr)
            && (forall i :: bottom < i < |t.buf| ==> r.buf[i] == t.buf[i]))
      && r.(buf := t.buf, position := t.position) == t
  {
    if t.position.y >= t.region.bottom {
      ScrollUpShifts(t.buf, t.region, t.attr);
    }
  }

  /** RI (`ESC M`) is the mirror image of LF at the top of the region. */
  lemma ReverseIndex(t: Term, cfg: Config)
    requires CanEsc(t, [], 'M' as byte)
    requires t.region.top <= t.region.bottom
    ensures var r, top, bottom := Esc(t, cfg, [], 'M' as byte), t.region.top, t.region.bottom;
      && (t.position.y > top ==>
            r.buf == t.buf && r.position == t.position.(y := t.position.y - 1))
      && (t.position.y <= top ==>
            && r.position == t.position
            && |r.buf| == |t.buf|
            && (forall i :: 0 <= i < top ==> r.buf[i] == t.buf[i])
            && r.buf[top] == BlankRow(t.attr)
            && (forall i :: top < i <= bottom ==> r.buf[i] == t.buf[i - 1])
            && (forall i :: bottom < i < |t.buf| ==> r.buf[i] == t.buf[i]))
      && r.(buf := t.buf, position := t.position) == t
  {
    if t.position.y <= t.region.top {
      ScrollDownShifts(t.buf, t.region, t.attr);
    }
  }

  // ----- Tab stops and horizontal movement -----

  /** HT moves to the nearest tab stop strictly right of the cursor. */
  lemma TabMovesToNextStop(t: Term)
    requires CanExecute(t, 0x09)
    ensures var r := Execute(t, 0x09);
      && t.position.x < r.position.x < |t.tabs| && t.tabs[r.position.x]
      && (forall k :: t.position.x < k < r.position.x ==> !t.tabs[k])
      && r == t.(position := t.position.(x := r.position.x))
  {
    var x := t.position.x;
    var j :| x < j < |t.tabs| && t.tabs[j];
    assert x + 1 <= j;
  }

  /** BS moves one column left but not past column 0; CR goes to column 0. */
  lemma BackspaceAndReturn(t: Term)
    ensures Execute(t, 0x08) == t.(position := t.position.(x := if t.position.x > 0 then t.position.x - 1 else 0))
    ensures Execute(t, 0x0D) == t.(position := t.position.(x := 0))
  {
  }

  /** The stops `Terminal::new` sets: every eighth of 400 columns, so HT
      goes to the next multiple of 8. */
  lemma InitialTabStops(cfg: Config, x: nat)
    requires x < 392
    ensures var t := New(cfg);
      && |t.tabs| == DEFAULT_TAB_MAX
      && (forall i :: 0 <= i < |t.tabs| ==> (t.tabs[i] <==> i % 8 == 0))
      && CanExecute(t.(position := Position(x, 0)), 0x09)
      && Execute(t.(position := Position(x, 0)), 0x09).position.x == (x / 8 + 1) * 8
  {
    var t := New(cfg).(position := Position(x, 0));
    var m := (x / 8 + 1) * 8;
    assert m < DEFAULT_TAB_MAX && t.tabs[m];
    var j := NextStop(t.tabs, x + 1);
    assert j % 8 == 0;
  }

  /** The last stop before the cursor is reached again from the next stop
      by one back-tab: CBT undoes HT from a tab stop. */
  lemma BackTabUndoesTab(tabs: seq<bool>, x: nat)
    requires x < |tabs| && tabs[x] && HasStopAfter(tabs, x)
    ensures CanBackTab(tabs, NextStop(tabs, x + 1), 1)
    ensures BackTab(tabs, NextStop(tabs, x + 1), 1) == x
  {
    var j := NextStop(tabs, x + 1);
    assert CanBackTab(tabs, PrevStop(tabs, j - 1), 0);
  }

  /** Each back-tab lands on a stop strictly left of where it started, so
      CBT from column 0 can never be carried out. */
  lemma {:induction false} BackTabMovesLeft(tabs: seq<bool>, x: nat, n: nat)
    requires n >= 1 && CanBackTab(tabs, x, n)
    ensures BackTab(tabs, x, n) < x && tabs[BackTab(tabs, x, n)]
    ensures x > 0
    decreases n
  {
    var p := PrevStop(tabs, x - 1);
    if n > 1 {
      BackTabMovesLeft(tabs, p, n - 1);
    }
  }

  /** HTS sets a stop under the cursor, TBC 0 clears it, TBC 3 clears every
      stop (after which HT cannot be carried out); the number of entries
      never changes. */
  lemma TabStopEdits(t: Term, cfg: Config)
    requires t.position.x < |t.tabs|
    ensures var r := Esc(t, cfg, [], 'H' as byte);
      r.tabs[t.position.x] && |r.tabs| == |t.tabs| &&
      forall i :: 0 <= i < |t.tabs| && i != t.position.x ==> r.tabs[i] == t.tabs[i]
    ensures var r := Csi(t, cfg, [], 'g');
      !r.tabs[t.position.x] && |r.tabs| == |t.tabs| &&
      forall i :: 0 <= i < |t.tabs| && i != t.position.x ==> r.tabs[i] == t.tabs[i]
    ensures var r := Csi(t, cfg, [3], 'g');
      |r.tabs| == |t.tabs| && (forall i :: 0 <= i < |r.tabs| ==> !r.tabs[i]) &&
      !CanExecute(r, 0x09)
  {
    assert Csi(t, cfg, [], 'g').tabs == ClearTabs(t, 0).tabs;
    assert Csi(t, cfg, [3], 'g').tabs == ClearTabs(t, 3).tabs;
  }

  // ----- Cursor motion -----

  /** The relative motions, with origin mode off: `A`, `D` and `F` move by
      `max(n,1)` but stop at 0, `B`, `e`, `C`, `a` and `E` move by `max(n,1)`
      with no limit, `E` and `F` also go to column 0; nothing else changes. */
  lemma RelativeMotion(t: Term, cfg: Config, params: seq<u16>)
    requires !t.mode.decom
    ensures var x, y, n := t.position.x, t.position.y, Amount(params);
      && n >= 1
      && Csi(t, cfg, params, 'A') == t.(position := Position(x, if y >= n then y - n else 0))
      && Csi(t, cfg, params, 'D') == t.(position := Position(if x >= n then x - n else 0, y))
      && Csi(t, cfg, params, 'F') == t.(position := Position(0, if y >= n then y - n else 0))
      && Csi(t, cfg, params, 'B') == t.(position := Position(x, y + n))
      && Csi(t, cfg, params, 'e') == Csi(t, cfg, params, 'B')
      && Csi(t, cfg, params, 'C') == t.(position := Position(x + n, y))
      && Csi(t, cfg, params, 'a') == Csi(t, cfg, params, 'C')
      && Csi(t, cfg, params, 'E') == t.(position := Position(0, y + n))
  {
  }

  /** SU and SD (`CSI S`, `CSI T`) only move the scroll offset, by the
      parameter or 1 when it is missing; unlike the cursor motions an
      explicit 0 stays 0, and SD by `n` undoes SU by `n`. */
  lemma ScrollOffset(t: Term, cfg: Config, n: u16)
    requires t.mode.decom ==> t.region.top <= t.position.y <= t.region.bottom
    ensures Csi(t, cfg, [n], 'S') == t.(scroll := t.scroll + n)
    ensures Csi(t, cfg, [n], 'T') == t.(scroll := t.scroll - n)
    ensures Csi(t, cfg, [], 'S') == t.(scroll := t.scroll + 1)
    ensures Csi(t, cfg, [], 'T') == t.(scroll := t.scroll - 1)
    ensures Csi(t, cfg, [0], 'S') == t
    ensures Csi(Csi(t, cfg, [n], 'S'), cfg, [n], 'T') == t
  {
  }

  /** IND and NEL (`ESC D`, `ESC E`) move one row down without scrolling,
      even on the region's bottom row, which is where they part from LF;
      NEL also returns to column 0. Under a `(` prefix they do nothing. */
  lemma IndexAndNextLine(t: Term, cfg: Config, intermediates: seq<byte>)
    requires Prefix(intermediates) == 'q' as byte || Prefix(intermediates) == '#' as byte
    ensures Esc(t, cfg, intermediates, 'D' as byte) == t.(position := t.position.(y := t.position.y + 1))
    ensures Esc(t, cfg, intermediates, 'E' as byte) == t.(position := Position(0, t.position.y + 1))
    ensures Esc(t, cfg, ['(' as byte], 'D' as byte) == t && Esc(t, cfg, ['(' as byte], 'E' as byte) == t
    ensures t.position.y < t.region.bottom ==>
      Esc(t, cfg, intermediates, 'D' as byte) == Execute(t, 0x0A)
  {
  }

  /** A missing parameter and an explicit 0 both mean 1 for every cursor
      motion, so `CSI A`, `CSI 0 A` and `CSI 1 A` do the same thing, while
      `CSI 5 A` moves five rows (with origin mode off). */
  lemma ParameterDefaulting(t: Term, cfg: Config, c: char)
    requires c in "ABeCaDEFGd`Hf"
    ensures Csi(t, cfg, [], c) == Csi(t, cfg, [0], c) == Csi(t, cfg, [1], c)
    ensures !t.mode.decom ==>
      Csi(t, cfg, [5], 'A').position.y == if t.position.y >= 5 then t.position.y - 5 else 0
  {
    assert Amount([]) == Amount([0]) == Amount([1]) == 1;
    assert Max(Param([], 0, 1), 1) == Max(Param([0], 0, 1), 1) == Max(Param([1], 0, 1), 1) == 1;
    assert Param([], 1, 1) == Param([0], 1, 1) == Param([1], 1, 1) == 1;
    MotionReadsAmount(t, cfg, [], [0], c);
    MotionReadsAmount(t, cfg, [], [1], c);
  }

  /** A cursor motion reads its parameters only through `Amount` and the
      second parameter, so lists that agree on those move alike. */
  lemma MotionReadsAmount(t: Term, cfg: Config, p: seq<u16>, q: seq<u16>, c: char)
    requires c in "ABeCaDEFGd`Hf"
    requires Amount(p) == Amount(q) && Max(Param(p, 0, 1), 1) == Max(Param(q, 0, 1), 1)
    requires Param(p, 1, 1) == Param(q, 1, 1)
    ensures CsiCommand(t, cfg, p, c) == CsiCommand(t, cfg, q, c)
  {
    if c == 'H' || c == 'f' {
      assert CsiCommand(t, cfg, p, c) == CursorPosition(t, p);
    } else if c == 'A' || c == 'B' || c == 'e' {
    } else if c == 'C' || c == 'a' || c == 'D' {
    } else {
      assert c in "EFG`d";
    }
  }

  /** CUP, CHA and VPA take 1-based positions, with 0 read as 1; with origin
      mode on, CUP counts rows from `top` and the row is then clamped into
      the region. */
  lemma AbsoluteMotion(t: Term, cfg: Config, row: u16, col: u16)
    ensures var r := Csi(t, cfg, [row, col], 'H');
      && r.position.x == Max(col, 1) - 1
      && (!t.mode.decom ==> r.position.y == Max(row, 1) - 1)
      && (t.mode.decom ==> r.position == DecomClamp(t.(position := Position(Max(col, 1) - 1, Max(row, 1) - 1 + t.region.top))).position)
      && r.(position := t.position) == t
    ensures !t.mode.decom ==> Csi(t, cfg, [col], 'G') == t.(position := t.position.(x := Max(col, 1) - 1))
    ensures !t.mode.decom ==> Csi(t, cfg, [row], 'd') == t.(position := t.position.(y := Max(row, 1) - 1))
  {
  }

  /** `decom_clamp` puts the cursor row inside a well-formed region and
      changes nothing else; a row already inside is kept. */
  lemma ClampIntoRegion(t: Term)
    requires t.region.top <= t.region.bottom
    ensures var r := DecomClamp(t);
      && t.region.top <= r.position.y <= t.region.bottom
      && (t.region.top <= t.position.y <= t.region.bottom ==> r == t)
      && r == t.(position := t.position.(y := r.position.y))
  {
  }

  /** Every `csi_dispatch` ends, with origin mode on, with the cursor row
      inside the scrolling region. */
  lemma OriginModeKeepsCursorInRegion(t: Term, cfg: Config, params: seq<u16>, c: char)
    requires CanCsi(t, cfg, params, c)
    ensures var r := Csi(t, cfg, params, c);
      r.mode.decom && r.region.top <= r.region.bottom ==>
        r.region.top <= r.position.y <= r.region.bottom
  {
    var r := CsiCommand(t, cfg, params, c);
    if r.mode.decom && r.region.top <= r.region.bottom {
      ClampIntoRegion(r);
    }
  }

  /** DECSTBM sets 1-based margins (0 read as 1, the bottom defaulting to the
      window's row count) and homes the cursor, to the top margin in
      origin mode. */
  lemma SetMargins(t: Term, cfg: Config, params: seq<u16>)
    ensures var r := Csi(t, cfg, params, 'r');
      && r.region.top == Max(Param(params, 0, 0), 1) - 1
      && r.region.bottom == Max(Param(params, 1, DefaultBottom(cfg)), 1) - 1
      && r.position == Position(0, if t.mode.decom then r.region.top else 0)
      && r.(region := t.region, position := t.position) == t
    ensures |params| < 2 && cfg.height < 0x1_0000 && cfg.height >= CELL_HEIGHT ==>
      Csi(t, cfg, params, 'r').region.bottom == Rows(cfg) - 1
  {
  }

  /** `s` saves the cursor and `u` brings it back. The cursor is inside the
      scrolling region, as it always is after a CSI sequence in origin mode,
      so the origin-mode clamp leaves it alone. */
  lemma SaveRestore(t: Term, cfg: Config, params: seq<u16>)
    requires t.mode.decom ==> t.region.top <= t.position.y <= t.region.bottom
    ensures Csi(t, cfg, params, 's') == t.(save := t.position)
    ensures Csi(Csi(t, cfg, params, 's'), cfg, params, 'u') == t.(save := t.position)
  {
  }

  // ----- Erasing and editing -----

  /** EL: 0 cuts the row at the cursor, 1 blanks it up to and including the
      cursor, 2 empties it; other rows and the cursor stay. `row` is the
      cursor row after `alloc_area`, which has a cell under the cursor. */
  lemma EraseInLine(t: Term, cfg: Config, mode: u16)
    ensures var x, y := t.position.x, t.position.y;
      var row := AllocArea(t.buf, t.attr, x, y, 1, 1)[y];
      var r := Csi(t, cfg, [mode], 'K');
      && x < |row| && y < |r.buf|
      && (forall i :: 0 <= i < |t.buf| && i != y ==> r.buf[i] == t.buf[i])
      && (mode == 0 ==> r.buf[y] == row[..x] && |r.buf[y]| == x)
      && (mode == 1 ==>
            && |r.buf[y]| == |row|
            && (forall k :: 0 <= k <= x ==> r.buf[y][k] == Blank(t.attr))
            && (forall k :: x < k < |row| ==> r.buf[y][k] == row[k]))
      && (mode == 2 ==> r.buf[y] == [])
      && r.(buf := t.buf) == (if t.mode.decom then DecomClamp(t) else t)
  {
  }

  /** ED 0 (the default) drops every row below the cursor and blanks its
      row from the cursor on; `buf` is the grid after `alloc_area`. */
  lemma EraseBelowCursor(t: Term, cfg: Config)
    ensures var x, y := t.position.x, t.position.y;
      var buf := AllocArea(t.buf, t.attr, x, y, 1, 1);
      var r := Csi(t, cfg, [], 'J');
      && r == Csi(t, cfg, [0], 'J')
      && |r.buf| == y + 1
      && (forall i :: 0 <= i < y ==> r.buf[i] == buf[i])
      && |r.buf[y]| == |buf[y]|
      && (forall k :: 0 <= k < x ==> r.buf[y][k] == buf[y][k])
      && (forall k :: x <= k < |buf[y]| ==> r.buf[y][k] == Blank(t.attr))
  {
    assert Param([], 0, 0) == Param([0], 0, 0) == 0;
  }

  /** ED 1 blanks every row above the cursor, and the cursor row up to and
      including the cursor; the rows below stay. */
  lemma EraseAboveCursor(t: Term, cfg: Config)
    ensures var x, y := t.position.x, t.position.y;
      var buf := AllocArea(t.buf, t.attr, x, y, 1, 1);
      var r := Csi(t, cfg, [1], 'J');
      && |r.buf| == |buf|
      && (forall i :: 0 <= i < y ==> r.buf[i] == BlankRow(t.attr))
      && |r.buf[y]| == |buf[y]|
      && (forall k :: 0 <= k <= x ==> r.buf[y][k] == Blank(t.attr))
      && (forall k :: x < k < |buf[y]| ==> r.buf[y][k] == buf[y][k])
      && (forall i :: y < i < |buf| ==> r.buf[i] == buf[i])
  {
    var x, y := t.position.x, t.position.y;
    var buf := AllocArea(t.buf, t.attr, x, y, 1, 1);
    var r := Csi(t, cfg, [1], 'J');
    assert r.buf == EraseDisplay(t, 1).buf;
    assert r.buf == BlankRows(t.attr, y) + [Blanks(t.attr, x + 1) + buf[y][x + 1..]] + buf[y + 1..];
    assert forall i :: y < i < |buf| ==> r.buf[i] == buf[y + 1..][i - y - 1];
  }

  /** ED 2 and ED 3 empty the whole grid. */
  lemma EraseWholeDisplay(t: Term, cfg: Config)
    ensures Csi(t, cfg, [2], 'J').buf == []
    ensures Csi(t, cfg, [3], 'J').buf == []
  {
    assert Csi(t, cfg, [2], 'J').buf == EraseDisplay(t, 2).buf;
    assert Csi(t, cfg, [3], 'J').buf == EraseDisplay(t, 3).buf;
  }

  /** ICH grows the cursor row by `n` blanks at the cursor; `row` is the
      row after `alloc_area`. */
  lemma InsertCharacters(t: Term, cfg: Config, n: u16)
    ensures var x, y := t.position.x, t.position.y;
      var row := AllocArea(t.buf, t.attr, x, y, 1, n)[y];
      var r := Csi(t, cfg, [n], '@');
      && x <= |row| && |r.buf[y]| == |row| + n
      && r.buf[y][..x] == row[..x]
      && (forall k :: x <= k < x + n ==> r.buf[y][k] == Blank(t.attr))
      && r.buf[y][x + n..] == row[x..]
  {
    var x, y := t.position.x, t.position.y;
    var row := AllocArea(t.buf, t.attr, x, y, 1, n)[y];
    var r := Csi(t, cfg, [n], '@');
    assert r.buf[y] == row[..x] + Blanks(t.attr, n) + row[x..];
    assert r.buf[y][x + n..] == row[x..];
  }

  /** DCH shrinks the cursor row by the `n` cells at the cursor. */
  lemma DeleteCharacters(t: Term, cfg: Config, n: u16)
    requires t.position.x + n <= |EditRow(t, n)|
    ensures var x, y := t.position.x, t.position.y;
      var row := EditRow(t, n);
      var r := Csi(t, cfg, [n], 'P');
      && |r.buf[y]| == |row| - n
      && r.buf[y][..x] == row[..x]
      && r.buf[y][x..] == row[x + n..]
  {
    var x, y := t.position.x, t.position.y;
    var row := EditRow(t, n);
    var d := Csi(t, cfg, [n], 'P');
    assert d.buf[y] == row[..x] + row[x + n..];
    assert d.buf[y][x..] == row[x + n..];
  }

  /** ECH blanks the `n` cells at the cursor and keeps the row's length. */
  lemma EraseCharacters(t: Term, cfg: Config, n: u16)
    requires t.position.x + n <= |EditRow(t, n)|
    ensures var x, y := t.position.x, t.position.y;
      var row := EditRow(t, n);
      var r := Csi(t, cfg, [n], 'X');
      && |r.buf[y]| == |row|
      && r.buf[y][..x] == row[..x]
      && (forall k :: x <= k < x + n ==> r.buf[y][k] == Blank(t.attr))
      && r.buf[y][x + n..] == row[x + n..]
  {
    var x, y := t.position.x, t.position.y;
    var row := EditRow(t, n);
    var e := Csi(t, cfg, [n], 'X');
    assert e.buf[y] == row[..x] + Blanks(t.attr, n) + row[x + n..];
    assert e.buf[y][x + n..] == row[x + n..];
  }

  /** IL, row by row: the rows from `bottom` up to, but not including, the
      last one are blank; every other row is the old row above the cursor
      row (or `top`, if lower), one of the `n` new blank rows, or the old
      row `n` places further up. Only the rows and the cursor column change. */
  lemma InsertLinesGrows(t: Term, n: nat)
    requires CanInsertLines(t, n)
    ensures var at, r := Max(t.position.y, t.region.top), InsertLines(t, n);
      && |r.buf| == |t.buf| + n
      && (forall i :: 0 <= i < |r.buf| ==>
            r.buf[i] == (if t.region.bottom <= i < |r.buf| - 1 then BlankRow(t.attr)
                         else if i < at then t.buf[i]
                         else if i < at + n then BlankRow(t.attr)
                         else t.buf[i - n]))
      && r == t.(buf := r.buf, position := t.position.(x := 0))
  {
    var at := Max(t.position.y, t.region.top);
    var grown := if n == 0 then t.buf else t.buf[..at] + BlankRows(t.attr, n) + t.buf[at..];
    assert forall i :: 0 <= i < |grown| ==>
      grown[i] == (if i < at then t.buf[i] else if i < at + n then BlankRow(t.attr) else t.buf[i - n]);
  }

  /** DL: up to `n` rows go at the cursor row (or `top`, if lower), as many
      as there are; the rows above stay and the cursor goes to column 0. */
  lemma DeleteLinesShrinks(t: Term, n: nat)
    ensures var buf := AllocArea(t.buf, t.attr, t.position.x, t.position.y, n + 1, 1);
      var at, r := Max(t.position.y, t.region.top), DeleteLines(t, n);
      && |r.buf| == (if at < |buf| then |buf| - Min(n, |buf| - at) else |buf|)
      && r.buf[..Min(at, |buf|)] == buf[..Min(at, |buf|)]
      && (forall i :: at <= i < |r.buf| ==> r.buf[i] == buf[i + Min(n, |buf| - at)])
      && r.position == t.position.(x := 0)
  {
  }

  // ----- The pen -----

  /** The SGR codes one by one: 0 restores the configured pen, 39 the
      configured foreground only, 7 swaps foreground and background (so
      twice is nothing), and bold, italic and normal intensity leave the pen
      alone, as does no parameter. A lone 38 or 48 is mode 2 with every
      channel 0, so it makes the foreground or background black when Xft
      allocates that colour, and changes nothing when it does not. */
  lemma SgrCodes(attr: Attribute, cfg: Config)
    ensures Sgr(attr, cfg, []) == attr
    ensures Sgr(attr, cfg, [0]) == Attribute(cfg.fg, cfg.bg)
    ensures Sgr(attr, cfg, [39]) == Attribute(cfg.fg, attr.bg)
    ensures Sgr(attr, cfg, [7]) == Attribute(attr.bg, attr.fg)
    ensures Sgr(attr, cfg, [7, 7]) == attr
    ensures forall p: u16 :: p in {1, 3, 22} ==> Sgr(attr, cfg, [p]) == attr
    ensures Sgr(attr, cfg, [38]) == if cfg.allocates then attr.(fg := Colour.Color(0, 0, 0)) else attr
    ensures Sgr(attr, cfg, [48]) == if cfg.allocates then attr.(bg := Colour.Color(0, 0, 0)) else attr
  {
    forall p: u16 | p in {1, 3, 22}
      ensures Sgr(attr, cfg, [p]) == attr
    {
      SgrSingle(attr, cfg, p);
    }
  }

  /** A one-code list is that code applied once. */
  lemma SgrSingle(attr: Attribute, cfg: Config, p: u16)
    requires PaletteCode(p) ==> PaletteSlot(p) < |cfg.palette|
    ensures CanSgr(cfg, [p])
    ensures Sgr(attr, cfg, [p]) == SgrOne(attr, cfg, [p], p)
  {
    assert CanSgr(cfg, [p]);
    assert [p][1..] == [];
    assert SgrEach(SgrOne(attr, cfg, [p], p), cfg, [p], []) == SgrOne(attr, cfg, [p], p);
  }

  /** A code SGR ignores: neither a reset, a swap, a direct colour nor a
      palette entry. */
  predicate Inert(q: u16) {
    q != 0 && q != 7 && q != 38 && q != 39 && q != 48 && !PaletteCode(q)
  }

  /** Direct colour: `38;2;r;g;b` sets the foreground and `48;2;r;g;b` the
      background to `Color::new(r, g, b)` when Xft allocates it, and leaves
      the pen alone when it does not. The channels are read again as codes
      of their own, so the statement is for channels SGR ignores; any mode
      other than 2, 5 included, leaves the pen alone. */
  lemma SgrDirectColour(attr: Attribute, cfg: Config, p: u16, m: u16, r: u16, g: u16, b: u16)
    requires p == 38 || p == 48
    requires Inert(r) && Inert(g) && Inert(b)
    ensures CanSgr(cfg, [p, 2, r, g, b])
    ensures Sgr(attr, cfg, [p, 2, r, g, b]) ==
      if !cfg.allocates then attr
      else if p == 38 then attr.(fg := Colour.Color(r, g, b))
      else attr.(bg := Colour.Color(r, g, b))
    ensures Inert(m) && m != 2 ==> Sgr(attr, cfg, [p, m]) == attr
  {
    var ps := [p, 2, r, g, b];
    var first := SgrOne(attr, cfg, ps, p);
    assert ps[1..] == [2, r, g, b];
    assert [2, r, g, b][1..] == [r, g, b];
    assert [r, g, b][1..] == [g, b];
    assert [g, b][1..] == [b];
    assert [b][1..] == [];
    assert SgrEach(first, cfg, ps, [b]) == first;
    assert SgrEach(first, cfg, ps, [g, b]) == first;
    assert SgrEach(first, cfg, ps, [r, g, b]) == first;
    assert SgrEach(first, cfg, ps, [2, r, g, b]) == first;
    if Inert(m) {
      var qs := [p, m];
      assert qs[1..] == [m] && [m][1..] == [];
      var x := SgrOne(attr, cfg, qs, p);
      assert SgrEach(attr, cfg, qs, qs) == SgrEach(x, cfg, qs, [m]);
      assert SgrEach(x, cfg, qs, [m]) == SgrEach(SgrOne(x, cfg, qs, m), cfg, qs, []);
      assert SgrOne(x, cfg, qs, m) == x;
    }
  }

  /** Because 38 and 48 read the mode and the channels from the whole list
      at fixed places, and the channels are then read again as codes:
      `48;2;0;0;0` ends with the default pen (the last 0 is SGR 0); a mode
      at place 1 that is not 2 switches direct colour off for a 38 further
      on; and a list split in two does not act as its parts in order. */
  lemma SgrDirectColourQuirks(attr: Attribute, cfg: Config)
    requires cfg.allocates
    ensures Sgr(attr, cfg, [48, 2, 0, 0, 0]) == Attribute(cfg.fg, cfg.bg)
    ensures Sgr(attr, cfg, [22, 38, 2, 9, 9, 9]) == attr
    ensures Sgr(attr, cfg, [38, 2, 255, 128, 64]).fg == Colour.Color(255, 128, 64)
    ensures Sgr(Sgr(attr, cfg, [38]), cfg, [2, 255, 128, 64]).fg == Colour.Color(0, 0, 0)
  {
    var ps := [48, 2, 0, 0, 0];
    SgrEachAppend(attr, cfg, ps, [48, 2, 0, 0], [0]);
    assert ps == [48, 2, 0, 0] + [0];
    var qs := [22, 38, 2, 9, 9, 9];
    SgrEachAppend(attr, cfg, qs, [22, 38], [2, 9, 9, 9]);
    assert qs == [22, 38] + [2, 9, 9, 9];
    var us: seq<u16> := [38, 2, 255, 128, 64];
    SgrDirectColour(attr, cfg, 38, 5, 255, 128, 64);
    var vs: seq<u16> := [2, 255, 128, 64];
    SgrEachAppend(Sgr(attr, cfg, [38]), cfg, vs, [2], [255, 128, 64]);
    assert vs == [2] + [255, 128, 64];
  }

  /** The palette codes: 30-37 and 90-97 pick the foreground, 40-47 and
      100-107 the background, both from entry `code - base` of the palette. */
  lemma SgrPalette(attr: Attribute, cfg: Config, p: u16)
    requires PaletteCode(p) && PaletteSlot(p) < |cfg.palette|
    ensures 30 <= p <= 37 || 90 <= p <= 97 ==>
      Sgr(attr, cfg, [p]) == attr.(fg := cfg.palette[if p <= 37 then p - 30 else p - 90])
    ensures 40 <= p <= 47 || 100 <= p <= 107 ==>
      Sgr(attr, cfg, [p]) == attr.(bg := cfg.palette[if p <= 47 then p - 40 else p - 100])
    ensures PaletteSlot(p) < 8
  {
    SgrSingle(attr, cfg, p);
  }

  /** `CanSgr` of a list is that of its head and of its tail. */
  lemma CanSgrCons(cfg: Config, ps: seq<u16>)
    requires ps != []
    ensures CanSgr(cfg, ps) <==>
      (PaletteCode(ps[0]) ==> PaletteSlot(ps[0]) < |cfg.palette|) && CanSgr(cfg, ps[1..])
  {
    assert forall i :: 1 <= i < |ps| ==> ps[i] == ps[1..][i - 1];
  }

  /** The codes of the list are applied left to right: the loop over
      `a + b` is the loop over `a` followed by the loop over `b`, every code
      still reading the same whole list. */
  lemma {:induction false} SgrEachAppend(attr: Attribute, cfg: Config, all: seq<u16>, a: seq<u16>, b: seq<u16>)
    ensures CanSgr(cfg, a + b) <==> CanSgr(cfg, a) && CanSgr(cfg, b)
    ensures CanSgr(cfg, a + b) ==>
      SgrEach(attr, cfg, all, a + b) == SgrEach(SgrEach(attr, cfg, all, a), cfg, all, b)
    decreases |a|
  {
    if a == [] {
      assert a + b == b;
    } else {
      assert (a + b)[0] == a[0] && (a + b)[1..] == a[1..] + b;
      CanSgrCons(cfg, a + b);
      CanSgrCons(cfg, a);
      var head := PaletteCode(a[0]) ==> PaletteSlot(a[0]) < |cfg.palette|;
      if head {
        SgrEachAppend(SgrOne(attr, cfg, all, a[0]), cfg, all, a[1..], b);
      }
    }
  }

  /** No code reads the rest of the list unless a 38 or 48 meets an Xft
      allocation that succeeds. */
  predicate ListBlind(cfg: Config, ps: seq<u16>) {
    !cfg.allocates || forall i :: 0 <= i < |ps| ==> ps[i] != 38 && ps[i] != 48
  }

  /** Without such a code, the list the codes may look into does not
      matter. */
  lemma {:induction false} SgrEachBlind(attr: Attribute, cfg: Config, all: seq<u16>, other: seq<u16>, ps: seq<u16>)
    requires CanSgr(cfg, ps) && ListBlind(cfg, ps)
    ensures SgrEach(attr, cfg, all, ps) == SgrEach(attr, cfg, other, ps)
    decreases |ps|
  {
    if ps != [] {
      CanSgrCons(cfg, ps);
      assert ListBlind(cfg, ps[1..]) by {
        assert forall i :: 1 <= i < |ps| ==> ps[1..][i - 1] == ps[i];
      }
      SgrEachBlind(SgrOne(attr, cfg, all, ps[0]), cfg, all, other, ps[1..]);
    }
  }

  /** A list split in two acts as the first part followed by the second,
      as long as no direct colour is allocated (`SgrDirectColourQuirks`
      shows that it can fail otherwise). */
  lemma SgrAppend(attr: Attribute, cfg: Config, a: seq<u16>, b: seq<u16>)
    requires ListBlind(cfg, a + b)
    ensures CanSgr(cfg, a + b) <==> CanSgr(cfg, a) && CanSgr(cfg, b)
    ensures CanSgr(cfg, a + b) ==> Sgr(attr, cfg, a + b) == Sgr(Sgr(attr, cfg, a), cfg, b)
  {
    SgrEachAppend(attr, cfg, a + b, a, b);
    if CanSgr(cfg, a + b) {
      assert ListBlind(cfg, a) && ListBlind(cfg, b) by {
        assert forall i :: 0 <= i < |a| ==> a[i] == (a + b)[i];
        assert forall i :: 0 <= i < |b| ==> b[i] == (a + b)[|a| + i];
      }
      SgrEachBlind(attr, cfg, a + b, a, a);
      SgrEachBlind(Sgr(attr, cfg, a), cfg, a + b, b, b);
    }
  }

  /** A trailing 0 forgets everything before it. */
  lemma SgrResetForgets(attr: Attribute, cfg: Config, params: seq<u16>)
    requires CanSgr(cfg, params)
    ensures CanSgr(cfg, params + [0])
    ensures Sgr(attr, cfg, params + [0]) == Attribute(cfg.fg, cfg.bg)
  {
    SgrEachAppend(attr, cfg, params + [0], params, [0]);
  }

  /** Clearing the screen and resetting the pen (`ESC [ 2 J ESC [ 0 m`) gives
      an empty buffer and the configured pen, and doing it again changes
      nothing. */
  lemma ResetIsIdempotent(t: Term, cfg: Config)
    ensures var once := Csi(Csi(t, cfg, [2], 'J'), cfg, [0], 'm');
      && once.buf == [] && once.attr == Attribute(cfg.fg, cfg.bg)
      && Csi(Csi(once, cfg, [2], 'J'), cfg, [0], 'm') == once
  {
  }

  // ----- Modes and replies -----

  /** IRM and DECSCNM are switched by `h`/`l` 4 and 5, DECOM by 6, which
      also homes the cursor; `l` with any other mode clears all three. */
  lemma ModeSwitches(t: Term, cfg: Config, p: u16)
    ensures Csi(t, cfg, [4], 'h').mode == t.mode.(decim := true)
    ensures Csi(t, cfg, [4], 'l').mode == t.mode.(decim := false)
    ensures Csi(t, cfg, [5], 'h').mode == t.mode.(decscnm := true)
    ensures Csi(t, cfg, [5], 'l').mode == t.mode.(decscnm := false)
    ensures Csi(t, cfg, [6], 'h').mode == t.mode.(decom := true)
    ensures Csi(t, cfg, [6], 'l') == t.(position := Position(0, 0), mode := t.mode.(decom := false))
    ensures p != 4 && p != 5 && p != 6 ==> Csi(t, cfg, [p], 'l').mode == Mode(false, false, false)
  {
  }

  /** DECSCUSR: 2, 4 and 6 pick the block, underline and bar cursor; any
      other value, a missing one included, keeps the style. Only the style
      changes, and selecting the same shape twice is selecting it once. */
  lemma CursorStyleSelect(t: Term, cfg: Config, p: u16)
    requires t.mode.decom ==> t.region.top <= t.position.y <= t.region.bottom
    ensures var r := Csi(t, cfg, [p], 'q');
      && r == t.(style := r.style)
      && r.style == (if p == 2 then Block else if p == 4 then Underline
                     else if p == 6 then Line else t.style)
      && Csi(r, cfg, [p], 'q') == r
    ensures Csi(t, cfg, [], 'q') == t
  {
    assert Csi(t, cfg, [p], 'q') == CursorShape(t, p);
    assert Csi(t, cfg, [], 'q') == CursorShape(t, 0);
    var r := CursorShape(t, p);
    assert Csi(r, cfg, [p], 'q') == CursorShape(r, p);
  }

  /** DSR 5 answers "ready"; nothing but the replies changes. */
  lemma ReadyReport(t: Term, cfg: Config)
    requires t.mode.decom ==> t.region.top <= t.position.y <= t.region.bottom
    ensures Csi(t, cfg, [5], 'n') == t.(replies := t.replies + [ESC] + "[0n")
  {
    assert Csi(t, cfg, [5], 'n') == StatusReport(t, 5);
  }

  /** DSR 6 reports the 1-based cursor row and column in decimal, the row
      counted from `top` in origin mode; nothing but the replies changes. */
  lemma CursorPositionReport(t: Term, cfg: Config)
    requires t.mode.decom ==> t.region.top <= t.position.y <= t.region.bottom
    ensures var row := if t.mode.decom then t.position.y - t.region.top + 1 else t.position.y + 1;
      Csi(t, cfg, [6], 'n') == t.(replies := t.replies +
        ([ESC] + "[" + Decimal.Show(row) + ";" + Decimal.Show(t.position.x + 1) + "R"))
  {
    assert Csi(t, cfg, [6], 'n') == StatusReport(t, 6).(position := Csi(t, cfg, [6], 'n').position);
  }

  /** DA answers as a VT102, and as a secondary DA for `CSI > c` (the
      parser reads `>` as the parameter 14); DECID (`ESC Z`) answers like
      DA. Nothing but the replies changes. */
  lemma DeviceAttributesReply(t: Term, cfg: Config)
    requires t.mode.decom ==> t.region.top <= t.position.y <= t.region.bottom
    ensures Csi(t, cfg, [], 'c') == t.(replies := t.replies + [ESC] + "[?6c")
    ensures Csi(t, cfg, [14], 'c') == t.(replies := t.replies + [ESC] + "[>1;4000;33c")
    ensures Esc(t, cfg, [], 'Z' as byte) == Csi(t, cfg, [], 'c')
  {
    assert Csi(t, cfg, [], 'c') == DeviceAttributes(t, 0);
    assert Csi(t, cfg, [14], 'c') == DeviceAttributes(t, 14);
  }

  /** DECALN (`ESC 8`) fills a window-sized buffer with `E` in the current
      pen. */
  lemma AlignmentFill(t: Term, cfg: Config)
    ensures var r := Esc(t, cfg, [], '8' as byte);
      && |r.buf| == Rows(cfg)
      && (forall i :: 0 <= i < |r.buf| ==> |r.buf[i]| == Cols(cfg))
      && (forall i, k :: 0 <= i < |r.buf| && 0 <= k < |r.buf[i]| ==> r.buf[i][k] == Character(t.attr, 'E'))
      && r.(buf := t.buf) == t
  {
    var r := Esc(t, cfg, [], '8' as byte);
    assert r.buf == seq(Rows(cfg), _ => seq(Cols(cfg), _ => Character(t.attr, 'E')));
  }

  /** After `auto_scroll` the cursor row is inside the window (for a window
      at least one cell high), only `scroll` has changed, and a second call
      changes nothing. */
  lemma AutoScrollShowsCursor(t: Term, cfg: Config)
    requires cfg.height >= CELL_HEIGHT
    ensures var r := AutoScroll(t, cfg);
      && -r.scroll <= t.position.y * CELL_HEIGHT <= -r.scroll + cfg.height - CELL_HEIGHT
      && r == t.(scroll := r.scroll)
      && AutoScroll(r, cfg) == r
  {
  }

  // ----- The byte stream -----

  /** Handling a stream in two chunks is the same as handling it at once. */
  lemma {:induction false} HandleAppend(cfg: Config, s: Session, a: seq<byte>, b: seq<byte>)
    ensures CanHandle(cfg, s, a + b) <==> CanHandle(cfg, s, a) && CanHandle(cfg, HandleBytes(cfg, s, a), b)
    ensures CanHandle(cfg, s, a + b) ==> HandleBytes(cfg, s, a + b) == HandleBytes(cfg, HandleBytes(cfg, s, a), b)
    decreases |a|
  {
    if a == [] {
      assert a + b == b;
    } else {
      assert (a + b)[0] == a[0] && (a + b)[1..] == a[1..] + b;
      if CanFeed(cfg, s, a[0]) {
        HandleAppend(cfg, Feed(cfg, s, a[0]), a[1..], b);
      }
    }
  }

  /** Handling the actions of a whole parse, one after the other. */
  predicate CanDispatchAll(t: Term, cfg: Config, outs: seq<EscapeSpec.Outcome>)
    decreases |outs|
  {
    outs == [] ||
    (var a := Emitted(outs[0]);
     (a.Some? ==> CanDispatch(t, cfg, a.value)) &&
     CanDispatchAll(if a.Some? then Dispatch(t, cfg, a.value) else t, cfg, outs[1..]))
  }

  function DispatchAll(t: Term, cfg: Config, outs: seq<EscapeSpec.Outcome>): Term
    requires CanDispatchAll(t, cfg, outs)
    decreases |outs|
  {
    if outs == [] then t
    else
      var a := Emitted(outs[0]);
      DispatchAll(if a.Some? then Dispatch(t, cfg, a.value) else t, cfg, outs[1..])
  }

  /** `handle_bytes` is parsing and acting interleaved, but the terminal
      never feeds back into the parser: the parser ends where parsing the
      bytes alone leaves it, and the terminal ends where acting on the
      parsed outcomes in order leaves it. */
  lemma {:induction false} HandleIsParseThenDispatch(cfg: Config, s: Session, bs: seq<byte>)
    requires CanHandle(cfg, s, bs)
    ensures EscapeSpec.CanRun(s.parser, bs)
    ensures HandleBytes(cfg, s, bs).parser == EscapeSpec.Run(s.parser, bs).0
    ensures CanDispatchAll(s.term, cfg, EscapeSpec.Run(s.parser, bs).1)
    ensures HandleBytes(cfg, s, bs).term == DispatchAll(s.term, cfg, EscapeSpec.Run(s.parser, bs).1)
    decreases |bs|
  {
    if bs != [] {
      var next := Feed(cfg, s, bs[0]);
      HandleIsParseThenDispatch(cfg, next, bs[1..]);
      var outs := EscapeSpec.Run(s.parser, bs).1;
      assert outs[0] == EscapeSpec.Advance(s.parser, bs[0]).1;
      assert outs[1..] == EscapeSpec.Run(next.parser, bs[1..]).1;
    }
  }
}
