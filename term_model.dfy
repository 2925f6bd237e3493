/** The terminal of src/terminal/mod.rs, on values: the screen buffer, the
    cursor, tab stops, pen, modes, scrolling region and the replies written
    back to the pty, and what `print`, `execute`, `csi_dispatch`,
    `esc_dispatch` and `handle_bytes` do to them. The object form is
    `Terminal.Terminal`.

    Coordinates are `nat`: the source keeps them in `i32`, and every update
    it makes keeps them non-negative (the decrements are guarded, and the
    back-tab loop that could go below zero panics first). The window size
    and the colours of the configuration are inputs. */
module TermModel {
  import opened Wrappers
  import Decimal
  import Colour
  import EscapeSpec

  type byte = EscapeSpec.byte
  type u16 = EscapeSpec.u16

  /** `UniColor` compares by its raw value only, so a colour is that value. */
  type Color = Colour.Color

  /** The fixed cell size in pixels, as `Terminal::new` sets it. */
  const CELL_WIDTH: nat := 10
  const CELL_HEIGHT: nat := 20

  /** `DEFAULT_TAB_MAX`. */
  const DEFAULT_TAB_MAX: nat := 400

  const ESC: char := 0x1B as char

  datatype Attribute = Attribute(fg: Color, bg: Color)

  datatype Character = Character(attr: Attribute, c: char)

  /** `Vec<Vec<Character>>`: rows of different lengths that grow on demand. */
  type Grid = seq<seq<Character>>

  datatype Position = Position(x: nat, y: nat)

  datatype Mode = Mode(decim: bool, decom: bool, decscnm: bool)

  datatype ScrollingRegion = ScrollingRegion(top: nat, bottom: nat)

  datatype CursorStyle = Block | Line | Underline

  /** What the terminal reads from its configuration and window: the
      palette, the default pen, and the window size in pixels.
      `allocates` is the outcome of the Xft colour allocation that SGR 38
      and 48 ask the X server for: the allocation is a foreign call, so
      whether it succeeds is an input. */
  datatype Config = Config(palette: seq<Color>, fg: Color, bg: Color, width: nat, height: nat,
                           allocates: bool)

  /** The fields of `Terminal` that the byte stream changes; `replies` is
      everything `write_tty_raw` has sent back, in order. */
  datatype Term = Term(
    buf: Grid,
    position: Position,
    save: Position,
    scroll: int,
    tabs: seq<bool>,
    attr: Attribute,
    mode: Mode,
    region: ScrollingRegion,
    style: CursorStyle,
    replies: string)

  /** `window.height / cell.height`. */
  function Rows(cfg: Config): nat {
    cfg.height / CELL_HEIGHT
  }

  /** `window.width / cell.width`. */
  function Cols(cfg: Config): nat {
    cfg.width / CELL_WIDTH
  }

  /** The state `Terminal::new` starts in. */
  function New(cfg: Config): Term {
    Term([], Position(0, 0), Position(0, 0), 0,
         seq(DEFAULT_TAB_MAX, i => i % 8 == 0),
         Attribute(cfg.fg, cfg.bg), Mode(false, false, false),
         ScrollingRegion(0, Rows(cfg)), Block, [])
  }

  function Min(a: nat, b: nat): nat {
    if a < b then a else b
  }

  function Max(a: nat, b: nat): nat {
    if a < b then b else a
  }

  /** A space in the given pen. */
  function Blank(attr: Attribute): Character {
    Character(attr, ' ')
  }

  function Blanks(attr: Attribute, n: nat): seq<Character> {
    seq(n, _ => Blank(attr))
  }

  /** `vec![Character { byte: ' ', attr }]`, the row the scrolling
      operations insert. */
  function BlankRow(attr: Attribute): seq<Character> {
    [Blank(attr)]
  }

  /** `n` blank rows. */
  function BlankRows(attr: Attribute, n: nat): Grid {
    seq(n, _ => BlankRow(attr))
  }

  /** `alloc_area(x, y, height, width)`: if row `y` is missing, rows are
      added up to `y + height`; if column `x` is missing from row `y`, that
      row is padded with blanks up to `x + width`. */
  function AllocArea(buf: Grid, attr: Attribute, x: nat, y: nat, height: nat, width: nat): (r: Grid)
    requires height >= 1
    ensures |r| == (if y < |buf| then |buf| else y + height)
    ensures forall i :: 0 <= i < |buf| && i != y ==> r[i] == buf[i]
    ensures forall i :: |buf| <= i < |r| && i != y ==> r[i] == []
    ensures var before := if y < |buf| then buf[y] else [];
      && |r[y]| == (if x < |before| then |before| else x + width)
      && before <= r[y]
      && (forall k :: |before| <= k < |r[y]| ==> r[y][k] == Blank(attr))
  {
    var rows := if y >= |buf| then buf + seq(y + height - |buf|, _ => []) else buf;
    var row := rows[y];
    if x >= |row| then rows[y := row + Blanks(attr, x + width - |row|)] else rows
  }

  /** `print`: the character is written at the cursor (over the cell there,
      or pushed in front of it in insert mode) and the cursor moves right. */
  function Print(t: Term, c: char): Term {
    var x, y := t.position.x, t.position.y;
    var buf := AllocArea(t.buf, t.attr, x, y, 1, 1);
    var cell := Character(t.attr, c);
    var row := if !t.mode.decim then buf[y][x := cell] else buf[y][..x] + [cell] + buf[y][x..];
    t.(buf := buf[y := row], position := Position(x + 1, y))
  }

  /** Whether some tab stop lies strictly right of `x`. */
  predicate HasStopAfter(tabs: seq<bool>, x: nat) {
    exists j :: x < j < |tabs| && tabs[j]
  }

  /** The first tab stop at or after `from`. */
  function NextStop(tabs: seq<bool>, from: nat): (j: nat)
    requires exists k :: from <= k < |tabs| && tabs[k]
    ensures from <= j < |tabs| && tabs[j]
    ensures forall k :: from <= k < j ==> !tabs[k]
    decreases |tabs| - from
  {
    if tabs[from] then from else NextStop(tabs, from + 1)
  }

  /** The last tab stop at or before `from`. */
  function PrevStop(tabs: seq<bool>, from: nat): (j: nat)
    requires from < |tabs| && exists k :: 0 <= k <= from && tabs[k]
    ensures j <= from && tabs[j]
    ensures forall k :: j < k <= from ==> !tabs[k]
    decreases from
  {
    if tabs[from] then from else PrevStop(tabs, from - 1)
  }

  /** The region scrolled up by one line: row `top` is dropped and a blank
      row is put in at `bottom`. */
  function ScrollUp(buf: Grid, region: ScrollingRegion, attr: Attribute): Grid
    requires region.top < |buf| && region.bottom < |buf|
  {
    var rest := buf[..region.top] + buf[region.top + 1..];
    rest[..region.bottom] + [BlankRow(attr)] + rest[region.bottom..]
  }

  /** The region scrolled down by one line: row `bottom` is dropped and a
      blank row is put in at `top`. */
  function ScrollDown(buf: Grid, region: ScrollingRegion, attr: Attribute): Grid
    requires region.top < |buf| && region.bottom < |buf|
  {
    var rest := buf[..region.bottom] + buf[region.bottom + 1..];
    rest[..region.top] + [BlankRow(attr)] + rest[region.top..]
  }

  predicate IsLineFeed(b: byte) {
    b == 0x0A || b == 0x0B || b == 0x0C
  }

  /** What `execute` needs not to panic: a tab stop right of the cursor for
      HT, and rows `top` and `bottom` present when a line feed scrolls. */
  predicate CanExecute(t: Term, b: byte) {
    && (b == 0x09 ==> HasStopAfter(t.tabs, t.position.x))
    && (IsLineFeed(b) && t.position.y >= t.region.bottom ==>
          t.region.top < |t.buf| && t.region.bottom < |t.buf|)
  }

  /** `execute`: HT, LF/VT/FF, CR and BS. The bell and unknown C0 codes
      leave the terminal as it is. */
  function Execute(t: Term, b: byte): Term
    requires CanExecute(t, b)
  {
    if b == 0x09 then
      t.(position := t.position.(x := NextStop(t.tabs, t.position.x + 1)))
    else if IsLineFeed(b) then
      if t.position.y >= t.region.bottom then t.(buf := ScrollUp(t.buf, t.region, t.attr))
      else t.(position := t.position.(y := t.position.y + 1))
    else if b == 0x0D then
      t.(position := t.position.(x := 0))
    else if b == 0x08 && t.position.x > 0 then
      t.(position := t.position.(x := t.position.x - 1))
    else
      t
  }

  /** `params.get(i).unwrap_or(&default)`. */
  function Param(params: seq<u16>, i: nat, default: nat): nat {
    if i < |params| then params[i] else default
  }

  /** `(*params.get(0).unwrap_or(&1) as i32).max(1)`: the distance of a
      cursor motion, where a missing or zero parameter means 1. */
  function Amount(params: seq<u16>): nat {
    Max(Param(params, 0, 1), 1)
  }

  /** ED (`CSI J`). */
  function EraseDisplay(t: Term, mode: nat): Term {
    var x, y := t.position.x, t.position.y;
    var buf := AllocArea(t.buf, t.attr, x, y, 1, 1);
    if mode == 0 then
      var rows := buf[..y + 1];
      t.(buf := rows[y := rows[y][..x] + Blanks(t.attr, |rows[y]| - x)])
    else if mode == 1 then
      t.(buf := BlankRows(t.attr, y) + [Blanks(t.attr, x + 1) + buf[y][x + 1..]] + buf[y + 1..])
    else if mode == 2 || mode == 3 then
      t.(buf := [])
    else
      t.(buf := buf)
  }

  /** EL (`CSI K`). */
  function EraseLine(t: Term, mode: nat): Term {
    var x, y := t.position.x, t.position.y;
    var buf := AllocArea(t.buf, t.attr, x, y, 1, 1);
    var row := buf[y];
    if mode == 0 then t.(buf := buf[y := row[..x]])
    else if mode == 1 then t.(buf := buf[y := Blanks(t.attr, x + 1) + row[x + 1..]])
    else if mode == 2 then t.(buf := buf[y := []])
    else t.(buf := buf)
  }

  /** CUP / HVP (`CSI H`, `CSI f`). */
  function CursorPosition(t: Term, params: seq<u16>): Term {
    var x := Max(Param(params, 1, 1), 1) - 1;
    var y := Max(Param(params, 0, 1), 1) - 1;
    t.(position := Position(x, if t.mode.decom then y + t.region.top else y))
  }

  /** Whether `n` back-tabs from `x` each find a stop left of the cursor
      without reading past the end of `tabs`. */
  predicate CanBackTab(tabs: seq<bool>, x: nat, n: nat)
    decreases n
  {
    n == 0 ||
    (0 < x <= |tabs| && (exists j :: 0 <= j < x && tabs[j]) &&
     CanBackTab(tabs, PrevStop(tabs, x - 1), n - 1))
  }

  /** CBT (`CSI Z`): `n` times to the previous tab stop. */
  function BackTab(tabs: seq<bool>, x: nat, n: nat): nat
    requires CanBackTab(tabs, x, n)
    decreases n
  {
    if n == 0 then x else BackTab(tabs, PrevStop(tabs, x - 1), n - 1)
  }

  /** TBC (`CSI g`). */
  function ClearTabs(t: Term, mode: nat): Term
    requires mode == 0 ==> t.position.x < |t.tabs|
  {
    if mode == 0 then t.(tabs := t.tabs[t.position.x := false])
    else if mode == 3 then t.(tabs := seq(|t.tabs|, _ => false))
    else t
  }

  /** ICH (`CSI @`): `n` blanks pushed in at the cursor. */
  function InsertBlanks(t: Term, n: nat): Term {
    var x, y := t.position.x, t.position.y;
    var buf := AllocArea(t.buf, t.attr, x, y, 1, n);
    t.(buf := buf[y := buf[y][..x] + Blanks(t.attr, n) + buf[y][x..]])
  }

  /** The row `X` and `P` work on, after their `alloc_area`. */
  function EditRow(t: Term, n: nat): seq<Character> {
    AllocArea(t.buf, t.attr, t.position.x, t.position.y, 1, n)[t.position.y]
  }

  /** ECH (`CSI X`): `n` cells from the cursor blanked. */
  function EraseChars(t: Term, n: nat): Term
    requires t.position.x + n <= |EditRow(t, n)|
  {
    var x, y := t.position.x, t.position.y;
    var buf := AllocArea(t.buf, t.attr, x, y, 1, n);
    t.(buf := buf[y := buf[y][..x] + Blanks(t.attr, n) + buf[y][x + n..]])
  }

  /** DCH (`CSI P`): `n` cells from the cursor removed. */
  function DeleteChars(t: Term, n: nat): Term
    requires t.position.x + n <= |EditRow(t, n)|
  {
    var x, y := t.position.x, t.position.y;
    var buf := AllocArea(t.buf, t.attr, x, y, 1, n);
    t.(buf := buf[y := buf[y][..x] + buf[y][x + n..]])
  }

  /** What IL needs not to panic: each `insert` must be at most one past the
      end, which only matters when there is at least one row to insert, and
      `buf.len() - 1` needs a row once they are in. */
  predicate CanInsertLines(t: Term, n: nat) {
    (n == 0 || Max(t.position.y, t.region.top) <= |t.buf|) && |t.buf| + n >= 1
  }

  /** IL (`CSI L`): `n` blank rows put in at the cursor row (or `top`, if
      lower); then every row from `bottom` up to, but not including, the
      last row is blanked, and the cursor goes to column 0. */
  function InsertLines(t: Term, n: nat): Term
    requires CanInsertLines(t, n)
  {
    var at := Max(t.position.y, t.region.top);
    var grown := if n == 0 then t.buf else t.buf[..at] + BlankRows(t.attr, n) + t.buf[at..];
    var last := |grown| - 1;
    var buf := if t.region.bottom < last
      then grown[..t.region.bottom] + BlankRows(t.attr, last - t.region.bottom) + grown[last..]
      else grown;
    t.(buf := buf, position := t.position.(x := 0))
  }

  /** DL (`CSI M`): up to `n` rows removed at the cursor row (or `top`, if
      lower), as many as there are, and the cursor goes to column 0. */
  function DeleteLines(t: Term, n: nat): Term {
    var buf := AllocArea(t.buf, t.attr, t.position.x, t.position.y, n + 1, 1);
    var at := Max(t.position.y, t.region.top);
    var kept := if at < |buf| then buf[..at] + buf[at + Min(n, |buf| - at)..] else buf;
    t.(buf := kept, position := t.position.(x := 0))
  }

  /** The SGR codes that pick a palette entry. */
  predicate PaletteCode(p: nat) {
    30 <= p <= 37 || 40 <= p <= 47 || 90 <= p <= 97 || 100 <= p <= 107
  }

  /** The palette index of such a code. */
  function PaletteSlot(p: nat): nat
    requires PaletteCode(p)
  {
    if p <= 37 then p - 30 else if p <= 47 then p - 40 else if p <= 97 then p - 90 else p - 100
  }

  /** Every palette code in `params` names an entry the palette has. */
  predicate CanSgr(cfg: Config, params: seq<u16>) {
    forall i :: 0 <= i < |params| && PaletteCode(params[i]) ==> PaletteSlot(params[i]) < |cfg.palette|
  }

  /** SGR 38 and 48 (direct colour). The mode is `params.get(1)` of the
      whole list, 2 when missing; mode 2 builds `Color::new` from
      `params[2..5]` (0 for a missing one) and, when Xft allocates it, sets
      the foreground (38) or the background (48). Any other mode, or a
      failed allocation, leaves the pen alone. */
  function DirectColour(attr: Attribute, cfg: Config, all: seq<u16>, p: nat): Attribute {
    if Param(all, 1, 2) == 2 && cfg.allocates then
      var raw := Colour.Color(Param(all, 2, 0), Param(all, 3, 0), Param(all, 4, 0));
      if p == 38 then attr.(fg := raw) else if p == 48 then attr.(bg := raw) else attr
    else attr
  }

  /** One SGR parameter `p` of the list `all`. Bold, italic, normal
      intensity and unknown codes leave the pen as it is. */
  function SgrOne(attr: Attribute, cfg: Config, all: seq<u16>, p: nat): Attribute
    requires PaletteCode(p) ==> PaletteSlot(p) < |cfg.palette|
  {
    if p == 0 then Attribute(cfg.fg, cfg.bg)
    else if p == 39 then attr.(fg := cfg.fg)
    else if p == 7 then Attribute(attr.bg, attr.fg)
    else if p == 38 || p == 48 then DirectColour(attr, cfg, all, p)
    else if 30 <= p <= 37 || 90 <= p <= 97 then attr.(fg := cfg.palette[PaletteSlot(p)])
    else if 40 <= p <= 47 || 100 <= p <= 107 then attr.(bg := cfg.palette[PaletteSlot(p)])
    else attr
  }

  /** The loop `for param in params` of the `'m'` arm: the codes `ps`
      applied to the pen in order, each of them able to look into the
      whole list `all`. */
  function SgrEach(attr: Attribute, cfg: Config, all: seq<u16>, ps: seq<u16>): Attribute
    requires CanSgr(cfg, ps)
    decreases |ps|
  {
    if ps == [] then attr
    else SgrEach(SgrOne(attr, cfg, all, ps[0]), cfg, all, ps[1..])
  }

  /** SGR (`CSI m`): every parameter of the list applied to the pen. */
  function Sgr(attr: Attribute, cfg: Config, params: seq<u16>): Attribute
    requires CanSgr(cfg, params)
  {
    SgrEach(attr, cfg, params, params)
  }

  /** The CPR reply `ESC [ row ; column R`, 1-based; with origin mode on
      the row counts from `top`. */
  function PositionReport(t: Term): string {
    var row: int := if t.mode.decom then t.position.y - t.region.top + 1 else t.position.y + 1;
    [ESC] + "[" + Decimal.ShowInt(row) + ";" + Decimal.ShowInt(t.position.x + 1) + "R"
  }

  /** DSR (`CSI n`). */
  function StatusReport(t: Term, mode: nat): Term {
    if mode == 5 then t.(replies := t.replies + [ESC] + "[0n")
    else if mode == 6 then t.(replies := t.replies + PositionReport(t))
    else t
  }

  /** DA (`CSI c`): parameter 14 is what the parser makes of `CSI > c`. */
  function DeviceAttributes(t: Term, mode: nat): Term {
    if mode == 14 then t.(replies := t.replies + [ESC] + "[>1;4000;33c")
    else if mode == 0 then t.(replies := t.replies + [ESC] + "[?6c")
    else t
  }

  /** SM (`CSI h`). */
  function SetMode(t: Term, mode: nat): Term {
    if mode == 4 then t.(mode := t.mode.(decim := true))
    else if mode == 5 then t.(mode := t.mode.(decscnm := true))
    else if mode == 6 then t.(position := Position(0, 0), mode := t.mode.(decom := true))
    else t
  }

  /** RM (`CSI l`): any mode other than 4, 5 and 6 clears all three. */
  function ResetMode(t: Term, mode: nat): Term {
    if mode == 4 then t.(mode := t.mode.(decim := false))
    else if mode == 5 then t.(mode := t.mode.(decscnm := false))
    else if mode == 6 then t.(position := Position(0, 0), mode := t.mode.(decom := false))
    else t.(mode := Mode(false, false, false))
  }

  /** DECSCUSR (`CSI q`). */
  function CursorShape(t: Term, mode: nat): Term {
    if mode == 2 then t.(style := Block)
    else if mode == 4 then t.(style := Underline)
    else if mode == 6 then t.(style := Line)
    else t
  }

  /** `window.height as u16 / cell.height as u16`, the bottom DECSTBM
      takes when it is given none. */
  function DefaultBottom(cfg: Config): nat {
    (cfg.height % 0x1_0000) / CELL_HEIGHT
  }

  /** DECSTBM (`CSI r`): 1-based margins, made 0-based; the cursor goes home. */
  function SetRegion(t: Term, cfg: Config, params: seq<u16>): Term {
    var top := Max(Param(params, 0, 0), 1) - 1;
    var bottom := Max(Param(params, 1, DefaultBottom(cfg)), 1) - 1;
    t.(region := ScrollingRegion(top, bottom), position := Position(0, 0))
  }

  /** `decom_clamp`: the cursor row moved into the scrolling region. */
  function DecomClamp(t: Term): Term {
    if t.position.y < t.region.top then t.(position := t.position.(y := t.region.top))
    else if t.position.y > t.region.bottom then t.(position := t.position.(y := t.region.bottom))
    else t
  }

  /** What `csi_dispatch` needs not to panic. */
  predicate CanCsi(t: Term, cfg: Config, params: seq<u16>, c: char) {
    var x, y, n := t.position.x, t.position.y, Param(params, 0, 1);
    && (c == 'g' && Param(params, 0, 0) == 0 ==> x < |t.tabs|)
    && (c == 'X' || c == 'P' ==> x + n <= |EditRow(t, n)|)
    && (c == 'L' ==> CanInsertLines(t, n))
    && (c == 'Z' ==> CanBackTab(t.tabs, x, n))
    && (c == 'm' ==> CanSgr(cfg, params))
  }

  /** The `match c` of `csi_dispatch`. */
  function CsiCommand(t: Term, cfg: Config, params: seq<u16>, c: char): Term
    requires CanCsi(t, cfg, params, c)
  {
    var x, y := t.position.x, t.position.y;
    match c
    case 'J' => EraseDisplay(t, Param(params, 0, 0))
    case 'K' => EraseLine(t, Param(params, 0, 0))
    case 'H' => CursorPosition(t, params)
    case 'f' => CursorPosition(t, params)
    case 'A' => t.(position := t.position.(y := y - Min(y, Amount(params))))
    case 'B' => t.(position := t.position.(y := y + Amount(params)))
    case 'e' => t.(position := t.position.(y := y + Amount(params)))
    case 'C' => t.(position := t.position.(x := x + Amount(params)))
    case 'a' => t.(position := t.position.(x := x + Amount(params)))
    case 'D' => t.(position := t.position.(x := x - Min(x, Amount(params))))
    case 'E' => t.(position := Position(0, y + Amount(params)))
    case 'F' => t.(position := Position(0, y - Min(y, Amount(params))))
    case 'g' => ClearTabs(t, Param(params, 0, 0))
    case '@' => InsertBlanks(t, Param(params, 0, 1))
    case 'G' => t.(position := t.position.(x := Amount(params) - 1))
    case '`' => t.(position := t.position.(x := Amount(params) - 1))
    case 'S' => t.(scroll := t.scroll + Param(params, 0, 1))
    case 'T' => t.(scroll := t.scroll - Param(params, 0, 1))
    case 'L' => InsertLines(t, Param(params, 0, 1))
    case 'M' => DeleteLines(t, Param(params, 0, 1))
    case 'X' => EraseChars(t, Param(params, 0, 1))
    case 'P' => DeleteChars(t, Param(params, 0, 1))
    case 'Z' => t.(position := t.position.(x := BackTab(t.tabs, x, Param(params, 0, 1))))
    case 'd' => t.(position := t.position.(y := Amount(params) - 1))
    case 'm' => t.(attr := Sgr(t.attr, cfg, params))
    case 'n' => StatusReport(t, Param(params, 0, 0))
    case 'c' => DeviceAttributes(t, Param(params, 0, 0))
    case 's' => t.(save := t.position)
    case 'u' => t.(position := t.save)
    case 'h' => SetMode(t, Param(params, 0, 0))
    case 'l' => ResetMode(t, Param(params, 0, 0))
    case 'q' => CursorShape(t, Param(params, 0, 0))
    case 'r' => SetRegion(t, cfg, params)
    case _ => t
  }

  /** `csi_dispatch`: the command, then `decom_clamp` if origin mode is on. */
  function Csi(t: Term, cfg: Config, params: seq<u16>, c: char): Term
    requires CanCsi(t, cfg, params, c)
  {
    var r := CsiCommand(t, cfg, params, c);
    if r.mode.decom then DecomClamp(r) else r
  }

  /** The first intermediate of an escape sequence, `q` if there is none. */
  function Prefix(intermediates: seq<byte>): byte {
    if |intermediates| > 0 then intermediates[0] else 'q' as byte
  }

  /** What `esc_dispatch` needs not to panic: rows `top` and `bottom`
      present when RI scrolls, and a tab entry under the cursor for HTS. */
  predicate CanEsc(t: Term, intermediates: seq<byte>, b: byte) {
    var p := Prefix(intermediates);
    (p == 'q' as byte || p == '#' as byte) ==>
      && (b == 'M' as byte && t.position.y <= t.region.top ==>
            t.region.top < |t.buf| && t.region.bottom < |t.buf|)
      && (b == 'H' as byte ==> t.position.x < |t.tabs|)
  }

  /** `esc_dispatch`: RI, IND, NEL, DECID, HTS and DECALN; a `(` prefix
      (character set selection) and unknown sequences change nothing. */
  function Esc(t: Term, cfg: Config, intermediates: seq<byte>, b: byte): Term
    requires CanEsc(t, intermediates, b)
  {
    var p := Prefix(intermediates);
    if p != 'q' as byte && p != '#' as byte then t
    else if b == 'M' as byte then
      if t.position.y <= t.region.top then t.(buf := ScrollDown(t.buf, t.region, t.attr))
      else t.(position := t.position.(y := t.position.y - 1))
    else if b == 'D' as byte then t.(position := t.position.(y := t.position.y + 1))
    else if b == 'E' as byte then t.(position := Position(0, t.position.y + 1))
    else if b == 'Z' as byte then t.(replies := t.replies + [ESC] + "[?6c")
    else if b == 'H' as byte then t.(tabs := t.tabs[t.position.x := true])
    else if b == '8' as byte then t.(buf := seq(Rows(cfg), _ => seq(Cols(cfg), _ => Character(t.attr, 'E'))))
    else t
  }

  /** What handling `a` needs not to panic. */
  predicate CanDispatch(t: Term, cfg: Config, a: EscapeSpec.Action) {
    match a
    case Execute(b) => CanExecute(t, b)
    case CsiDispatch(params, _, c) => CanCsi(t, cfg, params, c)
    case EscDispatch(intermediates, b) => CanEsc(t, intermediates, b)
    case _ => true
  }

  /** The `match action` of `handle_bytes`; OSC strings are dropped. */
  function Dispatch(t: Term, cfg: Config, a: EscapeSpec.Action): Term
    requires CanDispatch(t, cfg, a)
  {
    match a
    case Print(c) => Print(t, c)
    case Execute(b) => Execute(t, b)
    case CsiDispatch(params, _, c) => Csi(t, cfg, params, c)
    case EscDispatch(intermediates, b) => Esc(t, cfg, intermediates, b)
    case OscDispatch(_) => t
  }

  /** The parser and the terminal together. */
  datatype Session = Session(parser: EscapeSpec.ParserState, term: Term)

  /** `Parser::new` beside `Terminal::new`. */
  function Start(cfg: Config): Session {
    Session(EscapeSpec.Initial, New(cfg))
  }

  /** The action `handle_bytes` acts on: only `Ok(Some(action))`; a
      parameter overflow is dropped like "no action". */
  function Emitted(o: EscapeSpec.Outcome): Option<EscapeSpec.Action> {
    if o.Ok? then o.value else None
  }

  /** Whether one byte can be handled without a panic. */
  predicate CanFeed(cfg: Config, s: Session, b: byte) {
    EscapeSpec.CanAdvance(s.parser, b) &&
    var a := Emitted(EscapeSpec.Advance(s.parser, b).1);
    a.Some? ==> CanDispatch(s.term, cfg, a.value)
  }

  /** One iteration of the loop in `handle_bytes`. */
  function Feed(cfg: Config, s: Session, b: byte): Session
    requires CanFeed(cfg, s, b)
  {
    var step := EscapeSpec.Advance(s.parser, b);
    var a := Emitted(step.1);
    Session(step.0, if a.Some? then Dispatch(s.term, cfg, a.value) else s.term)
  }

  predicate CanHandle(cfg: Config, s: Session, bs: seq<byte>)
    decreases |bs|
  {
    bs == [] || (CanFeed(cfg, s, bs[0]) && CanHandle(cfg, Feed(cfg, s, bs[0]), bs[1..]))
  }

  /** `handle_bytes`: the bytes fed one after the other. */
  function HandleBytes(cfg: Config, s: Session, bs: seq<byte>): Session
    requires CanHandle(cfg, s, bs)
    decreases |bs|
  {
    if bs == [] then s else HandleBytes(cfg, Feed(cfg, s, bs[0]), bs[1..])
  }

  /** `auto_scroll`: the pixel offset `scroll` changed, if needed, so that
      the cursor row is on screen, touching the nearer edge. */
  function AutoScroll(t: Term, cfg: Config): Term {
    var shown := -t.scroll;
    var py := t.position.y * CELL_HEIGHT;
    if py > shown + cfg.height - CELL_HEIGHT then t.(scroll := -(py - cfg.height + CELL_HEIGHT))
    else if py < shown then t.(scroll := -py)
    else t
  }
}
