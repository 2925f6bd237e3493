/** `Terminal` of src/terminal/mod.rs as an object whose fields the byte
    stream updates in place. Each method does what the function of the
    same name in `TermModel` describes, and loops where the source loops. */
module Terminal {
  import opened Wrappers
  import EscapeSpec
  import Escape
  import Colour
  import opened TermModel

  /** `n` blank rows put in at `at`, one by one, as the loop of IL does. */
  method InsertRows(rows: Grid, at: nat, n: nat, pen: Attribute) returns (r: Grid)
    requires at <= |rows|
    ensures r == rows[..at] + BlankRows(pen, n) + rows[at..]
  {
    r := rows;
    assert r == rows[..at] + BlankRows(pen, 0) + rows[at..];
    var i := 0;
    while i < n
      invariant i <= n
      invariant r == rows[..at] + BlankRows(pen, i) + rows[at..]
    {
      assert r[..at + i] == rows[..at] + BlankRows(pen, i);
      assert r[at + i..] == rows[at..];
      assert BlankRows(pen, i) + [BlankRow(pen)] == BlankRows(pen, i + 1);
      r := r[..at + i] + [BlankRow(pen)] + r[at + i..];
      i := i + 1;
    }
  }

  /** Rows `from..to` overwritten with blank rows, one by one. */
  method BlankRowRange(rows: Grid, from: nat, to: nat, pen: Attribute) returns (r: Grid)
    requires from <= to <= |rows|
    ensures r == rows[..from] + BlankRows(pen, to - from) + rows[to..]
  {
    r := rows;
    var index := from;
    while index < to
      invariant from <= index <= to && |r| == |rows|
      invariant forall k :: 0 <= k < |r| ==> r[k] == if from <= k < index then BlankRow(pen) else rows[k]
    {
      r := r[index := BlankRow(pen)];
      index := index + 1;
    }
    assert r == rows[..from] + BlankRows(pen, to - from) + rows[to..];
  }

  /** Up to `n` rows taken out at `at`, one by one while there are any, as
      the loop of DL does. */
  method RemoveRows(rows: Grid, at: nat, n: nat) returns (r: Grid)
    ensures r == if at < |rows| then rows[..at] + rows[at + Min(n, |rows| - at)..] else rows
  {
    r := rows;
    var i := 0;
    while i < n
      invariant i <= n
      invariant r == if at < |rows| then rows[..at] + rows[at + Min(i, |rows| - at)..] else rows
    {
      if |r| > at {
        assert r[..at] == rows[..at];
        assert r[at + 1..] == rows[at + i + 1..];
        r := r[..at] + r[at + 1..];
      }
      i := i + 1;
    }
  }

  /** The first `n` cells of `row` overwritten with blanks one by one, as
      the `0..x + 1` loops of ED 1 and EL 1 do. */
  method BlankPrefix(row: seq<Character>, pen: Attribute, n: nat) returns (r: seq<Character>)
    requires n <= |row|
    ensures |r| == |row| && r == Blanks(pen, n) + row[n..]
  {
    r := row;
    assert r == Blanks(pen, 0) + row[0..];
    var index := 0;
    while index < n
      invariant index <= n && |r| == |row|
      invariant r == Blanks(pen, index) + row[index..]
    {
      r := r[index := Blank(pen)];
      index := index + 1;
      assert r == Blanks(pen, index) + row[index..];
    }
  }

  class Terminal {
    var buf: Grid
    var position: Position
    var save: Position
    var scroll: int
    var tabs: seq<bool>
    var attr: Attribute
    var mode: Mode
    var region: ScrollingRegion
    var style: CursorStyle
    var replies: string
    const cfg: Config
    const parser: Escape.Parser

    /** The fields as a value. */
    function Model(): Term
      reads this
    {
      Term(buf, position, save, scroll, tabs, attr, mode, region, style, replies)
    }

    /** The parser and the terminal as a value. */
    function Current(): Session
      reads this, parser, parser.utf8
    {
      Session(parser.Model(), Model())
    }

    /** `Terminal::new`, given the configuration and window size. */
    constructor (cfg: Config)
      ensures Current() == Start(cfg) && this.cfg == cfg
      ensures fresh(parser) && fresh(parser.utf8)
    {
      buf := [];
      position := Position(0, 0);
      save := Position(0, 0);
      scroll := 0;
      tabs := seq(DEFAULT_TAB_MAX, i => i % 8 == 0);
      attr := Attribute(cfg.fg, cfg.bg);
      mode := Mode(false, false, false);
      region := ScrollingRegion(0, Rows(cfg));
      style := Block;
      replies := [];
      this.cfg := cfg;
      parser := new Escape.Parser();
    }

    /** `alloc_area`. */
    method AllocArea(x: nat, y: nat, height: nat, width: nat)
      requires height >= 1
      modifies this
      ensures Model() == old(Model()).(buf := TermModel.AllocArea(old(buf), attr, x, y, height, width))
    {
      ghost var start := buf;
      if y >= |buf| {
        var n := |buf|;
        while n < y + height
          invariant |start| <= n <= y + height
          invariant buf == start + seq(n - |start|, _ => [])
          invariant Model() == old(Model()).(buf := buf)
        {
          buf := buf + [[]];
          n := n + 1;
          assert buf == start + seq(n - |start|, _ => []);
        }
      }
      ghost var rows := buf;
      if x >= |buf[y]| {
        assert Blanks(attr, 0) == [] && rows[y] + [] == rows[y];
        var n := |buf[y]|;
        while n < x + width
          invariant |rows[y]| <= n <= x + width
          invariant buf == rows[y := rows[y] + Blanks(attr, n - |rows[y]|)]
          invariant Model() == old(Model()).(buf := buf)
        {
          buf := buf[y := buf[y] + [Blank(attr)]];
          n := n + 1;
          assert buf[y] == rows[y] + Blanks(attr, n - |rows[y]|);
        }
      }
    }

    /** `print`. */
    method Print(c: char)
      modifies this
      ensures Model() == TermModel.Print(old(Model()), c)
    {
      AllocArea(position.x, position.y, 1, 1);
      var cell := Character(attr, c);
      if !mode.decim {
        buf := buf[position.y := buf[position.y][position.x := cell]];
      } else {
        var row := buf[position.y];
        buf := buf[position.y := row[..position.x] + [cell] + row[position.x..]];
      }
      position := position.(x := position.x + 1);
    }

    /** `execute`. */
    method Execute(b: byte)
      requires CanExecute(Model(), b)
      modifies this
      ensures Model() == TermModel.Execute(old(Model()), b)
    {
      if b == 0x09 {
        ghost var stop := NextStop(tabs, position.x + 1);
        position := position.(x := position.x + 1);
        while !tabs[position.x]
          invariant position.x <= stop
          invariant Model() == old(Model()).(position := position) && position.y == old(position.y)
          invariant NextStop(tabs, position.x) == stop
          decreases stop - position.x
        {
          position := position.(x := position.x + 1);
        }
      } else if IsLineFeed(b) {
        if position.y >= region.bottom {
          var rest := buf[..region.top] + buf[region.top + 1..];
          buf := rest[..region.bottom] + [BlankRow(attr)] + rest[region.bottom..];
        } else {
          position := position.(y := position.y + 1);
        }
      } else if b == 0x0D {
        position := position.(x := 0);
      } else if b == 0x08 {
        if position.x > 0 {
          position := position.(x := position.x - 1);
        }
      }
    }

    /** `decom_clamp`. */
    method DecomClamp()
      modifies this
      ensures Model() == TermModel.DecomClamp(old(Model()))
    {
      if position.y < region.top {
        position := position.(y := region.top);
      } else if position.y > region.bottom {
        position := position.(y := region.bottom);
      }
    }

    /** `auto_scroll`. */
    method AutoScroll()
      modifies this
      ensures Model() == TermModel.AutoScroll(old(Model()), cfg)
    {
      var shown := -scroll;
      if position.y * CELL_HEIGHT > shown + cfg.height - CELL_HEIGHT {
        scroll := -((position.y * CELL_HEIGHT) - cfg.height + CELL_HEIGHT);
      } else if position.y * CELL_HEIGHT < shown {
        scroll := -(position.y * CELL_HEIGHT);
      }
    }

    /** ED, the `'J'` arm of `csi_dispatch`. */
    method EraseDisplay(how: nat)
      modifies this
      ensures Model() == TermModel.EraseDisplay(old(Model()), how)
    {
      if how == 0 {
        EraseBelow();
      } else if how == 1 {
        EraseAbove();
      } else {
        AllocArea(position.x, position.y, 1, 1);
        if how == 2 || how == 3 {
          buf := [];
        }
      }
    }

    /** ED 0: the rows below the cursor dropped and its own row blanked
        from the cursor on. */
    method EraseBelow()
      modifies this
      ensures Model() == TermModel.EraseDisplay(old(Model()), 0)
    {
      var x, y := position.x, position.y;
      AllocArea(x, y, 1, 1);
      var pen := attr;
      var rows := buf[..y + 1];
      var row := rows[y];
      ghost var start := row;
      assert Blanks(pen, 0) == [] && start[..x] + [] + start[x..] == start;
      var index := x;
      while index < |row|
        invariant x <= index <= |start| == |row|
        invariant row == start[..x] + Blanks(pen, index - x) + start[index..]
      {
        row := row[index := Blank(pen)];
        index := index + 1;
        assert row == start[..x] + Blanks(pen, index - x) + start[index..];
      }
      assert start[|start|..] == [];
      assert row == start[..x] + Blanks(pen, |start| - x);
      buf := rows[y := row];
    }

    /** ED 1: the rows above the cursor and its own row up to and including
        the cursor blanked. */
    method EraseAbove()
      modifies this
      ensures Model() == TermModel.EraseDisplay(old(Model()), 1)
    {
      ghost var expected := TermModel.EraseDisplay(Model(), 1);
      var x, y := position.x, position.y;
      AllocArea(x, y, 1, 1);
      var pen := attr;
      ghost var grid := buf;
      var rows := BlankRowRange(buf, 0, y, pen);
      assert rows[y] == grid[y];
      var row := BlankPrefix(rows[y], pen, x + 1);
      assert rows[y := row] == BlankRows(pen, y) + [row] + grid[y + 1..] == expected.buf;
      buf := rows[y := row];
    }

    /** EL, the `'K'` arm of `csi_dispatch`. */
    method EraseLine(how: nat)
      modifies this
      ensures Model() == TermModel.EraseLine(old(Model()), how)
    {
      var x, y := position.x, position.y;
      AllocArea(x, y, 1, 1);
      if how == 0 {
        buf := buf[y := buf[y][..x]];
      } else if how == 1 {
        var row := BlankPrefix(buf[y], attr, x + 1);
        buf := buf[y := row];
      } else if how == 2 {
        buf := buf[y := []];
      }
    }

    /** TBC, the `'g'` arm of `csi_dispatch`. */
    method ClearTabs(how: nat)
      requires how == 0 ==> position.x < |tabs|
      modifies this
      ensures Model() == TermModel.ClearTabs(old(Model()), how)
    {
      if how == 0 {
        tabs := tabs[position.x := false];
      } else if how == 3 {
        tabs := seq(|tabs|, _ => false);
      }
    }

    /** ICH, the `'@'` arm of `csi_dispatch`. */
    method InsertBlanks(n: nat)
      modifies this
      ensures Model() == TermModel.InsertBlanks(old(Model()), n)
    {
      var x, y := position.x, position.y;
      AllocArea(x, y, 1, n);
      var pen := attr;
      var row := buf[y];
      ghost var start := row;
      assert start[..x] + Blanks(pen, 0) + start[x..] == start;
      var i := 0;
      while i < n
        invariant i <= n
        invariant row == start[..x] + Blanks(pen, i) + start[x..]
      {
        row := row[..x] + [Blank(pen)] + row[x..];
        i := i + 1;
        assert row == start[..x] + Blanks(pen, i) + start[x..];
      }
      buf := buf[y := row];
    }

    /** ECH, the `'X'` arm of `csi_dispatch`. */
    method EraseChars(n: nat)
      requires position.x + n <= |EditRow(Model(), n)|
      modifies this
      ensures Model() == TermModel.EraseChars(old(Model()), n)
    {
      var x, y := position.x, position.y;
      AllocArea(x, y, 1, n);
      var pen := attr;
      var row := buf[y];
      ghost var start := row;
      assert start[..x] + Blanks(pen, 0) + start[x..] == start;
      var index := 0;
      while index < n
        invariant index <= n && |row| == |start|
        invariant row == start[..x] + Blanks(pen, index) + start[x + index..]
      {
        row := row[x + index := Blank(pen)];
        index := index + 1;
        assert row == start[..x] + Blanks(pen, index) + start[x + index..];
      }
      buf := buf[y := row];
    }

    /** DCH, the `'P'` arm of `csi_dispatch`. */
    method DeleteChars(n: nat)
      requires position.x + n <= |EditRow(Model(), n)|
      modifies this
      ensures Model() == TermModel.DeleteChars(old(Model()), n)
    {
      var x, y := position.x, position.y;
      AllocArea(x, y, 1, n);
      buf := buf[y := buf[y][..x] + buf[y][x + n..]];
    }

    /** IL, the `'L'` arm of `csi_dispatch`. */
    method InsertLines(n: nat)
      requires CanInsertLines(Model(), n)
      modifies this
      ensures Model() == TermModel.InsertLines(old(Model()), n)
    {
      ghost var expected := TermModel.InsertLines(Model(), n);
      var rows := buf;
      if n > 0 {
        rows := InsertRows(buf, Max(position.y, region.top), n, attr);
      }
      var last := |rows| - 1;
      if region.bottom < last {
        rows := BlankRowRange(rows, region.bottom, last, attr);
      }
      assert rows == expected.buf;
      buf := rows;
      position := position.(x := 0);
    }

    /** DL, the `'M'` arm of `csi_dispatch`. */
    method DeleteLines(n: nat)
      modifies this
      ensures Model() == TermModel.DeleteLines(old(Model()), n)
    {
      ghost var expected := TermModel.DeleteLines(Model(), n);
      AllocArea(position.x, position.y, n + 1, 1);
      var rows := RemoveRows(buf, Max(position.y, region.top), n);
      assert rows == expected.buf;
      buf := rows;
      position := position.(x := 0);
    }

    /** CBT, the `'Z'` arm of `csi_dispatch`: each step goes one column left
        and then on left until a tab stop. */
    method BackTab(n: nat)
      requires CanBackTab(tabs, position.x, n)
      modifies this
      ensures Model() == old(Model()).(position := position)
      ensures position == old(position).(x := TermModel.BackTab(tabs, old(position.x), n))
    {
      var x: nat := position.x;
      var i := 0;
      while i < n
        invariant i <= n
        invariant CanBackTab(tabs, x, n - i)
        invariant TermModel.BackTab(tabs, x, n - i) == TermModel.BackTab(tabs, position.x, n)
      {
        ghost var stop := PrevStop(tabs, x - 1);
        ghost var from := x;
        x := x - 1;
        while !tabs[x]
          invariant stop <= x <= from - 1
          decreases x
        {
          x := x - 1;
        }
        i := i + 1;
      }
      position := position.(x := x);
    }

    /** SGR, the `'m'` arm of `csi_dispatch`: the parameters in order. */
    method Sgr(params: seq<u16>)
      requires CanSgr(cfg, params)
      modifies this
      ensures Model() == old(Model()).(attr := TermModel.Sgr(old(attr), cfg, params))
    {
      var i := 0;
      while i < |params|
        invariant i <= |params|
        invariant CanSgr(cfg, params[i..])
        invariant SgrEach(attr, cfg, params, params[i..]) == TermModel.Sgr(old(attr), cfg, params)
        invariant Model() == old(Model()).(attr := attr)
      {
        var p := params[i];
        assert params[i..][0] == p && params[i..][1..] == params[i + 1..];
        if p == 0 {
          attr := Attribute(cfg.fg, cfg.bg);
        } else if p == 39 {
          attr := attr.(fg := cfg.fg);
        } else if p == 7 {
          var fg := attr.fg;
          attr := attr.(fg := attr.bg);
          attr := attr.(bg := fg);
        } else if p == 38 || p == 48 {
          var mode := if 1 < |params| then params[1] else 2;
          if mode == 2 {
            var r := if 2 < |params| then params[2] else 0;
            var g := if 3 < |params| then params[3] else 0;
            var b := if 4 < |params| then params[4] else 0;
            var raw := Colour.Color(r, g, b);
            if cfg.allocates {
              if p == 38 {
                attr := attr.(fg := raw);
              } else {
                attr := attr.(bg := raw);
              }
            }
          }
        } else if 30 <= p <= 37 {
          attr := attr.(fg := cfg.palette[p - 30]);
        } else if 90 <= p <= 97 {
          attr := attr.(fg := cfg.palette[p - 90]);
        } else if 40 <= p <= 47 {
          attr := attr.(bg := cfg.palette[p - 40]);
        } else if 100 <= p <= 107 {
          attr := attr.(bg := cfg.palette[p - 100]);
        }
        i := i + 1;
      }
    }

    /** `csi_dispatch`. The intermediates only reach the debug output. */
    method CsiDispatch(params: seq<u16>, intermediates: seq<byte>, c: char)
      requires CanCsi(Model(), cfg, params, c)
      modifies this
      ensures Model() == Csi(old(Model()), cfg, params, c)
    {
      var x, y := position.x, position.y;
      match c {
        case 'J' => EraseDisplay(Param(params, 0, 0));
        case 'K' => EraseLine(Param(params, 0, 0));
        case 'H' => SetPosition(params);
        case 'f' => SetPosition(params);
        case 'A' => position := position.(y := y - Min(y, Amount(params)));
        case 'B' => position := position.(y := y + Amount(params));
        case 'e' => position := position.(y := y + Amount(params));
        case 'C' => position := position.(x := x + Amount(params));
        case 'a' => position := position.(x := x + Amount(params));
        case 'D' => position := position.(x := x - Min(x, Amount(params)));
        case 'E' =>
          position := position.(y := y + Amount(params));
          position := position.(x := 0);
        case 'F' =>
          position := position.(y := y - Min(y, Amount(params)));
          position := position.(x := 0);
        case 'g' => ClearTabs(Param(params, 0, 0));
        case '@' => InsertBlanks(Param(params, 0, 1));
        case 'G' => position := position.(x := Amount(params) - 1);
        case '`' => position := position.(x := Amount(params) - 1);
        case 'S' => scroll := scroll + Param(params, 0, 1);
        case 'T' => scroll := scroll - Param(params, 0, 1);
        case 'L' => InsertLines(Param(params, 0, 1));
        case 'M' => DeleteLines(Param(params, 0, 1));
        case 'X' => EraseChars(Param(params, 0, 1));
        case 'P' => DeleteChars(Param(params, 0, 1));
        case 'Z' => BackTab(Param(params, 0, 1));
        case 'd' => position := position.(y := Amount(params) - 1);
        case 'm' => Sgr(params);
        case 'n' => Report(Param(params, 0, 0));
        case 'c' => Identify(Param(params, 0, 0));
        case 's' => save := position;
        case 'u' => position := save;
        case 'h' => SetMode(Param(params, 0, 0));
        case 'l' => ResetMode(Param(params, 0, 0));
        case 'q' => SetStyle(Param(params, 0, 0));
        case 'r' => SetRegion(params);
        case _ =>
      }
      if mode.decom {
        DecomClamp();
      }
    }

    /** CUP / HVP. */
    method SetPosition(params: seq<u16>)
      modifies this
      ensures Model() == CursorPosition(old(Model()), params)
    {
      position := position.(x := Max(Param(params, 1, 1), 1) - 1);
      if mode.decom {
        position := position.(y := Max(Param(params, 0, 1), 1) - 1 + region.top);
      } else {
        position := position.(y := Max(Param(params, 0, 1), 1) - 1);
      }
    }

    /** DSR; the reply is appended to `replies`. */
    method Report(how: nat)
      modifies this
      ensures Model() == StatusReport(old(Model()), how)
    {
      if how == 5 {
        replies := replies + [ESC] + "[0n";
      } else if how == 6 {
        replies := replies + PositionReport(Model());
      }
    }

    /** DA; the reply is appended to `replies`. */
    method Identify(how: nat)
      modifies this
      ensures Model() == DeviceAttributes(old(Model()), how)
    {
      if how == 14 {
        replies := replies + [ESC] + "[>1;4000;33c";
      } else if how == 0 {
        replies := replies + [ESC] + "[?6c";
      }
    }

    /** SM. */
    method SetMode(how: nat)
      modifies this
      ensures Model() == TermModel.SetMode(old(Model()), how)
    {
      if how == 4 {
        mode := mode.(decim := true);
      } else if how == 5 {
        mode := mode.(decscnm := true);
      } else if how == 6 {
        position := Position(0, 0);
        mode := mode.(decom := true);
      }
    }

    /** RM. */
    method ResetMode(how: nat)
      modifies this
      ensures Model() == TermModel.ResetMode(old(Model()), how)
    {
      if how == 4 {
        mode := mode.(decim := false);
      } else if how == 5 {
        mode := mode.(decscnm := false);
      } else if how == 6 {
        position := Position(0, 0);
        mode := mode.(decom := false);
      } else {
        mode := Mode(false, false, false);
      }
    }

    /** DECSCUSR. */
    method SetStyle(how: nat)
      modifies this
      ensures Model() == CursorShape(old(Model()), how)
    {
      if how == 2 {
        style := Block;
      } else if how == 4 {
        style := Underline;
      } else if how == 6 {
        style := Line;
      }
    }

    /** DECSTBM. */
    method SetRegion(params: seq<u16>)
      modifies this
      ensures Model() == TermModel.SetRegion(old(Model()), cfg, params)
    {
      region := ScrollingRegion(Max(Param(params, 0, 0), 1) - 1, Max(Param(params, 1, DefaultBottom(cfg)), 1) - 1);
      position := Position(0, 0);
    }

    /** `esc_dispatch`. */
    method EscDispatch(intermediates: seq<byte>, b: byte)
      requires CanEsc(Model(), intermediates, b)
      modifies this
      ensures Model() == Esc(old(Model()), cfg, intermediates, b)
    {
      var prefix := Prefix(intermediates);
      if prefix == 'q' as byte || prefix == '#' as byte {
        if b == 'M' as byte {
          if position.y <= region.top {
            var rest := buf[..region.bottom] + buf[region.bottom + 1..];
            buf := rest[..region.top] + [BlankRow(attr)] + rest[region.top..];
          } else {
            position := position.(y := position.y - 1);
          }
        } else if b == 'D' as byte {
          position := position.(y := position.y + 1);
        } else if b == 'E' as byte {
          position := position.(y := position.y + 1);
          position := position.(x := 0);
        } else if b == 'Z' as byte {
          replies := replies + [ESC] + "[?6c";
        } else if b == 'H' as byte {
          tabs := tabs[position.x := true];
        } else if b == '8' as byte {
          var cell := Character(attr, 'E');
          buf := seq(Rows(cfg), _ => seq(Cols(cfg), _ => cell));
        }
      }
    }

    /** The `match action` of `handle_bytes`. */
    method Dispatch(a: EscapeSpec.Action)
      requires CanDispatch(Model(), cfg, a)
      modifies this
      ensures Model() == TermModel.Dispatch(old(Model()), cfg, a)
    {
      match a {
        case Print(c) => Print(c);
        case Execute(b) => Execute(b);
        case CsiDispatch(params, intermediates, c) => CsiDispatch(params, intermediates, c);
        case EscDispatch(intermediates, b) => EscDispatch(intermediates, b);
        case OscDispatch(_) =>
      }
    }

    /** `handle_bytes`: every byte through the parser, and every action it
        returns carried out. */
    method HandleBytes(bytes: seq<byte>)
      requires CanHandle(cfg, Current(), bytes)
      modifies this, parser, parser.utf8
      ensures Current() == TermModel.HandleBytes(cfg, old(Current()), bytes)
    {
      var i := 0;
      while i < |bytes|
        invariant i <= |bytes|
        invariant CanHandle(cfg, Current(), bytes[i..])
        invariant TermModel.HandleBytes(cfg, Current(), bytes[i..]) == TermModel.HandleBytes(cfg, old(Current()), bytes)
      {
        assert bytes[i..][0] == bytes[i] && bytes[i..][1..] == bytes[i + 1..];
        ghost var before := Current();
        var r := parser.Advance(bytes[i]);
        if r.Ok? && r.value.Some? {
          Dispatch(r.value.value);
        }
        assert Current() == Feed(cfg, before, bytes[i]);
        i := i + 1;
      }
    }
  }
}
