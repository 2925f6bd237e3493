# termal: the byte stream from the pty to the screen

termal is an X11 terminal emulator. This project models its core: the path a
byte from the pty takes before it lands on the screen. It also proves
properties of that path. The path has these parts:

- **UTF-8 decoder** (`src/escape/utf8.rs`): a four-state machine (`Ground`, `Tail1`,
  `Tail2`, `Tail3`). It collects the bits of a code point in a `u32` and
  returns `Valid(char)` or `Invalid`.
- **Escape parser** (`src/escape/mod.rs`): states `Anywhere`, `Entry`, `CsiParams`,
  `EscParams` and `OscParams`. It turns bytes into `Print`, `Execute`,
  `CsiDispatch`, `EscDispatch` and `OscDispatch` actions. CSI parameters are
  collected as `u16` values.
- **Terminal** (`src/terminal/mod.rs`): the screen buffer (rows of coloured
  characters that grow on demand), the cursor, the saved cursor, the scroll
  offset, the tab stops, the pen, the DECIM/DECOM/DECSCNM modes, the
  scrolling region and the cursor style. `print`, `execute`, `csi_dispatch`,
  `esc_dispatch`, `alloc_area`, `decom_clamp`, `auto_scroll` and
  `handle_bytes` change them.
- **Colour helpers** (`src/xlib/mod.rs`): `Color::new`, `from_str`, `encode`
  and `hex`, plus the 8-bit to 16-bit channel widening `c as u16 * 257`.

Every mutable structure of the source is a class. Its methods are proved
against a function on values:

- `Utf8.Utf8Decoder` is proved against `Utf8.Step`.
- `Escape.Parser` is proved against `EscapeSpec.Advance`.
- `Terminal.Terminal` is proved against `TermModel`.

Each method ensures that its new state is the specification function applied
to its old state. The rows of the class methods in the table below therefore
also stand for those functions (`Utf8.Step`, `EscapeSpec.Advance`,
`TermModel.Print`, `TermModel.Execute`, `TermModel.Csi`, `TermModel.Esc`,
`TermModel.Dispatch`, `TermModel.HandleBytes`, …), which carry no contract
of their own. The properties are proved as lemmas about those functions,
in `Utf8`, `EscapeProps`, `Colour`, `Decimal` and `TermProps`.

A panic of the source (an index out of range, `usize` underflow, an
`unwrap` on `None`) becomes a precondition. Each precondition is collected in
a `Can…` predicate (`Utf8.CanStep`, `EscapeSpec.CanAdvance`,
`TermModel.CanCsi`, `TermModel.CanHandle`, …). A `?` that returns an error
becomes a `Result`.

Modules:

| module | file | models |
|---|---|---|
| `Wrappers` | wrappers.dfy | `Option` and `Result` |
| `Decimal` | decimal.dfy | `format!("{}")` and `str::parse` on decimal numbers |
| `Utf8` | utf8.dfy | `State::advance`, `Utf8::advance` |
| `EscapeSpec` | escape_spec.dfy | `Parser` on values |
| `Escape` | escape.dfy | `Parser` as a class |
| `EscapeProps` | escape_props.dfy | properties of the parser |
| `Colour` | colour.dfy | `Color` and the channel widening |
| `TermModel` | term_model.dfy | `Terminal` on values |
| `TermProps` | term_props.dfy | properties of the terminal |
| `Terminal` | terminal.dfy | `Terminal` as a class |

## Model

| member | source | states |
|---|---|---|
| Utf8.TransitionCanAbsorb | src/escape/utf8.rs:71-75 | whenever the state machine's step is allowed and ends a sequence, the completed bits are a Unicode scalar value, so `char::from_u32(..).unwrap()` cannot panic |
| Utf8.StepKeepsInv | src/escape/utf8.rs:93-116 | a step keeps the decoder invariant (in `Ground` `point` is 0; in a tail state the bits still to come are 0 and `point` is below 2^21), and whenever the decoder is back in `Ground` its `point` is 0 |
| Utf8.AsciiInGround | src/escape/utf8.rs:35-39 | in `Ground`, a byte up to 0x7F is returned at once as that character, and the decoder is fresh again |
| Utf8.LeadInGround | src/escape/utf8.rs:41-57 | in `Ground`, a lead byte C2..DF, E0..EF or F0..F4 moves to `Tail1`, `Tail2` or `Tail3`, keeps its 5, 4 or 3 payload bits at bit 6, 12 or 18, and returns nothing |
| Utf8.InvalidInGround | src/escape/utf8.rs:58 | in `Ground`, bytes 80..C1 and F5..FF return `Invalid` and leave the decoder unchanged |
| Utf8.TailsTakeAnyByte | src/escape/utf8.rs:61-75 | in a tail state any byte is taken as a continuation byte: `Tail3` goes to `Tail2`, then to `Tail1`, then to `Ground`, and only the last step returns the completed character |
| Utf8.DecodeEncoded | src/escape/utf8.rs:93-116 | the RFC 3629 encoding of any scalar value, fed to a fresh decoder, returns nothing until the last byte, which returns that character; the decoder ends fresh |
| Utf8.DecodeOne | src/escape/utf8.rs:95-99 | a one-byte encoding decodes to its character |
| Utf8.DecodeTwo | src/escape/utf8.rs:100-109 | a two-byte encoding decodes to its character |
| Utf8.DecodeThree | src/escape/utf8.rs:100-110 | a three-byte encoding decodes to its character |
| Utf8.DecodeFour | src/escape/utf8.rs:100-111 | a four-byte encoding decodes to its character |
| Utf8.Utf8Decoder.constructor | src/escape/utf8.rs:86-91 | `Utf8::new` starts in `Ground` with `point` 0 |
| Utf8.Utf8Decoder.Advance | src/escape/utf8.rs:93-116 | `Utf8::advance` changes the decoder and returns exactly what `Utf8.Step` gives; the accumulator is updated in place by `Collect` |
| Utf8.Utf8Decoder.Collect | src/escape/utf8.rs:95-112 | the in-place update of `point` for each byte role (cleared when a character is returned, the payload bits ORed in otherwise) equals `Utf8.Accumulate`; the state is left alone |
| EscapeSpec.Reset | src/escape/mod.rs:51-56 | `reset` returns to `Anywhere` and empties the CSI parameters, the intermediates and the index, but keeps the OSC payload and the decoder |
| EscapeSpec.Concat | src/escape/mod.rs:124 | `format!("{}{}", v, d).parse()` is `v` shifted left by as many decimal places as `d` has digits, plus `d` |
| Escape.Parser.constructor | src/escape/mod.rs:38-49 | `Parser::new` starts in `Anywhere` with empty parameters and a fresh decoder |
| Escape.Parser.Reset | src/escape/mod.rs:51-56 | the method's new state is `EscapeSpec.Reset` of the old one |
| Escape.Parser.EscParam | src/escape/mod.rs:58-71 | `esc_param` dispatches a final byte 0x30..0x7D with the intermediates and resets, and collects 0x20..0x2E as an intermediate, as `EscapeSpec.EscParam` |
| Escape.Parser.Advance | src/escape/mod.rs:73-153 | `advance` changes the parser and returns exactly what `EscapeSpec.Advance` gives |
| Escape.Parser.AdvanceCsi | src/escape/mod.rs:109-134 | the `CsiParams` arm, including the `u16` parse error on a too-long parameter, as `EscapeSpec.AdvanceCsi` |
| EscapeProps.InitialValid | src/escape/mod.rs:38-49 | the new parser satisfies the parser invariant: the index is at the last CSI parameter or one past it, and the decoder invariant holds |
| EscapeProps.AdvanceKeepsValid | src/escape/mod.rs:73-153 | every step keeps the invariant, so the `insert(index, ..)` of a new parameter never panics |
| EscapeProps.AnywhereKeepsValid | src/escape/mod.rs:80-95 | the `Anywhere` arm keeps the invariant |
| EscapeProps.ArmsKeepValid | src/escape/mod.rs:96-147 | the `Entry`, `CsiParams`, `EscParams` and `OscParams` arms keep the invariant |
| EscapeProps.CsiDigitKeepsValid | src/escape/mod.rs:117-128 | a parameter byte 0x30..0x3F keeps the invariant |
| EscapeProps.ValidCanAdvance | src/escape/mod.rs:73-153 | under the invariant, the only way a step can panic is the decoder's `unwrap` in `Anywhere` |
| EscapeProps.EscapeEntersEntry | src/escape/mod.rs:75-77 | ESC in any state moves to `Entry`, returns nothing, and keeps the collected parameters, intermediates and payload |
| EscapeProps.AnywhereExecutes | src/escape/mod.rs:81-82 | in `Anywhere`, a byte below 0x1F other than ESC is returned as `Execute` and changes nothing |
| EscapeProps.AnywherePrints | src/escape/mod.rs:83-94 | in `Anywhere`, 0x1F and above go to the decoder; the parser prints exactly the characters the decoder returns, and drops `Invalid` |
| EscapeProps.AsciiPrints | src/escape/mod.rs:84-87 | with no sequence pending, bytes 0x1F..0x7F other than ESC print as themselves |
| EscapeProps.EntryDispatches | src/escape/mod.rs:96-107 | after ESC, `[` enters `CsiParams` and `]` enters `OscParams`; any other byte 0x30..0x7D is an `EscDispatch` with the intermediates followed by a reset; any other byte moves to `EscParams`, pushing 0x20..0x2E onto the intermediates and changing nothing else |
| EscapeProps.CsiDispatchResets | src/escape/mod.rs:112-116 | in `CsiParams`, a final byte 0x40..0x7D dispatches the parameters, intermediates and final character, and the parser is reset |
| EscapeProps.CsiIgnores | src/escape/mod.rs:109-134 | in `CsiParams`, bytes 0x7E and above, `?`, 0x2F and 0x0F..0x1F are ignored |
| EscapeProps.CsiCollects | src/escape/mod.rs:129-133 | in `CsiParams`, 0x20..0x2E is collected as an intermediate, and 0x00..0x0E is executed without leaving the sequence |
| EscapeProps.SeparatorSkipsEmpty | src/escape/mod.rs:118-121 | `;` and `:` advance the index only if the current parameter exists, so empty parameters are dropped |
| EscapeProps.ConcatDigits | src/escape/mod.rs:124 | a digit 0..9 extends the parameter as `v * 10 + d`, but `<`, `=` and `>` (values 12 to 14) extend it as `v * 100 + d` |
| EscapeProps.DigitExtends | src/escape/mod.rs:117-128 | a parameter byte either starts a new parameter at the index or extends the current one; the step is an error exactly when the new value does not fit in `u16`, and then nothing changes |
| EscapeProps.OscDispatchKeepsPayload | src/escape/mod.rs:138-147 | in `OscParams`, BEL or 0x9C dispatches the payload and leaves it in place; any other byte is appended to it |
| EscapeProps.RunOne | src/escape/mod.rs:73-153 | running one byte is one `advance` |
| EscapeProps.RunAppend | src/escape/mod.rs:73-153 | feeding `a + b` is feeding `a` and then `b`, in both its outcome and its actions |
| EscapeProps.RunKeepsValid | src/escape/mod.rs:73-153 | a whole run keeps the invariant |
| EscapeProps.RunCons | src/escape/mod.rs:73-153 | a run is its first step followed by the rest |
| EscapeProps.EmptyParameterSteps | src/escape/mod.rs:117-126 | step by step, `ESC [ ; 5 H` skips the empty first parameter |
| EscapeProps.EmptyParameterExample | src/escape/mod.rs:117-126 | `ESC [ ; 5 H` dispatches `H` with the parameters `[5]` |
| EscapeProps.PrivateMarkerSteps | src/escape/mod.rs:117-126 | step by step, `>` is stored as the parameter value 14 |
| EscapeProps.PrivateMarkerExample | src/escape/mod.rs:117-126 | `ESC [ > c` dispatches `c` with the parameters `[14]` |
| EscapeProps.MalformedSteps | src/escape/mod.rs:112-126 | step by step, `ESC [ 1 ; @` ends at `@` |
| EscapeProps.MalformedHead | src/escape/mod.rs:112-116 | `@` is a CSI final byte, so `ESC [ 1 ; @` dispatches `@` with `[1]` |
| EscapeProps.MalformedTail | src/escape/mod.rs:84-87 | after the reset, `@ m A` are printed |
| EscapeProps.MalformedExample | src/escape/mod.rs:112-116 | the whole stream `ESC [ 1 ; @ @ m A` is one CSI `@` and three printed characters |
| EscapeProps.PrintedAll | src/escape/mod.rs:84-93 | the actions a run of decoded values gives, one per value |
| EscapeProps.RunFeedsDecoder | src/escape/mod.rs:80-95 | in `Anywhere`, a stretch of printable bytes is handed to the decoder byte by byte, and the parser prints what the decoder returns |
| EscapeProps.PrintsEncoded | src/escape/mod.rs:84-87 | the UTF-8 encoding of any character from U+001F on, except ESC, prints that character exactly once, on its last byte |
| EscapeProps.OscPayloadCarriesOver | src/escape/mod.rs:51-56 | `reset` does not clear the OSC payload, so a second OSC sequence dispatches the first payload followed by its own |
| Colour.Split | src/xlib/mod.rs:27 | `str::split` yields at least one part |
| Colour.SplitCount | src/xlib/mod.rs:27-29 | splitting gives one more part than there are separators, which is what the `len() == 3` test counts |
| Colour.SplitWhole | src/xlib/mod.rs:27 | a string without the separator splits into itself |
| Colour.SplitFirst | src/xlib/mod.rs:27 | the first part ends at the first separator |
| Colour.WrongPartCount | src/xlib/mod.rs:29-33 | a non-empty string without exactly two `-` is rejected with the formatting error |
| Colour.ScanAppend | src/xlib/mod.rs:30 | base-16 reading goes digit by digit and stops at the first error |
| Colour.ScanLowerHex | src/xlib/mod.rs:30 | reading back lower-case hex digits gives the number |
| Colour.LeadingZero | src/xlib/mod.rs:30 | a leading `0` does not change the value read |
| Colour.HexDigit | src/xlib/mod.rs:44 | each digit `{:x}` writes reads back as its value |
| Colour.LowerHex | src/xlib/mod.rs:44 | `{:x}` writes one digit exactly for values below 16 |
| Colour.LowerHexDigits | src/xlib/mod.rs:44 | `{:x}` writes only hex digits |
| Colour.Hex02Reads | src/xlib/mod.rs:30-44 | `{:02x}` is two characters exactly for values below 256; it reads back with `from_str_radix(.., 16)` |
| Colour.HexRoundTrip | src/xlib/mod.rs:25-45 | `from_str` reads the three `{:02x}` fields that `hex` writes, joined by `-`, back as the same colour, whatever the size of the channels |
| Colour.HexLength | src/xlib/mod.rs:43-45 | `hex` starts with `#` and is seven characters long exactly when every channel is below 256 |
| Colour.Black | src/xlib/mod.rs:34-36 | the empty string is black, and black is `#000000` |
| Colour.EncodeBytes | src/xlib/mod.rs:39-41 | for byte channels, `encode` is `0xRRGGBB`: red in bits 16-23, green in bits 8-15, blue in bits 0-7 |
| Colour.EncodeInjective | src/xlib/mod.rs:39-41 | two colours with byte channels encode alike exactly when they are equal |
| Colour.ScaleFits | src/xlib/mod.rs:310-314 | `c as u16 * 257` stays within `u16` exactly when the low 16 bits of `c` are below 256 |
| Colour.ScaleRepeatsByte | src/xlib/mod.rs:310-314 | the widened channel repeats the byte in both halves, so 0 stays 0 and 0xFF becomes 0xFFFF |
| Colour.ScaleMonotone | src/xlib/mod.rs:310-314 | widening keeps the order of channel values |
| Decimal.DigitChar | src/escape/mod.rs:124 | a digit character and its value |
| Decimal.Show | src/terminal/mod.rs:448-450 | `format!("{}", n)` is a non-empty digit string, one digit long exactly when `n < 10`, with value below `10^length` |
| Decimal.ParseShow | src/escape/mod.rs:124 | `str::parse` reads back what `format!` wrote |
| Decimal.ParseAppend | src/escape/mod.rs:124 | reading two digit strings written side by side |
| Decimal.ShowLength | src/escape/mod.rs:124 | `format!` writes `n` in at most `k` digits exactly when `n < 10^k`, so the numeral carries no padding |
| Decimal.ShowInjective | src/terminal/mod.rs:448-450 | different numbers are written differently |
| Decimal.ShowInt | src/terminal/mod.rs:448 | `format!` of a signed value starts with `-` exactly when the value is negative, and the digits after the sign read back as its absolute value |
| Decimal.ShowIntInjective | src/terminal/mod.rs:448 | different signed values are written differently |
| TermModel.AllocArea | src/terminal/mod.rs:737-749 | `alloc_area` appends empty rows up to `y + height` when row `y` is missing and pads row `y` with blanks up to `x + width` when column `x` is missing; existing cells never change |
| TermModel.NextStop | src/terminal/mod.rs:176-181 | the first tab stop at or after a column: it is a stop, and no column between is one |
| TermModel.PrevStop | src/terminal/mod.rs:363-372 | the last tab stop at or before a column: it is a stop, and no column between is one |
| TermProps.PrintWrites | src/terminal/mod.rs:144-170 | `print` puts the character in the pen at the cursor and moves one column right; other rows are unchanged; in insert mode the rest of the row shifts right, otherwise only that cell changes |
| TermProps.ScrollUpShifts | src/terminal/mod.rs:184-187 | scrolling up removes the region's top row and inserts a blank row at its bottom; rows outside the region stay |
| TermProps.ScrollDownShifts | src/terminal/mod.rs:549-552 | scrolling down removes the region's bottom row and inserts a blank row at its top; rows outside the region stay |
| TermProps.ScrollDownUndoesUp | src/terminal/mod.rs:184-187 | scrolling up then down restores the screen, except the region's top row, which is now blank |
| TermProps.LineFeed | src/terminal/mod.rs:183-191 | LF, VT and FF move down one row above the region's bottom, and scroll the region up at or below it |
| TermProps.ReverseIndex | src/terminal/mod.rs:548-558 | ESC M moves up one row below the region's top, and scrolls the region down at or above it |
| TermProps.TabMovesToNextStop | src/terminal/mod.rs:176-182 | HT moves right to the next tab stop strictly after the cursor and changes nothing else |
| TermProps.BackspaceAndReturn | src/terminal/mod.rs:192-197 | BS moves one column left unless already at column 0; CR goes to column 0 |
| TermProps.InitialTabStops | src/terminal/mod.rs:671 | there are 400 initial tab stops, every 8 columns, so HT from column `x` goes to the next multiple of 8 |
| TermProps.BackTabUndoesTab | src/terminal/mod.rs:363-372 | from a tab stop, HT followed by CSI Z comes back to the same column |
| TermProps.BackTabMovesLeft | src/terminal/mod.rs:363-372 | CSI Z lands on a tab stop strictly left of the cursor |
| TermProps.TabStopEdits | src/terminal/mod.rs:289-295 | ESC H sets the stop at the cursor column and TBC 0 clears it, with the other stops unchanged; TBC 3 clears every stop |
| TermProps.ScrollOffset | src/terminal/mod.rs:309-318 | SU and SD change only the scroll offset, by the parameter or 1 when it is missing (an explicit 0 stays 0), and SD by `n` undoes SU by `n` |
| TermProps.IndexAndNextLine | src/terminal/mod.rs:539-568 | ESC D and ESC E move one row down and never scroll, even on the region's bottom row; ESC E also goes to column 0; above the bottom row ESC D is LF; under a `(` prefix both do nothing |
| TermProps.RelativeMotion | src/terminal/mod.rs:271-288 | CUU, CUD, CUF, CUB, CNL and CPL move by the first parameter (at least 1), never above row 0 or left of column 0, and CNL and CPL also go to column 0 |
| TermProps.ParameterDefaulting | src/terminal/mod.rs:262-308 | for the cursor motions, a missing parameter, 0 and 1 all mean 1 |
| TermProps.MotionReadsAmount | src/terminal/mod.rs:262-308 | the cursor motions depend on their parameters only through the defaulted amount and the row and column |
| TermProps.AbsoluteMotion | src/terminal/mod.rs:262-270 | CUP goes to the 1-based row and column; in origin mode the row counts from the region's top and is clamped into the region |
| TermProps.ClampIntoRegion | src/terminal/mod.rs:677-683 | `decom_clamp` puts the cursor row inside the scrolling region and changes nothing that is already inside |
| TermProps.OriginModeKeepsCursorInRegion | src/terminal/mod.rs:523-525 | after any CSI sequence in origin mode with a well-formed region, the cursor is inside the region |
| TermProps.SetMargins | src/terminal/mod.rs:504-514 | DECSTBM sets the region from its 1-based parameters, with the window height in rows as the default bottom, and homes the cursor (to the region's top row in origin mode); nothing else changes |
| TermProps.SaveRestore | src/terminal/mod.rs:463-464 | CSI s saves the cursor and CSI u restores it, from any row with origin mode off, and with it on from any row inside the region (where the clamp changes nothing) |
| TermProps.EraseInLine | src/terminal/mod.rs:245-261 | EL 0 truncates the row at the cursor, EL 1 blanks it up to and including the cursor, EL 2 empties it; other rows are unchanged |
| TermProps.EraseBelowCursor | src/terminal/mod.rs:218-230 | ED 0 keeps the rows above the cursor, blanks the cursor row from the cursor on, and drops the rows below |
| TermProps.EraseAboveCursor | src/terminal/mod.rs:231-240 | ED 1 blanks the rows above the cursor and the cursor row up to and including the cursor, and keeps the rest |
| TermProps.EraseWholeDisplay | src/terminal/mod.rs:241 | ED 2 and ED 3 empty the screen |
| TermProps.InsertCharacters | src/terminal/mod.rs:296-302 | ICH inserts `n` blanks at the cursor and shifts the rest of the row right |
| TermProps.DeleteCharacters | src/terminal/mod.rs:358-362 | DCH removes `n` characters at the cursor and shifts the rest of the row left |
| TermProps.EraseCharacters | src/terminal/mod.rs:351-357 | ECH blanks `n` characters from the cursor and keeps the row length |
| TermProps.InsertLinesGrows | src/terminal/mod.rs:319-337 | IL gives one row more per inserted line, row by row: the rows from the region's bottom up to, but not including, the last one are blank; every other row is the old row above the insertion point (the cursor row, or the region's top if lower), one of the `n` new blank rows, or the old row `n` places up; only the rows and the cursor column (now 0) change. With `n` = 0 the cursor row may lie past the last row, as the source allows |
| TermProps.DeleteLinesShrinks | src/terminal/mod.rs:338-350 | DL removes up to `n` rows at the cursor row (or the region's top), shifts the rows below up, and returns to column 0 |
| TermProps.SgrCodes | src/terminal/mod.rs:377-432 | SGR 0 resets the pen to the configured colours, 39 resets the foreground, 7 swaps the colours (twice is the identity), 1, 3 and 22 leave the pen alone, and a lone 38 or 48 makes the foreground or background `Color::new(0, 0, 0)` when Xft allocates it and changes nothing when it does not |
| TermProps.SgrDirectColour | src/terminal/mod.rs:404-430 | `38;2;r;g;b` sets the foreground and `48;2;r;g;b` the background to `Color::new(r, g, b)` exactly when the allocation succeeds (for channels that are not themselves active codes), and any mode other than 2 that SGR itself ignores, 5 included, leaves the pen alone |
| TermProps.SgrDirectColourQuirks | src/terminal/mod.rs:378-430 | because the loop reads the mode and the channels of a direct colour from places 1 to 4 of the whole list and then reads the channels again as codes: `48;2;0;0;0` ends with the default pen, a mode at place 1 other than 2 turns off a later 38, and `38;2;255;128;64` split after `38` gives black instead of (255, 128, 64) |
| TermProps.SgrPalette | src/terminal/mod.rs:433-436 | SGR 30-37 and 90-97 set the foreground from palette slot 0-7, and 40-47 and 100-107 set the background |
| TermProps.CanSgrCons | src/terminal/mod.rs:378-439 | an SGR list is safe exactly when each palette code names a slot the palette has |
| TermProps.SgrEachAppend | src/terminal/mod.rs:378-439 | the loop applies the codes one after another, each reading the same whole list, so the loop over `a + b` is the loop over `a` and then over `b`; the list is safe exactly when both halves are |
| TermProps.SgrEachBlind | src/terminal/mod.rs:378-439 | without a 38 or 48 that Xft allocates, no code depends on the rest of the list |
| TermProps.SgrAppend | src/terminal/mod.rs:378-439 | as long as no direct colour is allocated, a list of SGR codes acts as its two halves sent one after the other |
| TermProps.SgrResetForgets | src/terminal/mod.rs:380-385 | whatever came before, a trailing SGR 0 leaves the default pen |
| TermProps.ResetIsIdempotent | src/terminal/mod.rs:241 | ED 2 followed by SGR 0 gives an empty screen with the default pen, and repeating it changes nothing |
| TermProps.ModeSwitches | src/terminal/mod.rs:465-495 | SM and RM 4, 5 and 6 set and clear one mode each, 6 also homes the cursor, and RM with any other parameter clears every mode |
| TermProps.CursorStyleSelect | src/terminal/mod.rs:496-503 | DECSCUSR 2, 4 and 6 select the block, underline and bar cursor; any other value, a missing one included, keeps the style; only the style changes, and repeating the selection changes nothing; from any row with origin mode off, and with it on from any row inside the region |
| TermProps.ReadyReport | src/terminal/mod.rs:441-445 | DSR 5 replies `ESC [ 0 n` and changes nothing else, from any row with origin mode off, and with it on from any row inside the region |
| TermProps.CursorPositionReport | src/terminal/mod.rs:446-452 | DSR 6 replies `ESC [ row ; col R`, 1-based, from any row with origin mode off (a status line outside the region included), and with the row counted from the region's top in origin mode |
| TermProps.DeviceAttributesReply | src/terminal/mod.rs:456-462 | DA replies `ESC [ ? 6 c`, DA 14 replies `ESC [ > 1 ; 4000 ; 33 c`, and ESC Z replies like DA; nothing else changes, from any row with origin mode off, and with it on from any row inside the region |
| TermProps.AlignmentFill | src/terminal/mod.rs:581-586 | ESC 8 fills a screen of the window's size in rows and columns with `E` in the current pen and changes nothing else |
| TermProps.AutoScrollShowsCursor | src/terminal/mod.rs:979-990 | after `auto_scroll` the cursor row is within the visible window, only the scroll offset changes, and a second call does nothing |
| TermProps.HandleAppend | src/terminal/mod.rs:751-779 | handling `a + b` is handling `a` and then `b` |
| TermProps.HandleIsParseThenDispatch | src/terminal/mod.rs:751-779 | `handle_bytes` is the parser run over the bytes, followed by dispatching its actions in order |
| Terminal.InsertRows | src/terminal/mod.rs:328-330 | the loop of `buf.insert` puts `n` blank rows at the given index |
| Terminal.BlankRowRange | src/terminal/mod.rs:232-235 | the loop blanks the rows of a range and keeps the rest |
| Terminal.RemoveRows | src/terminal/mod.rs:342-347 | the loop of `buf.remove` deletes up to `n` rows at the given index |
| Terminal.BlankPrefix | src/terminal/mod.rs:236-238 | the loop over `0..x + 1` blanks the first cells of a row and keeps its length |
| Terminal.Terminal.constructor | src/terminal/mod.rs:605-675 | `Terminal::new`: the terminal, the parser and the decoder all start fresh |
| Terminal.Terminal.AllocArea | src/terminal/mod.rs:737-749 | the new state is `TermModel.AllocArea` of the old one |
| Terminal.Terminal.Print | src/terminal/mod.rs:144-170 | the new state is `TermModel.Print` of the old one |
| Terminal.Terminal.Execute | src/terminal/mod.rs:172-207 | the new state is `TermModel.Execute` of the old one; the HT loop ends at `TermModel.NextStop` |
| Terminal.Terminal.DecomClamp | src/terminal/mod.rs:677-683 | the new state is `TermModel.DecomClamp` of the old one |
| Terminal.Terminal.AutoScroll | src/terminal/mod.rs:979-990 | the new state is `TermModel.AutoScroll` of the old one |
| Terminal.Terminal.EraseDisplay | src/terminal/mod.rs:218-244 | the new state is ED of the old one, as in `TermModel.EraseDisplay` |
| Terminal.Terminal.EraseBelow | src/terminal/mod.rs:223-229 | ED 0 as in `TermModel.EraseDisplay` |
| Terminal.Terminal.EraseAbove | src/terminal/mod.rs:231-239 | ED 1 as in `TermModel.EraseDisplay` |
| Terminal.Terminal.EraseLine | src/terminal/mod.rs:245-261 | the new state is `TermModel.EraseLine` of the old one |
| Terminal.Terminal.ClearTabs | src/terminal/mod.rs:289-295 | the new state is `TermModel.ClearTabs` of the old one |
| Terminal.Terminal.InsertBlanks | src/terminal/mod.rs:296-302 | the new state is `TermModel.InsertBlanks` of the old one |
| Terminal.Terminal.EraseChars | src/terminal/mod.rs:351-357 | the new state is `TermModel.EraseChars` of the old one |
| Terminal.Terminal.DeleteChars | src/terminal/mod.rs:358-362 | the new state is `TermModel.DeleteChars` of the old one |
| Terminal.Terminal.InsertLines | src/terminal/mod.rs:319-337 | the new state is `TermModel.InsertLines` of the old one |
| Terminal.Terminal.DeleteLines | src/terminal/mod.rs:338-350 | the new state is `TermModel.DeleteLines` of the old one |
| Terminal.Terminal.BackTab | src/terminal/mod.rs:363-372 | only the cursor column changes, to `TermModel.BackTab` of the old column |
| Terminal.Terminal.Sgr | src/terminal/mod.rs:377-440 | the new pen is `TermModel.Sgr` of the old pen |
| Terminal.Terminal.CsiDispatch | src/terminal/mod.rs:209-528 | the new state is `TermModel.Csi` of the old one |
| Terminal.Terminal.SetPosition | src/terminal/mod.rs:262-270 | the new state is `TermModel.CursorPosition` of the old one |
| Terminal.Terminal.Report | src/terminal/mod.rs:441-455 | the new state is `TermModel.StatusReport` of the old one |
| Terminal.Terminal.Identify | src/terminal/mod.rs:456-462 | the new state is `TermModel.DeviceAttributes` of the old one |
| Terminal.Terminal.SetMode | src/terminal/mod.rs:465-483 | the new state is `TermModel.SetMode` of the old one |
| Terminal.Terminal.ResetMode | src/terminal/mod.rs:484-495 | the new state is `TermModel.ResetMode` of the old one |
| Terminal.Terminal.SetStyle | src/terminal/mod.rs:496-503 | the new cursor style is `TermModel.CursorShape` of the parameter |
| Terminal.Terminal.SetRegion | src/terminal/mod.rs:504-514 | the new state is `TermModel.SetRegion` of the old one |
| Terminal.Terminal.EscDispatch | src/terminal/mod.rs:530-601 | the new state is `TermModel.Esc` of the old one |
| Terminal.Terminal.Dispatch | src/terminal/mod.rs:758-772 | the new state is `TermModel.Dispatch` of the old one for one parser action |
| Terminal.Terminal.HandleBytes | src/terminal/mod.rs:751-779 | the parser, its decoder and the terminal end in `TermModel.HandleBytes` of where they started |

The model does what the code does. Where that departs from the
conventions a terminal usually follows, the convention is named:

- The final byte ranges are half-open (`0x40..0x7e`, `0x30..0x7e`), so `~`
  (0x7E) neither ends a CSI nor an ESC sequence, although ECMA-48 counts it
  as a final byte.
- 0x1F is printed rather than executed, although ECMA-48 puts it among the
  C0 control characters 0x00 to 0x1F.
- An invalid UTF-8 sequence is dropped. The usual convention, described in
  chapter 3 of the Unicode Standard, replaces it with U+FFFD.
- `<`, `=` and `>` are parameter digits 12 to 14 and extend a parameter by
  two decimal places, and `?` is ignored. ECMA-48 reserves 0x3C to 0x3F as
  private parameter markers, not digits.
- The initial scrolling region's bottom is the row count itself, not the
  last row. The VT100 default for DECSTBM's bottom margin is the last row.
- RM with a parameter other than 4, 5 or 6 clears all modes. ECMA-48 leaves
  the modes a sequence does not name unchanged.
- ESC 8 without an intermediate byte fills the screen with `E`, because a
  missing intermediate defaults to `q`. On a VT100, ESC 8 is DECRC (restore
  cursor), and only ESC # 8 is DECALN (the `E` fill).
- `reset` keeps the OSC payload, so it carries over into the next OSC
  sequence. An OSC command string in ECMA-48 ends with its terminator.
- A direct colour `38;2;r;g;b` does not skip its four parameters: the loop
  reads `2`, `r`, `g` and `b` again as SGR codes, so `48;2;0;0;0` ends with
  the default pen. Its mode and channels are read from places 1 to 4 of the
  whole list rather than after the 38 or 48. ITU-T T.416, where these
  parameters come from, reads them from the parameters that follow.
- IL removes no rows, so the buffer grows by `n` rows. It inserts the blank
  rows, then blanks every row from the region's bottom up to, but not
  including, the last row of the buffer. The last row keeps its contents.
  In the VT510 description of IL, lines pushed past the bottom margin are
  lost.

## Left out

- The bell (BEL, 0x07): playing a sound is I/O, so the model treats it as a no-op.
- X11 drawing, fonts, window and keyboard events, and selection are outside the byte path.
- Replies to the pty are appended to `replies` rather than written. The error a failed write would return is not modelled.
- SGR 38 and 48 (direct colour) allocate a colour through Xft, which is a foreign call. Whether it succeeds is the input `Config.allocates`, the same for every colour; the allocated `xft` handle is not modelled, since `UniColor` compares by its raw colour. The call in src/terminal/mod.rs:413 is `xft_color_alloc_name`, which src/xlib/mod.rs does not define (it has `xft_color_alloc_value`), so the model assumes the call's outcome rather than following a body.
- TermProps.SgrAppend holds only when no direct colour is allocated (`ListBlind`): 38 and 48 read places 1 to 4 of the whole list, so a list split after a 38 acts differently, as `TermProps.SgrDirectColourQuirks` shows. `TermProps.SgrEachAppend` is the split property that holds for every list.
- TermProps.SgrDirectColour states the colour only for channels that SGR ignores as codes of their own, because the loop reads every channel again as a code.
- OSC dispatch does nothing in the terminal, and the model does the same.
- The configuration (palette, default colours) and the window size are a `Config` parameter. Loading them from X resources is not modelled.
- The `refresh` flag and the debug `println!` output are not modelled, because neither changes the terminal state.
- Positions and the scroll offset are unbounded integers. The `i32` overflow the source could reach on very long input is not modelled.
- Indexing past the end of a row or a tab-stop vector, a `usize` subtraction below zero, and `char::from_u32(..).unwrap()` on a non-scalar value are panics in the source. They are preconditions here (the `Can…` predicates).
- The window size is a `nat`. The default bottom margin of DECSTBM applies `u16` truncation (`% 0x10000`) as the source's `as u16` cast does.
- Colour.Encode wraps on `u64`. The source's `+` panics on overflow in a debug build, and the model does not distinguish debug from release.
- Colour.Scale16 requires the product to fit in `u16`. The source's `*` overflows otherwise.
- Colour.FromStrRadix16 distinguishes the errors empty, invalid digit and overflow, but does not carry Rust's message text.
- Scrollback: CSI S and CSI T only change the scroll offset, as in the source.
