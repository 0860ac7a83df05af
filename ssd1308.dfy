/**
 * The SSD1308 OLED driver: every operation is a fixed stream of I2C register
 * writes, each either a command (register LCD_CMD) or display data
 * (register LCD_DATA).
 *
 * The I2C device is modelled by the write log `log` of the display object:
 * each register write appends one entry. Whether the bus reports a write as
 * failed is fixed by the set `faults` of write ordinals that fail. The
 * 96-glyph, 8-byte-per-glyph font table is a parameter of the object.
 * Command values follow the SSD1308 datasheet.
 */
module Ssd1308Display {

  import DivMod

  newtype byte = x: int | 0 <= x < 256

  /** The register of a register write: command (LCD_CMD) or display data (LCD_DATA). */
  datatype Reg = Cmd | Data

  /** One I2C register write. */
  datatype RegWrite = RegWrite(reg: Reg, value: byte)

  /** The outcome the bus reports for a write (mraa::Result, reduced to success or failure). */
  datatype Status = Success | Failure

  /** The memory addressing modes of the controller (displayAddressingMode). */
  datatype AddressingMode = Horizontal | Vertical | Page

  /** The parameter byte of the "set memory addressing mode" command. */
  function ModeValue(mode: AddressingMode): byte {
    match mode
    case Horizontal => 0
    case Vertical => 1
    case Page => 2
  }

  const DisplayOff: byte := 0xAE
  const DisplayOn: byte := 0xAF
  const NormalDisplay: byte := 0xA6
  const MemAddrMode: byte := 0x20
  const BasePageStart: byte := 0xB0
  const BaseLowColumn: byte := 0x00
  const BaseHighColumn: byte := 0x10

  /** The first and last characters the font has a glyph for. */
  const FirstPrintable: byte := 0x20
  const LastPrintable: byte := 0x7F
  const Space: byte := 0x20
  const GlyphCount := 96
  const GlyphWidth := 8
  /** Text rows (pages) and 8-pixel character columns of the display. */
  const Rows := 8
  const Columns := 16

  /** A font table: one row of 8 column bytes per printable character. */
  type Font = f: seq<seq<byte>> | |f| == GlyphCount && forall i :: 0 <= i < |f| ==> |f[i]| == GlyphWidth
    witness seq(GlyphCount, _ => seq(GlyphWidth, _ => 0 as byte))

  /** Conversion of an integer to `uint8_t`: reduction modulo 256. */
  function Truncate(x: int): byte {
    (x % 256) as byte
  }

  /** The character actually drawn for `value`: itself when printable, else a space. */
  function Clamp(value: byte): (c: byte)
    ensures FirstPrintable <= c <= LastPrintable
    ensures c == value <==> FirstPrintable <= value <= LastPrintable
    ensures c != value ==> c == Space
  {
    if value < FirstPrintable || value > LastPrintable then Space else value
  }

  /** The font row used to draw `value`. */
  function GlyphRow(value: byte): (k: int)
    ensures 0 <= k < GlyphCount
    ensures k + FirstPrintable as int == Clamp(value) as int
  {
    Clamp(value) as int - 32
  }

  /** The low nibble of the pixel column of character column `column`: `(8 * column) & 0x0F`. */
  function LowColumnNibble(column: int): (n: int)
    ensures n == if column % 2 == 0 then 0 else 8
  {
    DivMod.Unique(8 * column, 16, column / 2, 8 * (column % 2));
    (8 * column) % 16
  }

  /** The high nibble of the pixel column of character column `column`: `((8 * column) >> 4) & 0x0F`. */
  function HighColumnNibble(column: int): (n: int)
    ensures 0 <= n < 16
    ensures n == (column / 2) % 16
  {
    DivMod.Unique(8 * column, 16, column / 2, 8 * (column % 2));
    ((8 * column) / 16) % 16
  }

  /** The two nibbles together give the pixel column 8 * column, modulo 256. */
  lemma ColumnNibbles(column: int)
    ensures 16 * HighColumnNibble(column) + LowColumnNibble(column) == (8 * column) % 256
  {
    var h := column / 2;
    DivMod.Unique(8 * column, 16, h, 8 * (column % 2));
    DivMod.Unique(8 * column, 256, h / 16, 16 * (h % 16) + 8 * (column % 2));
  }

  /** Register writes of `bytes` to display RAM, in order. */
  function DataWrites(bytes: seq<byte>): (w: seq<RegWrite>)
    ensures |w| == |bytes|
  {
    seq(|bytes|, i requires 0 <= i < |bytes| => RegWrite(Data, bytes[i]))
  }

  /** The bytes a sequence of writes carries. */
  function Payload(w: seq<RegWrite>): (bytes: seq<byte>)
    ensures |bytes| == |w|
  {
    seq(|w|, i requires 0 <= i < |w| => w[i].value)
  }

  /** Data writes carry exactly the bytes they were made from, and nothing else but data. */
  lemma DataWritesRoundTrip(bytes: seq<byte>)
    ensures Payload(DataWrites(bytes)) == bytes
    ensures forall i :: 0 <= i < |bytes| ==> DataWrites(bytes)[i].reg == Data
  {
  }

  /** The three commands that move the cursor to `row` and character column `column`. */
  function CursorWrites(row: int, column: int): (w: seq<RegWrite>)
    ensures |w| == 3
  {
    [ RegWrite(Cmd, Truncate(BasePageStart as int + row)),
      RegWrite(Cmd, Truncate(BaseLowColumn as int + LowColumnNibble(column))),
      RegWrite(Cmd, Truncate(BaseHighColumn as int + HighColumnNibble(column))) ]
  }

  /**
   * On the display, the cursor commands select page `row` and the pixel
   * column 8 * column of character column `column`.
   */
  lemma CursorAddress(row: int, column: int)
    requires 0 <= row < Rows && 0 <= column < Columns
    ensures var w := CursorWrites(row, column);
            && w[0] == RegWrite(Cmd, BasePageStart + row as byte)
            && w[1].value - BaseLowColumn < 16 && w[2].value - BaseHighColumn < 16
            && 16 * (w[2].value - BaseHighColumn) as int + (w[1].value - BaseLowColumn) as int == 8 * column
  {
    ColumnNibbles(column);
  }

  /** The two commands that select addressing mode `mode`. */
  function ModeWrites(mode: AddressingMode): (w: seq<RegWrite>)
    ensures |w| == 2
  {
    [RegWrite(Cmd, MemAddrMode), RegWrite(Cmd, ModeValue(mode))]
  }

  /** The eight data writes that draw the glyph of `value`. */
  function GlyphWrites(font: Font, value: byte): (w: seq<RegWrite>)
    ensures |w| == GlyphWidth
  {
    DataWrites(font[GlyphRow(value)])
  }

  /** A character the font has no glyph for is drawn as a space. */
  lemma UnprintableIsSpace(font: Font, value: byte)
    requires value < FirstPrintable || value > LastPrintable
    ensures GlyphWrites(font, value) == GlyphWrites(font, Space)
  {
  }

  /** The glyphs of the characters of `msg`, in order. */
  function Glyphs(font: Font, msg: seq<byte>): seq<RegWrite> {
    if msg == [] then []
    else Glyphs(font, msg[..|msg| - 1]) + GlyphWrites(font, msg[|msg| - 1])
  }

  /** Byte `j` of the glyph of character `k` of `msg` is write 8 * k + j of its glyphs. */
  lemma {:induction false} GlyphsAt(font: Font, msg: seq<byte>, k: int, j: int)
    requires 0 <= k < |msg| && 0 <= j < GlyphWidth
    ensures |Glyphs(font, msg)| == GlyphWidth * |msg|
    ensures Glyphs(font, msg)[GlyphWidth * k + j] == RegWrite(Data, font[GlyphRow(msg[k])][j])
  {
    var init := msg[..|msg| - 1];
    if k < |msg| - 1 {
      GlyphsAt(font, init, k, j);
    } else if init != [] {
      GlyphsAt(font, init, 0, 0);
    }
  }

  /** The glyphs of a message are 8 data writes per character. */
  lemma {:induction false} GlyphsLength(font: Font, msg: seq<byte>)
    ensures |Glyphs(font, msg)| == GlyphWidth * |msg|
    ensures forall i :: 0 <= i < |Glyphs(font, msg)| ==> Glyphs(font, msg)[i].reg == Data
  {
    if msg != [] {
      GlyphsLength(font, msg[..|msg| - 1]);
    }
  }

  /** `n` spaces. */
  function Spaces(n: nat): (s: seq<byte>)
    ensures |s| == n
  {
    seq(n, _ => Space)
  }

  /** The writes with which `clear` blanks rows 0 .. n - 1. */
  function ClearRows(font: Font, n: nat): seq<RegWrite> {
    if n == 0 then []
    else ClearRows(font, n - 1) + CursorWrites(n - 1, 0) + Glyphs(font, Spaces(Columns))
  }

  /** The writes of `clear`. */
  function ClearWrites(font: Font): seq<RegWrite> {
    [RegWrite(Cmd, DisplayOff)] + ClearRows(font, Rows) + [RegWrite(Cmd, DisplayOn)] + CursorWrites(0, 0)
  }

  /** The writes of the constructor. */
  function InitWrites(font: Font): seq<RegWrite> {
    [RegWrite(Cmd, DisplayOff), RegWrite(Cmd, DisplayOn), RegWrite(Cmd, NormalDisplay)]
    + ClearWrites(font) + ModeWrites(Page)
  }

  /** The length of the writes of one blanked row. */
  const ClearRowLength := 3 + GlyphWidth * Columns

  /**
   * Row `r` of `clear` is a cursor move to row `r`, column 0, followed by
   * 16 space glyphs.
   */
  lemma {:induction false} ClearRowsLength(font: Font, n: nat)
    ensures |ClearRows(font, n)| == ClearRowLength * n
  {
    if n > 0 {
      ClearRowsLength(font, n - 1);
      GlyphsLength(font, Spaces(Columns));
    }
  }

  lemma {:induction false} ClearRowsAt(font: Font, n: nat, r: nat)
    requires r < n
    ensures |ClearRows(font, n)| == ClearRowLength * n
    ensures ClearRows(font, n)[ClearRowLength * r .. ClearRowLength * (r + 1)]
            == CursorWrites(r, 0) + Glyphs(font, Spaces(Columns))
  {
    ClearRowsLength(font, n);
    ClearRowsLength(font, n - 1);
    var init, last := ClearRows(font, n - 1), CursorWrites(n - 1, 0) + Glyphs(font, Spaces(Columns));
    assert ClearRows(font, n) == init + last;
    var lo, hi := ClearRowLength * r, ClearRowLength * (r + 1);
    if r < n - 1 {
      ClearRowsAt(font, n - 1, r);
      assert hi <= |init|;
      assert (init + last)[lo..hi] == init[lo..hi];
    } else {
      assert lo == |init| && hi == |init + last|;
      assert (init + last)[lo..hi] == last;
    }
  }

  /** `clear` makes 1 + 8 * 131 + 1 + 3 register writes. */
  lemma ClearLength(font: Font)
    ensures |ClearWrites(font)| == 2 + ClearRowLength * Rows + 3
  {
    ClearRowsLength(font, Rows);
  }

  /** Only bytes of the space glyph are written to display RAM by `clear`. */
  lemma ClearDrawsOnlySpaces(font: Font)
    ensures forall i :: 0 <= i < |ClearWrites(font)| && ClearWrites(font)[i].reg == Data
              ==> ClearWrites(font)[i].value in font[GlyphRow(Space)]
  {
    ClearRowsBlank(font, Rows);
  }

  lemma {:induction false} ClearRowsBlank(font: Font, n: nat)
    ensures forall i :: 0 <= i < |ClearRows(font, n)| && ClearRows(font, n)[i].reg == Data
              ==> ClearRows(font, n)[i].value in font[GlyphRow(Space)]
  {
    if n > 0 {
      ClearRowsBlank(font, n - 1);
      SpacesBlank(font, Columns);
    }
  }

  lemma {:induction false} SpacesBlank(font: Font, n: nat)
    ensures forall i :: 0 <= i < |Glyphs(font, Spaces(n))| ==> Glyphs(font, Spaces(n))[i].value in font[GlyphRow(Space)]
  {
    if n > 0 {
      assert Spaces(n)[..n - 1] == Spaces(n - 1);
      SpacesBlank(font, n - 1);
    }
  }

  class SSD1308 {
    const bus: int
    const address: int
    /** The glyph table (BasicFont). */
    const font: Font
    /** Ordinals (positions in the log) of the writes that the bus reports as failed. */
    const faults: set<nat>
    /** Every register write sent to the controller, oldest first. */
    var log: seq<RegWrite>

    /** What the bus reports for the write at position `k` of the log. */
    function StatusOf(k: nat): Status {
      if k in faults then Failure else Success
    }

    /** Opens the display at `address` on `bus` and puts it in a known, blank state. */
    constructor (bus: int, address: int, font: Font, faults: set<nat>)
      ensures this.bus == bus && this.address == address
      ensures this.font == font && this.faults == faults
      ensures log == InitWrites(font)
    {
      this.bus, this.address := bus, address;
      this.font, this.faults := font, faults;
      log := [];
      new;
      var st := WriteReg(Cmd, DisplayOff);
      st := WriteReg(Cmd, DisplayOn);
      st := SetNormalDisplay();
      st := Clear();
      st := SetAddressingMode(Page);
    }

    /** One register write on the bus. */
    method WriteReg(reg: Reg, value: byte) returns (st: Status)
      modifies this`log
      ensures log == old(log) + [RegWrite(reg, value)]
      ensures st == StatusOf(|old(log)|)
    {
      st := StatusOf(|log|);
      log := log + [RegWrite(reg, value)];
    }

    /**
     * Writes the first `bytes` bytes of `data` to display RAM in horizontal
     * addressing mode.
     */
    method Draw(data: array<byte>, bytes: int) returns (error: Status)
      requires bytes <= data.Length
      modifies this`log
      ensures log == old(log) + ModeWrites(Horizontal) + DataWrites(data[..if bytes > 0 then bytes else 0])
      ensures error == Success
    {
      error := Success;
      var st := SetAddressingMode(Horizontal);
      var idx := 0;
      while idx < bytes
        invariant 0 <= idx <= (if bytes > 0 then bytes else 0)
        invariant log == old(log) + ModeWrites(Horizontal) + DataWrites(data[..idx])
      {
        st := WriteReg(Data, data[idx]);
        assert DataWrites(data[..idx + 1]) == DataWrites(data[..idx]) + [RegWrite(Data, data[idx])];
        idx := idx + 1;
      }
    }

    /** Writes the characters of `msg` at the cursor, in page addressing mode. */
    method Write(msg: seq<byte>) returns (st: Status)
      modifies this`log
      ensures log == old(log) + ModeWrites(Page) + Glyphs(font, msg)
      ensures st == Success
    {
      var rv := SetAddressingMode(Page);
      var i := 0;
      while i < |msg|
        invariant 0 <= i <= |msg|
        invariant log == old(log) + ModeWrites(Page) + Glyphs(font, msg[..i])
      {
        rv := WriteChar(msg[i]);
        assert msg[..i + 1][..i] == msg[..i];
        i := i + 1;
      }
      assert msg[..i] == msg;
      st := Success;
    }

    /**
     * Moves the cursor to page `row` and character column `column`; the
     * result is what the bus reported for the last of the three commands.
     */
    method SetCursor(row: int, column: int) returns (error: Status)
      modifies this`log
      ensures log == old(log) + CursorWrites(row, column)
      ensures error == StatusOf(|old(log)| + 2)
    {
      error := WriteReg(Cmd, Truncate(BasePageStart as int + row));
      error := WriteReg(Cmd, Truncate(BaseLowColumn as int + LowColumnNibble(column)));
      error := WriteReg(Cmd, Truncate(BaseHighColumn as int + HighColumnNibble(column)));
    }

    /** Blanks all 8 rows with spaces, with the display switched off meanwhile, and homes the cursor. */
    method Clear() returns (st: Status)
      modifies this`log
      ensures log == old(log) + ClearWrites(font)
      ensures st == Success
    {
      var rv := WriteReg(Cmd, DisplayOff);
      var rowIdx := 0;
      while rowIdx < Rows
        invariant 0 <= rowIdx <= Rows
        invariant log == old(log) + [RegWrite(Cmd, DisplayOff)] + ClearRows(font, rowIdx)
      {
        rv := SetCursor(rowIdx, 0);
        var columnIdx := 0;
        while columnIdx < Columns
          invariant 0 <= columnIdx <= Columns
          invariant log == old(log) + [RegWrite(Cmd, DisplayOff)] + ClearRows(font, rowIdx)
                           + CursorWrites(rowIdx, 0) + Glyphs(font, Spaces(columnIdx))
        {
          rv := WriteChar(Space);
          assert Spaces(columnIdx + 1)[..columnIdx] == Spaces(columnIdx);
          columnIdx := columnIdx + 1;
        }
        rowIdx := rowIdx + 1;
      }
      rv := WriteReg(Cmd, DisplayOn);
      rv := Home();
      st := Success;
    }

    /** Moves the cursor to row 0, column 0. */
    method Home() returns (st: Status)
      modifies this`log
      ensures log == old(log) + CursorWrites(0, 0)
      ensures st == StatusOf(|old(log)| + 2)
    {
      st := SetCursor(0, 0);
    }

    /**
     * Draws the glyph of `value` (a space for a character the font lacks);
     * the result is what the bus reported for the last of its 8 writes.
     */
    method WriteChar(value: byte) returns (rv: Status)
      modifies this`log
      ensures log == old(log) + GlyphWrites(font, value)
      ensures rv == StatusOf(|old(log)| + GlyphWidth - 1)
    {
      var v := value;
      if v < FirstPrintable || v > LastPrintable {
        v := Space;
      }
      assert v == Clamp(value);
      var glyph := font[(v - 32) as int];
      rv := Success;
      var idx := 0;
      while idx < GlyphWidth
        invariant 0 <= idx <= GlyphWidth
        invariant log == old(log) + DataWrites(glyph[..idx])
        invariant idx > 0 ==> rv == StatusOf(|old(log)| + idx - 1)
      {
        rv := WriteReg(Data, glyph[idx]);
        assert DataWrites(glyph[..idx + 1]) == DataWrites(glyph[..idx]) + [RegWrite(Data, glyph[idx])];
        idx := idx + 1;
      }
      assert glyph[..idx] == glyph;
    }

    /** Selects normal (not inverted) display. */
    method SetNormalDisplay() returns (st: Status)
      modifies this`log
      ensures log == old(log) + [RegWrite(Cmd, NormalDisplay)]
      ensures st == StatusOf(|old(log)|)
    {
      st := WriteReg(Cmd, NormalDisplay);
    }

    /**
     * Selects memory addressing mode `mode`; the result is what the bus
     * reported for the second of its two commands.
     */
    method SetAddressingMode(mode: AddressingMode) returns (rv: Status)
      modifies this`log
      ensures log == old(log) + ModeWrites(mode)
      ensures rv == StatusOf(|old(log)| + 1)
    {
      rv := WriteReg(Cmd, MemAddrMode);
      rv := WriteReg(Cmd, ModeValue(mode));
    }
  }
}
