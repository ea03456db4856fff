/**
 * The on-screen display as a value: a register block shared with the
 * FPGA overlay (the show bit, the size and position of the character
 * grid, a 1624-cell text buffer and a per-scanline palette) together with
 * the cached grid width and height the library keeps for addressing cells.
 *
 * Each operation is a function on OsdState; the properties of the
 * operations are lemmas about those functions. The class Osd.Overlay
 * performs the same operations in place.
 */
module OsdModel {

  type byte = x: int | 0 <= x < 0x100
  type u16 = x: int | 0 <= x < 0x1_0000

  /** Number of cells of the text buffer. */
  const TEXT_CELLS: int := 1624
  /** Number of scanline rows of the palette. */
  const MAX_SCANLINES: int := 192
  /** Bytes per palette row: 8 colours of 3 components. */
  const PALETTE_ROW: int := 24

  /** C int arguments. */
  predicate Int32(x: int)
  {
    -0x8000_0000 <= x < 0x8000_0000
  }

  /** Conversion of an int to a uint16_t register field: modulo 2^16. */
  function ToU16(x: int): u16
  {
    x % 0x1_0000
  }

  // ---------------------------------------------------------------------------
  // Text cells
  // ---------------------------------------------------------------------------

  /**
   * A text cell: character code in bits 0-7, foreground colour in bits
   * 8-10, background colour in bits 11-13. `& 255` and `& 7` on a two's
   * complement int are the Euclidean remainders below; the fields occupy
   * disjoint bits, so osd_putchar's `|` of the shifted fields is the sum.
   */
  function Cell(ch: int, fg: int, bg: int): (r: u16)
    ensures r < 0x4000
  {
    ch % 256 + 256 * (fg % 8) + 2048 * (bg % 8)
  }

  function CellChar(cell: int): int { cell % 256 }
  function CellFg(cell: int): int { cell / 256 % 8 }
  function CellBg(cell: int): int { cell / 2048 % 8 }

  /** Decoding a cell gives back its three fields. */
  lemma CellRoundTrip(ch: int, fg: int, bg: int)
    ensures CellChar(Cell(ch, fg, bg)) == ch % 256
    ensures CellFg(Cell(ch, fg, bg)) == fg % 8
    ensures CellBg(Cell(ch, fg, bg)) == bg % 8
  {
    var c, f, b := ch % 256, fg % 8, bg % 8;
    var cell := Cell(ch, fg, bg);
    assert cell == c + 256 * (f + 8 * b);
    assert cell / 256 == f + 8 * b;
    assert cell / 2048 == b;
  }

  /** Every cell the library can write is the encoding of its own fields. */
  lemma CellOfFields(cell: int)
    requires 0 <= cell < 0x4000
    ensures Cell(CellChar(cell), CellFg(cell), CellBg(cell)) == cell
  {
    var q := cell / 256;
    assert cell == CellChar(cell) + 256 * q;
    assert q == CellFg(cell) + 8 * CellBg(cell);
  }

  /** The cell osd_clear writes: a space on colour `bgc`. */
  function Blank(bgc: int): u16
  {
    Cell(' ' as int, 0, bgc)
  }

  /** strlen: the bytes before the first NUL. */
  function Strlen(s: seq<byte>): (n: nat)
    requires 0 in s
    ensures n < |s| && s[n] == 0
    ensures forall i :: 0 <= i < n ==> s[i] != 0
  {
    if s[0] == 0 then 0 else 1 + Strlen(s[1..])
  }

  // ---------------------------------------------------------------------------
  // The state and the operations as functions
  // ---------------------------------------------------------------------------

  /**
   * The library's state: whether the register block is mapped, the
   * registers, and the cached width and height.
   */
  datatype OsdState = OsdState(
    mapped: bool,
    show: bool,
    xchars: u16, ychars: u16,
    xpos: u16, ypos: u16,
    cachedX: int, cachedY: int,
    text: seq<u16>,
    palette: seq<seq<byte>>)

  /** The buffer sizes, and a cached grid that fits the text buffer. */
  predicate Valid(s: OsdState)
  {
    && |s.text| == TEXT_CELLS
    && |s.palette| == MAX_SCANLINES
    && (forall i :: 0 <= i < |s.palette| ==> |s.palette[i]| == PALETTE_ROW)
    && s.cachedX * s.cachedY <= TEXT_CELLS
  }

  /** The outcome of osd_init: the new state and the status code. */
  datatype InitResult = InitResult(state: OsdState, status: int)

  /**
   * osd_init: 0 when already mapped (without mapping again), 1 when the
   * mapping fails, otherwise 0 with the block mapped. `mapOk` says whether
   * the mapping succeeds.
   */
  function Init(s: OsdState, mapOk: bool): (r: InitResult)
    ensures r.status == 0 || r.status == 1
    ensures r.status == 0 <==> r.state.mapped
    ensures r.state.(mapped := s.mapped) == s
    ensures s.mapped ==> r.status == 0
    ensures !s.mapped ==> (r.state.mapped <==> mapOk)
  {
    if s.mapped then InitResult(s, 0)
    else if !mapOk then InitResult(s, 1)
    else InitResult(s.(mapped := true), 0)
  }

  /** The product osd_set_size computes does not overflow an int. */
  predicate SetSizeDefined(s: OsdState, x: int, y: int)
  {
    Int32(x) && Int32(y) && (s.mapped ==> Int32(x * y))
  }

  /**
   * osd_set_size: a grid of more than TEXT_CELLS cells is refused and
   * nothing changes; otherwise the device registers take the sizes
   * truncated to 16 bits and the cache takes them as given.
   */
  function SetSize(s: OsdState, x: int, y: int): (r: OsdState)
    requires SetSizeDefined(s, x, y)
    ensures Valid(s) ==> Valid(r)
    ensures r.(xchars := s.xchars, ychars := s.ychars, cachedX := s.cachedX, cachedY := s.cachedY) == s
  {
    if !s.mapped || x * y > TEXT_CELLS then s
    else s.(xchars := ToU16(x), ychars := ToU16(y), cachedX := x, cachedY := y)
  }

  /** osd_set_position: both coordinates truncated to 16 bits. */
  function SetPosition(s: OsdState, x: int, y: int): (r: OsdState)
    ensures r.(xpos := s.xpos, ypos := s.ypos) == s
    ensures s.mapped ==> r.xpos == x % 0x1_0000 && r.ypos == y % 0x1_0000
  {
    if !s.mapped then s else s.(xpos := ToU16(x), ypos := ToU16(y))
  }

  function Show(s: OsdState): (r: OsdState)
    ensures r.(show := s.show) == s
    ensures s.mapped ==> r.show
  {
    if !s.mapped then s else s.(show := true)
  }

  function Hide(s: OsdState): (r: OsdState)
    ensures r.(show := s.show) == s
    ensures s.mapped ==> !r.show
  {
    if !s.mapped then s else s.(show := false)
  }

  /** `t` with its first `n` cells replaced by `v`. */
  function Fill(t: seq<u16>, n: int, v: u16): seq<u16>
  {
    seq(|t|, i requires 0 <= i < |t| => if i < n then v else t[i])
  }

  /** `t` with the cells from `base` on replaced by the bytes of `str` in colours fgc on bgc. */
  function Write(t: seq<u16>, base: int, str: seq<byte>, fgc: int, bgc: int): seq<u16>
  {
    seq(|t|, i requires 0 <= i < |t| => WrittenCell(t, base, str, fgc, bgc, i))
  }

  function WrittenCell(t: seq<u16>, base: int, str: seq<byte>, fgc: int, bgc: int, i: int): u16
    requires 0 <= i < |t|
  {
    if base <= i < base + |str| then Cell(str[i - base], fgc, bgc) else t[i]
  }

  /** osd_clear: the first cachedX * cachedY cells become blanks on `bgc`. */
  function Clear(s: OsdState, bgc: int): (r: OsdState)
    ensures r.(text := s.text) == s
    ensures |r.text| == |s.text|
  {
    if !s.mapped then s
    else
      s.(text := Fill(s.text, s.cachedX * s.cachedY, Blank(bgc)))
  }

  /** The cell osd_text and osd_putchar address: row `y`, column `x`. */
  function CellIndex(s: OsdState, x: int, y: int): int
  {
    y * s.cachedX + x
  }

  /** The cells osd_text writes lie in the text buffer (osd_text does not check). */
  predicate TextFits(s: OsdState, str: seq<byte>, x: int, y: int)
    requires 0 in str
  {
    s.mapped && Strlen(str) > 0 ==>
      0 <= CellIndex(s, x, y) && CellIndex(s, x, y) + Strlen(str) <= |s.text|
  }

  /** osd_text: the string from cell (x, y) on, in colours fgc on bgc. */
  function Text(s: OsdState, str: seq<byte>, x: int, y: int, fgc: int, bgc: int): (r: OsdState)
    requires 0 in str && TextFits(s, str, x, y)
    ensures r.(text := s.text) == s
    ensures |r.text| == |s.text|
  {
    if !s.mapped then s
    else
      s.(text := Write(s.text, CellIndex(s, x, y), str[..Strlen(str)], fgc, bgc))
  }

  /** The cell osd_putchar writes lies in the text buffer (osd_putchar does not check). */
  predicate PutCharFits(s: OsdState, x: int, y: int)
  {
    s.mapped ==> 0 <= CellIndex(s, x, y) < |s.text|
  }

  /** osd_putchar: one cell, character c & 255 in colours fgc on bgc. */
  function PutChar(s: OsdState, c: int, x: int, y: int, fgc: int, bgc: int): (r: OsdState)
    requires PutCharFits(s, x, y)
    ensures r.(text := s.text) == s
    ensures |r.text| == |s.text|
  {
    if !s.mapped then s
    else s.(text := s.text[CellIndex(s, x, y) := Cell(c, fgc, bgc)])
  }

  /** osd_set_palette_all: every scanline gets the same 24 bytes. */
  function SetPaletteAll(s: OsdState, data: seq<byte>): (r: OsdState)
    requires |data| == PALETTE_ROW
    ensures r.(palette := s.palette) == s
    ensures Valid(s) ==> Valid(r)
  {
    if !s.mapped then s
    else s.(palette := seq(|s.palette|, _ => data))
  }

  /** The rows osd_set_palette writes exist, and so does their data (osd_set_palette does not check). */
  predicate PaletteFits(s: OsdState, row: int, nrows: int, data: seq<seq<byte>>)
  {
    s.mapped && nrows > 0 ==>
      && 0 <= row && row + nrows <= |s.palette|
      && nrows <= |data|
      && forall i :: 0 <= i < nrows ==> |data[i]| == PALETTE_ROW
  }

  /** osd_set_palette: rows row .. row+nrows-1 get data[0] .. data[nrows-1]. */
  function SetPalette(s: OsdState, row: int, nrows: int, data: seq<seq<byte>>): (r: OsdState)
    requires PaletteFits(s, row, nrows, data)
    ensures r.(palette := s.palette) == s
    ensures Valid(s) ==> Valid(r)
  {
    if !s.mapped then s
    else s.(palette := seq(|s.palette|, i requires 0 <= i < |s.palette| =>
      if row <= i < row + nrows then data[i - row] else s.palette[i]))
  }

  // ---------------------------------------------------------------------------
  // Properties of the operations
  // ---------------------------------------------------------------------------

  /** Until the block is mapped, every operation but osd_init leaves the state alone. */
  lemma UnmappedIsInert(s: OsdState, x: int, y: int, c: int, str: seq<byte>, data: seq<byte>, rows: seq<seq<byte>>)
    requires !s.mapped && Int32(x) && Int32(y) && 0 in str && |data| == PALETTE_ROW
    ensures SetSize(s, x, y) == s && SetPosition(s, x, y) == s
    ensures Show(s) == s && Hide(s) == s && Clear(s, c) == s
    ensures Text(s, str, x, y, c, c) == s && PutChar(s, c, x, y, c, c) == s
    ensures SetPaletteAll(s, data) == s && SetPalette(s, x, y, rows) == s
  {
  }

  /** A grid of more than TEXT_CELLS cells is refused. */
  lemma SetSizeRefusesLargeGrid(s: OsdState, x: int, y: int)
    requires SetSizeDefined(s, x, y) && x * y > TEXT_CELLS
    ensures SetSize(s, x, y) == s
  {
  }

  /** A grid that fits is stored in the registers and the cache alike. */
  lemma SetSizeStoresFittingGrid(s: OsdState, x: int, y: int)
    requires s.mapped && 0 <= x < 0x1_0000 && 0 <= y < 0x1_0000 && x * y <= TEXT_CELLS
    ensures SetSize(s, x, y).xchars == x == SetSize(s, x, y).cachedX
    ensures SetSize(s, x, y).ychars == y == SetSize(s, x, y).cachedY
  {
    assert Int32(x * y);
  }

  /**
   * The capacity check is made on the signed product of the arguments, so
   * two negative sizes pass it: the cache then holds a grid of one cell
   * while both size registers hold 65535.
   */
  lemma SetSizeAcceptsNegativePair(s: OsdState)
    requires s.mapped
    ensures SetSize(s, -1, -1).cachedX * SetSize(s, -1, -1).cachedY == 1
    ensures SetSize(s, -1, -1).xchars == 0xFFFF && SetSize(s, -1, -1).ychars == 0xFFFF
  {
  }

  /** Showing and hiding are idempotent, and each undoes the other. */
  lemma ShowHideIdempotent(s: OsdState)
    ensures Show(Show(s)) == Show(s) && Hide(Hide(s)) == Hide(s)
    ensures Show(Hide(s)) == Show(s) && Hide(Show(s)) == Hide(s)
  {
  }

  /**
   * After osd_clear, the first cachedX * cachedY cells read as a space in
   * colour 0 on colour bgc & 7, and the cells after them are unchanged.
   */
  lemma ClearBlanksGrid(s: OsdState, bgc: int, i: int)
    requires s.mapped && 0 <= i < |s.text|
    ensures i < s.cachedX * s.cachedY ==>
      && CellChar(Clear(s, bgc).text[i]) == ' ' as int
      && CellFg(Clear(s, bgc).text[i]) == 0
      && CellBg(Clear(s, bgc).text[i]) == bgc % 8
    ensures i >= s.cachedX * s.cachedY ==> Clear(s, bgc).text[i] == s.text[i]
  {
    if i < s.cachedX * s.cachedY {
      assert Clear(s, bgc).text[i] == Blank(bgc);
      CellRoundTrip(' ' as int, 0, bgc);
    }
  }

  /** Clearing twice is clearing once. */
  lemma ClearIdempotent(s: OsdState, bgc: int)
    ensures Clear(Clear(s, bgc), bgc) == Clear(s, bgc)
  {
  }

  /**
   * After osd_text, the cells from (x, y) on read back the string's bytes
   * in colours fgc & 7 on bgc & 7, and every other cell is unchanged.
   */
  lemma TextWritesString(s: OsdState, str: seq<byte>, x: int, y: int, fgc: int, bgc: int, i: int)
    requires s.mapped && 0 in str && TextFits(s, str, x, y) && 0 <= i < |s.text|
    ensures var base := CellIndex(s, x, y);
      base <= i < base + Strlen(str) ==>
        && CellChar(Text(s, str, x, y, fgc, bgc).text[i]) == str[i - base]
        && CellFg(Text(s, str, x, y, fgc, bgc).text[i]) == fgc % 8
        && CellBg(Text(s, str, x, y, fgc, bgc).text[i]) == bgc % 8
    ensures var base := CellIndex(s, x, y);
      !(base <= i < base + Strlen(str)) ==> Text(s, str, x, y, fgc, bgc).text[i] == s.text[i]
  {
    var base := CellIndex(s, x, y);
    if base <= i < base + Strlen(str) {
      CellRoundTrip(str[i - base], fgc, bgc);
    }
  }

  /**
   * osd_putchar writes the cell (x, y) so that it reads back c & 255,
   * fgc & 7 and bgc & 7; no other cell changes.
   */
  lemma PutCharRoundTrip(s: OsdState, c: int, x: int, y: int, fgc: int, bgc: int)
    requires s.mapped && PutCharFits(s, x, y)
    ensures var cell := PutChar(s, c, x, y, fgc, bgc).text[CellIndex(s, x, y)];
      CellChar(cell) == c % 256 && CellFg(cell) == fgc % 8 && CellBg(cell) == bgc % 8
    ensures forall i :: 0 <= i < |s.text| && i != CellIndex(s, x, y) ==>
      PutChar(s, c, x, y, fgc, bgc).text[i] == s.text[i]
  {
    CellRoundTrip(c, fgc, bgc);
  }

  /** Putting a non-NUL byte is writing the one-character string of it. */
  lemma PutCharIsOneCharText(s: OsdState, b: byte, x: int, y: int, fgc: int, bgc: int)
    requires b != 0 && PutCharFits(s, x, y)
    ensures 0 in [b, 0] && TextFits(s, [b, 0], x, y)
    ensures PutChar(s, b, x, y, fgc, bgc) == Text(s, [b, 0], x, y, fgc, bgc)
  {
    assert Strlen([b, 0]) == 1 by {
      assert [b, 0][1..] == [0];
    }
  }

  /** After osd_set_palette_all, every scanline row equals `data`. */
  lemma SetPaletteAllRows(s: OsdState, data: seq<byte>)
    requires s.mapped && |data| == PALETTE_ROW
    ensures forall i :: 0 <= i < |s.palette| ==> SetPaletteAll(s, data).palette[i] == data
  {
  }

  /**
   * After osd_set_palette, row row+i holds data[i] for i < nrows and the
   * other rows are unchanged.
   */
  lemma SetPaletteRows(s: OsdState, row: int, nrows: int, data: seq<seq<byte>>)
    requires s.mapped && PaletteFits(s, row, nrows, data)
    ensures forall i :: 0 <= i < nrows ==> SetPalette(s, row, nrows, data).palette[row + i] == data[i]
    ensures forall i :: 0 <= i < |s.palette| && !(row <= i < row + nrows) ==>
      SetPalette(s, row, nrows, data).palette[i] == s.palette[i]
  {
  }

  /** Setting all rows one by one from the same data is osd_set_palette_all. */
  lemma SetPaletteOfAllRows(s: OsdState, data: seq<byte>)
    requires Valid(s) && |data| == PALETTE_ROW
    ensures PaletteFits(s, 0, MAX_SCANLINES, seq(MAX_SCANLINES, _ => data))
    ensures SetPalette(s, 0, MAX_SCANLINES, seq(MAX_SCANLINES, _ => data)) == SetPaletteAll(s, data)
  {
  }
}
