/**
 * The on-screen display library: every operation updates the register
 * block (or the cached grid size) in place and is proved to produce the
 * state the function of the same name in OsdModel describes.
 */
module Osd {

  import opened OsdModel

  // ---------------------------------------------------------------------------
  // The library state, updated in place
  // ---------------------------------------------------------------------------

  /**
   * The register block behind `osdreg` and the cached `_xchars`/`_ychars`.
   * The text buffer and the palette are arrays of the block; `mapped`
   * stands for `osdreg != NULL`.
   */
  class Overlay {
    var mapped: bool
    var show: bool
    var xchars: u16
    var ychars: u16
    var xpos: u16
    var ypos: u16
    var cachedX: int
    var cachedY: int
    const text: array<u16>
    const palette: array<seq<byte>>

    function State(): OsdState
      reads this, text, palette
    {
      OsdState(mapped, show, xchars, ychars, xpos, ypos, cachedX, cachedY, text[..], palette[..])
    }

    predicate Inv()
      reads this, text, palette
    {
      Valid(State())
    }

    /** Before osd_init: unmapped, with a cached grid of 0 by 0. */
    constructor ()
      ensures Inv() && !mapped && cachedX == 0 && cachedY == 0
      ensures fresh(text) && fresh(palette)
    {
      mapped, show := false, false;
      xchars, ychars, xpos, ypos := 0, 0, 0, 0;
      cachedX, cachedY := 0, 0;
      text := new u16[TEXT_CELLS](_ => 0);
      palette := new seq<byte>[MAX_SCANLINES](_ => seq(PALETTE_ROW, _ => 0));
    }

    /** osd_init; `mapOk` is whether mapping the device succeeds. */
    method Init(mapOk: bool) returns (status: int)
      requires Inv()
      modifies this
      ensures Inv()
      ensures OsdModel.InitResult(State(), status) == OsdModel.Init(old(State()), mapOk)
    {
      if !mapped {
        if !mapOk {
          return 1;
        }
        mapped := true;
      }
      return 0;
    }

    method SetSize(x: int, y: int)
      requires SetSizeDefined(State(), x, y)
      requires Inv()
      modifies this
      ensures Inv()
      ensures State() == OsdModel.SetSize(old(State()), x, y)
    {
      if mapped {
        var nchars := x * y;
        if nchars > TEXT_CELLS {
          return;
        }
        xchars := ToU16(x);
        ychars := ToU16(y);
        cachedX := x;
        cachedY := y;
      }
    }

    method SetPosition(x: int, y: int)
      requires Inv()
      modifies this
      ensures Inv()
      ensures State() == OsdModel.SetPosition(old(State()), x, y)
    {
      if mapped {
        xpos := ToU16(x);
        ypos := ToU16(y);
      }
    }

    method Show()
      requires Inv()
      modifies this
      ensures Inv()
      ensures State() == OsdModel.Show(old(State()))
    {
      if mapped {
        show := true;
      }
    }

    method Hide()
      requires Inv()
      modifies this
      ensures Inv()
      ensures State() == OsdModel.Hide(old(State()))
    {
      if mapped {
        show := false;
      }
    }

    method Clear(bgc: int)
      requires Inv()
      modifies text
      ensures Inv()
      ensures State() == OsdModel.Clear(old(State()), bgc)
    {
      if mapped {
        var n := cachedX * cachedY;
        var v := Blank(bgc);
        var i := 0;
        while i < n
          invariant 0 <= i <= if n < 0 then 0 else n
          invariant forall j :: 0 <= j < text.Length ==>
            text[j] == if j < i then v else old(text[j])
        {
          text[i] := v;
          i := i + 1;
        }
        assert text[..] == OsdModel.Clear(old(State()), bgc).text;
      }
    }

    method Text(str: seq<byte>, x: int, y: int, fgc: int, bgc: int)
      requires 0 in str && TextFits(State(), str, x, y)
      requires Inv()
      modifies text
      ensures Inv()
      ensures State() == OsdModel.Text(old(State()), str, x, y, fgc, bgc)
    {
      if mapped {
        var l := Strlen(str);
        var p := y * cachedX + x;
        var i := 0;
        while i < l
          invariant 0 <= i <= l
          invariant forall j :: 0 <= j < text.Length ==>
            text[j] == if p <= j < p + i then Cell(str[j - p], fgc, bgc) else old(text[j])
        {
          text[p + i] := Cell(str[i], fgc, bgc);
          i := i + 1;
        }
        assert text[..] == OsdModel.Text(old(State()), str, x, y, fgc, bgc).text;
      }
    }

    method PutChar(c: int, x: int, y: int, fgc: int, bgc: int)
      requires PutCharFits(State(), x, y)
      requires Inv()
      modifies text
      ensures Inv()
      ensures State() == OsdModel.PutChar(old(State()), c, x, y, fgc, bgc)
    {
      if mapped {
        text[y * cachedX + x] := Cell(c, fgc, bgc);
      }
    }

    method SetPaletteAll(data: seq<byte>)
      requires |data| == PALETTE_ROW
      requires Inv()
      modifies palette
      ensures Inv()
      ensures State() == OsdModel.SetPaletteAll(old(State()), data)
    {
      if mapped {
        var i := 0;
        while i < palette.Length
          invariant 0 <= i <= palette.Length
          invariant forall j :: 0 <= j < palette.Length ==>
            palette[j] == if j < i then data else old(palette[j])
        {
          palette[i] := data;
          i := i + 1;
        }
        assert palette[..] == OsdModel.SetPaletteAll(old(State()), data).palette;
      }
    }

    method SetPalette(row: int, nrows: int, data: seq<seq<byte>>)
      requires PaletteFits(State(), row, nrows, data)
      requires Inv()
      modifies palette
      ensures Inv()
      ensures State() == OsdModel.SetPalette(old(State()), row, nrows, data)
    {
      if mapped {
        var i := 0;
        while i < nrows
          invariant 0 <= i <= if nrows < 0 then 0 else nrows
          invariant forall j :: 0 <= j < palette.Length ==>
            palette[j] == if row <= j < row + i then data[j - row] else old(palette[j])
        {
          palette[row + i] := data[i];
          i := i + 1;
        }
        assert palette[..] == OsdModel.SetPalette(old(State()), row, nrows, data).palette;
      }
    }
  }
}
