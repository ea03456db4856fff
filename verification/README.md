# zeST Linux-side core, modelled in Dafny

zeST is an FPGA implementation of the Atari ST. Its Linux side runs on the
board's processor and talks to the FPGA through memory-mapped registers.
This project models three parts of that Linux side and proves properties
of them:

- **Joystick bridge** (`joystick.dfy`, module `Joystick`). Each Linux
  joystick event is turned into bit fields of the `parmreg` parameter
  registers: a fire-button bit and two 2-bit direction codes for the X and
  Y axes. `get_axis_state` caches the last value of each axis coordinate.
  The event switch of `thread_joystick` then rewrites one field per
  write, with a load-mask-or-store: `(w & ~(mask << s)) | v << s`.
  - A 32-bit register word is modelled as its 32 bits, and `&`, `|`, `~`
    and `<<` are the bitwise operators on them.
  - `HandleEvent` performs the conditional stores of `thread_joystick` on an array of
    words. It is proved to produce the state the function `Step`
    describes.
- **Configuration** (`config.dfy`, module `Config`). This covers the
  interpreters `truefalse`, `memorysize` and `keyname` and the INI
  `handler`. It also covers `config_load`, which sets the defaults and
  then has the INI reader hand every `name = value` line to the handler.
  - The interpreters are functions.
  - `ZestConfig` is a class whose `Handler` and `Load` methods assign its
    fields. They are proved equal to the function `Handle` and to its fold
    `HandleAll` over the lines of a file.
  - `atoi` is modelled as C defines it: leading white space, an optional
    sign, then decimal digits.
- **On-screen display** (`osd_model.dfy`, module `OsdModel`;
  `osd.dfy`, module `Osd`).
  - The register block holds the show bit, the grid size and position, a
    1624-cell text buffer and a 192-row palette of 24 bytes per row. It
    sits together with the cached `_xchars`/`_ychars`.
  - `OsdModel` describes every operation as a function on the value
    `OsdState` and proves the operations' properties.
  - `Osd.Overlay` is the same state as a class with arrays. Its methods,
    including the cell-filling and palette-copying loops, are proved to
    produce exactly the state the corresponding `OsdModel` function gives.
  - A text cell holds the character in bits 0-7, the foreground colour in
    bits 8-10 and the background colour in bits 11-13.

## Model

| member | source | states |
|---|---|---|
| `Joystick.Deposit` | linux/joystick.c:132 | a field write `(w & ~(mask << s)) \| v << s` keeps every bit of w outside bits s .. s+width-1 |
| `Joystick.DepositBit` | linux/joystick.c:132 | after clearing the field with `& ~(mask << s)` and or-ing in `v << s`, the bits s .. s+width-1 hold the bits of v and every other bit of w is kept |
| `Joystick.DepositField` | linux/joystick.c:141 | reading back the field just written gives the value written |
| `Joystick.DepositCommutes` | linux/joystick.c:139-162 | two such writes to non-overlapping fields of a word can be done in either order |
| `Joystick.DepositIdempotent` | linux/joystick.c:157 | repeating a field write changes nothing |
| `Joystick.WriteField` | linux/joystick.c:132 | a field write at relative bit o changes only parameter word 4 + o/32 |
| `Joystick.SlotLayout` | linux/joystick.c:132-161 | for a slot number whose shifts stay below bit 31, the Y, X and button fields lie in one word at bits y, y+2 and y+4 |
| `Joystick.SlotZeroLayout` | linux/joystick.c:114 | slot 0 is valid: Y, X and button are bits 22-23, 24-25 and 26 of parameter word 7 |
| `Joystick.DirectionCodeEncodesSign` | linux/joystick.c:139-162 | the direction code is 2 for negative, 1 for positive and 3 for zero; it is never 0, and two values get the same code exactly when they have the same sign |
| `Joystick.CacheAxis` | linux/joystick.c:84-97 | the cache keeps three axes, and every axis other than number/2 keeps its coordinates |
| `Joystick.CacheAxisUpdatesOneCoordinate` | linux/joystick.c:84-97 | an even axis number stores the value as x, an odd one as y, of axis number/2; nothing else changes, and nothing changes for axis 3 or more |
| `Joystick.GetAxisState` | linux/joystick.c:84-97 | returns number/2 and updates the axis cache as `CacheAxis` describes |
| `Joystick.Step` | linux/joystick.c:128-169 | one event keeps three cached axes and the number of register words, and changes no register word other than the one holding the slot's fields |
| `Joystick.ButtonEventSetsOnlyItsBit` | linux/joystick.c:130-133 | a button event sets the button bit exactly when the value is 0 (active low), and no other bit of any word changes |
| `Joystick.WriteFieldPreservesOtherBits` | linux/joystick.c:141 | a 2-bit field write stores its value and keeps every bit outside the two it targets |
| `Joystick.AxisEventWritesBothDirections` | linux/joystick.c:134-163 | an event on axes 0-2 caches the value, and both direction fields then encode the signs of that axis's cached x and y; every other bit of the slot's word keeps its value |
| `Joystick.OtherEventsChangeNothing` | linux/joystick.c:166-168 | an event of any other type changes neither the cache nor the registers |
| `Joystick.InitEventsAreIgnored` | linux/joystick.c:128-168 | synthetic events with the JS_EVENT_INIT flag set are ignored |
| `Joystick.UnknownAxisChangesNothing` | linux/joystick.c:135-136 | an axis event for axis 3 or more changes nothing |
| `Joystick.FieldWritesCommute` | linux/joystick.c:139-162 | the button, X and Y field writes of a slot commute pairwise |
| `Joystick.WriteFieldIdempotent` | linux/joystick.c:132 | applying the same field write twice is applying it once |
| `Joystick.StepIdempotent` | linux/joystick.c:128-169 | handling the same event twice leaves the same cache and registers as handling it once |
| `Joystick.StoreField` | linux/joystick.c:132 | the load-mask-or-store on the register array leaves exactly `WriteField` of the old registers |
| `Joystick.StoreDirections` | linux/joystick.c:139-162 | the six conditional stores, in their order, leave the X field holding the code of x and the Y field the code of y, as `WriteDirections` gives |
| `Joystick.HandleEvent` | linux/joystick.c:128-169 | the conditional stores of one event leave the cache and registers that `Step` gives for the old ones |
| `Config.TrueFalse` | linux/config.c:33-45 | result is 0 or 1, and 1 exactly for "true", "yes" or "on" in any case, or exactly "1" |
| `Config.TrueFalseFalseWords` | linux/config.c:38-44 | "false", "no" and "off" in any case, and "0", give 0 |
| `Config.TrueFalseIgnoresCase` | linux/config.c:34-41 | two spellings that differ only in letter case give the same result |
| `Config.FindIgnoreCase` | linux/config.c:51-54 | the table search returns the first index whose entry equals the text ignoring case, or none when no entry does |
| `Config.MemorySize` | linux/config.c:48-58 | the result is a valid size code; it names a matching table entry when one exists, and is CFG_1M otherwise |
| `Config.MemorySizeNamesDistinct` | linux/config.c:49 | no two size names are equal ignoring case |
| `Config.MemorySizeOfName` | linux/config.c:48-58 | each size name, in any case, maps to its own index: memorysize inverts the table |
| `Config.KeyName` | linux/config.c:61-73 | the result is KEY_NUMLOCK exactly for "NUM_LOCK" in any case, and KEY_SYSRQ otherwise (including unrecognised names) |
| `Config.SkipSpace` | linux/config.c:91 | atoi's leading white space is skipped: the rest is a suffix of the text that does not start with white space |
| `Config.SkipSpaceDropsOnlySpace` | linux/config.c:91 | every character SkipSpace drops is white space; with the contract of `SkipSpace`, it drops exactly the leading white space |
| `Config.Atoi` | linux/config.c:91 | atoi is negative only when the text after leading white space starts with '-', and is 0 for text without digits |
| `Config.AtoiOfDecimal` | linux/config.c:91 | atoi reads a decimal spelling back, with or without a minus sign, and stops at the first non-digit |
| `Config.AtoiOfPlusDecimal` | linux/config.c:91 | a leading '+' before a decimal spelling is accepted and gives the number itself |
| `Config.AtoiIgnoresLeadingSpace` | linux/config.c:91 | any run of white space before the text leaves atoi's value unchanged |
| `Config.HandleUnknownKey` | linux/config.c:118-120 | an unknown section/name pair returns 0 and changes no field |
| `Config.KeyOf` | linux/config.c:83-117 | a key is found only for its own section/name pair, and none is found exactly when no key has that pair |
| `Config.PairInjective` | linux/config.c:84-116 | no two keys of the handler share a section/name pair |
| `Config.KeyMatchIsCaseSensitive` | linux/config.c:83 | the key found for a section and name is k exactly when they equal k's pair character for character, so "MAIN"/"mono" and "main"/"Mono" are unknown keys and the handler returns 0 for them |
| `Config.Update` | linux/config.c:84-117 | the assignment for one key leaves every other key's field unchanged |
| `Config.Handle` | linux/config.c:75-122 | the status is 0 or 1, and on 0 (unknown key) the settings are unchanged |
| `Config.HandleTouchesOneField` | linux/config.c:84-117 | a known key returns 1, and every field other than its own keeps its value |
| `Config.HandleWakestate` | linux/config.c:90-96 | wakestate takes atoi of the value only when it lies in 1..4; otherwise it is kept |
| `Config.HandleEmptyValue` | linux/config.c:97-116 | for keys guarded by `if (value)`, an empty value returns 1 and changes nothing |
| `Config.Defaults` | linux/config.c:125-138 | the defaults config_load sets (flags 0, size code CFG_1M, wakestate 3, NUM_LOCK emulation) lie in the ranges the settings can take |
| `Config.HandleAll` | linux/config.c:140 | handling the lines of a file in order leaves the field of every key that no line names as it was |
| `Config.UpdatePreservesValid` | linux/config.c:84-117 | each key's assignment keeps flags in {0,1}, the size code in 0..5, wakestate in 1..4 and the emulation key one of the two codes |
| `Config.HandlePreservesValid` | linux/config.c:75-122 | the handler keeps every setting in its range |
| `Config.LoadedSettingsValid` | linux/config.c:124-144 | whatever lines the file holds, the loaded settings are in range |
| `Config.ZestConfig.constructor` | linux/config.c:29 | the record starts in static storage: every number 0 and every string NULL |
| `Config.ZestConfig.Handler` | linux/config.c:75-122 | the field assignment and return status equal `Handle` of the old record |
| `Config.ZestConfig.Load` | linux/config.c:124-144 | if the file cannot be read, the record holds the defaults; otherwise it holds the defaults with every line handled in file order; either way the settings are in range |
| `OsdModel.Cell` | linux/osd.c:117 | an encoded cell fits in 14 bits |
| `OsdModel.CellRoundTrip` | linux/osd.c:117 | decoding a cell gives back c & 255, fgc & 7 and bgc & 7 |
| `OsdModel.CellOfFields` | linux/osd.c:107-110 | every 14-bit cell is the encoding of its own decoded fields |
| `OsdModel.Strlen` | linux/osd.c:106 | the length is the index of the first NUL byte |
| `OsdModel.Init` | linux/osd.c:47-55 | the status is 0 or 1, and 0 exactly when the block is mapped afterwards; an already mapped block stays mapped with 0; an unmapped one becomes mapped exactly when the mapping succeeds, so a failed mapping returns 1; nothing but the mapped flag changes |
| `OsdModel.SetSize` | linux/osd.c:57-70 | only the size registers and the cache may change, and a cached grid that fits the buffer keeps fitting it |
| `OsdModel.SetPosition` | linux/osd.c:72-77 | when mapped, the position registers hold both coordinates modulo 2^16; nothing else changes |
| `OsdModel.Show` | linux/osd.c:79-83 | when mapped, the show bit is set; nothing else changes |
| `OsdModel.Hide` | linux/osd.c:85-89 | when mapped, the show bit is cleared; nothing else changes |
| `OsdModel.Clear` | linux/osd.c:91-101 | only the text buffer changes, and its size stays the same |
| `OsdModel.Text` | linux/osd.c:103-113 | only the text buffer changes, and its size stays the same |
| `OsdModel.PutChar` | linux/osd.c:115-119 | only the text buffer changes, and its size stays the same |
| `OsdModel.SetPaletteAll` | linux/osd.c:121-128 | only the palette changes, and row sizes stay 24 bytes |
| `OsdModel.SetPalette` | linux/osd.c:130-137 | only the palette changes, and row sizes stay 24 bytes |
| `OsdModel.UnmappedIsInert` | linux/osd.c:58-131 | before a successful osd_init, every other operation leaves the whole state unchanged |
| `OsdModel.SetSizeRefusesLargeGrid` | linux/osd.c:59-64 | a grid of more than 1624 cells is refused and nothing changes |
| `OsdModel.SetSizeStoresFittingGrid` | linux/osd.c:65-68 | a grid that fits is stored in the size registers and the cache alike |
| `OsdModel.SetSizeAcceptsNegativePair` | linux/osd.c:59-68 | because the check is on the signed product, (-1, -1) is accepted: the cache holds a one-cell grid while both size registers hold 65535 |
| `OsdModel.ShowHideIdempotent` | linux/osd.c:79-89 | show and hide are idempotent, and each undoes the other |
| `OsdModel.ClearBlanksGrid` | linux/osd.c:91-101 | after clearing, the first _xchars*_ychars cells read as a space in colour 0 on bgc & 7, and the cells after them are unchanged |
| `OsdModel.ClearIdempotent` | linux/osd.c:91-101 | clearing twice is clearing once |
| `OsdModel.TextWritesString` | linux/osd.c:103-113 | the cells from y*_xchars+x on read back the string's bytes up to its NUL, in fgc & 7 on bgc & 7; all other cells are unchanged |
| `OsdModel.PutCharRoundTrip` | linux/osd.c:115-119 | the addressed cell reads back c & 255, fgc & 7 and bgc & 7, and no other cell changes |
| `OsdModel.PutCharIsOneCharText` | linux/osd.c:103-119 | putting a non-NUL byte equals writing the one-character string of it |
| `OsdModel.SetPaletteAllRows` | linux/osd.c:121-128 | every scanline row then equals the data |
| `OsdModel.SetPaletteRows` | linux/osd.c:130-137 | row row+i holds data[i] for i < nrows, and every other row is unchanged |
| `OsdModel.SetPaletteOfAllRows` | linux/osd.c:121-137 | setting all 192 rows from copies of one row equals osd_set_palette_all |
| `Osd.Overlay.constructor` | linux/osd.c:43-45 | the library starts unmapped with a cached grid of 0 by 0 |
| `Osd.Overlay.Init` | linux/osd.c:47-55 | the new state and the status are those `OsdModel.Init` gives; the grid stays within the buffer and every palette row 24 bytes long |
| `Osd.Overlay.SetSize` | linux/osd.c:57-70 | the new state is `OsdModel.SetSize` of the old one; the grid stays within the buffer and every palette row 24 bytes long |
| `Osd.Overlay.SetPosition` | linux/osd.c:72-77 | the new state is `OsdModel.SetPosition` of the old one; the grid stays within the buffer and every palette row 24 bytes long |
| `Osd.Overlay.Show` | linux/osd.c:79-83 | the new state is `OsdModel.Show` of the old one; the grid stays within the buffer and every palette row 24 bytes long |
| `Osd.Overlay.Hide` | linux/osd.c:85-89 | the new state is `OsdModel.Hide` of the old one; the grid stays within the buffer and every palette row 24 bytes long |
| `Osd.Overlay.Clear` | linux/osd.c:91-101 | the fill loop leaves the text buffer that `OsdModel.Clear` gives; the grid stays within the buffer and every palette row 24 bytes long |
| `Osd.Overlay.Text` | linux/osd.c:103-113 | the copy loop leaves the text buffer that `OsdModel.Text` gives; the grid stays within the buffer and every palette row 24 bytes long |
| `Osd.Overlay.PutChar` | linux/osd.c:115-119 | the new state is `OsdModel.PutChar` of the old one; the grid stays within the buffer and every palette row 24 bytes long |
| `Osd.Overlay.SetPaletteAll` | linux/osd.c:121-128 | the row-copy loop leaves the palette that `OsdModel.SetPaletteAll` gives; the grid stays within the buffer and every palette row 24 bytes long |
| `Osd.Overlay.SetPalette` | linux/osd.c:130-137 | the row-copy loop leaves the palette that `OsdModel.SetPalette` gives; the grid stays within the buffer and every palette row 24 bytes long |

## Left out

- Joystick device I/O is not modelled: opening `/dev/input/js0` and the LED file, `read_event`, the ioctl-based axis and button counts, `joy_led_status`, `printf` and `close`. Events are parameters of `HandleEvent`.
- The `thread_joystick` loop as a thread, and its `thr_end` shutdown flag, are not modelled; they are concurrency. The model is the effect of one event.
- `joystick_nb` is fixed at 0 in `thread_joystick` (linux/joystick.c:114). The model keeps it as a parameter, and the precondition `ValidSlot` keeps every shift below bit 31, because `1 << 31` on a signed int is undefined. There is no multi-controller logic in linux/joystick.c, so none is modelled.
- The event timestamp is dropped, because the bridge never reads it.
- A register word is modelled as its 32 bits rather than as a machine integer. The `!event.value` flag and the constants 1, 2 and 3 are the only values shifted, and they are modelled exactly.
- `ini_parse` (the inih library) is not modelled. `Load` receives its outcome: `None` when the file cannot be read (a negative return), or otherwise the lines in file order. A positive return (a syntax error on some line) still delivers the other lines to the handler, so it is a `Some`.
- `strdup` allocation is not modelled: string fields hold the value itself, and the leak of an overwritten copy is not modelled.
- `printf` diagnostics in `truefalse`, `memorysize`, `keyname`, `handler`, `config_load` and the OSD are not modelled.
- `Config.ZestConfig.Handler` requires a non-empty value for `mono`, `extended_video_modes`, `mem_size`, `wakestate` and `joystick_emulation`. For those keys `handler` passes a NULL pointer on to `truefalse`, `memorysize`, `atoi` or `keyname`, which is undefined behaviour.
- `Config.SkipSpace`: its own contract does not say that only white space is dropped. That fact is the lemma `SkipSpaceDropsOnlySpace`, kept apart because as a postcondition it is assumed at every use of `Atoi` and makes those proofs much costlier.
- The model of `atoi` does not model overflow of values outside the C int range, which is undefined for `atoi`.
- `ZestConfig.Handler` dispatches on the key that `KeyOf` finds, with the same section/name comparisons in the same order as the `MATCH` chain of `handler`. It does not evaluate them one `if` at a time.
- `CFG_1M` (2), `KEY_SYSRQ` (99), `KEY_NUMLOCK` (69) and `MAX_SCANLINES` (192) come from headers that are not part of this model. They are constants fixed to those values; a comment in linux/osd.c gives 192 scanlines.
- `uio_map` and the memory mapping itself are not modelled: `osd_init` takes whether the mapping succeeds as the parameter `mapOk`. The `volatile` semantics, the struct packing and the 0x2000-byte layout are also left out.
- Register contents before `osd_init` are unknown hardware state; the constructor starts them at 0.
- The sprite registers `sprt_pos`, `sprt_colour` and `sprt_data` and the reserved `config` word are left out, because no modelled operation touches them.
- `osd_text` and `osd_putchar` do no bounds check, and `osd_set_palette` does not check its rows. The model requires that every written cell or row exists, since writing outside the buffer is undefined behaviour.
- `osd_set_size` requires its arguments and their product to be C ints, because signed overflow of the product is undefined behaviour.
- Cells are encoded with `+` and `*` over the three fields instead of `|` and `<<`. The fields occupy disjoint bits, so the two agree.
