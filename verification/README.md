# NES-CVBS raster layer in Dafny

NES-CVBS turns the NES picture processing unit's 9-bit pixel output into a
composite video signal. In the repository as it stands, the subcarrier
encoder and the decoder are empty stubs. The logic that exists is the
raster layer, and this project models it:

- **Dot tokens** (`Dots`): a raw-field cell is either a 9-bit pixel code in
  the "eeellcccc" layout (emphasis, luma, hue) or one of the three sentinels
  `sync_level` 512, `blank_level` 513 and `colorburst` 514. The module also
  holds the `ACTIVE_WIDTH` × `ACTIVE_HEIGHT` picture size and the default
  segment lengths of `PPUScanline`.
- **Timing tables** (`Timings`): the `PPUTimings` tables of the 2C02 (NTSC)
  and the 2C07 (PAL), with the Dendy (UA6538) sharing the 2C07 table. The
  module gives the segment sums, the integer-division samples per pixel and
  the raw-buffer dimensions.
- **Row writes** (`Raster`): `write_pixels_in` raises the pixel threshold by
  a length and fills the row from the pixel index up to the threshold.
  - A scanline's sequence of such writes is a write plan: `Fill` runs,
    `Copy` runs and, on a vertical-sync line, a `Rewind` to the row start.
  - `Apply` gives a plan's meaning on the flat row-major buffer.
    `ApplyRows` runs every scanline's plan in turn, and a plan that runs past
    its row end spills into the next row, as the C++ index arithmetic does.
  - The methods carry the plans out cell by cell and are proved against
    `Apply` and `ApplyRows`.
  - A write outside the buffer is undefined behaviour in C++; here it is an
    `Err(OutOfBounds(i))` result.
- **Raster shell** (`Shell`): `InitializeField` picks each scanline's
  vertical region through the running `scanline_is_in` threshold and writes
  that region's segments.
- **Merge pass** (`Merge`): `EmplaceField` as written. Next to it is a
  corrected merge, `MergeField`, which copies 256 frame codes into each
  active scanline and rewinds on vertical-sync lines as the shell does.
  Every other scanline keeps the plan the source gives it: blank level over
  the postrender gray pulse and border, and on prerender lines only the
  lead-in and front porch over what the row held. It writes the frame codes
  with a per-cell copy, `CopyPixelsIn`, which has no counterpart in the
  source.
- **Level tables** (`Levels`): the constructor's hue rule. For colour
  indices 0 to 0x3F and emphasis 0 and 1, it picks or flattens the high and
  low signal levels, and it also copies the sync and colorburst levels.
- **Constructor** (`Filter`): the variant switch, buffer sizing,
  `InitializeField` and the level tables.

Levels are integers (millivolts) given as a parameter, because the named
voltage sets the constructor selects are not defined in the repository.
src/NES-CVBS.h:46 lacks the semicolon after `border_right = 11`; the model
takes the value 11. The `NES_CVBS` class declaration is not in the header,
so its fields are inferred from their uses in src/NES-CVBS.cpp.

Four places where the code as written disagrees with what it evidently
intends are listed under Findings. Each is modelled twice: as written, with
a lemma that exhibits the discrepancy, and corrected, with the intended
property proved.

## Model

| member | source | states |
|---|---|---|
| Dots.Encode | src/NES-CVBS.h:67-72 | a dot's PPUDotType value is at most `colorburst` (514), and it is a pixel code exactly when it is below 512, so pixels and sentinels never collide |
| Dots.Decode | src/NES-CVBS.h:67-72 | a value means a dot exactly when it lies in 0..514, and what it decodes to is well formed (emphasis < 8, luma < 4, hue < 16) |
| Dots.DecodeEncode | src/NES-CVBS.h:68 | decoding an encoded dot gives it back: the three "eeellcccc" fields decode independently |
| Dots.EncodeDecode | src/NES-CVBS.h:67-72 | every value in 0..514 is the encoding of the dot it decodes to |
| Dots.ScanlineDefaults | src/NES-CVBS.h:33-65 | under the `PPUScanline` defaults the active, postrender, blank and vertical-sync rows are each 341 dots, and the active size is `ACTIVE_WIDTH` × `ACTIVE_HEIGHT` |
| Timings.SamplesPerPixelValues | src/PPUTimings.h:94-120 | `(clock * 2) / (clock / divider)` in truncating integer division is 8 for the 2C02 and 10 for the 2C07 |
| Timings.Spans2C02 | src/PPUTimings.h:72-96 | with sync, every kind of 2C02 scanline sums to the 341-dot field width and the regions to the 262-line field height; the 283 × 242 visible window holds the active and postrender lines exactly |
| Timings.Spans2C07 | src/PPUTimings.h:98-122 | with sync, every 2C07 scanline sums to 341 and the regions to 312 lines; its visible width of 256 is smaller than the 283 dots an active line writes |
| Timings.ForVariant | src/NES-CVBS.cpp:44-57 | the constructor's table for each variant: the row and region sums hold, the active size is 256 × 240, and the 2C07 and Dendy get the same table |
| Timings.VariantConstants | src/PPUTimings.h:72-125 | per variant: field 341 wide, 262 or 312 lines high, dot skip only on the 2C02, 8 or 10 samples per pixel, colorburst phase 0x08 or 0x07, visible window consistent only on the 2C02 |
| Timings.Constants2C02 | src/PPUTimings.h:72-96 | the 2C02 constants: 341 × 262, dot skip on, phase 0x08, visible height 240 + 2, 8 samples per pixel |
| Timings.Constants2C07 | src/PPUTimings.h:98-122 | the 2C07 constants: 341 × 312, dot skip off, phase 0x07, visible height 240 + 0, 10 samples per pixel |
| Timings.Spans2C07Fixed | src/PPUTimings.h:98-122 | the 2C07 table with its visible width set to 283 keeps every sync sum and has a consistent visible window |
| Timings.ForVariantFixed | src/PPUTimings.h:98-125 | the corrected tables differ from the shipped ones only in the visible width, which becomes the active-line span, so every variant's window is consistent |
| Raster.ApplyDefinedIff | src/NES-CVBS.cpp:96-102 | a plan stays inside the flat buffer exactly when its furthest write, measured from the row start, does |
| Raster.WritePixelsIn | src/NES-CVBS.cpp:96-102 | raises the threshold by length, leaves the pixel index at the threshold (or where it was, if past it), writes the dot into exactly the cells from the pixel index up to the threshold, and changes no other cell; it fails exactly when one of those cells lies outside the buffer |
| Raster.CopyPixelsIn | src/NES-CVBS.cpp:184-191 | writes the given codes one per cell from the pixel index on, advances the index by their number and changes no other cell; it fails exactly when a written cell lies outside the buffer |
| Raster.RunStep | src/NES-CVBS.cpp:96-102 | one write of a plan, carried out cell by cell, yields exactly that step's meaning on the buffer and cursor |
| Raster.RunRow | src/NES-CVBS.cpp:111-150 | one scanline's writes, with pixel index and threshold starting at 0, succeed exactly when the plan stays in the buffer; they then give the plan's buffer and leave the cursor where the plan ends |
| Raster.ApplyStraight | src/NES-CVBS.cpp:96-102 | a run of writes without a rewind lays its cells down one after another from the cursor, and the cursor ends just past them |
| Raster.ApplyAppend | src/NES-CVBS.cpp:111-150 | running two plans one after the other is running the joined plan: the cursor, the furthest cell and the buffer all compose |
| Raster.PaintJoined | src/NES-CVBS.cpp:116-149 | lead-in, region body and front porch without a rewind, together as long as the row, end exactly at the row end and repaint the row with their cells in order |
| Raster.PaintStraight | src/NES-CVBS.cpp:96-102 | a plan without a rewind that is as long as the row repaints the whole row with its cells |
| Raster.PaintRewound | src/NES-CVBS.cpp:136-142 | after a rewind, a plan as long as the row overwrites everything written before it |
| Raster.ApplyInRow | src/NES-CVBS.cpp:96-102 | a plan that stays within its row does to that row what it does to the row alone and leaves the rest of the buffer untouched |
| Raster.RowStep | src/NES-CVBS.cpp:111-150 | running scanline s's plan, when it stays in its row, changes row s as the plan paints it and no other row |
| Raster.ApplyRowsStaysNone | src/NES-CVBS.cpp:111-150 | once a scanline writes outside the buffer, the whole pass is undefined |
| Raster.ApplyRowsDefinedIff | src/NES-CVBS.cpp:111-150 | the row-by-row pass stays inside the buffer exactly when every scanline's plan, from its row start, does |
| Raster.ApplyRowsLocal | src/NES-CVBS.cpp:111-150 | when every plan stays in its own row, after n scanlines each of the first n rows is its plan's painting and the others are untouched |
| Raster.PaintPrefix | src/NES-CVBS.cpp:96-102 | a plan without a rewind shorter than the row writes its cells from the row start and keeps every cell after them |
| Raster.ApplyKeepsBelow | src/NES-CVBS.cpp:96-102 | a scanline's writes, indexed from its row start, never change a cell before that row |
| Raster.ApplyRowsKeepsEarlier | src/NES-CVBS.cpp:111-150 | once the first n scanlines have run, every later scanline leaves the cells of rows 0 to n - 1 as they are |
| Raster.ApplyRowsEarlierRow | src/NES-CVBS.cpp:111-150 | row s of the whole pass is row s as it stood after the first n scanlines, for every s below n |
| Raster.ApplyRowsFirstRows | src/NES-CVBS.cpp:111-150 | when the first n plans stay in their rows, those rows of the whole pass are as their own plans paint them, whatever later plans do |
| Raster.ApplyRowsPaints | src/NES-CVBS.cpp:111-150 | when every plan stays in its own row, the pass succeeds and every row is painted by its own plan alone |
| Raster.PaintRows | src/NES-CVBS.cpp:111-150 | the per-scanline loop succeeds exactly when the row-by-row meaning is defined, and then returns that buffer |
| Shell.ScanlineIsIn | src/NES-CVBS.cpp:104-109 | definition: raises the running scanline threshold by the length and reports whether the scanline lies below the raised threshold (its meaning over a whole chain is stated by Shell.ConcatBody and Shell.ShellBody) |
| Shell.ShellBody | src/NES-CVBS.cpp:124-145 | the region branch of the shell starts with a rewind exactly on a vertical-sync line with sync on; Shell.ConcatBody gives its cells on every other line |
| Shell.ShellOps | src/NES-CVBS.cpp:116-149 | definition: lead-in when sync is on, the region branch, front porch when sync is on; Shell.ShellRowLayout states what it paints |
| Shell.LeadInColorburst | src/NES-CVBS.cpp:116-122 | the lead-in holds the colorburst level in the cells after horizontal sync and the first back porch |
| Shell.ConcatLeadIn | src/NES-CVBS.cpp:116-122 | the lead-in writes horizontal sync, back porch, colorburst and back porch cells in that order, with no rewind |
| Shell.ConcatBody | src/NES-CVBS.cpp:124-145 | outside the vertical-sync lines, the `scanline_is_in` threshold chain selects exactly the segments of the region the scanline lies in |
| Shell.VerticalSyncRow | src/NES-CVBS.cpp:136-149 | a vertical-sync line rewinds to the row start; its blank pulse, separator and front porch then fill the row exactly |
| Shell.ShellRowLayout | src/NES-CVBS.cpp:111-150 | under a consistent table every shell scanline's furthest write and final pixel index are both the buffer row width, and the row is laid out as documented |
| Shell.VerticalSyncRowHasNoColorburst | src/NES-CVBS.cpp:136-142 | a vertical-sync line holds only sync and blank levels, with no colorburst left by the lead-in |
| Shell.UnsyncedRowHoldsPixels | src/NES-CVBS.cpp:117-149 | without sync a line holds only 9-bit pixel codes: no sentinel and no front porch is written |
| Shell.InitializeField | src/NES-CVBS.cpp:94-151 | laying the shell fails exactly when a scanline writes past the buffer; under a consistent table it succeeds and every row is the documented layout for its region |
| Shell.ShellRowsLaidOut | src/NES-CVBS.cpp:111-150 | under a consistent table every scanline's plan stays in its row and paints the documented layout |
| Shell.ShellInBufferAsWritten | src/NES-CVBS.cpp:59-65 | with the shipped tables the shell fits the buffer exactly when sync is on or the variant is the 2C02 |
| Shell.PalShellOverruns | src/PPUTimings.h:98-105 | without sync, 2C07 active line 239 writes 283 cells from cell 239 × 256, past the 256 × 240 buffer |
| Shell.ShellInBufferWhenLaidOut | src/NES-CVBS.cpp:111-150 | every table consistent with its buffer keeps the shell inside the buffer |
| Shell.ShellInBufferFixed | src/PPUTimings.h:98-122 | with the corrected tables every variant's shell fits, with or without sync |
| Merge.EmplaceGuard | src/NES-CVBS.cpp:173-182 | definition: sync on, and the scanline not below the vertical-sync threshold or below the following prerender threshold; Merge.EmplaceGuardAlwaysTaken reduces it to sync |
| Merge.EmplaceBody | src/NES-CVBS.cpp:184-202 | the merge's region branch never rewinds the pixel index, on vertical-sync lines included |
| Merge.EmplaceOps | src/NES-CVBS.cpp:173-206 | a merge scanline is one straight run of writes from the row start: guarded lead-in, region branch, front porch |
| Merge.EmplaceGuardAlwaysTaken | src/NES-CVBS.cpp:173-182 | the merge's lead-in guard is taken exactly when sync is on: a line below the vertical-sync threshold is also below the larger prerender threshold |
| Merge.PaintRowsReading | src/NES-CVBS.cpp:168-207 | a row pass that reads one frame code per active scanline fails exactly when the frame runs out or a plan leaves the buffer; otherwise it returns the row-by-row buffer and has read one code per active scanline |
| Merge.EmplaceField | src/NES-CVBS.cpp:153-208 | the merge as written fails exactly when the frame runs out or a scanline writes past the buffer; otherwise the frame pointer has advanced once per active scanline, and under a consistent table active line s shows frame code s in every window cell |
| Merge.EmplaceActiveRowsPaint | src/NES-CVBS.cpp:184-192 | as written, each active line's plan stays in its row and paints the line with its own frame code across the window |
| Merge.EmplaceRowsOneCode | src/NES-CVBS.cpp:168-207 | as written, under a consistent table, the later lines (the overrunning vertical-sync lines included) leave the active lines as their own plans painted them |
| Merge.MergedActiveWindow | src/NES-CVBS.cpp:184-192 | in a merged active line, the window sits right after the lead-in, gray pulse and left border |
| Merge.PaintActive | src/NES-CVBS.cpp:184-192 | an active line's lead-in, gray pulse, left border, window, right border and front porch fill its row exactly |
| Merge.EmplaceActiveRowOneCode | src/NES-CVBS.cpp:184-192 | as written, an active line fills all 256 window cells with the single frame code read for that line |
| Merge.EmplaceVerticalSyncOps | src/NES-CVBS.cpp:173-206 | as written, a vertical-sync line keeps the lead-in, writes a vblank-long sync run and the separator without rewinding, then the front porch |
| Merge.EmplaceVerticalSyncCells | src/NES-CVBS.cpp:199-206 | that line's cells are lead-in, vblank sync run, separator and front porch, written straight from the row start |
| Merge.EmplaceVerticalSyncColorburst | src/NES-CVBS.cpp:177-180 | as written, the colorburst of the lead-in survives on a vertical-sync line |
| Merge.EmplaceVerticalSyncLength | src/NES-CVBS.cpp:199-206 | the as-written vertical-sync line reaches lead-in + vblank + separator + front porch cells |
| Merge.EmplaceVerticalSyncOverrun | src/NES-CVBS.cpp:173-206 | on the shipped tables that is 355 cells (2C02) and 353 (2C07, Dendy), past the 341-cell row |
| Merge.MergeOpsAsWritten | src/NES-CVBS.cpp:173-206 | the corrected plan is the as-written plan on every line except synced vertical-sync lines, and on active lines it differs only in the window step |
| Merge.ConcatEmplaceBody | src/NES-CVBS.cpp:193-198 | off the active and synced vertical-sync lines the merge's region branch writes blank level over gray pulse and bottom border on postrender lines, a vblank run of blank level on postrender-blank lines, and nothing on prerender lines |
| Merge.EmplaceRowWidth | src/NES-CVBS.cpp:173-206 | under a consistent table those lines' cells fit the row, and fill it exactly except on prerender lines |
| Merge.MergeRowLayout | src/NES-CVBS.cpp:173-206 | under a consistent table every corrected line stays in its row and ends exactly at the row end except on prerender lines. An active line shows its window, a synced vertical-sync line is the shell's, and any other line gets the lead-in, its blank-level cells and the front porch from the row start with the rest of the row kept |
| Merge.MergeKeepsShellPrerender | src/NES-CVBS.cpp:173-181 | a prerender line the shell laid out comes through the corrected merge unchanged |
| Merge.WindowInFrame | src/NES-CVBS.cpp:190 | when the frame holds 256 codes per active line, active line s's window is codes 256 s up to 256 (s + 1) |
| Merge.PaintRowsFed | src/NES-CVBS.cpp:168-207 | the corrected pass fails exactly when the frame is too short or a plan leaves the buffer; when every plan stays in its row, each row is painted by its own plan |
| Merge.MergeField | src/NES-CVBS.cpp:153-208 | the corrected merge fails exactly when the frame is too short or a plan leaves the buffer; under a consistent table it succeeds with every active line showing its own 256 frame codes, synced vertical-sync lines as the shell lays them out, and every other line as the source writes it over what the row held |
| Merge.MergeRowsLaidOut | src/NES-CVBS.cpp:168-207 | under a consistent table and a long enough frame, every corrected line stays in its row and paints the content Merge.MergeRowLayout documents from the row it held |
| Levels.SignalAsWritten | src/NES-CVBS.cpp:70-72 | the as-written lookup `signal[color & 0xF0]` is out of range exactly when `color & 0xF0` is 4 or more, and otherwise reads luma row 0 |
| Levels.LumaIndexAsWrittenOutOfRange | src/NES-CVBS.cpp:69-72 | for colours 0 to 0x3F, the as-written lookup fails exactly for colours 0x10 and up, and agrees with the corrected lookup below 0x10 |
| Levels.Signal | src/NES-CVBS.cpp:70-72 | definition, corrected: the (high, low) pair read with the luma bits `(color >> 4) & 3` as index; Levels.LumaIndexAsWrittenOutOfRange relates it to the as-written lookup |
| Levels.ColorLevels | src/NES-CVBS.cpp:69-77 | hue 0x0D is flat at the low level, hue 0x00 flat at the high level, hues 0x0E and 0x0F flat at blank, and hues 0x01 to 0x0C keep high and low |
| Levels.FlatExactlyForGrays | src/NES-CVBS.cpp:75-77 | where the chip's high and low levels differ, a colour's levels are flat exactly for hues 0x00, 0x0D, 0x0E and 0x0F |
| Levels.BuildEmphasisRow | src/NES-CVBS.cpp:68-81 | the inner loop fills all 64 high and low entries of one emphasis by the hue rule |
| Levels.BuildLevelTables | src/NES-CVBS.cpp:67-85 | the table loop fills `[2][2][0x40]` level entries by the hue rule ([0] high, [1] low) and the sync and colorburst entries per emphasis |
| Filter.Construct | src/NES-CVBS.cpp:39-85 | construction over a table fails exactly when the shell leaves the buffer. Otherwise the raw buffer is W × H, the signal buffer is W × H × samples per pixel and zeroed, and the level tables follow the hue rule. Under a consistent table the shell is laid out |
| Filter.Create | src/NES-CVBS.cpp:39-85 | with the shipped tables construction succeeds exactly when sync is on or the variant is the 2C02; it then has the sizes and tables above, with the shell laid out |
| Filter.CreateFixed | src/NES-CVBS.cpp:39-85 | with the corrected tables construction always succeeds and lays the shell out for every variant |
| Filter.BufferSizes | src/NES-CVBS.cpp:59-60 | with sync the buffer is 341 × 262 (2C02) or 341 × 312 (2C07, Dendy); without it, 283 × 242 or 256 × 240 |

## Left out

- main.cpp and main.h: the demonstration harness, PNG export and buffer allocation are input/output.
- `FilterFrame`, `EncodeField`, `EncodeFullField`, `DecodeField` and `DecodeFullField`: their bodies are empty or have their calls commented out, so there is no behaviour to model.
- Subcarrier encoding, the phase accumulator, dot-skip correction, decoding and multithreading do not exist in the code.
- Voltages are integer millivolts passed to the constructor as a parameter. The `NES_2C02`, `NES_2C07` and `NES_UA6538` voltage sets are not defined in src/PPUVoltages.h.
- The `uint16_t(volts * 1000)` conversion of the level tables is floating-point truncation. It is not modelled: the tables hold the integer levels directly.
- `PaletteLUT_2C04` and the `ppu_2C04_rev` setting are not part of this model: the palette table is defined outside the modelled files.
- Variant numbers outside 0..2 are not modelled, because the switch has no default and the table would be left indeterminate. The variant is a closed datatype.
- `PPUScanline.prerender_blanking_scanlines` = 4 is part of an unused struct; no field-height sum is claimed for it.
- `dot_skip` and `colorburst_phase` are carried in the tables but unused by the raster code.
- `scanline_is_in`'s `reset` argument is never passed by InitializeField, so the model omits it.
- Raster.WritePixelsIn: pixel indices, thresholds and scanline numbers are unbounded integers, so the `uint16_t` wrap-around of the source is not modelled. No value the shipped tables produce exceeds 355.
- The frame pointer `PPURawFrameBuffer` is modelled as the sequence of codes from where it starts. A read past its end is an error, not undefined behaviour.
- Gray-pulse and border emulation are marked unfinished in the merge (src/NES-CVBS.cpp:184-196). The merge writes blank level there, and so does the corrected merge.
- Merge.MergeField: when the table does not fit the buffer, the contract says only when the merge fails and how much frame it consumes, not what the buffer then holds.
- Shell.InitializeField: when the table does not fit the buffer, the contract says only when laying the shell fails, not what the rows then hold.
- Filter.Construct: builds its level tables with the corrected luma index of the third finding (Levels.BuildLevelTables). As written, every construction reads `signal[color & 0xF0]` out of range from colour 0x10 on (Levels.LumaIndexAsWrittenOutOfRange); that out-of-range read is not carried into the constructor's result.
- Filter.Create: the same corrected level tables as Filter.Construct; only the timing tables are the shipped ones.
- The class's mutable members are modelled as an immutable record the constructor returns.

## Findings

| source | as written | input that shows it | evidently intended | confidence | as-written member | corrected member |
|---|---|---|---|---|---|---|
| src/PPUTimings.h:100 | the 2C07 (and Dendy) visible width is 256, but an active line writes 0 + 18 + 256 + 9 = 283 cells | 2C07, sync off, scanline 239: writes cells 61184 to 61466 of a 61440-cell buffer | a visible width equal to the active-line span, 283 | not executed; high | Shell.PalShellOverruns | Timings.ForVariantFixed |
| src/NES-CVBS.cpp:199-202 | the merge keeps the lead-in on vertical-sync lines (its guard is always true with sync) and writes a vblank-long sync run instead of rewinding to a blank-pulse run | sync on, 2C02, scanline 245: the line reaches 49 + 283 + 14 + 9 = 355 cells in a 341-cell row | the shell's vertical-sync line: rewind, blank pulse, separator, front porch | not executed; high | Merge.EmplaceVerticalSyncOverrun | Merge.MergeRowLayout |
| src/NES-CVBS.cpp:70 | the luma index is `color & 0xF0`, i.e. 0, 16, 32 or 48, into a dimension of 4 | any colour 0x10..0x3F, e.g. 0x10 reads `signal[16]` | the luma bits `(color >> 4) & 3` | not executed; high | Levels.LumaIndexAsWrittenOutOfRange | Levels.BuildLevelTables |
| src/NES-CVBS.cpp:190 | `*PPURawFrameBuffer++` is evaluated once per `write_pixels_in` call, so an active line gets one frame code in all 256 cells | sync on, 2C02, any frame: active line 0 holds frame code 0 in all 256 window cells | one frame code per window cell, 256 per active line | not executed; medium | Merge.EmplaceActiveRowOneCode | Merge.MergeField |
