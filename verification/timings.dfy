/** Per-variant raster timing tables (src/PPUTimings.h): segment lengths in
    PPU dots and region heights in scanlines. */
module Timings {
  import opened Dots

  /** The closed set of PPU variants the filter knows. */
  datatype Variant = Ntsc2C02 | Pal2C07 | DendyUA6538

  datatype Timings = Timings(
    fieldWidth: nat, fieldHeight: nat,
    visibleWidth: nat, visibleHeight: nat,
    // common to most scanlines
    horizontalSync: nat, backPorchFirst: nat, colorburst: nat, backPorchSecond: nat, frontPorch: nat,
    // visible scanlines
    activeScanlines: nat, grayPulse: nat, borderLeft: nat, activePixels: nat, borderRight: nat,
    // postrender scanlines
    postrenderScanlines: nat, borderBottom: nat,
    // postrender blanking scanlines
    postrenderBlankScanlines: nat, vblank: nat,
    // vertical sync scanlines
    verticalSyncScanlines: nat, blankPulse: nat, syncSeparator: nat,
    // prerender blanking scanlines
    prerenderBlankingScanlines: nat,
    dotSkip: bool,
    // samples_per_pixel is written in the table as an expression over the
    // colour-generator clock and its PPU-clock divider; both are kept here
    colorClock: nat, clockDivider: nat,
    colorburstPhase: nat)

  /** Colour-generator samples per PPU dot, computed as the table does with
      truncating integer division: (clock * 2) / (clock / divider). */
  function SamplesPerPixel(t: Timings): nat
  {
    if t.clockDivider == 0 || t.colorClock < t.clockDivider then 0
    else (t.colorClock * 2) / (t.colorClock / t.clockDivider)
  }

  const Table2C02: Timings := Timings(
    341, 262,
    283, 242,
    25, 4, 15, 5, 9,
    240, 1, 15, 256, 11,
    2, 282,
    3, 283,
    3, 318, 14,
    14,
    true,
    21477272, 4,
    0x08)

  const Table2C07: Timings := Timings(
    341, 312,
    256, 240,
    25, 4, 15, 5, 9,
    240, 0, 18, 256, 9,
    0, 283,
    30, 283,
    3, 320, 12,
    39,
    false,
    26601712, 5,
    0x07)

  /** The Dendy reuses the 2C07 table unchanged. */
  const TableUA6538: Timings := Table2C07

  /** Dots of horizontal sync, both back porches and the colorburst. */
  function LeadIn(t: Timings): nat {
    t.horizontalSync + t.backPorchFirst + t.colorburst + t.backPorchSecond
  }

  /** Dots an active scanline writes between the back porch and the front porch. */
  function ActiveSpan(t: Timings): nat {
    t.grayPulse + t.borderLeft + t.activePixels + t.borderRight
  }

  /** Dots a postrender scanline writes between the back porch and the front porch. */
  function PostrenderSpan(t: Timings): nat {
    t.grayPulse + t.borderBottom
  }

  /** Every kind of scanline the shell builds with sync enabled is exactly one
      field wide: active, postrender and both blanking kinds are lead-in, body
      and front porch; a vertical-sync line is its sync pulse, separator and
      front porch. */
  predicate SyncedRowsSpanField(t: Timings) {
    && LeadIn(t) + ActiveSpan(t) + t.frontPorch == t.fieldWidth
    && (t.postrenderScanlines > 0 ==> LeadIn(t) + PostrenderSpan(t) + t.frontPorch == t.fieldWidth)
    && LeadIn(t) + t.vblank + t.frontPorch == t.fieldWidth
    && t.blankPulse + t.syncSeparator + t.frontPorch == t.fieldWidth
    && LeadIn(t) <= t.blankPulse + t.syncSeparator
  }

  /** The five vertical regions stack to exactly one field. */
  predicate RegionsSpanField(t: Timings) {
    t.activeScanlines + t.postrenderScanlines + t.postrenderBlankScanlines
      + t.verticalSyncScanlines + t.prerenderBlankingScanlines == t.fieldHeight
  }

  /** The visible window is the active and postrender scanlines, each as
      wide as the cells an active scanline writes. */
  predicate VisibleWindowFits(t: Timings) {
    && t.visibleHeight == t.activeScanlines + t.postrenderScanlines
    && ActiveSpan(t) == t.visibleWidth
    && (t.postrenderScanlines > 0 ==> PostrenderSpan(t) == t.visibleWidth)
  }

  /** The colour clock divided as the tables divide it gives 8 samples per
      dot on the 2C02 and 10 on the 2C07. */
  lemma SamplesPerPixelValues()
    ensures SamplesPerPixel(Table2C02) == 8 && SamplesPerPixel(Table2C07) == 10
  {
    assert 21477272 / 4 == 5369318 && 42954544 / 5369318 == 8;
    assert 26601712 / 5 == 5320342 && 53203424 / 5320342 == 10;
  }

  lemma Spans2C02()
    ensures SyncedRowsSpanField(Table2C02) && RegionsSpanField(Table2C02)
    ensures VisibleWindowFits(Table2C02)
  {
  }

  lemma Spans2C07()
    ensures SyncedRowsSpanField(Table2C07) && RegionsSpanField(Table2C07)
    ensures !VisibleWindowFits(Table2C07) && ActiveSpan(Table2C07) == 283
  {
  }

  /** The table the constructor selects for a variant; the Dendy shares the
      2C07 table. */
  function ForVariant(v: Variant): (t: Timings)
    ensures SyncedRowsSpanField(t) && RegionsSpanField(t)
    ensures t.activePixels == ActiveWidth && t.activeScanlines == ActiveHeight
    ensures v != Ntsc2C02 ==> t == Table2C07
  {
    match v
    case Ntsc2C02 => Spans2C02(); Table2C02
    case Pal2C07 => Spans2C07(); Table2C07
    case DendyUA6538 => Spans2C07(); TableUA6538
  }

  /** The per-variant constants that differ between the tables. */
  lemma VariantConstants(v: Variant)
    ensures ForVariant(v).fieldWidth == 341
    ensures ForVariant(v).fieldHeight == (if v == Ntsc2C02 then 262 else 312)
    ensures ForVariant(v).dotSkip <==> v == Ntsc2C02
    ensures SamplesPerPixel(ForVariant(v)) == (if v == Ntsc2C02 then 8 else 10)
    ensures ForVariant(v).colorburstPhase == (if v == Ntsc2C02 then 0x08 else 0x07)
    ensures VisibleWindowFits(ForVariant(v)) <==> v == Ntsc2C02
  {
    if v == Ntsc2C02 {
      assert ForVariant(v) == Table2C02;
      Constants2C02();
    } else {
      assert ForVariant(v) == Table2C07;
      Constants2C07();
    }
  }

  lemma Constants2C02()
    ensures var t := Table2C02;
      && t.fieldWidth == 341 && t.fieldHeight == 262 && t.dotSkip && t.colorburstPhase == 0x08
      && t.visibleHeight == t.activeScanlines + t.postrenderScanlines && VisibleWindowFits(t)
      && SamplesPerPixel(t) == 8
  {
    SamplesPerPixelValues();
  }

  lemma Constants2C07()
    ensures var t := Table2C07;
      && t.fieldWidth == 341 && t.fieldHeight == 312 && !t.dotSkip && t.colorburstPhase == 0x07
      && t.visibleHeight == t.activeScanlines + t.postrenderScanlines && !VisibleWindowFits(t)
      && SamplesPerPixel(t) == 10
  {
    SamplesPerPixelValues();
    Spans2C07();
  }

  /** The 2C07 table with its visible width widened to the 283 cells its active
      scanlines write (see Findings in the README). */
  const Table2C07Fixed: Timings := Table2C07.(visibleWidth := ActiveSpan(Table2C07))

  lemma Spans2C07Fixed()
    ensures SyncedRowsSpanField(Table2C07Fixed) && RegionsSpanField(Table2C07Fixed)
    ensures VisibleWindowFits(Table2C07Fixed)
  {
  }

  /** The tables with the visible window corrected: each differs from the
      source table at most in its visible width, and every variant's visible
      window then holds exactly the cells of an active scanline. */
  function ForVariantFixed(v: Variant): (t: Timings)
    ensures SyncedRowsSpanField(t) && RegionsSpanField(t)
    ensures VisibleWindowFits(t)
    ensures t == ForVariant(v).(visibleWidth := ActiveSpan(ForVariant(v)))
  {
    match v
    case Ntsc2C02 => Spans2C02(); Table2C02
    case Pal2C07 | DendyUA6538 => Spans2C07Fixed(); Table2C07Fixed
  }

  /** Raw-buffer width and height: the whole field with sync, otherwise only
      the visible window. */
  function BufferWidth(t: Timings, sync: bool): nat {
    if sync then t.fieldWidth else t.visibleWidth
  }

  function BufferHeight(t: Timings, sync: bool): nat {
    if sync then t.fieldHeight else t.visibleHeight
  }
}
