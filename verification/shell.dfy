/** The raster-shell builder (InitializeField in src/NES-CVBS.cpp): for every
    scanline it picks the vertical region the scanline lies in and writes
    that region's horizontal segments into the flat raw buffer. */
module Shell {
  import opened Results
  import opened Dots
  import opened Timings
  import opened Raster

  /** Picture content the shell lays down before any frame is merged in:
      a gray pulse of code 0x25 & 0x30, borders of code 0x10 and an active
      window of code 0x25. */
  const GrayPulseDot: int := 0x20
  const BorderDot: int := 0x10
  const PictureDot: int := 0x25

  /** scanline_is_in: raises the running region threshold by length and
      tells whether the scanline lies below the raised threshold. */
  function ScanlineIsIn(length: nat, scanline: nat, threshold: nat): (bool, nat) {
    (scanline < threshold + length, threshold + length)
  }

  /** Horizontal sync, first back porch, colorburst, second back porch. */
  function LeadInOps(t: Timings): seq<Op> {
    [Fill(t.horizontalSync, SyncLevel), Fill(t.backPorchFirst, BlankLevel),
     Fill(t.colorburst, ColorburstLevel), Fill(t.backPorchSecond, BlankLevel)]
  }

  function FrontPorchOps(t: Timings, sync: bool): seq<Op> {
    if sync then [Fill(t.frontPorch, BlankLevel)] else []
  }

  /** The write plan InitializeField carries out on scanline s: the lead-in
      when sync is on, the segments of the first region whose running
      threshold lies above s (the blanking and sync regions only when sync is
      on; a vertical-sync line first rewinds the cursor to the row start),
      then the front porch when sync is on. */
  function ShellOps(t: Timings, sync: bool, s: nat): seq<Op> {
    HeadOps(t, sync) + ShellBody(t, sync, s) + FrontPorchOps(t, sync)
  }

  function HeadOps(t: Timings, sync: bool): seq<Op> {
    if sync then LeadInOps(t) else []
  }

  /** The segments of the region scanline s falls in, chosen by the chain of
      scanline_is_in tests with their running threshold. Only a vertical-sync
      line with sync on starts with a rewind. */
  function ShellBody(t: Timings, sync: bool, s: nat): (r: seq<Op>)
    ensures (|r| > 0 && r[0].Rewind?) <==> sync && RegionOf(t, s) == VerticalSyncRegion
  {
    var (inActive, t1) := ScanlineIsIn(t.activeScanlines, s, 0);
    var (inPostrender, t2) := ScanlineIsIn(t.postrenderScanlines, s, t1);
    var (inPostrenderBlank, t3) := ScanlineIsIn(t.postrenderBlankScanlines, s, t2);
    var (inVerticalSync, t4) := ScanlineIsIn(t.verticalSyncScanlines, s, t3);
    var (inPrerender, _) := ScanlineIsIn(t.prerenderBlankingScanlines, s, t4);
    if inActive then
      [Fill(t.grayPulse, GrayPulseDot), Fill(t.borderLeft, BorderDot),
       Fill(t.activePixels, PictureDot), Fill(t.borderRight, BorderDot)]
    else if inPostrender then
      [Fill(t.grayPulse, GrayPulseDot), Fill(t.borderBottom, BorderDot)]
    else if sync && inPostrenderBlank then
      [Fill(t.vblank, BlankLevel)]
    else if sync && inVerticalSync then
      [Rewind, Fill(t.blankPulse, SyncLevel), Fill(t.syncSeparator, BlankLevel)]
    else if sync && inPrerender then
      [Fill(t.vblank, BlankLevel)]
    else []
  }

  /** The vertical regions of a field, top to bottom. */
  datatype Region = ActiveRegion | PostrenderRegion | PostrenderBlankRegion
                  | VerticalSyncRegion | PrerenderRegion | BelowField

  /** The region scanline s lies in: each region is the range of scanlines
      that follows the previous one and is as long as the table says. */
  function RegionOf(t: Timings, s: nat): Region {
    var a := t.activeScanlines;
    var p := a + t.postrenderScanlines;
    var pb := p + t.postrenderBlankScanlines;
    var vs := pb + t.verticalSyncScanlines;
    var pr := vs + t.prerenderBlankingScanlines;
    if s < a then ActiveRegion
    else if s < p then PostrenderRegion
    else if s < pb then PostrenderBlankRegion
    else if s < vs then VerticalSyncRegion
    else if s < pr then PrerenderRegion
    else BelowField
  }

  function LeadInCells(t: Timings): seq<int> {
    Repeat(SyncLevel, t.horizontalSync) + Repeat(BlankLevel, t.backPorchFirst)
      + Repeat(ColorburstLevel, t.colorburst) + Repeat(BlankLevel, t.backPorchSecond)
  }

  /** The colorburst run of the lead-in. */
  lemma LeadInColorburst(t: Timings, i: nat)
    requires t.horizontalSync + t.backPorchFirst <= i < t.horizontalSync + t.backPorchFirst + t.colorburst
    ensures i < |LeadInCells(t)| && LeadInCells(t)[i] == ColorburstLevel
  {
    var a, b := Repeat(SyncLevel, t.horizontalSync), Repeat(BlankLevel, t.backPorchFirst);
    var c, d := Repeat(ColorburstLevel, t.colorburst), Repeat(BlankLevel, t.backPorchSecond);
    assert LeadInCells(t) == (a + b) + c + d;
    assert ((a + b) + c + d)[i] == c[i - |a + b|];
  }

  /** The documented layout of a shell scanline, cell by cell. With sync every
      line is framed by the lead-in and the front porch, except a
      vertical-sync line, which is a long sync pulse, a separator and the
      front porch. Without sync only the active and postrender lines exist. */
  function ExpectedShellRow(t: Timings, sync: bool, s: nat): seq<int> {
    var lead := if sync then LeadInCells(t) else [];
    var porch := if sync then Repeat(BlankLevel, t.frontPorch) else [];
    if sync && RegionOf(t, s) == VerticalSyncRegion then
      Repeat(SyncLevel, t.blankPulse) + Repeat(BlankLevel, t.syncSeparator) + porch
    else lead + RegionCells(t, sync, RegionOf(t, s)) + porch
  }

  /** What a scanline of a region holds between the back porch and the front
      porch; the blanking regions exist only when sync is on. */
  function RegionCells(t: Timings, sync: bool, region: Region): seq<int> {
    match region
    case ActiveRegion =>
      Repeat(GrayPulseDot, t.grayPulse) + Repeat(BorderDot, t.borderLeft)
        + Repeat(PictureDot, t.activePixels) + Repeat(BorderDot, t.borderRight)
    case PostrenderRegion => Repeat(GrayPulseDot, t.grayPulse) + Repeat(BorderDot, t.borderBottom)
    case PostrenderBlankRegion => if sync then Repeat(BlankLevel, t.vblank) else []
    case PrerenderRegion => if sync then Repeat(BlankLevel, t.vblank) else []
    case _ => []
  }

  /** The table agrees with the buffer the constructor sizes for it. */
  predicate LayoutHolds(t: Timings, sync: bool) {
    if sync then SyncedRowsSpanField(t) && RegionsSpanField(t) else VisibleWindowFits(t)
  }

  lemma ConcatLeadIn(t: Timings)
    ensures Concat(LeadInOps(t)) == LeadInCells(t)
    ensures Straight(LeadInOps(t))
  {
    Concat4(Fill(t.horizontalSync, SyncLevel), Fill(t.backPorchFirst, BlankLevel),
      Fill(t.colorburst, ColorburstLevel), Fill(t.backPorchSecond, BlankLevel));
  }

  lemma ConcatHead(t: Timings, sync: bool)
    ensures Concat(HeadOps(t, sync)) == if sync then LeadInCells(t) else []
    ensures Straight(HeadOps(t, sync))
  {
    ConcatLeadIn(t);
  }

  lemma ConcatPorch(t: Timings, sync: bool)
    ensures Straight(FrontPorchOps(t, sync))
    ensures Concat(FrontPorchOps(t, sync)) == if sync then Repeat(BlankLevel, t.frontPorch) else []
  {
    Concat1(Fill(t.frontPorch, BlankLevel));
  }

  /** Outside the vertical-sync lines the region's segments are one straight
      run of cells. */
  lemma ConcatBody(t: Timings, sync: bool, s: nat)
    requires RegionOf(t, s) != VerticalSyncRegion
    ensures Straight(ShellBody(t, sync, s))
    ensures Concat(ShellBody(t, sync, s)) == RegionCells(t, sync, RegionOf(t, s))
  {
    match RegionOf(t, s)
    case ActiveRegion =>
      Concat4(Fill(t.grayPulse, GrayPulseDot), Fill(t.borderLeft, BorderDot),
        Fill(t.activePixels, PictureDot), Fill(t.borderRight, BorderDot));
    case PostrenderRegion =>
      Concat2(Fill(t.grayPulse, GrayPulseDot), Fill(t.borderBottom, BorderDot));
    case PostrenderBlankRegion =>
      Concat1(Fill(t.vblank, BlankLevel));
    case PrerenderRegion =>
      Concat1(Fill(t.vblank, BlankLevel));
    case BelowField =>
  }

  /** A vertical-sync line: after the lead-in the cursor rewinds, and the
      sync pulse, separator and front porch cover the whole row again. */
  lemma VerticalSyncRow(t: Timings, s: nat, row: seq<int>)
    requires SyncedRowsSpanField(t) && |row| == t.fieldWidth
    requires RegionOf(t, s) == VerticalSyncRegion
    ensures Reach(0, ShellOps(t, true, s)) == EndCursor(0, ShellOps(t, true, s)) == t.fieldWidth
    ensures PaintRow(row, ShellOps(t, true, s)) == ExpectedShellRow(t, true, s)
  {
    var head := HeadOps(t, true);
    var a, b := Fill(t.blankPulse, SyncLevel), Fill(t.syncSeparator, BlankLevel);
    var porch := FrontPorchOps(t, true);
    var c := [a, b] + porch;
    assert ShellOps(t, true, s) == head + ([Rewind] + c);
    ConcatLeadIn(t);
    ConcatPorch(t, true);
    Concat2(a, b);
    ConcatAppend([a, b], porch);
    StraightJoin([a, b], porch);
    PaintRewound(row, head, c);
  }

  /** Every scanline the shell writes is laid out as documented, and its plan
      ends exactly at the row end, whenever the table agrees with the buffer
      size. */
  lemma ShellRowLayout(t: Timings, sync: bool, s: nat, row: seq<int>)
    requires LayoutHolds(t, sync) && s < BufferHeight(t, sync) && |row| == BufferWidth(t, sync)
    ensures Reach(0, ShellOps(t, sync, s)) == BufferWidth(t, sync)
    ensures EndCursor(0, ShellOps(t, sync, s)) == BufferWidth(t, sync)
    ensures PaintRow(row, ShellOps(t, sync, s)) == ExpectedShellRow(t, sync, s)
  {
    if RegionOf(t, s) == VerticalSyncRegion {
      VerticalSyncRow(t, s, row);
    } else {
      ConcatHead(t, sync);
      ConcatPorch(t, sync);
      ConcatBody(t, sync, s);
      RowWidth(t, sync, s);
      PaintJoined(row, HeadOps(t, sync), ShellBody(t, sync, s), FrontPorchOps(t, sync));
    }
  }

  /** Outside the vertical-sync lines a shell scanline of the buffer is its
      lead-in, region cells and front porch, exactly one buffer row long. */
  lemma RowWidth(t: Timings, sync: bool, s: nat)
    requires LayoutHolds(t, sync) && s < BufferHeight(t, sync)
    requires RegionOf(t, s) != VerticalSyncRegion
    ensures |(if sync then LeadInCells(t) else []) + RegionCells(t, sync, RegionOf(t, s))
             + (if sync then Repeat(BlankLevel, t.frontPorch) else [])| == BufferWidth(t, sync)
  {
  }

  /** A vertical-sync scanline holds only sync and blank levels: the
      rewind leaves no colorburst behind. */
  lemma VerticalSyncRowHasNoColorburst(t: Timings, s: nat)
    requires RegionOf(t, s) == VerticalSyncRegion
    ensures forall i | 0 <= i < |ExpectedShellRow(t, true, s)| ::
      ExpectedShellRow(t, true, s)[i] == SyncLevel || ExpectedShellRow(t, true, s)[i] == BlankLevel
  {
    var a, b := Repeat(SyncLevel, t.blankPulse), Repeat(BlankLevel, t.syncSeparator);
    var c := Repeat(BlankLevel, t.frontPorch);
    assert ExpectedShellRow(t, true, s) == a + b + c;
  }

  /** Without sync a scanline holds only 9-bit pixel codes: no sync, blank
      or colorburst level and no front porch is written. */
  lemma UnsyncedRowHoldsPixels(t: Timings, s: nat)
    ensures forall i | 0 <= i < |ExpectedShellRow(t, false, s)| ::
      0 <= ExpectedShellRow(t, false, s)[i] < PixelCodes
  {
    var row := ExpectedShellRow(t, false, s);
    assert row == RegionCells(t, false, RegionOf(t, s));
    match RegionOf(t, s)
    case ActiveRegion =>
      var a, b := Repeat(GrayPulseDot, t.grayPulse), Repeat(BorderDot, t.borderLeft);
      var c, d := Repeat(PictureDot, t.activePixels), Repeat(BorderDot, t.borderRight);
      assert row == a + b + c + d;
    case PostrenderRegion =>
    case _ =>
  }

  /** Every scanline's plan stays inside the raw buffer. */
  predicate ShellInBuffer(t: Timings, sync: bool) {
    var w, h := BufferWidth(t, sync), BufferHeight(t, sync);
    forall s | 0 <= s < h :: s * w + Reach(0, ShellOps(t, sync, s)) <= w * h
  }

  /** InitializeField: lays the shell down, scanline by scanline, over the
      zeroed raw buffer the constructor allocates. It fails exactly when some
      scanline writes past the end of the buffer; when the table agrees with
      the buffer size it succeeds and every row is the documented layout. */
  method InitializeField(t: Timings, sync: bool) returns (r: Result<seq<int>>)
    ensures r.Ok? <==> ShellInBuffer(t, sync)
    ensures r.Ok? ==> |r.value| == BufferWidth(t, sync) * BufferHeight(t, sync)
    ensures LayoutHolds(t, sync) ==> r.Ok?
    ensures LayoutHolds(t, sync) && r.Ok? ==>
      forall s | 0 <= s < BufferHeight(t, sync) ::
        Row(r.value, BufferWidth(t, sync), BufferHeight(t, sync), s) == ExpectedShellRow(t, sync, s)
  {
    var w, h := BufferWidth(t, sync), BufferHeight(t, sync);
    var init := Repeat(0, w * h);
    var plan := (s: nat) => ShellOps(t, sync, s);
    assert forall s: nat :: plan(s) == ShellOps(t, sync, s);
    r := PaintRows(init, w, h, plan);
    ApplyRowsDefinedIff(init, w, h, plan, h);
    if LayoutHolds(t, sync) {
      ShellRowsLaidOut(t, sync, init);
      ApplyRowsPaints(init, w, h, plan);
    }
  }

  lemma ShellRowsLaidOut(t: Timings, sync: bool, init: seq<int>)
    requires LayoutHolds(t, sync)
    requires |init| == BufferWidth(t, sync) * BufferHeight(t, sync)
    ensures ShellInBuffer(t, sync)
    ensures forall s | 0 <= s < BufferHeight(t, sync) :: Reach(0, ShellOps(t, sync, s)) <= BufferWidth(t, sync)
    ensures forall s | 0 <= s < BufferHeight(t, sync) ::
      PaintRow(Row(init, BufferWidth(t, sync), BufferHeight(t, sync), s), ShellOps(t, sync, s))
        == ExpectedShellRow(t, sync, s)
  {
    var w, h := BufferWidth(t, sync), BufferHeight(t, sync);
    forall s | 0 <= s < h
      ensures Reach(0, ShellOps(t, sync, s)) == w
      ensures PaintRow(Row(init, w, h, s), ShellOps(t, sync, s)) == ExpectedShellRow(t, sync, s)
    {
      ShellRowLayout(t, sync, s, Row(init, w, h, s));
    }
    ShellInBufferWhenLaidOut(t, sync);
  }

  /** With the tables as written the shell fits the buffer exactly when sync
      is on or the variant is the 2C02: without sync the 2C07 and Dendy
      active scanlines write 283 cells into 256-cell rows, and the last one
      runs off the end of the buffer. */
  lemma ShellInBufferAsWritten(v: Variant, sync: bool)
    ensures ShellInBuffer(ForVariant(v), sync) <==> sync || v == Ntsc2C02
  {
    var t := ForVariant(v);
    if sync || v == Ntsc2C02 {
      if !sync { Spans2C02(); }
      ShellInBufferWhenLaidOut(t, sync);
    } else {
      PalShellOverruns();
    }
  }

  /** Without sync the last active scanline of the 2C07 table, 239, writes
      cells 239 * 256 up to 239 * 256 + 283, past the 256 * 240 cells of the
      buffer. */
  lemma PalShellOverruns()
    ensures Reach(0, ShellOps(Table2C07, false, 239)) == 283
    ensures !ShellInBuffer(Table2C07, false)
  {
    var t := Table2C07;
    assert RegionOf(t, 239) == ActiveRegion;
    ConcatBody(t, false, 239);
    var ops := ShellOps(t, false, 239);
    assert ops == ShellBody(t, false, 239);
    ApplyStraight(Repeat(0, 283), 0, 0, ops);
    assert 239 * 256 + 283 > 256 * 240;
  }

  lemma ShellInBufferWhenLaidOut(t: Timings, sync: bool)
    requires LayoutHolds(t, sync)
    ensures ShellInBuffer(t, sync)
  {
    var w, h := BufferWidth(t, sync), BufferHeight(t, sync);
    forall s | 0 <= s < h ensures s * w + Reach(0, ShellOps(t, sync, s)) <= w * h {
      ShellRowLayout(t, sync, s, Repeat(0, w));
      RowBounds(w, h, s);
    }
  }

  /** With the corrected visible width every variant's shell fits, with or
      without sync. */
  lemma ShellInBufferFixed(v: Variant, sync: bool)
    ensures LayoutHolds(ForVariantFixed(v), sync)
    ensures ShellInBuffer(ForVariantFixed(v), sync)
  {
    ShellInBufferWhenLaidOut(ForVariantFixed(v), sync);
  }
}
