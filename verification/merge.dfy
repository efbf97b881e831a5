/** The merge pass (EmplaceField in src/NES-CVBS.cpp), which rebuilds every
    scanline of the raw buffer and splices the emulator's pixel codes into
    the active window: first as written, then corrected. */
module Merge {
  import opened Results
  import opened Dots
  import opened Timings
  import opened Raster
  import opened Shell

  function Min(a: nat, b: nat): nat { if a < b then a else b }

  /** Scanlines of the buffer that lie in the active region; the merge reads
      input for each of them. */
  function ActiveRows(t: Timings, sync: bool): nat {
    Min(t.activeScanlines, BufferHeight(t, sync))
  }

  /** The guard on the lead-in: with sync on, write it unless the scanline
      is a vertical-sync line and not also below the prerender threshold. */
  function EmplaceGuard(t: Timings, sync: bool, s: nat): bool {
    var (inVerticalSync, t1) := ScanlineIsIn(t.verticalSyncScanlines, s, 0);
    sync && (!inVerticalSync || ScanlineIsIn(t.prerenderBlankingScanlines, s, t1).0)
  }

  /** The guard never skips the lead-in: a scanline below the vertical-sync
      threshold is also below the larger prerender threshold. */
  lemma EmplaceGuardAlwaysTaken(t: Timings, sync: bool, s: nat)
    ensures EmplaceGuard(t, sync, s) <==> sync
  {
  }

  /** The region segments EmplaceField writes, with dot the one input code
      the call reads for an active scanline. Gray pulse and borders are
      written as blank level, and there is no prerender branch. No branch
      rewinds the cursor, the vertical-sync one included. */
  function EmplaceBody(t: Timings, sync: bool, s: nat, dot: int): (r: seq<Op>)
    ensures Straight(r)
  {
    var (inActive, t1) := ScanlineIsIn(t.activeScanlines, s, 0);
    var (inPostrender, t2) := ScanlineIsIn(t.postrenderScanlines, s, t1);
    var (inPostrenderBlank, t3) := ScanlineIsIn(t.postrenderBlankScanlines, s, t2);
    var (inVerticalSync, _) := ScanlineIsIn(t.verticalSyncScanlines, s, t3);
    if inActive then
      [Fill(t.grayPulse, BlankLevel), Fill(t.borderLeft, BlankLevel),
       Fill(t.activePixels, dot), Fill(t.borderRight, BlankLevel)]
    else if inPostrender then
      [Fill(t.grayPulse, BlankLevel), Fill(t.borderBottom, BlankLevel)]
    else if sync && inPostrenderBlank then
      [Fill(t.vblank, BlankLevel)]
    else if sync && inVerticalSync then
      [Fill(t.vblank, SyncLevel), Fill(t.syncSeparator, BlankLevel)]
    else []
  }

  /** The write plan EmplaceField carries out on scanline s: one straight
      run from the row start. */
  function EmplaceOps(t: Timings, sync: bool, s: nat, dot: int): (r: seq<Op>)
    ensures Straight(r)
  {
    ConcatLeadIn(t);
    ConcatPorch(t, sync);
    var head := if EmplaceGuard(t, sync, s) then LeadInOps(t) else [];
    StraightJoin(head, EmplaceBody(t, sync, s, dot));
    StraightJoin(head + EmplaceBody(t, sync, s, dot), FrontPorchOps(t, sync));
    head + EmplaceBody(t, sync, s, dot) + FrontPorchOps(t, sync)
  }

  /** The frame code scanline s is given when the first rows scanlines
      each read one code: the frame pointer is dereferenced and advanced once
      per such scanline, so scanline s reads code s of the frame. */
  function RowCode(rows: nat, frame: seq<int>, s: nat): int {
    if s < rows && s < |frame| then frame[s] else 0
  }

  /** The plan of every scanline, given the plan of a scanline for the code it
      reads. */
  function ReadingPlan(opsFor: (nat, int) -> seq<Op>, rows: nat, frame: seq<int>): nat -> seq<Op> {
    (s: nat) => opsFor(s, RowCode(rows, frame, s))
  }

  /** A row-by-row pass in which each of the first rows scanlines reads the
      next frame code before its plan runs. It fails exactly when the frame
      runs out or a plan leaves the buffer; otherwise it returns the
      ApplyRows buffer and the number of codes read. */
  method PaintRowsReading(field: seq<int>, w: nat, h: nat, rows: nat, frame: seq<int>,
                          opsFor: (nat, int) -> seq<Op>)
    returns (r: Result<(seq<int>, nat)>)
    requires |field| == w * h
    ensures r.Ok? <==> Min(rows, h) <= |frame| && ApplyRows(field, w, ReadingPlan(opsFor, rows, frame), h).Some?
    ensures r.Ok? ==>
      r.value.0 == ApplyRows(field, w, ReadingPlan(opsFor, rows, frame), h).value && r.value.1 == Min(rows, h)
  {
    var plan := ReadingPlan(opsFor, rows, frame);
    var buf := field;
    var p := 0;
    for s := 0 to h
      invariant p == Min(s, rows) <= |frame|
      invariant ApplyRows(field, w, plan, s) == Some(buf)
    {
      var code := 0;
      if s < rows {
        if p >= |frame| {
          return Err(OutOfBounds(p));
        }
        code := frame[p];
        p := p + 1;
      }
      assert RowCode(rows, frame, s) == code;
      assert plan(s) == opsFor(s, code);
      RowBounds(w, h, s);
      var res := RunRow(buf, w, s, opsFor(s, code));
      if res.Err? {
        ApplyRowsStaysNone(field, w, plan, s + 1, h);
        return Err(res.error);
      }
      buf := res.value.0;
    }
    return Ok((buf, p));
  }

  function EmplacePlan(t: Timings, sync: bool, frame: seq<int>): nat -> seq<Op> {
    ReadingPlan((s: nat, code: int) => EmplaceOps(t, sync, s, code), t.activeScanlines, frame)
  }

  /** EmplaceField as written, over the raw buffer field and the frame the
      pointer starts at: each active scanline reads one frame code, before
      its window is written. It fails exactly when the frame runs out or a
      scanline writes past the buffer; otherwise the buffer is the row-by-row
      result of the plans and the pointer has advanced once per active
      scanline. */
  method EmplaceField(t: Timings, sync: bool, field: seq<int>, frame: seq<int>)
    returns (r: Result<(seq<int>, nat)>)
    requires |field| == BufferWidth(t, sync) * BufferHeight(t, sync)
    ensures r.Ok? <==>
      ActiveRows(t, sync) <= |frame|
      && ApplyRows(field, BufferWidth(t, sync), EmplacePlan(t, sync, frame), BufferHeight(t, sync)).Some?
    ensures r.Ok? ==>
      && r.value.0 == ApplyRows(field, BufferWidth(t, sync), EmplacePlan(t, sync, frame), BufferHeight(t, sync)).value
      && r.value.1 == ActiveRows(t, sync)
    ensures r.Ok? && LayoutHolds(t, sync) ==> ActiveRowsHoldOneCode(t, sync, frame, r.value.0)
  {
    r := PaintRowsReading(field, BufferWidth(t, sync), BufferHeight(t, sync), t.activeScanlines, frame,
                          (s: nat, code: int) => EmplaceOps(t, sync, s, code));
    if r.Ok? && LayoutHolds(t, sync) {
      EmplaceRowsOneCode(t, sync, field, frame);
    }
  }

  /** Active scanline s of buf shows the single code s of the frame across
      the whole window, framed as an active scanline of the merge. */
  predicate ActiveRowsHoldOneCode(t: Timings, sync: bool, frame: seq<int>, buf: seq<int>) {
    var w, h := BufferWidth(t, sync), BufferHeight(t, sync);
    && |buf| == w * h && ActiveRows(t, sync) <= |frame|
    && forall s | 0 <= s < ActiveRows(t, sync) ::
         Row(buf, w, h, s) == MergedActiveRow(t, sync, Repeat(frame[s], t.activePixels))
  }

  /** An active scanline of the merge: lead-in (with sync), blank-level gray
      pulse and left border, the window, blank-level right border and front
      porch (with sync). */
  function MergedActiveRow(t: Timings, sync: bool, window: seq<int>): seq<int> {
    (if sync then LeadInCells(t) else [])
      + (Repeat(BlankLevel, t.grayPulse) + Repeat(BlankLevel, t.borderLeft) + window + Repeat(BlankLevel, t.borderRight))
      + (if sync then Repeat(BlankLevel, t.frontPorch) else [])
  }

  /** Cell offset of the active window within a scanline. */
  function WindowStart(t: Timings, sync: bool): nat {
    (if sync then |LeadInCells(t)| else 0) + t.grayPulse + t.borderLeft
  }

  /** The window sits at WindowStart in a merged active scanline. */
  lemma MergedActiveWindow(t: Timings, sync: bool, window: seq<int>)
    ensures var row := MergedActiveRow(t, sync, window);
      WindowStart(t, sync) + |window| <= |row|
      && row[WindowStart(t, sync) .. WindowStart(t, sync) + |window|] == window
  {
    var lead := (if sync then LeadInCells(t) else []) + Repeat(BlankLevel, t.grayPulse)
      + Repeat(BlankLevel, t.borderLeft);
    var tail := Repeat(BlankLevel, t.borderRight) + (if sync then Repeat(BlankLevel, t.frontPorch) else []);
    assert MergedActiveRow(t, sync, window) == lead + window + tail by {
      var a, b := Repeat(BlankLevel, t.grayPulse), Repeat(BlankLevel, t.borderLeft);
      var c := Repeat(BlankLevel, t.borderRight);
      var l, q := if sync then LeadInCells(t) else [], if sync then Repeat(BlankLevel, t.frontPorch) else [];
      assert l + (a + b + window + c) + q == (l + a + b) + window + (c + q);
    }
    assert (lead + window + tail)[|lead| .. |lead| + |window|] == window;
  }

  /** The cells of an active scanline fill its buffer row exactly. */
  lemma ActiveRowWidth(t: Timings, sync: bool)
    requires LayoutHolds(t, sync)
    ensures (if sync then |LeadInCells(t)| + t.frontPorch else 0)
      + t.grayPulse + t.borderLeft + t.activePixels + t.borderRight == BufferWidth(t, sync)
  {
  }

  /** An active scanline's row as the merge paints it, from the window step
      with the head and front porch the table gives. */
  lemma PaintActive(t: Timings, sync: bool, row: seq<int>, head: seq<Op>, window: Op)
    requires LayoutHolds(t, sync)
    requires |row| == BufferWidth(t, sync) && !window.Rewind? && |Cells(window)| == t.activePixels
    requires Straight(head) && Concat(head) == if sync then LeadInCells(t) else []
    ensures var ops := head + [Fill(t.grayPulse, BlankLevel), Fill(t.borderLeft, BlankLevel), window,
                               Fill(t.borderRight, BlankLevel)] + FrontPorchOps(t, sync);
      Reach(0, ops) == BufferWidth(t, sync)
      && PaintRow(row, ops) == MergedActiveRow(t, sync, Cells(window))
  {
    var body := [Fill(t.grayPulse, BlankLevel), Fill(t.borderLeft, BlankLevel), window, Fill(t.borderRight, BlankLevel)];
    Concat4(body[0], body[1], body[2], body[3]);
    ConcatPorch(t, sync);
    ActiveRowWidth(t, sync);
    PaintJoined(row, head, body, FrontPorchOps(t, sync));
  }

  /** As written, an active scanline repaints its whole row, and its window
      holds a single input code repeated across all active pixels. */
  lemma EmplaceActiveRowOneCode(t: Timings, sync: bool, s: nat, dot: int, row: seq<int>)
    requires LayoutHolds(t, sync) && s < t.activeScanlines && s < BufferHeight(t, sync)
    requires |row| == BufferWidth(t, sync)
    ensures Reach(0, EmplaceOps(t, sync, s, dot)) == BufferWidth(t, sync)
    ensures PaintRow(row, EmplaceOps(t, sync, s, dot)) == MergedActiveRow(t, sync, Repeat(dot, t.activePixels))
  {
    EmplaceGuardAlwaysTaken(t, sync, s);
    ConcatHead(t, sync);
    assert EmplaceOps(t, sync, s, dot) == HeadOps(t, sync)
      + [Fill(t.grayPulse, BlankLevel), Fill(t.borderLeft, BlankLevel), Fill(t.activePixels, dot),
         Fill(t.borderRight, BlankLevel)] + FrontPorchOps(t, sync);
    PaintActive(t, sync, row, HeadOps(t, sync), Fill(t.activePixels, dot));
  }

  /** As written, under a consistent table, the active scanlines of a pass
      that stays in the buffer keep what their own plans paint: later
      scanlines, the overrunning vertical-sync ones included, only write
      further down. So active scanline s shows frame code s in every window
      cell. */
  lemma EmplaceRowsOneCode(t: Timings, sync: bool, field: seq<int>, frame: seq<int>)
    requires LayoutHolds(t, sync) && |field| == BufferWidth(t, sync) * BufferHeight(t, sync)
    requires ActiveRows(t, sync) <= |frame|
    requires ApplyRows(field, BufferWidth(t, sync), EmplacePlan(t, sync, frame), BufferHeight(t, sync)).Some?
    ensures ActiveRowsHoldOneCode(t, sync, frame,
      ApplyRows(field, BufferWidth(t, sync), EmplacePlan(t, sync, frame), BufferHeight(t, sync)).value)
  {
    var w, h, n := BufferWidth(t, sync), BufferHeight(t, sync), ActiveRows(t, sync);
    EmplaceActiveRowsPaint(t, sync, field, frame);
    ApplyRowsFirstRows(field, w, h, EmplacePlan(t, sync, frame), n);
  }

  /** As written, each active scanline's plan stays in its row and paints it
      with the scanline's own frame code. */
  lemma EmplaceActiveRowsPaint(t: Timings, sync: bool, field: seq<int>, frame: seq<int>)
    requires LayoutHolds(t, sync) && |field| == BufferWidth(t, sync) * BufferHeight(t, sync)
    requires ActiveRows(t, sync) <= |frame|
    ensures forall u | 0 <= u < ActiveRows(t, sync) ::
      && Reach(0, EmplacePlan(t, sync, frame)(u)) <= BufferWidth(t, sync)
      && PaintRow(Row(field, BufferWidth(t, sync), BufferHeight(t, sync), u), EmplacePlan(t, sync, frame)(u))
           == MergedActiveRow(t, sync, Repeat(frame[u], t.activePixels))
  {
    var w, h, n := BufferWidth(t, sync), BufferHeight(t, sync), ActiveRows(t, sync);
    forall u | 0 <= u < n
      ensures Reach(0, EmplacePlan(t, sync, frame)(u)) <= w
      ensures PaintRow(Row(field, w, h, u), EmplacePlan(t, sync, frame)(u))
        == MergedActiveRow(t, sync, Repeat(frame[u], t.activePixels))
    {
      assert u < t.activeScanlines && RowCode(t.activeScanlines, frame, u) == frame[u];
      assert EmplacePlan(t, sync, frame)(u) == EmplaceOps(t, sync, u, frame[u]);
      EmplaceActiveRowOneCode(t, sync, u, frame[u], Row(field, w, h, u));
    }
  }

  /** As written, a vertical-sync scanline's plan is the lead-in, a vblank
      long sync run and separator, and the front porch. */
  lemma EmplaceVerticalSyncOps(t: Timings, s: nat, dot: int)
    requires RegionOf(t, s) == VerticalSyncRegion
    ensures EmplaceOps(t, true, s, dot)
      == LeadInOps(t) + [Fill(t.vblank, SyncLevel), Fill(t.syncSeparator, BlankLevel)] + FrontPorchOps(t, true)
  {
    EmplaceGuardAlwaysTaken(t, true, s);
  }

  /** As written, a vertical-sync scanline keeps the lead-in, colorburst
      included, then writes a sync run as long as a blanking line's vblank,
      the separator and the front porch: one straight run of
      LeadIn + vblank + separator + front porch cells from the row start. */
  lemma EmplaceVerticalSyncCells(t: Timings, s: nat, dot: int)
    requires RegionOf(t, s) == VerticalSyncRegion
    ensures var ops := EmplaceOps(t, true, s, dot);
      && Concat(ops) == LeadInCells(t) + Repeat(SyncLevel, t.vblank)
           + Repeat(BlankLevel, t.syncSeparator) + Repeat(BlankLevel, t.frontPorch)
      && Reach(0, ops) == |Concat(ops)|
  {
    var head, porch := LeadInOps(t), FrontPorchOps(t, true);
    var body := [Fill(t.vblank, SyncLevel), Fill(t.syncSeparator, BlankLevel)];
    EmplaceVerticalSyncOps(t, s, dot);
    ConcatLeadIn(t);
    ConcatPorch(t, true);
    Concat2(body[0], body[1]);
    ConcatAppend(head, body);
    ConcatAppend(head + body, porch);
    StraightJoin(head, body);
    StraightJoin(head + body, porch);
    var cells := Concat(head + body + porch);
    ApplyStraight(Repeat(0, |cells|), 0, 0, head + body + porch);
  }

  /** The colorburst cell of the lead-in survives on a vertical-sync line. */
  lemma EmplaceVerticalSyncColorburst(t: Timings, s: nat, dot: int)
    requires RegionOf(t, s) == VerticalSyncRegion && t.colorburst > 0
    ensures var cells := Concat(EmplaceOps(t, true, s, dot));
      t.horizontalSync + t.backPorchFirst < |cells|
      && cells[t.horizontalSync + t.backPorchFirst] == ColorburstLevel
  {
    EmplaceVerticalSyncCells(t, s, dot);
    var i := t.horizontalSync + t.backPorchFirst;
    LeadInColorburst(t, i);
    var tail := Repeat(SyncLevel, t.vblank) + Repeat(BlankLevel, t.syncSeparator) + Repeat(BlankLevel, t.frontPorch);
    assert LeadInCells(t) + Repeat(SyncLevel, t.vblank) + Repeat(BlankLevel, t.syncSeparator)
      + Repeat(BlankLevel, t.frontPorch) == LeadInCells(t) + tail;
  }

  /** How far the as-written vertical-sync plan reaches: the lead-in, a
      vblank-long sync run, the separator and the front porch. */
  function VerticalSyncReach(t: Timings): nat {
    t.horizontalSync + t.backPorchFirst + t.colorburst + t.backPorchSecond
      + t.vblank + t.syncSeparator + t.frontPorch
  }

  lemma EmplaceVerticalSyncLength(t: Timings, s: nat, dot: int)
    requires RegionOf(t, s) == VerticalSyncRegion
    ensures var ops := EmplaceOps(t, true, s, dot);
      Reach(0, ops) == |Concat(ops)| == VerticalSyncReach(t)
  {
    EmplaceVerticalSyncCells(t, s, dot);
  }

  /** On the shipped tables that reach is 49 + 283 + 14 + 9 = 355 cells on
      the 2C02 and 49 + 283 + 12 + 9 = 353 on the 2C07 and Dendy, past the
      341-cell row, so the tail spills into the next scanline. */
  lemma EmplaceVerticalSyncOverrun()
    ensures VerticalSyncReach(Table2C02) == 355 > Table2C02.fieldWidth
    ensures VerticalSyncReach(Table2C07) == 353 > Table2C07.fieldWidth
    ensures VerticalSyncReach(TableUA6538) == 353 > TableUA6538.fieldWidth
  {
  }

  /** The window of active scanline s: the frame is consumed activePixels
      codes per active scanline. */
  function FrameWindow(t: Timings, frame: seq<int>, s: nat): seq<int> {
    var lo := s * t.activePixels;
    if lo + t.activePixels <= |frame| then frame[lo .. lo + t.activePixels] else []
  }

  /** The corrected plan. An active scanline copies its own window of frame
      codes. A vertical-sync line with sync on rewinds after the lead-in, as
      the shell does, so its row ends at the row end. Every other scanline
      keeps the plan EmplaceField gives it. */
  function MergeOps(t: Timings, sync: bool, s: nat, window: seq<int>): seq<Op> {
    if RegionOf(t, s) == ActiveRegion then
      HeadOps(t, sync)
        + [Fill(t.grayPulse, BlankLevel), Fill(t.borderLeft, BlankLevel), Copy(window), Fill(t.borderRight, BlankLevel)]
        + FrontPorchOps(t, sync)
    else if sync && RegionOf(t, s) == VerticalSyncRegion then ShellOps(t, sync, s)
    else EmplaceOps(t, sync, s, 0)
  }

  /** The corrected plan differs from the plan as written only on the active
      scanlines, by the window it copies, and on the vertical-sync lines. */
  lemma MergeOpsAsWritten(t: Timings, sync: bool, s: nat, window: seq<int>, dot: int)
    ensures RegionOf(t, s) != ActiveRegion && !(sync && RegionOf(t, s) == VerticalSyncRegion) ==>
      MergeOps(t, sync, s, window) == EmplaceOps(t, sync, s, dot)
    ensures RegionOf(t, s) == ActiveRegion ==>
      MergeOps(t, sync, s, window)[..|HeadOps(t, sync)| + 2] == EmplaceOps(t, sync, s, dot)[..|HeadOps(t, sync)| + 2]
      && MergeOps(t, sync, s, window)[|HeadOps(t, sync)| + 3..] == EmplaceOps(t, sync, s, dot)[|HeadOps(t, sync)| + 3..]
  {
    EmplaceGuardAlwaysTaken(t, sync, s);
  }

  function MergePlan(t: Timings, sync: bool, frame: seq<int>): nat -> seq<Op> {
    (s: nat) => MergeOps(t, sync, s, FrameWindow(t, frame, s))
  }

  /** What the merge writes between the back porch and the front porch of a
      scanline outside the active and vertical-sync lines: blank level over
      the gray pulse and bottom border of a postrender line, a vblank run of
      blank level on a postrender-blank line, and nothing on a prerender
      line. */
  function EmplaceCells(t: Timings, sync: bool, region: Region): seq<int> {
    match region
    case PostrenderRegion => Repeat(BlankLevel, t.grayPulse) + Repeat(BlankLevel, t.borderBottom)
    case PostrenderBlankRegion => if sync then Repeat(BlankLevel, t.vblank) else []
    case _ => []
  }

  /** Outside the active and synced vertical-sync lines, the merge's region
      segments are one straight run of EmplaceCells. */
  lemma ConcatEmplaceBody(t: Timings, sync: bool, s: nat, dot: int)
    requires RegionOf(t, s) != ActiveRegion && !(sync && RegionOf(t, s) == VerticalSyncRegion)
    ensures Concat(EmplaceBody(t, sync, s, dot)) == EmplaceCells(t, sync, RegionOf(t, s))
  {
    match RegionOf(t, s)
    case PostrenderRegion =>
      Concat2(Fill(t.grayPulse, BlankLevel), Fill(t.borderBottom, BlankLevel));
    case PostrenderBlankRegion =>
      Concat1(Fill(t.vblank, BlankLevel));
    case _ =>
  }

  /** The documented content of scanline s after the corrected merge, given
      the row it held before: an active scanline is framed around its
      window, a synced vertical-sync line is the shell's, and any other
      scanline gets the lead-in, its EmplaceCells and the front porch written
      from the row start, the rest of the row kept. */
  function MergedRow(t: Timings, sync: bool, s: nat, window: seq<int>, row: seq<int>): seq<int> {
    if RegionOf(t, s) == ActiveRegion then MergedActiveRow(t, sync, window)
    else if sync && RegionOf(t, s) == VerticalSyncRegion then ExpectedShellRow(t, sync, s)
    else
      Overlay(row, (if sync then LeadInCells(t) else []) + EmplaceCells(t, sync, RegionOf(t, s))
                     + (if sync then Repeat(BlankLevel, t.frontPorch) else []))
  }

  /** Under a consistent table the cells the merge writes outside the active
      and vertical-sync lines fit the row, and fill it except on a prerender
      line. */
  lemma EmplaceRowWidth(t: Timings, sync: bool, s: nat)
    requires LayoutHolds(t, sync) && s < BufferHeight(t, sync)
    requires RegionOf(t, s) != ActiveRegion && !(sync && RegionOf(t, s) == VerticalSyncRegion)
    ensures var n := |(if sync then LeadInCells(t) else []) + EmplaceCells(t, sync, RegionOf(t, s))
                      + (if sync then Repeat(BlankLevel, t.frontPorch) else [])|;
      n <= BufferWidth(t, sync) && (RegionOf(t, s) != PrerenderRegion ==> n == BufferWidth(t, sync))
  {
  }

  /** Under a consistent table every corrected scanline stays in its row and
      is laid out as documented; all but the prerender lines end exactly at
      the row end. */
  lemma MergeRowLayout(t: Timings, sync: bool, s: nat, window: seq<int>, row: seq<int>)
    requires LayoutHolds(t, sync) && s < BufferHeight(t, sync) && |row| == BufferWidth(t, sync)
    requires RegionOf(t, s) == ActiveRegion ==> |window| == t.activePixels
    ensures Reach(0, MergeOps(t, sync, s, window)) <= BufferWidth(t, sync)
    ensures RegionOf(t, s) != PrerenderRegion ==> Reach(0, MergeOps(t, sync, s, window)) == BufferWidth(t, sync)
    ensures PaintRow(row, MergeOps(t, sync, s, window)) == MergedRow(t, sync, s, window, row)
  {
    if RegionOf(t, s) == ActiveRegion {
      ConcatHead(t, sync);
      PaintActive(t, sync, row, HeadOps(t, sync), Copy(window));
    } else if sync && RegionOf(t, s) == VerticalSyncRegion {
      ShellRowLayout(t, sync, s, row);
    } else {
      var head, body, porch := HeadOps(t, sync), EmplaceBody(t, sync, s, 0), FrontPorchOps(t, sync);
      EmplaceGuardAlwaysTaken(t, sync, s);
      assert EmplaceOps(t, sync, s, 0) == head + body + porch;
      ConcatHead(t, sync);
      ConcatPorch(t, sync);
      ConcatEmplaceBody(t, sync, s, 0);
      ConcatAppend(head, body);
      ConcatAppend(head + body, porch);
      EmplaceRowWidth(t, sync, s);
      PaintPrefix(row, head + body + porch);
    }
  }

  /** A prerender line the shell laid out is left as it was: the lead-in
      and front porch the merge writes over its start are the cells already
      there. */
  lemma MergeKeepsShellPrerender(t: Timings, s: nat)
    requires LayoutHolds(t, true) && RegionOf(t, s) == PrerenderRegion
    ensures MergedRow(t, true, s, [], ExpectedShellRow(t, true, s)) == ExpectedShellRow(t, true, s)
  {
    var lead, porch := LeadInCells(t), Repeat(BlankLevel, t.frontPorch);
    var row := ExpectedShellRow(t, true, s);
    var cells := lead + EmplaceCells(t, true, PrerenderRegion) + porch;
    assert cells == lead + porch;
    assert row == lead + (Repeat(BlankLevel, t.vblank) + porch);
    var merged := MergedRow(t, true, s, [], row);
    assert merged == Overlay(row, cells);
    forall i | 0 <= i < |row| ensures merged[i] == row[i] {
      if i < |lead| {
        assert merged[i] == cells[i] == lead[i] == row[i];
      } else if i < |cells| {
        assert merged[i] == cells[i] == porch[i - |lead|] == BlankLevel;
        assert row[i] == (Repeat(BlankLevel, t.vblank) + porch)[i - |lead|] == BlankLevel;
      }
    }
  }

  lemma WindowInFrame(t: Timings, sync: bool, frame: seq<int>, s: nat)
    requires s < ActiveRows(t, sync) && ActiveRows(t, sync) * t.activePixels <= |frame|
    ensures s * t.activePixels + t.activePixels <= |frame|
    ensures FrameWindow(t, frame, s) == frame[s * t.activePixels .. s * t.activePixels + t.activePixels]
  {
    MulLe(s + 1, ActiveRows(t, sync), t.activePixels);
  }

  /** Every scanline of buf is as the corrected merge documents it over the
      buffer field: active scanline s holds window s of the frame. */
  predicate MergedAsDocumented(t: Timings, sync: bool, frame: seq<int>, field: seq<int>, buf: seq<int>) {
    var w, h := BufferWidth(t, sync), BufferHeight(t, sync);
    |field| == w * h && |buf| == w * h
    && forall s | 0 <= s < h ::
         Row(buf, w, h, s) == MergedRow(t, sync, s, FrameWindow(t, frame, s), Row(field, w, h, s))
  }

  /** Every scanline's plan, measured from its row start, stays inside the
      w by h buffer. */
  predicate RowsFit(w: nat, h: nat, plan: nat -> seq<Op>) {
    forall s | 0 <= s < h :: s * w + Reach(0, plan(s)) <= w * h
  }

  /** Every scanline's plan stays inside its own row. */
  predicate RowsWithin(w: nat, h: nat, plan: nat -> seq<Op>) {
    forall s | 0 <= s < h :: Reach(0, plan(s)) <= w
  }

  /** A row-by-row pass that first checks a frame of supply codes holds the
      need codes it will copy. It fails exactly when the frame is too short
      or some plan leaves the buffer; when every plan stays in its own row,
      each row is painted by its plan alone. */
  method PaintRowsFed(field: seq<int>, w: nat, h: nat, plan: nat -> seq<Op>, need: nat, supply: nat)
    returns (r: Result<(seq<int>, nat)>)
    requires |field| == w * h
    ensures r.Ok? <==> need <= supply && RowsFit(w, h, plan)
    ensures r.Ok? ==> |r.value.0| == w * h && r.value.1 == need
    ensures r.Ok? && RowsWithin(w, h, plan) ==>
      forall s | 0 <= s < h :: Row(r.value.0, w, h, s) == PaintRow(Row(field, w, h, s), plan(s))
  {
    if need > supply {
      return Err(OutOfBounds(supply));
    }
    var res := PaintRows(field, w, h, plan);
    ApplyRowsDefinedIff(field, w, h, plan, h);
    if res.Err? {
      return Err(res.error);
    }
    if RowsWithin(w, h, plan) {
      ApplyRowsPaints(field, w, h, plan);
    }
    return Ok((res.value, need));
  }

  /** The corrected merge: checks the frame holds a window for every active
      scanline, then rebuilds every scanline from its plan. It fails exactly
      when the frame is too short or a plan leaves the buffer. Under a
      consistent table it succeeds whenever the frame is long enough: active
      scanline s shows frame codes 256 s up to 256 (s + 1), every other
      scanline is as MergedRow documents it from what the row held, and the
      frame is consumed a window per active scanline. */
  method MergeField(t: Timings, sync: bool, field: seq<int>, frame: seq<int>)
    returns (r: Result<(seq<int>, nat)>)
    requires |field| == BufferWidth(t, sync) * BufferHeight(t, sync)
    ensures r.Ok? <==>
      ActiveRows(t, sync) * t.activePixels <= |frame|
      && RowsFit(BufferWidth(t, sync), BufferHeight(t, sync), MergePlan(t, sync, frame))
    ensures r.Ok? ==> r.value.1 == ActiveRows(t, sync) * t.activePixels
    ensures LayoutHolds(t, sync) && ActiveRows(t, sync) * t.activePixels <= |frame| ==>
      r.Ok? && MergedAsDocumented(t, sync, frame, field, r.value.0)
  {
    var w, h := BufferWidth(t, sync), BufferHeight(t, sync);
    var plan := MergePlan(t, sync, frame);
    r := PaintRowsFed(field, w, h, plan, ActiveRows(t, sync) * t.activePixels, |frame|);
    if LayoutHolds(t, sync) && ActiveRows(t, sync) * t.activePixels <= |frame| {
      MergeRowsLaidOut(t, sync, field, frame);
    }
  }

  /** Under a consistent table and a long enough frame, every corrected
      scanline stays in its row and paints it as documented. */
  lemma MergeRowsLaidOut(t: Timings, sync: bool, field: seq<int>, frame: seq<int>)
    requires LayoutHolds(t, sync) && |field| == BufferWidth(t, sync) * BufferHeight(t, sync)
    requires ActiveRows(t, sync) * t.activePixels <= |frame|
    ensures RowsWithin(BufferWidth(t, sync), BufferHeight(t, sync), MergePlan(t, sync, frame))
    ensures RowsFit(BufferWidth(t, sync), BufferHeight(t, sync), MergePlan(t, sync, frame))
    ensures forall s | 0 <= s < BufferHeight(t, sync) ::
      PaintRow(Row(field, BufferWidth(t, sync), BufferHeight(t, sync), s), MergePlan(t, sync, frame)(s))
        == MergedRow(t, sync, s, FrameWindow(t, frame, s), Row(field, BufferWidth(t, sync), BufferHeight(t, sync), s))
  {
    var w, h := BufferWidth(t, sync), BufferHeight(t, sync);
    var plan := MergePlan(t, sync, frame);
    forall s | 0 <= s < h
      ensures Reach(0, plan(s)) <= w
      ensures s * w + Reach(0, plan(s)) <= w * h
      ensures PaintRow(Row(field, w, h, s), plan(s)) == MergedRow(t, sync, s, FrameWindow(t, frame, s), Row(field, w, h, s))
    {
      if RegionOf(t, s) == ActiveRegion {
        WindowInFrame(t, sync, frame, s);
      }
      MergeRowLayout(t, sync, s, FrameWindow(t, frame, s), Row(field, w, h, s));
      RowBounds(w, h, s);
    }
  }
}
