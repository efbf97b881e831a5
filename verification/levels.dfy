/** The level lookup tables the filter constructor fills from a chip's
    composite output levels (the loop at the end of the constructor in
    src/NES-CVBS.cpp). Levels are integers in millivolts; the source's
    double-to-uint16_t conversion of volts times 1000 is not modelled. */
module Levels {
  import opened Results
  import opened Dots

  /** A chip's composite output levels (CompositeOutputLevel): sync[0] sync
      and sync[1] blank, colorburst[0] high and colorburst[1] low, and
      signal[luma][k][emphasis] with k = 0 the high level of hues $x0 and
      k = 1 the low level of hue $xD. */
  datatype OutputLevels = OutputLevels(sync: seq<int>, colorburst: seq<int>, signal: seq<seq<seq<int>>>)

  /** The array shapes the C++ struct declares: sync[2], colorburst[2] and
      signal[4][2][2]. */
  predicate WellShaped(o: OutputLevels) {
    && |o.sync| == 2 && |o.colorburst| == 2 && |o.signal| == 4
    && forall l | 0 <= l < 4 :: |o.signal[l]| == 2 && |o.signal[l][0]| == 2 && |o.signal[l][1]| == 2
  }

  /** The blank level every table entry of hues $xE and $xF takes. */
  function BlankOf(o: OutputLevels): int
    requires WellShaped(o)
  {
    o.signal[1][1][0]
  }

  /** The luma index as written, color & 0xF0: the luma bits left in place
      rather than shifted down, for any code below 0x100. */
  function LumaIndexAsWritten(color: nat): nat {
    color / 16 * 16
  }

  /** Looking up signal[color & 0xF0] as written: an Err where the index
      leaves the four-entry luma dimension, else the (high, low) pair
      before the hue rule. */
  function SignalAsWritten(o: OutputLevels, emph: nat, color: nat): (r: Result<(int, int)>)
    requires WellShaped(o) && emph < 2
    ensures r.Err? <==> LumaIndexAsWritten(color) >= 4
    ensures r.Ok? ==> r.value == (o.signal[0][0][emph], o.signal[0][1][emph])
  {
    var luma := LumaIndexAsWritten(color);
    if luma >= 4 then Err(OutOfBounds(luma))
    else (assert luma == 0; Ok((o.signal[luma][0][emph], o.signal[luma][1][emph])))
  }

  /** As written, every code from 0x10 up reads past the end of the luma
      dimension, and the codes below read luma row 0; only the $0x codes
      get their own levels. */
  lemma {:induction false} LumaIndexAsWrittenOutOfRange(o: OutputLevels, emph: nat, color: nat)
    requires WellShaped(o) && emph < 2 && color < 0x40
    ensures SignalAsWritten(o, emph, color).Err? <==> color >= 0x10
    ensures color >= 0x10 ==> SignalAsWritten(o, emph, color) == Err(OutOfBounds(color / 16 * 16))
    ensures color < 0x10 ==> SignalAsWritten(o, emph, color) == Ok(Signal(o, emph, color))
  {
    if color >= 0x10 {
      assert LumaIndexAsWritten(color) >= 16;
    } else {
      assert LumaIndexAsWritten(color) == 0 == Luma(color);
    }
  }

  /** The (high, low) signal pair of a code, indexed by its luma bits
      (color >> 4) & 3. */
  function Signal(o: OutputLevels, emph: nat, color: nat): (int, int)
    requires WellShaped(o) && emph < 2
  {
    (o.signal[Luma(color)][0][emph], o.signal[Luma(color)][1][emph])
  }

  /** The hue rule: hue $xD is drawn flat at the low level, hue $x0 flat at
      the high level, hues $xE and $xF flat at blank, and the other hues
      swing between high and low. */
  function ColorLevels(o: OutputLevels, emph: nat, color: nat): (r: (int, int))
    requires WellShaped(o) && emph < 2
    ensures Hue(color) == 0x0D ==> r.0 == r.1 == Signal(o, emph, color).1
    ensures Hue(color) == 0x00 ==> r.0 == r.1 == Signal(o, emph, color).0
    ensures Hue(color) >= 0x0E ==> r.0 == r.1 == BlankOf(o)
    ensures 0x01 <= Hue(color) <= 0x0C ==> r == Signal(o, emph, color)
  {
    var (high, low) := Signal(o, emph, color);
    var hue := Hue(color);
    if hue == 0x0D then (low, low)
    else if hue == 0x00 then (high, high)
    else if hue >= 0x0E then (BlankOf(o), BlankOf(o))
    else (high, low)
  }

  /** Where high and low differ, a code's level pair is flat exactly for
      the gray hues $x0, $xD, $xE and $xF: only chroma hues carry a
      square wave. */
  lemma FlatExactlyForGrays(o: OutputLevels, emph: nat, color: nat)
    requires WellShaped(o) && emph < 2
    requires Signal(o, emph, color).0 != Signal(o, emph, color).1
    ensures ColorLevels(o, emph, color).0 == ColorLevels(o, emph, color).1
      <==> Hue(color) == 0x00 || Hue(color) >= 0x0D
  {
  }

  /** The lookup tables: color[k][emph][code] with k = 0 high and k = 1
      low, and sync and colorburst levels per emphasis. */
  datatype LevelTables = LevelTables(color: seq<seq<seq<int>>>, sync: seq<int>, colorburst: seq<int>)

  /** Tables of the constructor's shape, [2][2][0x40], [2] and [2], whose
      entries agree with the hue rule and the chip's sync and colorburst
      levels. */
  predicate TablesFor(o: OutputLevels, tables: LevelTables)
    requires WellShaped(o)
  {
    && |tables.color| == 2 && |tables.sync| == 2 && |tables.colorburst| == 2
    && (forall k | 0 <= k < 2 :: |tables.color[k]| == 2)
    && (forall k, e | 0 <= k < 2 && 0 <= e < 2 :: |tables.color[k][e]| == 0x40)
    && (forall e, c | 0 <= e < 2 && 0 <= c < 0x40 ::
          tables.color[0][e][c] == ColorLevels(o, e, c).0 && tables.color[1][e][c] == ColorLevels(o, e, c).1)
    && (forall e | 0 <= e < 2 :: tables.sync[e] == o.sync[e] && tables.colorburst[e] == o.colorburst[e])
  }

  /** One emphasis row of the high and low tables. */
  method BuildEmphasisRow(o: OutputLevels, emph: nat) returns (high: seq<int>, low: seq<int>)
    requires WellShaped(o) && emph < 2
    ensures |high| == 0x40 && |low| == 0x40
    ensures forall c | 0 <= c < 0x40 :: high[c] == ColorLevels(o, emph, c).0 && low[c] == ColorLevels(o, emph, c).1
  {
    high, low := [], [];
    for color := 0 to 0x40
      invariant |high| == color && |low| == color
      invariant forall c | 0 <= c < color :: high[c] == ColorLevels(o, emph, c).0 && low[c] == ColorLevels(o, emph, c).1
    {
      var levels := ColorLevels(o, emph, color);
      high, low := high + [levels.0], low + [levels.1];
    }
  }

  /** The constructor's table loop, with the luma index corrected to the
      luma bits: fills every entry from the hue rule. */
  method BuildLevelTables(o: OutputLevels) returns (tables: LevelTables)
    requires WellShaped(o)
    ensures TablesFor(o, tables)
  {
    var highs, lows, syncs, bursts := [], [], [], [];
    for emph := 0 to 2
      invariant |highs| == emph && |lows| == emph && |syncs| == emph && |bursts| == emph
      invariant forall e | 0 <= e < emph :: |highs[e]| == 0x40 && |lows[e]| == 0x40
      invariant forall e, c | 0 <= e < emph && 0 <= c < 0x40 ::
        highs[e][c] == ColorLevels(o, e, c).0 && lows[e][c] == ColorLevels(o, e, c).1
      invariant forall e | 0 <= e < emph :: syncs[e] == o.sync[e] && bursts[e] == o.colorburst[e]
    {
      var high, low := BuildEmphasisRow(o, emph);
      highs, lows := highs + [high], lows + [low];
      syncs, bursts := syncs + [o.sync[emph]], bursts + [o.colorburst[emph]];
    }
    tables := LevelTables([highs, lows], syncs, bursts);
  }
}
