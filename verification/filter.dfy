/** The filter constructor (NES_CVBS::NES_CVBS in src/NES-CVBS.cpp): picks the
    variant's timing table, sizes the raw and signal buffers, lays the shell
    into the raw buffer and fills the level tables. */
module Filter {
  import opened Results
  import opened Timings
  import opened Raster
  import opened Shell
  import opened Levels

  /** The settings the constructor reads: the PPU variant and whether the
      buffers hold the whole field with sync or only the visible window. */
  datatype Settings = Settings(variant: Variant, syncEnable: bool)

  /** A constructed filter: its table, buffer dimensions, the raw buffer of
      dot values, the zeroed signal buffer of samples and the level tables. */
  datatype FilterState = FilterState(
    settings: Settings,
    timings: Timings,
    width: nat,
    height: nat,
    raw: seq<int>,
    signal: seq<int>,
    levels: LevelTables)

  /** Every scanline of buf is the shell's documented layout. */
  predicate ShellLaidOut(t: Timings, sync: bool, buf: seq<int>) {
    var w, h := BufferWidth(t, sync), BufferHeight(t, sync);
    |buf| == w * h && forall s | 0 <= s < h :: Row(buf, w, h, s) == ExpectedShellRow(t, sync, s)
  }

  /** A filter built for settings from table t and levels o: buffers sized
      from the table, signal buffer zeroed, level tables by the hue rule. */
  predicate BuiltFrom(settings: Settings, t: Timings, o: OutputLevels, f: FilterState)
    requires WellShaped(o)
  {
    var w, h := BufferWidth(t, settings.syncEnable), BufferHeight(t, settings.syncEnable);
    && f.settings == settings && f.timings == t && f.width == w && f.height == h
    && |f.raw| == w * h
    && f.signal == Repeat(0, w * h * SamplesPerPixel(t))
    && TablesFor(o, f.levels)
  }

  /** The constructor over a given table: fails exactly when laying the
      shell writes past the raw buffer; under a consistent table it
      succeeds with the shell laid out. The level tables are built with the
      luma index corrected to the luma bits (BuildLevelTables). */
  method Construct(settings: Settings, t: Timings, o: OutputLevels) returns (r: Result<FilterState>)
    requires WellShaped(o)
    ensures r.Ok? <==> ShellInBuffer(t, settings.syncEnable)
    ensures r.Ok? ==> BuiltFrom(settings, t, o, r.value)
    ensures LayoutHolds(t, settings.syncEnable) ==>
      r.Ok? && ShellLaidOut(t, settings.syncEnable, r.value.raw)
  {
    var sync := settings.syncEnable;
    var w, h := BufferWidth(t, sync), BufferHeight(t, sync);
    var raw := InitializeField(t, sync);
    if raw.Err? {
      return Err(raw.error);
    }
    var signal := Repeat(0, w * h * SamplesPerPixel(t));
    var tables := BuildLevelTables(o);
    r := Ok(FilterState(settings, t, w, h, raw.value, signal, tables));
  }

  /** The constructor with the shipped timing tables: it succeeds exactly
      when sync is on or the variant is the 2C02, and then every scanline of
      the raw buffer is the shell's layout. Its level tables use the
      corrected luma index, as in Construct. */
  method Create(settings: Settings, o: OutputLevels) returns (r: Result<FilterState>)
    requires WellShaped(o)
    ensures r.Ok? <==> settings.syncEnable || settings.variant == Ntsc2C02
    ensures r.Ok? ==> BuiltFrom(settings, ForVariant(settings.variant), o, r.value)
    ensures r.Ok? ==> ShellLaidOut(ForVariant(settings.variant), settings.syncEnable, r.value.raw)
  {
    var t := ForVariant(settings.variant);
    ShellInBufferAsWritten(settings.variant, settings.syncEnable);
    VariantConstants(settings.variant);
    r := Construct(settings, t, o);
  }

  /** The constructor with the corrected timing tables: it always succeeds
      and lays the shell out for every variant, with or without sync. */
  method CreateFixed(settings: Settings, o: OutputLevels) returns (f: FilterState)
    requires WellShaped(o)
    ensures BuiltFrom(settings, ForVariantFixed(settings.variant), o, f)
    ensures ShellLaidOut(ForVariantFixed(settings.variant), settings.syncEnable, f.raw)
  {
    ShellInBufferFixed(settings.variant, settings.syncEnable);
    var r := Construct(settings, ForVariantFixed(settings.variant), o);
    f := r.value;
  }

  /** The buffer sizes the shipped tables give: with sync the whole
      341-dot field, without it the visible window. */
  lemma BufferSizes(v: Variant, sync: bool)
    ensures BufferWidth(ForVariant(v), sync) == (if sync then 341 else if v == Ntsc2C02 then 283 else 256)
    ensures BufferHeight(ForVariant(v), sync) ==
      (if sync then (if v == Ntsc2C02 then 262 else 312) else if v == Ntsc2C02 then 242 else 240)
  {
  }
}
