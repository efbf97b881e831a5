/** The dot tokens of a raw field: 9-bit PPU pixel codes in the "eeellcccc"
    layout, followed by three raster sentinels (src/NES-CVBS.h). */
module Dots {
  import opened Results

  /** Size of the PPU picture (ACTIVE_WIDTH, ACTIVE_HEIGHT). */
  const ActiveWidth: nat := 256
  const ActiveHeight: nat := 240

  /** The sentinel values of PPUDotType; the 512 codes below them are pixels. */
  const SyncLevel: int := 512
  const BlankLevel: int := 513
  const ColorburstLevel: int := 514

  /** Number of distinct 9-bit pixel codes. */
  const PixelCodes: nat := 512

  /** What one raw-field cell means. */
  datatype Dot =
    | Pixel(emphasis: nat, luma: nat, hue: nat)
    | Sync
    | Blank
    | Colorburst

  predicate ValidDot(d: Dot) {
    d.Pixel? ==> d.emphasis < 8 && d.luma < 4 && d.hue < 16
  }

  /** Field extraction from a non-negative pixel code: hue = code & 0x0F,
      luma = (code >> 4) & 3, emphasis = code >> 6, written as the equivalent
      division and remainder by powers of two. */
  function Hue(code: nat): nat { code % 16 }
  function Luma(code: nat): nat { code / 16 % 4 }
  function Emphasis(code: nat): nat { code / 64 }

  /** Packs a dot into its PPUDotType value. */
  function Encode(d: Dot): (v: int)
    requires ValidDot(d)
    ensures 0 <= v <= ColorburstLevel
    ensures d.Pixel? <==> v < PixelCodes
  {
    match d
    case Pixel(e, l, h) => e * 64 + l * 16 + h
    case Sync => SyncLevel
    case Blank => BlankLevel
    case Colorburst => ColorburstLevel
  }

  /** Reads a PPUDotType value; values past the last sentinel mean nothing. */
  function Decode(v: int): (r: Option<Dot>)
    ensures r.Some? <==> 0 <= v <= ColorburstLevel
    ensures r.Some? ==> ValidDot(r.value)
  {
    if 0 <= v < PixelCodes then
      Some(Pixel(Emphasis(v), Luma(v), Hue(v)))
    else if v == SyncLevel then Some(Sync)
    else if v == BlankLevel then Some(Blank)
    else if v == ColorburstLevel then Some(Colorburst)
    else None
  }

  lemma DecodeEncode(d: Dot)
    requires ValidDot(d)
    ensures Decode(Encode(d)) == Some(d)
  {
  }

  lemma EncodeDecode(v: int)
    requires 0 <= v <= ColorburstLevel
    ensures Decode(v).Some? && Encode(Decode(v).value) == v
  {
    if v < PixelCodes {
      var q := v / 16;
      assert v == q * 16 + Hue(v);
      assert q == Emphasis(v) * 4 + Luma(v);
    }
  }

  /** The default segment lengths of one NTSC scanline, in dots, and the
      scanline counts of each vertical region (the PPUScanline struct). */
  datatype ScanlineLayout = ScanlineLayout(
    shortSync: nat, firstBackPorch: nat, colorburst: nat, secondBackPorch: nat, frontPorch: nat,
    activeScanlines: nat, grayPulse: nat, borderLeft: nat, active: nat, borderRight: nat,
    postrenderScanlines: nat, borderBottom: nat,
    postrenderBlankScanlines: nat, blank: nat,
    verticalSyncScanlines: nat, longSync: nat, syncSeparator: nat,
    prerenderBlankingScanlines: nat, dotSkip: bool)

  /** Dots of the horizontal sync, back porches and colorburst. */
  function LeadIn(d: ScanlineLayout): nat {
    d.shortSync + d.firstBackPorch + d.colorburst + d.secondBackPorch
  }

  function ActiveRowLength(d: ScanlineLayout): nat {
    LeadIn(d) + d.grayPulse + d.borderLeft + d.active + d.borderRight + d.frontPorch
  }

  function PostrenderRowLength(d: ScanlineLayout): nat {
    LeadIn(d) + d.grayPulse + d.borderBottom + d.frontPorch
  }

  /** A blanking row: sync, first back porch and colorburst, then blank up to the next sync. */
  function BlankRowLength(d: ScanlineLayout): nat {
    d.shortSync + d.firstBackPorch + d.colorburst + d.blank
  }

  function VerticalSyncRowLength(d: ScanlineLayout): nat {
    d.longSync + d.syncSeparator
  }

  /** The struct's default member values. Each kind of row it describes is
      341 dots long, and the picture it frames is ACTIVE_WIDTH by ACTIVE_HEIGHT. */
  function ScanlineDefaults(): (d: ScanlineLayout)
    ensures ActiveRowLength(d) == 341 && PostrenderRowLength(d) == 341
    ensures BlankRowLength(d) == 341 && VerticalSyncRowLength(d) == 341
    ensures d.active == ActiveWidth && d.activeScanlines == ActiveHeight
  {
    ScanlineLayout(
      25, 4, 15, 5, 9,
      ActiveHeight, 1, 15, ActiveWidth, 11,
      2, 282,
      3, 297,
      3, 318, 23,
      4, true)
  }
}
