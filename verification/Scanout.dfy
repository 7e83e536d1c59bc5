/** What the register file says should be on the screen: resolution, palette, line
    addresses and text cells (the getters of surface.c and the address walk of
    surface_draw_graphic). */
module Scanout {
  import opened VgaRegs
  import opened Grid
  import opened Pixels

  const WORD: nat := 0x1_0000_0000

  predicate VbeOn(v: Vga) {
    v.vbe[VBE_ENABLE] % 2 == 1
  }

  function Flag(b: bv8, k: nat): (n: nat)
    requires k < 8
    ensures n < 2
  {
    if Bit(b, k) == 1 then 1 else 0
  }

  function LineOffset(v: Vga): u32 {
    if VbeOn(v) then v.vbeLineOffset else v.cr[0x13] as int * 8
  }

  function StartAddr(v: Vga): u32 {
    if VbeOn(v) then v.vbeStart else v.cr[0x0d] as int + v.cr[0x0c] as int * 256
  }

  function LineCompare(v: Vga): u32 {
    if VbeOn(v) then 65535
    else v.cr[0x18] as int + Flag(v.cr[7], 4) * 256 + Flag(v.cr[9], 6) * 512
  }

  function Depth(v: Vga): u16 {
    if VbeOn(v) then v.vbe[VBE_BPP] else 0
  }

  function Width(v: Vga): nat {
    if VbeOn(v) then v.vbe[VBE_XRES] else (v.cr[1] as int + 1) * 8
  }

  /** The vertical display end, before the increment. */
  function DisplayEnd(v: Vga): nat {
    v.cr[0x12] as int + Flag(v.cr[7], 1) * 256 + Flag(v.cr[7], 6) * 512
  }

  function Height(v: Vga): nat {
    if VbeOn(v) then v.vbe[VBE_YRES] else DisplayEnd(v) + 1
  }

  function ShiftControl(v: Vga): (n: nat)
    ensures n < 4
  {
    2 * Flag(v.gr[5], 6) + Flag(v.gr[5], 5)
  }

  function DoubleScan(v: Vga): (n: nat)
    ensures n < 2
  {
    Flag(v.cr[9], 7)
  }

  /** sr[1] bit 3. */
  predicate Doubled(v: Vga) {
    Bit(v.sr[1], 3) == 1
  }

  /** Scan lines per character row, less one. */
  function RowScans(v: Vga): (n: nat)
    ensures n < 32
  {
    (v.cr[9] & 0x1f) as int
  }

  function MultiScan(v: Vga): nat {
    if ShiftControl(v) == 1 then DoubleScan(v)
    else if DoubleScan(v) == 1 then 2 * (RowScans(v) + 1) - 1
    else RowScans(v)
  }

  /** Shift control 1 doubles twice. */
  function DispWidth(v: Vga): nat {
    if !Doubled(v) then Width(v)
    else if ShiftControl(v) == 0 then 2 * Width(v)
    else if ShiftControl(v) == 1 then 4 * Width(v)
    else Width(v)
  }

  /** The converter chosen; depth 32 is scanned out directly and draws nothing here. */
  function Mode(v: Vga): LineMode
    requires Depth(v) != 32
  {
    if ShiftControl(v) == 0 then (if Doubled(v) then Line4D2 else Line4)
    else if ShiftControl(v) == 1 then (if Doubled(v) then Line2D2 else Line2)
    else
      match Depth(v)
      case 8 => Line8
      case 15 => Line15
      case 16 => Line16
      case 24 => Line24
      case _ => Line8D2
  }

  function BitsPerPixel(m: LineMode): nat {
    match m
    case Line8 => 8
    case Line15 => 16
    case Line16 => 16
    case Line24 => 24
    case _ => 4
  }

  /** bwidth: bytes a line is taken to occupy when looking for dirty pages. */
  function LineBytes(v: Vga): nat
    requires Depth(v) != 32
  {
    (Width(v) * BitsPerPixel(Mode(v)) + 7) / 8
  }

  // ------------------------------------------------------------------
  // Line addresses

  /** The variables of the line loop: where the row starts, which row, scans left in it. */
  datatype Beam = Beam(addr1: nat, y1: nat, multiRun: nat)

  /** A row ends: its address advances unless cr[0x17] selects odd/even interleaving
      and the interleave is not complete. */
  predicate Advances(v: Vga, y1: nat) {
    && (Bit(v.cr[0x17], 0) == 0 ==> y1 % 2 == 1)
    && (Bit(v.cr[0x17], 1) == 0 ==> y1 / 2 % 2 == 1)
  }

  function NextBeam(v: Vga, b: Beam, y: nat): Beam {
    var addr1 := if b.multiRun == 0 && Advances(v, b.y1) then (b.addr1 + LineOffset(v)) % WORD else b.addr1;
    Beam(if y == LineCompare(v) then 0 else addr1,
         if b.multiRun == 0 then b.y1 + 1 else b.y1,
         if b.multiRun == 0 then MultiScan(v) else b.multiRun - 1)
  }

  /** The loop variables on reaching scan line y. */
  function BeamAt(v: Vga, y: nat): Beam {
    if y == 0 then Beam(StartAddr(v) * 4 % WORD, 0, MultiScan(v)) else NextBeam(v, BeamAt(v, y - 1), y - 1)
  }

  /** addr with the bit of weight w replaced. */
  function WithBit(addr: nat, w: nat, on: bool): nat
    requires w == 0x4000 || w == 0x8000
  {
    addr - (if addr / w % 2 == 1 then w else 0) + if on then w else 0
  }

  /** The source address of a scan line, after CGA compatibility handling. */
  function BeamAddr(v: Vga, b: Beam): nat {
    var a := if Bit(v.cr[0x17], 0) == 1 then b.addr1
             else if Bit(v.cr[0x17], 6) == 1 then WithBit(b.addr1, 0x8000, b.y1 % 2 == 1)
             else WithBit(b.addr1, 0x4000, b.y1 % 2 == 1);
    if Bit(v.cr[0x17], 1) == 1 then a else WithBit(a, 0x8000, b.y1 / 2 % 2 == 1)
  }

  function LineAddr(v: Vga, y: nat): nat {
    BeamAddr(v, BeamAt(v, y))
  }

  // ------------------------------------------------------------------
  // Palettes

  /** A six-bit colour component at eight bits. */
  function Expand6(b: bv8): bv32 {
    var v := (b & 0x3f) as bv32;
    (v << 2) | ((v & 1) << 1) | (v & 1)
  }

  function Component(palette: seq<bv8>, i: nat, wide: bool): bv32
    requires |palette| == 768 && i < 768
  {
    if wide then palette[i] as bv32 else Expand6(palette[i])
  }

  function Colour(palette: seq<bv8>, i: nat, wide: bool): Pixel
    requires |palette| == 768 && i < 256
  {
    Rgb(Component(palette, 3 * i, wide), Component(palette, 3 * i + 1, wide), Component(palette, 3 * i + 2, wide))
  }

  /** The DAC entry attribute colour i selects. */
  function AttrIndex(v: Vga, i: nat): (n: nat)
    requires i < 16
    ensures n < 256
  {
    if Bit(v.ar[0x10], 7) == 1 then (((v.ar[0x14] & 0xf) << 4) | (v.ar[i] & 0xf)) as int
    else (((v.ar[0x14] & 0xc) << 4) | (v.ar[i] & 0x3f)) as int
  }

  function Colour16(v: Vga, i: nat): Pixel
    requires i < 16
  {
    Colour(v.palette, AttrIndex(v, i), false)
  }

  function Colour256(v: Vga, i: nat): Pixel
    requires i < 256
  {
    Colour(v.palette, i, v.dac8bit)
  }

  /** The colours the mode selects; entries it does not use are black. */
  function ModePalette(v: Vga): (p: seq<Pixel>)
    requires Depth(v) != 32
    ensures |p| == 256
  {
    match Mode(v)
    case Line2 | Line2D2 | Line4 | Line4D2 => seq(256, i requires 0 <= i < 256 => if i < 16 then Colour16(v, i) else 0)
    case Line8 | Line8D2 => seq(256, i requires 0 <= i < 256 => Colour256(v, i))
    case Line15 | Line16 | Line24 => seq(256, i => 0)
  }

  function Planes(v: Vga): (p: bv8)
    ensures p < 16
  {
    v.ar[0x12] & 0xf
  }

  // ------------------------------------------------------------------
  // The whole picture

  /** A picture: how to convert a line, how wide the destination is, where each line starts. */
  datatype Frame = Frame(mode: LineMode, planes: bv8, width: nat, stride: nat, bytes: nat, lines: seq<nat>) {
    /** What a graphic refresh assumes: at least one pixel, source lines inside the frame
        buffer, a destination that fits. */
    ghost predicate Drawable(cells: nat) {
      && width >= 1 && planes < 16
      && At(0, stride, |lines|) <= cells
      && (forall y | 0 <= y < |lines| :: lines[y] + bytes <= VRAM_ACTUAL_SIZE)
      // the groups drawn stay inside the bytes tested and inside the display width
      && Groups(mode, width) * GroupBytes(mode) <= bytes
      && Groups(mode, width) * GroupPixels(mode) <= stride
    }
  }

  function FrameOf(v: Vga): Frame
    requires Depth(v) != 32
  {
    Frame(Mode(v), Planes(v), Width(v), DispWidth(v), LineBytes(v),
          seq(Height(v), y requires 0 <= y < Height(v) => LineAddr(v, y)))
  }

  /** The last two conditions hold of every register state. */
  lemma FrameFits(v: Vga)
    requires Depth(v) != 32
    ensures var f := FrameOf(v);
      Groups(f.mode, f.width) * GroupBytes(f.mode) <= f.bytes
      && Groups(f.mode, f.width) * GroupPixels(f.mode) <= f.stride
  {
  }

  /** Scan line y shows video memory through the given colours. */
  ghost predicate LineShown(fb: seq<Pixel>, f: Frame, palette: seq<Pixel>, vram: seq<bv8>, y: nat)
    requires y < |f.lines|
  {
    LineShows(fb, At(0, f.stride, y), f.mode, palette, f.planes, vram, f.lines[y], Groups(f.mode, f.width))
  }

  /** Every scan line is as redrawing everything would leave it. */
  ghost predicate PictureCurrent(fb: seq<Pixel>, v: Vga, vram: seq<bv8>)
    requires Depth(v) != 32
  {
    forall y | 0 <= y < |FrameOf(v).lines| :: LineShown(fb, FrameOf(v), ModePalette(v), vram, y)
  }
}
