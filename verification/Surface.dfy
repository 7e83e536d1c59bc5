/** The renderer's state (surface_t) and one refresh of it: surface_refresh and the
    graphic, text and blank paths it chooses between. */
module Surface {
  import opened VgaRegs
  import opened Grid
  import opened Pixels
  import opened Glyphs
  import opened Scanout
  import opened Graphic
  import opened Text

  const GMODE_TEXT: int := 0
  const GMODE_GRAPHIC: int := 1
  const GMODE_BLANK: int := 2

  /** The remembered fields of surface_t. */
  datatype Surf = Surf(gmode: int, font0: nat, font1: nat, shiftControl: nat, doubleScan: nat,
                       lineOffset: nat, startAddr: nat, lineCompare: nat, offset: nat, linesize: nat,
                       lastLineOffset: nat, lastCw: nat, lastCh: nat, scrWidth: nat, scrHeight: nat, lastDepth: nat,
                       cursorStart: bv8, cursorEnd: bv8, cursorOffset: nat)

  /** The renderer and what it shares with the device: registers, guest video memory, the
      32-bit destination beyond it, the dirty bitmap. */
  datatype Scene = Scene(s: Surf, palette: seq<Pixel>, attrs: seq<int>, vga: Vga, vram: seq<bv8>, fb: seq<Pixel>,
                         dirty: seq<bool>)
  {
    predicate Wf() {
      && |palette| == 256 && |attrs| == CH_ATTR_SIZE
      && |vram| == VRAM_ACTUAL_SIZE && |dirty| == VRAM_PAGES
      && (s.scrWidth > 0 ==> s.linesize == 4 * s.scrWidth && s.offset == VRAM_ACTUAL_SIZE)
    }
  }

  // ------------------------------------------------------------------
  // Specification functions

  function GraphicMode(v: Vga): int {
    if v.arIndex / 0x20 % 2 == 0 then GMODE_BLANK else if Bit(v.gr[6], 0) == 1 then GMODE_GRAPHIC else GMODE_TEXT
  }

  predicate BasicChanged(s: Surf, v: Vga) {
    LineOffset(v) != s.lineOffset || StartAddr(v) != s.startAddr || LineCompare(v) != s.lineCompare
  }

  function WithBasic(s: Surf, v: Vga): Surf {
    s.(lineOffset := LineOffset(v), startAddr := StartAddr(v), lineCompare := LineCompare(v))
  }

  function Repaint16(p: seq<Pixel>, v: Vga): (q: seq<Pixel>)
    requires |p| == 256
    ensures |q| == 256
  {
    seq(256, i requires 0 <= i < 256 => if i < 16 then Colour16(v, i) else p[i])
  }

  function Repaint256(v: Vga): (q: seq<Pixel>)
    ensures |q| == 256
  {
    seq(256, i requires 0 <= i < 256 => Colour256(v, i))
  }

  function Resized(s: Surf, linesize: nat, width: nat, height: nat): Surf {
    s.(offset := VRAM_ACTUAL_SIZE, linesize := linesize, scrWidth := width, scrHeight := height)
  }

  // Graphic modes

  predicate ShiftChanged(s: Surf, v: Vga) {
    ShiftControl(v) != s.shiftControl || DoubleScan(v) != s.doubleScan
  }

  predicate GeometryChanged(s: Surf, v: Vga) {
    LineOffset(v) != s.lastLineOffset || DispWidth(v) != s.scrWidth || Height(v) != s.scrHeight
    || Depth(v) != s.lastDepth
  }

  function GraphicPalette(p: seq<Pixel>, v: Vga): (q: seq<Pixel>)
    requires |p| == 256 && Depth(v) != 32
    ensures |q| == 256
  {
    match Mode(v)
    case Line2 | Line2D2 | Line4 | Line4D2 => Repaint16(p, v)
    case Line8 | Line8D2 => Repaint256(v)
    case Line15 | Line16 | Line24 => p
  }

  predicate GraphicFull(sc: Scene, full: bool)
    requires sc.Wf() && Depth(sc.vga) != 32
  {
    full || BasicChanged(sc.s, sc.vga) || ShiftChanged(sc.s, sc.vga) || GeometryChanged(sc.s, sc.vga)
    || GraphicPalette(sc.palette, sc.vga) != sc.palette
  }

  function GraphicSurf(s: Surf, v: Vga): Surf {
    var t := WithBasic(s, v).(shiftControl := ShiftControl(v), doubleScan := DoubleScan(v));
    if GeometryChanged(s, v) then
      Resized(t, DispWidth(v) * 32 / 8, DispWidth(v), Height(v))
      .(lastLineOffset := LineOffset(v), lastDepth := Depth(v))
    else t
  }

  function GraphicSpec(sc: Scene, full: bool, reported: seq<bool>, ok: bool): (d: Scene)
    requires sc.Wf() && Depth(sc.vga) != 32 && FrameOf(sc.vga).Drawable(|sc.fb|) && |reported| == VRAM_PAGES
    ensures d.Wf() && |d.fb| == |sc.fb| && d.s.gmode == sc.s.gmode
  {
    var f := FrameOf(sc.vga);
    var palette := GraphicPalette(sc.palette, sc.vga);
    Scene(GraphicSurf(sc.s, sc.vga), palette, sc.attrs, sc.vga, sc.vram,
          DrawLines(sc.fb, f, palette, sc.vram, Synced(sc.dirty, reported, ok), GraphicFull(sc, full), |f.lines|),
          seq(VRAM_PAGES, p => false))
  }

  /** demu_sync_vram_dirty_map: a failed query counts every page as dirty. */
  function Synced(dirty: seq<bool>, reported: seq<bool>, ok: bool): (d: seq<bool>)
    requires |dirty| == |reported|
    ensures |d| == |dirty|
  {
    seq(|dirty|, p requires 0 <= p < |dirty| => !ok || dirty[p] || reported[p])
  }

  // Text mode

  /** Too many cells to remember: the refresh gives up. */
  predicate TooBig(v: Vga) {
    At(0, Columns(v), Rows(v)) > CH_ATTR_SIZE
  }

  predicate Plane2Updated(v: Vga) {
    Bit(v.planeUpdated, 2) == 1
  }

  predicate TextTouched(s: Surf, v: Vga) {
    FontOffset0(v) != s.font0 || FontOffset1(v) != s.font1 || Plane2Updated(v) || BasicChanged(s, v)
  }

  function TextWidth(v: Vga): nat {
    Columns(v) * CellWidthOf(v)
  }

  function TextHeight(v: Vga): nat {
    Rows(v) * (RowScans(v) + 1)
  }

  predicate TextGeometryChanged(s: Surf, v: Vga) {
    || TextWidth(v) != s.scrWidth || TextHeight(v) != s.scrHeight
    || CellWidthOf(v) != s.lastCw || RowScans(v) + 1 != s.lastCh || s.lastDepth != 0
  }

  predicate CursorChanged(s: Surf, v: Vga) {
    CursorCell(v) != s.cursorOffset || v.cr[0x0a] != s.cursorStart || v.cr[0x0b] != s.cursorEnd
  }

  function Invalidate(attrs: seq<int>, i: nat): (a: seq<int>)
    requires |attrs| == CH_ATTR_SIZE
    ensures |a| == |attrs|
  {
    if i < CH_ATTR_SIZE then attrs[i := INVALID] else attrs
  }

  /** The old and the new cursor cell are forgotten when the cursor changes. */
  function CursorAttrs(attrs: seq<int>, s: Surf, v: Vga): (a: seq<int>)
    requires |attrs| == CH_ATTR_SIZE
    ensures |a| == |attrs|
  {
    if CursorChanged(s, v) then Invalidate(Invalidate(attrs, s.cursorOffset), CursorCell(v)) else attrs
  }

  predicate TextFull(sc: Scene, full: bool)
    requires sc.Wf()
  {
    full || TextTouched(sc.s, sc.vga) || TextGeometryChanged(sc.s, sc.vga)
    || Repaint16(sc.palette, sc.vga) != sc.palette
  }

  function WithFonts(s: Surf, v: Vga): Surf {
    WithBasic(s, v).(font0 := FontOffset0(v), font1 := FontOffset1(v))
  }

  /** Geometry and cursor as remembered after a text refresh. */
  function WithLook(s: Surf, v: Vga): Surf {
    var t := if TextGeometryChanged(s, v) then
        Resized(s, 4 * TextWidth(v), TextWidth(v), TextHeight(v))
        .(lastDepth := 0, lastCh := RowScans(v) + 1, lastCw := CellWidthOf(v))
      else s;
    t.(cursorStart := v.cr[0x0a], cursorEnd := v.cr[0x0b], cursorOffset := CursorCell(v))
  }

  function TextSurf(s: Surf, v: Vga): Surf {
    WithLook(WithFonts(s, v), v)
  }

  /** test_and_clear_plane2 */
  function ClearPlane2(v: Vga): (w: Vga) {
    if Plane2Updated(v) then v.(planeUpdated := 0) else v
  }

  lemma ClearKeeps(v: Vga)
    ensures LookOf(ClearPlane2(v)) == LookOf(v)
  {
  }

  lemma RepaintTwice(p: seq<Pixel>, v: Vga)
    requires |p| == 256
    ensures Repaint16(Repaint16(p, v), v) == Repaint16(p, v)
  {
  }

  /** What a text refresh that draws assumes. */
  ghost predicate TextDrawable(v: Vga, cells: nat) {
    StartAddr(v) * 4 <= VRAM_ACTUAL_SIZE && LookOf(v).Drawable(cells)
  }

  function TextSpec(sc: Scene, full: bool): (d: Scene)
    requires sc.Wf() && (TooBig(sc.vga) || TextDrawable(sc.vga, |sc.fb|))
    ensures d.Wf() && |d.fb| == |sc.fb| && d.s.gmode == sc.s.gmode
  {
    if TooBig(sc.vga) then sc.(s := WithFonts(sc.s, sc.vga), vga := ClearPlane2(sc.vga))
    else
      var cells := DrawCells(Cells(sc.fb, CursorAttrs(sc.attrs, sc.s, sc.vga)), LookOf(sc.vga), sc.vram,
                             TextFull(sc, full), Rows(sc.vga));
      Scene(TextSurf(sc.s, sc.vga), Repaint16(sc.palette, sc.vga), cells.attrs, ClearPlane2(sc.vga), sc.vram, cells.fb,
            sc.dirty)
  }

  // Blank

  function BlankSpec(sc: Scene, full: bool): (d: Scene)
    requires sc.Wf()
    ensures d.Wf() && |d.fb| == |sc.fb| && d.s.gmode == sc.s.gmode
  {
    if full then
      sc.(fb := seq(|sc.fb|, i requires 0 <= i < |sc.fb| => if i < sc.s.scrWidth * sc.s.scrHeight then 0 else sc.fb[i]))
    else sc
  }

  /** What each path assumes of the registers. */
  ghost predicate CanRefresh(sc: Scene) {
    && sc.Wf()
    && (GraphicMode(sc.vga) == GMODE_GRAPHIC ==> Depth(sc.vga) != 32 && FrameOf(sc.vga).Drawable(|sc.fb|))
    && (GraphicMode(sc.vga) == GMODE_TEXT ==> TooBig(sc.vga) || TextDrawable(sc.vga, |sc.fb|))
  }

  function RefreshSpec(sc: Scene, full: bool, reported: seq<bool>, ok: bool): (d: Scene)
    requires CanRefresh(sc) && |reported| == VRAM_PAGES
    ensures d.Wf() && |d.fb| == |sc.fb| && d.s.gmode == GraphicMode(sc.vga)
  {
    var mode := GraphicMode(sc.vga);
    var now := full || mode != sc.s.gmode;
    var next := sc.(s := sc.s.(gmode := mode));
    if mode == GMODE_TEXT then TextSpec(next, now)
    else if mode == GMODE_GRAPHIC then GraphicSpec(next, now, reported, ok)
    else BlankSpec(next, now)
  }
}
