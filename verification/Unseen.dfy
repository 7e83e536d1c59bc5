/** Changes an incremental refresh has no trace of: runs from start-up after which it leaves another
    picture than a full redraw. */
module Unseen {
  import opened VgaRegs
  import opened Grid
  import opened Pixels
  import opened Scanout
  import opened Graphic
  import opened Surface
  import opened SurfaceRuns
  import opened StaleLines

  /** A run from start-up ends where an incremental refresh goes wrong. */
  ghost predicate Misses(vga: Vga, vram: seq<bv8>, fb: seq<Pixel>, es: seq<Event>)
    requires |vram| == VRAM_ACTUAL_SIZE
  {
    var w := Initial(vga, vram, fb, NoPages());
    RunOk(w, es) && CanRefresh(Run(w, es).sc) && Wrong(Run(w, es))
  }

  function NoPages(): seq<bool> {
    seq(VRAM_PAGES, p => false)
  }

  function Memory(at: nat, b: bv8): (m: seq<bv8>)
    ensures |m| == VRAM_ACTUAL_SIZE
  {
    seq(VRAM_ACTUAL_SIZE, i => if i == at then b else 0)
  }

  lemma RunTwo(w: World, e: Event, f: Event)
    requires StepOk(w, e) && StepOk(Step(w, e), f)
    ensures RunOk(w, [e, f]) && Run(w, [e, f]) == Step(Step(w, e), f)
  {
    RunOne(Step(w, e), f);
    assert [e, f][1..] == [f];
  }

  lemma RunOne(w: World, e: Event)
    requires StepOk(w, e)
    ensures RunOk(w, [e]) && Run(w, [e]) == Step(w, e)
  {
    assert [e][1..] == [];
  }

  // ------------------------------------------------------------------
  // Graphic modes

  /** The frame has a pixel (y, x). */
  ghost predicate Paints(v: Vga, cells: nat, y: nat, x: nat) {
    Depth(v) != 32 && FrameOf(v).Drawable(cells) && y < Height(v) && x < Across(FrameOf(v))
  }

  /** What the first refresh of a run leaves. */
  ghost predicate FirstDrawn(w: World, v: Vga, vram: seq<bv8>, cells: nat) {
    && w.Wf() && w.sc.vga == v && w.sc.vram == vram && |w.sc.fb| == cells && w.cleared == 0
    && w.last.vga == v && w.last.vram == vram && w.touched == NoPages()
  }

  ghost predicate PictureDrawn(w: World, v: Vga, vram: seq<bv8>, cells: nat)
    requires Depth(v) != 32
  {
    && FirstDrawn(w, v, vram, cells) && w.sc.s.gmode == GMODE_GRAPHIC && Shown(w)
    && w.sc.palette == GraphicPalette(seq(256, i => 0), v) && w.sc.dirty == NoPages()
  }

  lemma FirstPicture(v: Vga, vram: seq<bv8>, fb: seq<Pixel>)
    requires |vram| == VRAM_ACTUAL_SIZE && GraphicMode(v) == GMODE_GRAPHIC && Depth(v) != 32
    requires FrameOf(v).Drawable(|fb|)
    ensures var w := Initial(v, vram, fb, NoPages());
            StepOk(w, Refresh(true, true)) && PictureDrawn(Step(w, Refresh(true, true)), v, vram, |fb|)
  {
    GraphicCurrent(Initial(v, vram, fb, NoPages()), true, true);
  }

  /** The registers a graphic refresh compares are the same. */
  ghost predicate TrackedSame(v: Vga, u: Vga)
    requires Depth(v) != 32 && Depth(u) != 32
  {
    && LineOffset(v) == LineOffset(u) && StartAddr(v) == StartAddr(u) && LineCompare(v) == LineCompare(u)
    && ShiftControl(v) == ShiftControl(u) && DoubleScan(v) == DoubleScan(u)
    && DispWidth(v) == DispWidth(u) && Height(v) == Height(u) && Depth(v) == Depth(u)
    && var p := GraphicPalette(seq(256, i => 0), v); GraphicPalette(p, u) == p
  }

  lemma StillTracked(sc: Scene, v: Vga, u: Vga)
    requires sc.Wf() && Depth(v) != 32 && Depth(u) != 32 && TrackedSame(v, u) && Recorded(sc.s, v)
    requires sc.palette == GraphicPalette(seq(256, i => 0), v)
    ensures !GraphicFull(sc.(vga := u), false)
  {
  }

  /** After the first picture other registers, or other memory, with nothing marked. */
  ghost predicate Changed(x: World, z: World, u: Vga, m: seq<bv8>)
    requires x.Wf()
  {
    z.Wf() && z.sc == x.sc.(vga := u, vram := m) && z.touched == x.touched && |m| == VRAM_ACTUAL_SIZE
  }

  lemma StillPartial(x: World, z: World, v: Vga, u: Vga, vram: seq<bv8>, m: seq<bv8>)
    requires Depth(v) != 32 && Depth(u) != 32 && GraphicMode(u) == GMODE_GRAPHIC && TrackedSame(v, u)
    requires PictureDrawn(x, v, vram, |x.sc.fb|) && Changed(x, z, u, m) && FrameOf(u).Drawable(|x.sc.fb|)
    ensures Partial(z)
  {
    StillTracked(x.sc.(vram := m), v, u);
  }

  lemma Unmarked(f: Frame, dirty: seq<bool>, y: nat)
    requires y < |f.lines| && dirty == Synced(NoPages(), NoPages(), true)
    ensures !LineDirty(f, dirty, y)
  {
  }

  lemma WrongHere(fb: seq<Pixel>, was: Frame, f: Frame, p: seq<Pixel>, before: seq<bv8>, m: seq<bv8>, dirty: seq<bool>,
                  y: nat, c: nat)
    requires |p| == 256 && was.stride == f.stride && dirty == Synced(NoPages(), NoPages(), true)
    requires y < |f.lines| && y < |was.lines| && c < Across(f) && c < Across(was) && LineShown(fb, was, p, before, y)
    requires Dot(was, p, before, y, c) != Dot(f, p, m, y, c)
    ensures WrongDot(fb, f, p, m, dirty, y, c)
  {
    Unmarked(f, dirty, y);
    ShownDot(fb, was, p, before, y, c);
  }

  lemma StalePicture(x: World, z: World, v: Vga, u: Vga, vram: seq<bv8>, m: seq<bv8>, y: nat, c: nat)
    requires Paints(v, |x.sc.fb|, y, c) && Paints(u, |x.sc.fb|, y, c) && GraphicMode(u) == GMODE_GRAPHIC
    requires TrackedSame(v, u)
    requires PictureDrawn(x, v, vram, |x.sc.fb|) && Changed(x, z, u, m)
    requires var p := GraphicPalette(seq(256, i => 0), v); Dot(FrameOf(v), p, vram, y, c) != Dot(FrameOf(u), p, m, y, c)
    ensures CanRefresh(z.sc) && Wrong(z)
  {
    StillPartial(x, z, v, u, vram, m);
    DrawnAs(z);
    var dirty := Synced(NoPages(), NoPages(), true);
    assert LineShown(x.sc.fb, FrameOf(v), x.sc.palette, vram, y);
    WrongHere(x.sc.fb, FrameOf(v), FrameOf(u), x.sc.palette, vram, m, dirty, y, c);
    WrongDotStays(x.sc.fb, FrameOf(u), x.sc.palette, m, dirty, y, c);
  }

  /** Whatever the mode, a change to registers that are not tracked is missed as soon as it changes a
      pixel. */
  lemma UntrackedMissed(v: Vga, u: Vga, vram: seq<bv8>, fb: seq<Pixel>, y: nat, x: nat)
    requires |vram| == VRAM_ACTUAL_SIZE && GraphicMode(v) == GMODE_GRAPHIC == GraphicMode(u)
    requires v.planeUpdated == u.planeUpdated
    requires Paints(v, |fb|, y, x) && Paints(u, |fb|, y, x) && TrackedSame(v, u)
    requires var p := GraphicPalette(seq(256, i => 0), v);
        Dot(FrameOf(v), p, vram, y, x) != Dot(FrameOf(u), p, vram, y, x)
    ensures Misses(v, vram, fb, [Refresh(true, true), Configure(u)])
  {
    var w := Initial(v, vram, fb, NoPages());
    FirstPicture(v, vram, fb);
    RunTwo(w, Refresh(true, true), Configure(u));
    assert u.(planeUpdated := v.planeUpdated) == u;
    var first := Step(w, Refresh(true, true));
    StalePicture(first, Step(first, Configure(u)), v, u, vram, vram, y, x);
  }

  /** A clear is missed as soon as it changes a pixel. */
  lemma ClearMissed(v: Vga, vram: seq<bv8>, fb: seq<Pixel>, n: nat, y: nat, x: nat)
    requires |vram| == VRAM_ACTUAL_SIZE && GraphicMode(v) == GMODE_GRAPHIC && Paints(v, |fb|, y, x)
    requires n <= VRAM_ACTUAL_SIZE
    requires var p := GraphicPalette(seq(256, i => 0), v);
        Dot(FrameOf(v), p, vram, y, x) != Dot(FrameOf(v), p, Zeroed(vram, n), y, x)
    ensures Misses(v, vram, fb, [Refresh(true, true), Clear(n)])
  {
    var w := Initial(v, vram, fb, NoPages());
    FirstPicture(v, vram, fb);
    RunTwo(w, Refresh(true, true), Clear(n));
    var first := Step(w, Refresh(true, true));
    SameTracked(v);
    StalePicture(first, Step(first, Clear(n)), v, v, vram, Zeroed(vram, n), y, x);
  }

  lemma SameTracked(v: Vga)
    requires Depth(v) != 32
    ensures TrackedSame(v, v)
  {
    var p := GraphicPalette(seq(256, i => 0), v);
    assert GraphicPalette(p, v) == p;
  }

  // Sixteen colours, two lines of eight pixels; colour 1 is white.

  function Plane16(): Vga {
    Vga(0, 0, 0, 0, seq(256, _ => 0), 0, seq(256, _ => 0)[6 := 1],
        0x20, [0, 1, 2, 3, 4, 5, 6, 7, 8, 9, 10, 11, 12, 13, 14, 15, 0, 0, 15, 0, 0], 0,
        0, seq(256, _ => 0)[0x12 := 1][0x13 := 1][0x17 := 3][0x18 := 0xff],
        0, 0, 0, 0, 0, 0, 0, 0, [0, 0, 0], false,
        seq(768, i => if 3 <= i < 6 then 0x3f else 0),
        0, 0, seq(VBE_NB, _ => 0), 0, 0, 63, 0)
  }

  lemma White()
    ensures Colour16(Plane16(), 0) == 0 && Colour16(Plane16(), 1) != 0
  {
    assert Expand6(0) == 0 && Expand6(0x3f) == 0xff;
    assert AttrIndex(Plane16(), 0) == 0 && AttrIndex(Plane16(), 1) == 1;
  }

  /** A register file that differs from Plane16 where no refresh looks for a change. */
  ghost predicate Variant(v: Vga) {
    && v.(cr := Plane16().cr, ar := Plane16().ar, sr := Plane16().sr) == Plane16()
    && v.ar[..16] == Plane16().ar[..16] && v.ar[0x10] == 0 && v.ar[0x14] == 0
    && v.cr[0x0c] == 0 && v.cr[0x0d] == 0 && v.cr[7] == 0 && v.cr[9] < 2 && v.cr[0x18] == 0xff
    && v.cr[0x12] == 1 && v.cr[0x13] == 1
  }

  lemma VariantSame(v: Vga, u: Vga)
    requires Variant(v) && Variant(u) && DispWidth(v) == DispWidth(u)
    ensures Depth(v) == 0 == Depth(u) && GraphicMode(v) == GMODE_GRAPHIC == GraphicMode(u) && TrackedSame(v, u)
    ensures Height(v) == 2 && ShiftControl(v) == 0
  {
  }

  lemma VariantLines(v: Vga)
    requires Variant(v) && (v.cr[0x17] == 3 || (v.cr[0x17] == 2 && v.cr[9] == 0))
    ensures LineAddr(v, 0) == 0
    ensures LineAddr(v, 1) == if v.cr[0x17] == 2 then 0x4000 else if v.cr[9] == 1 then 0 else 8
  {
    assert BeamAt(v, 0) == Beam(0, 0, MultiScan(v));
    assert BeamAt(v, 1) == NextBeam(v, BeamAt(v, 0), 0);
  }

  lemma VariantPixels(v: Vga, fb: seq<Pixel>, y: nat, k: nat)
    requires Variant(v) && (v.cr[0x17] == 3 || (v.cr[0x17] == 2 && v.cr[9] == 0)) && v.cr[1] < 2 && y < 2 && k < 8
    requires |fb| == 32 && DispWidth(v) <= 16
    ensures Paints(v, |fb|, y, k) && LineAddr(v, y) + 4 <= VRAM_ACTUAL_SIZE
  {
    VariantSame(v, v);
    VariantLines(v);
    FrameFits(v);
    assert At(0, DispWidth(v), 2) == 2 * DispWidth(v);
    forall i | 0 <= i < |FrameOf(v).lines| ensures FrameOf(v).lines[i] + FrameOf(v).bytes <= VRAM_ACTUAL_SIZE {
      assert i == 0 || i == 1;
    }
  }

  /** Pixels of a group whose first byte is 0x80, or nothing, the others zero. */
  lemma GroupOf(planes: bv8, vram: seq<bv8>, a: nat)
    requires a + 4 <= |vram| && (vram[a] == 0x80 || vram[a] == 0) && vram[a + 1] == 0 && vram[a + 2] == 0
    requires vram[a + 3] == 0
    requires planes == 0 || planes == 15
    ensures PlanarGroup(planes, vram, a)[0] == if planes == 15 && vram[a] == 0x80 then 1 else 0
    ensures PlanarGroup(planes, vram, a)[1] == 0
  {
  }

  /** The palette index of pixel k. */
  function IndexAt(v: Vga, vram: seq<bv8>, y: nat, k: nat): Index4
    requires LineAddr(v, y) + 4 <= |vram| && k < 8
  {
    PlanarGroup(Planes(v), vram, LineAddr(v, y))[if Doubled(v) then k / 2 else k]
  }

  lemma VariantColours(v: Vga)
    requires Variant(v)
    ensures var p := GraphicPalette(seq(256, i => 0), v);
        p[0] == Colour16(Plane16(), 0) && p[1] == Colour16(Plane16(), 1)
  {
    VariantSame(v, v);
    SameColour(v, 0);
    SameColour(v, 1);
  }

  lemma SameColour(v: Vga, i: nat)
    requires Variant(v) && i < 16
    ensures Colour16(v, i) == Colour16(Plane16(), i)
  {
    assert v.ar[i] == v.ar[..16][i] == Plane16().ar[..16][i] == Plane16().ar[i];
  }

  lemma VariantFrame(v: Vga, y: nat)
    requires Variant(v) && y < 2
    ensures Depth(v) == 0
    ensures var f := FrameOf(v);
      |f.lines| == 2 && f.lines[y] == LineAddr(v, y) && f.planes == Planes(v)
      && f.mode == if Doubled(v) then Line4D2 else Line4
  {
  }

  lemma SixteenDot(f: Frame, p: seq<Pixel>, vram: seq<bv8>, y: nat, k: nat)
    requires y < |f.lines| && f.lines[y] + 4 <= |vram| && k < 8 && |p| == 256 && (f.mode.Line4? || f.mode.Line4D2?)
    ensures Dot(f, p, vram, y, k)
         == p[PlanarGroup(f.planes, vram, f.lines[y])[if f.mode.Line4D2? then k / 2 else k] as int]
  {
    FirstGroup(GroupPixels(f.mode), k);
    var a := f.lines[y];
    assert At(a, 4, 0) == a;
    assert Dot(f, p, vram, y, k) == GroupPixel(f.mode, p, f.planes, vram, a, k);
  }

  lemma FirstGroup(each: nat, k: nat)
    requires k < 8 && (each == 8 || each == 16)
    ensures k / each == 0 && k % each == k
  {
  }

  lemma VariantDot(v: Vga, p: seq<Pixel>, vram: seq<bv8>, y: nat, k: nat)
    requires Variant(v) && LineAddr(v, y) + 4 <= |vram| && k < 8 && |p| == 256 && y < 2
    ensures Depth(v) == 0 && y < |FrameOf(v).lines|
    ensures Dot(FrameOf(v), p, vram, y, k) == p[IndexAt(v, vram, y, k) as int]
  {
    VariantFrame(v, y);
    SixteenDot(FrameOf(v), p, vram, y, k);
  }

  predicate Ready(v: Vga, y: nat, k: nat) {
    && (v.cr[0x17] == 3 || (v.cr[0x17] == 2 && v.cr[9] == 0)) && v.cr[1] < 2 && y < 2 && k < 8 && DispWidth(v) <= 16
  }

  /** Between two variants a pixel that turns on or off is missed. */
  lemma VariantMissed(v: Vga, u: Vga, m: seq<bv8>, fb: seq<Pixel>, y: nat, k: nat)
    requires Variant(v) && Variant(u) && Ready(v, y, k) && Ready(u, y, k) && DispWidth(v) == DispWidth(u)
    requires |fb| == 32 && |m| == VRAM_ACTUAL_SIZE && LineAddr(v, y) + 4 <= |m| && LineAddr(u, y) + 4 <= |m|
    requires IndexAt(v, m, y, k) < 2 && IndexAt(u, m, y, k) < 2 && IndexAt(v, m, y, k) != IndexAt(u, m, y, k)
    ensures Misses(v, m, fb, [Refresh(true, true), Configure(u)])
  {
    var p := GraphicPalette(seq(256, i => 0), v);
    VariantSame(v, u);
    VariantPixels(v, fb, y, k);
    VariantPixels(u, fb, y, k);
    VariantColours(v);
    White();
    VariantDot(v, p, m, y, k);
    VariantDot(u, p, m, y, k);
    UntrackedMissed(v, u, m, fb, y, k);
  }

  /** The plane enable register: the picture keeps planes that have been switched off. */
  lemma PlanesMissed(fb: seq<Pixel>)
    requires |fb| == 32
    ensures var v := Plane16();
        Misses(v, Memory(0, 0x80), fb, [Refresh(true, true), Configure(v.(ar := v.ar[0x12 := 0]))])
  {
    var v, m := Plane16(), Memory(0, 0x80);
    var u := v.(ar := v.ar[0x12 := 0]);
    VariantLines(v);
    VariantLines(u);
    GroupOf(15, m, 0);
    GroupOf(0, m, 0);
    VariantMissed(v, u, m, fb, 0, 0);
  }

  /** The height of a row: a line keeps the address it had. */
  lemma RowScansMissed(fb: seq<Pixel>)
    requires |fb| == 32
    ensures var v := Plane16(); Misses(v, Memory(0, 0x80), fb, [Refresh(true, true), Configure(v.(cr := v.cr[9 := 1]))])
  {
    var v, m := Plane16(), Memory(0, 0x80);
    var u := v.(cr := v.cr[9 := 1]);
    VariantLines(v);
    VariantLines(u);
    GroupOf(15, m, 0);
    GroupOf(15, m, 8);
    VariantMissed(v, u, m, fb, 1, 0);
  }

  /** The interleaving bits of cr[0x17]. */
  lemma InterleaveMissed(fb: seq<Pixel>)
    requires |fb| == 32
    ensures var v := Plane16();
        Misses(v, Memory(8, 0x80), fb, [Refresh(true, true), Configure(v.(cr := v.cr[0x17 := 2]))])
  {
    var v, m := Plane16(), Memory(8, 0x80);
    var u := v.(cr := v.cr[0x17 := 2]);
    VariantLines(v);
    VariantLines(u);
    GroupOf(15, m, 8);
    GroupOf(15, m, 0x4000);
    VariantMissed(v, u, m, fb, 1, 0);
  }

  /** Pixel doubling, when the width is halved with it. */
  lemma DoublingMissed(fb: seq<Pixel>)
    requires |fb| == 32
    ensures var v := Plane16().(cr := Plane16().cr[1 := 1]);
            Misses(v, Memory(0, 0x80), fb, [Refresh(true, true), Configure(Plane16().(sr := Plane16().sr[1 := 8]))])
  {
    var v, m := Plane16().(cr := Plane16().cr[1 := 1]), Memory(0, 0x80);
    var u := Plane16().(sr := Plane16().sr[1 := 8]);
    VariantLines(v);
    VariantLines(u);
    GroupOf(15, m, 0);
    VariantMissed(v, u, m, fb, 0, 1);
  }
}
