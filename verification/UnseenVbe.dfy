/** The screen clear of a VBE mode turned off and on again between two refreshes. */
module UnseenVbe {
  import opened VgaRegs
  import opened Grid
  import opened Bytes
  import opened Pixels
  import opened Scanout
  import opened Graphic
  import opened Ports
  import opened Vbe
  import opened Surface
  import opened SurfaceRuns
  import opened StaleLines
  import opened Unseen

  /** The registers after 0 and then 1 are written to the enable register. */
  ghost predicate Toggles(v: Vga, off: Vga, on: Vga) {
    && v.vbeIndex == VBE_ENABLE && BppOk(v.vbe[VBE_BPP]) && BppOk(off.vbe[VBE_BPP])
    && off.vbeIndex == VBE_ENABLE && off == VbeDataWrite(Dev(v, false, false), 0, v.lfbAddr).vga
    && on == VbeDataWrite(Dev(off, false, false), 1, v.lfbAddr).vga
  }

  /** A mode turned off and on again, with its clear. */
  function Toggle(off: Vga, on: Vga, n: nat): (es: seq<Event>)
    ensures |es| == 4
  {
    [Refresh(true, true), Configure(off), Clear(n), Configure(on)]
  }

  lemma RunFour(w: World, es: seq<Event>, x: World, y: World, z: World)
    requires |es| == 4 && StepOk(w, es[0]) && x == Step(w, es[0]) && StepOk(x, es[1]) && y == Step(x, es[1])
    requires StepOk(y, es[2]) && z == Step(y, es[2]) && StepOk(z, es[3])
    ensures RunOk(w, es) && Run(w, es) == Step(z, es[3])
  {
    RunTwo(y, es[2], es[3]);
    assert es[2..] == [es[2], es[3]];
    assert es[1..][1..] == es[2..];
    assert RunOk(x, es[1..]) && Run(x, es[1..]) == Run(y, es[2..]);
  }

  lemma ToggleRun(w: World, x: World, v: Vga, off: Vga, on: Vga, n: nat)
    requires StepOk(w, Refresh(true, true)) && x == Step(w, Refresh(true, true)) && x.sc.vga == v
    requires n <= VRAM_ACTUAL_SIZE
    requires off.planeUpdated == v.planeUpdated == on.planeUpdated
    ensures RunOk(w, Toggle(off, on, n)) && Changed(x, Run(w, Toggle(off, on, n)), on, Zeroed(x.sc.vram, n))
  {
    assert off.(planeUpdated := v.planeUpdated) == off && on.(planeUpdated := v.planeUpdated) == on;
    var y := Step(x, Configure(off));
    RunFour(w, Toggle(off, on, n), x, y, Step(y, Clear(n)));
  }

  /** Turning a mode off and on again clears the screen's bytes, and a refresh misses it as soon as that
      changes a pixel and leaves the registers a refresh compares as they were. */
  lemma ModeToggleMissed(v: Vga, off: Vga, on: Vga, n: nat, vram: seq<bv8>, fb: seq<Pixel>, y: nat, x: nat)
    requires Toggles(v, off, on) && n == ClearBytes(off) <= VRAM_ACTUAL_SIZE && |vram| == VRAM_ACTUAL_SIZE
    requires GraphicMode(v) == GMODE_GRAPHIC == GraphicMode(on) && Paints(v, |fb|, y, x) && Paints(on, |fb|, y, x)
    requires TrackedSame(v, on)
    requires var p := GraphicPalette(seq(256, i => 0), v);
             Dot(FrameOf(v), p, vram, y, x) != Dot(FrameOf(on), p, Zeroed(vram, n), y, x)
    ensures Misses(v, vram, fb, Toggle(off, on, n))
  {
    var w := Initial(v, vram, fb, NoPages());
    FirstPicture(v, vram, fb);
    var first := Step(w, Refresh(true, true));
    KeepsPlanes(v, off, on);
    ToggleRun(w, first, v, off, on, n);
    StalePicture(first, Run(w, Toggle(off, on, n)), v, on, vram, Zeroed(vram, n), y, x);
  }

  lemma KeepsPlanes(v: Vga, off: Vga, on: Vga)
    requires Toggles(v, off, on)
    ensures off.planeUpdated == v.planeUpdated == on.planeUpdated
  {
  }

  // Eight pixels of eight bits, on one line; colour 1 is white.

  function Mode8Crtc(): (cr: seq<bv8>)
    ensures |cr| == 256
  {
    seq(256, _ => 0)[0x17 := 3][0x13 := 1][7 := 0x10][0x18 := 0xff][9 := 0x40]
  }

  function Mode8Vbe(): (vbe: seq<u16>)
    ensures |vbe| == VBE_NB
  {
    seq(VBE_NB, _ => 0)[VBE_XRES := 8][VBE_YRES := 1][VBE_BPP := 8][VBE_ENABLE := 1]
      [VBE_VIRT_WIDTH := 8][VBE_VIRT_HEIGHT := 1]
  }

  /** The registers as turning the mode on leaves them. */
  function Mode8(): Vga {
    Plane16().(vbeIndex := VBE_ENABLE, vbe := Mode8Vbe(), vbeLineOffset := 8, cr := Mode8Crtc(),
               sr := seq(256, _ => 0)[4 := 8][2 := 15], gr := seq(256, _ => 0)[6 := 5][5 := 0x40])
  }

  lemma UpdateSame(c: seq<bv8>, i: nat, b: bv8)
    requires i < |c| && c[i] == b
    ensures c[i := b] == c
  {
  }

  /** A CRT controller that has what a mode sets keeps it. */
  lemma CrtcAgain(c: seq<bv8>, xres: u16, yres: u16, lineOffset: u32)
    requires |c| == 256 && c[0x17] | 3 == c[0x17] && c[0x13] == ByteOf(lineOffset / 8 % 256)
    requires c[0x01] == ByteOf((xres / 8 - 1) % 256) && c[0x12] == ByteOf((yres - 1) % 256)
    requires c[0x07] == OverflowBits(c[7], yres - 1) && c[0x18] == 0xff && c[0x09] == (c[9] | 0x40) & 0x60
    ensures ModeCrtc(c, xres, yres, lineOffset) == c
  {
    UpdateSame(c, 0x17, c[0x17] | 3);
    UpdateSame(c, 0x13, ByteOf(lineOffset / 8 % 256));
    UpdateSame(c, 0x01, ByteOf((xres / 8 - 1) % 256));
    UpdateSame(c, 0x12, ByteOf((yres - 1) % 256));
    UpdateSame(c, 0x07, OverflowBits(c[7], yres - 1));
    UpdateSame(c, 0x18, 0xff);
    UpdateSame(c, 0x09, (c[9] | 0x40) & 0x60);
  }

  lemma CrtcBytes()
    ensures ByteOf(1) == 1 && ByteOf(0) == 0 && OverflowBits(0x10, 0) == 0x10
    ensures 3 as bv8 | 3 == 3 && (0x40 as bv8 | 0x40) & 0x60 == 0x40
  {
    SameByte(ByteOf(1), 1);
    SameByte(ByteOf(0), 0);
  }

  lemma Mode8CrtcAgain(c: seq<bv8>)
    requires c == Mode8Crtc()
    ensures ModeCrtc(c, 8, 1, 8) == c
  {
    CrtcBytes();
    CrtcAgain(c, 8, 1, 8);
  }

  lemma BanksAgain(v: Vga)
    requires v == Mode8()
    ensures ModeSequencer(v.sr, 8) == v.sr && ModeGraphics(v.gr, 8) == v.gr
  {
  }

  lemma VbeAgain()
    ensures ModeVbe(Mode8Vbe()[VBE_ENABLE := 0])[VBE_ENABLE := 1] == Mode8Vbe()
  {
  }

  /** Off and on again they are the same. */
  lemma Mode8Toggles(off: Vga)
    requires off == Mode8().(vbe := Mode8Vbe()[VBE_ENABLE := 0])
    ensures Toggles(Mode8(), off, Mode8()) && ClearBytes(off) == 8
  {
    Mode8CrtcAgain(Mode8Crtc());
    BanksAgain(Mode8());
    VbeAgain();
  }

  lemma Mode8Frame(v: Vga, cells: nat)
    requires v == Mode8() && cells >= 8
    ensures GraphicMode(v) == GMODE_GRAPHIC && Depth(v) == 8
    ensures FrameOf(v) == Frame(Line8, 15, 8, 8, 8, [0]) && FrameOf(v).Drawable(cells)
  {
    assert BeamAt(v, 0) == Beam(0, 0, MultiScan(v));
    assert LineAddr(v, 0) == 0;
    assert FrameOf(v).lines == [0];
    assert At(0, 8, 1) == 8;
  }

  lemma Mode8Dot(p: seq<Pixel>, m: seq<bv8>)
    requires |p| == 256 && |m| == VRAM_ACTUAL_SIZE
    ensures Dot(Frame(Line8, 15, 8, 8, 8, [0]), p, m, 0, 0) == p[m[0] as int]
  {
    assert At(0, 8, 0) == 0;
  }

  lemma Mode8Colours(v: Vga)
    requires v == Mode8()
    ensures Depth(v) == 8 && Mode(v) == Line8
    ensures var p := GraphicPalette(seq(256, i => 0), v); p[0] == Colour256(v, 0) != Colour256(v, 1) == p[1]
  {
    assert Expand6(0) == 0 && Expand6(0x3f) == 0xff;
  }

  lemma Mode8Missed(v: Vga, off: Vga, m: seq<bv8>, fb: seq<Pixel>)
    requires v == Mode8() && Toggles(v, off, v) && ClearBytes(off) == 8 && |fb| >= 8
    requires |m| == VRAM_ACTUAL_SIZE && m[0] == 1 && Zeroed(m, 8)[0] == 0
    ensures Misses(v, m, fb, Toggle(off, v, 8))
  {
    Mode8Paints(v, |fb|);
    SameTracked(v);
    Mode8Differs(v, m);
    ModeToggleMissed(v, off, v, 8, m, fb, 0, 0);
  }

  lemma Mode8Paints(v: Vga, cells: nat)
    requires v == Mode8() && cells >= 8
    ensures GraphicMode(v) == GMODE_GRAPHIC && Depth(v) == 8 && Paints(v, cells, 0, 0)
  {
    Mode8Frame(v, cells);
  }

  lemma Mode8Differs(v: Vga, m: seq<bv8>)
    requires v == Mode8() && |m| == VRAM_ACTUAL_SIZE && m[0] == 1 && Zeroed(m, 8)[0] == 0
    ensures Depth(v) == 8 && |FrameOf(v).lines| == 1
    ensures var p := GraphicPalette(seq(256, i => 0), v);
        Dot(FrameOf(v), p, m, 0, 0) != Dot(FrameOf(v), p, Zeroed(m, 8), 0, 0)
  {
    var p := GraphicPalette(seq(256, i => 0), v);
    Mode8Frame(v, 8);
    Mode8Colours(v);
    Mode8Dot(p, m);
    Mode8Dot(p, Zeroed(m, 8));
  }

  /** The clear on turning a VBE mode on: a white pixel stays on the screen. */
  lemma VbeClearMissed(fb: seq<Pixel>)
    requires |fb| >= 8
    ensures var (v, off) := (Mode8(), Mode8().(vbe := Mode8Vbe()[VBE_ENABLE := 0]));
            Toggles(v, off, v) && Misses(v, Memory(0, 1), fb, Toggle(off, v, ClearBytes(off)))
  {
    var off := Mode8().(vbe := Mode8Vbe()[VBE_ENABLE := 0]);
    Mode8Toggles(off);
    Mode8Missed(Mode8(), off, Memory(0, 1), fb);
  }
}
