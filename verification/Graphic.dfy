/** The line loop of surface_draw_graphic: only lines on dirty pages are redrawn, unless a
    full update is due. */
module Graphic {
  import opened VgaRegs
  import opened Grid
  import opened Pixels
  import opened Scanout

  // ------------------------------------------------------------------
  // Dirty pages

  function PageOf(a: nat): nat { a / PAGE_SIZE }

  /** Some page touched by the bytes of scan line y is dirty. */
  predicate LineDirty(f: Frame, dirty: seq<bool>, y: nat)
    requires y < |f.lines|
  {
    AnyDirty(dirty, PageOf(f.lines[y]), (f.lines[y] + f.bytes - 1) / PAGE_SIZE)
  }

  predicate AnyDirty(dirty: seq<bool>, first: nat, last: int) {
    exists p :: first <= p <= last && p < |dirty| && dirty[p]
  }

  // ------------------------------------------------------------------
  // The line loop

  /** fb after the first n scan lines of a refresh. */
  function DrawLines(fb: seq<Pixel>, f: Frame, palette: seq<Pixel>, vram: seq<bv8>, dirty: seq<bool>, full: bool,
                     n: nat): (d: seq<Pixel>)
    requires f.Drawable(|fb|) && |palette| == 256 && |vram| == VRAM_ACTUAL_SIZE && n <= |f.lines|
    ensures |d| == |fb|
    decreases n
  {
    if n == 0 then fb
    else
      var d := DrawLines(fb, f, palette, vram, dirty, full, n - 1);
      if full || LineDirty(f, dirty, n - 1) then DrawOne(d, f, palette, vram, n - 1) else d
  }

  function DrawOne(fb: seq<Pixel>, f: Frame, palette: seq<Pixel>, vram: seq<bv8>, y: nat): (d: seq<Pixel>)
    requires f.Drawable(|fb|) && |palette| == 256 && |vram| == VRAM_ACTUAL_SIZE && y < |f.lines|
    ensures |d| == |fb|
  {
    LineInside(f, |fb|, y);
    PaintLine(fb, At(0, f.stride, y), f.mode, palette, f.planes, vram, f.lines[y], Groups(f.mode, f.width))
  }

  lemma LineInside(f: Frame, cells: nat, y: nat)
    requires f.Drawable(cells) && y < |f.lines|
    ensures var n := Groups(f.mode, f.width);
      && At(f.lines[y], GroupBytes(f.mode), n) <= f.lines[y] + f.bytes <= VRAM_ACTUAL_SIZE
      && At(At(0, f.stride, y), GroupPixels(f.mode), n) <= At(0, f.stride, y + 1) <= cells
  {
    AtProduct(f.lines[y], GroupBytes(f.mode), Groups(f.mode, f.width));
    AtProduct(At(0, f.stride, y), GroupPixels(f.mode), Groups(f.mode, f.width));
    AtMono(0, f.stride, y + 1, |f.lines|);
  }

  /** A redrawn line shows current memory and leaves every other line alone. */
  lemma DrawOneShows(fb: seq<Pixel>, f: Frame, palette: seq<Pixel>, vram: seq<bv8>, y: nat)
    requires f.Drawable(|fb|) && |palette| == 256 && |vram| == VRAM_ACTUAL_SIZE && y < |f.lines|
    ensures var d := DrawOne(fb, f, palette, vram, y);
      SameOutside(fb, d, At(0, f.stride, y), At(0, f.stride, y + 1)) && LineShown(d, f, palette, vram, y)
  {
    LineInside(f, |fb|, y);
    PaintLineShows(fb, At(0, f.stride, y), f.mode, palette, f.planes, vram, f.lines[y], Groups(f.mode, f.width));
  }

  /** A line redrawn where it is already shown changes nothing. */
  lemma {:induction false} PaintShown(fb: seq<Pixel>, o: nat, m: LineMode, palette: seq<Pixel>, planes: bv8,
                                      vram: seq<bv8>, a: nat, n: nat)
    requires |palette| == 256 && At(a, GroupBytes(m), n) <= |vram| && At(o, GroupPixels(m), n) <= |fb|
    requires LineShows(fb, o, m, palette, planes, vram, a, n)
    ensures PaintLine(fb, o, m, palette, planes, vram, a, n) == fb
    decreases n
  {
    if n > 0 {
      assert LineShows(fb, o, m, palette, planes, vram, a, n - 1);
      PaintShown(fb, o, m, palette, planes, vram, a, n - 1);
      assert GroupShows(fb, At(o, GroupPixels(m), n - 1), m, palette, planes, vram, At(a, GroupBytes(m), n - 1));
      GroupIsPainted(fb, fb, At(o, GroupPixels(m), n - 1), m, palette, planes, vram, At(a, GroupBytes(m), n - 1));
    }
  }

  lemma RedrawIdle(fb: seq<Pixel>, d: seq<Pixel>, f: Frame, palette: seq<Pixel>, vram: seq<bv8>, y: nat)
    requires f.Drawable(|fb|) && |palette| == 256 && |vram| == VRAM_ACTUAL_SIZE && y < |f.lines|
    requires SameOutside(fb, d, 0, At(0, f.stride, y)) && LineShown(fb, f, palette, vram, y)
    ensures DrawOne(d, f, palette, vram, y) == d
  {
    var (o, n) := (At(0, f.stride, y), Groups(f.mode, f.width));
    LineInside(f, |fb|, y);
    LineShowsElsewhere(fb, d, 0, o, o, f.mode, palette, f.planes, vram, f.lines[y], n);
    PaintShown(d, o, f.mode, palette, f.planes, vram, f.lines[y], n);
  }

  lemma OtherLineKept(was: seq<Pixel>, d: seq<Pixel>, f: Frame, palette: seq<Pixel>, vram: seq<bv8>, y: nat, z: nat)
    requires f.Drawable(|was|) && y < z < |f.lines|
    requires SameOutside(was, d, At(0, f.stride, z), At(0, f.stride, z + 1)) && LineShown(was, f, palette, vram, y)
    ensures LineShown(d, f, palette, vram, y)
  {
    LineInside(f, |was|, y);
    AtMono(0, f.stride, y + 1, z);
    LineShowsElsewhere(was, d, At(0, f.stride, z), At(0, f.stride, z + 1), At(0, f.stride, y), f.mode, palette,
                       f.planes, vram, f.lines[y], Groups(f.mode, f.width));
  }

  /** Lines from n on are still as they were. */
  lemma {:induction false} LaterLinesKept(fb: seq<Pixel>, f: Frame, palette: seq<Pixel>, vram: seq<bv8>,
                                          dirty: seq<bool>, full: bool, n: nat)
    requires f.Drawable(|fb|) && |palette| == 256 && |vram| == VRAM_ACTUAL_SIZE && n <= |f.lines|
    ensures SameOutside(fb, DrawLines(fb, f, palette, vram, dirty, full, n), 0, At(0, f.stride, n))
    decreases n
  {
    if n > 0 {
      LaterLinesKept(fb, f, palette, vram, dirty, full, n - 1);
      DrawOneShows(DrawLines(fb, f, palette, vram, dirty, full, n - 1), f, palette, vram, n - 1);
      AtMono(0, f.stride, n - 1, n);
    }
  }

  /** Every line that no dirty page touches is already shown. */
  ghost predicate CleanLinesShown(fb: seq<Pixel>, f: Frame, palette: seq<Pixel>, vram: seq<bv8>, dirty: seq<bool>) {
    forall y | 0 <= y < |f.lines| && !LineDirty(f, dirty, y) :: LineShown(fb, f, palette, vram, y)
  }

  /** The incremental refresh leaves exactly what a full one would. */
  lemma {:induction false} IncrementalIsFull(fb: seq<Pixel>, f: Frame, palette: seq<Pixel>, vram: seq<bv8>,
                                             dirty: seq<bool>, n: nat)
    requires f.Drawable(|fb|) && |palette| == 256 && |vram| == VRAM_ACTUAL_SIZE && n <= |f.lines|
    requires CleanLinesShown(fb, f, palette, vram, dirty)
    ensures DrawLines(fb, f, palette, vram, dirty, false, n) == DrawLines(fb, f, palette, vram, dirty, true, n)
    decreases n
  {
    if n > 0 {
      IncrementalIsFull(fb, f, palette, vram, dirty, n - 1);
      if !LineDirty(f, dirty, n - 1) {
        LaterLinesKept(fb, f, palette, vram, dirty, true, n - 1);
        RedrawIdle(fb, DrawLines(fb, f, palette, vram, dirty, true, n - 1), f, palette, vram, n - 1);
      }
    }
  }

  lemma OtherDrawn(was: seq<Pixel>, f: Frame, palette: seq<Pixel>, vram: seq<bv8>, y: nat, z: nat)
    requires f.Drawable(|was|) && |palette| == 256 && |vram| == VRAM_ACTUAL_SIZE && y < z < |f.lines|
    requires LineShown(was, f, palette, vram, y)
    ensures LineShown(DrawOne(was, f, palette, vram, z), f, palette, vram, y)
  {
    DrawOneShows(was, f, palette, vram, z);
    OtherLineKept(was, DrawOne(was, f, palette, vram, z), f, palette, vram, y, z);
  }

  /** A line that is drawn shows current memory. */
  lemma {:induction false} DrawnShows(fb: seq<Pixel>, f: Frame, palette: seq<Pixel>, vram: seq<bv8>, dirty: seq<bool>,
                                      full: bool, n: nat, y: nat)
    requires f.Drawable(|fb|) && |palette| == 256 && |vram| == VRAM_ACTUAL_SIZE && y < n <= |f.lines|
    requires full || LineDirty(f, dirty, y)
    ensures LineShown(DrawLines(fb, f, palette, vram, dirty, full, n), f, palette, vram, y)
    decreases n
  {
    var was := DrawLines(fb, f, palette, vram, dirty, full, n - 1);
    if y == n - 1 {
      DrawOneShows(was, f, palette, vram, y);
    } else {
      DrawnShows(fb, f, palette, vram, dirty, full, n - 1, y);
      OtherDrawn(was, f, palette, vram, y, n - 1);
    }
  }

  /** A full redraw shows every line. */
  lemma FullShows(fb: seq<Pixel>, f: Frame, palette: seq<Pixel>, vram: seq<bv8>, dirty: seq<bool>, n: nat)
    requires f.Drawable(|fb|) && |palette| == 256 && |vram| == VRAM_ACTUAL_SIZE && n <= |f.lines|
    ensures forall y | 0 <= y < n :: LineShown(DrawLines(fb, f, palette, vram, dirty, true, n), f, palette, vram, y)
  {
    forall y | 0 <= y < n
      ensures LineShown(DrawLines(fb, f, palette, vram, dirty, true, n), f, palette, vram, y)
    {
      DrawnShows(fb, f, palette, vram, dirty, true, n, y);
    }
  }

  // ------------------------------------------------------------------
  // Clean lines stay shown

  /** The bytes of a group are the same in both memories. */
  lemma GroupFootprint(m: LineMode, palette: seq<Pixel>, planes: bv8, vram: seq<bv8>, was: seq<bv8>, a: nat, k: nat)
    requires |palette| == 256 && a + GroupBytes(m) <= |vram| == |was| && k < GroupPixels(m)
    requires forall i :: a <= i < a + GroupBytes(m) ==> vram[i] == was[i]
    ensures GroupPixel(m, palette, planes, vram, a, k) == GroupPixel(m, palette, planes, was, a, k)
  {
  }

  lemma GroupKept(fb: seq<Pixel>, d: nat, m: LineMode, palette: seq<Pixel>, planes: bv8, vram: seq<bv8>,
                  was: seq<bv8>, s: nat)
    requires |vram| == |was| && GroupShows(fb, d, m, palette, planes, was, s)
    requires forall i :: s <= i < s + GroupBytes(m) ==> vram[i] == was[i]
    ensures GroupShows(fb, d, m, palette, planes, vram, s)
  {
    forall k {:trigger GroupPixel(m, palette, planes, vram, s, k)} | 0 <= k < GroupPixels(m)
      ensures fb[d + k] == GroupPixel(m, palette, planes, vram, s, k)
    {
      GroupFootprint(m, palette, planes, vram, was, s, k);
      assert fb[d + k] == GroupPixel(m, palette, planes, was, s, k);
    }
  }

  lemma LineFootprint(fb: seq<Pixel>, o: nat, m: LineMode, palette: seq<Pixel>, planes: bv8, vram: seq<bv8>,
                      was: seq<bv8>, a: nat, n: nat)
    requires |vram| == |was| && LineShows(fb, o, m, palette, planes, was, a, n)
    requires forall i :: a <= i < At(a, GroupBytes(m), n) && i < |vram| ==> vram[i] == was[i]
    ensures LineShows(fb, o, m, palette, planes, vram, a, n)
  {
    forall g {:trigger At(a, GroupBytes(m), g)} | 0 <= g < n
      ensures GroupShows(fb, At(o, GroupPixels(m), g), m, palette, planes, vram, At(a, GroupBytes(m), g))
    {
      var (d, s) := (At(o, GroupPixels(m), g), At(a, GroupBytes(m), g));
      AtMono(a, GroupBytes(m), g, n);
      assert GroupShows(fb, d, m, palette, planes, was, s);
      assert s + GroupBytes(m) <= At(a, GroupBytes(m), n);
      GroupKept(fb, d, m, palette, planes, vram, was, s);
    }
  }

  /** A byte that changed since `was` lies on a dirty page. */
  ghost predicate ChangesMarked(was: seq<bv8>, vram: seq<bv8>, dirty: seq<bool>) {
    && |was| == |vram| == VRAM_ACTUAL_SIZE && |dirty| == VRAM_PAGES
    && forall i | 0 <= i < |vram| && vram[i] != was[i] :: dirty[PageOf(i)]
  }

  lemma CleanBytes(f: Frame, was: seq<bv8>, vram: seq<bv8>, dirty: seq<bool>, y: nat, i: nat)
    requires y < |f.lines| && ChangesMarked(was, vram, dirty) && !LineDirty(f, dirty, y)
    requires f.lines[y] <= i < f.lines[y] + f.bytes && i < |vram|
    ensures vram[i] == was[i]
  {
    assert !dirty[PageOf(i)];
  }

  /** If the last picture was drawn through the same frame, a line no dirty page touches
      still shows current memory. */
  lemma CleanLineShown(fb: seq<Pixel>, f: Frame, palette: seq<Pixel>, was: seq<bv8>, vram: seq<bv8>, dirty: seq<bool>,
                       y: nat)
    requires f.Drawable(|fb|) && ChangesMarked(was, vram, dirty) && y < |f.lines|
    requires LineShown(fb, f, palette, was, y) && !LineDirty(f, dirty, y)
    ensures LineShown(fb, f, palette, vram, y)
  {
    var n := Groups(f.mode, f.width);
    LineInside(f, |fb|, y);
    forall i | f.lines[y] <= i < At(f.lines[y], GroupBytes(f.mode), n) && i < |vram|
      ensures vram[i] == was[i]
    {
      CleanBytes(f, was, vram, dirty, y, i);
    }
    LineFootprint(fb, At(0, f.stride, y), f.mode, palette, f.planes, vram, was, f.lines[y], n);
  }

  lemma AllCleanShown(fb: seq<Pixel>, f: Frame, palette: seq<Pixel>, was: seq<bv8>, vram: seq<bv8>, dirty: seq<bool>)
    requires f.Drawable(|fb|) && ChangesMarked(was, vram, dirty)
    requires forall y | 0 <= y < |f.lines| :: LineShown(fb, f, palette, was, y)
    ensures CleanLinesShown(fb, f, palette, vram, dirty)
  {
    forall y | 0 <= y < |f.lines| && !LineDirty(f, dirty, y)
      ensures LineShown(fb, f, palette, vram, y)
    {
      CleanLineShown(fb, f, palette, was, vram, dirty, y);
    }
  }

  lemma StillMarked(was: seq<bv8>, vram: seq<bv8>, dirty: seq<bool>, d: seq<bool>)
    requires ChangesMarked(was, vram, dirty) && |d| == |dirty|
    requires forall p | 0 <= p < |dirty| && dirty[p] :: d[p]
    ensures ChangesMarked(was, vram, d)
  {
  }

  // ------------------------------------------------------------------
  // Colours a mode does not use

  /** The two palettes agree on the entries lines of this mode can show. */
  predicate SameColours(m: LineMode, p: seq<Pixel>, q: seq<Pixel>)
    requires |p| == 256 && |q| == 256
  {
    match m
    case Line2 | Line2D2 | Line4 | Line4D2 => p[..16] == q[..16]
    case Line8 | Line8D2 => p == q
    case Line15 | Line16 | Line24 => true
  }

  lemma GroupColours(m: LineMode, p: seq<Pixel>, q: seq<Pixel>, planes: bv8, vram: seq<bv8>, a: nat, k: nat)
    requires |p| == 256 && |q| == 256 && SameColours(m, p, q)
    requires a + GroupBytes(m) <= |vram| && k < GroupPixels(m)
    ensures GroupPixel(m, p, planes, vram, a, k) == GroupPixel(m, q, planes, vram, a, k)
  {
    if m.Line2? || m.Line2D2? || m.Line4? || m.Line4D2? {
      var n := Indices(m, planes, vram, a)[if m.Line2? || m.Line4? then k else k / 2] as int;
      assert p[n] == p[..16][n] && q[n] == q[..16][n];
    }
  }

  lemma LineColours(fb: seq<Pixel>, f: Frame, p: seq<Pixel>, q: seq<Pixel>, vram: seq<bv8>, y: nat)
    requires |p| == 256 && |q| == 256 && SameColours(f.mode, p, q) && y < |f.lines|
    requires LineShown(fb, f, p, vram, y)
    ensures LineShown(fb, f, q, vram, y)
  {
    var m := f.mode;
    forall g {:trigger At(f.lines[y], GroupBytes(m), g)} | 0 <= g < Groups(m, f.width)
      ensures GroupShows(fb, At(At(0, f.stride, y), GroupPixels(m), g), m, q, f.planes, vram,
                         At(f.lines[y], GroupBytes(m), g))
    {
      var (d, s) := (At(At(0, f.stride, y), GroupPixels(m), g), At(f.lines[y], GroupBytes(m), g));
      assert GroupShows(fb, d, m, p, f.planes, vram, s);
      forall k {:trigger GroupPixel(m, q, f.planes, vram, s, k)} | 0 <= k < GroupPixels(m)
        ensures fb[d + k] == GroupPixel(m, q, f.planes, vram, s, k)
      {
        GroupColours(m, p, q, f.planes, vram, s, k);
        assert fb[d + k] == GroupPixel(m, p, f.planes, vram, s, k);
      }
    }
  }

  // ------------------------------------------------------------------
  // The code

  method PagesDirty(dirty: array<bool>, first: nat, last: int) returns (update: bool)
    requires last < dirty.Length
    ensures update == AnyDirty(dirty[..], first, last)
  {
    update := false;
    var page := first;
    while page <= last
      invariant first <= page && (if first <= last then page <= last + 1 else page == first)
      invariant update == AnyDirty(dirty[..], first, page - 1)
    {
      assert AnyDirty(dirty[..], first, page) == (AnyDirty(dirty[..], first, page - 1) || dirty[..][page]);
      update := update || dirty[page];
      page := page + 1;
    }
  }

  lemma LinePages(addr: nat, bytes: nat)
    requires addr + bytes <= VRAM_ACTUAL_SIZE
    ensures (addr + bytes - 1) / PAGE_SIZE < VRAM_PAGES
  {
  }

  /** One scan line: draw it if an update is due. */
  method DrawScanLine(t: Tables, palette: array<Pixel>, fb: array<Pixel>, vram: array<bv8>, dirty: array<bool>,
                      mode: LineMode, planes: bv8, width: nat, bwidth: nat, addr: nat, d: nat, full: bool,
                      ghost f: Frame, ghost y: nat, ghost was: seq<Pixel>)
    requires t.Valid() && palette.Length == 256 && vram.Length == VRAM_ACTUAL_SIZE && dirty.Length == VRAM_PAGES
    requires fb != palette && fb != t.expand4 && fb != t.expand2 && Apart(fb, vram) && Apart(fb, dirty)
    requires f.Drawable(fb.Length) && y < |f.lines|
    requires f.mode == mode && f.planes == planes && f.width == width && f.bytes == bwidth
    requires addr == f.lines[y] && d == At(0, f.stride, y) && |was| == fb.Length
    requires fb[..] == DrawLines(was, f, palette[..], vram[..], dirty[..], full, y)
    modifies fb
    ensures fb[..] == DrawLines(was, f, palette[..], vram[..], dirty[..], full, y + 1)
  {
    LineInside(f, fb.Length, y);
    LinePages(addr, bwidth);
    var update := full;
    if !update {
      update := PagesDirty(dirty, addr / PAGE_SIZE, (addr + bwidth - 1) / PAGE_SIZE);
    }
    if update {
      DrawLine(mode, t, palette, planes, fb, d, vram, addr, width);
    }
  }

  /** The source address of a scan line, and the loop variables of the next. */
  method ScanAddress(v: Vga, beam: Beam, y: nat, ghost f: Frame) returns (addr: nat, next: Beam)
    requires Depth(v) != 32 && f == FrameOf(v) && y < |f.lines| && beam == BeamAt(v, y)
    ensures addr == f.lines[y] && next == BeamAt(v, y + 1)
  {
    addr := BeamAddr(v, beam);
    next := NextBeam(v, beam, y);
  }

  lemma WithBitAbove(a: nat, w: nat, on: bool)
    requires w == 0x4000 || w == 0x8000
    requires a >= VRAM_ACTUAL_SIZE
    ensures WithBit(a, w, on) >= VRAM_ACTUAL_SIZE
  {
  }

  /** A picture that is drawn does not start where the destination does. */
  lemma StartInside(v: Vga, cells: nat)
    requires Depth(v) != 32 && FrameOf(v).Drawable(cells) && Height(v) > 0
    ensures StartAddr(v) * 4 % WORD != VRAM_ACTUAL_SIZE
  {
    var f := FrameOf(v);
    var b := BeamAt(v, 0);
    assert f.lines[0] == BeamAddr(v, b);
    if b.addr1 >= VRAM_ACTUAL_SIZE {
      WithBitAbove(b.addr1, 0x8000, b.y1 % 2 == 1);
      WithBitAbove(b.addr1, 0x4000, b.y1 % 2 == 1);
      var a := if Bit(v.cr[0x17], 0) == 1 then b.addr1
               else if Bit(v.cr[0x17], 6) == 1 then WithBit(b.addr1, 0x8000, b.y1 % 2 == 1)
               else WithBit(b.addr1, 0x4000, b.y1 % 2 == 1);
      WithBitAbove(a, 0x8000, b.y1 / 2 % 2 == 1);
      assert false;
    }
  }

  /** The line loop of surface_draw_graphic, over the values it is set up with. */
  method DrawScans(v: Vga, t: Tables, palette: array<Pixel>, fb: array<Pixel>, vram: array<bv8>, dirty: array<bool>,
                   mode: LineMode, planes: bv8, width: nat, height: nat, bwidth: nat, first: Beam, step: nat,
                   full: bool, ghost f: Frame)
    requires Depth(v) != 32 && f == FrameOf(v) && f.Drawable(fb.Length)
    requires t.Valid() && palette.Length == 256 && vram.Length == VRAM_ACTUAL_SIZE && dirty.Length == VRAM_PAGES
    requires fb != palette && fb != t.expand4 && fb != t.expand2 && Apart(fb, vram) && Apart(fb, dirty)
    requires f.mode == mode && f.planes == planes && f.width == width && |f.lines| == height && f.bytes == bwidth
    requires first == BeamAt(v, 0) && step == f.stride
    modifies fb
    ensures fb[..] == DrawLines(old(fb[..]), f, palette[..], vram[..], dirty[..], full, height)
  {
    var beam, d := first, 0;
    ghost var (was, p, m, pages) := (fb[..], palette[..], vram[..], dirty[..]);
    for y := 0 to height
      invariant beam == BeamAt(v, y) && d == At(0, f.stride, y)
      invariant palette[..] == p && vram[..] == m && dirty[..] == pages
      invariant fb[..] == DrawLines(was, f, p, m, pages, full, y)
    {
      var addr, next := ScanAddress(v, beam, y, f);
      DrawScanLine(t, palette, fb, vram, dirty, mode, planes, width, bwidth, addr, d, full, f, y, was);
      beam := next;
      d := d + step;
    }
  }

  /** The drawing of surface_draw_graphic. Nothing is drawn when source and destination
      start at the same byte, which a drawable frame rules out. */
  method DrawFrame(v: Vga, t: Tables, palette: array<Pixel>, fb: array<Pixel>, vram: array<bv8>, dirty: array<bool>,
                   offset: nat, linesize: nat, full: bool, ghost f: Frame)
    requires Depth(v) != 32 && f == FrameOf(v) && f.Drawable(fb.Length)
    requires t.Valid() && palette.Length == 256 && vram.Length == VRAM_ACTUAL_SIZE && dirty.Length == VRAM_PAGES
    requires fb != palette && fb != t.expand4 && fb != t.expand2 && Apart(fb, vram) && Apart(fb, dirty)
    requires offset == VRAM_ACTUAL_SIZE && linesize == 4 * f.stride
    modifies fb
    ensures fb[..] == DrawLines(old(fb[..]), f, palette[..], vram[..], dirty[..], full, |f.lines|)
  {
    var (mode, planes, width, height, bwidth) := (Mode(v), Planes(v), Width(v), Height(v), LineBytes(v));
    var start := StartAddr(v) * 4 % WORD;
    if height > 0 {
      StartInside(v, fb.Length);
    }
    if offset != start {
      DrawScans(v, t, palette, fb, vram, dirty, mode, planes, width, height, bwidth, Beam(start, 0, MultiScan(v)),
                linesize / 4, full, f);
    }
  }
}
