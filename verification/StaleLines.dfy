/** Exactly when an incremental refresh of a graphic mode leaves another picture than a full one. */
module StaleLines {
  import opened VgaRegs
  import opened Grid
  import opened Pixels
  import opened Scanout
  import opened Graphic
  import opened Surface
  import opened SurfaceRuns

  /** An incremental refresh would leave another picture than a full one. */
  ghost predicate Wrong(w: World)
    requires w.Wf() && CanRefresh(w.sc)
  {
    RefreshSpec(w.sc, false, w.touched, true).fb != RefreshSpec(w.sc, true, w.touched, true).fb
  }

  /** What memory makes of column x of scan line y; black where its bytes would lie outside memory. */
  function Dot(f: Frame, palette: seq<Pixel>, vram: seq<bv8>, y: nat, x: nat): Pixel
    requires |palette| == 256 && y < |f.lines|
  {
    var a := At(f.lines[y], GroupBytes(f.mode), x / GroupPixels(f.mode));
    if a + GroupBytes(f.mode) <= |vram|
    then GroupPixel(f.mode, palette, f.planes, vram, a, x % GroupPixels(f.mode)) else 0
  }

  function Across(f: Frame): nat {
    PixelCount(f.mode, f.width)
  }

  lemma Split(n: nat, each: nat, x: nat)
    requires each == 1 || each == 8 || each == 16
    requires x < n * each
    ensures x / each < n && x == x / each * each + x % each
  {
  }

  lemma ShownDot(fb: seq<Pixel>, f: Frame, palette: seq<Pixel>, vram: seq<bv8>, y: nat, x: nat)
    requires |palette| == 256 && y < |f.lines| && x < Across(f) && LineShown(fb, f, palette, vram, y)
    ensures At(0, f.stride, y) + x < |fb| && fb[At(0, f.stride, y) + x] == Dot(f, palette, vram, y, x)
  {
    var (o, each) := (At(0, f.stride, y), GroupPixels(f.mode));
    var (g, k) := (x / each, x % each);
    Split(Groups(f.mode, f.width), each, x);
    AtProduct(o, each, g);
    var a := At(f.lines[y], GroupBytes(f.mode), g);
    assert GroupShows(fb, At(o, each, g), f.mode, palette, f.planes, vram, a);
    assert fb[At(o, each, g) + k] == GroupPixel(f.mode, palette, f.planes, vram, a, k);
  }

  /** The line at fb shows every dot. */
  ghost predicate DotsShown(fb: seq<Pixel>, f: Frame, palette: seq<Pixel>, vram: seq<bv8>, y: nat)
    requires f.Drawable(|fb|) && |palette| == 256 && y < |f.lines|
  {
    forall x {:trigger Dot(f, palette, vram, y, x)} | 0 <= x < Across(f) && At(0, f.stride, y) + x < |fb| ::
      fb[At(0, f.stride, y) + x] == Dot(f, palette, vram, y, x)
  }

  lemma ColumnOf(each: nat, g: nat, k: nat)
    requires each == 1 || each == 8 || each == 16
    requires k < each
    ensures (g * each + k) / each == g && (g * each + k) % each == k
  {
  }

  lemma GroupOfDots(fb: seq<Pixel>, f: Frame, palette: seq<Pixel>, vram: seq<bv8>, y: nat, g: nat)
    requires f.Drawable(|fb|) && |palette| == 256 && |vram| == VRAM_ACTUAL_SIZE && y < |f.lines|
    requires g < Groups(f.mode, f.width)
    requires DotsShown(fb, f, palette, vram, y)
    ensures GroupShows(fb, At(At(0, f.stride, y), GroupPixels(f.mode), g), f.mode, palette, f.planes, vram,
                       At(f.lines[y], GroupBytes(f.mode), g))
  {
    var (o, each) := (At(0, f.stride, y), GroupPixels(f.mode));
    var (d, a) := (At(o, each, g), At(f.lines[y], GroupBytes(f.mode), g));
    LineInside(f, |fb|, y);
    AtMono(o, each, g, Groups(f.mode, f.width));
    AtMono(f.lines[y], GroupBytes(f.mode), g, Groups(f.mode, f.width));
    AtProduct(o, each, g);
    AtProduct(o, each, Groups(f.mode, f.width));
    forall k {:trigger GroupPixel(f.mode, palette, f.planes, vram, a, k)} | 0 <= k < each
      ensures fb[d + k] == GroupPixel(f.mode, palette, f.planes, vram, a, k)
    {
      ColumnOf(each, g, k);
      assert fb[o + (g * each + k)] == Dot(f, palette, vram, y, g * each + k);
    }
  }

  lemma LineOfDots(fb: seq<Pixel>, f: Frame, palette: seq<Pixel>, vram: seq<bv8>, y: nat)
    requires f.Drawable(|fb|) && |palette| == 256 && |vram| == VRAM_ACTUAL_SIZE && y < |f.lines|
    requires DotsShown(fb, f, palette, vram, y)
    ensures LineShown(fb, f, palette, vram, y)
  {
    forall g {:trigger At(f.lines[y], GroupBytes(f.mode), g)} | 0 <= g < Groups(f.mode, f.width)
      ensures GroupShows(fb, At(At(0, f.stride, y), GroupPixels(f.mode), g), f.mode, palette, f.planes, vram,
                         At(f.lines[y], GroupBytes(f.mode), g))
    {
      GroupOfDots(fb, f, palette, vram, y, g);
    }
  }

  /** A line no dirty page touches is left as it was. */
  lemma {:induction false} CleanKept(fb: seq<Pixel>, f: Frame, palette: seq<Pixel>, vram: seq<bv8>, dirty: seq<bool>,
                                     n: nat, y: nat, i: nat)
    requires f.Drawable(|fb|) && |palette| == 256 && |vram| == VRAM_ACTUAL_SIZE && n <= |f.lines|
    requires y < |f.lines| && !LineDirty(f, dirty, y) && At(0, f.stride, y) <= i < At(0, f.stride, y + 1) && i < |fb|
    ensures DrawLines(fb, f, palette, vram, dirty, false, n)[i] == fb[i]
    decreases n
  {
    if n > 0 {
      CleanKept(fb, f, palette, vram, dirty, n - 1, y, i);
      if n - 1 != y {
        DrawOneShows(DrawLines(fb, f, palette, vram, dirty, false, n - 1), f, palette, vram, n - 1);
        AtMono(0, f.stride, y + 1, if n - 1 > y then n - 1 else y + 1);
        AtMono(0, f.stride, n, if n - 1 < y then y else n);
      }
    }
  }

  lemma DotInside(f: Frame, cells: nat, y: nat, x: nat)
    requires f.Drawable(cells) && y < |f.lines| && x < Across(f)
    ensures At(0, f.stride, y) + x < At(0, f.stride, y + 1) <= cells
  {
    LineInside(f, cells, y);
  }

  /** What a graphic refresh that need not redraw everything starts from. */
  ghost predicate Partial(w: World) {
    && w.Wf() && CanRefresh(w.sc) && GraphicMode(w.sc.vga) == GMODE_GRAPHIC == w.sc.s.gmode
    && !GraphicFull(w.sc, false)
  }

  lemma DrawnAs(w: World)
    requires Partial(w)
    ensures var (f, dirty) := (FrameOf(w.sc.vga), Synced(w.sc.dirty, w.touched, true));
      && RefreshSpec(w.sc, false, w.touched, true).fb
         == DrawLines(w.sc.fb, f, w.sc.palette, w.sc.vram, dirty, false, |f.lines|)
      && RefreshSpec(w.sc, true, w.touched, true).fb
         == DrawLines(w.sc.fb, f, w.sc.palette, w.sc.vram, dirty, true, |f.lines|)
  {
    assert w.sc.(s := w.sc.s.(gmode := GMODE_GRAPHIC)) == w.sc;
  }

  /** Column x of line y, which no dirty page touches. */
  ghost predicate CleanDot(cells: nat, f: Frame, dirty: seq<bool>, y: nat, x: nat) {
    y < |f.lines| && x < Across(f) && !LineDirty(f, dirty, y) && At(0, f.stride, y) + x < cells
  }

  /** A pixel of a line no dirty page touches that is not what memory makes of it. */
  ghost predicate WrongDot(fb: seq<Pixel>, f: Frame, palette: seq<Pixel>, vram: seq<bv8>, dirty: seq<bool>, y: nat,
                           x: nat)
    requires |palette| == 256
  {
    CleanDot(|fb|, f, dirty, y, x) && fb[At(0, f.stride, y) + x] != Dot(f, palette, vram, y, x)
  }

  lemma WrongDotStays(fb: seq<Pixel>, f: Frame, palette: seq<Pixel>, vram: seq<bv8>, dirty: seq<bool>, y: nat, x: nat)
    requires f.Drawable(|fb|) && |palette| == 256 && |vram| == VRAM_ACTUAL_SIZE
    requires WrongDot(fb, f, palette, vram, dirty, y, x)
    ensures DrawLines(fb, f, palette, vram, dirty, false, |f.lines|)
        != DrawLines(fb, f, palette, vram, dirty, true, |f.lines|)
  {
    var (i, d) := (At(0, f.stride, y) + x, DrawLines(fb, f, palette, vram, dirty, true, |f.lines|));
    DotInside(f, |fb|, y, x);
    CleanKept(fb, f, palette, vram, dirty, |f.lines|, y, i);
    FullShows(fb, f, palette, vram, dirty, |f.lines|);
    ShownDot(d, f, palette, vram, y, x);
    assert DrawLines(fb, f, palette, vram, dirty, false, |f.lines|)[i] != d[i];
  }

  lemma NoWrongDot(fb: seq<Pixel>, f: Frame, palette: seq<Pixel>, vram: seq<bv8>, dirty: seq<bool>)
    requires f.Drawable(|fb|) && |palette| == 256 && |vram| == VRAM_ACTUAL_SIZE
    requires forall y, x :: !WrongDot(fb, f, palette, vram, dirty, y, x)
    ensures DrawLines(fb, f, palette, vram, dirty, false, |f.lines|)
        == DrawLines(fb, f, palette, vram, dirty, true, |f.lines|)
  {
    forall y | 0 <= y < |f.lines| && !LineDirty(f, dirty, y)
      ensures LineShown(fb, f, palette, vram, y)
    {
      forall x {:trigger Dot(f, palette, vram, y, x)} | 0 <= x < Across(f) && At(0, f.stride, y) + x < |fb|
        ensures fb[At(0, f.stride, y) + x] == Dot(f, palette, vram, y, x)
      {
        assert !WrongDot(fb, f, palette, vram, dirty, y, x);
      }
      LineOfDots(fb, f, palette, vram, y);
    }
    IncrementalIsFull(fb, f, palette, vram, dirty, |f.lines|);
  }

  // ------------------------------------------------------------------
  // When each line was drawn

  /** The registers and the memory a line was last drawn from. */
  datatype Drawn = Drawn(vga: Vga, vram: seq<bv8>)

  /** History: a graphic refresh draws every line if a full redraw is due, and those on dirty pages
      otherwise. */
  function NextLines(w: World, lines: seq<Drawn>, e: Event): seq<Drawn>
    requires StepOk(w, e)
  {
    if !e.Refresh? || GraphicMode(w.sc.vga) != GMODE_GRAPHIC then lines
    else LinesDrawn(lines, Drawn(w.sc.vga, w.sc.vram), Synced(w.sc.dirty, w.touched, e.ok), FullDue(w.sc, e.full))
  }

  function LinesDrawn(lines: seq<Drawn>, now: Drawn, dirty: seq<bool>, full: bool): (next: seq<Drawn>)
    requires Depth(now.vga) != 32
    ensures |next| == |FrameOf(now.vga).lines|
  {
    var f := FrameOf(now.vga);
    seq(|f.lines|, y requires 0 <= y < |f.lines| =>
          if full || y >= |lines| || LineDirty(f, dirty, y) then now else lines[y])
  }

  function LinesAfter(w: World, lines: seq<Drawn>, es: seq<Event>): seq<Drawn>
    requires w.Wf() && RunOk(w, es)
    decreases |es|
  {
    if es == [] then lines else LinesAfter(Step(w, es[0]), NextLines(w, lines, es[0]), es[1..])
  }

  /** Line y of the screen shows what it was drawn from, through the fields remembered since. */
  ghost predicate ShowsDrawn(fb: seq<Pixel>, palette: seq<Pixel>, s: Surf, d: Drawn, y: nat) {
    && Depth(d.vga) != 32 && Recorded(s, d.vga) && y < |FrameOf(d.vga).lines|
    && LineShown(fb, FrameOf(d.vga), palette, d.vram, y)
  }

  ghost predicate LinesInv(w: World, lines: seq<Drawn>) {
    w.sc.s.gmode == GMODE_GRAPHIC ==> AllShowDrawn(w.sc.fb, w.sc.palette, w.sc.s, lines)
  }

  lemma LineShowsSame(was: seq<Pixel>, fb: seq<Pixel>, o: nat, m: LineMode, palette: seq<Pixel>, planes: bv8,
                      vram: seq<bv8>, a: nat, n: nat)
    requires |fb| == |was| && LineShows(was, o, m, palette, planes, vram, a, n)
    requires forall i | o <= i < At(o, GroupPixels(m), n) && i < |fb| :: fb[i] == was[i]
    ensures LineShows(fb, o, m, palette, planes, vram, a, n)
  {
    forall g {:trigger At(a, GroupBytes(m), g)} | 0 <= g < n
      ensures GroupShows(fb, At(o, GroupPixels(m), g), m, palette, planes, vram, At(a, GroupBytes(m), g))
    {
      AtMono(o, GroupPixels(m), g, n);
      assert GroupShows(was, At(o, GroupPixels(m), g), m, palette, planes, vram, At(a, GroupBytes(m), g));
    }
  }

  /** A line no dirty page touches still shows what it was drawn from. */
  lemma CleanStillShows(fb: seq<Pixel>, was: Frame, f: Frame, palette: seq<Pixel>, before: seq<bv8>, vram: seq<bv8>,
                        dirty: seq<bool>, y: nat)
    requires f.Drawable(|fb|) && |palette| == 256 && |vram| == VRAM_ACTUAL_SIZE && y < |f.lines| && y < |was.lines|
    requires was.stride == f.stride && Across(was) <= was.stride
    requires LineShown(fb, was, palette, before, y) && !LineDirty(f, dirty, y)
    ensures LineShown(DrawLines(fb, f, palette, vram, dirty, false, |f.lines|), was, palette, before, y)
  {
    var (o, d) := (At(0, f.stride, y), DrawLines(fb, f, palette, vram, dirty, false, |f.lines|));
    AtProduct(o, GroupPixels(was.mode), Groups(was.mode, was.width));
    forall i | o <= i < At(o, GroupPixels(was.mode), Groups(was.mode, was.width)) && i < |d|
      ensures d[i] == fb[i]
    {
      CleanKept(fb, f, palette, vram, dirty, |f.lines|, y, i);
    }
    LineShowsSame(fb, d, o, was.mode, palette, was.planes, before, was.lines[y], Groups(was.mode, was.width));
  }

  lemma SameStride(s: Surf, v: Vga, w: Vga)
    requires Depth(v) != 32 && Depth(w) != 32 && Recorded(s, v) && Recorded(s, w)
    ensures FrameOf(v).stride == FrameOf(w).stride && |FrameOf(v).lines| == |FrameOf(w).lines| == s.scrHeight
    ensures Across(FrameOf(v)) <= FrameOf(v).stride
  {
    FrameFits(v);
  }

  /** One line after a partial redraw. */
  lemma PartialLine(fb: seq<Pixel>, palette: seq<Pixel>, s: Surf, d: Drawn, now: Drawn, dirty: seq<bool>, y: nat)
    requires Depth(now.vga) != 32 && Recorded(s, now.vga) && |palette| == 256 && |now.vram| == VRAM_ACTUAL_SIZE
    requires FrameOf(now.vga).Drawable(|fb|) && ShowsDrawn(fb, palette, s, d, y)
    ensures y < |FrameOf(now.vga).lines|
    ensures var f := FrameOf(now.vga);
      ShowsDrawn(DrawLines(fb, f, palette, now.vram, dirty, false, |f.lines|), palette, s,
                 if LineDirty(f, dirty, y) then now else d, y)
  {
    var (f, was) := (FrameOf(now.vga), FrameOf(d.vga));
    SameStride(s, d.vga, now.vga);
    if LineDirty(f, dirty, y) {
      DrawnShows(fb, f, palette, now.vram, dirty, false, |f.lines|, y);
    } else {
      CleanStillShows(fb, was, f, palette, d.vram, now.vram, dirty, y);
    }
  }

  /** A partial redraw leaves what is remembered and the palette alone. */
  lemma PartialSpec(sc: Scene, reported: seq<bool>, ok: bool)
    requires sc.Wf() && Depth(sc.vga) != 32 && FrameOf(sc.vga).Drawable(|sc.fb|) && |reported| == VRAM_PAGES
    requires !GraphicFull(sc, false)
    ensures Recorded(sc.s, sc.vga)
    ensures var (d, f) := (GraphicSpec(sc, false, reported, ok), FrameOf(sc.vga));
      && d.s == sc.s && d.palette == sc.palette
      && d.fb == DrawLines(sc.fb, f, sc.palette, sc.vram, Synced(sc.dirty, reported, ok), false, |f.lines|)
  {
  }

  ghost predicate AllShowDrawn(fb: seq<Pixel>, palette: seq<Pixel>, s: Surf, lines: seq<Drawn>) {
    |lines| == s.scrHeight && forall y | 0 <= y < |lines| :: ShowsDrawn(fb, palette, s, lines[y], y)
  }

  lemma PartialLines(sc: Scene, lines: seq<Drawn>, reported: seq<bool>, ok: bool)
    requires sc.Wf() && Depth(sc.vga) != 32 && FrameOf(sc.vga).Drawable(|sc.fb|) && |reported| == VRAM_PAGES
    requires !GraphicFull(sc, false) && AllShowDrawn(sc.fb, sc.palette, sc.s, lines)
    ensures var d := GraphicSpec(sc, false, reported, ok);
      AllShowDrawn(d.fb, d.palette, d.s,
                   LinesDrawn(lines, Drawn(sc.vga, sc.vram), Synced(sc.dirty, reported, ok), false))
  {
    PartialSpec(sc, reported, ok);
    EachPartial(sc.fb, sc.palette, sc.s, lines, Drawn(sc.vga, sc.vram), Synced(sc.dirty, reported, ok));
  }

  lemma EachPartial(fb: seq<Pixel>, palette: seq<Pixel>, s: Surf, lines: seq<Drawn>, now: Drawn, dirty: seq<bool>)
    requires Depth(now.vga) != 32 && Recorded(s, now.vga) && |palette| == 256 && |now.vram| == VRAM_ACTUAL_SIZE
    requires FrameOf(now.vga).Drawable(|fb|) && AllShowDrawn(fb, palette, s, lines)
    ensures var f := FrameOf(now.vga);
      AllShowDrawn(DrawLines(fb, f, palette, now.vram, dirty, false, |f.lines|), palette, s,
                   LinesDrawn(lines, now, dirty, false))
  {
    var next := LinesDrawn(lines, now, dirty, false);
    SameStride(s, now.vga, now.vga);
    forall y | 0 <= y < |next|
      ensures ShowsDrawn(DrawLines(fb, FrameOf(now.vga), palette, now.vram, dirty, false, |FrameOf(now.vga).lines|),
                         palette, s, next[y], y)
    {
      PartialLine(fb, palette, s, lines[y], now, dirty, y);
    }
  }

  lemma FullLines(sc: Scene, lines: seq<Drawn>, reported: seq<bool>, ok: bool)
    requires sc.Wf() && Depth(sc.vga) != 32 && FrameOf(sc.vga).Drawable(|sc.fb|) && |reported| == VRAM_PAGES
    ensures var d := GraphicSpec(sc, true, reported, ok);
      AllShowDrawn(d.fb, d.palette, d.s,
                   LinesDrawn(lines, Drawn(sc.vga, sc.vram), Synced(sc.dirty, reported, ok), true))
  {
    GraphicRecords(sc.s, sc.vga);
    FullCurrent(sc, reported, ok);
    SameStride(GraphicSurf(sc.s, sc.vga), sc.vga, sc.vga);
  }

  lemma RefreshLines(sc: Scene, now: bool, lines: seq<Drawn>, reported: seq<bool>, ok: bool)
    requires sc.Wf() && Depth(sc.vga) != 32 && FrameOf(sc.vga).Drawable(|sc.fb|) && |reported| == VRAM_PAGES
    requires GraphicFull(sc, now) || AllShowDrawn(sc.fb, sc.palette, sc.s, lines)
    ensures var d := GraphicSpec(sc, now, reported, ok);
      AllShowDrawn(d.fb, d.palette, d.s,
                   LinesDrawn(lines, Drawn(sc.vga, sc.vram), Synced(sc.dirty, reported, ok), GraphicFull(sc, now)))
  {
    if GraphicFull(sc, now) {
      FullLines(sc, lines, reported, ok);
    } else {
      PartialLines(sc, lines, reported, ok);
    }
  }

  lemma StepLines(w: World, lines: seq<Drawn>, e: Event)
    requires StepOk(w, e) && LinesInv(w, lines)
    ensures LinesInv(Step(w, e), NextLines(w, lines, e))
  {
    if e.Refresh? && GraphicMode(w.sc.vga) == GMODE_GRAPHIC {
      var next := w.sc.(s := w.sc.s.(gmode := GMODE_GRAPHIC));
      var now := e.full || GMODE_GRAPHIC != w.sc.s.gmode;
      if !now {
        assert next == w.sc;
      }
      RefreshLines(next, now, lines, w.touched, e.ok);
    }
  }

  lemma {:induction false} RunLines(w: World, lines: seq<Drawn>, es: seq<Event>)
    requires w.Wf() && RunOk(w, es) && LinesInv(w, lines)
    ensures LinesInv(Run(w, es), LinesAfter(w, lines, es))
    decreases |es|
  {
    if es != [] {
      StepLines(w, lines, es[0]);
      RunLines(Step(w, es[0]), NextLines(w, lines, es[0]), es[1..]);
    }
  }

  // ------------------------------------------------------------------
  // The exact condition

  /** What column x of line y shows: what the line was drawn from, or, beyond the width painted then,
      what the destination held before. */
  function Showing(fb: seq<Pixel>, was: Frame, palette: seq<Pixel>, before: seq<bv8>, y: nat, x: nat): Pixel
    requires |palette| == 256 && y < |was.lines| && At(0, was.stride, y) + x < |fb|
  {
    if x < Across(was) then Dot(was, palette, before, y, x) else fb[At(0, was.stride, y) + x]
  }

  /** A pixel of a line no dirty page touches that what the line was drawn from makes otherwise than
      present registers and memory. */
  ghost predicate StaleDot(fb: seq<Pixel>, was: Frame, f: Frame, palette: seq<Pixel>, before: seq<bv8>, vram: seq<bv8>,
                           dirty: seq<bool>, y: nat, x: nat)
    requires |palette| == 256
  {
    && CleanDot(|fb|, f, dirty, y, x) && y < |was.lines| && was.stride == f.stride
    && Showing(fb, was, palette, before, y, x) != Dot(f, palette, vram, y, x)
  }

  lemma StaleIff(fb: seq<Pixel>, was: Frame, f: Frame, palette: seq<Pixel>, before: seq<bv8>, vram: seq<bv8>,
                 dirty: seq<bool>, y: nat, x: nat)
    requires f.Drawable(|fb|) && |palette| == 256 && was.stride == f.stride && |was.lines| == |f.lines|
    requires y < |was.lines| && LineShown(fb, was, palette, before, y)
    ensures StaleDot(fb, was, f, palette, before, vram, dirty, y, x) <==> WrongDot(fb, f, palette, vram, dirty, y, x)
  {
    if CleanDot(|fb|, f, dirty, y, x) {
      ShowingIs(fb, was, palette, before, y, x);
    }
  }

  lemma ShowingIs(fb: seq<Pixel>, was: Frame, palette: seq<Pixel>, before: seq<bv8>, y: nat, x: nat)
    requires |palette| == 256 && y < |was.lines| && LineShown(fb, was, palette, before, y)
    requires At(0, was.stride, y) + x < |fb|
    ensures Showing(fb, was, palette, before, y, x) == fb[At(0, was.stride, y) + x]
  {
    if x < Across(was) {
      ShownDot(fb, was, palette, before, y, x);
    }
  }

  /** Column x of line y is stale. */
  ghost predicate Stale(w: World, d: Drawn, y: nat, x: nat)
    requires w.Wf() && Depth(w.sc.vga) != 32
  {
    && Depth(d.vga) != 32
    && StaleDot(w.sc.fb, FrameOf(d.vga), FrameOf(w.sc.vga), w.sc.palette, d.vram, w.sc.vram,
                Synced(w.sc.dirty, w.touched, true), y, x)
  }

  lemma StaleHere(w: World, d: Drawn, y: nat, x: nat)
    requires Partial(w) && ShowsDrawn(w.sc.fb, w.sc.palette, w.sc.s, d, y)
    ensures Stale(w, d, y, x) <==>
            WrongDot(w.sc.fb, FrameOf(w.sc.vga), w.sc.palette, w.sc.vram, Synced(w.sc.dirty, w.touched, true), y, x)
  {
    SameStride(w.sc.s, d.vga, w.sc.vga);
    StaleIff(w.sc.fb, FrameOf(d.vga), FrameOf(w.sc.vga), w.sc.palette, d.vram, w.sc.vram,
             Synced(w.sc.dirty, w.touched, true), y, x);
  }

  lemma StaleIsWrong(w: World, d: Drawn, y: nat, x: nat)
    requires Partial(w) && ShowsDrawn(w.sc.fb, w.sc.palette, w.sc.s, d, y) && Stale(w, d, y, x)
    ensures Wrong(w)
  {
    DrawnAs(w);
    StaleHere(w, d, y, x);
    WrongDotStays(w.sc.fb, FrameOf(w.sc.vga), w.sc.palette, w.sc.vram, Synced(w.sc.dirty, w.touched, true), y, x);
  }

  lemma NoneStale(w: World, lines: seq<Drawn>, y: nat, x: nat)
    requires Partial(w) && AllShowDrawn(w.sc.fb, w.sc.palette, w.sc.s, lines)
    requires y < |lines| ==> !Stale(w, lines[y], y, x)
    ensures !WrongDot(w.sc.fb, FrameOf(w.sc.vga), w.sc.palette, w.sc.vram, Synced(w.sc.dirty, w.touched, true), y, x)
  {
    SameStride(w.sc.s, w.sc.vga, w.sc.vga);
    if y < |lines| {
      StaleHere(w, lines[y], y, x);
    }
  }

  lemma FreshIsRight(w: World, lines: seq<Drawn>)
    requires Partial(w) && AllShowDrawn(w.sc.fb, w.sc.palette, w.sc.s, lines)
    requires forall y, x | 0 <= y < |lines| :: !Stale(w, lines[y], y, x)
    ensures !Wrong(w)
  {
    DrawnAs(w);
    forall y: nat, x: nat
      ensures !WrongDot(w.sc.fb, FrameOf(w.sc.vga), w.sc.palette, w.sc.vram, Synced(w.sc.dirty, w.touched, true), y, x)
    {
      assert y < |lines| ==> !Stale(w, lines[y], y, x);
      NoneStale(w, lines, y, x);
    }
    NoWrongDot(w.sc.fb, FrameOf(w.sc.vga), w.sc.palette, w.sc.vram, Synced(w.sc.dirty, w.touched, true));
  }

  lemma NotFullDue(w: World)
    requires w.Wf() && CanRefresh(w.sc) && GraphicMode(w.sc.vga) == GMODE_GRAPHIC && !FullDue(w.sc, false)
    ensures Partial(w)
  {
  }

  lemma StaleExactly(w: World, lines: seq<Drawn>)
    requires Partial(w) && LinesInv(w, lines)
    ensures Wrong(w) <==> exists y, x | 0 <= y < |lines| :: Stale(w, lines[y], y, x)
  {
    if y, x :| 0 <= y < |lines| && Stale(w, lines[y], y, x) {
      StaleIsWrong(w, lines[y], y, x);
    } else {
      FreshIsRight(w, lines);
    }
  }

  /** After any run from start-up a graphic refresh for which no full redraw is due goes wrong exactly if
      some pixel of a line no dirty page touches differs between what the line was last drawn from and
      present registers and memory. */
  lemma LinesExactly(start: World, vga: Vga, vram: seq<bv8>, fb: seq<Pixel>, touched: seq<bool>, es: seq<Event>,
                     w: World, lines: seq<Drawn>)
    requires |vram| == VRAM_ACTUAL_SIZE && |touched| == VRAM_PAGES && start == Initial(vga, vram, fb, touched)
    requires RunOk(start, es) && w == Run(start, es) && lines == LinesAfter(start, [], es)
    requires CanRefresh(w.sc) && GraphicMode(w.sc.vga) == GMODE_GRAPHIC && !FullDue(w.sc, false)
    ensures Wrong(w) <==> exists y, x | 0 <= y < |lines| :: Stale(w, lines[y], y, x)
  {
    RunLines(start, [], es);
    NotFullDue(w);
    StaleExactly(w, lines);
  }
}
