/** Incremental redrawing over any run of guest writes, emulated writes, register changes
    and refreshes. */
module SurfaceRuns {
  import opened VgaRegs
  import opened Grid
  import opened Pixels
  import opened Glyphs
  import opened Scanout
  import opened Graphic
  import opened Text
  import opened Surface

  /** What the last refresh that drew was made from: its mode, its registers and the memory it read.
      `exact`: since the last full redraw no refresh went by a change it has no trace of. */
  datatype Picture = Picture(mode: int, vga: Vga, vram: seq<bv8>, exact: bool)

  /** `touched`: pages the hypervisor has seen the guest write since it last reported. `last` and
      `cleared`, the bytes the adapter itself has cleared since, are history. */
  datatype World = World(sc: Scene, touched: seq<bool>, last: Picture, cleared: nat) {
    predicate Wf() {
      sc.Wf() && |touched| == VRAM_PAGES && |last.vram| == VRAM_ACTUAL_SIZE
    }
  }

  datatype Event =
    | Poke(a: nat, b: bv8)              // the guest writes through the linear frame buffer
    | Store(a: nat, b: bv8, planes: bv8) // an emulated write: marks its page and planes
    | Clear(n: nat)                     // turning a VBE mode on clears memory and marks nothing
    | Configure(v: Vga)                 // register writes
    | Refresh(full: bool, ok: bool)     // surface_refresh; `ok`: the dirty query succeeds

  ghost predicate StepOk(w: World, e: Event) {
    && w.Wf()
    && match e
       case Poke(a, _) => a < VRAM_ACTUAL_SIZE
       case Store(a, _, _) => a < VRAM_ACTUAL_SIZE
       case Clear(n) => n <= VRAM_ACTUAL_SIZE
       case Configure(_) => true
       case Refresh(_, _) => CanRefresh(w.sc)
  }

  // ------------------------------------------------------------------
  // What a refresh has a trace of

  /** The registers a graphic refresh consults without remembering them. */
  predicate UntrackedSame(v: Vga, w: Vga) {
    && v.cr[0x17] == w.cr[0x17]
    && RowScans(v) == RowScans(w)
    && Planes(v) == Planes(w)
    && (Doubled(v) <==> Doubled(w))
  }

  predicate PageMarked(w: World, a: nat)
    requires w.Wf() && a < VRAM_ACTUAL_SIZE
  {
    w.sc.dirty[PageOf(a)] || w.touched[PageOf(a)]
  }

  /** What a byte cleared by the adapter needs to be redrawn: it was zero, or its page is marked. */
  predicate ClearTraced(w: World)
    requires w.Wf()
  {
    forall i | 0 <= i < w.cleared && i < VRAM_ACTUAL_SIZE && w.sc.vram[i] != w.last.vram[i] :: PageMarked(w, i)
  }

  /** Fonts live in plane 2. */
  predicate SameFonts(vram: seq<bv8>, was: seq<bv8>) {
    |vram| == |was| && forall i | 0 <= i < |vram| && i % 4 == 2 :: vram[i] == was[i]
  }

  predicate Dup9(v: Vga) {
    Bit(v.ar[0x10], 2) == 1
  }

  /** The registers a text refresh must find as the last one that drew did: the ninth column's rule,
      which it never remembers, and those it may have remembered in a refresh that gave up. */
  predicate TextUntrackedSame(v: Vga, w: Vga) {
    && (Dup9(v) <==> Dup9(w))
    && FontOffset0(v) == FontOffset0(w) && FontOffset1(v) == FontOffset1(w)
    && LineOffset(v) == LineOffset(w) && StartAddr(v) == StartAddr(w)
  }

  /** A refresh that is not full has a trace of everything that changed since the last that drew. */
  predicate Traced(w: World)
    requires w.Wf()
  {
    var mode := GraphicMode(w.sc.vga);
    && w.last.mode == mode
    && (mode == GMODE_GRAPHIC ==> UntrackedSame(w.last.vga, w.sc.vga) && ClearTraced(w))
    && (mode == GMODE_TEXT ==> TextUntrackedSame(w.last.vga, w.sc.vga) && SameFonts(w.sc.vram, w.last.vram))
  }

  /** The refresh redraws everything. */
  predicate FullDue(sc: Scene, full: bool)
    requires sc.Wf() && (GraphicMode(sc.vga) == GMODE_GRAPHIC ==> Depth(sc.vga) != 32)
  {
    var mode := GraphicMode(sc.vga);
    || full || mode != sc.s.gmode
    || (mode == GMODE_GRAPHIC && GraphicFull(sc, false)) || (mode == GMODE_TEXT && TextFull(sc, false))
  }

  /** The picture after a refresh; a text refresh that gives up draws nothing. */
  function Pictured(w: World, full: bool): (p: Picture)
    requires w.Wf() && (GraphicMode(w.sc.vga) == GMODE_GRAPHIC ==> Depth(w.sc.vga) != 32)
    ensures |p.vram| == VRAM_ACTUAL_SIZE
  {
    if GraphicMode(w.sc.vga) == GMODE_TEXT && TooBig(w.sc.vga) then w.last
    else Picture(GraphicMode(w.sc.vga), w.sc.vga, w.sc.vram, FullDue(w.sc, full) || (w.last.exact && Traced(w)))
  }

  function Zeroed(vram: seq<bv8>, n: nat): (z: seq<bv8>)
    ensures |z| == |vram|
  {
    seq(|vram|, i requires 0 <= i < |vram| => if i < n then 0 else vram[i])
  }

  function Step(w: World, e: Event): (x: World)
    requires StepOk(w, e)
    ensures x.Wf() && |x.sc.fb| == |w.sc.fb|
  {
    match e
    case Poke(a, b) => w.(sc := w.sc.(vram := w.sc.vram[a := b]), touched := w.touched[PageOf(a) := true])
    case Store(a, b, planes) =>
      w.(sc := w.sc.(vram := w.sc.vram[a := b], dirty := w.sc.dirty[PageOf(a) := true],
                     vga := w.sc.vga.(planeUpdated := w.sc.vga.planeUpdated | planes)))
    case Clear(n) => w.(sc := w.sc.(vram := Zeroed(w.sc.vram, n)), cleared := if n > w.cleared then n else w.cleared)
    case Configure(v) => w.(sc := w.sc.(vga := v.(planeUpdated := w.sc.vga.planeUpdated)))
    case Refresh(full, ok) =>
      World(RefreshSpec(w.sc, full, w.touched, ok),
            if GraphicMode(w.sc.vga) == GMODE_GRAPHIC && ok then seq(VRAM_PAGES, p => false) else w.touched,
            Pictured(w, full),
            if GraphicMode(w.sc.vga) == GMODE_GRAPHIC then 0 else w.cleared)
  }

  ghost predicate RunOk(w: World, es: seq<Event>)
    decreases |es|
  {
    es == [] || (StepOk(w, es[0]) && RunOk(Step(w, es[0]), es[1..]))
  }

  function Run(w: World, es: seq<Event>): (x: World)
    requires RunOk(w, es) && w.Wf()
    ensures x.Wf()
    decreases |es|
  {
    if es == [] then w else Run(Step(w, es[0]), es[1..])
  }

  /** surface_t is static storage, then graphic_mode is set to -1. */
  function Initial(vga: Vga, vram: seq<bv8>, fb: seq<Pixel>, touched: seq<bool>): (w: World)
    requires |vram| == VRAM_ACTUAL_SIZE && |touched| == VRAM_PAGES
    ensures w.Wf()
  {
    World(Scene(Surf(-1, 0, 0, 0, 0, 0, 0, 0, 0, 0, 0, 0, 0, 0, 0, 0, 0, 0, 0),
                seq(256, i => 0), seq(CH_ATTR_SIZE, i => 0), vga, vram, fb, seq(VRAM_PAGES, p => false)),
          touched, Picture(-1, vga, vram, false), 0)
  }

  // ------------------------------------------------------------------
  // Graphic modes

  /** The remembered fields are those a refresh with v would leave. */
  predicate Recorded(s: Surf, v: Vga) {
    !BasicChanged(s, v) && !ShiftChanged(s, v) && !GeometryChanged(s, v)
  }

  /** What changed since the last refresh was marked, or cleared by the adapter. */
  ghost predicate ChangesKnown(was: seq<bv8>, vram: seq<bv8>, dirty: seq<bool>, cleared: nat) {
    && |was| == |vram| == VRAM_ACTUAL_SIZE && |dirty| == VRAM_PAGES
    && forall i | 0 <= i < |vram| && vram[i] != was[i] :: i < cleared || dirty[PageOf(i)]
  }

  /** fb shows, line by line, what v0 makes of `was`. */
  ghost predicate AllLinesShown(fb: seq<Pixel>, v0: Vga, palette: seq<Pixel>, was: seq<bv8>)
    requires Depth(v0) != 32
  {
    forall y | 0 <= y < |FrameOf(v0).lines| :: LineShown(fb, FrameOf(v0), palette, was, y)
  }

  /** The screen shows the last picture, and what is remembered is what it was drawn from. */
  ghost predicate Shown(w: World)
    requires w.Wf()
  {
    && Depth(w.last.vga) != 32 && Recorded(w.sc.s, w.last.vga)
    && AllLinesShown(w.sc.fb, w.last.vga, w.sc.palette, w.last.vram)
    && ChangesKnown(w.last.vram, w.sc.vram, Synced(w.sc.dirty, w.touched, true), w.cleared)
  }

  ghost predicate GraphicInv(w: World)
    requires w.Wf()
  {
    w.sc.s.gmode == GMODE_GRAPHIC ==> w.last.mode == GMODE_GRAPHIC && (w.last.exact ==> Shown(w))
  }

  lemma SameAddr(v: Vga, w: Vga, b: Beam)
    requires v.cr[0x17] == w.cr[0x17]
    ensures BeamAddr(v, b) == BeamAddr(w, b) && (Advances(v, b.y1) <==> Advances(w, b.y1))
  {
  }

  lemma {:induction false} SameBeams(v: Vga, w: Vga, y: nat)
    requires v.cr[0x17] == w.cr[0x17]
    requires LineOffset(v) == LineOffset(w) && StartAddr(v) == StartAddr(w) && LineCompare(v) == LineCompare(w)
    requires MultiScan(v) == MultiScan(w)
    ensures BeamAt(v, y) == BeamAt(w, y) && LineAddr(v, y) == LineAddr(w, y)
    decreases y
  {
    if y > 0 {
      SameBeams(v, w, y - 1);
      SameAddr(v, w, BeamAt(v, y - 1));
    }
    SameAddr(v, w, BeamAt(v, y));
  }

  /** What is remembered and the untracked registers together determine the frame. */
  lemma SameFrame(s: Surf, v: Vga, w: Vga)
    requires Depth(v) != 32 && Depth(w) != 32
    requires Recorded(s, v) && Recorded(s, w) && UntrackedSame(v, w)
    ensures FrameOf(v) == FrameOf(w)
  {
    forall y | 0 <= y < Height(v)
      ensures LineAddr(v, y) == LineAddr(w, y)
    {
      SameBeams(v, w, y);
    }
    assert FrameOf(v).lines == FrameOf(w).lines;
  }

  lemma UsedColours(p: seq<Pixel>, v: Vga)
    requires |p| == 256 && Depth(v) != 32
    ensures SameColours(Mode(v), GraphicPalette(p, v), ModePalette(v))
  {
  }

  lemma AllMarked(w: World)
    requires w.Wf() && Shown(w) && ClearTraced(w)
    ensures ChangesMarked(w.last.vram, w.sc.vram, Synced(w.sc.dirty, w.touched, true))
  {
    var dirty := Synced(w.sc.dirty, w.touched, true);
    forall i | 0 <= i < VRAM_ACTUAL_SIZE && w.sc.vram[i] != w.last.vram[i]
      ensures dirty[PageOf(i)]
    {
      assert i < w.cleared ==> PageMarked(w, i);
    }
  }

  /** A traced refresh has every line no dirty page touches on the screen already. */
  lemma CleanLines(w: World, ok: bool)
    requires w.Wf() && Shown(w) && UntrackedSame(w.last.vga, w.sc.vga) && ClearTraced(w)
    requires Depth(w.sc.vga) != 32 && FrameOf(w.sc.vga).Drawable(|w.sc.fb|) && !GraphicFull(w.sc, false)
    ensures CleanLinesShown(w.sc.fb, FrameOf(w.sc.vga), w.sc.palette, w.sc.vram, Synced(w.sc.dirty, w.touched, ok))
  {
    SameFrame(w.sc.s, w.sc.vga, w.last.vga);
    AllMarked(w);
    StillMarked(w.last.vram, w.sc.vram, Synced(w.sc.dirty, w.touched, true), Synced(w.sc.dirty, w.touched, ok));
    AllCleanShown(w.sc.fb, FrameOf(w.sc.vga), w.sc.palette, w.last.vram, w.sc.vram, Synced(w.sc.dirty, w.touched, ok));
  }

  /** What a full redraw leaves is what the registers and memory say. */
  lemma FullCurrent(sc: Scene, reported: seq<bool>, ok: bool)
    requires sc.Wf() && Depth(sc.vga) != 32 && FrameOf(sc.vga).Drawable(|sc.fb|) && |reported| == VRAM_PAGES
    ensures var (d, f) := (GraphicSpec(sc, true, reported, ok), FrameOf(sc.vga));
      && (forall y | 0 <= y < |f.lines| :: LineShown(d.fb, f, d.palette, sc.vram, y))
      && PictureCurrent(d.fb, sc.vga, sc.vram)
  {
    var f := FrameOf(sc.vga);
    var d := GraphicSpec(sc, true, reported, ok);
    FullShows(sc.fb, f, d.palette, sc.vram, Synced(sc.dirty, reported, ok), |f.lines|);
    UsedColours(sc.palette, sc.vga);
    forall y | 0 <= y < |f.lines|
      ensures LineShown(d.fb, f, ModePalette(sc.vga), sc.vram, y)
    {
      LineColours(d.fb, f, d.palette, ModePalette(sc.vga), sc.vram, y);
    }
  }

  lemma AsFull(w: World, now: bool, ok: bool)
    requires w.Wf() && Depth(w.sc.vga) != 32 && FrameOf(w.sc.vga).Drawable(|w.sc.fb|)
    requires GraphicFull(w.sc, now) || (Shown(w) && UntrackedSame(w.last.vga, w.sc.vga) && ClearTraced(w))
    ensures GraphicSpec(w.sc, now, w.touched, ok).fb == GraphicSpec(w.sc, true, w.touched, ok).fb
  {
    if !GraphicFull(w.sc, now) {
      CleanLines(w, ok);
      var f := FrameOf(w.sc.vga);
      IncrementalIsFull(w.sc.fb, f, w.sc.palette, w.sc.vram, Synced(w.sc.dirty, w.touched, ok), |f.lines|);
    }
  }

  lemma GraphicRecords(s: Surf, v: Vga)
    ensures Recorded(GraphicSurf(s, v), v)
  {
  }

  /** A refresh leaves nothing unmarked. */
  lemma SpecShown(sc: Scene, now: bool, reported: seq<bool>, ok: bool, x: World)
    requires sc.Wf() && Depth(sc.vga) != 32 && FrameOf(sc.vga).Drawable(|sc.fb|) && |reported| == VRAM_PAGES
    requires x.Wf() && x.sc == GraphicSpec(sc, now, reported, ok) && x.last.vga == sc.vga && x.last.vram == sc.vram
    requires x.sc.fb == GraphicSpec(sc, true, reported, ok).fb
    ensures Shown(x) && PictureCurrent(x.sc.fb, x.sc.vga, x.sc.vram)
  {
    GraphicRecords(sc.s, sc.vga);
    FullCurrent(sc, reported, ok);
  }

  /** A graphic refresh that redraws everything, or has a trace of all that changed since an exact
      picture, leaves what redrawing every line would, and that is current memory through current
      registers. */
  lemma GraphicCurrent(w: World, full: bool, ok: bool)
    requires w.Wf() && CanRefresh(w.sc) && GraphicMode(w.sc.vga) == GMODE_GRAPHIC
    requires GraphicInv(w)
    requires FullDue(w.sc, full) || (w.last.exact && Traced(w))
    ensures var d := RefreshSpec(w.sc, full, w.touched, ok);
      d.fb == RefreshSpec(w.sc, true, w.touched, ok).fb && PictureCurrent(d.fb, d.vga, d.vram)
    ensures Shown(Step(w, Refresh(full, ok)))
  {
    var now := full || GMODE_GRAPHIC != w.sc.s.gmode;
    var next := w.sc.(s := w.sc.s.(gmode := GMODE_GRAPHIC));
    if !now {
      assert next == w.sc;
    }
    AsFull(w.(sc := next), now, ok);
    SpecShown(next, now, w.touched, ok, Step(w, Refresh(full, ok)));
  }

  // ------------------------------------------------------------------
  // Every event keeps the picture

  lemma ChangeKnown(was: seq<bv8>, vram: seq<bv8>, dirty: seq<bool>, cleared: nat, z: seq<bv8>, d: seq<bool>, c: nat)
    requires ChangesKnown(was, vram, dirty, cleared) && |z| == |vram| && |d| == |dirty| && cleared <= c
    requires forall p :: 0 <= p < |dirty| && dirty[p] ==> d[p]
    requires forall i | 0 <= i < |vram| && z[i] != vram[i] :: i < c || d[PageOf(i)]
    ensures ChangesKnown(was, z, d, c)
  {
  }

  lemma StillShown(w: World, x: World)
    requires w.Wf() && x.Wf() && Shown(w) && x.last == w.last
    requires x.sc.s == w.sc.s && x.sc.palette == w.sc.palette && x.sc.fb == w.sc.fb
    requires ChangesKnown(w.last.vram, x.sc.vram, Synced(x.sc.dirty, x.touched, true), x.cleared)
    ensures Shown(x)
  {
  }

  lemma WriteShown(w: World, e: Event)
    requires StepOk(w, e) && (e.Poke? || e.Store? || e.Clear?) && Shown(w)
    ensures Shown(Step(w, e))
  {
    match e
    case Poke(a, b) => WrittenShown(w, Step(w, e), a, b);
    case Store(a, b, _) => WrittenShown(w, Step(w, e), a, b);
    case Clear(n) =>
      var x := Step(w, e);
      ChangeKnown(w.last.vram, w.sc.vram, Synced(w.sc.dirty, w.touched, true), w.cleared,
                  x.sc.vram, Synced(x.sc.dirty, x.touched, true), x.cleared);
      StillShown(w, x);
  }

  /** A byte written, and its page marked. */
  lemma WrittenShown(w: World, x: World, a: nat, b: bv8)
    requires w.Wf() && x.Wf() && Shown(w) && x.last == w.last && x.cleared == w.cleared && a < VRAM_ACTUAL_SIZE
    requires x.sc.s == w.sc.s && x.sc.palette == w.sc.palette && x.sc.fb == w.sc.fb && x.sc.vram == w.sc.vram[a := b]
    requires var p := PageOf(a);
      || (x.sc.dirty == w.sc.dirty && x.touched == w.touched[p := true])
      || (x.sc.dirty == w.sc.dirty[p := true] && x.touched == w.touched)
    ensures Shown(x)
  {
    ChangeKnown(w.last.vram, w.sc.vram, Synced(w.sc.dirty, w.touched, true), w.cleared,
                x.sc.vram, Synced(x.sc.dirty, x.touched, true), x.cleared);
    StillShown(w, x);
  }

  lemma GraphicStep(w: World, e: Event)
    requires StepOk(w, e) && GraphicInv(w)
    ensures GraphicInv(Step(w, e))
  {
    match e
    case Refresh(full, ok) =>
      if GraphicMode(w.sc.vga) == GMODE_GRAPHIC && Pictured(w, full).exact {
        GraphicCurrent(w, full, ok);
      }
    case Configure(v) =>
      if w.sc.s.gmode == GMODE_GRAPHIC && w.last.exact {
        StillShown(w, Step(w, e));
      }
    case _ =>
      if w.sc.s.gmode == GMODE_GRAPHIC && w.last.exact {
        WriteShown(w, e);
      }
  }

  lemma {:induction false} GraphicRun(w: World, es: seq<Event>)
    requires w.Wf() && RunOk(w, es) && GraphicInv(w)
    ensures GraphicInv(Run(w, es))
    decreases |es|
  {
    if es != [] {
      GraphicStep(w, es[0]);
      GraphicRun(Step(w, es[0]), es[1..]);
    }
  }

  /** After any run from start-up a graphic refresh leaves the same destination as redrawing every
      line would, which shows current memory through current registers, if a full redraw is due; and
      otherwise if every refresh since the last full one, this one included, had a trace of what
      changed: the untracked registers are those of the refresh before it, and bytes cleared by the
      adapter in between lie on marked pages. */
  lemma IncrementalGraphic(vga: Vga, vram: seq<bv8>, fb: seq<Pixel>, touched: seq<bool>, es: seq<Event>, full: bool,
                           ok: bool)
    requires |vram| == VRAM_ACTUAL_SIZE && |touched| == VRAM_PAGES && RunOk(Initial(vga, vram, fb, touched), es)
    requires var w := Run(Initial(vga, vram, fb, touched), es);
      CanRefresh(w.sc) && GraphicMode(w.sc.vga) == GMODE_GRAPHIC && (FullDue(w.sc, full) || (w.last.exact && Traced(w)))
    ensures var w := Run(Initial(vga, vram, fb, touched), es);
      var d := RefreshSpec(w.sc, full, w.touched, ok);
      d.fb == RefreshSpec(w.sc, true, w.touched, ok).fb && PictureCurrent(d.fb, d.vga, d.vram)
  {
    var w := Initial(vga, vram, fb, touched);
    GraphicRun(w, es);
    GraphicCurrent(Run(w, es), full, ok);
  }
}
