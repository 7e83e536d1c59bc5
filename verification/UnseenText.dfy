/** Changes an incremental text refresh has no trace of: runs from start-up after which it leaves
    another picture than a full redraw. */
module UnseenText {
  import opened VgaRegs
  import opened Grid
  import opened Pixels
  import opened Glyphs
  import opened Scanout
  import opened Text
  import opened Surface
  import opened SurfaceRuns
  import opened TextRuns
  import opened StaleLines
  import opened StaleCells
  import opened Unseen

  /** Pixel (r, x) of cell (cy, cx); black where the cell would lie outside memory. */
  function DotOr0(look: Look, vram: seq<bv8>, cy: nat, cx: nat, r: nat, x: nat): Pixel
    requires CellWidth(look.cw) && |look.palette| == 16 && x < look.cw
  {
    if Src(look, cy, cx) + 2 <= |vram| then ScreenDot(look, vram, cy, cx, r, x) else 0
  }

  predicate OnScreen(look: Look, cy: nat, cx: nat, r: nat, x: nat) {
    cy < look.rows && cx < look.cols && r < look.ch && x < look.cw
  }

  /** The attribute at this place is the same in both memories. */
  predicate SameAttr(vram: seq<bv8>, m: seq<bv8>, src: nat) {
    src + 2 <= |vram| && src + 2 <= |m| && AttrAt(vram, src) == AttrAt(m, src)
  }

  /** With the cells as remembered and nothing tracked changed, one pixel on which the last picture and
      the present one differ makes an incremental refresh wrong. */
  lemma StaleScreen(w: World, was: Look, before: seq<bv8>, look: Look, cy: nat, cx: nat, r: nat, x: nat)
    requires PartialScreen(w) && TextShown(w) && Settled(w.sc) && was == LookOf(w.last.vga) && look == LookOf(w.sc.vga)
    requires before == w.last.vram && OnScreen(look, cy, cx, r, x) && x < was.cw
    requires Src(was, cy, cx) == Src(look, cy, cx)
    requires SameAttr(before, w.sc.vram, Src(look, cy, cx))
    requires DotOr0(was, before, cy, cx, r, x) != DotOr0(look, w.sc.vram, cy, cx, r, x)
    ensures Wrong(w)
  {
    SamePlacesOf(w.sc.s, w.last.vga, w.sc.vga);
    assert CellAsRemembered(w.sc.attrs, look, w.sc.vram, |w.sc.fb|, cy, cx);
    CellSource(look, |w.sc.fb|, cy, cx);
    WrongScreenDot(Before(w.sc), was, before, look, w.sc.vram, cy, cx, r, x);
    WrongCellDotIsWrong(w, cy, cx, r, x);
  }

  lemma WrongScreenDot(p: Cells, was: Look, before: seq<bv8>, look: Look, vram: seq<bv8>, cy: nat, cx: nat, r: nat,
                       x: nat)
    requires CellWidth(look.cw) && |look.palette| == 16 == |was.palette| && SamePlaces(was, look)
    requires OnScreen(look, cy, cx, r, x) && Src(was, cy, cx) == Src(look, cy, cx)
    requires SameAttr(before, vram, Src(look, cy, cx))
    requires AllRemembered(p, was, before) && Kept(p.attrs, look, vram, cy, cx)
    requires DotOr0(was, before, cy, cx, r, x) != DotOr0(look, vram, cy, cx, r, x)
    ensures WrongCellDot(p, look, vram, cy, cx, r, x)
  {
    assert Remembered(p, was, before, cy, cx);
    ShownCellDot(p.fb, Dest(was, cy, cx), was, before, AttrAt(vram, Src(look, cy, cx)), IsCursor(was, cy, cx), r, x);
  }

  /** An incremental refresh finds no reason to redraw anything. */
  ghost predicate Settled(sc: Scene) {
    && sc.Wf() && LookOf(sc.vga).Drawable(|sc.fb|) && !TextFull(sc, false) && !CursorChanged(sc.s, sc.vga)
    && CellsAsRemembered(sc.attrs, LookOf(sc.vga), sc.vram, |sc.fb|)
  }

  lemma AllTracked(s: Surf, v: Vga)
    requires v.planeUpdated == 0
    ensures !TextTouched(TextSurf(s, v), v)
  {
  }

  lemma CellsDrawn(p: Cells, look: Look, vram: seq<bv8>)
    requires look.Drawable(|p.fb|) && |vram| == VRAM_ACTUAL_SIZE && |p.attrs| == CH_ATTR_SIZE
    ensures CellsAsRemembered(DrawCells(p, look, vram, true, look.rows).attrs, look, vram, |p.fb|)
  {
    var q := DrawCells(p, look, vram, true, look.rows);
    CellsCurrent(p, look, vram, true);
    forall cy, cx {:trigger CellAsRemembered(q.attrs, look, vram, |p.fb|, cy, cx)}
      | 0 <= cy < look.rows && 0 <= cx < look.cols
      ensures CellAsRemembered(q.attrs, look, vram, |p.fb|, cy, cx)
    {
      assert CellCurrent(q, look, vram, cy, cx);
    }
  }

  lemma SpecSettled(sc: Scene)
    requires sc.Wf() && !TooBig(sc.vga) && TextDrawable(sc.vga, |sc.fb|) && sc.vga.planeUpdated == 0
    ensures Settled(TextSpec(sc, true)) && TextSpec(sc, true).vga == sc.vga
  {
    AllTracked(sc.s, sc.vga);
    TextRecords(sc.s, sc.vga);
    RepaintTwice(sc.palette, sc.vga);
    CellsDrawn(Cells(sc.fb, CursorAttrs(sc.attrs, sc.s, sc.vga)), LookOf(sc.vga), sc.vram);
  }

  lemma FirstScreen(v: Vga, vram: seq<bv8>, fb: seq<Pixel>)
    requires |vram| == VRAM_ACTUAL_SIZE && GraphicMode(v) == GMODE_TEXT && !TooBig(v) && TextDrawable(v, |fb|)
    requires v.planeUpdated == 0
    ensures var w := Initial(v, vram, fb, NoPages());
      && StepOk(w, Refresh(true, true))
      && var x := Step(w, Refresh(true, true));
         FirstDrawn(x, v, vram, |fb|) && x.sc.s.gmode == GMODE_TEXT && Settled(x.sc) && TextShown(x)
  {
    var w := Initial(v, vram, fb, NoPages());
    TextRefresh(w, true, true);
    SpecSettled(w.sc.(s := w.sc.s.(gmode := GMODE_TEXT)));
  }

  /** Font bytes are not part of any cell. */
  lemma FontsApart(attrs: seq<int>, look: Look, vram: seq<bv8>, cells: nat, a: nat, b: bv8)
    requires look.Drawable(cells) && |attrs| == CH_ATTR_SIZE && a < |vram| == VRAM_ACTUAL_SIZE && a % 4 == 2
    requires look.start % 4 == 0
    requires CellsAsRemembered(attrs, look, vram, cells)
    ensures CellsAsRemembered(attrs, look, vram[a := b], cells)
  {
    forall cy, cx {:trigger CellAsRemembered(attrs, look, vram[a := b], cells, cy, cx)}
      | 0 <= cy < look.rows && 0 <= cx < look.cols
      ensures CellAsRemembered(attrs, look, vram[a := b], cells, cy, cx)
    {
      assert CellAsRemembered(attrs, look, vram, cells, cy, cx);
      CellSource(look, cells, cy, cx);
      SourceAligned(look.start, Index(look, cy, cx));
      AttrApart(vram, Src(look, cy, cx), a, b);
    }
  }

  lemma SourceAligned(start: nat, i: nat)
    requires start % 4 == 0
    ensures (start + 4 * i) % 4 == 0
  {
  }

  lemma AttrApart(vram: seq<bv8>, src: nat, a: nat, b: bv8)
    requires src + 2 <= |vram| && a < |vram| && src % 4 == 0 && a % 4 == 2
    ensures AttrAt(vram[a := b], src) == AttrAt(vram, src)
  {
  }

  lemma SettledFonts(sc: Scene, a: nat, b: bv8)
    requires Settled(sc) && a < VRAM_ACTUAL_SIZE && a % 4 == 2
    ensures Settled(sc.(vram := sc.vram[a := b]))
  {
    StartAligned(sc.vga);
    FontsApart(sc.attrs, LookOf(sc.vga), sc.vram, |sc.fb|, a, b);
  }

  lemma StartAligned(v: Vga)
    ensures LookOf(v).start % 4 == 0
  {
    FourTimes(StartAddr(v));
  }

  lemma FourTimes(n: nat)
    ensures n * 4 % WORD % 4 == 0
  {
  }

  /** A settled screen with another byte of a font. */
  lemma StaleFonts(x: World, t: World, v: Vga, vram: seq<bv8>, a: nat, b: bv8, cy: nat, cx: nat, r: nat, c: nat)
    requires x.Wf() && t.Wf() && Settled(x.sc) && TextShown(x) && x.sc.vga == v && x.sc.vram == vram && x.last.vga == v
    requires x.last.vram == vram
    requires x.sc.s.gmode == GMODE_TEXT == GraphicMode(v) && !TooBig(v) && TextDrawable(v, |x.sc.fb|)
    requires a < VRAM_ACTUAL_SIZE && a % 4 == 2 && t.sc == x.sc.(vram := vram[a := b], dirty := t.sc.dirty)
    requires t.last == x.last
    requires OnScreen(LookOf(v), cy, cx, r, c)
    requires DotOr0(LookOf(v), vram, cy, cx, r, c) != DotOr0(LookOf(v), vram[a := b], cy, cx, r, c)
    ensures CanRefresh(t.sc) && Wrong(t)
  {
    SettledFonts(x.sc, a, b);
    StillTextShown(x, t);
    StartAligned(v);
    CellSource(LookOf(v), |x.sc.fb|, cy, cx);
    SourceAligned(LookOf(v).start, Index(LookOf(v), cy, cx));
    AttrApart(vram, Src(LookOf(v), cy, cx), a, b);
    StaleScreen(t, LookOf(v), vram, LookOf(v), cy, cx, r, c);
  }

  /** Font bytes the guest writes itself are missed as soon as they change a pixel. */
  lemma FontMissed(v: Vga, vram: seq<bv8>, fb: seq<Pixel>, a: nat, b: bv8, cy: nat, cx: nat, r: nat, x: nat,
                   es: seq<Event>)
    requires es == [Refresh(true, true), Poke(a, b)]
    requires |vram| == VRAM_ACTUAL_SIZE && GraphicMode(v) == GMODE_TEXT && !TooBig(v) && TextDrawable(v, |fb|)
    requires v.planeUpdated == 0
    requires OnScreen(LookOf(v), cy, cx, r, x) && a < VRAM_ACTUAL_SIZE && a % 4 == 2
    requires DotOr0(LookOf(v), vram, cy, cx, r, x) != DotOr0(LookOf(v), vram[a := b], cy, cx, r, x)
    ensures Misses(v, vram, fb, es)
  {
    var w := Initial(v, vram, fb, NoPages());
    FirstScreen(v, vram, fb);
    RunTwo(w, Refresh(true, true), Poke(a, b));
    var y := Step(w, Refresh(true, true));
    StaleFonts(y, Step(y, Poke(a, b)), v, vram, a, b, cy, cx, r, x);
  }

  /** The registers a text refresh compares are the same, and so is the cursor. */
  predicate TextTrackedSame(v: Vga, u: Vga) {
    && GraphicMode(u) == GraphicMode(v) && u.planeUpdated == v.planeUpdated
    && FontOffset0(u) == FontOffset0(v) && FontOffset1(u) == FontOffset1(v)
    && LineOffset(u) == LineOffset(v) && StartAddr(u) == StartAddr(v) && LineCompare(u) == LineCompare(v)
    && CellWidthOf(u) == CellWidthOf(v) && RowScans(u) == RowScans(v) && Columns(u) == Columns(v) && Rows(u) == Rows(v)
    && CursorPos(u) == CursorPos(v) && u.cr[0x0a] == v.cr[0x0a] && u.cr[0x0b] == v.cr[0x0b]
    && forall i | 0 <= i < 16 :: Colour16(u, i) == Colour16(v, i)
  }

  lemma OnlyDup9(v: Vga, u: Vga)
    requires TextTrackedSame(v, u)
    ensures LookOf(u) == LookOf(v).(dup9 := LookOf(u).dup9)
  {
    assert LookOf(u).palette == LookOf(v).palette;
  }

  lemma Dup9Apart(attrs: seq<int>, look: Look, vram: seq<bv8>, cells: nat, dup9: bool)
    requires look.Drawable(cells) && |attrs| == CH_ATTR_SIZE && |vram| == VRAM_ACTUAL_SIZE
    requires CellsAsRemembered(attrs, look, vram, cells)
    ensures CellsAsRemembered(attrs, look.(dup9 := dup9), vram, cells)
  {
    forall cy, cx {:trigger CellAsRemembered(attrs, look.(dup9 := dup9), vram, cells, cy, cx)}
      | 0 <= cy < look.rows && 0 <= cx < look.cols
      ensures CellAsRemembered(attrs, look.(dup9 := dup9), vram, cells, cy, cx)
    {
      assert CellAsRemembered(attrs, look, vram, cells, cy, cx);
    }
  }

  lemma StillNotFull(sc: Scene, u: Vga)
    requires sc.Wf() && !TextFull(sc, false) && !CursorChanged(sc.s, sc.vga) && TextTrackedSame(sc.vga, u)
    ensures !TextFull(sc.(vga := u), false) && !CursorChanged(sc.s, u)
  {
    assert Repaint16(sc.palette, u) == Repaint16(sc.palette, sc.vga);
  }

  lemma StillSettled(sc: Scene, u: Vga)
    requires Settled(sc) && TextTrackedSame(sc.vga, u)
    ensures Settled(sc.(vga := u))
  {
    StillNotFull(sc, u);
    OnlyDup9(sc.vga, u);
    Dup9Apart(sc.attrs, LookOf(sc.vga), sc.vram, |sc.fb|, LookOf(u).dup9);
  }

  lemma StaleText(y: World, v: Vga, u: Vga, vram: seq<bv8>, cy: nat, cx: nat, r: nat, x: nat)
    requires FirstDrawn(y, v, vram, |y.sc.fb|) && y.sc.s.gmode == GMODE_TEXT == GraphicMode(v) && Settled(y.sc)
    requires TextShown(y)
    requires !TooBig(v) && StartAddr(v) * 4 <= VRAM_ACTUAL_SIZE && TextTrackedSame(v, u)
    requires OnScreen(LookOf(v), cy, cx, r, x)
    requires CellWidthOf(u) == CellWidthOf(v)
    requires DotOr0(LookOf(v), vram, cy, cx, r, x) != DotOr0(LookOf(u), vram, cy, cx, r, x)
    ensures var z := y.(sc := y.sc.(vga := u)); z.Wf() && CanRefresh(z.sc) && Wrong(z)
  {
    StillSettled(y.sc, u);
    OnlyDup9(v, u);
    var z := y.(sc := y.sc.(vga := u));
    StillTextShown(y, z);
    CellSource(LookOf(u), |y.sc.fb|, cy, cx);
    StaleScreen(z, LookOf(v), vram, LookOf(u), cy, cx, r, x);
  }

  lemma Configured(w: World, u: Vga)
    requires StepOk(w, Refresh(true, true)) && Step(w, Refresh(true, true)).sc.vga.planeUpdated == u.planeUpdated
    ensures var y := Step(w, Refresh(true, true));
            RunOk(w, [Refresh(true, true), Configure(u)])
            && Run(w, [Refresh(true, true), Configure(u)]) == y.(sc := y.sc.(vga := u))
  {
    RunTwo(w, Refresh(true, true), Configure(u));
    assert u.(planeUpdated := u.planeUpdated) == u;
  }

  /** A change to registers that a text refresh does not track is missed as soon as it changes a
      pixel. */
  lemma TextUntrackedMissed(v: Vga, u: Vga, vram: seq<bv8>, fb: seq<Pixel>, cy: nat, cx: nat, r: nat, x: nat)
    requires |vram| == VRAM_ACTUAL_SIZE && GraphicMode(v) == GMODE_TEXT && !TooBig(v) && TextDrawable(v, |fb|)
    requires v.planeUpdated == 0
    requires TextTrackedSame(v, u) && OnScreen(LookOf(v), cy, cx, r, x)
    requires DotOr0(LookOf(v), vram, cy, cx, r, x) != DotOr0(LookOf(u), vram, cy, cx, r, x)
    ensures Misses(v, vram, fb, [Refresh(true, true), Configure(u)])
  {
    var w := Initial(v, vram, fb, NoPages());
    FirstScreen(v, vram, fb);
    StaleText(Step(w, Refresh(true, true)), v, u, vram, cy, cx, r, x);
    Configured(w, u);
  }

  // A refresh that gives up

  lemma {:induction false} RunMore(w: World, es: seq<Event>, e: Event)
    requires w.Wf() && RunOk(w, es) && StepOk(Run(w, es), e)
    ensures RunOk(w, es + [e]) && Run(w, es + [e]) == Step(Run(w, es), e)
    decreases |es|
  {
    if es == [] {
      assert es + [e] == [e];
      RunOne(w, e);
    } else {
      assert (es + [e])[0] == es[0] && (es + [e])[1..] == es[1..] + [e];
      RunMore(Step(w, es[0]), es[1..], e);
    }
  }

  lemma RunFive(w: World, es: seq<Event>)
    requires |es| == 5 && StepOk(w, es[0]) && StepOk(Step(w, es[0]), es[1])
    requires StepOk(Step(Step(w, es[0]), es[1]), es[2])
    requires var z := Step(Step(Step(w, es[0]), es[1]), es[2]); StepOk(z, es[3]) && StepOk(Step(z, es[3]), es[4])
    ensures RunOk(w, es) && Run(w, es) == Step(Step(Step(Step(Step(w, es[0]), es[1]), es[2]), es[3]), es[4])
  {
    RunTwo(w, es[0], es[1]);
    RunMore(w, [es[0], es[1]], es[2]);
    RunMore(w, [es[0], es[1]] + [es[2]], es[3]);
    RunMore(w, [es[0], es[1]] + [es[2]] + [es[3]], es[4]);
    assert es == [es[0], es[1]] + [es[2]] + [es[3]] + [es[4]];
  }

  /** A screen too big to refresh, with the fonts and addresses of v. */
  predicate Oversized(v: Vga, big: Vga) {
    && GraphicMode(big) == GMODE_TEXT && TooBig(big)
    && FontOffset0(big) == FontOffset0(v) && FontOffset1(big) == FontOffset1(v)
    && LineOffset(big) == LineOffset(v) && StartAddr(big) == StartAddr(v) && LineCompare(big) == LineCompare(v)
  }

  /** A flagged font byte, a refresh that gives up, and the old registers again. */
  function GiveUp(v: Vga, big: Vga, a: nat, b: bv8): (es: seq<Event>)
    ensures |es| == 5
  {
    [Refresh(true, true), Store(a, b, 4), Configure(big), Refresh(false, true), Configure(v)]
  }

  lemma GaveUp(z: World)
    requires z.Wf() && GraphicMode(z.sc.vga) == GMODE_TEXT == z.sc.s.gmode && TooBig(z.sc.vga)
    requires Plane2Updated(z.sc.vga)
    requires FontOffset0(z.sc.vga) == z.sc.s.font0 && FontOffset1(z.sc.vga) == z.sc.s.font1
    requires !BasicChanged(z.sc.s, z.sc.vga)
    ensures StepOk(z, Refresh(false, true))
    ensures Step(z, Refresh(false, true)) == z.(sc := z.sc.(vga := z.sc.vga.(planeUpdated := 0)))
  {
    assert WithFonts(z.sc.s, z.sc.vga) == z.sc.s;
    assert z.sc.(s := z.sc.s.(gmode := GMODE_TEXT)) == z.sc;
  }

  lemma Flagged(v: Vga, big: Vga)
    requires Oversized(v, big)
    ensures Oversized(v, big.(planeUpdated := 4)) && Plane2Updated(big.(planeUpdated := 4))
  {
  }

  /** What the run leaves of a settled screen. */
  lemma GiveUpRun(w: World, v: Vga, big: Vga, a: nat, b: bv8)
    requires StepOk(w, Refresh(true, true)) && Oversized(v, big) && a < VRAM_ACTUAL_SIZE && v.planeUpdated == 0
    requires var x := Step(w, Refresh(true, true));
        x.sc.vga == v && x.sc.s.gmode == GMODE_TEXT && !TextFull(x.sc, false)
    ensures var x := Step(w, Refresh(true, true));
            && RunOk(w, GiveUp(v, big, a, b))
            && var t := Run(w, GiveUp(v, big, a, b));
               t.sc == x.sc.(vram := x.sc.vram[a := b], dirty := t.sc.dirty) && t.last == x.last
  {
    var x := Step(w, Refresh(true, true));
    var y := Step(x, Store(a, b, 4));
    assert 0 as bv8 | 4 == 4;
    assert v.(planeUpdated := 0) == v;
    Flagged(v, big);
    GaveUp(Step(y, Configure(big)));
    RunFive(w, GiveUp(v, big, a, b));
  }

  /** A flagged change to a font byte is missed as soon as it changes a pixel, if the refresh that
      finds the flag gives up. */
  lemma GiveUpMissed(v: Vga, big: Vga, vram: seq<bv8>, fb: seq<Pixel>, a: nat, b: bv8, cy: nat, cx: nat, r: nat, x: nat,
                     es: seq<Event>)
    requires es == GiveUp(v, big, a, b)
    requires |vram| == VRAM_ACTUAL_SIZE && GraphicMode(v) == GMODE_TEXT && !TooBig(v) && TextDrawable(v, |fb|)
    requires v.planeUpdated == 0
    requires Oversized(v, big) && OnScreen(LookOf(v), cy, cx, r, x) && a < VRAM_ACTUAL_SIZE && a % 4 == 2
    requires DotOr0(LookOf(v), vram, cy, cx, r, x) != DotOr0(LookOf(v), vram[a := b], cy, cx, r, x)
    ensures Misses(v, vram, fb, es)
  {
    var w := Initial(v, vram, fb, NoPages());
    FirstScreen(v, vram, fb);
    GiveUpRun(w, v, big, a, b);
    StaleFonts(Step(w, Refresh(true, true)), Run(w, es), v, vram, a, b, cy, cx, r, x);
  }

  // Two cells of nine columns and one scan line; the first holds a line-drawing character.

  const FONT_BYTE: nat := 2 + 128 * 0xb0

  function Text9(): Vga {
    Plane16().(gr := seq(256, _ => 0), cr := seq(256, _ => 0)[1 := 1][0x0a := 0x20][0x13 := 1][0x17 := 3][0x18 := 0xff])
  }

  function Oversize9(): Vga {
    Text9().(cr := Text9().cr[1 := 0xff][0x12 := 0xff])
  }

  function TextMemory(): (m: seq<bv8>)
    ensures |m| == VRAM_ACTUAL_SIZE
  {
    seq(VRAM_ACTUAL_SIZE, i => if i == 0 then 0xb0 else if i == 1 || i == FONT_BYTE then 1 else 0)
  }

  /** Text registers with these fonts, addresses, palette and hidden cursor. */
  predicate Plain(v: Vga) {
    && v.arIndex == 0x20 && v.gr[6] == 0 && v.sr[1] == 0 && v.sr[3] == 0 && v.vbe[VBE_ENABLE] == 0
    && v.planeUpdated == 0
    && v.cr[6] == 0 && v.cr[7] == 0 && v.cr[9] == 0 && v.cr[0x0a] == 0x20 && v.cr[0x0b] == 0
    && v.cr[0x0c] == 0 && v.cr[0x0d] == 0 && v.cr[0x0e] == 0 && v.cr[0x0f] == 0 && v.cr[0x13] == 1 && v.cr[0x18] == 0xff
    && v.palette == Plane16().palette
    && v.ar[..16] == Plane16().ar[..16] && (v.ar[0x10] == 0 || v.ar[0x10] == 4) && v.ar[0x14] == 0
  }

  /** Two cells. */
  predicate Nine(v: Vga) {
    Plain(v) && v.cr[1] == 1 && v.cr[0x12] == 0
  }

  lemma NineLook(v: Vga, cells: nat)
    requires Nine(v) && cells >= 18
    ensures GraphicMode(v) == GMODE_TEXT && !TooBig(v) && TextDrawable(v, cells) && Rows(v) == 1 && CellWidthOf(v) == 9
    ensures v.planeUpdated == 0
    ensures var look := LookOf(v);
            look.font0 == 2 && look.start == 0 && look.cw == 9 && !look.cursorShown && (look.dup9 <==> v.ar[0x10] == 4)
  {
    NineRows(v);
    assert At(0, 9, 2) == 18 && At(0, 2, 1) == 2 && At(0, 18, 1) == 18;
  }

  lemma NineRows(v: Vga)
    requires Nine(v)
    ensures Rows(v) == 1 && Columns(v) == 2 && RowScans(v) == 0 && CellWidthOf(v) == 9
    ensures FontOffset0(v) == 2 && FontOffset1(v) == 2 && LineOffset(v) == 8 && StartAddr(v) == 0
  {
  }

  lemma NineColour(v: Vga, i: nat)
    requires Nine(v) && i < 16
    ensures Colour16(v, i) == Colour16(Plane16(), i)
  {
    assert v.ar[i] == v.ar[..16][i] == Plane16().ar[..16][i] == Plane16().ar[i];
  }

  /** A line-drawing character, white on black, and the top byte of its glyph. */
  ghost predicate Holds(m: seq<bv8>, font: bv8) {
    |m| == VRAM_ACTUAL_SIZE && m[0] == 0xb0 && m[1] == 1 && m[FONT_BYTE] == font
  }

  lemma NineGlyph(look: Look, m: seq<bv8>, font: bv8, x: nat, cursor: bool)
    requires look.cw == 9 && look.font0 == 2 && |look.palette| == 16 && !look.cursorShown
    requires Holds(m, font) && (font == 0 || font == 1) && (x == 7 || x == 8)
    ensures GlyphAt(look, 0x1b0) == FONT_BYTE == At(FONT_BYTE, 4, 0)
    ensures CellPixel(look, m, 0x1b0, cursor, 0, x) == look.palette[if font == 1 && (x == 7 || look.dup9) then 1 else 0]
  {
  }

  lemma NineDot(look: Look, m: seq<bv8>, font: bv8, x: nat)
    requires look.cw == 9 && look.font0 == 2 && |look.palette| == 16 && !look.cursorShown && look.start == 0
    requires Holds(m, font) && (font == 0 || font == 1) && (x == 7 || x == 8)
    ensures DotOr0(look, m, 0, 0, 0, x) == look.palette[if font == 1 && (x == 7 || look.dup9) then 1 else 0]
  {
    assert Src(look, 0, 0) == 0 && AttrAt(m, 0) == 0x1b0;
    NineGlyph(look, m, font, x, IsCursor(look, 0, 0));
  }

  /** Pixels 7 and 8 of the first cell. */
  lemma NinePixel(v: Vga, m: seq<bv8>, font: bv8, x: nat)
    requires Nine(v) && Holds(m, font) && (font == 0 || font == 1) && (x == 7 || x == 8)
    ensures DotOr0(LookOf(v), m, 0, 0, 0, x)
         == Colour16(Plane16(), if font == 1 && (x == 7 || v.ar[0x10] == 4) then 1 else 0)
  {
    NineLook(v, 18);
    NineColour(v, 0);
    NineColour(v, 1);
    var look := LookOf(v);
    NineDot(look, m, font, x);
  }

  lemma NineSame(v: Vga, u: Vga)
    requires Nine(v) && Nine(u)
    ensures TextTrackedSame(v, u)
  {
    forall i | 0 <= i < 16 ensures Colour16(u, i) == Colour16(v, i) {
      NineColour(u, i);
      NineColour(v, i);
    }
  }

  lemma NineMissed(v: Vga, u: Vga, m: seq<bv8>, fb: seq<Pixel>)
    requires Nine(v) && Nine(u) && v.ar[0x10] == 0 && u.ar[0x10] == 4 && Holds(m, 1) && |fb| >= 18
    ensures Misses(v, m, fb, [Refresh(true, true), Configure(u)])
  {
    NineLook(v, |fb|);
    NineSame(v, u);
    NinePixel(v, m, 1, 8);
    NinePixel(u, m, 1, 8);
    White();
    TextUntrackedMissed(v, u, m, fb, 0, 0, 0, 8);
  }

  lemma FontLane()
    ensures FONT_BYTE < VRAM_ACTUAL_SIZE && FONT_BYTE % 4 == 2
  {
  }

  lemma NineFont(v: Vga, m: seq<bv8>, a: nat, b: bv8, x: nat)
    requires Nine(v) && Holds(m, 1) && a == FONT_BYTE && b == 0 && x == 7
    ensures a < VRAM_ACTUAL_SIZE && a % 4 == 2
    ensures DotOr0(LookOf(v), m, 0, 0, 0, x) != DotOr0(LookOf(v), m[a := b], 0, 0, 0, x)
  {
    FontLane();
    NinePixel(v, m, 1, x);
    NinePixel(v, m[a := b], 0, x);
    White();
  }

  lemma NineFontMissed(v: Vga, m: seq<bv8>, fb: seq<Pixel>, a: nat, b: bv8, x: nat, es: seq<Event>)
    requires es == [Refresh(true, true), Poke(a, b)]
    requires Nine(v) && Holds(m, 1) && |fb| >= 18 && a == FONT_BYTE && b == 0 && x == 7
    ensures Misses(v, m, fb, es)
  {
    NineLook(v, |fb|);
    NineFont(v, m, a, b, x);
    FontMissed(v, m, fb, a, b, 0, 0, 0, x, es);
  }

  lemma NineGivenUp(v: Vga, big: Vga, m: seq<bv8>, fb: seq<Pixel>, a: nat, b: bv8, x: nat, es: seq<Event>)
    requires es == GiveUp(v, big, a, b)
    requires Nine(v) && Oversized(v, big) && Holds(m, 1) && |fb| >= 18 && a == FONT_BYTE && b == 0 && x == 7
    ensures Misses(v, m, fb, es)
  {
    NineLook(v, |fb|);
    NineFont(v, m, a, b, x);
    GiveUpMissed(v, big, m, fb, a, b, 0, 0, 0, x, es);
  }

  lemma BigEnough(v: Vga, big: Vga)
    requires Nine(v) && Plain(big) && big.cr[1] == 0xff && big.cr[0x12] == 0xff
    ensures Oversized(v, big)
  {
    assert Columns(big) == 256 && Rows(big) == 256;
    AtProduct(0, 256, 256);
  }

  /** The rule for the ninth column, ar[0x10] bit 2. */
  lemma NinthColumnMissed(fb: seq<Pixel>)
    requires |fb| >= 18
    ensures Misses(Text9(), TextMemory(), fb, [Refresh(true, true), Configure(Text9().(ar := Text9().ar[0x10 := 4]))])
  {
    NineMissed(Text9(), Text9().(ar := Text9().ar[0x10 := 4]), TextMemory(), fb);
  }

  /** A font byte the guest writes through the linear frame buffer. */
  lemma GuestFontMissed(fb: seq<Pixel>)
    requires |fb| >= 18
    ensures Misses(Text9(), TextMemory(), fb, [Refresh(true, true), Poke(FONT_BYTE, 0)])
  {
    NineFontMissed(Text9(), TextMemory(), fb, FONT_BYTE, 0, 7, [Refresh(true, true), Poke(FONT_BYTE, 0)]);
  }

  /** A flagged font byte, found only by a refresh that gives up. */
  lemma GivenUpFontMissed(fb: seq<Pixel>)
    requires |fb| >= 18
    ensures Misses(Text9(), TextMemory(), fb, GiveUp(Text9(), Oversize9(), FONT_BYTE, 0))
  {
    BigEnough(Text9(), Oversize9());
    NineGivenUp(Text9(), Oversize9(), TextMemory(), fb, FONT_BYTE, 0, 7, GiveUp(Text9(), Oversize9(), FONT_BYTE, 0));
  }
}
