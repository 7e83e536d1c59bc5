/** Incremental text redrawing over any run of cell, cursor, font and palette changes. */
module TextRuns {
  import opened VgaRegs
  import opened Grid
  import opened Pixels
  import opened Glyphs
  import opened Scanout
  import opened Text
  import opened Surface
  import opened SurfaceRuns

  // ------------------------------------------------------------------
  // Font bytes

  lemma {:induction false} FontByte(look: Look, attr: nat, r: nat)
    requires look.font0 % 4 == 2 && look.font1 % 4 == 2
    ensures At(GlyphAt(look, attr), 4, r) % 4 == 2
  {
    if r > 0 {
      FontByte(look, attr, r - 1);
    }
  }

  lemma CellFootprint(fb: seq<Pixel>, o: nat, look: Look, vram: seq<bv8>, was: seq<bv8>, attr: nat, cursor: bool)
    requires CellWidth(look.cw) && |look.palette| == 16 && attr < 0x1_0000 && look.font0 % 4 == 2 && look.font1 % 4 == 2
    requires SameFonts(vram, was) && CellShows(fb, o, look, was, attr, cursor)
    ensures CellShows(fb, o, look, vram, attr, cursor)
  {
    forall r {:trigger At(o, look.stride, r)} | 0 <= r < look.ch
      ensures CellRowShows(fb, At(o, look.stride, r), look, vram, attr, cursor, r)
    {
      FontByte(look, attr, r);
      assert CellRowShows(fb, At(o, look.stride, r), look, was, attr, cursor, r);
      forall x {:trigger CellPixel(look, vram, attr, cursor, r, x)} | 0 <= x < look.cw
        ensures fb[At(o, look.stride, r) + x] == CellPixel(look, vram, attr, cursor, r, x)
      {
        assert fb[At(o, look.stride, r) + x] == CellPixel(look, was, attr, cursor, r, x);
      }
    }
  }

  lemma RememberedFootprint(p: Cells, look: Look, vram: seq<bv8>, was: seq<bv8>)
    requires CellWidth(look.cw) && |look.palette| == 16 && look.font0 % 4 == 2 && look.font1 % 4 == 2
    requires SameFonts(vram, was) && AllRemembered(p, look, was)
    ensures AllRemembered(p, look, vram)
  {
    forall cy, cx | 0 <= cy < look.rows && 0 <= cx < look.cols
      ensures Remembered(p, look, vram, cy, cx)
    {
      assert Remembered(p, look, was, cy, cx);
      var attr := p.attrs[Index(look, cy, cx)];
      if attr != INVALID {
        CellFootprint(p.fb, Dest(look, cy, cx), look, vram, was, attr, IsCursor(look, cy, cx));
      }
    }
  }

  // ------------------------------------------------------------------
  // The cursor's cell

  /** The cell the cursor is drawn in is the one the cursor offset counts to. */
  lemma CursorIndex(v: Vga, cells: nat, cy: nat, cx: nat)
    requires TextDrawable(v, cells) && cy < Rows(v) && cx < Columns(v)
    ensures IsCursor(LookOf(v), cy, cx) <==> CursorCell(v) == Index(LookOf(v), cy, cx)
  {
    assert CursorCell(v) == (CursorPos(v) - StartAddr(v)) % WORD;
    CursorIndexOf(LookOf(v), CursorPos(v), StartAddr(v), CursorCell(v), cells, cy, cx);
  }

  lemma CursorIndexOf(look: Look, pos: nat, start: nat, cell: nat, cells: nat, cy: nat, cx: nat)
    requires look.Drawable(cells) && look.start == start * 4 % WORD && look.cursorSrc == pos * 4
    requires pos < WORD && start * 4 <= VRAM_ACTUAL_SIZE && cy < look.rows && cx < look.cols
    requires cell == (pos - start) % WORD
    ensures IsCursor(look, cy, cx) <==> cell == Index(look, cy, cx)
  {
    CellSource(look, cells, cy, cx);
    CursorArith(pos, start, Index(look, cy, cx));
  }

  lemma CursorArith(pos: nat, start: nat, index: nat)
    requires pos < WORD && start * 4 <= VRAM_ACTUAL_SIZE && index < CH_ATTR_SIZE
    ensures start * 4 % WORD + 4 * index == pos * 4 <==> (pos - start) % WORD == index
  {
    if pos >= start {
      assert (pos - start) % WORD == pos - start;
    } else {
      assert (pos - start) % WORD == pos - start + WORD;
    }
  }

  /** Two looks that differ at most in the cursor. */
  predicate SameButCursor(a: Look, b: Look) {
    a.(cursorSrc := 0, cursorShown := false, cursorFirst := 0, cursorEnd := 0)
    == b.(cursorSrc := 0, cursorShown := false, cursorFirst := 0, cursorEnd := 0)
  }

  /** Away from the cursor a cell does not depend on it. */
  lemma PlainCell(fb: seq<Pixel>, o: nat, a: Look, b: Look, vram: seq<bv8>, attr: nat)
    requires CellWidth(a.cw) && |a.palette| == 16 && attr < 0x1_0000 && SameButCursor(a, b)
    requires CellShows(fb, o, a, vram, attr, false)
    ensures CellShows(fb, o, b, vram, attr, false)
  {
    forall r {:trigger At(o, b.stride, r)} | 0 <= r < b.ch
      ensures CellRowShows(fb, At(o, b.stride, r), b, vram, attr, false, r)
    {
      assert CellRowShows(fb, At(o, a.stride, r), a, vram, attr, false, r);
      forall x {:trigger CellPixel(b, vram, attr, false, r, x)} | 0 <= x < b.cw
        ensures fb[At(o, b.stride, r) + x] == CellPixel(b, vram, attr, false, r, x)
      {
        assert fb[At(o, a.stride, r) + x] == CellPixel(a, vram, attr, false, r, x);
      }
    }
  }

  /** After the cursor moved from cell `from` to cell `to`, both forgotten, what is
      remembered is still what is shown. */
  lemma CursorMoved(p: Cells, q: Cells, a: Look, b: Look, vram: seq<bv8>, from: nat, to: nat)
    requires CellWidth(a.cw) && |a.palette| == 16 && SameButCursor(a, b)
    requires |p.attrs| == CH_ATTR_SIZE && AllRemembered(p, a, vram)
    requires q == Cells(p.fb, Invalidate(Invalidate(p.attrs, from), to))
    requires forall cy, cx | 0 <= cy < a.rows && 0 <= cx < a.cols :: IsCursor(a, cy, cx) ==> from == Index(a, cy, cx)
    requires forall cy, cx | 0 <= cy < b.rows && 0 <= cx < b.cols :: IsCursor(b, cy, cx) ==> to == Index(b, cy, cx)
    ensures AllRemembered(q, b, vram)
  {
    forall cy, cx | 0 <= cy < b.rows && 0 <= cx < b.cols
      ensures Remembered(q, b, vram, cy, cx)
    {
      assert Remembered(p, a, vram, cy, cx);
      var i := Index(a, cy, cx);
      if i != from && i != to && p.attrs[i] != INVALID {
        PlainCell(p.fb, Dest(a, cy, cx), a, b, vram, p.attrs[i]);
      }
    }
  }

  // ------------------------------------------------------------------
  // One refresh

  /** The screen shows the last picture, cell by cell as far as remembered, and what is remembered is
      what it was drawn from. */
  ghost predicate TextShown(w: World)
    requires w.Wf()
  {
    && !TextGeometryChanged(w.sc.s, w.last.vga) && !CursorChanged(w.sc.s, w.last.vga)
    && w.sc.palette == Repaint16(w.sc.palette, w.last.vga)
    && AllRemembered(Cells(w.sc.fb, w.sc.attrs), LookOf(w.last.vga), w.last.vram)
  }

  ghost predicate TextInv(w: World)
    requires w.Wf()
  {
    w.sc.s.gmode == GMODE_TEXT && w.last.mode == GMODE_TEXT && w.last.exact ==> TextShown(w)
  }

  lemma Cancel(a: nat, b: nat, c: nat)
    requires c > 0 && a * c == b * c
    ensures a == b
  {
    assert (a - b) * c == a * c - b * c;
  }

  /** What is remembered determines everything but the ninth column's rule. */
  lemma SameSize(s: Surf, v: Vga, w: Vga)
    requires !TextGeometryChanged(s, v) && !TextGeometryChanged(s, w)
    ensures CellWidthOf(v) == CellWidthOf(w) && RowScans(v) == RowScans(w) && Columns(v) == Columns(w)
    ensures Rows(v) == Rows(w)
  {
    Cancel(Columns(v), Columns(w), CellWidthOf(v));
    Cancel(Rows(v), Rows(w), RowScans(v) + 1);
  }

  lemma SamePalette(p: seq<Pixel>, v: Vga, w: Vga)
    requires |p| == 256 && Repaint16(p, v) == p == Repaint16(p, w)
    ensures LookOf(v).palette == LookOf(w).palette
  {
    forall i | 0 <= i < 16
      ensures Colour16(v, i) == Colour16(w, i)
    {
      assert Repaint16(p, v)[i] == Repaint16(p, w)[i];
    }
  }

  lemma SameLook(s: Surf, p: seq<Pixel>, v: Vga, w: Vga)
    requires |p| == 256 && Repaint16(p, v) == p == Repaint16(p, w)
    requires !TextGeometryChanged(s, v) && !TextGeometryChanged(s, w) && TextUntrackedSame(v, w)
    ensures SameButCursor(LookOf(v), LookOf(w))
  {
    SameSize(s, v, w);
    SamePalette(p, v, w);
  }

  lemma SameCursor(s: Surf, v: Vga, w: Vga)
    requires StartAddr(v) == StartAddr(w) && SameButCursor(LookOf(v), LookOf(w))
    requires !CursorChanged(s, v) && !CursorChanged(s, w)
    ensures LookOf(v) == LookOf(w)
  {
    CursorInjective(CursorPos(v), CursorPos(w), StartAddr(v));
  }

  lemma CursorInjective(a: nat, b: nat, start: nat)
    requires a < WORD && b < WORD && start < WORD && (a - start) % WORD == (b - start) % WORD
    ensures a == b
  {
    assert (a - start) % WORD == (if a >= start then a - start else a - start + WORD);
    assert (b - start) % WORD == (if b >= start then b - start else b - start + WORD);
  }

  /** The cursor's cells forgotten, what is remembered through the old look holds through the new. */
  lemma CursorForgotten(p: Cells, s: Surf, v0: Vga, v: Vga, vram: seq<bv8>)
    requires |p.attrs| == CH_ATTR_SIZE && AllRemembered(p, LookOf(v0), vram)
    requires SameButCursor(LookOf(v0), LookOf(v)) && StartAddr(v0) == StartAddr(v) && !CursorChanged(s, v0)
    requires TextDrawable(v0, |p.fb|) && TextDrawable(v, |p.fb|)
    ensures AllRemembered(Cells(p.fb, CursorAttrs(p.attrs, s, v)), LookOf(v), vram)
  {
    if !CursorChanged(s, v) {
      SameCursor(s, v0, v);
    } else {
      forall cy, cx | 0 <= cy < Rows(v) && 0 <= cx < Columns(v)
        ensures IsCursor(LookOf(v), cy, cx) ==> CursorCell(v) == Index(LookOf(v), cy, cx)
      {
        CursorIndex(v, |p.fb|, cy, cx);
      }
      forall cy, cx | 0 <= cy < Rows(v0) && 0 <= cx < Columns(v0)
        ensures IsCursor(LookOf(v0), cy, cx) ==> s.cursorOffset == Index(LookOf(v0), cy, cx)
      {
        CursorIndex(v0, |p.fb|, cy, cx);
      }
      CursorMoved(p, Cells(p.fb, CursorAttrs(p.attrs, s, v)), LookOf(v0), LookOf(v), vram, s.cursorOffset,
                  CursorCell(v));
    }
  }

  lemma Carried(p: Cells, s: Surf, v0: Vga, v: Vga, vram: seq<bv8>, was: seq<bv8>)
    requires |p.attrs| == CH_ATTR_SIZE && AllRemembered(p, LookOf(v0), was) && SameFonts(vram, was)
    requires SameButCursor(LookOf(v0), LookOf(v)) && StartAddr(v0) == StartAddr(v) && !CursorChanged(s, v0)
    requires TextDrawable(v, |p.fb|)
    ensures AllRemembered(Cells(p.fb, CursorAttrs(p.attrs, s, v)), LookOf(v), vram)
  {
    FontLanes(v0);
    RememberedFootprint(p, LookOf(v0), vram, was);
    DrawableToo(v0, v, |p.fb|);
    CursorForgotten(p, s, v0, v, vram);
  }

  lemma FontLanes(v: Vga)
    ensures LookOf(v).font0 % 4 == 2 && LookOf(v).font1 % 4 == 2
  {
  }

  /** A traced refresh starts with every cell shown as remembered, the old and the new cursor cell
      excepted. */
  lemma StillRemembered(w: World)
    requires w.Wf() && TextShown(w) && TextDrawable(w.sc.vga, |w.sc.fb|) && !TextFull(w.sc, false)
    requires TextUntrackedSame(w.last.vga, w.sc.vga) && SameFonts(w.sc.vram, w.last.vram)
    ensures AllRemembered(Cells(w.sc.fb, CursorAttrs(w.sc.attrs, w.sc.s, w.sc.vga)), LookOf(w.sc.vga), w.sc.vram)
  {
    SameLook(w.sc.s, w.sc.palette, w.last.vga, w.sc.vga);
    Carried(Cells(w.sc.fb, w.sc.attrs), w.sc.s, w.last.vga, w.sc.vga, w.sc.vram, w.last.vram);
  }

  lemma DrawableToo(v: Vga, w: Vga, cells: nat)
    requires TextDrawable(w, cells) && SameButCursor(LookOf(v), LookOf(w)) && StartAddr(v) == StartAddr(w)
    ensures TextDrawable(v, cells)
  {
  }

  lemma TextRecords(s: Surf, v: Vga)
    ensures !TextGeometryChanged(TextSurf(s, v), v) && !CursorChanged(TextSurf(s, v), v)
  {
  }

  /** A text refresh that draws leaves every cell, the cursor's old and new cell included,
      showing what a full redraw would, and remembers it. */
  lemma TextSpecCurrent(sc: Scene, now: bool, x: World)
    requires sc.Wf() && !TooBig(sc.vga) && TextDrawable(sc.vga, |sc.fb|)
    requires TextFull(sc, now)
          || AllRemembered(Cells(sc.fb, CursorAttrs(sc.attrs, sc.s, sc.vga)), LookOf(sc.vga), sc.vram)
    requires x.Wf() && x.sc == TextSpec(sc, now) && x.last.vga == sc.vga && x.last.vram == sc.vram
    ensures TextCurrent(x.sc.fb, LookOf(sc.vga), sc.vram) && TextShown(x)
    ensures x.sc.fb == TextSpec(sc, true).fb
  {
    var cells := Cells(sc.fb, CursorAttrs(sc.attrs, sc.s, sc.vga));
    CellsCurrent(cells, LookOf(sc.vga), sc.vram, TextFull(sc, now));
    CellsCurrent(cells, LookOf(sc.vga), sc.vram, true);
    SameScreen(cells, LookOf(sc.vga), sc.vram, TextFull(sc, now));
    TextRecords(sc.s, sc.vga);
    RepaintTwice(sc.palette, sc.vga);
  }

  /** A text refresh that redraws everything, or has a trace of all that changed since an exact
      picture, leaves what redrawing every cell would, and that is current memory through current
      registers. */
  lemma TextRefresh(w: World, full: bool, ok: bool)
    requires w.Wf() && CanRefresh(w.sc) && GraphicMode(w.sc.vga) == GMODE_TEXT && !TooBig(w.sc.vga)
    requires TextInv(w)
    requires FullDue(w.sc, full) || (w.last.exact && Traced(w))
    ensures var d := RefreshSpec(w.sc, full, w.touched, ok);
      d.fb == RefreshSpec(w.sc, true, w.touched, ok).fb && TextCurrent(d.fb, LookOf(d.vga), d.vram)
    ensures TextShown(Step(w, Refresh(full, ok)))
  {
    var now := full || GMODE_TEXT != w.sc.s.gmode;
    var next := w.sc.(s := w.sc.s.(gmode := GMODE_TEXT));
    if !TextFull(next, now) {
      assert next == w.sc;
      StillRemembered(w);
    }
    ClearKeeps(w.sc.vga);
    TextSpecCurrent(next, now, Step(w, Refresh(full, ok)));
  }

  // ------------------------------------------------------------------
  // Runs

  lemma StillTextShown(w: World, x: World)
    requires w.Wf() && x.Wf() && TextShown(w) && x.last == w.last
    requires x.sc.palette == w.sc.palette && x.sc.attrs == w.sc.attrs && x.sc.fb == w.sc.fb
    requires !TextGeometryChanged(x.sc.s, w.last.vga) && !CursorChanged(x.sc.s, w.last.vga)
    ensures TextShown(x)
  {
  }

  /** A refresh that gives up leaves what is known of the screen alone. */
  lemma GivenUpShown(w: World, full: bool, ok: bool)
    requires w.Wf() && CanRefresh(w.sc) && GraphicMode(w.sc.vga) == GMODE_TEXT && TooBig(w.sc.vga)
    requires TextShown(w)
    ensures TextShown(Step(w, Refresh(full, ok)))
  {
    StillTextShown(w, Step(w, Refresh(full, ok)));
  }

  /** While the last picture is text, so is the mode remembered. */
  ghost predicate ModeInv(w: World) {
    w.last.mode == GMODE_TEXT ==> w.sc.s.gmode == GMODE_TEXT
  }

  lemma TextStep(w: World, e: Event)
    requires StepOk(w, e) && TextInv(w) && ModeInv(w)
    ensures TextInv(Step(w, e)) && ModeInv(Step(w, e))
  {
    var x := Step(w, e);
    if e.Refresh? {
      if GraphicMode(w.sc.vga) == GMODE_TEXT && x.last.mode == GMODE_TEXT && x.last.exact {
        if TooBig(w.sc.vga) {
          GivenUpShown(w, e.full, e.ok);
        } else {
          TextRefresh(w, e.full, e.ok);
        }
      }
    } else if w.sc.s.gmode == GMODE_TEXT && w.last.mode == GMODE_TEXT && w.last.exact {
      StillTextShown(w, x);
    }
  }

  lemma {:induction false} TextRun(w: World, es: seq<Event>)
    requires w.Wf() && RunOk(w, es) && TextInv(w) && ModeInv(w)
    ensures TextInv(Run(w, es))
    decreases |es|
  {
    if es != [] {
      TextStep(w, es[0]);
      TextRun(Step(w, es[0]), es[1..]);
    }
  }

  /** After any run from start-up a text refresh leaves every cell, the cursor included, showing what
      redrawing every cell would, which is current memory through current registers, if a full redraw
      is due; and otherwise if every refresh since the last full one, this one included, had a trace of
      what changed: font bytes, font offsets, addresses and the ninth column's rule are those of the
      last refresh that drew. */
  lemma IncrementalText(vga: Vga, vram: seq<bv8>, fb: seq<Pixel>, touched: seq<bool>, es: seq<Event>, full: bool,
                        ok: bool)
    requires |vram| == VRAM_ACTUAL_SIZE && |touched| == VRAM_PAGES && RunOk(Initial(vga, vram, fb, touched), es)
    requires var w := Run(Initial(vga, vram, fb, touched), es);
      && CanRefresh(w.sc) && GraphicMode(w.sc.vga) == GMODE_TEXT && !TooBig(w.sc.vga)
      && (FullDue(w.sc, full) || (w.last.exact && Traced(w)))
    ensures var w := Run(Initial(vga, vram, fb, touched), es);
      var d := RefreshSpec(w.sc, full, w.touched, ok);
      d.fb == RefreshSpec(w.sc, true, w.touched, ok).fb && TextCurrent(d.fb, LookOf(d.vga), d.vram)
  {
    var w := Initial(vga, vram, fb, touched);
    TextRun(w, es);
    TextRefresh(Run(w, es), full, ok);
  }

  // ------------------------------------------------------------------
  // What goes unseen

  /** Every cell holds the attribute remembered for it. */
  ghost predicate CellsAsRemembered(attrs: seq<int>, look: Look, vram: seq<bv8>, cells: nat)
    requires look.Drawable(cells) && |vram| == VRAM_ACTUAL_SIZE && |attrs| == CH_ATTR_SIZE
  {
    forall cy, cx | 0 <= cy < look.rows && 0 <= cx < look.cols :: CellAsRemembered(attrs, look, vram, cells, cy, cx)
  }

  ghost predicate CellAsRemembered(attrs: seq<int>, look: Look, vram: seq<bv8>, cells: nat, cy: nat, cx: nat)
    requires look.Drawable(cells) && |vram| == VRAM_ACTUAL_SIZE && |attrs| == CH_ATTR_SIZE
    requires cy < look.rows && cx < look.cols
  {
    CellSource(look, cells, cy, cx);
    attrs[Index(look, cy, cx)] == AttrAt(vram, Src(look, cy, cx))
  }

  /** A refresh that gives up because the screen is too big draws nothing and forgets nothing, yet
      it records fonts, addresses and the plane-2 flag: a change it was the first to see is
      not seen again. */
  lemma GivenUpForgets(sc: Scene, now: bool)
    requires sc.Wf() && TooBig(sc.vga)
    ensures var d := TextSpec(sc, now);
            d.fb == sc.fb && d.attrs == sc.attrs && d.palette == sc.palette && !TextTouched(d.s, d.vga)
  {
  }
}
