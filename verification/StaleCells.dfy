/** Exactly when an incremental refresh of text leaves another picture than a full one. */
module StaleCells {
  import opened VgaRegs
  import opened Grid
  import opened Pixels
  import opened Glyphs
  import opened Scanout
  import opened Text
  import opened Surface
  import opened SurfaceRuns
  import opened TextRuns
  import opened StaleLines

  /** Pixel (r, x) of a cell; black where its font byte would lie outside memory. */
  function CellDot(look: Look, vram: seq<bv8>, attr: nat, cursor: bool, r: nat, x: nat): Pixel
    requires CellWidth(look.cw) && |look.palette| == 16 && attr < 0x1_0000 && x < look.cw
  {
    if At(GlyphAt(look, attr), 4, r) < |vram| then CellPixel(look, vram, attr, cursor, r, x) else 0
  }

  lemma ShownCellDot(fb: seq<Pixel>, o: nat, look: Look, vram: seq<bv8>, attr: nat, cursor: bool, r: nat, x: nat)
    requires CellWidth(look.cw) && |look.palette| == 16 && attr < 0x1_0000 && r < look.ch && x < look.cw
    requires CellShows(fb, o, look, vram, attr, cursor)
    ensures At(o, look.stride, r) + x < |fb| && fb[At(o, look.stride, r) + x] == CellDot(look, vram, attr, cursor, r, x)
  {
    assert CellRowShows(fb, At(o, look.stride, r), look, vram, attr, cursor, r);
    assert fb[At(o, look.stride, r) + x] == CellPixel(look, vram, attr, cursor, r, x);
  }

  // ------------------------------------------------------------------
  // What every cell keeps, the loop keeps

  /** Handling cell (cy, cx) takes a state that satisfies `inv` there to one that does at the next cell. */
  ghost predicate CellKeeps(inv: (Cells, nat, nat) -> bool, look: Look, vram: seq<bv8>, cells: nat)
    requires look.Drawable(cells) && |vram| == VRAM_ACTUAL_SIZE
  {
    forall q: Cells, cy, cx {:trigger DrawCell(q, look, vram, false, cy, cx)}
      | |q.fb| == cells && |q.attrs| == CH_ATTR_SIZE && 0 <= cy < look.rows && 0 <= cx < look.cols && inv(q, cy, cx) ::
      inv(DrawCell(q, look, vram, false, cy, cx), cy, cx + 1)
  }

  lemma {:induction false} RowKeeps(inv: (Cells, nat, nat) -> bool, p: Cells, look: Look, vram: seq<bv8>, cells: nat,
                                    cy: nat, n: nat)
    requires look.Drawable(cells) && |p.fb| == cells && |vram| == VRAM_ACTUAL_SIZE && |p.attrs| == CH_ATTR_SIZE
    requires cy < look.rows && n <= look.cols
    requires CellKeeps(inv, look, vram, cells) && inv(p, cy, 0)
    ensures inv(DrawRowCells(p, look, vram, false, cy, n), cy, n)
    decreases n
  {
    if n > 0 {
      RowKeeps(inv, p, look, vram, cells, cy, n - 1);
    }
  }

  /** At the end of a row the next one begins. */
  ghost predicate NextRowKeeps(inv: (Cells, nat, nat) -> bool, look: Look) {
    forall q, cy | 0 <= cy < look.rows && inv(q, cy, look.cols) :: inv(q, cy + 1, 0)
  }

  lemma RowDoneKeeps(inv: (Cells, nat, nat) -> bool, p: Cells, look: Look, vram: seq<bv8>, cells: nat, cy: nat)
    requires look.Drawable(cells) && |p.fb| == cells && |vram| == VRAM_ACTUAL_SIZE && |p.attrs| == CH_ATTR_SIZE
    requires CellKeeps(inv, look, vram, cells) && cy < look.rows && inv(p, cy, 0) && NextRowKeeps(inv, look)
    ensures inv(DrawRowCells(p, look, vram, false, cy, look.cols), cy + 1, 0)
  {
    RowKeeps(inv, p, look, vram, cells, cy, look.cols);
  }

  /** Drawing row cy takes a state that satisfies `inv` at its start to one that does at the next row's. */
  ghost predicate WholeRowsKeep(inv: (Cells, nat, nat) -> bool, look: Look, vram: seq<bv8>, cells: nat)
    requires look.Drawable(cells) && |vram| == VRAM_ACTUAL_SIZE
  {
    forall q: Cells, cy {:trigger DrawRowCells(q, look, vram, false, cy, look.cols)}
      | |q.fb| == cells && |q.attrs| == CH_ATTR_SIZE && 0 <= cy < look.rows && inv(q, cy, 0) ::
      inv(DrawRowCells(q, look, vram, false, cy, look.cols), cy + 1, 0)
  }

  lemma {:induction false} RowsKeep(inv: (Cells, nat, nat) -> bool, p: Cells, look: Look, vram: seq<bv8>, cells: nat,
                                    n: nat)
    requires look.Drawable(cells) && |p.fb| == cells && |vram| == VRAM_ACTUAL_SIZE && |p.attrs| == CH_ATTR_SIZE
    requires WholeRowsKeep(inv, look, vram, cells) && n <= look.rows && inv(p, 0, 0)
    ensures inv(DrawCells(p, look, vram, false, n), n, 0)
    decreases n
  {
    if n > 0 {
      RowsKeep(inv, p, look, vram, cells, n - 1);
    }
  }

  lemma CellsKeep(inv: (Cells, nat, nat) -> bool, p: Cells, look: Look, vram: seq<bv8>, n: nat)
    requires look.Drawable(|p.fb|) && |vram| == VRAM_ACTUAL_SIZE && |p.attrs| == CH_ATTR_SIZE && n <= look.rows
    requires CellKeeps(inv, look, vram, |p.fb|) && inv(p, 0, 0) && NextRowKeeps(inv, look)
    ensures inv(DrawCells(p, look, vram, false, n), n, 0)
  {
    forall q: Cells, cy {:trigger DrawRowCells(q, look, vram, false, cy, look.cols)}
      | |q.fb| == |p.fb| && |q.attrs| == CH_ATTR_SIZE && 0 <= cy < look.rows && inv(q, cy, 0)
      ensures inv(DrawRowCells(q, look, vram, false, cy, look.cols), cy + 1, 0)
    {
      RowDoneKeeps(inv, q, look, vram, |p.fb|, cy);
    }
    RowsKeep(inv, p, look, vram, |p.fb|, n);
  }

  // ------------------------------------------------------------------
  // Cells that are not redrawn

  /** The attribute remembered for a cell is the one in memory. */
  ghost predicate Kept(attrs: seq<int>, look: Look, vram: seq<bv8>, cy: nat, cx: nat) {
    && Index(look, cy, cx) < |attrs| && Src(look, cy, cx) + 2 <= |vram|
    && attrs[Index(look, cy, cx)] == AttrAt(vram, Src(look, cy, cx))
  }

  /** A kept cell other cells were drawn beside. */
  lemma CellKept(p: Cells, look: Look, vram: seq<bv8>, cy: nat, cx: nat, ey: nat, ex: nat, r: nat, x: nat, i: nat)
    requires look.Drawable(|p.fb|) && |vram| == VRAM_ACTUAL_SIZE && |p.attrs| == CH_ATTR_SIZE && cy < look.rows
    requires cx < look.cols
    requires ey < look.rows && ex < look.cols && r < look.ch && x < look.cw && Kept(p.attrs, look, vram, ey, ex)
    requires i == At(Dest(look, ey, ex), look.stride, r) + x && i < |p.fb|
    ensures var q := DrawCell(p, look, vram, false, cy, cx);
      Kept(q.attrs, look, vram, ey, ex) && q.fb[i] == p.fb[i]
  {
    if !(ey == cy && ex == cx) {
      CellSource(look, |p.fb|, cy, cx);
      CellInside(look, |p.fb|, cy, cx);
      ColumnInside(look, cx);
      PaintCellShows(p.fb, Dest(look, cy, cx), look, vram, AttrAt(vram, Src(look, cy, cx)), IsCursor(look, cy, cx));
      CellsDisjoint(look, |p.fb|, ey, ex, r, x, cy, cx);
      if Index(look, ey, ex) == Index(look, cy, cx) {
        CellUnique(0, look.cols, ey, ex, cy, cx);
        assert false;
      }
    }
  }

  lemma CellsKept(p: Cells, look: Look, vram: seq<bv8>, n: nat, ey: nat, ex: nat, r: nat, x: nat, i: nat)
    requires look.Drawable(|p.fb|) && |vram| == VRAM_ACTUAL_SIZE && |p.attrs| == CH_ATTR_SIZE && n <= look.rows
    requires ey < look.rows && ex < look.cols && r < look.ch && x < look.cw && Kept(p.attrs, look, vram, ey, ex)
    requires i == At(Dest(look, ey, ex), look.stride, r) + x && i < |p.fb|
    ensures var q := DrawCells(p, look, vram, false, n);
      Kept(q.attrs, look, vram, ey, ex) && q.fb[i] == p.fb[i]
  {
    var inv := (q: Cells, cy: nat, cx: nat) => |q.fb| == |p.fb| && Kept(q.attrs, look, vram, ey, ex)
      && q.fb[i] == p.fb[i];
    forall q: Cells, cy, cx {:trigger DrawCell(q, look, vram, false, cy, cx)}
      | |q.fb| == |p.fb| && |q.attrs| == CH_ATTR_SIZE && 0 <= cy < look.rows && 0 <= cx < look.cols && inv(q, cy, cx)
      ensures inv(DrawCell(q, look, vram, false, cy, cx), cy, cx + 1)
    {
      CellKept(q, look, vram, cy, cx, ey, ex, r, x, i);
    }
    CellsKeep(inv, p, look, vram, n);
  }

  // ------------------------------------------------------------------
  // Cells that are redrawn

  lemma CellRedrawn(p: Cells, look: Look, vram: seq<bv8>, cy: nat, cx: nat)
    requires look.Drawable(|p.fb|) && |vram| == VRAM_ACTUAL_SIZE && |p.attrs| == CH_ATTR_SIZE && cy < look.rows
    requires cx < look.cols
    requires !Kept(p.attrs, look, vram, cy, cx)
    ensures CellCurrent(DrawCell(p, look, vram, false, cy, cx), look, vram, cy, cx)
  {
    CellSource(look, |p.fb|, cy, cx);
    assert DrawCell(p, look, vram, false, cy, cx) == DrawCell(p, look, vram, true, cy, cx);
    DrawCellCurrent(p, look, vram, true, cy, cx);
  }

  /** Another cell drawn leaves a cell to be redrawn so. */
  lemma StillToRedraw(p: Cells, look: Look, vram: seq<bv8>, cy: nat, cx: nat, ey: nat, ex: nat)
    requires look.Drawable(|p.fb|) && |vram| == VRAM_ACTUAL_SIZE && |p.attrs| == CH_ATTR_SIZE && cy < look.rows
    requires cx < look.cols
    requires ey < look.rows && ex < look.cols && !(ey == cy && ex == cx) && !Kept(p.attrs, look, vram, ey, ex)
    ensures !Kept(DrawCell(p, look, vram, false, cy, cx).attrs, look, vram, ey, ex)
  {
    CellSource(look, |p.fb|, cy, cx);
    CellSource(look, |p.fb|, ey, ex);
    if Index(look, ey, ex) == Index(look, cy, cx) {
      CellUnique(0, look.cols, ey, ex, cy, cx);
      assert false;
    }
  }

  /** A cell that does not keep its attribute, once the loop has reached cell (cy, cx). */
  ghost predicate Handled(p: Cells, look: Look, vram: seq<bv8>, cy: nat, cx: nat, ey: nat, ex: nat)
    requires CellWidth(look.cw) && |look.palette| == 16
  {
    if ey < cy || (ey == cy && ex < cx) then CellCurrent(p, look, vram, ey, ex) else !Kept(p.attrs, look, vram, ey, ex)
  }

  lemma HandleCell(p: Cells, look: Look, vram: seq<bv8>, cy: nat, cx: nat, ey: nat, ex: nat)
    requires look.Drawable(|p.fb|) && |vram| == VRAM_ACTUAL_SIZE && |p.attrs| == CH_ATTR_SIZE && cy < look.rows
    requires cx < look.cols
    requires ey < look.rows && ex < look.cols && Handled(p, look, vram, cy, cx, ey, ex)
    ensures Handled(DrawCell(p, look, vram, false, cy, cx), look, vram, cy, cx + 1, ey, ex)
  {
    if ey == cy && ex == cx {
      CellRedrawn(p, look, vram, cy, cx);
    } else if ey < cy || (ey == cy && ex < cx) {
      DrawCellOthers(p, look, vram, false, cy, cx, ey, ex);
    } else {
      StillToRedraw(p, look, vram, cy, cx, ey, ex);
    }
  }

  /** Once the loop is done such a cell is current. */
  lemma HandleRows(p: Cells, look: Look, vram: seq<bv8>, n: nat, ey: nat, ex: nat)
    requires look.Drawable(|p.fb|) && |vram| == VRAM_ACTUAL_SIZE && |p.attrs| == CH_ATTR_SIZE && n <= look.rows
    requires ey < look.rows && ex < look.cols && !Kept(p.attrs, look, vram, ey, ex)
    ensures Handled(DrawCells(p, look, vram, false, n), look, vram, n, 0, ey, ex)
  {
    var inv := (q: Cells, cy: nat, cx: nat) => CellWidth(look.cw) && |look.palette| == 16
      && Handled(q, look, vram, cy, cx, ey, ex);
    forall q: Cells, cy, cx {:trigger DrawCell(q, look, vram, false, cy, cx)}
      | |q.fb| == |p.fb| && |q.attrs| == CH_ATTR_SIZE && 0 <= cy < look.rows && 0 <= cx < look.cols && inv(q, cy, cx)
      ensures inv(DrawCell(q, look, vram, false, cy, cx), cy, cx + 1)
    {
      HandleCell(q, look, vram, cy, cx, ey, ex);
    }
    CellsKeep(inv, p, look, vram, n);
  }

  // ------------------------------------------------------------------
  // Pixels of cells that are kept

  /** Pixel (r, x) of the rectangle at o. */
  function Spot(o: nat, stride: nat, r: nat, x: nat): nat {
    At(o, stride, r) + x
  }

  function PixelOf(look: Look, cy: nat, cx: nat, r: nat, x: nat): nat {
    Spot(Dest(look, cy, cx), look.stride, r, x)
  }

  /** Pixel (r, x) of a cell that keeps its attribute. */
  ghost predicate KeptDot(cells: nat, attrs: seq<int>, look: Look, vram: seq<bv8>, cy: nat, cx: nat, r: nat, x: nat) {
    && cy < look.rows && cx < look.cols && r < look.ch && x < look.cw && PixelOf(look, cy, cx, r, x) < cells
    && Kept(attrs, look, vram, cy, cx)
  }

  /** What memory makes of it. */
  function ScreenDot(look: Look, vram: seq<bv8>, cy: nat, cx: nat, r: nat, x: nat): Pixel
    requires CellWidth(look.cw) && |look.palette| == 16 && x < look.cw && Src(look, cy, cx) + 2 <= |vram|
  {
    CellDot(look, vram, AttrAt(vram, Src(look, cy, cx)), IsCursor(look, cy, cx), r, x)
  }

  ghost predicate WrongCellDot(p: Cells, look: Look, vram: seq<bv8>, cy: nat, cx: nat, r: nat, x: nat)
    requires CellWidth(look.cw) && |look.palette| == 16
  {
    && KeptDot(|p.fb|, p.attrs, look, vram, cy, cx, r, x)
    && p.fb[PixelOf(look, cy, cx, r, x)] != ScreenDot(look, vram, cy, cx, r, x)
  }

  lemma FullDot(p: Cells, look: Look, vram: seq<bv8>, cy: nat, cx: nat, r: nat, x: nat)
    requires look.Drawable(|p.fb|) && |vram| == VRAM_ACTUAL_SIZE && |p.attrs| == CH_ATTR_SIZE
    requires cy < look.rows && cx < look.cols && r < look.ch && x < look.cw
    ensures Src(look, cy, cx) + 2 <= |vram| && PixelOf(look, cy, cx, r, x) < |p.fb|
    ensures DrawCells(p, look, vram, true, look.rows).fb[PixelOf(look, cy, cx, r, x)]
        == ScreenDot(look, vram, cy, cx, r, x)
  {
    EveryCellCurrent(p, look, vram, true);
    CurrentDot(DrawCells(p, look, vram, true, look.rows), look, vram, cy, cx, r, x);
  }

  lemma CurrentDot(d: Cells, look: Look, vram: seq<bv8>, cy: nat, cx: nat, r: nat, x: nat)
    requires CellWidth(look.cw) && |look.palette| == 16 && r < look.ch && x < look.cw
    requires CellCurrent(d, look, vram, cy, cx)
    ensures Src(look, cy, cx) + 2 <= |vram| && PixelOf(look, cy, cx, r, x) < |d.fb|
    ensures d.fb[PixelOf(look, cy, cx, r, x)] == ScreenDot(look, vram, cy, cx, r, x)
  {
    ShownCellDot(d.fb, Dest(look, cy, cx), look, vram, AttrAt(vram, Src(look, cy, cx)), IsCursor(look, cy, cx), r, x);
  }

  lemma WrongCellDotStays(p: Cells, look: Look, vram: seq<bv8>, cy: nat, cx: nat, r: nat, x: nat)
    requires look.Drawable(|p.fb|) && |vram| == VRAM_ACTUAL_SIZE && |p.attrs| == CH_ATTR_SIZE
    requires WrongCellDot(p, look, vram, cy, cx, r, x)
    ensures DrawCells(p, look, vram, false, look.rows).fb != DrawCells(p, look, vram, true, look.rows).fb
  {
    var i := PixelOf(look, cy, cx, r, x);
    CellsKept(p, look, vram, look.rows, cy, cx, r, x, i);
    FullDot(p, look, vram, cy, cx, r, x);
    assert DrawCells(p, look, vram, false, look.rows).fb[i] != DrawCells(p, look, vram, true, look.rows).fb[i];
  }

  /** A cell that shows every dot. */
  lemma CellOfDots(fb: seq<Pixel>, look: Look, vram: seq<bv8>, cy: nat, cx: nat)
    requires look.Drawable(|fb|) && |vram| == VRAM_ACTUAL_SIZE && cy < look.rows && cx < look.cols
    requires Src(look, cy, cx) + 2 <= |vram|
    requires forall r, x | 0 <= r < look.ch && 0 <= x < look.cw && PixelOf(look, cy, cx, r, x) < |fb| ::
               fb[PixelOf(look, cy, cx, r, x)] == ScreenDot(look, vram, cy, cx, r, x)
    ensures CellShows(fb, Dest(look, cy, cx), look, vram, AttrAt(vram, Src(look, cy, cx)), IsCursor(look, cy, cx))
  {
    var (o, attr, cursor) := (Dest(look, cy, cx), AttrAt(vram, Src(look, cy, cx)), IsCursor(look, cy, cx));
    CellInside(look, |fb|, cy, cx);
    forall r {:trigger At(o, look.stride, r)} | 0 <= r < look.ch
      ensures CellRowShows(fb, At(o, look.stride, r), look, vram, attr, cursor, r)
    {
      AtMono(o, look.stride, r, look.ch - 1);
      forall x | 0 <= x < look.cw
        ensures fb[At(o, look.stride, r) + x] == CellDot(look, vram, attr, cursor, r, x)
      {
        assert fb[PixelOf(look, cy, cx, r, x)] == ScreenDot(look, vram, cy, cx, r, x);
      }
      RowOfDots(fb, At(o, look.stride, r), look, vram, attr, cursor, r);
    }
  }

  lemma RowOfDots(fb: seq<Pixel>, o: nat, look: Look, vram: seq<bv8>, attr: nat, cursor: bool, r: nat)
    requires look.Drawable(|fb|) && |vram| == VRAM_ACTUAL_SIZE && attr < 0x1_0000 && r < look.ch && o + look.cw <= |fb|
    requires forall x | 0 <= x < look.cw :: fb[o + x] == CellDot(look, vram, attr, cursor, r, x)
    ensures CellRowShows(fb, o, look, vram, attr, cursor, r)
  {
    AtProduct(GlyphAt(look, attr), 4, r);
    forall x {:trigger CellPixel(look, vram, attr, cursor, r, x)} | 0 <= x < look.cw
      ensures fb[o + x] == CellPixel(look, vram, attr, cursor, r, x)
    {
      assert fb[o + x] == CellDot(look, vram, attr, cursor, r, x);
    }
  }

  lemma ShowsSame(fb: seq<Pixel>, g: seq<Pixel>, o: nat, look: Look, vram: seq<bv8>, attr: nat, cursor: bool)
    requires CellWidth(look.cw) && |look.palette| == 16 && attr < 0x1_0000 && |g| == |fb|
    requires CellShows(fb, o, look, vram, attr, cursor)
    requires forall r, x | 0 <= r < look.ch && 0 <= x < look.cw && Spot(o, look.stride, r, x) < |fb| ::
               g[Spot(o, look.stride, r, x)] == fb[Spot(o, look.stride, r, x)]
    ensures CellShows(g, o, look, vram, attr, cursor)
  {
    forall r {:trigger At(o, look.stride, r)} | 0 <= r < look.ch
      ensures CellRowShows(g, At(o, look.stride, r), look, vram, attr, cursor, r)
    {
      assert CellRowShows(fb, At(o, look.stride, r), look, vram, attr, cursor, r);
      forall x {:trigger CellPixel(look, vram, attr, cursor, r, x)} | 0 <= x < look.cw
        ensures g[At(o, look.stride, r) + x] == CellPixel(look, vram, attr, cursor, r, x)
      {
        assert fb[Spot(o, look.stride, r, x)] == CellPixel(look, vram, attr, cursor, r, x);
      }
    }
  }

  /** A kept cell shows afterwards what it showed before. */
  lemma KeptShows(p: Cells, was: Look, before: seq<bv8>, attr: nat, on: bool, look: Look, vram: seq<bv8>, cy: nat,
                  cx: nat)
    requires look.Drawable(|p.fb|) && |vram| == VRAM_ACTUAL_SIZE && |p.attrs| == CH_ATTR_SIZE && cy < look.rows
    requires cx < look.cols
    requires was.cw == look.cw && was.ch == look.ch && was.stride == look.stride && |was.palette| == 16
    requires attr < 0x1_0000
    requires Kept(p.attrs, look, vram, cy, cx) && CellShows(p.fb, Dest(look, cy, cx), was, before, attr, on)
    ensures Kept(DrawCells(p, look, vram, false, look.rows).attrs, look, vram, cy, cx)
    ensures CellShows(DrawCells(p, look, vram, false, look.rows).fb, Dest(look, cy, cx), was, before, attr, on)
  {
    var (q, o) := (DrawCells(p, look, vram, false, look.rows), Dest(look, cy, cx));
    CellInside(look, |p.fb|, cy, cx);
    AtMono(o, look.stride, 0, look.ch - 1);
    CellsKept(p, look, vram, look.rows, cy, cx, 0, 0, PixelOf(look, cy, cx, 0, 0));
    forall r, x | 0 <= r < was.ch && 0 <= x < was.cw && Spot(o, was.stride, r, x) < |p.fb|
      ensures q.fb[Spot(o, was.stride, r, x)] == p.fb[Spot(o, was.stride, r, x)]
    {
      CellsKept(p, look, vram, look.rows, cy, cx, r, x, Spot(o, was.stride, r, x));
    }
    ShowsSame(p.fb, q.fb, o, was, before, attr, on);
  }

  /** If every kept cell is shown, an incremental redraw leaves what redrawing every cell would. */
  lemma KeptShown(p: Cells, look: Look, vram: seq<bv8>)
    requires look.Drawable(|p.fb|) && |vram| == VRAM_ACTUAL_SIZE && |p.attrs| == CH_ATTR_SIZE
    requires forall cy, cx | 0 <= cy < look.rows && 0 <= cx < look.cols && Kept(p.attrs, look, vram, cy, cx) ::
               CellShows(p.fb, Dest(look, cy, cx), look, vram, AttrAt(vram, Src(look, cy, cx)), IsCursor(look, cy, cx))
    ensures DrawCells(p, look, vram, false, look.rows).fb == DrawCells(p, look, vram, true, look.rows).fb
  {
    var q := DrawCells(p, look, vram, false, look.rows);
    forall cy, cx {:trigger Src(look, cy, cx)} | 0 <= cy < look.rows && 0 <= cx < look.cols
      ensures Src(look, cy, cx) + 2 <= |vram|
      ensures CellShows(q.fb, Dest(look, cy, cx), look, vram, AttrAt(vram, Src(look, cy, cx)), IsCursor(look, cy, cx))
    {
      if Kept(p.attrs, look, vram, cy, cx) {
        KeptShows(p, look, vram, AttrAt(vram, Src(look, cy, cx)), IsCursor(look, cy, cx), look, vram, cy, cx);
      } else {
        HandleRows(p, look, vram, look.rows, cy, cx);
      }
    }
    CellsCurrent(p, look, vram, true);
    SameScreen(p, look, vram, false);
  }

  lemma NoWrongCellDot(p: Cells, look: Look, vram: seq<bv8>)
    requires look.Drawable(|p.fb|) && |vram| == VRAM_ACTUAL_SIZE && |p.attrs| == CH_ATTR_SIZE
    requires forall cy, cx, r, x :: !WrongCellDot(p, look, vram, cy, cx, r, x)
    ensures DrawCells(p, look, vram, false, look.rows).fb == DrawCells(p, look, vram, true, look.rows).fb
  {
    forall cy, cx | 0 <= cy < look.rows && 0 <= cx < look.cols && Kept(p.attrs, look, vram, cy, cx)
      ensures CellShows(p.fb, Dest(look, cy, cx), look, vram, AttrAt(vram, Src(look, cy, cx)), IsCursor(look, cy, cx))
    {
      forall r, x | 0 <= r < look.ch && 0 <= x < look.cw && PixelOf(look, cy, cx, r, x) < |p.fb|
        ensures p.fb[PixelOf(look, cy, cx, r, x)] == ScreenDot(look, vram, cy, cx, r, x)
      {
        assert !WrongCellDot(p, look, vram, cy, cx, r, x);
      }
      CellOfDots(p.fb, look, vram, cy, cx);
    }
    KeptShown(p, look, vram);
  }

  // ------------------------------------------------------------------
  // When each cell was drawn

  /** What a remembered cell was last drawn from, unless something else has been drawn over it since. */
  datatype Origin = Overdrawn | From(d: Drawn)

  /** The attribute remembered for cell i is the one in memory. */
  predicate KeptAt(attrs: seq<int>, start: nat, vram: seq<bv8>, i: nat) {
    i < |attrs| && start + 4 * i + 2 <= |vram| && attrs[i] == AttrAt(vram, start + 4 * i)
  }

  /** History: a text refresh that draws draws every cell if a full redraw is due, and those that do not
      keep their attribute otherwise; any other refresh draws over the cells. */
  function NextCells(w: World, cells: seq<Origin>, e: Event): (next: seq<Origin>)
    requires StepOk(w, e) && |cells| == CH_ATTR_SIZE
    ensures |next| == CH_ATTR_SIZE
  {
    if !e.Refresh? then cells
    else if GraphicMode(w.sc.vga) != GMODE_TEXT then NoCells()
    else if TooBig(w.sc.vga) then cells
    else Origins(cells, Drawn(w.sc.vga, w.sc.vram), CursorAttrs(w.sc.attrs, w.sc.s, w.sc.vga), FullDue(w.sc, e.full))
  }

  function NoCells(): (cells: seq<Origin>)
    ensures |cells| == CH_ATTR_SIZE && forall i :: 0 <= i < CH_ATTR_SIZE ==> cells[i] == Overdrawn
  {
    seq(CH_ATTR_SIZE, i => Overdrawn)
  }

  function Origins(cells: seq<Origin>, now: Drawn, attrs: seq<int>, full: bool): (next: seq<Origin>)
    requires |cells| == CH_ATTR_SIZE
    ensures |next| == CH_ATTR_SIZE
  {
    seq(CH_ATTR_SIZE, i requires 0 <= i < CH_ATTR_SIZE =>
          if full || !KeptAt(attrs, LookOf(now.vga).start, now.vram, i) then From(now) else cells[i])
  }

  function CellsAfter(w: World, cells: seq<Origin>, es: seq<Event>): (next: seq<Origin>)
    requires w.Wf() && RunOk(w, es) && |cells| == CH_ATTR_SIZE
    ensures |next| == CH_ATTR_SIZE
    decreases |es|
  {
    if es == [] then cells else CellsAfter(Step(w, es[0]), NextCells(w, cells, es[0]), es[1..])
  }

  /** Through these registers the screen has the size and the colours it had at the last refresh that drew. */
  predicate SameSizeAndColours(s: Surf, palette: seq<Pixel>, v: Vga)
    requires |palette| == 256
  {
    !TextGeometryChanged(s, v) && palette == Repaint16(palette, v)
  }

  /** Cell i shows what it was drawn from, as far as it is remembered. */
  ghost predicate ShowsOrigin(p: Cells, o: Origin, i: nat) {
    o.From? ==>
      forall cy, cx | 0 <= cy < LookOf(o.d.vga).rows && 0 <= cx < LookOf(o.d.vga).cols
                      && Index(LookOf(o.d.vga), cy, cx) == i ::
        Remembered(p, LookOf(o.d.vga), o.d.vram, cy, cx)
  }

  ghost predicate CellsInv(s: Surf, palette: seq<Pixel>, p: Cells, cells: seq<Origin>)
    requires |palette| == 256
  {
    && |cells| == CH_ATTR_SIZE == |p.attrs|
    && SizesInv(s, palette, cells)
    && (forall i | 0 <= i < CH_ATTR_SIZE :: ShowsOrigin(p, cells[i], i))
  }

  /** Two looks that put every cell at the same place. */
  predicate SamePlaces(a: Look, b: Look) {
    a.cw == b.cw && a.ch == b.ch && a.stride == b.stride && a.cols == b.cols && a.rows == b.rows
  }

  lemma SamePlacesOf(s: Surf, v: Vga, w: Vga)
    requires !TextGeometryChanged(s, v) && !TextGeometryChanged(s, w)
    ensures SamePlaces(LookOf(v), LookOf(w))
  {
    SameSize(s, v, w);
  }

  lemma KeptIs(attrs: seq<int>, look: Look, vram: seq<bv8>, cells: nat, cy: nat, cx: nat)
    requires look.Drawable(cells) && |vram| == VRAM_ACTUAL_SIZE && |attrs| == CH_ATTR_SIZE && cy < look.rows
    requires cx < look.cols
    ensures Kept(attrs, look, vram, cy, cx) <==> KeptAt(attrs, look.start, vram, Index(look, cy, cx))
  {
    CellSource(look, cells, cy, cx);
  }

  /** A kept cell still shows what it was drawn from. */
  lemma KeptRemembered(p: Cells, was: Look, before: seq<bv8>, look: Look, vram: seq<bv8>, cy: nat, cx: nat)
    requires look.Drawable(|p.fb|) && |vram| == VRAM_ACTUAL_SIZE && |p.attrs| == CH_ATTR_SIZE && cy < look.rows
    requires cx < look.cols
    requires SamePlaces(was, look) && |was.palette| == 16 && Remembered(p, was, before, cy, cx)
    requires Kept(p.attrs, look, vram, cy, cx)
    ensures Remembered(DrawCells(p, look, vram, false, look.rows), was, before, cy, cx)
  {
    KeptShows(p, was, before, AttrAt(vram, Src(look, cy, cx)), IsCursor(was, cy, cx), look, vram, cy, cx);
  }

  // ------------------------------------------------------------------
  // Every refresh keeps the history

  lemma PartialOrigin(p: Cells, o: Origin, now: Drawn, i: nat)
    requires LookOf(now.vga).Drawable(|p.fb|) && |now.vram| == VRAM_ACTUAL_SIZE && |p.attrs| == CH_ATTR_SIZE
    requires i < CH_ATTR_SIZE
    requires o.From? ==> SamePlaces(LookOf(o.d.vga), LookOf(now.vga))
    requires ShowsOrigin(p, o, i)
    ensures var look := LookOf(now.vga);
      ShowsOrigin(DrawCells(p, look, now.vram, false, look.rows),
                  if KeptAt(p.attrs, look.start, now.vram, i) then o else From(now), i)
  {
    var look := LookOf(now.vga);
    var q := DrawCells(p, look, now.vram, false, look.rows);
    if KeptAt(p.attrs, look.start, now.vram, i) {
      if o.From? {
        var was := LookOf(o.d.vga);
        forall cy, cx | 0 <= cy < was.rows && 0 <= cx < was.cols && Index(was, cy, cx) == i
          ensures Remembered(q, was, o.d.vram, cy, cx)
        {
          KeptIs(p.attrs, look, now.vram, |p.fb|, cy, cx);
          KeptRemembered(p, was, o.d.vram, look, now.vram, cy, cx);
        }
      }
    } else {
      forall cy, cx | 0 <= cy < look.rows && 0 <= cx < look.cols && Index(look, cy, cx) == i
        ensures Remembered(q, look, now.vram, cy, cx)
      {
        KeptIs(p.attrs, look, now.vram, |p.fb|, cy, cx);
        HandleRows(p, look, now.vram, look.rows, cy, cx);
      }
    }
  }

  lemma FullOrigin(p: Cells, now: Drawn, i: nat)
    requires LookOf(now.vga).Drawable(|p.fb|) && |now.vram| == VRAM_ACTUAL_SIZE && |p.attrs| == CH_ATTR_SIZE
    ensures var look := LookOf(now.vga); ShowsOrigin(DrawCells(p, look, now.vram, true, look.rows), From(now), i)
  {
    var look := LookOf(now.vga);
    EveryCellCurrent(p, look, now.vram, true);
    forall cy, cx | 0 <= cy < look.rows && 0 <= cx < look.cols && Index(look, cy, cx) == i
      ensures Remembered(DrawCells(p, look, now.vram, true, look.rows), look, now.vram, cy, cx)
    {
      assert CellCurrent(DrawCells(p, look, now.vram, true, look.rows), look, now.vram, cy, cx);
    }
  }

  /** Forgetting cells does no harm. */
  lemma ForgottenShows(p: Cells, attrs: seq<int>, o: Origin, i: nat)
    requires |p.attrs| == CH_ATTR_SIZE == |attrs| && ShowsOrigin(p, o, i)
    requires forall k | 0 <= k < CH_ATTR_SIZE :: attrs[k] == p.attrs[k] || attrs[k] == INVALID
    ensures ShowsOrigin(Cells(p.fb, attrs), o, i)
  {
    if o.From? {
      var was := LookOf(o.d.vga);
      forall cy, cx | 0 <= cy < was.rows && 0 <= cx < was.cols && Index(was, cy, cx) == i
        ensures Remembered(Cells(p.fb, attrs), was, o.d.vram, cy, cx)
      {
        assert Remembered(p, was, o.d.vram, cy, cx);
      }
    }
  }

  lemma CursorForgets(s: Surf, palette: seq<Pixel>, p: Cells, v: Vga, cells: seq<Origin>)
    requires |palette| == 256 && CellsInv(s, palette, p, cells)
    ensures CellsInv(s, palette, Cells(p.fb, CursorAttrs(p.attrs, s, v)), cells)
  {
    forall i | 0 <= i < CH_ATTR_SIZE
      ensures ShowsOrigin(Cells(p.fb, CursorAttrs(p.attrs, s, v)), cells[i], i)
    {
      ForgottenShows(p, CursorAttrs(p.attrs, s, v), cells[i], i);
    }
  }

  /** What is remembered of the size is the same. */
  predicate SameGeometry(s: Surf, t: Surf) {
    t.scrWidth == s.scrWidth && t.scrHeight == s.scrHeight && t.lastCw == s.lastCw && t.lastCh == s.lastCh
    && t.lastDepth == s.lastDepth
  }

  /** Every origin has the size and colours remembered. */
  ghost predicate SizesInv(s: Surf, palette: seq<Pixel>, cells: seq<Origin>)
    requires |palette| == 256
  {
    forall i | 0 <= i < |cells| && cells[i].From? :: SameSizeAndColours(s, palette, cells[i].d.vga)
  }

  lemma PartialSizes(s: Surf, t: Surf, palette: seq<Pixel>, cells: seq<Origin>, now: Drawn, attrs: seq<int>)
    requires |palette| == 256 && SameSizeAndColours(s, palette, now.vga) && SizesInv(s, palette, cells)
    requires SameGeometry(s, t)
    requires |cells| == CH_ATTR_SIZE
    ensures SizesInv(t, palette, Origins(cells, now, attrs, false))
  {
    var next := Origins(cells, now, attrs, false);
    forall i | 0 <= i < |next| && next[i].From?
      ensures SameSizeAndColours(t, palette, next[i].d.vga)
    {
      assert next[i] == cells[i] || next[i] == From(now);
      SameSizeToo(s, t, palette, next[i].d.vga);
    }
  }

  lemma SameSizeToo(s: Surf, t: Surf, palette: seq<Pixel>, v: Vga)
    requires |palette| == 256 && SameSizeAndColours(s, palette, v) && SameGeometry(s, t)
    ensures SameSizeAndColours(t, palette, v)
  {
  }

  lemma PartialCells(s: Surf, t: Surf, palette: seq<Pixel>, p: Cells, cells: seq<Origin>, now: Drawn)
    requires LookOf(now.vga).Drawable(|p.fb|) && |now.vram| == VRAM_ACTUAL_SIZE && |palette| == 256
    requires SameSizeAndColours(s, palette, now.vga) && CellsInv(s, palette, p, cells) && SameGeometry(s, t)
    ensures var look := LookOf(now.vga);
            CellsInv(t, palette, DrawCells(p, look, now.vram, false, look.rows), Origins(cells, now, p.attrs, false))
  {
    PartialSizes(s, t, palette, cells, now, p.attrs);
    forall i | 0 <= i < CH_ATTR_SIZE
      ensures ShowsOrigin(DrawCells(p, LookOf(now.vga), now.vram, false, LookOf(now.vga).rows),
                          Origins(cells, now, p.attrs, false)[i], i)
    {
      OriginPlaces(s, palette, cells, now, i);
      PartialOrigin(p, cells[i], now, i);
    }
  }

  lemma OriginPlaces(s: Surf, palette: seq<Pixel>, cells: seq<Origin>, now: Drawn, i: nat)
    requires |palette| == 256 && SameSizeAndColours(s, palette, now.vga) && SizesInv(s, palette, cells) && i < |cells|
    ensures cells[i].From? ==> SamePlaces(LookOf(cells[i].d.vga), LookOf(now.vga))
  {
    if cells[i].From? {
      SamePlacesOf(s, cells[i].d.vga, now.vga);
    }
  }

  lemma FullCells(s: Surf, palette: seq<Pixel>, p: Cells, cells: seq<Origin>, now: Drawn)
    requires LookOf(now.vga).Drawable(|p.fb|) && |now.vram| == VRAM_ACTUAL_SIZE && |palette| == 256
    requires SameSizeAndColours(s, palette, now.vga) && |cells| == CH_ATTR_SIZE == |p.attrs|
    ensures var look := LookOf(now.vga);
            CellsInv(s, palette, DrawCells(p, look, now.vram, true, look.rows), Origins(cells, now, p.attrs, true))
  {
    forall i | 0 <= i < CH_ATTR_SIZE
      ensures ShowsOrigin(DrawCells(p, LookOf(now.vga), now.vram, true, LookOf(now.vga).rows),
                          Origins(cells, now, p.attrs, true)[i], i)
    {
      FullOrigin(p, now, i);
    }
  }

  lemma SpecCells(sc: Scene, full: bool, cells: seq<Origin>)
    requires sc.Wf() && !TooBig(sc.vga) && TextDrawable(sc.vga, |sc.fb|)
    requires CellsInv(sc.s, sc.palette, Cells(sc.fb, sc.attrs), cells)
    ensures var d := TextSpec(sc, full);
      CellsInv(d.s, d.palette, Cells(d.fb, d.attrs),
               Origins(cells, Drawn(sc.vga, sc.vram), CursorAttrs(sc.attrs, sc.s, sc.vga), TextFull(sc, full)))
  {
    var (p, now) := (Cells(sc.fb, CursorAttrs(sc.attrs, sc.s, sc.vga)), Drawn(sc.vga, sc.vram));
    TextRecords(sc.s, sc.vga);
    RepaintTwice(sc.palette, sc.vga);
    if TextFull(sc, full) {
      FullCells(TextSurf(sc.s, sc.vga), Repaint16(sc.palette, sc.vga), p, cells, now);
    } else {
      CursorForgets(sc.s, sc.palette, Cells(sc.fb, sc.attrs), sc.vga, cells);
      PartialCells(sc.s, TextSurf(sc.s, sc.vga), sc.palette, p, cells, now);
    }
  }

  lemma NoCellsInv(s: Surf, palette: seq<Pixel>, p: Cells)
    requires |palette| == 256 && |p.attrs| == CH_ATTR_SIZE
    ensures CellsInv(s, palette, p, NoCells())
  {
  }

  lemma GeometryInv(s: Surf, t: Surf, palette: seq<Pixel>, p: Cells, cells: seq<Origin>)
    requires |palette| == 256 && CellsInv(s, palette, p, cells) && SameGeometry(s, t)
    ensures CellsInv(t, palette, p, cells)
  {
  }

  ghost predicate HistoryInv(w: World, cells: seq<Origin>)
    requires w.Wf()
  {
    CellsInv(w.sc.s, w.sc.palette, Cells(w.sc.fb, w.sc.attrs), cells)
  }

  lemma StepCells(w: World, cells: seq<Origin>, e: Event)
    requires StepOk(w, e) && HistoryInv(w, cells)
    ensures HistoryInv(Step(w, e), NextCells(w, cells, e))
  {
    var x := Step(w, e);
    if !e.Refresh? {
      GeometryInv(w.sc.s, x.sc.s, w.sc.palette, Cells(w.sc.fb, w.sc.attrs), cells);
    } else if GraphicMode(w.sc.vga) != GMODE_TEXT {
      NoCellsInv(x.sc.s, x.sc.palette, Cells(x.sc.fb, x.sc.attrs));
    } else {
      RefreshCells(w, cells, e.full, e.ok);
    }
  }

  lemma RefreshCells(w: World, cells: seq<Origin>, full: bool, ok: bool)
    requires StepOk(w, Refresh(full, ok)) && HistoryInv(w, cells) && GraphicMode(w.sc.vga) == GMODE_TEXT
    ensures HistoryInv(Step(w, Refresh(full, ok)), NextCells(w, cells, Refresh(full, ok)))
  {
    var x := Step(w, Refresh(full, ok));
    if TooBig(w.sc.vga) {
      GeometryInv(w.sc.s, x.sc.s, w.sc.palette, Cells(w.sc.fb, w.sc.attrs), cells);
    } else {
      var next := w.sc.(s := w.sc.s.(gmode := GMODE_TEXT));
      GeometryInv(w.sc.s, next.s, w.sc.palette, Cells(w.sc.fb, w.sc.attrs), cells);
      SpecCells(next, full || GMODE_TEXT != w.sc.s.gmode, cells);
    }
  }

  lemma {:induction false} RunCells(w: World, cells: seq<Origin>, es: seq<Event>)
    requires w.Wf() && RunOk(w, es) && HistoryInv(w, cells)
    ensures HistoryInv(Run(w, es), CellsAfter(w, cells, es))
    decreases |es|
  {
    if es != [] {
      StepCells(w, cells, es[0]);
      RunCells(Step(w, es[0]), NextCells(w, cells, es[0]), es[1..]);
    }
  }

  // ------------------------------------------------------------------
  // The exact condition

  /** What pixel (r, x) of a kept cell shows: what the cell was drawn from makes of its attribute, or,
      where something else was drawn over it, what the destination holds. */
  function CellShowing(fb: seq<Pixel>, o: Origin, attr: nat, cy: nat, cx: nat, r: nat, x: nat, i: nat): Pixel
    requires attr < 0x1_0000 && i < |fb|
  {
    if o.From? && x < LookOf(o.d.vga).cw then
      CellDot(LookOf(o.d.vga), o.d.vram, attr, IsCursor(LookOf(o.d.vga), cy, cx), r, x)
    else fb[i]
  }

  /** A pixel of a cell that keeps its attribute which what the cell was drawn from makes otherwise than
      present registers and fonts. */
  ghost predicate StaleCellDot(p: Cells, o: Origin, look: Look, vram: seq<bv8>, cy: nat, cx: nat, r: nat, x: nat)
    requires CellWidth(look.cw) && |look.palette| == 16
  {
    && KeptDot(|p.fb|, p.attrs, look, vram, cy, cx, r, x)
    && CellShowing(p.fb, o, AttrAt(vram, Src(look, cy, cx)), cy, cx, r, x, PixelOf(look, cy, cx, r, x))
       != ScreenDot(look, vram, cy, cx, r, x)
  }

  lemma CellShowingIs(p: Cells, o: Origin, look: Look, vram: seq<bv8>, cy: nat, cx: nat, r: nat, x: nat)
    requires CellWidth(look.cw) && |look.palette| == 16 && KeptDot(|p.fb|, p.attrs, look, vram, cy, cx, r, x)
    requires o.From? ==> SamePlaces(LookOf(o.d.vga), look)
    requires ShowsOrigin(p, o, Index(look, cy, cx))
    ensures var i := PixelOf(look, cy, cx, r, x);
        CellShowing(p.fb, o, AttrAt(vram, Src(look, cy, cx)), cy, cx, r, x, i) == p.fb[i]
  {
    if o.From? {
      var was := LookOf(o.d.vga);
      assert Remembered(p, was, o.d.vram, cy, cx);
      ShownCellDot(p.fb, Dest(was, cy, cx), was, o.d.vram, AttrAt(vram, Src(look, cy, cx)), IsCursor(was, cy, cx),
                   r, x);
    }
  }

  lemma StaleCellIff(p: Cells, o: Origin, look: Look, vram: seq<bv8>, cy: nat, cx: nat, r: nat, x: nat)
    requires CellWidth(look.cw) && |look.palette| == 16 && (o.From? ==> SamePlaces(LookOf(o.d.vga), look))
    requires KeptDot(|p.fb|, p.attrs, look, vram, cy, cx, r, x) ==> ShowsOrigin(p, o, Index(look, cy, cx))
    ensures StaleCellDot(p, o, look, vram, cy, cx, r, x) <==> WrongCellDot(p, look, vram, cy, cx, r, x)
  {
    if KeptDot(|p.fb|, p.attrs, look, vram, cy, cx, r, x) {
      CellShowingIs(p, o, look, vram, cy, cx, r, x);
    }
  }

  /** The cells as an incremental refresh finds them, the cursor's old and new cell forgotten. */
  function Before(sc: Scene): Cells
    requires sc.Wf()
  {
    Cells(sc.fb, CursorAttrs(sc.attrs, sc.s, sc.vga))
  }

  /** Pixel (r, x) of cell (cy, cx) is stale. */
  ghost predicate StaleCell(w: World, cells: seq<Origin>, cy: nat, cx: nat, r: nat, x: nat)
    requires w.Wf() && |cells| == CH_ATTR_SIZE
  {
    var look := LookOf(w.sc.vga);
    Index(look, cy, cx) < CH_ATTR_SIZE
    && StaleCellDot(Before(w.sc), cells[Index(look, cy, cx)], look, w.sc.vram, cy, cx, r, x)
  }

  /** What a text refresh that need not redraw everything starts from. */
  ghost predicate PartialScreen(w: World) {
    && w.Wf() && CanRefresh(w.sc) && GraphicMode(w.sc.vga) == GMODE_TEXT == w.sc.s.gmode && !TooBig(w.sc.vga)
    && !TextFull(w.sc, false)
  }

  lemma ScreenDrawnAs(w: World)
    requires PartialScreen(w)
    ensures var (look, p) := (LookOf(w.sc.vga), Before(w.sc));
      && look.Drawable(|w.sc.fb|)
      && RefreshSpec(w.sc, false, w.touched, true).fb == DrawCells(p, look, w.sc.vram, false, look.rows).fb
      && RefreshSpec(w.sc, true, w.touched, true).fb == DrawCells(p, look, w.sc.vram, true, look.rows).fb
  {
    assert w.sc.(s := w.sc.s.(gmode := GMODE_TEXT)) == w.sc;
  }

  lemma StaleCellHere(w: World, cells: seq<Origin>, cy: nat, cx: nat, r: nat, x: nat)
    requires PartialScreen(w) && CellsInv(w.sc.s, w.sc.palette, Before(w.sc), cells)
    ensures StaleCell(w, cells, cy, cx, r, x) <==> WrongCellDot(Before(w.sc), LookOf(w.sc.vga), w.sc.vram, cy, cx, r, x)
  {
    var look := LookOf(w.sc.vga);
    if Index(look, cy, cx) < CH_ATTR_SIZE {
      var o := cells[Index(look, cy, cx)];
      if o.From? {
        SamePlacesOf(w.sc.s, o.d.vga, w.sc.vga);
      }
      StaleCellIff(Before(w.sc), o, look, w.sc.vram, cy, cx, r, x);
    }
  }

  lemma WrongCellDotIsWrong(w: World, cy: nat, cx: nat, r: nat, x: nat)
    requires PartialScreen(w) && WrongCellDot(Before(w.sc), LookOf(w.sc.vga), w.sc.vram, cy, cx, r, x)
    ensures Wrong(w)
  {
    ScreenDrawnAs(w);
    WrongCellDotStays(Before(w.sc), LookOf(w.sc.vga), w.sc.vram, cy, cx, r, x);
  }

  lemma FreshScreenIsRight(w: World, cells: seq<Origin>)
    requires PartialScreen(w) && CellsInv(w.sc.s, w.sc.palette, Before(w.sc), cells)
    requires forall cy, cx, r, x :: !StaleCell(w, cells, cy, cx, r, x)
    ensures !Wrong(w)
  {
    ScreenDrawnAs(w);
    forall cy: nat, cx: nat, r: nat, x: nat
      ensures !WrongCellDot(Before(w.sc), LookOf(w.sc.vga), w.sc.vram, cy, cx, r, x)
    {
      StaleCellHere(w, cells, cy, cx, r, x);
      assert !StaleCell(w, cells, cy, cx, r, x);
    }
    NoWrongCellDot(Before(w.sc), LookOf(w.sc.vga), w.sc.vram);
  }

  lemma StaleCellExactly(w: World, cells: seq<Origin>)
    requires PartialScreen(w) && HistoryInv(w, cells)
    ensures Wrong(w) <==> exists cy, cx, r, x :: StaleCell(w, cells, cy, cx, r, x)
  {
    CursorForgets(w.sc.s, w.sc.palette, Cells(w.sc.fb, w.sc.attrs), w.sc.vga, cells);
    if cy, cx, r, x :| StaleCell(w, cells, cy, cx, r, x) {
      StaleCellHere(w, cells, cy, cx, r, x);
      WrongCellDotIsWrong(w, cy, cx, r, x);
    } else {
      FreshScreenIsRight(w, cells);
    }
  }

  lemma TextNotDue(w: World)
    requires w.Wf() && CanRefresh(w.sc) && GraphicMode(w.sc.vga) == GMODE_TEXT && !TooBig(w.sc.vga)
    requires !FullDue(w.sc, false)
    ensures PartialScreen(w)
  {
  }

  /** After any run from start-up a text refresh for which no full redraw is due goes wrong exactly if
      some pixel of a cell that keeps its attribute differs between what the cell was last drawn from and
      present registers and fonts. */
  lemma CellsExactly(start: World, vga: Vga, vram: seq<bv8>, fb: seq<Pixel>, touched: seq<bool>, es: seq<Event>,
                     w: World, cells: seq<Origin>)
    requires |vram| == VRAM_ACTUAL_SIZE && |touched| == VRAM_PAGES && start == Initial(vga, vram, fb, touched)
    requires RunOk(start, es) && w == Run(start, es) && cells == CellsAfter(start, NoCells(), es)
    requires CanRefresh(w.sc) && GraphicMode(w.sc.vga) == GMODE_TEXT && !TooBig(w.sc.vga) && !FullDue(w.sc, false)
    ensures Wrong(w) <==> exists cy, cx, r, x :: StaleCell(w, cells, cy, cx, r, x)
  {
    NoCellsInv(start.sc.s, start.sc.palette, Cells(start.sc.fb, start.sc.attrs));
    RunCells(start, NoCells(), es);
    TextNotDue(w);
    StaleCellExactly(w, cells);
  }
}
