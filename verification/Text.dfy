/** The cell loop of surface_draw_text: a cell is redrawn when its character or attribute
    changed, when the cursor moved on or off it, or when a full update is due. */
module Text {
  import opened VgaRegs
  import opened Grid
  import opened Pixels
  import opened Glyphs
  import opened Scanout

  const CH_ATTR_SIZE: nat := 160 * 100

  /** last_ch_attr of a cell that must be redrawn: (uint32_t)-1, never a 16-bit cell. */
  const INVALID: int := -1

  // ------------------------------------------------------------------
  // What the registers ask for

  function FontOffset0(v: Vga): nat {
    (Flag(v.sr[3], 4) + 2 * Flag(v.sr[3], 0) + 4 * Flag(v.sr[3], 1)) * 8192 * 4 + 2
  }

  function FontOffset1(v: Vga): nat {
    (Flag(v.sr[3], 5) + 2 * Flag(v.sr[3], 2) + 4 * Flag(v.sr[3], 3)) * 8192 * 4 + 2
  }

  function CellWidthOf(v: Vga): (cw: nat)
    ensures CellWidth(cw)
  {
    if Doubled(v) then 16 else if Bit(v.sr[1], 0) == 0 then 9 else 8
  }

  function Columns(v: Vga): (n: nat)
    ensures n >= 1
  {
    v.cr[1] as int + 1
  }

  function Quotient(total: nat, each: nat): nat
    requires each > 0
  {
    total / each
  }

  function Rows(v: Vga): nat {
    if v.cr[6] == 100 then 100 else Quotient(DisplayEnd(v) + 1, RowScans(v) + 1)
  }

  /** Cursor location, in cells from the start of video memory. */
  function CursorPos(v: Vga): nat {
    v.cr[0x0e] as int * 256 + v.cr[0x0f] as int
  }

  /** The cursor's cell, or a huge number when it lies before the screen. */
  function CursorCell(v: Vga): nat {
    (CursorPos(v) - StartAddr(v)) % WORD
  }

  /** Everything a cell's pixels depend on besides video memory. */
  datatype Look = Look(font0: nat, font1: nat, cw: nat, ch: nat, cols: nat, rows: nat, stride: nat,
                       start: nat, lineOffset: nat, palette: seq<Pixel>, dup9: bool,
                       cursorSrc: nat, cursorShown: bool, cursorFirst: nat, cursorEnd: nat)
  {
    /** Cells in memory, contiguous, few enough to remember; a destination that fits. */
    ghost predicate Drawable(cells: nat) {
      && CellWidth(cw) && 1 <= ch <= 32 && |palette| == 16
      && font0 + 32 * 4 * 256 <= VRAM_ACTUAL_SIZE && font1 + 32 * 4 * 256 <= VRAM_ACTUAL_SIZE
      && lineOffset == 4 * cols && At(0, cw, cols) <= stride
      && At(0, cols, rows) <= CH_ATTR_SIZE
      && start + 4 * At(0, cols, rows) <= VRAM_ACTUAL_SIZE
      && At(0, stride * ch, rows) <= cells
    }
  }

  function LookOf(v: Vga): Look {
    Look(FontOffset0(v), FontOffset1(v), CellWidthOf(v), RowScans(v) + 1, Columns(v), Rows(v),
         Columns(v) * CellWidthOf(v), StartAddr(v) * 4 % WORD, LineOffset(v),
         seq(16, i requires 0 <= i < 16 => Colour16(v, i)), Bit(v.ar[0x10], 2) == 1,
         CursorPos(v) * 4, Bit(v.cr[0x0a], 5) == 0, (v.cr[0x0a] & 0x1f) as int, (v.cr[0x0b] & 0x1f) as int)
  }

  // ------------------------------------------------------------------
  // What a cell shows

  /** A character and its attribute. */
  function AttrAt(vram: seq<bv8>, src: nat): (attr: int)
    requires src + 2 <= |vram|
    ensures 0 <= attr < 0x1_0000
  {
    vram[src] as int + 256 * (vram[src + 1] as int)
  }

  function Foreground(look: Look, attr: nat): Pixel
    requires |look.palette| == 16 && attr < 0x1_0000
  {
    look.palette[attr / 256 % 16]
  }

  function Background(look: Look, attr: nat): Pixel
    requires |look.palette| == 16 && attr < 0x1_0000
  {
    look.palette[attr / 256 / 16]
  }

  /** Where the character's font bytes start; attribute bit 3 selects the font. */
  function GlyphAt(look: Look, attr: nat): nat {
    (if attr / 256 / 8 % 2 == 1 then look.font1 else look.font0) + 32 * 4 * (attr % 256)
  }

  /** Line-drawing characters extend into the ninth column. */
  predicate Extends(look: Look, attr: nat) {
    0xb0 <= attr % 256 <= 0xdf && look.dup9
  }

  function CursorLast(look: Look): int {
    if look.cursorEnd > look.ch - 1 then look.ch - 1 else look.cursorEnd
  }

  predicate CursorOn(look: Look) {
    look.cursorShown && look.cursorFirst <= CursorLast(look) && look.cursorFirst < look.ch
  }

  /** The cursor block covers scan line r of its cell. */
  predicate CursorCovers(look: Look, r: nat) {
    CursorOn(look) && look.cursorFirst <= r <= CursorLast(look)
  }

  /** Pixel (r, x) of a cell. */
  function CellPixel(look: Look, vram: seq<bv8>, attr: nat, cursor: bool, r: nat, x: nat): Pixel
    requires CellWidth(look.cw) && |look.palette| == 16 && attr < 0x1_0000 && x < look.cw
    requires At(GlyphAt(look, attr), 4, r) < |vram|
  {
    if cursor && CursorCovers(look, r) then Foreground(look, attr)
    else Ink(Inked(look.cw, vram[At(GlyphAt(look, attr), 4, r)], Extends(look, attr), x), Foreground(look, attr),
             Background(look, attr))
  }

  ghost predicate CellRowShows(fb: seq<Pixel>, o: nat, look: Look, vram: seq<bv8>, attr: nat, cursor: bool, r: nat)
    requires CellWidth(look.cw) && |look.palette| == 16 && attr < 0x1_0000
  {
    && At(GlyphAt(look, attr), 4, r) < |vram| && o + look.cw <= |fb|
    && forall x {:trigger CellPixel(look, vram, attr, cursor, r, x)} | 0 <= x < look.cw ::
         fb[o + x] == CellPixel(look, vram, attr, cursor, r, x)
  }

  /** The rectangle at o shows the character, with or without the cursor. */
  ghost predicate CellShows(fb: seq<Pixel>, o: nat, look: Look, vram: seq<bv8>, attr: nat, cursor: bool)
    requires CellWidth(look.cw) && |look.palette| == 16 && attr < 0x1_0000
  {
    forall r {:trigger At(o, look.stride, r)} | 0 <= r < look.ch ::
      CellRowShows(fb, At(o, look.stride, r), look, vram, attr, cursor, r)
  }

  // Cells by position

  function Index(look: Look, cy: nat, cx: nat): nat { At(0, look.cols, cy) + cx }

  function Src(look: Look, cy: nat, cx: nat): nat { At(look.start, look.lineOffset, cy) + 4 * cx }

  function Dest(look: Look, cy: nat, cx: nat): nat { At(At(0, look.stride * look.ch, cy), look.cw, cx) }

  predicate IsCursor(look: Look, cy: nat, cx: nat) { Src(look, cy, cx) == look.cursorSrc }

  /** Every cell is as redrawing everything would leave it. */
  ghost predicate TextCurrent(fb: seq<Pixel>, look: Look, vram: seq<bv8>)
    requires CellWidth(look.cw) && |look.palette| == 16
  {
    forall cy, cx {:trigger Src(look, cy, cx)} | 0 <= cy < look.rows && 0 <= cx < look.cols ::
      Src(look, cy, cx) + 2 <= |vram|
      && CellShows(fb, Dest(look, cy, cx), look, vram, AttrAt(vram, Src(look, cy, cx)), IsCursor(look, cy, cx))
  }

  // ------------------------------------------------------------------
  // The cell loop

  /** cursor_glyph: a solid block. */
  function CursorGlyph(): (g: seq<bv8>)
    ensures |g| == 128 && forall i :: 0 <= i < 128 ==> g[i] == 0xff
  {
    seq(128, i => 0xff)
  }

  datatype Cells = Cells(fb: seq<Pixel>, attrs: seq<int>)

  /** The glyph of a cell. */
  function PaintPlain(fb: seq<Pixel>, o: nat, look: Look, vram: seq<bv8>, attr: nat): (f: seq<Pixel>)
    requires CellWidth(look.cw) && 1 <= look.ch <= 32 && |look.palette| == 16 && attr < 0x1_0000
    requires RectFits(o, look.stride, look.cw, look.ch, |fb|) && GlyphAt(look, attr) + 128 <= |vram|
    ensures |f| == |fb|
  {
    AtProduct(GlyphAt(look, attr), 4, look.ch - 1);
    PaintGlyph(fb, o, look.stride, look.cw, vram, GlyphAt(look, attr), look.ch,
               Foreground(look, attr), Background(look, attr), Extends(look, attr))
  }

  function CursorHeight(look: Look): (h: nat)
    requires look.ch <= 32 && CursorOn(look)
    ensures 0 < h && look.cursorFirst + h <= look.ch
  {
    CursorLast(look) - look.cursorFirst + 1
  }

  /** The cursor block over a cell. */
  function PaintCursor(fb: seq<Pixel>, o: nat, look: Look, attr: nat): (f: seq<Pixel>)
    requires CellWidth(look.cw) && 1 <= look.ch <= 32 && |look.palette| == 16 && attr < 0x1_0000
    requires RectFits(o, look.stride, look.cw, look.ch, |fb|) && CursorOn(look)
    ensures |f| == |fb|
  {
    CursorFits(o, look, |fb|);
    PaintGlyph(fb, At(o, look.stride, look.cursorFirst), look.stride, look.cw, CursorGlyph(), 0,
               CursorHeight(look), Foreground(look, attr), Background(look, attr), true)
  }

  /** The glyph and, where it is, the cursor. */
  function PaintCell(fb: seq<Pixel>, o: nat, look: Look, vram: seq<bv8>, attr: nat, cursor: bool): (f: seq<Pixel>)
    requires CellWidth(look.cw) && 1 <= look.ch <= 32 && |look.palette| == 16 && attr < 0x1_0000
    requires RectFits(o, look.stride, look.cw, look.ch, |fb|) && GlyphAt(look, attr) + 128 <= |vram|
    ensures |f| == |fb|
  {
    if cursor && CursorOn(look) then PaintCursor(PaintPlain(fb, o, look, vram, attr), o, look, attr)
    else PaintPlain(fb, o, look, vram, attr)
  }

  lemma CursorFits(o: nat, look: Look, cells: nat)
    requires look.ch <= 32 && CursorOn(look) && RectFits(o, look.stride, look.cw, look.ch, cells)
    ensures var h := CursorHeight(look);
      RectFits(At(o, look.stride, look.cursorFirst), look.stride, look.cw, h, cells) && At(0, 4, h - 1) < 128
  {
    var h := CursorHeight(look);
    AtShift(o, look.stride, look.cursorFirst, h - 1);
    AtMono(o, look.stride, CursorLast(look), look.ch - 1);
    AtProduct(0, 4, h - 1);
  }

  /** Every cell's source lies in memory and its index in the remembered array. */
  lemma CellSource(look: Look, cells: nat, cy: nat, cx: nat)
    requires look.Drawable(cells) && cy < look.rows && cx < look.cols
    ensures Index(look, cy, cx) < At(0, look.cols, look.rows) <= CH_ATTR_SIZE
    ensures Src(look, cy, cx) == look.start + 4 * Index(look, cy, cx) && Src(look, cy, cx) + 2 <= VRAM_ACTUAL_SIZE
  {
    AtMono(0, look.cols, cy, look.rows);
    Quadruple(look.start, look.cols, cy);
  }

  lemma {:induction false} Quadruple(start: nat, cols: nat, cy: nat)
    ensures At(start, 4 * cols, cy) == start + 4 * At(0, cols, cy)
  {
    if cy > 0 {
      Quadruple(start, cols, cy - 1);
    }
  }

  /** Every cell's rectangle lies in the buffer. */
  lemma CellInside(look: Look, cells: nat, cy: nat, cx: nat)
    requires look.Drawable(cells) && cy < look.rows && cx < look.cols
    ensures RectFits(Dest(look, cy, cx), look.stride, look.cw, look.ch, cells)
  {
    CellAddr(look, cy, cx, look.ch - 1, 0);
    PixelRowInside(look, cy, look.ch - 1);
    ColumnInside(look, cx);
  }

  /** A pixel of a cell, by screen row and column. */
  lemma CellAddr(look: Look, cy: nat, cx: nat, r: nat, x: nat)
    ensures At(Dest(look, cy, cx), look.stride, r) + x
         == At(0, look.stride, At(0, look.ch, cy) + r) + (At(0, look.cw, cx) + x)
  {
    var (s, h, w) := (look.stride, look.ch, look.cw);
    AtProduct(0, s * h, cy);
    AtProduct(At(0, s * h, cy), w, cx);
    AtProduct(Dest(look, cy, cx), s, r);
    AtProduct(0, h, cy);
    AtProduct(0, w, cx);
    AtProduct(0, s, At(0, h, cy) + r);
    Regroup(s, h, cy, r);
  }

  lemma Regroup(s: nat, h: nat, cy: nat, r: nat)
    ensures cy * (s * h) + r * s == (cy * h + r) * s
  {
    assert (cy * h + r) * s == cy * h * s + r * s;
    assert cy * (s * h) == cy * h * s;
  }

  lemma ColumnInside(look: Look, cx: nat)
    requires At(0, look.cw, look.cols) <= look.stride && cx < look.cols
    ensures At(0, look.cw, cx) + look.cw <= look.stride
  {
    AtMono(0, look.cw, cx, look.cols);
  }

  lemma PixelRowInside(look: Look, cy: nat, r: nat)
    requires cy < look.rows && r < look.ch
    ensures At(0, look.stride, At(0, look.ch, cy) + r) + look.stride <= At(0, look.stride * look.ch, look.rows)
  {
    var (s, h) := (look.stride, look.ch);
    AtMono(0, h, cy, look.rows);
    AtMono(0, s, At(0, h, cy) + r, At(0, h, look.rows));
    AtProduct(0, h, look.rows);
    AtProduct(0, s, At(0, h, look.rows));
    AtProduct(0, s * h, look.rows);
    Regroup(s, h, look.rows, 0);
  }

  /** Two cells share no pixel. */
  lemma CellsDisjoint(look: Look, cells: nat, cy: nat, cx: nat, r: nat, x: nat, dy: nat, dx: nat)
    requires look.Drawable(cells) && cy < look.rows && cx < look.cols && dy < look.rows && dx < look.cols
    requires r < look.ch && x < look.cw && !(cy == dy && cx == dx)
    ensures !InRect(At(Dest(look, cy, cx), look.stride, r) + x, Dest(look, dy, dx), look.stride, look.cw, look.ch)
  {
    var i := At(Dest(look, cy, cx), look.stride, r) + x;
    if q :| 0 <= q < look.ch
            && At(Dest(look, dy, dx), look.stride, q) <= i < At(Dest(look, dy, dx), look.stride, q) + look.cw
    {
      var z := i - At(Dest(look, dy, dx), look.stride, q);
      CellAddr(look, cy, cx, r, x);
      CellAddr(look, dy, dx, q, z);
      ColumnInside(look, cx);
      ColumnInside(look, dx);
      CellUnique(0, look.stride, At(0, look.ch, cy) + r, At(0, look.cw, cx) + x, At(0, look.ch, dy) + q,
                 At(0, look.cw, dx) + z);
      CellUnique(0, look.ch, cy, r, dy, q);
      CellUnique(0, look.cw, cx, x, dx, z);
      assert false;
    }
  }

  /** Cell (cy, cx) handled, given what the cells before it left. */
  function DrawCell(p: Cells, look: Look, vram: seq<bv8>, full: bool, cy: nat, cx: nat): (q: Cells)
    requires look.Drawable(|p.fb|) && |vram| == VRAM_ACTUAL_SIZE && |p.attrs| == CH_ATTR_SIZE && cy < look.rows
    requires cx < look.cols
    ensures |q.fb| == |p.fb| && |q.attrs| == |p.attrs|
  {
    CellSource(look, |p.fb|, cy, cx);
    CellInside(look, |p.fb|, cy, cx);
    if full || AttrAt(vram, Src(look, cy, cx)) != p.attrs[Index(look, cy, cx)] then
      Cells(PaintCell(p.fb, Dest(look, cy, cx), look, vram, AttrAt(vram, Src(look, cy, cx)), IsCursor(look, cy, cx)),
            p.attrs[Index(look, cy, cx) := AttrAt(vram, Src(look, cy, cx))])
    else p
  }

  /** The first n cells of row cy handled. */
  function DrawRowCells(p: Cells, look: Look, vram: seq<bv8>, full: bool, cy: nat, n: nat): (q: Cells)
    requires look.Drawable(|p.fb|) && |vram| == VRAM_ACTUAL_SIZE && |p.attrs| == CH_ATTR_SIZE && cy < look.rows
    requires n <= look.cols
    ensures |q.fb| == |p.fb| && |q.attrs| == |p.attrs|
    decreases n
  {
    if n == 0 then p else DrawCell(DrawRowCells(p, look, vram, full, cy, n - 1), look, vram, full, cy, n - 1)
  }

  /** The first n rows handled. */
  function DrawCells(p: Cells, look: Look, vram: seq<bv8>, full: bool, n: nat): (q: Cells)
    requires look.Drawable(|p.fb|) && |vram| == VRAM_ACTUAL_SIZE && |p.attrs| == CH_ATTR_SIZE && n <= look.rows
    ensures |q.fb| == |p.fb| && |q.attrs| == |p.attrs|
    decreases n
  {
    if n == 0 then p else DrawRowCells(DrawCells(p, look, vram, full, n - 1), look, vram, full, n - 1, look.cols)
  }

  // ------------------------------------------------------------------
  // A painted cell shows what it should

  /** Pixels of the cell's rectangle only. */
  lemma PlainRow(fb: seq<Pixel>, o: nat, look: Look, vram: seq<bv8>, attr: nat, r: nat)
    requires CellWidth(look.cw) && look.cw <= look.stride && 1 <= look.ch <= 32 && |look.palette| == 16
    requires attr < 0x1_0000
    requires RectFits(o, look.stride, look.cw, look.ch, |fb|) && GlyphAt(look, attr) + 128 <= |vram| && r < look.ch
    ensures At(GlyphAt(look, attr), 4, r) < |vram| && At(o, look.stride, r) + look.cw <= |fb|
    ensures RowShows(PaintPlain(fb, o, look, vram, attr), At(o, look.stride, r), look.cw,
                     vram[At(GlyphAt(look, attr), 4, r)], Foreground(look, attr), Background(look, attr),
                     Extends(look, attr))
    ensures SameOutsideRect(fb, PaintPlain(fb, o, look, vram, attr), o, look.stride, look.cw, look.ch)
  {
    AtProduct(GlyphAt(look, attr), 4, look.ch - 1);
    AtMono(GlyphAt(look, attr), 4, r, look.ch - 1);
    AtMono(o, look.stride, r, look.ch - 1);
    PaintGlyphShows(fb, o, look.stride, look.cw, vram, GlyphAt(look, attr), look.ch,
                    Foreground(look, attr), Background(look, attr), Extends(look, attr));
  }

  lemma PaintPlainShows(fb: seq<Pixel>, o: nat, look: Look, vram: seq<bv8>, attr: nat)
    requires CellWidth(look.cw) && look.cw <= look.stride && 1 <= look.ch <= 32 && |look.palette| == 16
    requires attr < 0x1_0000
    requires RectFits(o, look.stride, look.cw, look.ch, |fb|) && GlyphAt(look, attr) + 128 <= |vram|
    ensures CellShows(PaintPlain(fb, o, look, vram, attr), o, look, vram, attr, false)
    ensures SameOutsideRect(fb, PaintPlain(fb, o, look, vram, attr), o, look.stride, look.cw, look.ch)
  {
    var f := PaintPlain(fb, o, look, vram, attr);
    PlainRow(fb, o, look, vram, attr, 0);
    forall r {:trigger At(o, look.stride, r)} | 0 <= r < look.ch
      ensures CellRowShows(f, At(o, look.stride, r), look, vram, attr, false, r)
    {
      PlainRow(fb, o, look, vram, attr, r);
      PlainRowShows(f, At(o, look.stride, r), look, vram, attr, r);
    }
  }

  lemma PlainRowShows(f: seq<Pixel>, o: nat, look: Look, vram: seq<bv8>, attr: nat, r: nat)
    requires CellWidth(look.cw) && |look.palette| == 16 && attr < 0x1_0000 && At(GlyphAt(look, attr), 4, r) < |vram|
    requires RowShows(f, o, look.cw, vram[At(GlyphAt(look, attr), 4, r)], Foreground(look, attr),
                      Background(look, attr), Extends(look, attr))
    ensures CellRowShows(f, o, look, vram, attr, false, r)
  {
    forall x {:trigger CellPixel(look, vram, attr, false, r, x)} | 0 <= x < look.cw
      ensures f[o + x] == CellPixel(look, vram, attr, false, r, x)
    {
      var ink := Inked(look.cw, vram[At(GlyphAt(look, attr), 4, r)], Extends(look, attr), x);
    }
  }

  lemma SolidInk(cw: nat, x: nat)
    requires CellWidth(cw) && x < cw
    ensures Inked(cw, 0xff, true, x)
  {
  }

  /** Scan line r of a cell once the cursor has been painted over it. */
  lemma CursorRow(fb: seq<Pixel>, o: nat, look: Look, attr: nat, r: nat, x: nat)
    requires CellWidth(look.cw) && look.cw <= look.stride && 1 <= look.ch <= 32 && |look.palette| == 16
    requires attr < 0x1_0000
    requires RectFits(o, look.stride, look.cw, look.ch, |fb|) && CursorOn(look) && r < look.ch && x < look.cw
    ensures At(o, look.stride, r) + x < |fb|
    ensures PaintCursor(fb, o, look, attr)[At(o, look.stride, r) + x]
         == if CursorCovers(look, r) then Foreground(look, attr) else fb[At(o, look.stride, r) + x]
  {
    AtMono(o, look.stride, r, look.ch - 1);
    if CursorCovers(look, r) {
      CursorRowInside(fb, o, look, attr, r, x);
    } else {
      CursorRowOutside(fb, o, look, attr, r, x);
    }
  }

  /** A solid glyph is foreground inside its rectangle and changes nothing outside. */
  lemma SolidGlyph(fb: seq<Pixel>, d: nat, s: nat, cw: nat, h: nat, fg: Pixel, bg: Pixel)
    requires CellWidth(cw) && cw <= s && RectFits(d, s, cw, h, |fb|) && 1 <= h <= 32
    ensures At(0, 4, h - 1) < 128
    ensures var g := PaintGlyph(fb, d, s, cw, CursorGlyph(), 0, h, fg, bg, true);
      && SameOutsideRect(fb, g, d, s, cw, h)
      && forall q {:trigger At(d, s, q)} | 0 <= q < h :: At(d, s, q) + cw <= |fb| && Solid(g, At(d, s, q), cw, fg)
  {
    AtProduct(0, 4, h - 1);
    PaintGlyphShows(fb, d, s, cw, CursorGlyph(), 0, h, fg, bg, true);
    var g := PaintGlyph(fb, d, s, cw, CursorGlyph(), 0, h, fg, bg, true);
    forall q {:trigger At(d, s, q)} | 0 <= q < h
      ensures At(d, s, q) + cw <= |fb| && Solid(g, At(d, s, q), cw, fg)
    {
      AtMono(0, 4, q, h - 1);
      SolidRow(g, At(d, s, q), cw, CursorGlyph()[At(0, 4, q)], fg, bg);
    }
  }

  ghost predicate Solid(f: seq<Pixel>, o: nat, cw: nat, fg: Pixel)
    requires o + cw <= |f|
  {
    forall i | o <= i < o + cw :: f[i] == fg
  }

  lemma SolidRow(f: seq<Pixel>, o: nat, cw: nat, b: bv8, fg: Pixel, bg: Pixel)
    requires CellWidth(cw) && b == 0xff && RowShows(f, o, cw, b, fg, bg, true)
    ensures Solid(f, o, cw, fg)
  {
    forall i | o <= i < o + cw
      ensures f[i] == fg
    {
      SolidInk(cw, i - o);
      assert f[o + (i - o)] == Ink(Inked(cw, b, true, i - o), fg, bg);
    }
  }

  lemma CursorPainted(fb: seq<Pixel>, o: nat, look: Look, attr: nat)
    requires CellWidth(look.cw) && look.cw <= look.stride && 1 <= look.ch <= 32 && |look.palette| == 16
    requires attr < 0x1_0000
    requires RectFits(o, look.stride, look.cw, look.ch, |fb|) && CursorOn(look)
    ensures var (f, d, h) := (PaintCursor(fb, o, look, attr), At(o, look.stride, look.cursorFirst), CursorHeight(look));
      && SameOutsideRect(fb, f, d, look.stride, look.cw, h)
      && forall q {:trigger At(d, look.stride, q)} | 0 <= q < h ::
           At(d, look.stride, q) + look.cw <= |fb| && Solid(f, At(d, look.stride, q), look.cw, Foreground(look, attr))
  {
    CursorFits(o, look, |fb|);
    SolidGlyph(fb, At(o, look.stride, look.cursorFirst), look.stride, look.cw, CursorHeight(look),
               Foreground(look, attr), Background(look, attr));
  }

  lemma CursorRowInside(fb: seq<Pixel>, o: nat, look: Look, attr: nat, r: nat, x: nat)
    requires CellWidth(look.cw) && look.cw <= look.stride && 1 <= look.ch <= 32 && |look.palette| == 16
    requires attr < 0x1_0000
    requires RectFits(o, look.stride, look.cw, look.ch, |fb|) && CursorOn(look) && CursorCovers(look, r) && x < look.cw
    requires At(o, look.stride, r) + x < |fb|
    ensures PaintCursor(fb, o, look, attr)[At(o, look.stride, r) + x] == Foreground(look, attr)
  {
    CursorPainted(fb, o, look, attr);
    AtShift(o, look.stride, look.cursorFirst, r - look.cursorFirst);
  }

  lemma CursorRowOutside(fb: seq<Pixel>, o: nat, look: Look, attr: nat, r: nat, x: nat)
    requires CellWidth(look.cw) && look.cw <= look.stride && 1 <= look.ch <= 32 && |look.palette| == 16
    requires attr < 0x1_0000
    requires RectFits(o, look.stride, look.cw, look.ch, |fb|) && CursorOn(look) && !CursorCovers(look, r) && x < look.cw
    requires At(o, look.stride, r) + x < |fb|
    ensures PaintCursor(fb, o, look, attr)[At(o, look.stride, r) + x] == fb[At(o, look.stride, r) + x]
  {
    CursorPainted(fb, o, look, attr);
    NotInCursor(o, look.stride, look.cw, look.cursorFirst, CursorHeight(look), r, x);
  }

  lemma NotInCursor(o: nat, s: nat, cw: nat, first: nat, h: nat, r: nat, x: nat)
    requires cw <= s && x < cw && !(first <= r < first + h)
    ensures !InRect(At(o, s, r) + x, At(o, s, first), s, cw, h)
  {
    if q :| 0 <= q < h && At(At(o, s, first), s, q) <= At(o, s, r) + x < At(At(o, s, first), s, q) + cw {
      AtShift(o, s, first, q);
      CellUnique(o, s, r, x, first + q, At(o, s, r) + x - At(o, s, first + q));
      assert false;
    }
  }

  lemma PaintCursorShows(fb: seq<Pixel>, o: nat, look: Look, vram: seq<bv8>, attr: nat)
    requires CellWidth(look.cw) && look.cw <= look.stride && 1 <= look.ch <= 32 && |look.palette| == 16
    requires attr < 0x1_0000
    requires RectFits(o, look.stride, look.cw, look.ch, |fb|) && CursorOn(look)
    requires CellShows(fb, o, look, vram, attr, false)
    ensures CellShows(PaintCursor(fb, o, look, attr), o, look, vram, attr, true)
  {
    var f := PaintCursor(fb, o, look, attr);
    forall r {:trigger At(o, look.stride, r)} | 0 <= r < look.ch
      ensures CellRowShows(f, At(o, look.stride, r), look, vram, attr, true, r)
    {
      assert CellRowShows(fb, At(o, look.stride, r), look, vram, attr, false, r);
      forall x {:trigger CellPixel(look, vram, attr, true, r, x)} | 0 <= x < look.cw
        ensures f[At(o, look.stride, r) + x] == CellPixel(look, vram, attr, true, r, x)
      {
        CursorRow(fb, o, look, attr, r, x);
        assert fb[At(o, look.stride, r) + x] == CellPixel(look, vram, attr, false, r, x);
      }
    }
  }

  /** The cursor stays inside its cell. */
  lemma CursorInCell(fb: seq<Pixel>, o: nat, look: Look, attr: nat)
    requires CellWidth(look.cw) && look.cw <= look.stride && 1 <= look.ch <= 32 && |look.palette| == 16
    requires attr < 0x1_0000
    requires RectFits(o, look.stride, look.cw, look.ch, |fb|) && CursorOn(look)
    ensures SameOutsideRect(fb, PaintCursor(fb, o, look, attr), o, look.stride, look.cw, look.ch)
  {
    CursorPainted(fb, o, look, attr);
    forall i: nat | !InRect(i, o, look.stride, look.cw, look.ch)
      ensures !InRect(i, At(o, look.stride, look.cursorFirst), look.stride, look.cw, CursorHeight(look))
    {
      InnerRect(i, o, look.stride, look.cw, look.cursorFirst, CursorHeight(look), look.ch);
    }
  }

  lemma InnerRect(i: nat, o: nat, s: nat, cw: nat, first: nat, h: nat, ch: nat)
    requires first + h <= ch && !InRect(i, o, s, cw, ch)
    ensures !InRect(i, At(o, s, first), s, cw, h)
  {
    if q :| 0 <= q < h && At(At(o, s, first), s, q) <= i < At(At(o, s, first), s, q) + cw {
      AtShift(o, s, first, q);
      assert false;
    }
  }

  /** A painted cell shows its character, and the cursor if it is the cursor's cell; nothing
      outside its rectangle changes. */
  lemma PaintCellShows(fb: seq<Pixel>, o: nat, look: Look, vram: seq<bv8>, attr: nat, cursor: bool)
    requires CellWidth(look.cw) && look.cw <= look.stride && 1 <= look.ch <= 32 && |look.palette| == 16
    requires attr < 0x1_0000
    requires RectFits(o, look.stride, look.cw, look.ch, |fb|) && GlyphAt(look, attr) + 128 <= |vram|
    ensures CellShows(PaintCell(fb, o, look, vram, attr, cursor), o, look, vram, attr, cursor)
    ensures SameOutsideRect(fb, PaintCell(fb, o, look, vram, attr, cursor), o, look.stride, look.cw, look.ch)
  {
    PaintPlainShows(fb, o, look, vram, attr);
    var f := PaintPlain(fb, o, look, vram, attr);
    if cursor && CursorOn(look) {
      PaintCursorShows(f, o, look, vram, attr);
      CursorInCell(f, o, look, attr);
    } else {
      CursorIrrelevant(f, o, look, vram, attr, false, cursor);
    }
  }

  /** In a painted cell nine pixels wide the ninth column repeats the eighth where the cursor is, and
      elsewhere in the line-drawing characters, if the registers extend them; in every other character
      it is background. */
  lemma NinthColumn(fb: seq<Pixel>, o: nat, look: Look, vram: seq<bv8>, attr: nat, cursor: bool, r: nat)
    requires look.cw == 9 && look.cw <= look.stride && 1 <= look.ch <= 32 && |look.palette| == 16 && attr < 0x1_0000
    requires r < look.ch
    requires RectFits(o, look.stride, look.cw, look.ch, |fb|) && GlyphAt(look, attr) + 128 <= |vram|
    ensures var f := PaintCell(fb, o, look, vram, attr, cursor);
      var i := At(o, look.stride, r);
      && i + 8 < |f|
      && (if cursor && CursorCovers(look, r) then f[i + 8] == f[i + 7] == Foreground(look, attr)
          else f[i + 8] == if 0xb0 <= attr % 256 <= 0xdf && look.dup9 then f[i + 7] else Background(look, attr))
  {
    PaintCellShows(fb, o, look, vram, attr, cursor);
    NinthShown(PaintCell(fb, o, look, vram, attr, cursor), At(o, look.stride, r), look, vram, attr, cursor, r);
  }

  lemma NinthShown(f: seq<Pixel>, i: nat, look: Look, vram: seq<bv8>, attr: nat, cursor: bool, r: nat)
    requires look.cw == 9 && |look.palette| == 16 && attr < 0x1_0000 && CellRowShows(f, i, look, vram, attr, cursor, r)
    ensures i + 8 < |f|
    ensures if cursor && CursorCovers(look, r) then f[i + 8] == f[i + 7] == Foreground(look, attr)
            else f[i + 8] == if Extends(look, attr) then f[i + 7] else Background(look, attr)
  {
    assert f[i + 7] == CellPixel(look, vram, attr, cursor, r, 7);
    assert f[i + 8] == CellPixel(look, vram, attr, cursor, r, 8);
  }

  /** A cell looks the same with a cursor that covers nothing. */
  lemma CursorIrrelevant(fb: seq<Pixel>, o: nat, look: Look, vram: seq<bv8>, attr: nat, was: bool, cursor: bool)
    requires CellWidth(look.cw) && |look.palette| == 16 && attr < 0x1_0000
    requires CellShows(fb, o, look, vram, attr, was)
    requires was == cursor || !CursorOn(look)
    ensures CellShows(fb, o, look, vram, attr, cursor)
  {
    forall r {:trigger At(o, look.stride, r)} | 0 <= r < look.ch
      ensures CellRowShows(fb, At(o, look.stride, r), look, vram, attr, cursor, r)
    {
      assert CellRowShows(fb, At(o, look.stride, r), look, vram, attr, was, r);
      forall x {:trigger CellPixel(look, vram, attr, cursor, r, x)} | 0 <= x < look.cw
        ensures fb[At(o, look.stride, r) + x] == CellPixel(look, vram, attr, cursor, r, x)
      {
        assert fb[At(o, look.stride, r) + x] == CellPixel(look, vram, attr, was, r, x);
      }
    }
  }

  // ------------------------------------------------------------------
  // The loop leaves every cell current

  /** The remembered attribute of a cell is what the cell shows, or it is invalid. */
  ghost predicate Remembered(p: Cells, look: Look, vram: seq<bv8>, cy: nat, cx: nat)
    requires CellWidth(look.cw) && |look.palette| == 16
  {
    && Index(look, cy, cx) < |p.attrs|
    && var attr := p.attrs[Index(look, cy, cx)];
      attr == INVALID
      || (0 <= attr < 0x1_0000 && CellShows(p.fb, Dest(look, cy, cx), look, vram, attr, IsCursor(look, cy, cx)))
  }

  /** The cell shows what video memory holds, and that is what is remembered. */
  ghost predicate CellCurrent(p: Cells, look: Look, vram: seq<bv8>, cy: nat, cx: nat)
    requires CellWidth(look.cw) && |look.palette| == 16
  {
    && Index(look, cy, cx) < |p.attrs| && Src(look, cy, cx) + 2 <= |vram|
    && p.attrs[Index(look, cy, cx)] == AttrAt(vram, Src(look, cy, cx))
    && CellShows(p.fb, Dest(look, cy, cx), look, vram, AttrAt(vram, Src(look, cy, cx)), IsCursor(look, cy, cx))
  }

  /** Cell (ey, ex) when the loop has reached cell (cy, cx). */
  ghost predicate CellAsDrawn(p: Cells, look: Look, vram: seq<bv8>, full: bool, cy: nat, cx: nat, ey: nat, ex: nat)
    requires CellWidth(look.cw) && |look.palette| == 16
  {
    if ey < cy || (ey == cy && ex < cx) then CellCurrent(p, look, vram, ey, ex)
    else full || Remembered(p, look, vram, ey, ex)
  }

  ghost predicate Progress(p: Cells, look: Look, vram: seq<bv8>, full: bool, cy: nat, cx: nat)
    requires CellWidth(look.cw) && |look.palette| == 16
  {
    forall ey, ex | 0 <= ey < look.rows && 0 <= ex < look.cols :: CellAsDrawn(p, look, vram, full, cy, cx, ey, ex)
  }

  lemma OtherCellShown(fb: seq<Pixel>, g: seq<Pixel>, look: Look, vram: seq<bv8>, cy: nat, cx: nat, dy: nat, dx: nat,
                       attr: nat, cursor: bool)
    requires look.Drawable(|fb|) && cy < look.rows && cx < look.cols && dy < look.rows && dx < look.cols
    requires !(cy == dy && cx == dx)
    requires attr < 0x1_0000 && CellShows(fb, Dest(look, cy, cx), look, vram, attr, cursor)
    requires SameOutsideRect(fb, g, Dest(look, dy, dx), look.stride, look.cw, look.ch)
    ensures CellShows(g, Dest(look, cy, cx), look, vram, attr, cursor)
  {
    var o := Dest(look, cy, cx);
    forall r {:trigger At(o, look.stride, r)} | 0 <= r < look.ch
      ensures CellRowShows(g, At(o, look.stride, r), look, vram, attr, cursor, r)
    {
      assert CellRowShows(fb, At(o, look.stride, r), look, vram, attr, cursor, r);
      forall x {:trigger CellPixel(look, vram, attr, cursor, r, x)} | 0 <= x < look.cw
        ensures g[At(o, look.stride, r) + x] == CellPixel(look, vram, attr, cursor, r, x)
      {
        CellsDisjoint(look, |fb|, cy, cx, r, x, dy, dx);
        assert fb[At(o, look.stride, r) + x] == CellPixel(look, vram, attr, cursor, r, x);
      }
    }
  }

  /** A cell is handled: it becomes current. */
  lemma DrawCellCurrent(p: Cells, look: Look, vram: seq<bv8>, full: bool, cy: nat, cx: nat)
    requires look.Drawable(|p.fb|) && |vram| == VRAM_ACTUAL_SIZE && |p.attrs| == CH_ATTR_SIZE && cy < look.rows
    requires cx < look.cols
    requires full || Remembered(p, look, vram, cy, cx)
    ensures CellCurrent(DrawCell(p, look, vram, full, cy, cx), look, vram, cy, cx)
  {
    CellSource(look, |p.fb|, cy, cx);
    CellInside(look, |p.fb|, cy, cx);
    ColumnInside(look, cx);
    PaintCellShows(p.fb, Dest(look, cy, cx), look, vram, AttrAt(vram, Src(look, cy, cx)), IsCursor(look, cy, cx));
  }

  /** A cell is handled: every other cell keeps what it shows and what is remembered of it. */
  lemma DrawCellOthers(p: Cells, look: Look, vram: seq<bv8>, full: bool, cy: nat, cx: nat, ey: nat, ex: nat)
    requires look.Drawable(|p.fb|) && |vram| == VRAM_ACTUAL_SIZE && |p.attrs| == CH_ATTR_SIZE && cy < look.rows
    requires cx < look.cols
    requires ey < look.rows && ex < look.cols && !(ey == cy && ex == cx)
    ensures var q := DrawCell(p, look, vram, full, cy, cx);
      && (CellCurrent(p, look, vram, ey, ex) ==> CellCurrent(q, look, vram, ey, ex))
      && (Remembered(p, look, vram, ey, ex) ==> Remembered(q, look, vram, ey, ex))
  {
    var q := DrawCell(p, look, vram, full, cy, cx);
    CellSource(look, |p.fb|, cy, cx);
    CellSource(look, |p.fb|, ey, ex);
    if Index(look, ey, ex) == Index(look, cy, cx) {
      CellUnique(0, look.cols, ey, ex, cy, cx);
      assert false;
    }
    if q != p {
      CellInside(look, |p.fb|, cy, cx);
      ColumnInside(look, cx);
      PaintCellShows(p.fb, Dest(look, cy, cx), look, vram, AttrAt(vram, Src(look, cy, cx)), IsCursor(look, cy, cx));
      var attr := p.attrs[Index(look, ey, ex)];
      if 0 <= attr < 0x1_0000 && CellShows(p.fb, Dest(look, ey, ex), look, vram, attr, IsCursor(look, ey, ex)) {
        OtherCellShown(p.fb, q.fb, look, vram, ey, ex, cy, cx, attr, IsCursor(look, ey, ex));
      }
    }
  }

  lemma DrawCellProgress(p: Cells, look: Look, vram: seq<bv8>, full: bool, cy: nat, cx: nat)
    requires look.Drawable(|p.fb|) && |vram| == VRAM_ACTUAL_SIZE && |p.attrs| == CH_ATTR_SIZE && cy < look.rows
    requires cx < look.cols
    requires Progress(p, look, vram, full, cy, cx)
    ensures Progress(DrawCell(p, look, vram, full, cy, cx), look, vram, full, cy, cx + 1)
  {
    var q := DrawCell(p, look, vram, full, cy, cx);
    var next := cx + 1;
    forall ey, ex | 0 <= ey < look.rows && 0 <= ex < look.cols
      ensures CellAsDrawn(q, look, vram, full, cy, next, ey, ex)
    {
      assert CellAsDrawn(p, look, vram, full, cy, cx, ey, ex);
      if ey == cy && ex == cx {
        DrawCellCurrent(p, look, vram, full, cy, cx);
      } else {
        DrawCellOthers(p, look, vram, full, cy, cx, ey, ex);
      }
    }
  }

  lemma {:induction false} RowProgress(p: Cells, look: Look, vram: seq<bv8>, full: bool, cy: nat, n: nat)
    requires look.Drawable(|p.fb|) && |vram| == VRAM_ACTUAL_SIZE && |p.attrs| == CH_ATTR_SIZE && cy < look.rows
    requires n <= look.cols
    requires Progress(p, look, vram, full, cy, 0)
    ensures Progress(DrawRowCells(p, look, vram, full, cy, n), look, vram, full, cy, n)
    decreases n
  {
    if n > 0 {
      RowProgress(p, look, vram, full, cy, n - 1);
      DrawCellProgress(DrawRowCells(p, look, vram, full, cy, n - 1), look, vram, full, cy, n - 1);
    }
  }

  lemma NextRow(p: Cells, look: Look, vram: seq<bv8>, full: bool, cy: nat)
    requires CellWidth(look.cw) && |look.palette| == 16 && Progress(p, look, vram, full, cy, look.cols)
    ensures Progress(p, look, vram, full, cy + 1, 0)
  {
    var next := cy + 1;
    forall ey, ex | 0 <= ey < look.rows && 0 <= ex < look.cols
      ensures CellAsDrawn(p, look, vram, full, next, 0, ey, ex)
    {
      assert CellAsDrawn(p, look, vram, full, cy, look.cols, ey, ex);
    }
  }

  lemma RowDone(p: Cells, look: Look, vram: seq<bv8>, full: bool, cy: nat)
    requires look.Drawable(|p.fb|) && |vram| == VRAM_ACTUAL_SIZE && |p.attrs| == CH_ATTR_SIZE && cy < look.rows
    requires Progress(p, look, vram, full, cy, 0)
    ensures Progress(DrawRowCells(p, look, vram, full, cy, look.cols), look, vram, full, cy + 1, 0)
  {
    RowProgress(p, look, vram, full, cy, look.cols);
    NextRow(DrawRowCells(p, look, vram, full, cy, look.cols), look, vram, full, cy);
  }

  lemma {:induction false} CellsProgress(p: Cells, look: Look, vram: seq<bv8>, full: bool, n: nat)
    requires look.Drawable(|p.fb|) && |vram| == VRAM_ACTUAL_SIZE && |p.attrs| == CH_ATTR_SIZE && n <= look.rows
    requires Progress(p, look, vram, full, 0, 0)
    ensures Progress(DrawCells(p, look, vram, full, n), look, vram, full, n, 0)
    decreases n
  {
    if n > 0 {
      CellsProgress(p, look, vram, full, n - 1);
      RowDone(DrawCells(p, look, vram, full, n - 1), look, vram, full, n - 1);
    }
  }

  ghost predicate AllRemembered(p: Cells, look: Look, vram: seq<bv8>)
    requires CellWidth(look.cw) && |look.palette| == 16
  {
    forall cy, cx | 0 <= cy < look.rows && 0 <= cx < look.cols :: Remembered(p, look, vram, cy, cx)
  }

  lemma EveryCellCurrent(p: Cells, look: Look, vram: seq<bv8>, full: bool)
    requires look.Drawable(|p.fb|) && |vram| == VRAM_ACTUAL_SIZE && |p.attrs| == CH_ATTR_SIZE
    requires full || AllRemembered(p, look, vram)
    ensures forall cy, cx | 0 <= cy < look.rows && 0 <= cx < look.cols ::
              CellCurrent(DrawCells(p, look, vram, full, look.rows), look, vram, cy, cx)
  {
    var q := DrawCells(p, look, vram, full, look.rows);
    forall ey, ex | 0 <= ey < look.rows && 0 <= ex < look.cols
      ensures CellAsDrawn(p, look, vram, full, 0, 0, ey, ex)
    {
      assert full || Remembered(p, look, vram, ey, ex);
    }
    CellsProgress(p, look, vram, full, look.rows);
    forall cy, cx | 0 <= cy < look.rows && 0 <= cx < look.cols
      ensures CellCurrent(q, look, vram, cy, cx)
    {
      assert CellAsDrawn(q, look, vram, full, look.rows, 0, cy, cx);
    }
  }

  /** The incremental redraw: if every remembered cell is what the screen shows, then
      afterwards every cell shows what video memory holds, and is remembered so. */
  lemma CellsCurrent(p: Cells, look: Look, vram: seq<bv8>, full: bool)
    requires look.Drawable(|p.fb|) && |vram| == VRAM_ACTUAL_SIZE && |p.attrs| == CH_ATTR_SIZE
    requires full || AllRemembered(p, look, vram)
    ensures var q := DrawCells(p, look, vram, full, look.rows);
      TextCurrent(q.fb, look, vram) && AllRemembered(q, look, vram)
    ensures forall cy, cx | 0 <= cy < look.rows && 0 <= cx < look.cols ::
              CellCurrent(DrawCells(p, look, vram, full, look.rows), look, vram, cy, cx)
  {
    var q := DrawCells(p, look, vram, full, look.rows);
    EveryCellCurrent(p, look, vram, full);
    forall cy, cx {:trigger Src(look, cy, cx)} | 0 <= cy < look.rows && 0 <= cx < look.cols
      ensures Src(look, cy, cx) + 2 <= |vram|
      ensures CellShows(q.fb, Dest(look, cy, cx), look, vram, AttrAt(vram, Src(look, cy, cx)), IsCursor(look, cy, cx))
    {
      assert CellCurrent(q, look, vram, cy, cx);
    }
    forall cy, cx | 0 <= cy < look.rows && 0 <= cx < look.cols
      ensures Remembered(q, look, vram, cy, cx)
    {
      assert CellCurrent(q, look, vram, cy, cx);
    }
  }

  /** Some cell's rectangle holds pixel i. */
  ghost predicate InCells(look: Look, i: nat) {
    exists cy, cx {:trigger Dest(look, cy, cx)} | 0 <= cy < look.rows && 0 <= cx < look.cols ::
      InRect(i, Dest(look, cy, cx), look.stride, look.cw, look.ch)
  }

  lemma {:induction false} RowOutside(p: Cells, look: Look, vram: seq<bv8>, full: bool, cy: nat, n: nat, i: nat)
    requires look.Drawable(|p.fb|) && |vram| == VRAM_ACTUAL_SIZE && |p.attrs| == CH_ATTR_SIZE && cy < look.rows
    requires n <= look.cols
    requires i < |p.fb| && !InCells(look, i)
    ensures DrawRowCells(p, look, vram, full, cy, n).fb[i] == p.fb[i]
    decreases n
  {
    if n > 0 {
      RowOutside(p, look, vram, full, cy, n - 1, i);
      var q := DrawRowCells(p, look, vram, full, cy, n - 1);
      CellSource(look, |q.fb|, cy, n - 1);
      CellInside(look, |q.fb|, cy, n - 1);
      ColumnInside(look, n - 1);
      PaintCellShows(q.fb, Dest(look, cy, n - 1), look, vram, AttrAt(vram, Src(look, cy, n - 1)),
                     IsCursor(look, cy, n - 1));
      assert !InRect(i, Dest(look, cy, n - 1), look.stride, look.cw, look.ch);
    }
  }

  lemma {:induction false} ScreenOutside(p: Cells, look: Look, vram: seq<bv8>, full: bool, n: nat, i: nat)
    requires look.Drawable(|p.fb|) && |vram| == VRAM_ACTUAL_SIZE && |p.attrs| == CH_ATTR_SIZE && n <= look.rows
    requires i < |p.fb| && !InCells(look, i)
    ensures DrawCells(p, look, vram, full, n).fb[i] == p.fb[i]
    decreases n
  {
    if n > 0 {
      ScreenOutside(p, look, vram, full, n - 1, i);
      RowOutside(DrawCells(p, look, vram, full, n - 1), look, vram, full, n - 1, look.cols, i);
    }
  }

  lemma SameInCells(f: seq<Pixel>, g: seq<Pixel>, look: Look, vram: seq<bv8>, i: nat)
    requires CellWidth(look.cw) && |look.palette| == 16 && |f| == |g|
    requires TextCurrent(f, look, vram) && TextCurrent(g, look, vram) && InCells(look, i) && i < |f|
    ensures f[i] == g[i]
  {
    var cy, cx :| 0 <= cy < look.rows && 0 <= cx < look.cols
      && InRect(i, Dest(look, cy, cx), look.stride, look.cw, look.ch);
    var (o, attr, cursor) := (Dest(look, cy, cx), AttrAt(vram, Src(look, cy, cx)), IsCursor(look, cy, cx));
    var r :| 0 <= r < look.ch && At(o, look.stride, r) <= i < At(o, look.stride, r) + look.cw;
    assert CellRowShows(f, At(o, look.stride, r), look, vram, attr, cursor, r);
    assert CellRowShows(g, At(o, look.stride, r), look, vram, attr, cursor, r);
    var x := i - At(o, look.stride, r);
    assert f[At(o, look.stride, r) + x] == CellPixel(look, vram, attr, cursor, r, x);
    assert g[At(o, look.stride, r) + x] == CellPixel(look, vram, attr, cursor, r, x);
  }

  /** An incremental redraw that leaves every cell current leaves what redrawing every cell would. */
  lemma SameScreen(p: Cells, look: Look, vram: seq<bv8>, full: bool)
    requires look.Drawable(|p.fb|) && |vram| == VRAM_ACTUAL_SIZE && |p.attrs| == CH_ATTR_SIZE
    requires TextCurrent(DrawCells(p, look, vram, full, look.rows).fb, look, vram)
    requires TextCurrent(DrawCells(p, look, vram, true, look.rows).fb, look, vram)
    ensures DrawCells(p, look, vram, full, look.rows).fb == DrawCells(p, look, vram, true, look.rows).fb
  {
    var f, g := DrawCells(p, look, vram, full, look.rows).fb, DrawCells(p, look, vram, true, look.rows).fb;
    forall i | 0 <= i < |f|
      ensures f[i] == g[i]
    {
      if InCells(look, i) {
        SameInCells(f, g, look, vram, i);
      } else {
        ScreenOutside(p, look, vram, full, look.rows, i);
        ScreenOutside(p, look, vram, true, look.rows, i);
      }
    }
  }

  // ------------------------------------------------------------------
  // The code; `look` gathers the locals of the cell loop

  method DrawCharacter(t: Tables, palette: array<Pixel>, fb: array<Pixel>, vram: array<bv8>, look: Look, o: nat,
                       attr: nat)
    requires t.Valid() && vram.Length == VRAM_ACTUAL_SIZE && fb != palette && fb != t.expand4 && fb != t.expand2
    requires CellWidth(look.cw) && 1 <= look.ch <= 32 && palette.Length == 256 && look.palette == palette[..16]
    requires attr < 0x1_0000
    requires look.font0 + 32 * 4 * 256 <= VRAM_ACTUAL_SIZE && look.font1 + 32 * 4 * 256 <= VRAM_ACTUAL_SIZE
    requires look.cw <= look.stride && RectFits(o, look.stride, look.cw, look.ch, fb.Length)
    modifies fb
    ensures fb[..] == PaintPlain(old(fb[..]), o, look, vram[..], attr)
  {
    var (ch, cattr) := (attr % 256, attr / 256);
    var fontBase := if cattr / 8 % 2 == 1 then look.font1 else look.font0;
    var fontPtr := fontBase + 32 * 4 * ch;
    var (bgcol, fgcol) := (palette[cattr / 16], palette[cattr % 16]);
    assert fontPtr == GlyphAt(look, attr) && bgcol == Background(look, attr) && fgcol == Foreground(look, attr);
    AtProduct(fontPtr, 4, look.ch - 1);
    DrawGlyph(t, fb, o, look.stride, look.cw, vram, fontPtr, look.ch, fgcol, bgcol, Extends(look, attr));
  }

  method RowStart(o: nat, stride: nat, n: nat) returns (d: nat)
    ensures d == At(o, stride, n)
  {
    AtProduct(o, stride, n);
    d := o + stride * n;
  }

  method DrawBlock(t: Tables, fb: array<Pixel>, cursor: array<bv8>, d: nat, stride: nat, cw: nat, h: nat, fg: Pixel,
                   bg: Pixel)
    requires t.Valid() && fb != t.expand4 && fb != t.expand2 && cursor[..] == CursorGlyph()
    requires CellWidth(cw) && cw <= stride && 1 <= h <= 32 && RectFits(d, stride, cw, h, fb.Length)
    modifies fb
    ensures At(0, 4, h - 1) < 128
    ensures fb[..] == PaintGlyph(old(fb[..]), d, stride, cw, CursorGlyph(), 0, h, fg, bg, true)
  {
    AtProduct(0, 4, h - 1);
    assert cursor.Length == |cursor[..]| == 128;
    DrawGlyph(t, fb, d, stride, cw, cursor, 0, h, fg, bg, true);
  }

  method DrawCursor(t: Tables, palette: array<Pixel>, fb: array<Pixel>, cursor: array<bv8>, look: Look, o: nat,
                    attr: nat)
    requires t.Valid() && fb != palette && fb != t.expand4 && fb != t.expand2 && cursor[..] == CursorGlyph()
    requires CellWidth(look.cw) && 1 <= look.ch <= 32 && palette.Length == 256 && look.palette == palette[..16]
    requires attr < 0x1_0000
    requires look.cw <= look.stride && RectFits(o, look.stride, look.cw, look.ch, fb.Length)
    modifies fb
    ensures fb[..] == if CursorOn(look) then PaintCursor(old(fb[..]), o, look, attr) else old(fb[..])
  {
    if look.cursorShown {
      var lineLast := if look.cursorEnd > look.ch - 1 then look.ch - 1 else look.cursorEnd;
      if lineLast >= look.cursorFirst && look.cursorFirst < look.ch {
        CursorFits(o, look, fb.Length);
        var d := RowStart(o, look.stride, look.cursorFirst);
        var cattr := attr / 256;
        var (fgcol, bgcol) := (palette[cattr % 16], palette[cattr / 16]);
        assert fgcol == Foreground(look, attr) && bgcol == Background(look, attr);
        var h := lineLast - look.cursorFirst + 1;
        assert h == CursorHeight(look);
        DrawBlock(t, fb, cursor, d, look.stride, look.cw, h, fgcol, bgcol);
      }
    }
  }

  method DrawCellAt(t: Tables, palette: array<Pixel>, fb: array<Pixel>, vram: array<bv8>, cursor: array<bv8>,
                    look: Look, o: nat, attr: nat, isCursor: bool)
    requires t.Valid() && vram.Length == VRAM_ACTUAL_SIZE && fb != palette && fb != t.expand4 && fb != t.expand2
    requires CellWidth(look.cw) && 1 <= look.ch <= 32 && palette.Length == 256 && look.palette == palette[..16]
    requires attr < 0x1_0000
    requires look.font0 + 32 * 4 * 256 <= VRAM_ACTUAL_SIZE && look.font1 + 32 * 4 * 256 <= VRAM_ACTUAL_SIZE
    requires look.cw <= look.stride && RectFits(o, look.stride, look.cw, look.ch, fb.Length)
    requires cursor[..] == CursorGlyph() && Apart(fb, vram) && Apart(fb, cursor)
    modifies fb
    ensures fb[..] == PaintCell(old(fb[..]), o, look, vram[..], attr, isCursor)
  {
    DrawCharacter(t, palette, fb, vram, look, o, attr);
    if isCursor {
      DrawCursor(t, palette, fb, cursor, look, o, attr);
    }
  }

  method DrawTextCell(t: Tables, palette: array<Pixel>, fb: array<Pixel>, attrs: array<int>, vram: array<bv8>,
                      cursor: array<bv8>, look: Look, full: bool, ghost cy: nat, ghost cx: nat, src: nat, d1: nat,
                      index: nat)
    requires t.Valid() && vram.Length == VRAM_ACTUAL_SIZE && attrs.Length == CH_ATTR_SIZE && cursor[..] == CursorGlyph()
    requires fb != palette && fb != t.expand4 && fb != t.expand2 && Apart(fb, attrs) && Apart(fb, vram)
    requires Apart(fb, cursor)
    requires palette.Length == 256 && look.palette == palette[..16] && look.Drawable(fb.Length)
    requires cy < look.rows && cx < look.cols
    requires src == Src(look, cy, cx) && d1 == Dest(look, cy, cx) && index == Index(look, cy, cx)
    modifies fb, attrs
    ensures Cells(fb[..], attrs[..]) == DrawCell(old(Cells(fb[..], attrs[..])), look, vram[..], full, cy, cx)
  {
    assert index < CH_ATTR_SIZE && src + 2 <= VRAM_ACTUAL_SIZE by {
      CellSource(look, fb.Length, cy, cx);
    }
    assert RectFits(d1, look.stride, look.cw, look.ch, fb.Length) && look.cw <= look.stride by {
      CellInside(look, fb.Length, cy, cx);
      ColumnInside(look, cx);
    }
    ghost var was := Cells(fb[..], attrs[..]);
    var chAttr := vram[src] as int + 256 * (vram[src + 1] as int);
    assert chAttr == AttrAt(vram[..], src);
    if full || chAttr != attrs[index] {
      attrs[index] := chAttr;
      DrawCellAt(t, palette, fb, vram, cursor, look, d1, chAttr, src == look.cursorSrc);
      assert attrs[..] == was.attrs[index := chAttr];
    }
  }

  method DrawTextRow(t: Tables, palette: array<Pixel>, fb: array<Pixel>, attrs: array<int>, vram: array<bv8>,
                     cursor: array<bv8>, look: Look, full: bool, ghost cy: nat, first: nat, dest: nat, index: nat)
    requires t.Valid() && vram.Length == VRAM_ACTUAL_SIZE && attrs.Length == CH_ATTR_SIZE && cursor[..] == CursorGlyph()
    requires fb != palette && fb != t.expand4 && fb != t.expand2 && Apart(fb, attrs) && Apart(fb, vram)
    requires Apart(fb, cursor)
    requires palette.Length == 256 && look.palette == palette[..16] && look.Drawable(fb.Length)
    requires cy < look.rows
    requires first == Src(look, cy, 0) && dest == Dest(look, cy, 0) && index == Index(look, cy, 0)
    modifies fb, attrs
    ensures Cells(fb[..], attrs[..]) == DrawRowCells(old(Cells(fb[..], attrs[..])), look, vram[..], full, cy, look.cols)
  {
    var d1, src := dest, first;
    ghost var was := Cells(fb[..], attrs[..]);
    for cx := 0 to look.cols
      invariant d1 == Dest(look, cy, cx) && src == Src(look, cy, cx)
      invariant Cells(fb[..], attrs[..]) == DrawRowCells(was, look, vram[..], full, cy, cx)
    {
      DrawTextCell(t, palette, fb, attrs, vram, cursor, look, full, cy, cx, src, d1, index + cx);
      d1 := d1 + look.cw;
      src := src + 4;
    }
  }

  /** The cell loop of surface_draw_text. */
  method DrawScreen(t: Tables, palette: array<Pixel>, fb: array<Pixel>, attrs: array<int>, vram: array<bv8>,
                    cursor: array<bv8>, look: Look, full: bool)
    requires t.Valid() && vram.Length == VRAM_ACTUAL_SIZE && attrs.Length == CH_ATTR_SIZE && cursor[..] == CursorGlyph()
    requires fb != palette && fb != t.expand4 && fb != t.expand2 && Apart(fb, attrs) && Apart(fb, vram)
    requires Apart(fb, cursor)
    requires palette.Length == 256 && look.palette == palette[..16] && look.Drawable(fb.Length)
    modifies fb, attrs
    ensures Cells(fb[..], attrs[..]) == DrawCells(old(Cells(fb[..], attrs[..])), look, vram[..], full, look.rows)
  {
    var dest, s1, index := 0, look.start, 0;
    ghost var was := Cells(fb[..], attrs[..]);
    for cy := 0 to look.rows
      invariant dest == Dest(look, cy, 0) && s1 == Src(look, cy, 0) && index == Index(look, cy, 0)
      invariant Cells(fb[..], attrs[..]) == DrawCells(was, look, vram[..], full, cy)
    {
      DrawTextRow(t, palette, fb, attrs, vram, cursor, look, full, cy, s1, dest, index);
      dest := dest + look.stride * look.ch;
      s1 := s1 + look.lineOffset;
      index := index + look.cols;
    }
  }
}
