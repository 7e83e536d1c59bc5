/** The glyph drawers of template.h for 32-bit surfaces: eight, nine and sixteen
    pixels wide. */
module Glyphs {
  import opened VgaRegs
  import opened Grid
  import opened Pixels

  predicate CellWidth(cw: nat) {
    cw == 8 || cw == 9 || cw == 16
  }

  // ------------------------------------------------------------------
  // What a glyph shows

  /** Pixel x of a font byte: bit 7 - x; doubled in wide cells; the ninth pixel
      repeats the eighth in line-drawing characters and is background otherwise. */
  function Inked(cw: nat, b: bv8, dup9: bool, x: nat): bool
    requires CellWidth(cw) && x < cw
  {
    if cw == 16 then Bit(b, 7 - x / 2) == 1
    else if x == 8 then dup9 && Bit(b, 0) == 1
    else Bit(b, 7 - x) == 1
  }

  function Ink(on: bool, fg: Pixel, bg: Pixel): Pixel {
    if on then fg else bg
  }

  /** The cw pixels at o show font byte b. */
  ghost predicate RowShows(fb: seq<Pixel>, o: nat, cw: nat, b: bv8, fg: Pixel, bg: Pixel, dup9: bool)
    requires CellWidth(cw)
  {
    o + cw <= |fb| && forall x {:trigger Inked(cw, b, dup9, x)} | 0 <= x < cw ::
      fb[o + x] == Ink(Inked(cw, b, dup9, x), fg, bg)
  }

  /** h rows from o on, linesize apart, show the font bytes at f, f + 4, ... */
  ghost predicate GlyphShows(fb: seq<Pixel>, o: nat, linesize: nat, cw: nat, font: seq<bv8>, f: nat, h: nat,
                             fg: Pixel, bg: Pixel, dup9: bool)
    requires CellWidth(cw)
  {
    forall r {:trigger At(f, 4, r)} | 0 <= r < h ::
      At(f, 4, r) < |font| && RowShows(fb, At(o, linesize, r), cw, font[At(f, 4, r)], fg, bg, dup9)
  }

  /** Cell i lies in the rectangle of h rows of cw cells at o. */
  ghost predicate InRect(i: nat, o: nat, linesize: nat, cw: nat, h: nat) {
    exists r :: 0 <= r < h && At(o, linesize, r) <= i < At(o, linesize, r) + cw
  }

  ghost predicate SameOutsideRect(was: seq<Pixel>, fb: seq<Pixel>, o: nat, linesize: nat, cw: nat, h: nat) {
    |fb| == |was| && forall i | 0 <= i < |fb| && !InRect(i, o, linesize, cw, h) :: fb[i] == was[i]
  }

  // The same as a function of the buffer

  function PaintRow(fb: seq<Pixel>, o: nat, cw: nat, b: bv8, fg: Pixel, bg: Pixel, dup9: bool): (f: seq<Pixel>)
    requires CellWidth(cw) && o + cw <= |fb|
    ensures |f| == |fb|
  {
    fb[..o] + seq(cw, x requires 0 <= x < cw => Ink(Inked(cw, b, dup9, x), fg, bg)) + fb[o + cw..]
  }

  /** h glyph rows fit in a buffer of the given size. */
  predicate RectFits(o: nat, linesize: nat, cw: nat, h: nat, cells: nat) {
    h > 0 ==> At(o, linesize, h - 1) + cw <= cells
  }

  /** fb after the first h rows of a glyph. */
  function PaintGlyph(fb: seq<Pixel>, o: nat, linesize: nat, cw: nat, font: seq<bv8>, f: nat, h: nat,
                      fg: Pixel, bg: Pixel, dup9: bool): (g: seq<Pixel>)
    requires CellWidth(cw) && RectFits(o, linesize, cw, h, |fb|) && (h > 0 ==> At(f, 4, h - 1) < |font|)
    ensures |g| == |fb|
    decreases h
  {
    if h == 0 then fb
    else
      PaintRow(PaintGlyph(fb, o, linesize, cw, font, f, h - 1, fg, bg, dup9), At(o, linesize, h - 1), cw,
               font[At(f, 4, h - 1)], fg, bg, dup9)
  }

  lemma RowIsPainted(was: seq<Pixel>, fb: seq<Pixel>, o: nat, cw: nat, b: bv8, fg: Pixel, bg: Pixel, dup9: bool)
    requires CellWidth(cw) && RowShows(fb, o, cw, b, fg, bg, dup9) && SameOutside(was, fb, o, o + cw)
    ensures fb == PaintRow(was, o, cw, b, fg, bg, dup9)
  {
    var f := PaintRow(was, o, cw, b, fg, bg, dup9);
    forall i | 0 <= i < |fb|
      ensures fb[i] == f[i]
    {
      if o <= i < o + cw {
        assert fb[o + (i - o)] == Ink(Inked(cw, b, dup9, i - o), fg, bg);
      }
    }
  }

  lemma PaintRowShows(fb: seq<Pixel>, o: nat, cw: nat, b: bv8, fg: Pixel, bg: Pixel, dup9: bool)
    requires CellWidth(cw) && o + cw <= |fb|
    ensures var f := PaintRow(fb, o, cw, b, fg, bg, dup9);
      RowShows(f, o, cw, b, fg, bg, dup9) && SameOutside(fb, f, o, o + cw)
  {
  }

  lemma {:induction false} PaintGlyphShows(fb: seq<Pixel>, o: nat, linesize: nat, cw: nat, font: seq<bv8>, f: nat,
                                           h: nat, fg: Pixel, bg: Pixel, dup9: bool)
    requires CellWidth(cw) && cw <= linesize && RectFits(o, linesize, cw, h, |fb|)
    requires h > 0 ==> At(f, 4, h - 1) < |font|
    ensures var g := PaintGlyph(fb, o, linesize, cw, font, f, h, fg, bg, dup9);
      GlyphShows(g, o, linesize, cw, font, f, h, fg, bg, dup9) && SameOutsideRect(fb, g, o, linesize, cw, h)
    decreases h
  {
    if h > 0 {
      PaintGlyphShows(fb, o, linesize, cw, font, f, h - 1, fg, bg, dup9);
      var was := PaintGlyph(fb, o, linesize, cw, font, f, h - 1, fg, bg, dup9);
      var g := PaintRow(was, At(o, linesize, h - 1), cw, font[At(f, 4, h - 1)], fg, bg, dup9);
      PaintRowShows(was, At(o, linesize, h - 1), cw, font[At(f, 4, h - 1)], fg, bg, dup9);
      GlyphExtends(fb, was, g, o, linesize, cw, font, f, h - 1, fg, bg, dup9);
    }
  }

  // ------------------------------------------------------------------
  // The drawers

  lemma BitSelect(bit: bv8, fg: Pixel, bg: Pixel)
    requires bit < 2
    ensures Selected(bit, bg ^ fg, bg) == Ink(bit == 1, fg, bg)
  {
    if bit == 0 {
    } else {
      assert bit == 1;
      OneSelects(fg, bg);
    }
  }

  lemma OneSelects(fg: bv32, bg: bv32)
    ensures (0xffff_ffff & (bg ^ fg)) ^ bg == fg
  {
  }

  function Selected(bit: bv8, xorcol: Pixel, bg: Pixel): Pixel {
    ((0 - (bit as bv32)) & xorcol) ^ bg
  }

  method Select(bit: bv8, xorcol: Pixel, bg: Pixel, ghost fg: Pixel) returns (c: Pixel)
    requires bit < 2 && xorcol == bg ^ fg
    ensures c == Ink(bit == 1, fg, bg)
  {
    BitSelect(bit, fg, bg);
    c := Selected(bit, xorcol, bg);
  }

  /** Bit 7 - x of b. */
  function LeftBit(b: bv8, x: nat): bool
    requires x < 8
  {
    Bit(b, 7 - x) == 1
  }

  /** The colours of the eight bits of b, the highest first. */
  method BitColours(b: bv8, xorcol: Pixel, bg: Pixel, ghost fg: Pixel) returns (cs: seq<Pixel>)
    requires xorcol == bg ^ fg
    ensures |cs| == 8 && forall x :: 0 <= x < 8 ==> cs[x] == Ink(LeftBit(b, x), fg, bg)
  {
    var c0, c1, c2, c3 := FourColours(Bit(b, 7), Bit(b, 6), Bit(b, 5), Bit(b, 4), xorcol, bg, fg);
    var c4, c5, c6, c7 := FourColours(Bit(b, 3), Bit(b, 2), Bit(b, 1), Bit(b, 0), xorcol, bg, fg);
    cs := [c0, c1, c2, c3, c4, c5, c6, c7];
    EightColours(cs, b, fg, bg);
  }

  lemma EightColours(cs: seq<Pixel>, b: bv8, fg: Pixel, bg: Pixel)
    requires |cs| == 8
    requires cs[0] == Ink(Bit(b, 7) == 1, fg, bg) && cs[1] == Ink(Bit(b, 6) == 1, fg, bg)
    requires cs[2] == Ink(Bit(b, 5) == 1, fg, bg) && cs[3] == Ink(Bit(b, 4) == 1, fg, bg)
    requires cs[4] == Ink(Bit(b, 3) == 1, fg, bg) && cs[5] == Ink(Bit(b, 2) == 1, fg, bg)
    requires cs[6] == Ink(Bit(b, 1) == 1, fg, bg) && cs[7] == Ink(Bit(b, 0) == 1, fg, bg)
    ensures forall x :: 0 <= x < 8 ==> cs[x] == Ink(LeftBit(b, x), fg, bg)
  {
  }

  method FourColours(b0: bv8, b1: bv8, b2: bv8, b3: bv8, xorcol: Pixel, bg: Pixel, ghost fg: Pixel)
    returns (c0: Pixel, c1: Pixel, c2: Pixel, c3: Pixel)
    requires b0 < 2 && b1 < 2 && b2 < 2 && b3 < 2 && xorcol == bg ^ fg
    ensures c0 == Ink(b0 == 1, fg, bg) && c1 == Ink(b1 == 1, fg, bg) && c2 == Ink(b2 == 1, fg, bg)
    ensures c3 == Ink(b3 == 1, fg, bg)
  {
    c0 := Select(b0, xorcol, bg, fg);
    c1 := Select(b1, xorcol, bg, fg);
    c2 := Select(b2, xorcol, bg, fg);
    c3 := Select(b3, xorcol, bg, fg);
  }

  /** vga_draw_glyph_line */
  method DrawBits(fb: array<Pixel>, o: nat, b: bv8, xorcol: Pixel, bg: Pixel, ghost fg: Pixel)
    requires o + 8 <= fb.Length && xorcol == bg ^ fg
    modifies fb
    ensures forall x {:trigger LeftBit(b, x)} :: 0 <= x < 8 ==> fb[o + x] == Ink(LeftBit(b, x), fg, bg)
    ensures SameOutside(old(fb[..]), fb[..], o, o + 8)
  {
    var cs := BitColours(b, xorcol, bg, fg);
    PutPixels(fb, o, cs);
    forall x {:trigger LeftBit(b, x)} | 0 <= x < 8
      ensures fb[o + x] == Ink(LeftBit(b, x), fg, bg)
    {
      assert fb[o + x] == cs[x];
    }
  }

  /** A doubled nibble has each bit of the nibble twice. */
  lemma DoubledBit(e: bv8, n: bv8, x: nat)
    requires Double4(e, n) && n < 16 && x < 8
    ensures LeftBit(e, x) <==> Bit(n, 3 - x / 2) == 1
  {
    var (p0, p1, p2, p3) := (PairAt(e, 0), PairAt(e, 1), PairAt(e, 2), PairAt(e, 3));
    TwinBits(e, 0, BitAt(n, 0));
    TwinBits(e, 1, BitAt(n, 1));
    TwinBits(e, 2, BitAt(n, 2));
    TwinBits(e, 3, BitAt(n, 3));
  }

  lemma TwinBits(e: bv8, j: bv8, bit: bv8)
    requires j < 4 && bit < 2 && PairAt(e, j) == 3 * bit
    ensures BitAt(e, 2 * j) == bit && BitAt(e, 2 * j + 1) == bit
  {
  }

  lemma NibbleBits(b: bv8, k: nat)
    requires k < 4
    ensures Bit(b >> 4, k) == Bit(b, 4 + k) && Bit(b & 0x0f, k) == Bit(b, k)
  {
    match k
    case 0 => HighLow(b, 0);
    case 1 => HighLow(b, 1);
    case 2 => HighLow(b, 2);
    case 3 => HighLow(b, 3);
  }

  lemma HighLow(b: bv8, k: bv8)
    requires k < 4
    ensures BitAt(b >> 4, k) == BitAt(b, 4 + k) && BitAt(b & 0x0f, k) == BitAt(b, k)
  {
  }

  method DoubledNibble(t: Tables, n: bv8) returns (e: bv8)
    requires t.Valid() && n < 16
    ensures Double4(e, n)
  {
    assert Entry4to8(t.expand4to8, n);
    e := t.expand4to8[n as int];
  }

  lemma WideLeft(e: bv8, b: bv8, x: nat)
    requires Double4(e, b >> 4) && b >> 4 < 16 && x < 8
    ensures LeftBit(e, x) <==> Inked(16, b, false, x)
  {
    DoubledBit(e, b >> 4, x);
    NibbleBits(b, 3 - x / 2);
  }

  lemma WideRight(e: bv8, b: bv8, x: nat)
    requires Double4(e, b & 0x0f) && b & 0x0f < 16 && 8 <= x < 16
    ensures LeftBit(e, x - 8) <==> Inked(16, b, false, x)
  {
    DoubledBit(e, b & 0x0f, x - 8);
    NibbleBits(b, 3 - (x - 8) / 2);
  }

  /** One row of a sixteen-pixel glyph. */
  method DrawWideRow(t: Tables, fb: array<Pixel>, o: nat, b: bv8, xorcol: Pixel, bg: Pixel, ghost fg: Pixel)
    requires t.Valid() && fb != t.expand4 && fb != t.expand2
    requires o + 16 <= fb.Length && xorcol == bg ^ fg
    modifies fb
    ensures RowShows(fb[..], o, 16, b, fg, bg, false)
    ensures SameOutside(old(fb[..]), fb[..], o, o + 16)
  {
    var left := DoubledNibble(t, b >> 4);
    var right := DoubledNibble(t, b & 0x0f);
    DrawBits(fb, o, left, xorcol, bg, fg);
    label Right:
    DrawBits(fb, o + 8, right, xorcol, bg, fg);
    forall x {:trigger Inked(16, b, false, x)} | 0 <= x < 16
      ensures fb[o + x] == Ink(Inked(16, b, false, x), fg, bg)
    {
      if x < 8 {
        assert old@Right(fb[o + x]) == Ink(LeftBit(left, x), fg, bg);
        WideLeft(left, b, x);
      } else {
        assert fb[o + 8 + (x - 8)] == Ink(LeftBit(right, x - 8), fg, bg);
        WideRight(right, b, x);
      }
    }
  }

  /** One row of an eight-pixel glyph. */
  method DrawNarrowRow(fb: array<Pixel>, o: nat, b: bv8, xorcol: Pixel, bg: Pixel, ghost fg: Pixel, ghost dup9: bool)
    requires o + 8 <= fb.Length && xorcol == bg ^ fg
    modifies fb
    ensures RowShows(fb[..], o, 8, b, fg, bg, dup9)
    ensures SameOutside(old(fb[..]), fb[..], o, o + 8)
  {
    DrawBits(fb, o, b, xorcol, bg, fg);
    forall x {:trigger Inked(8, b, dup9, x)} | 0 <= x < 8
      ensures fb[o + x] == Ink(Inked(8, b, dup9, x), fg, bg)
    {
      assert fb[o + x] == Ink(LeftBit(b, x), fg, bg);
    }
  }

  /** One row of a nine-pixel glyph. */
  method DrawNineRow(fb: array<Pixel>, o: nat, b: bv8, xorcol: Pixel, bg: Pixel, ghost fg: Pixel, dup9: bool)
    requires o + 9 <= fb.Length && xorcol == bg ^ fg
    modifies fb
    ensures RowShows(fb[..], o, 9, b, fg, bg, dup9)
    ensures SameOutside(old(fb[..]), fb[..], o, o + 9)
  {
    DrawBits(fb, o, b, xorcol, bg, fg);
    label Ninth:
    fb[o + 8] := if dup9 then fb[o + 7] else bg;
    forall x {:trigger Inked(9, b, dup9, x)} | 0 <= x < 9
      ensures fb[o + x] == Ink(Inked(9, b, dup9, x), fg, bg)
    {
      assert old@Ninth(fb[o + 7]) == Ink(LeftBit(b, 7), fg, bg);
      if x < 8 {
        assert old@Ninth(fb[o + x]) == Ink(LeftBit(b, x), fg, bg);
      }
    }
  }

  method DrawRow(t: Tables, fb: array<Pixel>, o: nat, cw: nat, b: bv8, xorcol: Pixel, bg: Pixel, ghost fg: Pixel,
                 dup9: bool)
    requires t.Valid() && fb != t.expand4 && fb != t.expand2
    requires CellWidth(cw) && o + cw <= fb.Length && xorcol == bg ^ fg
    modifies fb
    ensures RowShows(fb[..], o, cw, b, fg, bg, dup9)
    ensures SameOutside(old(fb[..]), fb[..], o, o + cw)
  {
    if cw == 16 {
      DrawWideRow(t, fb, o, b, xorcol, bg, fg);
      assert forall x {:trigger Inked(16, b, dup9, x)} | 0 <= x < 16 :: Inked(16, b, dup9, x) == Inked(16, b, false, x);
    } else if cw == 8 {
      DrawNarrowRow(fb, o, b, xorcol, bg, fg, dup9);
    } else {
      DrawNineRow(fb, o, b, xorcol, bg, fg, dup9);
    }
  }

  /** vga_draw_glyph8, vga_draw_glyph9 and vga_draw_glyph16. */
  method DrawGlyph(t: Tables, fb: array<Pixel>, o: nat, linesize: nat, cw: nat, font: array<bv8>, f: nat, h: nat,
                   fg: Pixel, bg: Pixel, dup9: bool)
    requires t.Valid() && fb != t.expand4 && fb != t.expand2
    requires CellWidth(cw) && cw <= linesize && 1 <= h
    requires RectFits(o, linesize, cw, h, fb.Length) && At(f, 4, h - 1) < font.Length
    modifies fb
    ensures fb[..] == PaintGlyph(old(fb[..]), o, linesize, cw, font[..], f, h, fg, bg, dup9)
  {
    var xorcol := bg ^ fg;
    var d, p := o, f;
    ghost var (start, bytes) := (fb[..], font[..]);
    for r := 0 to h
      invariant d == At(o, linesize, r) && p == At(f, 4, r) && font[..] == bytes
      invariant RectFits(o, linesize, cw, r, fb.Length) && (r > 0 ==> At(f, 4, r - 1) < font.Length)
      invariant fb[..] == PaintGlyph(start, o, linesize, cw, bytes, f, r, fg, bg, dup9)
    {
      AtMono(o, linesize, r, h - 1);
      AtMono(f, 4, r, h - 1);
      ghost var was := fb[..];
      DrawRow(t, fb, d, cw, font[p], xorcol, bg, fg, dup9);
      RowIsPainted(was, fb[..], d, cw, font[p], fg, bg, dup9);
      p := p + 4;
      d := d + linesize;
    }
  }

  lemma GlyphExtends(before: seq<Pixel>, was: seq<Pixel>, fb: seq<Pixel>, o: nat, linesize: nat, cw: nat,
                     font: seq<bv8>, f: nat, r: nat, fg: Pixel, bg: Pixel, dup9: bool)
    requires CellWidth(cw) && cw <= linesize && At(f, 4, r) < |font|
    requires GlyphShows(was, o, linesize, cw, font, f, r, fg, bg, dup9)
    requires SameOutsideRect(before, was, o, linesize, cw, r)
    requires RowShows(fb, At(o, linesize, r), cw, font[At(f, 4, r)], fg, bg, dup9)
    requires SameOutside(was, fb, At(o, linesize, r), At(o, linesize, r) + cw)
    ensures GlyphShows(fb, o, linesize, cw, font, f, r + 1, fg, bg, dup9)
    ensures SameOutsideRect(before, fb, o, linesize, cw, r + 1)
  {
    forall q {:trigger At(f, 4, q)} | 0 <= q < r + 1
      ensures At(f, 4, q) < |font| && RowShows(fb, At(o, linesize, q), cw, font[At(f, 4, q)], fg, bg, dup9)
    {
      if q < r {
        AtMono(o, linesize, q, r);
        assert RowShows(was, At(o, linesize, q), cw, font[At(f, 4, q)], fg, bg, dup9);
      }
    }
    forall i | 0 <= i < |fb| && !InRect(i, o, linesize, cw, r + 1)
      ensures fb[i] == before[i]
    {
      assert !(At(o, linesize, r) <= i < At(o, linesize, r) + cw);
    }
  }
}
