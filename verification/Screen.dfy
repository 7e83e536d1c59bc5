/** The renderer itself: the fields and buffers of surface_t, updated in place. */
module Screen {
  import opened VgaRegs
  import opened Grid
  import opened Pixels
  import opened Glyphs
  import opened Scanout
  import opened Graphic
  import opened Text
  import opened Surface

  class Screen {
    var gmode: int
    var font0: nat
    var font1: nat
    var shiftControl: nat
    var doubleScan: nat
    var lineOffset: nat
    var startAddr: nat
    var lineCompare: nat
    var offset: nat
    var linesize: nat
    var lastLineOffset: nat
    var lastCw: nat
    var lastCh: nat
    var scrWidth: nat
    var scrHeight: nat
    var lastDepth: nat
    var cursorStart: bv8
    var cursorEnd: bv8
    var cursorOffset: nat
    const palette: array<Pixel>
    const attrs: array<int>
    const tables: Tables
    const cursorGlyph: array<bv8>

    /** Shared with the device. */
    var vga: Vga
    const vram: array<bv8>
    const fb: array<Pixel>
    const dirty: array<bool>

    ghost function Surf(): Surf
      reads this
    {
      Surface.Surf.Surf(gmode, font0, font1, shiftControl, doubleScan, lineOffset, startAddr, lineCompare, offset,
                        linesize, lastLineOffset, lastCw, lastCh, scrWidth, scrHeight, lastDepth, cursorStart,
                        cursorEnd, cursorOffset)
    }

    ghost function State(): Scene
      reads this, palette, attrs, vram, fb, dirty
    {
      Scene(Surf(), palette[..], attrs[..], vga, vram[..], fb[..], dirty[..])
    }

    ghost predicate Valid()
      reads this, palette, attrs, vram, fb, dirty, cursorGlyph, tables.expand4, tables.expand2, tables.expand4to8
    {
      && State().Wf() && tables.Valid() && cursorGlyph[..] == CursorGlyph()
      && palette != fb && tables.expand4 != palette && tables.expand4 != fb && tables.expand2 != palette
      && tables.expand2 != fb
      && At(0, scrWidth, scrHeight) <= fb.Length && Apart(fb, dirty) && Apart(fb, attrs) && Apart(fb, vram)
      && Apart(fb, cursorGlyph)
    }

    constructor (vga: Vga, vram: array<bv8>, fb: array<Pixel>)
      requires vram.Length == VRAM_ACTUAL_SIZE && Apart(fb, vram)
      ensures Valid() && this.vram == vram && this.fb == fb
      ensures fresh(palette) && fresh(attrs) && fresh(dirty)
      ensures Surf() == Surface.Surf.Surf(-1, 0, 0, 0, 0, 0, 0, 0, 0, 0, 0, 0, 0, 0, 0, 0, 0, 0, 0)
    {
      gmode, font0, font1, shiftControl, doubleScan := -1, 0, 0, 0, 0;
      lineOffset, startAddr, lineCompare, offset, linesize, lastLineOffset := 0, 0, 0, 0, 0, 0;
      lastCw, lastCh, scrWidth, scrHeight, lastDepth := 0, 0, 0, 0, 0;
      cursorStart, cursorEnd, cursorOffset := 0, 0, 0;
      this.vga, this.vram, this.fb := vga, vram, fb;
      palette := new Pixel[256](_ => 0);
      attrs := new int[CH_ATTR_SIZE](_ => 0);
      dirty := new bool[VRAM_PAGES](_ => false);
      cursorGlyph := new bv8[128](_ => 0xff);
      tables := new Tables();
    }

    method UpdateBasicParams() returns (changed: bool)
      requires Valid()
      modifies this`lineOffset, this`startAddr, this`lineCompare
      ensures changed == BasicChanged(old(Surf()), vga) && Surf() == WithBasic(old(Surf()), vga)
      ensures Valid() && State() == old(State()).(s := Surf())
    {
      changed := false;
      if LineOffset(vga) != lineOffset || StartAddr(vga) != startAddr || LineCompare(vga) != lineCompare {
        lineOffset, startAddr, lineCompare := LineOffset(vga), StartAddr(vga), LineCompare(vga);
        changed := true;
      }
      assert State().Wf();
    }

    /** Store colour i if it changed. */
    method StoreColour(i: nat, col: Pixel, changed: bool) returns (c: bool)
      requires i < 256 && palette.Length == 256
      modifies palette
      ensures palette[..] == old(palette[..])[i := col]
      ensures c == (changed || old(palette[i]) != col)
    {
      c := changed;
      if col != palette[i] {
        c := true;
        palette[i] := col;
      }
    }

    method UpdatePalette16() returns (changed: bool)
      requires Valid()
      modifies palette
      ensures changed == (Repaint16(old(palette[..]), vga) != old(palette[..]))
      ensures Valid() && State() == old(State()).(palette := Repaint16(old(palette[..]), vga))
    {
      changed := false;
      ghost var p := palette[..];
      for i := 0 to 16
        invariant palette[..] == Repaint16(p, vga)[..i] + p[i..]
        invariant changed == (Repaint16(p, vga)[..i] != p[..i])
      {
        changed := StoreColour(i, Colour16(vga, i), changed);
        ColourStored(p, Repaint16(p, vga), i);
      }
      UnusedKept(p, vga);
      assert palette[..] == Repaint16(p, vga);
    }

    method UpdatePalette256() returns (changed: bool)
      requires Valid()
      modifies palette
      ensures changed == (Repaint256(vga) != old(palette[..]))
      ensures Valid() && State() == old(State()).(palette := Repaint256(vga))
    {
      changed := false;
      ghost var p := palette[..];
      for i := 0 to 256
        invariant palette[..] == Repaint256(vga)[..i] + p[i..]
        invariant changed == (Repaint256(vga)[..i] != p[..i])
      {
        changed := StoreColour(i, Colour256(vga, i), changed);
        ColourStored(p, Repaint256(vga), i);
      }
      assert palette[..] == Repaint256(vga);
      assert p[..256] == p && Repaint256(vga)[..256] == Repaint256(vga);
    }

    lemma ColourStored(p: seq<Pixel>, q: seq<Pixel>, i: nat)
      requires |p| == |q| == 256 && i < 256
      ensures (q[..i] + p[i..])[i := q[i]] == q[..i + 1] + p[i + 1..] && (q[..i] + p[i..])[i] == p[i]
      ensures q[..i + 1] != p[..i + 1] <==> q[..i] != p[..i] || q[i] != p[i]
    {
      assert q[..i + 1] == q[..i] + [q[i]] && p[..i + 1] == p[..i] + [p[i]];
    }

    lemma UnusedKept(p: seq<Pixel>, v: Vga)
      requires |p| == 256
      ensures var q := Repaint16(p, v); q[..16] + p[16..] == q && (q[..16] != p[..16] <==> q != p)
    {
      var q := Repaint16(p, v);
      assert q == q[..16] + q[16..] && p == p[..16] + p[16..] && q[16..] == p[16..];
    }

    /** surface_resize */
    method Resize(linesize: nat, width: nat, height: nat)
      requires Valid() && linesize == 4 * width && At(0, width, height) <= fb.Length
      modifies this`offset, this`linesize, this`scrWidth, this`scrHeight
      ensures Surf() == Resized(old(Surf()), linesize, width, height)
      ensures Valid() && State() == old(State()).(s := Surf())
    {
      offset, this.linesize, scrWidth, scrHeight := VRAM_ACTUAL_SIZE, linesize, width, height;
    }

    method SyncDirty(reported: seq<bool>, ok: bool)
      requires Valid() && |reported| == VRAM_PAGES
      modifies dirty
      ensures Valid() && State() == old(State()).(dirty := Synced(old(dirty[..]), reported, ok))
    {
      for i := 0 to dirty.Length
        invariant forall p :: 0 <= p < i ==> dirty[p] == (!ok || old(dirty[p]) || reported[p])
        invariant forall p :: i <= p < dirty.Length ==> dirty[p] == old(dirty[p])
      {
        dirty[i] := dirty[i] || !ok || reported[i];
      }
      assert dirty[..] == Synced(old(dirty[..]), reported, ok);
    }

    method ClearDirty()
      requires Valid()
      modifies dirty
      ensures Valid() && State() == old(State()).(dirty := seq(VRAM_PAGES, p => false))
    {
      for i := 0 to dirty.Length
        invariant forall p :: 0 <= p < i ==> !dirty[p]
      {
        dirty[i] := false;
      }
      assert dirty[..] == seq(VRAM_PAGES, p => false);
    }

    method TrackShift() returns (changed: bool)
      requires Valid()
      modifies this`shiftControl, this`doubleScan
      ensures changed == ShiftChanged(old(Surf()), vga)
      ensures Surf() == old(Surf()).(shiftControl := ShiftControl(vga), doubleScan := DoubleScan(vga))
      ensures Valid() && State() == old(State()).(s := Surf())
    {
      changed := false;
      if ShiftControl(vga) != shiftControl || DoubleScan(vga) != doubleScan {
        changed := true;
        shiftControl := ShiftControl(vga);
        doubleScan := DoubleScan(vga);
      }
      assert State().Wf();
    }

    method TrackGeometry() returns (changed: bool)
      requires Valid() && lineOffset == LineOffset(vga) && At(0, DispWidth(vga), Height(vga)) <= fb.Length
      modifies this`offset, this`linesize, this`scrWidth, this`scrHeight, this`lastLineOffset, this`lastDepth
      ensures changed == GeometryChanged(old(Surf()), vga)
      ensures Surf() == if changed then
          Resized(old(Surf()), 4 * DispWidth(vga), DispWidth(vga), Height(vga))
          .(lastLineOffset := LineOffset(vga), lastDepth := Depth(vga))
        else old(Surf())
      ensures Valid() && State() == old(State()).(s := Surf())
    {
      changed := false;
      var (dispWidth, height, depth) := (DispWidth(vga), Height(vga), Depth(vga));
      if lineOffset != lastLineOffset || dispWidth != scrWidth || height != scrHeight || lastDepth != depth {
        Resize(dispWidth * 32 / 8, dispWidth, height);
        lastLineOffset := lineOffset;
        lastDepth := depth;
        changed := true;
      }
      assert State().Wf();
    }

    method UpdateGraphicPalette() returns (changed: bool)
      requires Valid() && Depth(vga) != 32
      modifies palette
      ensures changed == (GraphicPalette(old(palette[..]), vga) != old(palette[..]))
      ensures Valid() && State() == old(State()).(palette := GraphicPalette(old(palette[..]), vga))
    {
      match Mode(vga)
      case Line2 | Line2D2 | Line4 | Line4D2 => changed := UpdatePalette16();
      case Line8 | Line8D2 => changed := UpdatePalette256();
      case Line15 | Line16 | Line24 => changed := false;
    }

    method TrackGraphic(full: bool) returns (now: bool)
      requires Valid() && Depth(vga) != 32 && At(0, DispWidth(vga), Height(vga)) <= fb.Length
      modifies this, palette
      ensures now == GraphicFull(old(State()), full)
      ensures vga == old(vga) && Surf() == GraphicSurf(old(Surf()), vga)
      ensures Valid()
      ensures State() == old(State()).(s := GraphicSurf(old(Surf()), vga),
                                       palette := GraphicPalette(old(palette[..]), vga))
    {
      var basic := UpdateBasicParams();
      var shift := TrackShift();
      var geometry := TrackGeometry();
      var colours := UpdateGraphicPalette();
      now := full || basic || shift || geometry || colours;
    }

    /** Sync the dirty bitmap, draw what it calls for and clear it. */
    method DrawDirty(full: bool, reported: seq<bool>, ok: bool)
      requires Valid() && Depth(vga) != 32 && FrameOf(vga).Drawable(fb.Length) && |reported| == VRAM_PAGES
      requires offset == VRAM_ACTUAL_SIZE && linesize == 4 * DispWidth(vga)
      modifies fb, dirty
      ensures Valid()
      ensures fb[..] == DrawLines(old(fb[..]), FrameOf(vga), palette[..], vram[..],
                                  Synced(old(dirty[..]), reported, ok), full, |FrameOf(vga).lines|)
      ensures State() == old(State()).(fb := fb[..], dirty := seq(VRAM_PAGES, p => false))
    {
      ghost var f := FrameOf(vga);
      SyncDirty(reported, ok);
      DrawFrame(vga, tables, palette, fb, vram, dirty, offset, linesize, full, f);
      ClearDirty();
    }

    /** surface_draw_graphic */
    method DrawGraphic(full: bool, reported: seq<bool>, ok: bool)
      requires Valid() && Depth(vga) != 32 && FrameOf(vga).Drawable(fb.Length) && |reported| == VRAM_PAGES
      modifies this, palette, fb, dirty
      ensures Valid() && State() == GraphicSpec(old(State()), full, reported, ok)
    {
      var now := TrackGraphic(full);
      DrawDirty(now, reported, ok);
    }

    method TrackFonts() returns (changed: bool)
      requires Valid()
      modifies this`font0, this`font1
      ensures changed == (FontOffset0(vga) != old(font0) || FontOffset1(vga) != old(font1))
      ensures Surf() == old(Surf()).(font0 := FontOffset0(vga), font1 := FontOffset1(vga))
      ensures Valid() && State() == old(State()).(s := Surf())
    {
      changed := false;
      if FontOffset0(vga) != font0 {
        font0 := FontOffset0(vga);
        changed := true;
      }
      if FontOffset1(vga) != font1 {
        font1 := FontOffset1(vga);
        changed := true;
      }
      assert State().Wf();
    }

    method TestAndClearPlane2() returns (updated: bool)
      requires Valid()
      modifies this`vga
      ensures updated == Plane2Updated(old(vga)) && vga == ClearPlane2(old(vga))
      ensures Valid() && State() == old(State()).(vga := vga)
    {
      updated := Plane2Updated(vga);
      if updated {
        vga := vga.(planeUpdated := 0);
      }
      assert State().Wf();
    }

    /** Fonts, the plane 2 flag and the basic parameters, looked at even by a refresh that gives up. */
    method TrackText(full: bool) returns (now: bool)
      requires Valid()
      modifies this
      ensures now == (full || TextTouched(old(Surf()), old(vga)))
      ensures Valid() && State() == old(State()).(s := WithFonts(old(Surf()), old(vga)), vga := ClearPlane2(old(vga)))
    {
      ghost var v := vga;
      var fonts := TrackFonts();
      var plane2 := TestAndClearPlane2();
      ClearKeepsParams(v);
      var basic := UpdateBasicParams();
      now := full || fonts || plane2 || basic;
    }

    lemma ClearKeepsParams(v: Vga)
      ensures var w := ClearPlane2(v);
        LineOffset(w) == LineOffset(v) && StartAddr(w) == StartAddr(v) && LineCompare(w) == LineCompare(v)
    {
    }

    method TrackTextGeometry() returns (changed: bool)
      requires Valid() && At(0, TextWidth(vga), TextHeight(vga)) <= fb.Length
      modifies this`offset, this`linesize, this`scrWidth, this`scrHeight, this`lastCw, this`lastCh, this`lastDepth
      ensures changed == TextGeometryChanged(old(Surf()), vga)
      ensures Surf() == if changed then
          Resized(old(Surf()), 4 * TextWidth(vga), TextWidth(vga), TextHeight(vga))
            .(lastDepth := 0, lastCh := RowScans(vga) + 1, lastCw := CellWidthOf(vga))
        else old(Surf())
      ensures Valid() && State() == old(State()).(s := Surf())
    {
      changed := ResizeText(TextWidth(vga), TextHeight(vga), CellWidthOf(vga), RowScans(vga) + 1);
    }

    method ResizeText(w: nat, h: nat, cw: nat, cheight: nat) returns (changed: bool)
      requires Valid() && At(0, w, h) <= fb.Length
      modifies this`offset, this`linesize, this`scrWidth, this`scrHeight, this`lastCw, this`lastCh, this`lastDepth
      ensures changed == (w != old(scrWidth) || h != old(scrHeight) || cw != old(lastCw) || cheight != old(lastCh)
                          || old(lastDepth) != 0)
      ensures Surf() == if changed
                        then Resized(old(Surf()), 4 * w, w, h).(lastDepth := 0, lastCh := cheight, lastCw := cw)
                        else old(Surf())
      ensures Valid() && State() == old(State()).(s := Surf())
    {
      changed := false;
      if w != scrWidth || h != scrHeight || cw != lastCw || cheight != lastCh || lastDepth != 0 {
        Resize(w * 32 / 8, w, h);
        RememberCell(cw, cheight);
        changed := true;
      }
    }

    method RememberCell(cw: nat, cheight: nat)
      requires Valid()
      modifies this`lastCw, this`lastCh, this`lastDepth
      ensures Surf() == old(Surf()).(lastDepth := 0, lastCh := cheight, lastCw := cw)
      ensures Valid() && State() == old(State()).(s := Surf())
    {
      lastDepth := 0;
      lastCh := cheight;
      lastCw := cw;
      assert State().Wf();
    }

    method ForgetCell(i: nat)
      requires Valid()
      modifies attrs
      ensures Valid() && State() == old(State()).(attrs := Invalidate(old(attrs[..]), i))
    {
      if i < CH_ATTR_SIZE {
        attrs[i] := INVALID;
      }
    }

    method TrackCursor()
      requires Valid()
      modifies this`cursorOffset, this`cursorStart, this`cursorEnd, attrs
      ensures Surf() == old(Surf()).(cursorStart := vga.cr[0x0a], cursorEnd := vga.cr[0x0b],
                                     cursorOffset := CursorCell(vga))
      ensures Valid() && State() == old(State()).(s := Surf(), attrs := CursorAttrs(old(attrs[..]), old(Surf()), vga))
    {
      var cell := CursorCell(vga);
      if cell != cursorOffset || vga.cr[0x0a] != cursorStart || vga.cr[0x0b] != cursorEnd {
        ForgetCell(cursorOffset);
        ForgetCell(cell);
        StoreCursor(cell, vga.cr[0x0a], vga.cr[0x0b]);
      }
    }

    method StoreCursor(cell: nat, start: bv8, end: bv8)
      requires Valid()
      modifies this`cursorOffset, this`cursorStart, this`cursorEnd
      ensures Surf() == old(Surf()).(cursorStart := start, cursorEnd := end, cursorOffset := cell)
      ensures Valid() && State() == old(State()).(s := Surf())
    {
      cursorOffset, cursorStart, cursorEnd := cell, start, end;
      assert State().Wf();
    }

    /** surface_draw_blank */
    method DrawBlank(full: bool)
      requires Valid()
      modifies fb
      ensures Valid() && State() == BlankSpec(old(State()), full)
    {
      if !full {
        return;
      }
      var size := scrWidth * scrHeight;
      AtProduct(0, scrWidth, scrHeight);
      Commute(scrWidth, scrHeight);
      for i := 0 to size
        invariant forall j :: 0 <= j < i ==> fb[j] == 0
        invariant forall j :: i <= j < fb.Length ==> fb[j] == old(fb[j])
      {
        fb[i] := 0;
      }
      assert fb[..] == BlankSpec(old(State()), full).fb;
    }

    lemma Commute(a: nat, b: nat)
      ensures a * b == b * a
    {
    }

    method TrackLook(full: bool) returns (now: bool)
      requires Valid() && At(0, TextWidth(vga), TextHeight(vga)) <= fb.Length
      modifies this, palette, attrs
      ensures vga == old(vga) && Surf() == WithLook(old(Surf()), vga) && palette[..] == Repaint16(old(palette[..]), vga)
      ensures now == (full || TextGeometryChanged(old(Surf()), vga) || palette[..] != old(palette[..]))
      ensures Valid()
      ensures State() == old(State()).(s := Surf(), palette := palette[..],
                                       attrs := CursorAttrs(old(attrs[..]), old(Surf()), vga))
    {
      var geometry := TrackTextGeometry();
      var colours := UpdatePalette16();
      TrackCursor();
      now := full || geometry || colours;
    }

    /** surface_draw_text */
    method DrawText(full: bool)
      requires Valid() && (TooBig(vga) || TextDrawable(vga, fb.Length))
      modifies this, palette, attrs, fb
      ensures Valid() && State() == TextSpec(old(State()), full)
    {
      ghost var (v, s, p) := (vga, Surf(), palette[..]);
      var now := TrackText(full);
      ClearedRest(v, s, p);
      if At(0, Columns(vga), Rows(vga)) > CH_ATTR_SIZE {
        return;
      }
      TextSize(v, fb.Length);
      now := TrackLook(now);
      RepaintTwice(p, vga);
      DrawLook(LookOf(vga), now);
    }

    /** Clearing the plane 2 flag and storing fonts changes nothing else a text refresh consults. */
    lemma ClearedRest(v: Vga, s: Surf, p: seq<Pixel>)
      requires |p| == 256
      ensures var (w, t) := (ClearPlane2(v), WithFonts(s, v));
        && LookOf(w) == LookOf(v) && Columns(w) == Columns(v) && Rows(w) == Rows(v) && RowScans(w) == RowScans(v)
        && CellWidthOf(w) == CellWidthOf(v) && Repaint16(p, w) == Repaint16(p, v)
        && WithLook(t, w) == TextSurf(s, v) && TextGeometryChanged(t, w) == TextGeometryChanged(s, v)
        && CursorChanged(t, w) == CursorChanged(s, v) && CursorCell(w) == CursorCell(v)
    {
      ClearKeeps(v);
      ClearedParts(v);
      ClearedColours(v, p);
      assert TextGeometryChanged(WithFonts(s, v), ClearPlane2(v)) == TextGeometryChanged(s, v);
    }

    lemma ClearedParts(v: Vga)
      ensures var w := ClearPlane2(v);
        && Columns(w) == Columns(v) && Rows(w) == Rows(v) && RowScans(w) == RowScans(v)
        && CellWidthOf(w) == CellWidthOf(v) && CursorCell(w) == CursorCell(v)
    {
    }

    lemma ClearedColours(v: Vga, p: seq<Pixel>)
      requires |p| == 256
      ensures Repaint16(p, ClearPlane2(v)) == Repaint16(p, v)
    {
    }

    method DrawLook(look: Look, full: bool)
      requires Valid() && look == LookOf(vga) && look.Drawable(fb.Length) && palette[..] == Repaint16(palette[..], vga)
      modifies attrs, fb
      ensures Valid()
      ensures Cells(fb[..], attrs[..]) == DrawCells(old(Cells(fb[..], attrs[..])), look, vram[..], full, look.rows)
      ensures State() == old(State()).(fb := fb[..], attrs := attrs[..])
    {
      LookPalette(palette[..], vga);
      assert palette[..16] == palette[..][..16];
      ghost var was := State();
      DrawScreen(tables, palette, fb, attrs, vram, cursorGlyph, look, full);
      assert State() == was.(fb := fb[..], attrs := attrs[..]);
      assert tables.Valid() && cursorGlyph[..] == CursorGlyph();
    }

    lemma LookPalette(p: seq<Pixel>, v: Vga)
      requires |p| == 256 && p == Repaint16(p, v)
      ensures LookOf(v).palette == p[..16]
    {
      assert forall i | 0 <= i < 16 :: p[..16][i] == Repaint16(p, v)[i] == Colour16(v, i);
    }

    lemma TextSize(v: Vga, cells: nat)
      requires TextDrawable(v, cells)
      ensures At(0, TextWidth(v), TextHeight(v)) <= cells
    {
      LookArea(LookOf(v), cells);
    }

    lemma LookArea(look: Look, cells: nat)
      requires look.Drawable(cells)
      ensures At(0, look.stride, look.rows * look.ch) <= cells
    {
      SameArea(look.stride, look.ch, look.rows);
    }

    lemma SameArea(stride: nat, ch: nat, rows: nat)
      ensures At(0, stride * ch, rows) == At(0, stride, rows * ch)
    {
      AtProduct(0, stride * ch, rows);
      AtProduct(0, stride, rows * ch);
      Regroup(stride, ch, rows, 0);
    }

    /** surface_refresh */
    method Refresh(full: bool, reported: seq<bool>, ok: bool)
      requires Valid() && CanRefresh(State()) && |reported| == VRAM_PAGES
      modifies this, palette, attrs, fb, dirty
      ensures Valid() && State() == RefreshSpec(old(State()), full, reported, ok)
    {
      var mode := GraphicMode(vga);
      var now := full;
      if mode != gmode {
        gmode := mode;
        now := true;
      }
      assert State().Wf();
      if mode == GMODE_TEXT {
        DrawText(now);
      } else if mode == GMODE_GRAPHIC {
        DrawGraphic(now, reported, ok);
      } else {
        DrawBlank(now);
      }
    }
  }
}
