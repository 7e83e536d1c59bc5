/** The VBE display interface of device.c: mode setting, virtual screens, panning, banks. */
module Vbe {
  import opened VgaRegs
  import opened Bytes
  import opened Scanout
  import opened Ports

  /** Bitwise and of two naturals. */
  function And(a: nat, b: nat): (r: nat)
    ensures r <= a && r <= b
    decreases a
  {
    if a == 0 then 0 else 2 * And(a / 2, b / 2) + (a % 2) * (b % 2)
  }

  /** Bytes in a line of w pixels: w * ((bpp + 7) >> 3), or half a byte a pixel. */
  function VbeLineBytes(bpp: u16, w: u16): u32
    requires BppOk(bpp)
  {
    if bpp == 4 then w / 2
    else if bpp == 0 then 0
    else if bpp == 8 then w
    else if bpp == 15 || bpp == 16 then 2 * w
    else if bpp == 24 then 3 * w
    else 4 * w
  }

  /** device_update_lfb_addr */
  function UpdateLfb(d: Dev, lfb: nat): (e: Dev)
    ensures (d.part1 ==> e.part1) && e.vga.palette == d.vga.palette
  {
    if d.vga.lfbAddr == lfb then d
    else
      var vbe := d.vga.vbe[VBE_LFB_ADDRESS_H := lfb / 0x10000 % 0x10000][VBE_LFB_ADDRESS_L := lfb % 0x10000]
                          [VBE_VIDEO_MEMORY_64K := d.vga.lfbSize / 0x10000 % 0x10000];
      Dev(d.vga.(lfbAddr := lfb, vbe := vbe), true, d.part2)
  }

  function VbeIndexWrite(d: Dev, val: u16): Dev {
    Dev(d.vga.(vbeIndex := val), true, d.part2)
  }

  // ------------------------------------------------------------------
  // Turning a mode on

  /** The virtual screen is the physical one. */
  function ModeVbe(vbe: seq<u16>): (w: seq<u16>)
    requires |vbe| == VBE_NB
    ensures |w| == VBE_NB
  {
    vbe[VBE_VIRT_WIDTH := vbe[VBE_XRES]][VBE_VIRT_HEIGHT := vbe[VBE_YRES]][VBE_X_OFFSET := 0][VBE_Y_OFFSET := 0]
  }

  /** cr[7]: bits 8 and 9 of the display end, and bit 8 of line compare. */
  function OverflowBits(cr7: bv8, h: int): bv8 {
    (cr7 & 0xbd) | (if h / 256 % 2 == 1 then 0x02 else 0) | (if h / 512 % 2 == 1 then 0x40 else 0) | 0x10
  }

  function ModeCrtc(cr: seq<bv8>, xres: u16, yres: u16, lineOffset: u32): (c: seq<bv8>)
    requires |cr| == 256
    ensures |c| == 256
  {
    cr[0x17 := cr[0x17] | 3]
      [0x13 := ByteOf(lineOffset / 8 % 256)]
      [0x01 := ByteOf((xres / 8 - 1) % 256)]
      [0x12 := ByteOf((yres - 1) % 256)]
      [0x07 := OverflowBits(cr[7], yres - 1)]
      [0x18 := 0xff]
      [0x09 := (cr[9] | 0x40) & 0x60]
  }

  function ModeSequencer(sr: seq<bv8>, bpp: u16): (s: seq<bv8>)
    requires |sr| == 256
    ensures |s| == 256
  {
    if bpp == 4 then sr[1 := sr[1] & 0xf7] else sr[4 := sr[4] | 0x08][2 := sr[2] | 0x0f]
  }

  function ModeGraphics(gr: seq<bv8>, bpp: u16): (g: seq<bv8>)
    requires |gr| == 256
    ensures |g| == 256
  {
    gr[6 := (gr[6] & 0xf3) | 0x05][5 := (gr[5] & 0x9f) | (if bpp == 4 then 0 else 0x40)]
  }

  /** Registers once a mode has been turned on, before the enable register itself is stored. */
  function ModeSet(v: Vga): (w: Vga)
    requires BppOk(v.vbe[VBE_BPP])
    ensures w.palette == v.palette
  {
    var lineOffset := VbeLineBytes(v.vbe[VBE_BPP], v.vbe[VBE_XRES]);
    v.(vbe := ModeVbe(v.vbe), vbeLineOffset := lineOffset, vbeStart := 0,
       cr := ModeCrtc(v.cr, v.vbe[VBE_XRES], v.vbe[VBE_YRES], lineOffset),
       sr := ModeSequencer(v.sr, v.vbe[VBE_BPP]), gr := ModeGraphics(v.gr, v.vbe[VBE_BPP]))
  }

  /** Bytes cleared when a mode is turned on without VBE_DISPI_NOCLEARMEM. */
  function ClearBytes(v: Vga): nat
    requires BppOk(v.vbe[VBE_BPP])
  {
    v.vbe[VBE_YRES] * VbeLineBytes(v.vbe[VBE_BPP], v.vbe[VBE_XRES])
  }

  predicate TurnsOn(v: Vga, val: u16) {
    val % 2 == 1 && v.vbe[VBE_ENABLE] % 2 == 0
  }

  function EnableWrite(d: Dev, val: u16, lfb: nat): (e: Dev)
    requires BppOk(d.vga.vbe[VBE_BPP])
    ensures e.vga.palette == d.vga.palette
  {
    var v := if TurnsOn(d.vga, val) then ModeSet(UpdateLfb(d, lfb).vga) else d.vga.(bankOffset := 0);
    Dev(v.(dac8bit := val / 32 % 2 == 1, vbe := v.vbe[VBE_ENABLE := val]), true, d.part2)
  }

  // ------------------------------------------------------------------
  // The data register

  /** The division by the line offset is defined. */
  predicate DivisorOk(v: Vga, val: u16)
    requires BppOk(v.vbe[VBE_BPP])
  {
    v.vbeIndex == VBE_VIRT_WIDTH && v.vbe[VBE_XRES] <= val ==> VbeLineBytes(v.vbe[VBE_BPP], val) > 0
  }

  function VirtWidthWrite(v: Vga, val: u16): Vga
    requires BppOk(v.vbe[VBE_BPP]) && (v.vbe[VBE_XRES] <= val ==> VbeLineBytes(v.vbe[VBE_BPP], val) > 0)
  {
    if val < v.vbe[VBE_XRES] then v
    else
      var lineOffset := VbeLineBytes(v.vbe[VBE_BPP], val);
      var h := VRAM_ACTUAL_SIZE / lineOffset;
      if h < v.vbe[VBE_YRES] then v
      else v.(vbe := v.vbe[VBE_VIRT_WIDTH := val][VBE_VIRT_HEIGHT := h % 0x10000], vbeLineOffset := lineOffset)
  }

  /** The start address follows the offsets, in units of four bytes; the sums are 32-bit. */
  function PanStart(v: Vga, vbe: seq<u16>): u32
    requires |vbe| == VBE_NB && BppOk(vbe[VBE_BPP])
  {
    ((v.vbeLineOffset * vbe[VBE_Y_OFFSET]) % WORD + VbeLineBytes(vbe[VBE_BPP], vbe[VBE_X_OFFSET])) % WORD / 4
  }

  /** What a write leaves in the identification and screen registers: itself, if acceptable. */
  function Accepted(v: Vga, val: u16): u16
    requires v.vbeIndex <= VBE_BPP
  {
    var was := v.vbe[v.vbeIndex];
    if v.vbeIndex == VBE_ID then (if VBE_ID0 <= val <= VBE_ID4 then val else was)
    else if v.vbeIndex == VBE_XRES then (if val <= VBE_MAX_XRES && val % 8 == 0 then val else was)
    else if v.vbeIndex == VBE_YRES then (if val <= VBE_MAX_YRES then val else was)
    else if val == 0 then 8
    else if BppOk(val) then val
    else was
  }

  function BankWritten(v: Vga, val: u16): Vga {
    var bank := And(val, if v.vbe[VBE_BPP] == 4 then v.vbeBankMask / 4 else v.vbeBankMask);
    v.(vbe := v.vbe[VBE_BANK := bank], bankOffset := bank * 0x10000)
  }

  function VbeWritten(v: Vga, val: u16): (w: Vga)
    requires BppOk(v.vbe[VBE_BPP]) && DivisorOk(v, val) && v.vbeIndex != VBE_ENABLE
    ensures w.palette == v.palette
  {
    if v.vbeIndex <= VBE_BPP then v.(vbe := v.vbe[v.vbeIndex := Accepted(v, val)])
    else if v.vbeIndex == VBE_BANK then BankWritten(v, val)
    else if v.vbeIndex == VBE_VIRT_WIDTH then VirtWidthWrite(v, val)
    else if v.vbeIndex == VBE_X_OFFSET || v.vbeIndex == VBE_Y_OFFSET then
      v.(vbe := v.vbe[v.vbeIndex := val], vbeStart := PanStart(v, v.vbe[v.vbeIndex := val]))
    else v
  }

  function VbeDataWrite(d: Dev, val: u16, lfb: nat): (e: Dev)
    requires BppOk(d.vga.vbe[VBE_BPP]) && DivisorOk(d.vga, val)
    ensures e.vga.palette == d.vga.palette && e.part1 && e.part2 == d.part2
  {
    if d.vga.vbeIndex == VBE_ENABLE then EnableWrite(d.(part1 := true), val, lfb)
    else Dev(VbeWritten(d.vga, val), true, d.part2)
  }

  // ------------------------------------------------------------------
  // Invariant

  lemma ScreenFits(bpp: u16, xres: u16, yres: u16)
    requires BppOk(bpp) && xres <= VBE_MAX_XRES && yres <= VBE_MAX_YRES
    ensures yres * VbeLineBytes(bpp, xres) <= 768 * 4096
  {
    MulMono(yres, 768, VbeLineBytes(bpp, xres), 4096);
  }

  lemma MulMono(a: nat, b: nat, c: nat, d: nat)
    requires a <= b && c <= d
    ensures a * c <= b * d
  {
    assert a * c <= b * c <= b * d;
  }

  /** The clear on enabling a mode stays inside the frame buffer. */
  lemma ClearInside(v: Vga)
    requires RegsOk(v)
    ensures ClearBytes(v) <= VRAM_ACTUAL_SIZE
  {
    ScreenFits(v.vbe[VBE_BPP], v.vbe[VBE_XRES], v.vbe[VBE_YRES]);
  }

  lemma SequencerBits(s1: bv8, s2: bv8, s4: bv8)
    requires s1 & 0x3d == s1 && s2 & 0x0f == s2 && s4 & 0x0e == s4
    ensures (s1 & 0xf7) & 0x3d == s1 & 0xf7 && (s2 | 0x0f) & 0x0f == s2 | 0x0f && (s4 | 0x08) & 0x0e == s4 | 0x08
  {
  }

  lemma GraphicsBits(g5: bv8, g6: bv8)
    requires g5 & 0x7b == g5 && g6 & 0x0f == g6
    ensures ((g6 & 0xf3) | 0x05) & 0x0f == (g6 & 0xf3) | 0x05
    ensures (g5 & 0x9f) & 0x7b == g5 & 0x9f && ((g5 & 0x9f) | 0x40) & 0x7b == (g5 & 0x9f) | 0x40
    ensures (g5 & 0x9f) | 0 == g5 & 0x9f
  {
  }

  lemma StoreMasked(regs: seq<bv8>, masks: seq<bv8>, i: nat, b: bv8)
    requires Masked(regs, masks) && i < |masks| && b & masks[i] == b
    ensures Masked(regs[i := b], masks)
  {
  }

  lemma SequencerMasked(sr: seq<bv8>, bpp: u16)
    requires |sr| == 256 && Masked(sr, SR_MASK)
    ensures Masked(ModeSequencer(sr, bpp), SR_MASK)
  {
    assert sr[1] & SR_MASK[1] == sr[1] && sr[2] & SR_MASK[2] == sr[2] && sr[4] & SR_MASK[4] == sr[4];
    SequencerBits(sr[1], sr[2], sr[4]);
    if bpp == 4 {
      StoreMasked(sr, SR_MASK, 1, sr[1] & 0xf7);
    } else {
      StoreMasked(sr, SR_MASK, 4, sr[4] | 0x08);
      StoreMasked(sr[4 := sr[4] | 0x08], SR_MASK, 2, sr[2] | 0x0f);
    }
  }

  lemma GraphicsMasked(gr: seq<bv8>, bpp: u16)
    requires |gr| == 256 && Masked(gr, GR_MASK)
    ensures Masked(ModeGraphics(gr, bpp), GR_MASK)
  {
    assert gr[5] & GR_MASK[5] == gr[5] && gr[6] & GR_MASK[6] == gr[6];
    GraphicsBits(gr[5], gr[6]);
    StoreMasked(gr, GR_MASK, 6, (gr[6] & 0xf3) | 0x05);
    StoreMasked(gr[6 := (gr[6] & 0xf3) | 0x05], GR_MASK, 5, (gr[5] & 0x9f) | (if bpp == 4 then 0 else 0x40));
  }

  lemma LfbOk(d: Dev, lfb: nat)
    requires RegsOk(d.vga)
    ensures RegsOk(UpdateLfb(d, lfb).vga)
  {
  }

  lemma ModeSetOk(v: Vga)
    requires RegsOk(v)
    ensures RegsOk(ModeSet(v))
  {
    SequencerMasked(v.sr, v.vbe[VBE_BPP]);
    GraphicsMasked(v.gr, v.vbe[VBE_BPP]);
    ScreenFits(v.vbe[VBE_BPP], v.vbe[VBE_XRES], v.vbe[VBE_YRES]);
  }

  lemma VirtFits(lineOffset: nat)
    requires lineOffset > 0
    ensures VRAM_ACTUAL_SIZE / lineOffset % 0x10000 * lineOffset <= VRAM_ACTUAL_SIZE
  {
    var h := VRAM_ACTUAL_SIZE / lineOffset;
    assert h * lineOffset <= VRAM_ACTUAL_SIZE;
    assert h % 0x10000 * lineOffset <= h * lineOffset;
  }

  lemma VirtWidthOk(v: Vga, val: u16)
    requires RegsOk(v) && v.vbeIndex == VBE_VIRT_WIDTH && DivisorOk(v, val)
    ensures RegsOk(VirtWidthWrite(v, val))
  {
    var lineOffset := VbeLineBytes(v.vbe[VBE_BPP], val);
    if v.vbe[VBE_XRES] <= val {
      VirtFits(lineOffset);
    }
  }

  /** The bounds look at four of the registers. */
  lemma VbeKept(vbe: seq<u16>, now: seq<u16>, bankOffset: u32, was: u32, bankMask: u32, lineOffset: u32)
    requires |vbe| == VBE_NB && |now| == VBE_NB && VbeOk(vbe, was, bankMask, lineOffset)
    requires now[VBE_VIRT_HEIGHT] == vbe[VBE_VIRT_HEIGHT]
    requires now[VBE_XRES] <= VBE_MAX_XRES && now[VBE_XRES] % 8 == 0 && now[VBE_YRES] <= VBE_MAX_YRES
    requires BppOk(now[VBE_BPP])
    requires bankOffset % 0x10000 == 0 && bankOffset <= 63 * 0x10000
    ensures VbeOk(now, bankOffset, bankMask, lineOffset)
  {
  }

  lemma AcceptedOk(v: Vga, val: u16)
    requires RegsOk(v) && v.vbeIndex <= VBE_BPP
    ensures RegsOk(v.(vbe := v.vbe[v.vbeIndex := Accepted(v, val)]))
  {
    VbeKept(v.vbe, v.vbe[v.vbeIndex := Accepted(v, val)], v.bankOffset, v.bankOffset, v.vbeBankMask, v.vbeLineOffset);
  }

  lemma BankOk(v: Vga, val: u16)
    requires RegsOk(v)
    ensures RegsOk(BankWritten(v, val))
  {
    var w := BankWritten(v, val);
    VbeKept(v.vbe, w.vbe, w.bankOffset, v.bankOffset, v.vbeBankMask, v.vbeLineOffset);
  }

  lemma PanOk(v: Vga, val: u16, start: u32)
    requires RegsOk(v) && (v.vbeIndex == VBE_X_OFFSET || v.vbeIndex == VBE_Y_OFFSET)
    ensures RegsOk(v.(vbe := v.vbe[v.vbeIndex := val], vbeStart := start))
  {
    VbeKept(v.vbe, v.vbe[v.vbeIndex := val], v.bankOffset, v.bankOffset, v.vbeBankMask, v.vbeLineOffset);
  }

  lemma VbeWrittenOk(v: Vga, val: u16)
    requires RegsOk(v) && DivisorOk(v, val) && v.vbeIndex != VBE_ENABLE
    ensures RegsOk(VbeWritten(v, val))
  {
    if v.vbeIndex <= VBE_BPP {
      AcceptedOk(v, val);
    } else if v.vbeIndex == VBE_BANK {
      BankOk(v, val);
    } else if v.vbeIndex == VBE_VIRT_WIDTH {
      VirtWidthOk(v, val);
    } else if v.vbeIndex == VBE_X_OFFSET || v.vbeIndex == VBE_Y_OFFSET {
      PanOk(v, val, PanStart(v, v.vbe[v.vbeIndex := val]));
    }
  }

  lemma EnableOk(d: Dev, val: u16, lfb: nat)
    requires RegsOk(d.vga)
    ensures RegsOk(EnableWrite(d, val, lfb).vga)
  {
    if TurnsOn(d.vga, val) {
      LfbOk(d, lfb);
      ModeSetOk(UpdateLfb(d, lfb).vga);
      VbeStored(ModeSet(UpdateLfb(d, lfb).vga), val / 32 % 2 == 1, val);
    } else {
      var v := d.vga.(bankOffset := 0);
      VbeKept(d.vga.vbe, v.vbe, 0, d.vga.bankOffset, v.vbeBankMask, v.vbeLineOffset);
      VbeStored(v, val / 32 % 2 == 1, val);
    }
  }

  lemma VbeStored(v: Vga, dac8bit: bool, val: u16)
    requires RegsOk(v)
    ensures RegsOk(v.(dac8bit := dac8bit, vbe := v.vbe[VBE_ENABLE := val]))
  {
    VbeKept(v.vbe, v.vbe[VBE_ENABLE := val], v.bankOffset, v.bankOffset, v.vbeBankMask, v.vbeLineOffset);
  }

  lemma VbeWriteOk(d: Dev, val: u16, lfb: nat)
    requires RegsOk(d.vga) && DivisorOk(d.vga, val)
    ensures RegsOk(VbeDataWrite(d, val, lfb).vga)
  {
    if d.vga.vbeIndex == VBE_ENABLE {
      EnableOk(d.(part1 := true), val, lfb);
    } else {
      VbeWrittenOk(d.vga, val);
    }
  }

  // ------------------------------------------------------------------
  // Mode setting leaves the CRT controller in step

  lemma OverflowFlags(cr7: bv8, h: int)
    ensures Flag(OverflowBits(cr7, h), 1) == h / 256 % 2 && Flag(OverflowBits(cr7, h), 6) == h / 512 % 2
    ensures Flag(OverflowBits(cr7, h), 4) == 1
  {
  }

  lemma NinthBits(cr9: bv8)
    ensures Flag((cr9 | 0x40) & 0x60, 6) == 1 && Flag((cr9 | 0x40) & 0x60, 7) == 0 && ((cr9 | 0x40) & 0x60) & 0x1f == 0
  {
  }

  lemma CrtcWidth(xres: u16)
    requires xres <= VBE_MAX_XRES && xres % 8 == 0
    ensures (ByteOf((xres / 8 - 1) % 256) as int + 1) * 8 == if xres == 0 then 2048 else xres
  {
  }

  lemma HeightBits(h: int)
    requires -1 <= h < 1024
    ensures h % 256 + h / 256 % 2 * 256 + h / 512 % 2 * 512 == if h < 0 then 1023 else h
  {
  }

  lemma CrtcHeight(cr7: bv8, yres: u16)
    requires yres <= VBE_MAX_YRES
    ensures var h := yres - 1;
      ByteOf(h % 256) as int + Flag(OverflowBits(cr7, h), 1) * 256 + Flag(OverflowBits(cr7, h), 6) * 512 + 1
        == if yres == 0 then 1024 else yres
  {
    OverflowFlags(cr7, yres - 1);
    HeightBits(yres - 1);
  }

  lemma CrtcCells(cr: seq<bv8>, xres: u16, yres: u16, lineOffset: u32)
    requires |cr| == 256
    ensures var c := ModeCrtc(cr, xres, yres, lineOffset);
      && c[1] == ByteOf((xres / 8 - 1) % 256) && c[0x12] == ByteOf((yres - 1) % 256)
      && c[7] == OverflowBits(cr[7], yres - 1)
      && c[0x18] == 0xff && c[9] == (cr[9] | 0x40) & 0x60
  {
  }

  /** Turning a mode on leaves the CRT controller describing the same screen the VBE registers
      do: width, height, line compare, one scan per row. A width or height of zero wraps to the
      greatest the CRT controller can hold. */
  lemma CrtcAgrees(cr: seq<bv8>, xres: u16, yres: u16, lineOffset: u32)
    requires |cr| == 256 && xres <= VBE_MAX_XRES && xres % 8 == 0 && yres <= VBE_MAX_YRES
    ensures var c := ModeCrtc(cr, xres, yres, lineOffset);
      && (c[1] as int + 1) * 8 == (if xres == 0 then 2048 else xres)
      && c[0x12] as int + Flag(c[7], 1) * 256 + Flag(c[7], 6) * 512 + 1 == (if yres == 0 then 1024 else yres)
      && c[0x18] as int + Flag(c[7], 4) * 256 + Flag(c[9], 6) * 512 == 1023
      && c[9] & 0x1f == 0 && Flag(c[9], 7) == 0
  {
    CrtcCells(cr, xres, yres, lineOffset);
    CrtcWidth(xres);
    CrtcHeight(cr[7], yres);
    OverflowFlags(cr[7], yres - 1);
    NinthBits(cr[9]);
    assert 0xff as bv8 as int == 255;
  }
}
