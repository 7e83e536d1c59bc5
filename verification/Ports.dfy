/** The VGA ports of device.c: register masks, protections, the attribute flip-flop and
    the palette state machine. */
module Ports {
  import opened VgaRegs

  /** The device's registers and the two dirty flags of the dump. */
  datatype Dev = Dev(vga: Vga, part1: bool, part2: bool)

  /** __sr_mask and __gr_mask: the bits a write can set. */
  const SR_MASK: seq<bv8> := [0x03, 0x3d, 0x0f, 0x3f, 0x0e, 0x00, 0x00, 0xff]
  const GR_MASK: seq<bv8> := [0x0f, 0x0f, 0x0f, 0x1f, 0x03, 0x7b, 0x0f, 0x0f, 0xff, 0, 0, 0, 0, 0, 0, 0]

  const VIRT_LIMIT: nat := VRAM_ACTUAL_SIZE

  predicate BppOk(bpp: u16) {
    bpp == 0 || bpp == 4 || bpp == 8 || bpp == 15 || bpp == 16 || bpp == 24 || bpp == 32
  }

  /** Every register holds only bits its mask lets through. */
  ghost predicate Masked(regs: seq<bv8>, masks: seq<bv8>) {
    |masks| <= |regs| && forall i | 0 <= i < |masks| :: regs[i] & masks[i] == regs[i]
  }

  ghost predicate VbeOk(vbe: seq<u16>, bankOffset: u32, bankMask: u32, lineOffset: u32)
    requires |vbe| == VBE_NB
  {
    && bankMask == 63
    && bankOffset % 0x10000 == 0 && bankOffset <= 63 * 0x10000
    && vbe[VBE_XRES] <= VBE_MAX_XRES && vbe[VBE_XRES] % 8 == 0 && vbe[VBE_YRES] <= VBE_MAX_YRES && BppOk(vbe[VBE_BPP])
    && vbe[VBE_VIRT_HEIGHT] * lineOffset <= VIRT_LIMIT
  }

  /** The index registers stay inside what they index. */
  predicate Indexed(v: Vga) {
    v.srIndex < 8 && v.grIndex < 16 && v.dacSub < 3
  }

  /** What holds of the registers in every reachable state. */
  ghost predicate RegsOk(v: Vga) {
    && Indexed(v)
    && Masked(v.sr, SR_MASK) && Masked(v.gr, GR_MASK)
    && VbeOk(v.vbe, v.bankOffset, v.vbeBankMask, v.vbeLineOffset)
  }

  /** The bounds the masks give the registers that index tables or shift. */
  lemma MaskedRegs(v: Vga)
    requires RegsOk(v)
    ensures v.sr[2] < 16 && v.gr[0] < 16 && v.gr[1] < 16 && v.gr[2] < 16 && v.gr[7] < 16
    ensures v.gr[3] < 32 && v.gr[4] < 4
  {
    Below16(v.sr[2]);
    Below16(v.gr[0]);
    Below16(v.gr[1]);
    Below16(v.gr[2]);
    Below16(v.gr[7]);
    BelowMask(v.gr[3], v.gr[4]);
    assert v.gr[3] & GR_MASK[3] == v.gr[3] && v.gr[4] & GR_MASK[4] == v.gr[4];
  }

  lemma Below16(b: bv8)
    ensures b & 0x0f == b ==> b < 16
  {
  }

  lemma BelowMask(a: bv8, b: bv8)
    ensures (a & 0x1f == a ==> a < 32) && (b & 0x03 == b ==> b < 4)
  {
  }

  // ------------------------------------------------------------------
  // Reads

  /** The monochrome ports are dead in colour mode and the colour ports in monochrome. */
  predicate Dead(v: Vga, addr: nat) {
    var colour := v.msr & MSR_COLOR_EMULATION != 0;
    (0x3b0 <= addr <= 0x3bf && colour) || (0x3d0 <= addr <= 0x3df && !colour)
  }

  predicate SameVbe(v: Vga, w: Vga) {
    w.vbe == v.vbe && w.bankOffset == v.bankOffset && w.vbeBankMask == v.vbeBankMask
    && w.vbeLineOffset == v.vbeLineOffset
  }

  function PortValue(v: Vga, addr: nat): bv8
    requires Indexed(v)
  {
    if Dead(v, addr) then 0xff
    else if addr == 0x3c0 then (if v.arFlipFlop == 0 then v.arIndex as bv8 else 0)
    else if addr == 0x3c1 then (if v.arIndex % 0x20 < 21 then v.ar[v.arIndex % 0x20] else 0)
    else if addr == 0x3c2 then v.st00
    else if addr == 0x3c4 then v.srIndex as bv8
    else if addr == 0x3c5 then v.sr[v.srIndex]
    else if addr == 0x3c7 then v.dacState as bv8
    else if addr == 0x3c8 then v.dacWrite as bv8
    else if addr == 0x3c9 then v.palette[3 * v.dacRead + v.dacSub]
    else if addr == 0x3ca then v.fcr
    else if addr == 0x3cc then v.msr
    else if addr == 0x3ce then v.grIndex as bv8
    else if addr == 0x3cf then v.gr[v.grIndex]
    else if addr == 0x3b4 || addr == 0x3d4 then v.crIndex as bv8
    else if addr == 0x3b5 || addr == 0x3d5 then v.cr[v.crIndex]
    else if addr == 0x3ba || addr == 0x3da then v.st01 ^ ST01_TOGGLE
    else 0
  }

  /** A palette read moves the read pointer; a status read toggles the status and clears the
      flip-flop, without marking anything. */
  function AfterRead(d: Dev, addr: nat): (e: Dev)
    requires Indexed(d.vga)
    ensures Indexed(e.vga) && SameVbe(d.vga, e.vga) && e.vga.sr == d.vga.sr && e.vga.gr == d.vga.gr
  {
    if Dead(d.vga, addr) then d
    else if addr == 0x3c9 then Dev(NextRead(d.vga), true, d.part2)
    else if addr == 0x3ba || addr == 0x3da then d.(vga := d.vga.(st01 := d.vga.st01 ^ ST01_TOGGLE, arFlipFlop := 0))
    else d
  }

  function PortRead(d: Dev, addr: nat): (r: (Dev, bv8))
    requires Indexed(d.vga)
  {
    (AfterRead(d, addr), PortValue(d.vga, addr))
  }

  /** The palette read pointer advances a component at a time. */
  function NextRead(v: Vga): Vga
    requires v.dacSub < 3
  {
    v.(dacSub := (v.dacSub + 1) % 3, dacRead := if v.dacSub == 2 then (v.dacRead + 1) % 0x100 else v.dacRead)
  }

  // ------------------------------------------------------------------
  // Writes

  /** 0x3c0: alternately index and data. */
  function AttrWrite(v: Vga, val: bv8): Vga {
    v.(arIndex := if v.arFlipFlop == 0 then val as int % 0x40 else v.arIndex,
       ar := if v.arFlipFlop == 0 then v.ar else AttrStore(v.ar, v.arIndex % 0x20, val),
       arFlipFlop := Toggle(v.arFlipFlop))
  }

  /** x ^ 1 */
  function Toggle(x: u32): u32 {
    if x % 2 == 0 then x + 1 else x - 1
  }

  function AttrStore(ar: seq<bv8>, i: nat, val: bv8): (a: seq<bv8>)
    requires |ar| == 21
    ensures |a| == 21
  {
    if i < 0x10 then ar[i := val & 0x3f]
    else if i == 0x10 then ar[i := val & 0xef]
    else if i == 0x11 then ar[i := val]
    else if i == 0x12 then ar[i := val & 0x3f]
    else if i == 0x13 || i == 0x14 then ar[i := val & 0x0f]
    else ar
  }

  /** 0x3c9: three components make an entry. */
  function DacWrite(v: Vga, val: bv8): Vga
    requires Indexed(v)
  {
    var cache := v.dacCache[v.dacSub := val];
    v.(dacCache := cache,
       dacSub := (v.dacSub + 1) % 3,
       dacWrite := if v.dacSub == 2 then (v.dacWrite + 1) % 0x100 else v.dacWrite,
       palette := if v.dacSub == 2 then StoreEntry(v.palette, v.dacWrite, cache) else v.palette)
  }

  function StoreEntry(palette: seq<bv8>, i: nat, cache: seq<bv8>): (p: seq<bv8>)
    requires |palette| == 768 && i < 256 && |cache| == 3
    ensures |p| == 768
  {
    palette[3 * i := cache[0]][3 * i + 1 := cache[1]][3 * i + 2 := cache[2]]
  }

  /** 0x3b5 and 0x3d5: registers 0 to 7 are protected by cr[0x11] bit 7, all but cr[7] bit 4. */
  function CrtcStore(cr: seq<bv8>, i: nat, val: bv8): (c: seq<bv8>)
    requires |cr| == 256 && i < 256
    ensures |c| == 256
  {
    if cr[0x11] & 0x80 != 0 && i <= 7 then
      if i == 7 then cr[7 := (cr[7] & 0xef) | (val & 0x10)] else cr
    else cr[i := val]
  }

  function PortWrite(d: Dev, addr: nat, val: bv8): (e: Dev)
    requires Indexed(d.vga)
    ensures Indexed(e.vga)
  {
    var v := d.vga;
    if Dead(v, addr) then d
    else
      Dev(Written(v, addr, val), true, d.part2 || (addr == 0x3c9 && v.dacSub == 2))
  }

  function Written(v: Vga, addr: nat, val: bv8): (w: Vga)
    requires Indexed(v)
    ensures Indexed(w) && SameVbe(v, w)
    ensures (addr != 0x3c5 ==> w.sr == v.sr) && (addr != 0x3cf ==> w.gr == v.gr)
    ensures addr != 0x3c9 || v.dacSub != 2 ==> w.palette == v.palette
  {
    if addr == 0x3c0 then AttrWrite(v, val)
    else if addr == 0x3c2 then v.(msr := val & 0xef)
    else if addr == 0x3c4 then v.(srIndex := val as int % 8)
    else if addr == 0x3c5 then v.(sr := v.sr[v.srIndex := val & SR_MASK[v.srIndex]])
    else if addr == 0x3c7 then v.(dacRead := val as int, dacSub := 0, dacState := 3)
    else if addr == 0x3c8 then v.(dacWrite := val as int, dacSub := 0, dacState := 0)
    else if addr == 0x3c9 then DacWrite(v, val)
    else if addr == 0x3ce then v.(grIndex := val as int % 0x10)
    else if addr == 0x3cf then v.(gr := v.gr[v.grIndex := val & GR_MASK[v.grIndex]])
    else if addr == 0x3b4 || addr == 0x3d4 then v.(crIndex := val as int)
    else if addr == 0x3b5 || addr == 0x3d5 then v.(cr := CrtcStore(v.cr, v.crIndex, val))
    else if addr == 0x3ba || addr == 0x3da then v.(fcr := val & 0x10)
    else v
  }

  // ------------------------------------------------------------------
  // Invariant

  lemma MaskTwice(val: bv8, m: bv8)
    ensures val & m & m == val & m
  {
  }

  lemma MaskedStore(regs: seq<bv8>, masks: seq<bv8>, i: nat, val: bv8)
    requires |masks| <= |regs| && i < |masks|
    requires Masked(regs, masks)
    ensures Masked(regs[i := val & masks[i]], masks)
  {
    MaskTwice(val, masks[i]);
  }

  /** Two register files that agree on everything RegsOk looks at but the indices. */
  lemma SameMasks(v: Vga, w: Vga)
    requires RegsOk(v) && Indexed(w) && w.sr == v.sr && w.gr == v.gr
    requires SameVbe(v, w)
    ensures RegsOk(w)
  {
  }

  lemma SrOk(v: Vga, val: bv8)
    requires RegsOk(v)
    ensures RegsOk(Written(v, 0x3c5, val))
  {
    MaskedStore(v.sr, SR_MASK, v.srIndex, val);
  }

  lemma GrOk(v: Vga, val: bv8)
    requires RegsOk(v)
    ensures RegsOk(Written(v, 0x3cf, val))
  {
    MaskedStore(v.gr, GR_MASK, v.grIndex, val);
  }

  lemma WriteOk(d: Dev, addr: nat, val: bv8)
    requires RegsOk(d.vga)
    ensures RegsOk(PortWrite(d, addr, val).vga)
  {
    if addr == 0x3c5 {
      SrOk(d.vga, val);
    } else if addr == 0x3cf {
      GrOk(d.vga, val);
    } else {
      SameMasks(d.vga, Written(d.vga, addr, val));
    }
  }

  lemma ReadOk(d: Dev, addr: nat)
    requires RegsOk(d.vga)
    ensures RegsOk(PortRead(d, addr).0.vga)
  {
    SameMasks(d.vga, PortRead(d, addr).0.vga);
  }

  // ------------------------------------------------------------------
  // Protocols

  /** Two writes at 0x3c0 with the flip-flop clear: an index, then data. */
  lemma AttributePair(d: Dev, i: bv8, val: bv8)
    requires Indexed(d.vga) && d.vga.arFlipFlop == 0 && i < 21
    ensures var e := PortWrite(PortWrite(d, 0x3c0, i), 0x3c0, val);
      e.vga.ar == AttrStore(d.vga.ar, i as int, val) && e.vga.arIndex == i as int && e.vga.arFlipFlop == 0
  {
  }

  /** Reading the status port resets the attribute flip-flop, so an index write and a data
      write follow; the data lands masked, and reads back at 0x3c1. */
  lemma AttributeRoundTrip(d: Dev, status: nat, i: bv8, val: bv8)
    requires Indexed(d.vga) && (status == 0x3ba || status == 0x3da) && !Dead(d.vga, status) && i < 21
    ensures var e := PortWrite(PortWrite(PortRead(d, status).0, 0x3c0, i), 0x3c0, val);
      && e.vga.ar == AttrStore(d.vga.ar, i as int, val) && e.vga.arFlipFlop == 0
      && PortRead(e, 0x3c1).1 == e.vga.ar[i as int]
  {
    AttributePair(PortRead(d, status).0, i, val);
  }

  /** Three writes at 0x3c9. */
  function WriteEntry(d: Dev, r: bv8, g: bv8, b: bv8): (e: Dev)
    requires Indexed(d.vga)
    ensures Indexed(e.vga)
  {
    PortWrite(PortWrite(PortWrite(d, 0x3c9, r), 0x3c9, g), 0x3c9, b)
  }

  /** Writing an entry at 0x3c8 and 0x3c9 stores exactly those three bytes, moves on to the
      next entry, and marks the palette dirty. */
  lemma PaletteEntryWritten(d: Dev, i: bv8, r: bv8, g: bv8, b: bv8)
    requires Indexed(d.vga)
    ensures var e := WriteEntry(PortWrite(d, 0x3c8, i), r, g, b);
      && e.vga.palette == StoreEntry(d.vga.palette, i as int, [r, g, b])
      && e.vga.dacWrite == (i as int + 1) % 0x100 && e.vga.dacSub == 0 && e.part1 && e.part2
  {
    assert d.vga.dacCache[0 := r][1 := g][2 := b] == [r, g, b];
  }

  /** Three reads at 0x3c9. */
  function ReadEntry(d: Dev): (r: (Dev, seq<bv8>))
    requires Indexed(d.vga)
    ensures Indexed(r.0.vga) && |r.1| == 3
  {
    var (d1, r) := PortRead(d, 0x3c9);
    var (d2, g) := PortRead(d1, 0x3c9);
    var (d3, b) := PortRead(d2, 0x3c9);
    (d3, [r, g, b])
  }

  /** One read at 0x3c9 returns the byte it has come to. */
  lemma PaletteByteRead(d: Dev)
    requires Indexed(d.vga)
    ensures var (e, b) := PortRead(d, 0x3c9);
      && b == d.vga.palette[3 * d.vga.dacRead + d.vga.dacSub] && e.vga.palette == d.vga.palette
      && e.vga.dacRead == (if d.vga.dacSub == 2 then (d.vga.dacRead + 1) % 0x100 else d.vga.dacRead)
      && e.vga.dacSub == if d.vga.dacSub == 2 then 0 else d.vga.dacSub + 1
  {
  }

  /** Reading at 0x3c9 three times, from the start of an entry, returns its three bytes. */
  lemma PaletteEntryRead(d: Dev)
    requires Indexed(d.vga) && d.vga.dacSub == 0
    ensures var (e, bytes) := ReadEntry(d);
      && bytes == d.vga.palette[3 * d.vga.dacRead..3 * d.vga.dacRead + 3]
      && e.vga.palette == d.vga.palette && e.vga.dacRead == (d.vga.dacRead + 1) % 0x100 && e.vga.dacSub == 0
  {
    PaletteByteRead(d);
    var d1 := PortRead(d, 0x3c9).0;
    PaletteByteRead(d1);
    PaletteByteRead(PortRead(d1, 0x3c9).0);
  }

  /** An entry written through the palette ports reads back through them: index and three bytes at
      0x3c8 and 0x3c9, index at 0x3c7, then three reads at 0x3c9, whatever the state before. */
  lemma PaletteRoundTrip(d: Dev, i: bv8, r: bv8, g: bv8, b: bv8)
    requires Indexed(d.vga)
    ensures var e := PortWrite(WriteEntry(PortWrite(d, 0x3c8, i), r, g, b), 0x3c7, i);
            ReadEntry(e).1 == [r, g, b] && ReadEntry(e).0.vga.palette == StoreEntry(d.vga.palette, i as int, [r, g, b])
  {
    PaletteEntryWritten(d, i, r, g, b);
    StoredEntry(d.vga.palette, i as int, [r, g, b]);
    var w := WriteEntry(PortWrite(d, 0x3c8, i), r, g, b);
    SetReadIndex(w, i);
    PaletteEntryRead(PortWrite(w, 0x3c7, i));
  }

  lemma StoredEntry(palette: seq<bv8>, i: nat, entry: seq<bv8>)
    requires |palette| == 768 && i < 256 && |entry| == 3
    ensures StoreEntry(palette, i, entry)[3 * i..3 * i + 3] == entry
  {
  }

  lemma SetReadIndex(d: Dev, i: bv8)
    requires Indexed(d.vga)
    ensures var v := PortWrite(d, 0x3c7, i).vga; v.dacSub == 0 && v.dacRead == i as int && v.palette == d.vga.palette
  {
  }
}
