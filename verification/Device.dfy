/** The emulated adapter: port, memory-window and VBE accesses in place, and what every run
    of them keeps. */
module Device {
  import opened VgaRegs
  import opened Grid
  import opened Scanout
  import opened RasterOp
  import opened Ports
  import opened Vbe
  import opened Window
  import opened VgaDump
  import opened Graphic

  // ------------------------------------------------------------------
  // Runs of accesses

  datatype Op =
    | ReadPort(addr: nat)
    | WritePort(addr: nat, val: bv8)
    | ReadMemory(addr: nat, loaded: bv32) // `loaded`: the four bytes a planar read finds
    | WriteMemory(addr: nat)
    | WriteVbeIndex(index: u16)
    | WriteVbeData(data: u16, lfb: nat)   // `lfb`: where the frame buffer is mapped
    | MoveFrameBuffer(lfb: nat)
    | FontsSeen                           // the renderer clears plane_updated

  /** The division by a zero line offset is the one access left out. */
  ghost predicate OpOk(d: Dev, op: Op) {
    RegsOk(d.vga) && (op.WriteVbeData? ==> DivisorOk(d.vga, op.data))
  }

  function Step(d: Dev, op: Op): (e: Dev)
    requires OpOk(d, op)
  {
    match op
    case ReadPort(addr) => AfterRead(d, addr)
    case WritePort(addr, val) => PortWrite(d, addr, val)
    case ReadMemory(addr, loaded) => AfterMemRead(d, addr, loaded)
    case WriteMemory(addr) => AfterMemWrite(d, addr)
    case WriteVbeIndex(index) => VbeIndexWrite(d, index)
    case WriteVbeData(data, lfb) => VbeDataWrite(d, data, lfb)
    case MoveFrameBuffer(lfb) => UpdateLfb(d, lfb)
    case FontsSeen => d.(vga := d.vga.(planeUpdated := 0))
  }

  ghost predicate RunOk(d: Dev, ops: seq<Op>)
    decreases |ops|
  {
    ops == [] || (OpOk(d, ops[0]) && RunOk(Step(d, ops[0]), ops[1..]))
  }

  function Run(d: Dev, ops: seq<Op>): Dev
    requires RunOk(d, ops)
    decreases |ops|
  {
    if ops == [] then d else Run(Step(d, ops[0]), ops[1..])
  }

  lemma RoutedKeepsRegs(d: Dev, op: Op)
    requires OpOk(d, op) && (op.ReadMemory? || op.WriteMemory? || op.WriteVbeIndex? || op.FontsSeen?)
    ensures RegsOk(Step(d, op).vga)
  {
    RoutingOk(d.vga, Step(d, op).vga);
  }

  lemma PortKeepsRegs(d: Dev, op: Op)
    requires OpOk(d, op) && (op.ReadPort? || op.WritePort?)
    ensures RegsOk(Step(d, op).vga)
  {
    match op
    case ReadPort(addr) => ReadOk(d, addr);
    case WritePort(addr, val) => WriteOk(d, addr, val);
  }

  lemma StepKeepsRegs(d: Dev, op: Op)
    requires OpOk(d, op)
    ensures RegsOk(Step(d, op).vga)
  {
    match op
    case WriteVbeData(data, lfb) => VbeWriteOk(d, data, lfb);
    case MoveFrameBuffer(lfb) => LfbOk(d, lfb);
    case _ =>
      if op.ReadPort? || op.WritePort? {
        PortKeepsRegs(d, op);
      } else {
        RoutedKeepsRegs(d, op);
      }
  }

  /** device_vga_reset, device_vga_bios_init and the registration that follows. */
  function ResetRegs(palette: seq<bv8>): (v: Vga)
    requires |palette| == 768
  {
    Vga(0, VRAM_ACTUAL_SIZE, 0,
        3, [3, 0, 3, 0, 2, 0, 0, 0] + seq(248, i => 0),
        5, [0, 0, 0, 0, 0, 16, 14, 15, 255] + seq(247, i => 0),
        32, [0, 1, 2, 3, 4, 5, 6, 7, 8, 9, 10, 11, 12, 13, 14, 15, 12, 0, 15, 8, 0], 1,
        15, [95, 79, 80, 130, 85, 129, 191, 31, 0, 79, 14, 15, 0, 0, 5, 160, 156, 142, 143, 40, 31, 150, 185, 163, 255]
            + seq(231, i => 0),
        103, 0, 0, 0,
        0, 0, 0, 16, [255, 255, 255], false,
        palette,
        0, 0, [VBE_ID0] + seq(12, i => 0), 0, 0, 63,
        0)
  }

  lemma ResetOk(palette: seq<bv8>)
    requires |palette| == 768
    ensures RegsOk(ResetRegs(palette))
  {
    var v := ResetRegs(palette);
    SequencerReset(v.sr);
    GraphicsReset(v.gr);
    assert v.vbe[VBE_BPP] == 0 && v.vbe[VBE_VIRT_HEIGHT] == 0;
  }

  lemma SequencerReset(sr: seq<bv8>)
    requires |sr| == 256 && sr == [3, 0, 3, 0, 2, 0, 0, 0] + seq(248, i => 0)
    ensures Masked(sr, SR_MASK)
  {
    assert sr[..8] == [3, 0, 3, 0, 2, 0, 0, 0];
    assert forall i | 0 <= i < 8 :: sr[i] == sr[..8][i];
  }

  lemma GraphicsReset(gr: seq<bv8>)
    requires |gr| == 256 && gr == [0, 0, 0, 0, 0, 16, 14, 15, 255] + seq(247, i => 0)
    ensures Masked(gr, GR_MASK)
  {
    assert gr[..16] == [0, 0, 0, 0, 0, 16, 14, 15, 255, 0, 0, 0, 0, 0, 0, 0];
    assert forall i | 0 <= i < 16 :: gr[i] == gr[..16][i];
  }

  lemma {:induction false} RunKeepsRegs(d: Dev, ops: seq<Op>)
    requires RunOk(d, ops) && RegsOk(d.vga)
    ensures RegsOk(Run(d, ops).vga)
    decreases |ops|
  {
    if ops != [] {
      StepKeepsRegs(d, ops[0]);
      RunKeepsRegs(Step(d, ops[0]), ops[1..]);
    }
  }

  /** In every reachable state: the masked registers index mask16 below 16 and select one of
      four planes; window accesses stay inside the reserved video memory, chain-4 ones inside
      the actual frame buffer; the VBE clear stays inside the frame buffer, and so does the
      virtual screen. */
  lemma ReachableBounds(palette: seq<bv8>, ops: seq<Op>, addr: nat)
    requires |palette| == 768 && RunOk(Dev(ResetRegs(palette), true, true), ops)
    ensures var v := Run(Dev(ResetRegs(palette), true, true), ops).vga;
      && RegsOk(v)
      && v.sr[2] < 16 && v.gr[0] < 16 && v.gr[1] < 16 && v.gr[2] < 16 && v.gr[7] < 16 && v.gr[4] < 4
      && (Offset(v, addr).Some? ==>
            && FirstByte(v, Offset(v, addr).value) + ByteCount(v) <= VRAM_RESERVED_SIZE
            && (AccessMode(v).Chain4? ==> FirstByte(v, Offset(v, addr).value) < VRAM_ACTUAL_SIZE))
      && ClearBytes(v) <= VRAM_ACTUAL_SIZE
      && v.vbe[VBE_VIRT_HEIGHT] * v.vbeLineOffset <= VRAM_ACTUAL_SIZE
  {
    ResetOk(palette);
    RunKeepsRegs(Dev(ResetRegs(palette), true, true), ops);
    var v := Run(Dev(ResetRegs(palette), true, true), ops).vga;
    MaskedRegs(v);
    if Offset(v, addr).Some? {
      AccessInside(v, addr);
    }
    ClearInside(v);
  }

  // ------------------------------------------------------------------
  // The code

  class Adapter {
    var vga: Vga
    var part1Dirty: bool
    var part2Dirty: bool
    /** Video memory and the dirty bitmap belong to the rest of the emulator. */
    const vram: array<bv8>
    const pages: array<bool>

    ghost predicate Valid()
      reads this
    {
      RegsOk(vga) && vram.Length == VRAM_RESERVED_SIZE && pages.Length == VRAM_PAGES && Apart(vram, pages)
    }

    ghost function State(): Dev
      reads this
    {
      Dev(vga, part1Dirty, part2Dirty)
    }

    constructor (palette: seq<bv8>, vram: array<bv8>, pages: array<bool>)
      requires |palette| == 768 && vram.Length == VRAM_RESERVED_SIZE && pages.Length == VRAM_PAGES && Apart(vram, pages)
      ensures Valid() && State() == Dev(ResetRegs(palette), true, true) && this.vram == vram && this.pages == pages
    {
      ResetOk(palette);
      vga := ResetRegs(palette);
      part1Dirty, part2Dirty := true, true;
      this.vram, this.pages := vram, pages;
    }

    method ReadPalette()
      requires Valid()
      modifies this
      ensures Valid() && State() == AfterRead(old(State()), 0x3c9)
    {
      SameMasks(vga, NextRead(vga));
      part1Dirty := true;
      vga := NextRead(vga);
    }

    method ReadStatus(addr: nat)
      requires Valid() && (addr == 0x3ba || addr == 0x3da) && !Dead(vga, addr)
      modifies this`vga
      ensures Valid() && State() == AfterRead(old(State()), addr)
    {
      SameMasks(vga, vga.(st01 := vga.st01 ^ ST01_TOGGLE, arFlipFlop := 0));
      vga := vga.(st01 := vga.st01 ^ ST01_TOGGLE, arFlipFlop := 0);
    }

    method PortReadByte(addr: nat) returns (val: bv8)
      requires Valid()
      modifies this
      ensures Valid() && State() == AfterRead(old(State()), addr) && val == PortValue(old(vga), addr)
    {
      val := PortValue(vga, addr);
      ReadEffects(addr);
    }

    method ReadEffects(addr: nat)
      requires Valid()
      modifies this
      ensures Valid() && State() == AfterRead(old(State()), addr)
    {
      if addr == 0x3c9 {
        ReadPalette();
      } else if (addr == 0x3ba || addr == 0x3da) && !Dead(vga, addr) {
        ReadStatus(addr);
      }
    }

    method PortWriteByte(addr: nat, val: bv8)
      requires Valid()
      modifies this
      ensures Valid() && State() == PortWrite(old(State()), addr, val)
    {
      WriteOk(State(), addr, val);
      if Dead(vga, addr) {
        return;
      }
      part1Dirty := true;
      if addr == 0x3c9 && vga.dacSub == 2 {
        part2Dirty := true;
      }
      vga := Written(vga, addr, val);
    }

    method MemoryReadByte(addr: nat) returns (val: bv8)
      requires Valid()
      modifies this
      ensures WindowRead(old(vga), addr, vram[..], val, vga.latch)
      ensures Valid() && State() == AfterMemRead(old(State()), addr, vga.latch)
    {
      var latch;
      val, latch := ReadWindow(vga, vram, addr);
      RoutingOk(vga, AfterMemRead(State(), addr, latch).vga);
      if Offset(vga, addr).Some? && AccessMode(vga).Latched? {
        vga := vga.(latch := latch);
        part1Dirty := true;
      }
    }

    /** A planar write stores, in every enabled plane, what the adapter defines for that plane;
        other modes store the byte itself; nothing else in memory changes. */
    method MemoryWriteByte(addr: nat, val: bv8)
      requires Valid()
      requires Stores(vga, addr) ==> Markable(vga, Offset(vga, addr).value)
      modifies this`vga, vram, pages
      ensures WindowStored(old(vga), addr, val, vram[..], old(vram[..]), pages[..], old(pages[..]))
      ensures Valid() && State() == AfterMemWrite(old(State()), addr)
    {
      WriteWindow(vga, vram, pages, addr, val);
      RecordPlanes(addr);
    }

    method RecordPlanes(addr: nat)
      requires Valid()
      modifies this`vga
      ensures Valid() && State() == AfterMemWrite(old(State()), addr)
    {
      RoutingOk(vga, AfterMemWrite(State(), addr).vga);
      var offset := Offset(vga, addr);
      if offset.Some? {
        vga := vga.(planeUpdated := vga.planeUpdated | PlanesHit(vga, offset.value));
      }
    }

    /** The frame buffer moved. */
    method UpdateLfbAddr(lfb: nat)
      requires Valid()
      modifies this
      ensures Valid() && State() == UpdateLfb(old(State()), lfb)
    {
      LfbOk(State(), lfb);
      if vga.lfbAddr == lfb {
        return;
      }
      part1Dirty := true;
      vga := vga.(lfbAddr := lfb,
                  vbe := vga.vbe[VBE_LFB_ADDRESS_H := lfb / 0x10000 % 0x10000][VBE_LFB_ADDRESS_L := lfb % 0x10000]
                                [VBE_VIDEO_MEMORY_64K := vga.lfbSize / 0x10000 % 0x10000]);
    }

    /** Clear the new screen. No page is marked dirty. */
    method ClearScreen(size: nat)
      requires Valid() && size <= VRAM_ACTUAL_SIZE
      modifies vram
      ensures forall i :: 0 <= i < size ==> vram[i] == 0
      ensures forall i :: size <= i < vram.Length ==> vram[i] == old(vram[i])
    {
      for i := 0 to size
        invariant forall j :: 0 <= j < i ==> vram[j] == 0
        invariant forall j :: i <= j < vram.Length ==> vram[j] == old(vram[j])
      {
        vram[i] := 0;
      }
    }

    /** Turning a mode on clears its screen, unless bit 7 asks not to, and leaves the dirty
        bitmap alone. */
    method VbeEnable(val: u16, lfb: nat)
      requires Valid()
      modifies this, vram
      ensures Valid() && State() == EnableWrite(old(State()).(part1 := true), val, lfb)
      ensures var n := if TurnsOn(old(vga), val) && val / 0x80 % 2 == 0 then ClearBytes(old(vga)) else 0;
        && n <= VRAM_ACTUAL_SIZE
        && (forall i :: 0 <= i < n ==> vram[i] == 0)
        && forall i :: n <= i < vram.Length ==> vram[i] == old(vram[i])
    {
      EnableOk(State().(part1 := true), val, lfb);
      ClearInside(vga);
      part1Dirty := true;
      if TurnsOn(vga, val) {
        var size := ClearBytes(vga);
        UpdateLfbAddr(lfb);
        if val / 0x80 % 2 == 0 {
          ClearScreen(size);
        }
        vga := ModeSet(vga);
      } else {
        vga := vga.(bankOffset := 0);
      }
      vga := vga.(dac8bit := val / 32 % 2 == 1, vbe := vga.vbe[VBE_ENABLE := val]);
    }

    method VbeWriteData(val: u16, lfb: nat)
      requires Valid() && DivisorOk(vga, val)
      modifies this, vram
      ensures Valid() && State() == VbeDataWrite(old(State()), val, lfb)
      ensures old(vga).vbeIndex != VBE_ENABLE ==> vram[..] == old(vram[..])
    {
      VbeWriteOk(State(), val, lfb);
      if vga.vbeIndex == VBE_ENABLE {
        VbeEnable(val, lfb);
      } else {
        part1Dirty := true;
        vga := VbeWritten(vga, val);
      }
    }

    /** dump_vga */
    method DumpRegisters(luck: Luck) returns (records: seq<Record>, ok: bool)
      requires Valid()
      modifies this`part1Dirty, this`part2Dirty
      ensures Dumped(State(), records, ok) == Dump(old(State()), luck)
    {
      records, ok := DumpFirst(luck);
      if ok {
        var more;
        more, ok := DumpSecond(luck);
        records := records + more;
      }
    }

    method DumpFirst(luck: Luck) returns (records: seq<Record>, ok: bool)
      modifies this`part1Dirty
      ensures Dumped(State(), records, ok) == DumpPart1(old(State()), luck)
    {
      if !part1Dirty {
        return [], true;
      }
      if !luck.alloc1 {
        return [], false;
      }
      records := if luck.sent1 then [Record(KIND_VGA, 1, Part1(vga))] else [];
      ok := luck.sent1;
      part1Dirty := false;
    }

    method DumpSecond(luck: Luck) returns (records: seq<Record>, ok: bool)
      modifies this`part2Dirty
      ensures Dumped(State(), records, ok) == DumpPart2(old(State()), luck)
    {
      if !part2Dirty {
        return [], true;
      }
      if !luck.alloc2 {
        return [], false;
      }
      records := if luck.sent2 then [Record(KIND_VGA, 2, vga.palette)] else [];
      ok := luck.sent2;
      part2Dirty := false;
    }

    /** read_vga */
    method ReadRegisters(r: Record) returns (ok: bool)
      modifies this
      ensures match LoadRecord(old(State()), r)
              case Refused => !ok && State() == old(State())
              case Loaded(d) => ok && State() == d
    {
      if r.kind != KIND_VGA {
        return false;
      }
      if r.sub == 1 {
        if |r.payload| != PART1_SIZE {
          return false;
        }
        vga := LoadPart1(vga, r.payload);
        part1Dirty := true;
      } else if r.sub == 2 {
        if |r.payload| != PART2_SIZE {
          return false;
        }
        vga := vga.(palette := r.payload);
        part2Dirty := true;
      } else {
        return false;
      }
      ok := true;
    }
  }
}
