/** The register file of the emulated adapter (struct vga in vga.h) and its constants. */
module VgaRegs {
  type u8 = x: int | 0 <= x < 0x100
  type u16 = x: int | 0 <= x < 0x1_0000
  type u32 = x: int | 0 <= x < 0x1_0000_0000

  const PAGE_SIZE: nat := 4096
  const VRAM_RESERVED_SIZE: nat := 0x0100_0000
  const VRAM_ACTUAL_SIZE: nat := 0x0040_0000
  const VRAM_PAGES: nat := VRAM_ACTUAL_SIZE / PAGE_SIZE

  const MSR_COLOR_EMULATION: bv8 := 0x01
  const ST01_TOGGLE: bv8 := 0x09 // vertical retrace and display enable

  const VBE_MAX_XRES: u16 := 1024
  const VBE_MAX_YRES: u16 := 768

  const VBE_ID: nat := 0
  const VBE_XRES: nat := 1
  const VBE_YRES: nat := 2
  const VBE_BPP: nat := 3
  const VBE_ENABLE: nat := 4
  const VBE_BANK: nat := 5
  const VBE_VIRT_WIDTH: nat := 6
  const VBE_VIRT_HEIGHT: nat := 7
  const VBE_X_OFFSET: nat := 8
  const VBE_Y_OFFSET: nat := 9
  const VBE_VIDEO_MEMORY_64K: nat := 10
  const VBE_LFB_ADDRESS_H: nat := 11
  const VBE_LFB_ADDRESS_L: nat := 12
  const VBE_NB: nat := 13

  const VBE_ID0: u16 := 0xb0c0
  const VBE_ID4: u16 := 0xb0c4

  /** The arrays of struct vga. */
  type Bank = s: seq<bv8> | |s| == 256 ghost witness seq(256, _ => 0)
  type Attributes = s: seq<bv8> | |s| == 21 ghost witness seq(21, _ => 0)
  type Entry = s: seq<bv8> | |s| == 3 ghost witness [0, 0, 0]
  type Palette = s: seq<bv8> | |s| == 768 ghost witness seq(768, _ => 0)
  type VbeRegs = s: seq<u16> | |s| == VBE_NB ghost witness seq(VBE_NB, _ => 0)

  datatype Vga = Vga(
    lfbAddr: nat, lfbSize: nat,
    latch: bv32, srIndex: u8, sr: Bank,
    grIndex: u8, gr: Bank,
    arIndex: u8, ar: Attributes, arFlipFlop: u32,
    crIndex: u8, cr: Bank,
    msr: bv8, fcr: bv8, st00: bv8, st01: bv8,
    dacState: u8, dacSub: u8, dacRead: u8, dacWrite: u8, dacCache: Entry, dac8bit: bool,
    palette: Palette,
    bankOffset: u32, vbeIndex: u16, vbe: VbeRegs, vbeStart: u32, vbeLineOffset: u32, vbeBankMask: u32,
    planeUpdated: bv8)

  function BitAt(b: bv8, k: bv8): (bit: bv8)
    requires k < 8
    ensures bit < 2
  {
    (b >> k) & 1
  }

  /** Bit k of b. */
  function Bit(b: bv8, k: nat): (bit: bv8)
    requires k < 8
    ensures bit < 2
  {
    match k
    case 0 => BitAt(b, 0)
    case 1 => BitAt(b, 1)
    case 2 => BitAt(b, 2)
    case 3 => BitAt(b, 3)
    case 4 => BitAt(b, 4)
    case 5 => BitAt(b, 5)
    case 6 => BitAt(b, 6)
    case _ => BitAt(b, 7)
  }

  /** mask16: byte p of entry i is 0xff exactly when bit p of i is set. */
  const MASK16: seq<bv32> := [
    0x00000000, 0x000000ff, 0x0000ff00, 0x0000ffff,
    0x00ff0000, 0x00ff00ff, 0x00ffff00, 0x00ffffff,
    0xff000000, 0xff0000ff, 0xff00ff00, 0xff00ffff,
    0xffff0000, 0xffff00ff, 0xffffff00, 0xffffffff]

  /** GET_PLANE: byte p of a 32-bit word. */
  function Plane(data: bv32, p: nat): bv8
    requires p < 4
  {
    match p
    case 0 => (data & 0xff) as bv8
    case 1 => ((data >> 8) & 0xff) as bv8
    case 2 => ((data >> 16) & 0xff) as bv8
    case _ => ((data >> 24) & 0xff) as bv8
  }

  function Pack(b0: bv8, b1: bv8, b2: bv8, b3: bv8): bv32 {
    (b0 as bv32) | ((b1 as bv32) << 8) | ((b2 as bv32) << 16) | ((b3 as bv32) << 24)
  }

  lemma PlanesOfPack(b0: bv8, b1: bv8, b2: bv8, b3: bv8)
    ensures var w := Pack(b0, b1, b2, b3);
      Plane(w, 0) == b0 && Plane(w, 1) == b1 && Plane(w, 2) == b2 && Plane(w, 3) == b3
  {
  }

  lemma PackOfPlanes(w: bv32)
    ensures Pack(Plane(w, 0), Plane(w, 1), Plane(w, 2), Plane(w, 3)) == w
  {
  }

  /** The table entry of a four-bit plane selection. */
  function Mask16(i: bv8): bv32
    requires i < 16
  {
    MASK16[i as int]
  }

  function Ones(on: bool): bv8 { if on then 0xff else 0 }

  lemma Mask16Planes(i: bv8, p: nat)
    requires i < 16 && p < 4
    ensures Plane(Mask16(i), p) == Ones(Bit(i, p) == 1)
  {
    if i < 8 {
      if i < 4 {
        assert i == 0 || i == 1 || i == 2 || i == 3;
      } else {
        assert i == 4 || i == 5 || i == 6 || i == 7;
      }
    } else if i < 12 {
      assert i == 8 || i == 9 || i == 10 || i == 11;
    } else {
      assert i == 12 || i == 13 || i == 14 || i == 15;
    }
  }

  lemma SplitMask(i: bv8)
    requires i < 16
    ensures Plane(Mask16(i), 0) == Ones(Bit(i, 0) == 1) && Plane(Mask16(i), 1) == Ones(Bit(i, 1) == 1)
    ensures Plane(Mask16(i), 2) == Ones(Bit(i, 2) == 1) && Plane(Mask16(i), 3) == Ones(Bit(i, 3) == 1)
  {
    Mask16Planes(i, 0);
    Mask16Planes(i, 1);
    Mask16Planes(i, 2);
    Mask16Planes(i, 3);
  }

  /** A read of the mask16 table. */
  method LookupMask(i: bv8) returns (m: bv32)
    requires i < 16
    ensures Plane(m, 0) == Ones(Bit(i, 0) == 1) && Plane(m, 1) == Ones(Bit(i, 1) == 1)
    ensures Plane(m, 2) == Ones(Bit(i, 2) == 1) && Plane(m, 3) == Ones(Bit(i, 3) == 1)
  {
    SplitMask(i);
    m := MASK16[i as int];
  }
}
