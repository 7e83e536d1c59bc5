/** The legacy memory window of device.c (0xa0000 to 0xbffff): address translation, the three
    access modes, and where in video memory an access can land. */
module Window {
  import opened VgaRegs
  import opened Grid
  import opened Scanout
  import opened RasterOp
  import opened Ports
  import opened Graphic

  datatype Option<T> = None | Some(value: T)

  /** How the sequencer and graphics controller route an access. */
  datatype Access = Chain4 | OddEven | Latched

  function AccessMode(v: Vga): Access {
    if Bit(v.sr[4], 3) == 1 then Chain4 else if Bit(v.gr[5], 4) == 1 then OddEven else Latched
  }

  /** The VGA memory offset of a window address; outside the mapped range nothing answers. */
  function Offset(v: Vga, addr: nat): Option<nat> {
    var a := addr % 0x20000;
    var mapMode := 2 * Flag(v.gr[6], 3) + Flag(v.gr[6], 2);
    if mapMode == 0 then Some(a)
    else if mapMode == 1 then (if a < 0x10000 then Some(a + v.bankOffset) else None)
    else if mapMode == 2 then (if 0x10000 <= a < 0x18000 then Some(a - 0x10000) else None)
    else (if 0x18000 <= a then Some(a - 0x18000) else None)
  }

  /** The plane an odd/even access selects. */
  function OddEvenPlane(v: Vga, a: nat): (p: nat)
    ensures p < 4
  {
    2 * Flag(v.gr[4], 1) + a % 2
  }

  /** First byte of video memory an access at offset a touches. */
  function FirstByte(v: Vga, a: nat): nat {
    match AccessMode(v)
    case Chain4 => a
    case OddEven => 2 * (a - a % 2) + OddEvenPlane(v, a)
    case Latched => 4 * a
  }

  function ByteCount(v: Vga): nat {
    if AccessMode(v).Latched? then 4 else 1
  }

  // ------------------------------------------------------------------
  // Bounds

  /** Every window access lands inside the reserved video memory; chain-4 accesses inside the
      actual frame buffer. */
  lemma AccessInside(v: Vga, addr: nat)
    requires RegsOk(v) && Offset(v, addr).Some?
    ensures FirstByte(v, Offset(v, addr).value) + ByteCount(v) <= VRAM_RESERVED_SIZE
    ensures AccessMode(v).OddEven? ==> FirstByte(v, Offset(v, addr).value) < 2 * VRAM_ACTUAL_SIZE
    ensures AccessMode(v).Chain4? ==> FirstByte(v, Offset(v, addr).value) < VRAM_ACTUAL_SIZE
  {
    assert Offset(v, addr).value <= 63 * 0x10000 + 0xffff;
  }

  /** The planar bound is reached, exactly with bank 63 mapped, at the last byte of the window. */
  lemma LatchedBoundTight(v: Vga, addr: nat)
    requires RegsOk(v) && AccessMode(v).Latched? && Offset(v, addr).Some?
    ensures FirstByte(v, Offset(v, addr).value) + ByteCount(v) == VRAM_RESERVED_SIZE
       <==> Flag(v.gr[6], 3) == 0 && Flag(v.gr[6], 2) == 1 && v.bankOffset == 63 * 0x10000 && addr % 0x20000 == 0xffff
  {
  }

  /** The dirty bitmap covers VRAM_ACTUAL_SIZE; marking a page beyond it fails an assertion. */
  predicate Markable(v: Vga, a: nat) {
    FirstByte(v, a) / PAGE_SIZE < VRAM_PAGES
  }

  /** Which accesses that is. */
  lemma MarkableIff(v: Vga, addr: nat)
    requires RegsOk(v) && Offset(v, addr).Some?
    ensures var a := Offset(v, addr).value;
      Markable(v, a) <==>
        match AccessMode(v)
        case Chain4 => true
        case OddEven => a < 0x20_0000
        case Latched => a < 0x10_0000
  {
    AccessInside(v, addr);
  }

  // ------------------------------------------------------------------
  // Registers after an access

  function RegsOf(v: Vga): Regs {
    Regs(v.gr[0], v.gr[1], v.gr[2], v.gr[3], v.gr[5], v.gr[7], v.gr[8], v.sr[2])
  }

  lemma RegsMasked(v: Vga)
    requires RegsOk(v)
    ensures RegsOf(v).Masked() && v.gr[4] < 4
  {
    MaskedRegs(v);
  }

  /** The registers that index, route or bound an access. */
  predicate SameRouting(v: Vga, w: Vga) {
    && w.sr == v.sr && w.gr == v.gr && SameVbe(v, w) && w.srIndex == v.srIndex && w.grIndex == v.grIndex
    && w.dacSub == v.dacSub
  }

  lemma RoutingOk(v: Vga, w: Vga)
    requires RegsOk(v) && SameRouting(v, w)
    ensures RegsOk(w)
  {
    SameMasks(v, w);
  }

  /** A read: planar reads load the latch. */
  function AfterMemRead(d: Dev, addr: nat, loaded: bv32): (e: Dev)
    ensures SameRouting(d.vga, e.vga)
  {
    if Offset(d.vga, addr).Some? && AccessMode(d.vga).Latched? then Dev(d.vga.(latch := loaded), true, d.part2) else d
  }

  /** 1 << p */
  function PlaneBit(p: nat): bv8
    requires p < 4
  {
    match p
    case 0 => 1
    case 1 => 2
    case 2 => 4
    case _ => 8
  }

  predicate PlaneEnabled(v: Vga, p: nat)
    requires p < 4
  {
    v.sr[2] & PlaneBit(p) != 0
  }

  /** The plane a single-byte access writes. */
  function ByteLane(v: Vga, a: nat): (p: nat)
    ensures p < 4
  {
    if AccessMode(v).Chain4? then a % 4 else OddEvenPlane(v, a)
  }

  /** The planes a write is recorded against. */
  function PlanesHit(v: Vga, a: nat): bv8 {
    if AccessMode(v).Latched? then v.sr[2]
    else if PlaneEnabled(v, ByteLane(v, a)) then PlaneBit(ByteLane(v, a))
    else 0
  }

  /** A write leaves the dump's dirty flags alone: the registers it changes are not dumped. */
  function AfterMemWrite(d: Dev, addr: nat): (e: Dev)
    ensures SameRouting(d.vga, e.vga)
  {
    match Offset(d.vga, addr)
    case None => d
    case Some(a) => d.(vga := d.vga.(planeUpdated := d.vga.planeUpdated | PlanesHit(d.vga, a)))
  }

  /** Something is stored by a write at this address. */
  predicate Stores(v: Vga, addr: nat) {
    match Offset(v, addr)
    case None => false
    case Some(a) => AccessMode(v).Latched? || PlaneEnabled(v, ByteLane(v, a))
  }

  /** The byte lane a write changes is recorded: in particular a font byte, one with address
      2 modulo 4, is recorded against plane 2. */
  lemma LaneRecorded(v: Vga, addr: nat)
    requires Stores(v, addr) && !AccessMode(v).Latched?
    ensures var a := Offset(v, addr).value;
      FirstByte(v, a) % 4 == ByteLane(v, a) && PlanesHit(v, a) == PlaneBit(FirstByte(v, a) % 4)
  {
    var a := Offset(v, addr).value;
    if AccessMode(v).OddEven? {
      assert (a - a % 2) % 2 == 0;
      assert 2 * (a - a % 2) % 4 == 0;
    }
  }

  // ------------------------------------------------------------------
  // The code

  /** What a write of val at byte i of a word stores there, if the word is `first`..first+3. */
  ghost predicate WordStored(vram: seq<bv8>, was: seq<bv8>, first: nat, r: Regs, val: bv8, latch: bv32) {
    && first + 4 <= |vram| == |was|
    && vram[first] == PlaneWrite(r, val, Plane(latch, 0), was[first], 0)
    && vram[first + 1] == PlaneWrite(r, val, Plane(latch, 1), was[first + 1], 1)
    && vram[first + 2] == PlaneWrite(r, val, Plane(latch, 2), was[first + 2], 2)
    && vram[first + 3] == PlaneWrite(r, val, Plane(latch, 3), was[first + 3], 3)
  }

  method StoreWord(vram: array<bv8>, first: nat, r: Regs, val: bv8, latch: bv32)
    requires r.Masked() && first + 4 <= vram.Length
    modifies vram
    ensures WordStored(vram[..], old(vram[..]), first, r, val, latch)
    ensures forall i :: 0 <= i < vram.Length && !(first <= i < first + 4) ==> vram[i] == old(vram[i])
  {
    PlanesOfPack(vram[first], vram[first + 1], vram[first + 2], vram[first + 3]);
    var tmp := LatchedWrite(r, val, latch, Pack(vram[first], vram[first + 1], vram[first + 2], vram[first + 3]));
    vram[first], vram[first + 1], vram[first + 2], vram[first + 3] :=
      Plane(tmp, 0), Plane(tmp, 1), Plane(tmp, 2), Plane(tmp, 3);
  }

  /** What a planar read returns of the latch it loads. */
  ghost predicate ReadsLatch(v: Vga, latch: bv32, val: bv8)
    requires v.gr[4] < 4
  {
    if Bit(v.gr[5], 3) == 0 then val == Plane(latch, v.gr[4] as int)
    else forall j :: 0 <= j < 8 ==> (Bit(val, j) == 1 <==> Matches(RegsOf(v), latch, j))
  }

  method ReadLatch(v: Vga, latch: bv32) returns (val: bv8)
    requires RegsOf(v).Masked() && v.gr[4] < 4
    ensures ReadsLatch(v, latch, val)
  {
    if Bit(v.gr[5], 3) == 0 {
      val := Plane(latch, v.gr[4] as int);
    } else {
      val := ColourCompare(RegsOf(v), latch);
    }
  }

  /** What the window write leaves in video memory and in the dirty bitmap. */
  ghost predicate WindowStored(v: Vga, addr: nat, val: bv8, vram: seq<bv8>, was: seq<bv8>, pages: seq<bool>,
                               clean: seq<bool>)
  {
    if !Stores(v, addr) then vram == was && pages == clean
    else
      var a := FirstByte(v, Offset(v, addr).value);
      && a + ByteCount(v) <= |was| == |vram| && a / PAGE_SIZE < |clean| && pages == clean[a / PAGE_SIZE := true]
      && if AccessMode(v).Latched? then
           && WordStored(vram, was, a, RegsOf(v), val, v.latch)
           && forall i :: 0 <= i < |vram| && !(a <= i < a + 4) ==> vram[i] == was[i]
         else vram == was[a := val]
  }

  method WriteWindow(v: Vga, vram: array<bv8>, pages: array<bool>, addr: nat, val: bv8)
    requires RegsOk(v) && vram.Length == VRAM_RESERVED_SIZE && pages.Length == VRAM_PAGES && Apart(vram, pages)
    requires Stores(v, addr) ==> Markable(v, Offset(v, addr).value)
    modifies vram, pages
    ensures WindowStored(v, addr, val, vram[..], old(vram[..]), pages[..], old(pages[..]))
  {
    var offset := Offset(v, addr);
    if offset == None {
      return;
    }
    AccessInside(v, addr);
    var a := FirstByte(v, offset.value);
    if AccessMode(v).Latched? {
      RegsMasked(v);
      StoreWord(vram, a, RegsOf(v), val, v.latch);
      pages[a / PAGE_SIZE] := true;
    } else if PlaneEnabled(v, ByteLane(v, offset.value)) {
      vram[a] := val;
      pages[a / PAGE_SIZE] := true;
    }
  }

  /** A read outside the mapped range floats high; single-byte modes read the addressed byte;
      a planar read loads the latch and returns a plane or a colour compare of it. */
  ghost predicate WindowRead(v: Vga, addr: nat, vram: seq<bv8>, val: bv8, latch: bv32) {
    match Offset(v, addr)
    case None => val == 0xff && latch == v.latch
    case Some(offset) =>
      var a := FirstByte(v, offset);
      && a + ByteCount(v) <= |vram|
      && if AccessMode(v).Latched? then
           latch == Pack(vram[a], vram[a + 1], vram[a + 2], vram[a + 3]) && v.gr[4] < 4 && ReadsLatch(v, latch, val)
         else val == vram[a] && latch == v.latch
  }

  method ReadWindow(v: Vga, vram: array<bv8>, addr: nat) returns (val: bv8, latch: bv32)
    requires RegsOk(v) && vram.Length == VRAM_RESERVED_SIZE
    ensures WindowRead(v, addr, vram[..], val, latch)
  {
    latch := v.latch;
    var offset := Offset(v, addr);
    if offset == None {
      return 0xff, latch;
    }
    AccessInside(v, addr);
    var a := FirstByte(v, offset.value);
    if !AccessMode(v).Latched? {
      return vram[a], latch;
    }
    latch := Pack(vram[a], vram[a + 1], vram[a + 2], vram[a + 3]);
    RegsMasked(v);
    val := ReadLatch(v, latch);
  }
}
