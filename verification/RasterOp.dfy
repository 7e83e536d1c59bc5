/** The latched write and the colour-compare read of the planar memory window
    (device.c). The code works on four planes packed in 32 bits; the specification
    is the adapter's own, one byte per plane. */
module RasterOp {
  import opened VgaRegs

  /** The graphics-controller and sequencer registers a latched access consults. */
  datatype Regs = Regs(setReset: bv8, enableSetReset: bv8, compare: bv8, rotate: bv8,
                       mode: bv8, dontCare: bv8, bitMask: bv8, planes: bv8)
  {
    /** What the port masks leave of each register. */
    predicate Masked() {
      setReset < 16 && enableSetReset < 16 && compare < 16 && rotate < 32 && dontCare < 16 && planes < 16
    }
  }

  // ------------------------------------------------------------------
  // The adapter's definition, plane by plane

  function RotateRight(v: bv8, n: nat): bv8
    decreases n
  {
    if n == 0 then v else RotateRight(Ror(v), n - 1)
  }

  function Ror(v: bv8): bv8 { (v >> 1) | (v << 7) }

  function Combine(fn: bv8, d: bv8, latch: bv8): bv8 {
    if fn == 1 then d & latch else if fn == 2 then d | latch else if fn == 3 then d ^ latch else d
  }

  /** `now` where m is set, `was` elsewhere. */
  function Merge(was: bv8, now: bv8, m: bv8): bv8 {
    (was & !m) | (now & m)
  }

  function Rotated(r: Regs, val: bv8): bv8 {
    RotateRight(val, (r.rotate & 7) as int)
  }

  /** The write data of plane p before the logical operation (write modes 0, 2 and 3). */
  function Source(r: Regs, val: bv8, p: nat): bv8
    requires p < 4
  {
    var mode := r.mode & 3;
    if mode == 2 then Ones(Bit(val & 0x0f, p) == 1)
    else if mode == 3 || Bit(r.enableSetReset, p) == 1 then Ones(Bit(r.setReset, p) == 1)
    else Rotated(r, val)
  }

  function WriteBits(r: Regs, val: bv8): bv8 {
    if r.mode & 3 == 3 then r.bitMask & Rotated(r, val) else r.bitMask
  }

  /** The write value of plane p. */
  function Value(r: Regs, val: bv8, latch: bv8, p: nat): bv8
    requires p < 4
  {
    if r.mode & 3 == 1 then latch
    else Merge(latch, Combine(r.rotate >> 3, Source(r, val, p), latch), WriteBits(r, val))
  }

  /** What plane p holds after a latched write, given its latch and its old byte. */
  function PlaneWrite(r: Regs, val: bv8, latch: bv8, was: bv8, p: nat): bv8
    requires p < 4
  {
    if Bit(r.planes, p) == 1 then Value(r, val, latch, p) else was
  }

  /** Plane p of the latch matches the compare colour at pixel j, or is not cared for. */
  predicate PlaneMatches(r: Regs, latch: bv8, p: nat, j: nat)
    requires p < 4 && j < 8
  {
    Bit(r.dontCare, p) == 1 ==> Bit(latch, j) == Bit(r.compare, p)
  }

  /** Pixel j of a colour compare. */
  predicate Matches(r: Regs, latch: bv32, j: nat)
    requires j < 8
  {
    forall p | 0 <= p < 4 :: PlaneMatches(r, Plane(latch, p), p, j)
  }

  // ------------------------------------------------------------------
  // The code, one stage of the switch after another

  method LatchedWrite(r: Regs, val: bv8, latch: bv32, mem: bv32) returns (tmp: bv32)
    requires r.Masked()
    ensures Plane(tmp, 0) == PlaneWrite(r, val, Plane(latch, 0), Plane(mem, 0), 0)
    ensures Plane(tmp, 1) == PlaneWrite(r, val, Plane(latch, 1), Plane(mem, 1), 1)
    ensures Plane(tmp, 2) == PlaneWrite(r, val, Plane(latch, 2), Plane(mem, 2), 2)
    ensures Plane(tmp, 3) == PlaneWrite(r, val, Plane(latch, 3), Plane(mem, 3), 3)
  {
    var writeVal := WriteValue(r, val, latch);
    var writeMask := LookupMask(r.planes);
    tmp := MergeWord(mem, writeVal, writeMask);
    EnabledPlane(r, val, Plane(latch, 0), Plane(mem, 0), 0);
    EnabledPlane(r, val, Plane(latch, 1), Plane(mem, 1), 1);
    EnabledPlane(r, val, Plane(latch, 2), Plane(mem, 2), 2);
    EnabledPlane(r, val, Plane(latch, 3), Plane(mem, 3), 3);
  }

  /** tmp &= ~mask; tmp |= now & mask */
  method MergeWord(was: bv32, now: bv32, mask: bv32) returns (tmp: bv32)
    ensures Plane(tmp, 0) == Merge(Plane(was, 0), Plane(now, 0), Plane(mask, 0))
    ensures Plane(tmp, 1) == Merge(Plane(was, 1), Plane(now, 1), Plane(mask, 1))
    ensures Plane(tmp, 2) == Merge(Plane(was, 2), Plane(now, 2), Plane(mask, 2))
    ensures Plane(tmp, 3) == Merge(Plane(was, 3), Plane(now, 3), Plane(mask, 3))
  {
    SplitMerge0(was, now, mask);
    SplitMerge1(was, now, mask);
    SplitMerge2(was, now, mask);
    SplitMerge3(was, now, mask);
    tmp := was & !mask;
    tmp := tmp | (now & mask);
  }

  method WriteValue(r: Regs, val: bv8, latch: bv32) returns (writeVal: bv32)
    requires r.Masked()
    ensures Plane(writeVal, 0) == Value(r, val, Plane(latch, 0), 0)
    ensures Plane(writeVal, 1) == Value(r, val, Plane(latch, 1), 1)
    ensures Plane(writeVal, 2) == Value(r, val, Plane(latch, 2), 2)
    ensures Plane(writeVal, 3) == Value(r, val, Plane(latch, 3), 3)
  {
    if r.mode & 3 == 1 {
      writeVal := latch;
    } else {
      writeVal := ModifiedValue(r, val, latch);
    }
  }

  /** Write modes 0, 2 and 3. */
  method ModifiedValue(r: Regs, val: bv8, latch: bv32) returns (writeVal: bv32)
    requires r.Masked() && r.mode & 3 != 1
    ensures Plane(writeVal, 0) == Value(r, val, Plane(latch, 0), 0)
    ensures Plane(writeVal, 1) == Value(r, val, Plane(latch, 1), 1)
    ensures Plane(writeVal, 2) == Value(r, val, Plane(latch, 2), 2)
    ensures Plane(writeVal, 3) == Value(r, val, Plane(latch, 3), 3)
  {
    var data, bitMask := WriteData(r, val);
    writeVal := ApplyLogic(r.rotate >> 3, data, latch);
    bitMask := Replicate(bitMask);
    SplitReplicate(WriteBits(r, val));
    writeVal := MergeWord(latch, writeVal, bitMask);
    ModifiedPlane(r, val, Plane(latch, 0), 0);
    ModifiedPlane(r, val, Plane(latch, 1), 1);
    ModifiedPlane(r, val, Plane(latch, 2), 2);
    ModifiedPlane(r, val, Plane(latch, 3), 3);
  }

  /** The write data and the bit mask of write modes 0, 2 and 3. */
  method WriteData(r: Regs, val: bv8) returns (data: bv32, bitMask: bv32)
    requires r.Masked() && r.mode & 3 != 1
    ensures bitMask == WriteBits(r, val) as bv32
    ensures Plane(data, 0) == Source(r, val, 0) && Plane(data, 1) == Source(r, val, 1)
    ensures Plane(data, 2) == Source(r, val, 2) && Plane(data, 3) == Source(r, val, 3)
  {
    bitMask := r.bitMask as bv32;
    if r.mode & 3 == 2 {
      data := LookupMask(val & 0x0f);
      PlainSource(r, val);
    } else if r.mode & 3 == 3 {
      bitMask := RotatedMask(r, val);
      data := LookupMask(r.setReset);
      PlainSource(r, val);
    } else {
      data := SetResetData(r, val);
    }
  }

  method RotatedMask(r: Regs, val: bv8) returns (bitMask: bv32)
    ensures bitMask == (r.bitMask & Rotated(r, val)) as bv32
  {
    var b := r.rotate & 7;
    var writeVal := val as bv32;
    writeVal := (writeVal >> b) | (writeVal << (8 - b));
    RotateIsRotate(val, b);
    MaskRotated(r.bitMask, writeVal, Rotated(r, val));
    bitMask := (r.bitMask as bv32) & writeVal;
  }

  /** Write mode 0: rotate, then the set/reset colour in the planes that enable it. */
  method SetResetData(r: Regs, val: bv8) returns (data: bv32)
    requires r.Masked() && r.mode & 3 == 0
    ensures Plane(data, 0) == Source(r, val, 0) && Plane(data, 1) == Source(r, val, 1)
    ensures Plane(data, 2) == Source(r, val, 2) && Plane(data, 3) == Source(r, val, 3)
  {
    var writeVal := RotatedWord(r, val);
    var setMask := LookupMask(r.enableSetReset);
    var setVal := LookupMask(r.setReset);
    SetResetPlane(r, val, 0);
    SetResetPlane(r, val, 1);
    SetResetPlane(r, val, 2);
    SetResetPlane(r, val, 3);
    data := MergeWord(writeVal, setVal, setMask);
  }

  method RotatedWord(r: Regs, val: bv8) returns (w: bv32)
    ensures Plane(w, 0) == Rotated(r, val) && Plane(w, 1) == Rotated(r, val)
    ensures Plane(w, 2) == Rotated(r, val) && Plane(w, 3) == Rotated(r, val)
  {
    var b := r.rotate & 7;
    w := val as bv32;
    w := ((w >> b) | (w << (8 - b))) & 0xff;
    RotateIsRotate(val, b);
    SplitReplicate(Rotated(r, val));
    w := Replicate(w);
  }

  method ApplyLogic(fn: bv8, data: bv32, latch: bv32) returns (w: bv32)
    ensures Plane(w, 0) == Combine(fn, Plane(data, 0), Plane(latch, 0))
    ensures Plane(w, 1) == Combine(fn, Plane(data, 1), Plane(latch, 1))
    ensures Plane(w, 2) == Combine(fn, Plane(data, 2), Plane(latch, 2))
    ensures Plane(w, 3) == Combine(fn, Plane(data, 3), Plane(latch, 3))
  {
    w := data;
    if fn == 1 {
      w := w & latch;
      AndPlanes(fn, data, latch);
    } else if fn == 2 {
      w := w | latch;
      OrPlanes(fn, data, latch);
    } else if fn == 3 {
      w := w ^ latch;
      XorPlanes(fn, data, latch);
    }
  }

  /** Read mode 1. */
  method ColourCompare(r: Regs, latch: bv32) returns (val: bv8)
    requires r.Masked()
    ensures forall j :: 0 <= j < 8 ==> (Bit(val, j) == 1 <==> Matches(r, latch, j))
  {
    var diff := CompareWord(r, latch);
    val := NorOfPlanes(diff);
    NorMarks(r, latch, Plane(diff, 0), Plane(diff, 1), Plane(diff, 2), Plane(diff, 3));
  }

  method CompareWord(r: Regs, latch: bv32) returns (tmp: bv32)
    requires r.Masked()
    ensures Marks(Plane(tmp, 0), r, Plane(latch, 0), 0) && Marks(Plane(tmp, 1), r, Plane(latch, 1), 1)
    ensures Marks(Plane(tmp, 2), r, Plane(latch, 2), 2) && Marks(Plane(tmp, 3), r, Plane(latch, 3), 3)
  {
    var compare := LookupMask(r.compare);
    var care := LookupMask(r.dontCare);
    tmp := DiffWord(latch, compare, care);
    DiffMarks(r, Plane(latch, 0), 0, Plane(tmp, 0));
    DiffMarks(r, Plane(latch, 1), 1, Plane(tmp, 1));
    DiffMarks(r, Plane(latch, 2), 2, Plane(tmp, 2));
    DiffMarks(r, Plane(latch, 3), 3, Plane(tmp, 3));
  }

  method DiffWord(latch: bv32, c: bv32, d: bv32) returns (w: bv32)
    ensures Plane(w, 0) == Diff(Plane(latch, 0), Plane(c, 0), Plane(d, 0))
    ensures Plane(w, 1) == Diff(Plane(latch, 1), Plane(c, 1), Plane(d, 1))
    ensures Plane(w, 2) == Diff(Plane(latch, 2), Plane(c, 2), Plane(d, 2))
    ensures Plane(w, 3) == Diff(Plane(latch, 3), Plane(c, 3), Plane(d, 3))
  {
    w := (latch ^ c) & d;
  }

  /** Fold the four planes and invert. */
  method NorOfPlanes(w: bv32) returns (val: bv8)
    ensures val == !(Plane(w, 0) | Plane(w, 1) | Plane(w, 2) | Plane(w, 3))
  {
    var tmp := w | (w >> 16);
    tmp := tmp | (tmp >> 8);
    val := (!tmp & 0xff) as bv8;
  }

  // ------------------------------------------------------------------
  // A packed word and its four planes

  /** x |= x << 8; x |= x << 16 */
  function Replicate(x: bv32): bv32 {
    var y := x | (x << 8);
    y | (y << 16)
  }

  lemma SplitReplicate(x: bv8)
    ensures var w := Replicate(x as bv32);
      Plane(w, 0) == x && Plane(w, 1) == x && Plane(w, 2) == x && Plane(w, 3) == x
  {
  }

  lemma MaskRotated(m: bv8, w: bv32, rot: bv8)
    requires w & 0xff == rot as bv32
    ensures (m as bv32) & w == (m & rot) as bv32
  {
  }

  lemma PlainSource(r: Regs, val: bv8)
    ensures r.mode & 3 == 2 ==> forall p :: 0 <= p < 4 ==> Source(r, val, p) == Ones(Bit(val & 0x0f, p) == 1)
    ensures r.mode & 3 == 3 ==> forall p :: 0 <= p < 4 ==> Source(r, val, p) == Ones(Bit(r.setReset, p) == 1)
  {
  }

  lemma SetResetPlane(r: Regs, val: bv8, p: nat)
    requires p < 4 && r.mode & 3 == 0
    ensures Merge(Rotated(r, val), Ones(Bit(r.setReset, p) == 1), Ones(Bit(r.enableSetReset, p) == 1))
        == Source(r, val, p)
  {
    MergeOnes(Rotated(r, val), Ones(Bit(r.setReset, p) == 1));
  }

  lemma EnabledPlane(r: Regs, val: bv8, latch: bv8, was: bv8, p: nat)
    requires p < 4
    ensures Merge(was, Value(r, val, latch, p), Ones(Bit(r.planes, p) == 1)) == PlaneWrite(r, val, latch, was, p)
  {
    MergeOnes(was, Value(r, val, latch, p));
  }

  lemma ModifiedPlane(r: Regs, val: bv8, latch: bv8, p: nat)
    requires p < 4 && r.mode & 3 != 1
    ensures Merge(latch, Combine(r.rotate >> 3, Source(r, val, p), latch), WriteBits(r, val)) == Value(r, val, latch, p)
  {
  }

  lemma MergeOnes(was: bv8, now: bv8)
    ensures Merge(was, now, 0xff) == now && Merge(was, now, 0) == was
  {
  }

  lemma SplitMerge0(was: bv32, now: bv32, m: bv32)
    ensures Plane((was & !m) | (now & m), 0) == Merge(Plane(was, 0), Plane(now, 0), Plane(m, 0))
  {
  }

  lemma SplitMerge1(was: bv32, now: bv32, m: bv32)
    ensures Plane((was & !m) | (now & m), 1) == Merge(Plane(was, 1), Plane(now, 1), Plane(m, 1))
  {
  }

  lemma SplitMerge2(was: bv32, now: bv32, m: bv32)
    ensures Plane((was & !m) | (now & m), 2) == Merge(Plane(was, 2), Plane(now, 2), Plane(m, 2))
  {
  }

  lemma SplitMerge3(was: bv32, now: bv32, m: bv32)
    ensures Plane((was & !m) | (now & m), 3) == Merge(Plane(was, 3), Plane(now, 3), Plane(m, 3))
  {
  }

  lemma AndPlanes(fn: bv8, d: bv32, e: bv32)
    requires fn == 1
    ensures Plane(d & e, 0) == Combine(fn, Plane(d, 0), Plane(e, 0))
    ensures Plane(d & e, 1) == Combine(fn, Plane(d, 1), Plane(e, 1))
    ensures Plane(d & e, 2) == Combine(fn, Plane(d, 2), Plane(e, 2))
    ensures Plane(d & e, 3) == Combine(fn, Plane(d, 3), Plane(e, 3))
  {
  }

  lemma OrPlanes(fn: bv8, d: bv32, e: bv32)
    requires fn == 2
    ensures Plane(d | e, 0) == Combine(fn, Plane(d, 0), Plane(e, 0))
    ensures Plane(d | e, 1) == Combine(fn, Plane(d, 1), Plane(e, 1))
    ensures Plane(d | e, 2) == Combine(fn, Plane(d, 2), Plane(e, 2))
    ensures Plane(d | e, 3) == Combine(fn, Plane(d, 3), Plane(e, 3))
  {
  }

  lemma XorPlanes(fn: bv8, d: bv32, e: bv32)
    requires fn == 3
    ensures Plane(d ^ e, 0) == Combine(fn, Plane(d, 0), Plane(e, 0))
    ensures Plane(d ^ e, 1) == Combine(fn, Plane(d, 1), Plane(e, 1))
    ensures Plane(d ^ e, 2) == Combine(fn, Plane(d, 2), Plane(e, 2))
    ensures Plane(d ^ e, 3) == Combine(fn, Plane(d, 3), Plane(e, 3))
  {
  }

  function Diff(latch: bv8, c: bv8, d: bv8): bv8 { (latch ^ c) & d }

  /** e marks the pixels of plane p that differ from the compare colour and are cared for. */
  ghost predicate Marks(e: bv8, r: Regs, latch: bv8, p: nat)
    requires p < 4
  {
    forall j | 0 <= j < 8 :: Bit(e, j) == 0 <==> PlaneMatches(r, latch, p, j)
  }

  lemma DiffMarks(r: Regs, latch: bv8, p: nat, e: bv8)
    requires p < 4 && e == Diff(latch, Ones(Bit(r.compare, p) == 1), Ones(Bit(r.dontCare, p) == 1))
    ensures Marks(e, r, latch, p)
  {
    forall j | 0 <= j < 8
      ensures Bit(e, j) == 0 <==> PlaneMatches(r, latch, p, j)
    {
      OnesBit(latch, Bit(r.compare, p), Bit(r.dontCare, p), j);
    }
  }

  lemma NorMarks(r: Regs, latch: bv32, e0: bv8, e1: bv8, e2: bv8, e3: bv8)
    requires Marks(e0, r, Plane(latch, 0), 0) && Marks(e1, r, Plane(latch, 1), 1)
    requires Marks(e2, r, Plane(latch, 2), 2) && Marks(e3, r, Plane(latch, 3), 3)
    ensures forall j :: 0 <= j < 8 ==> (Bit(!(e0 | e1 | e2 | e3), j) == 1 <==> Matches(r, latch, j))
  {
    forall j | 0 <= j < 8
      ensures Bit(!(e0 | e1 | e2 | e3), j) == 1 <==> Matches(r, latch, j)
    {
      NorBits(e0, e1, e2, e3, j);
    }
  }

  lemma ShiftOr(a: bv8, b: bv8, c: bv8, d: bv8, k: bv8)
    requires k < 8
    ensures (a | b | c | d) >> k == (a >> k) | (b >> k) | (c >> k) | (d >> k)
  {
  }

  lemma ShiftNot(a: bv8, k: bv8)
    requires k < 8
    ensures (!a >> k) & 1 == !(a >> k) & 1
  {
  }

  lemma LowNor(a: bv8, b: bv8, c: bv8, d: bv8)
    ensures !(a | b | c | d) & 1 == 1 <==> a & 1 == 0 && b & 1 == 0 && c & 1 == 0 && d & 1 == 0
  {
  }

  lemma NorBitsAt(d0: bv8, d1: bv8, d2: bv8, d3: bv8, k: bv8)
    requires k < 8
    ensures BitAt(!(d0 | d1 | d2 | d3), k) == 1
       <==> BitAt(d0, k) == 0 && BitAt(d1, k) == 0 && BitAt(d2, k) == 0 && BitAt(d3, k) == 0
  {
    ShiftNot(d0 | d1 | d2 | d3, k);
    ShiftOr(d0, d1, d2, d3, k);
    LowNor(d0 >> k, d1 >> k, d2 >> k, d3 >> k);
  }

  lemma NorBits(d0: bv8, d1: bv8, d2: bv8, d3: bv8, j: nat)
    requires j < 8
    ensures Bit(!(d0 | d1 | d2 | d3), j) == 1
       <==> Bit(d0, j) == 0 && Bit(d1, j) == 0 && Bit(d2, j) == 0 && Bit(d3, j) == 0
  {
    match j
    case 0 => NorBitsAt(d0, d1, d2, d3, 0);
    case 1 => NorBitsAt(d0, d1, d2, d3, 1);
    case 2 => NorBitsAt(d0, d1, d2, d3, 2);
    case 3 => NorBitsAt(d0, d1, d2, d3, 3);
    case 4 => NorBitsAt(d0, d1, d2, d3, 4);
    case 5 => NorBitsAt(d0, d1, d2, d3, 5);
    case 6 => NorBitsAt(d0, d1, d2, d3, 6);
    case 7 => NorBitsAt(d0, d1, d2, d3, 7);
  }

  lemma OnesBit(latch: bv8, c: bv8, d: bv8, j: nat)
    requires c < 2 && j < 8
    ensures Bit(Diff(latch, Ones(c == 1), Ones(d == 1)), j) == 0 <==> (d == 1 ==> Bit(latch, j) == c)
  {
  }

  lemma {:induction false} RotateIsRotate(v: bv8, b: bv8)
    requires b < 8
    ensures (((v as bv32) >> b) | ((v as bv32) << (8 - b))) & 0xff == RotateRight(v, b as int) as bv32
    decreases b
  {
    if b > 0 {
      RotateIsRotate(Ror(v), b - 1);
      RotateOnce(v, b);
      assert RotateRight(v, b as int) == RotateRight(Ror(v), (b - 1) as int);
    }
  }

  lemma RotateOnce(v: bv8, b: bv8)
    requires 0 < b < 8
    ensures (((v as bv32) >> b) | ((v as bv32) << (8 - b))) & 0xff
         == (((((v >> 1) | (v << 7)) as bv32) >> (b - 1)) | ((((v >> 1) | (v << 7)) as bv32) << (9 - b))) & 0xff
  {
  }
}
