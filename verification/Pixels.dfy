/** The scan-line converters of template.h for 32-bit surfaces, and the bit-spreading
    tables surface_initialize builds for them. */
module Pixels {
  import opened VgaRegs
  import opened Grid

  type Pixel = bv32

  /** A sixteen-colour palette index. */
  type Index4 = i: bv32 | i < 16

  /** The guest formats a scan line is converted from. */
  datatype LineMode = Line2 | Line2D2 | Line4 | Line4D2 | Line8D2 | Line8 | Line15 | Line16 | Line24

  // ------------------------------------------------------------------
  // What a line shows

  function Enabled(b: bv8, planes: bv8, p: nat): bv8
    requires p < 4
  {
    if Bit(planes, p) == 1 then b else 0
  }

  /** Four planar bytes: bit j of each enabled plane, plane 0 lowest. */
  function PlanarIndex(planes: bv8, vram: seq<bv8>, a: nat, j: nat): Index4
    requires a + 4 <= |vram| && j < 8
  {
    Nibble(Bit(Enabled(vram[a], planes, 0), j), Bit(Enabled(vram[a + 1], planes, 1), j),
           Bit(Enabled(vram[a + 2], planes, 2), j), Bit(Enabled(vram[a + 3], planes, 3), j))
  }

  /** Four bits, the first lowest. */
  function Nibble(b0: bv8, b1: bv8, b2: bv8, b3: bv8): Index4
    requires b0 < 2 && b1 < 2 && b2 < 2 && b3 < 2
  {
    (b0 as bv32) | ((b1 as bv32) << 1) | ((b2 as bv32) << 2) | ((b3 as bv32) << 3)
  }

  /** The eight pixels of a sixteen-colour group, left to right: pixel k shows bit 7 - k. */
  function PlanarGroup(planes: bv8, vram: seq<bv8>, a: nat): (ns: seq<Index4>)
    requires a + 4 <= |vram|
    ensures |ns| == 8
  {
    [PlanarIndex(planes, vram, a, 7), PlanarIndex(planes, vram, a, 6), PlanarIndex(planes, vram, a, 5),
     PlanarIndex(planes, vram, a, 4), PlanarIndex(planes, vram, a, 3), PlanarIndex(planes, vram, a, 2),
     PlanarIndex(planes, vram, a, 1), PlanarIndex(planes, vram, a, 0)]
  }

  /** A four-colour pixel: bits j and j + 1 of a low and of a high plane. */
  function PairIndex(low: bv8, high: bv8, j: nat): Index4
    requires j < 7
  {
    Nibble(Bit(low, j), Bit(low, j + 1), Bit(high, j), Bit(high, j + 1))
  }

  /** The eight pixels of a four-colour group: planes 0 and 2 hold the left four,
      planes 1 and 3 the right four, two neighbouring bits of each making a pixel. */
  function PairGroup(planes: bv8, vram: seq<bv8>, a: nat): (ns: seq<Index4>)
    requires a + 4 <= |vram|
    ensures |ns| == 8
  {
    var (p0, p2) := (Enabled(vram[a], planes, 0), Enabled(vram[a + 2], planes, 2));
    var (p1, p3) := (Enabled(vram[a + 1], planes, 1), Enabled(vram[a + 3], planes, 3));
    [PairIndex(p0, p2, 6), PairIndex(p0, p2, 4), PairIndex(p0, p2, 2), PairIndex(p0, p2, 0),
     PairIndex(p1, p3, 6), PairIndex(p1, p3, 4), PairIndex(p1, p3, 2), PairIndex(p1, p3, 0)]
  }

  function Rgb(r: bv32, g: bv32, b: bv32): Pixel {
    (r << 16) | (g << 8) | b
  }

  function Word16(vram: seq<bv8>, a: nat): bv32
    requires a + 2 <= |vram|
  {
    (vram[a] as bv32) | ((vram[a + 1] as bv32) << 8)
  }

  /** Bytes per group and pixels per group. */
  function GroupBytes(m: LineMode): nat {
    match m
    case Line8 => 8
    case Line15 => 2
    case Line16 => 2
    case Line24 => 3
    case _ => 4
  }

  function GroupPixels(m: LineMode): (n: nat)
    ensures n > 0
  {
    match m
    case Line2D2 => 16
    case Line4D2 => 16
    case Line15 => 1
    case Line16 => 1
    case Line24 => 1
    case _ => 8
  }

  /** Number of groups a line of the given width draws. */
  function Groups(m: LineMode, width: nat): nat {
    if m.Line15? || m.Line16? || m.Line24? then width else width / 8
  }

  function PixelCount(m: LineMode, width: nat): nat {
    Groups(m, width) * GroupPixels(m)
  }

  /** Pixel k of the group of source bytes starting at a. */
  function GroupPixel(m: LineMode, palette: seq<Pixel>, planes: bv8, vram: seq<bv8>, a: nat, k: nat): Pixel
    requires |palette| == 256 && a + GroupBytes(m) <= |vram| && k < GroupPixels(m)
  {
    match m
    case Line2 => palette[PairGroup(planes, vram, a)[k] as int]
    case Line2D2 => palette[PairGroup(planes, vram, a)[k / 2] as int]
    case Line4 => palette[PlanarGroup(planes, vram, a)[k] as int]
    case Line4D2 => palette[PlanarGroup(planes, vram, a)[k / 2] as int]
    case Line8D2 => palette[vram[a + k / 2] as int]
    case Line8 => palette[vram[a + k] as int]
    case Line15 =>
      var v := Word16(vram, a);
      Rgb((v >> 7) & 0xf8, (v >> 2) & 0xf8, (v << 3) & 0xf8)
    case Line16 =>
      var v := Word16(vram, a);
      Rgb((v >> 8) & 0xf8, (v >> 3) & 0xfc, (v << 3) & 0xf8)
    case Line24 => Rgb(vram[a + 2] as bv32, vram[a + 1] as bv32, vram[a] as bv32)
  }

  // ------------------------------------------------------------------
  // The bit-spreading tables

  function NibbleBit(e: bv32, j: bv8): bv32
    requires j < 8
  {
    (e >> (4 * j)) & 1
  }

  /** expand4: nibble j of e is bit j of b. */
  ghost predicate Spread4(e: bv32, b: bv8) {
    && e & 0x1111_1111 == e
    && forall j: bv8 {:trigger NibbleBit(e, j)} | j < 8 :: NibbleBit(e, j) == BitAt(b, j) as bv32
  }

  function NibblePair(e: bv32, j: bv8): bv32
    requires j < 4
  {
    (e >> (4 * j)) & 3
  }

  function PairAt(b: bv8, j: bv8): bv8
    requires j < 4
  {
    (b >> (2 * j)) & 3
  }

  /** expand2: nibble j of e is the j-th pair of bits of b. */
  ghost predicate Spread2(e: bv32, b: bv8) {
    && e & 0x3333 == e
    && forall j: bv8 {:trigger NibblePair(e, j)} | j < 4 :: NibblePair(e, j) == PairAt(b, j) as bv32
  }

  /** expand4to8: the j-th pair of bits of e is bit j of b, twice. */
  ghost predicate Double4(e: bv8, b: bv8) {
    forall j: bv8 {:trigger PairAt(e, j)} | j < 4 :: PairAt(e, j) == 3 * BitAt(b, j)
  }

  ghost predicate Entry4(a: array<bv32>, b: bv8)
    requires a.Length == 256
    reads a
  {
    Spread4(a[b as int], b)
  }

  ghost predicate Entry2(a: array<bv32>, b: bv8)
    requires a.Length == 256
    reads a
  {
    Spread2(a[b as int], b)
  }

  ghost predicate Entry4to8(a: array<bv8>, b: bv8)
    requires a.Length == 16 && b < 16
    reads a
  {
    Double4(a[b as int], b)
  }

  class Tables {
    const expand4: array<bv32>
    const expand2: array<bv32>
    const expand4to8: array<bv8>

    ghost predicate Valid()
      reads expand4, expand2, expand4to8
    {
      && expand4.Length == 256 && expand2.Length == 256 && expand4to8.Length == 16
      && (forall b: bv8 :: Entry4(expand4, b))
      && (forall b: bv8 :: Entry2(expand2, b))
      && (forall b: bv8 | b < 16 :: Entry4to8(expand4to8, b))
    }

    constructor ()
      ensures Valid() && fresh(expand4) && fresh(expand2) && fresh(expand4to8)
    {
      var e4 := BuildTable4();
      var e2 := BuildTable2();
      var e48 := BuildTable4to8();
      expand4, expand2, expand4to8 := e4, e2, e48;
    }
  }

  method BuildTable4() returns (a: array<bv32>)
    ensures fresh(a) && a.Length == 256 && forall b: bv8 :: Entry4(a, b)
  {
    a := new bv32[256];
    for i := 0 to 256
      invariant forall b: bv8 | b as int < i :: Entry4(a, b)
    {
      var v := BuildSpread4(i as bv8);
      label Store:
      a[i] := v;
      forall b: bv8 | b as int < i + 1
        ensures Entry4(a, b)
      {
        assert b as int < i ==> old@Store(Entry4(a, b));
      }
    }
  }

  method BuildTable2() returns (a: array<bv32>)
    ensures fresh(a) && a.Length == 256 && forall b: bv8 :: Entry2(a, b)
  {
    a := new bv32[256];
    for i := 0 to 256
      invariant forall b: bv8 | b as int < i :: Entry2(a, b)
    {
      var v := BuildSpread2(i as bv8);
      label Store:
      a[i] := v;
      forall b: bv8 | b as int < i + 1
        ensures Entry2(a, b)
      {
        assert b as int < i ==> old@Store(Entry2(a, b));
      }
    }
  }

  method BuildTable4to8() returns (a: array<bv8>)
    ensures fresh(a) && a.Length == 16 && forall b: bv8 | b < 16 :: Entry4to8(a, b)
  {
    a := new bv8[16];
    for i := 0 to 16
      invariant forall b: bv8 | b as int < i :: b < 16 && Entry4to8(a, b)
    {
      var v := BuildDouble4(i as bv8);
      label Store:
      a[i] := v;
      forall b: bv8 | b as int < i + 1
        ensures b < 16 && Entry4to8(a, b)
      {
        assert b as int < i ==> b < 16 && old@Store(Entry4to8(a, b));
      }
    }
  }

  method BuildSpread4(i: bv8) returns (v: bv32)
    ensures Spread4(v, i)
  {
    v := 0;
    var j: bv8 := 0;
    while j < 8
      invariant j <= 8
      invariant v & 0x1111_1111 == v
      invariant j < 8 ==> v >> (4 * j) == 0
      invariant forall k: bv8 {:trigger NibbleBit(v, k)} | k < j :: NibbleBit(v, k) == BitAt(i, k) as bv32
      decreases 8 - j
    {
      ghost var e := v;
      v := v | (((i >> j) & 1) as bv32 << (4 * j));
      forall k: bv8 | k < j + 1
        ensures NibbleBit(v, k) == BitAt(i, k) as bv32
      {
        SpreadBit(e, (i >> j) & 1, j, k);
        assert k < j ==> NibbleBit(e, k) == BitAt(i, k) as bv32;
      }
      j := j + 1;
    }
  }

  method BuildSpread2(i: bv8) returns (v: bv32)
    ensures Spread2(v, i)
  {
    v := 0;
    var j: bv8 := 0;
    while j < 4
      invariant j <= 4
      invariant v & 0x3333 == v
      invariant v >> (4 * j) == 0
      invariant forall k: bv8 {:trigger NibblePair(v, k)} | k < j :: NibblePair(v, k) == PairAt(i, k) as bv32
      decreases 4 - j
    {
      ghost var e := v;
      v := v | (((i >> (2 * j)) & 3) as bv32 << (4 * j));
      forall k: bv8 | k < j + 1
        ensures NibblePair(v, k) == PairAt(i, k) as bv32
      {
        SpreadPair(e, (i >> (2 * j)) & 3, j, k);
        assert k < j ==> NibblePair(e, k) == PairAt(i, k) as bv32;
      }
      j := j + 1;
    }
  }

  method BuildDouble4(i: bv8) returns (v: bv8)
    ensures Double4(v, i)
  {
    v := 0;
    var j: bv8 := 0;
    while j < 4
      invariant j <= 4
      invariant v >> (2 * j) == 0
      invariant forall k: bv8 {:trigger PairAt(v, k)} | k < j :: PairAt(v, k) == 3 * BitAt(i, k)
      decreases 4 - j
    {
      var b := (i >> j) & 1;
      ghost var e := v;
      v := v | (b << (2 * j));
      v := v | (b << (2 * j + 1));
      forall k: bv8 | k < j + 1
        ensures PairAt(v, k) == 3 * BitAt(i, k)
      {
        DoubleBit(e, b, j, k);
        assert k < j ==> PairAt(e, k) == 3 * BitAt(i, k);
      }
      j := j + 1;
    }
  }

  lemma SpreadBit(e: bv32, bit: bv8, n: bv8, k: bv8)
    requires n < 8 && k <= n && bit < 2 && e >> (4 * n) == 0
    ensures NibbleBit(e | (bit as bv32 << (4 * n)), k) == if k == n then bit as bv32 else NibbleBit(e, k)
  {
  }

  lemma SpreadPair(e: bv32, pair: bv8, n: bv8, k: bv8)
    requires n < 4 && k <= n && pair < 4 && e >> (4 * n) == 0
    ensures NibblePair(e | (pair as bv32 << (4 * n)), k) == if k == n then pair as bv32 else NibblePair(e, k)
  {
  }

  lemma DoubleBit(e: bv8, bit: bv8, n: bv8, k: bv8)
    requires n < 4 && k <= n && bit < 2 && e >> (2 * n) == 0
    ensures PairAt(e | (bit << (2 * n)) | (bit << (2 * n + 1)), k) == if k == n then 3 * bit else PairAt(e, k)
  {
  }

  lemma NibbleOfSpread(e0: bv32, e1: bv32, e2: bv32, e3: bv32, j: bv8)
    requires e0 & 0x1111_1111 == e0 && e1 & 0x1111_1111 == e1 && e2 & 0x1111_1111 == e2 && e3 & 0x1111_1111 == e3
    requires j < 8
    ensures ((e0 | (e1 << 1) | (e2 << 2) | (e3 << 3)) >> (4 * j)) & 0xf
         == ((e0 >> (4 * j)) & 1) | (((e1 >> (4 * j)) & 1) << 1)
            | (((e2 >> (4 * j)) & 1) << 2) | (((e3 >> (4 * j)) & 1) << 3)
  {
  }

  lemma AndOnes(b: bv8, planes: bv8, p: nat)
    requires p < 4
    ensures b & Ones(Bit(planes, p) == 1) == Enabled(b, planes, p)
  {
  }

  /** Load four bytes and drop the disabled planes. */
  method LoadPlanes(planes: bv8, vram: array<bv8>, a: nat) returns (data: bv32)
    requires planes < 16 && a + 4 <= vram.Length
    ensures Plane(data, 0) == Enabled(vram[a], planes, 0) && Plane(data, 1) == Enabled(vram[a + 1], planes, 1)
    ensures Plane(data, 2) == Enabled(vram[a + 2], planes, 2) && Plane(data, 3) == Enabled(vram[a + 3], planes, 3)
  {
    var planeMask := LookupMask(planes);
    data := LoadWord(vram, a);
    AndOnes(vram[a], planes, 0);
    AndOnes(vram[a + 1], planes, 1);
    AndOnes(vram[a + 2], planes, 2);
    AndOnes(vram[a + 3], planes, 3);
    data := AndWord(data, planeMask);
  }

  method LoadWord(vram: array<bv8>, a: nat) returns (data: bv32)
    requires a + 4 <= vram.Length
    ensures Plane(data, 0) == vram[a] && Plane(data, 1) == vram[a + 1]
    ensures Plane(data, 2) == vram[a + 2] && Plane(data, 3) == vram[a + 3]
  {
    data := Pack(vram[a], vram[a + 1], vram[a + 2], vram[a + 3]);
    PlanesOfPack(vram[a], vram[a + 1], vram[a + 2], vram[a + 3]);
  }

  method AndWord(data: bv32, m: bv32) returns (w: bv32)
    ensures Plane(w, 0) == Plane(data, 0) & Plane(m, 0) && Plane(w, 1) == Plane(data, 1) & Plane(m, 1)
    ensures Plane(w, 2) == Plane(data, 2) & Plane(m, 2) && Plane(w, 3) == Plane(data, 3) & Plane(m, 3)
  {
    w := data & m;
  }

  method Spread(t: Tables, b: bv8) returns (e: bv32)
    requires t.Valid()
    ensures Spread4(e, b)
  {
    assert Entry4(t.expand4, b);
    e := t.expand4[b as int];
  }

  function NibbleAt(p0: bv8, p1: bv8, p2: bv8, p3: bv8, j: bv8): Index4
    requires j < 8
  {
    Nibble(BitAt(p0, j), BitAt(p1, j), BitAt(p2, j), BitAt(p3, j))
  }

  /** The palette index in nibble j of a word spread from four planes. */
  method SpreadIndex(v: bv32, ghost e0: bv32, ghost e1: bv32, ghost e2: bv32, ghost e3: bv32,
                     ghost p0: bv8, ghost p1: bv8, ghost p2: bv8, ghost p3: bv8, j: bv8)
    returns (n: Index4)
    requires v == e0 | (e1 << 1) | (e2 << 2) | (e3 << 3) && j < 8
    requires Spread4(e0, p0) && Spread4(e1, p1) && Spread4(e2, p2) && Spread4(e3, p3)
    ensures n == NibbleAt(p0, p1, p2, p3, j)
  {
    NibbleOfSpread(e0, e1, e2, e3, j);
    ghost var (b0, b1) := (NibbleBit(e0, j), NibbleBit(e1, j));
    ghost var (b2, b3) := (NibbleBit(e2, j), NibbleBit(e3, j));
    n := (v >> (4 * j)) & 0xf;
  }

  lemma PlanarGroupOf(planes: bv8, vram: seq<bv8>, a: nat, p0: bv8, p1: bv8, p2: bv8, p3: bv8)
    requires a + 4 <= |vram|
    requires p0 == Enabled(vram[a], planes, 0) && p1 == Enabled(vram[a + 1], planes, 1)
    requires p2 == Enabled(vram[a + 2], planes, 2) && p3 == Enabled(vram[a + 3], planes, 3)
    ensures PlanarGroup(planes, vram, a)
         == [NibbleAt(p0, p1, p2, p3, 7), NibbleAt(p0, p1, p2, p3, 6), NibbleAt(p0, p1, p2, p3, 5),
             NibbleAt(p0, p1, p2, p3, 4), NibbleAt(p0, p1, p2, p3, 3), NibbleAt(p0, p1, p2, p3, 2),
             NibbleAt(p0, p1, p2, p3, 1), NibbleAt(p0, p1, p2, p3, 0)]
  {
  }

  /** The four enabled planes of a group. */
  method EnabledPlanes(planes: bv8, vram: array<bv8>, a: nat) returns (p0: bv8, p1: bv8, p2: bv8, p3: bv8)
    requires planes < 16 && a + 4 <= vram.Length
    ensures p0 == Enabled(vram[a], planes, 0) && p1 == Enabled(vram[a + 1], planes, 1)
    ensures p2 == Enabled(vram[a + 2], planes, 2) && p3 == Enabled(vram[a + 3], planes, 3)
  {
    var data := LoadPlanes(planes, vram, a);
    p0, p1, p2, p3 := Plane(data, 0), Plane(data, 1), Plane(data, 2), Plane(data, 3);
  }

  /** The eight palette indices of a sixteen-colour group. */
  method PlanarIndices(t: Tables, planes: bv8, vram: array<bv8>, a: nat) returns (ns: seq<Index4>)
    requires t.Valid() && planes < 16 && a + 4 <= vram.Length
    ensures ns == PlanarGroup(planes, vram[..], a)
  {
    var p0, p1, p2, p3 := EnabledPlanes(planes, vram, a);
    ns := NibblesOf(t, p0, p1, p2, p3);
    PlanarGroupOf(planes, vram[..], a, p0, p1, p2, p3);
  }

  method NibblesOf(t: Tables, p0: bv8, p1: bv8, p2: bv8, p3: bv8) returns (ns: seq<Index4>)
    requires t.Valid()
    ensures ns == [NibbleAt(p0, p1, p2, p3, 7), NibbleAt(p0, p1, p2, p3, 6), NibbleAt(p0, p1, p2, p3, 5),
                   NibbleAt(p0, p1, p2, p3, 4), NibbleAt(p0, p1, p2, p3, 3), NibbleAt(p0, p1, p2, p3, 2),
                   NibbleAt(p0, p1, p2, p3, 1), NibbleAt(p0, p1, p2, p3, 0)]
  {
    var e0 := Spread(t, p0);
    var e1 := Spread(t, p1);
    var e2 := Spread(t, p2);
    var e3 := Spread(t, p3);
    var v := e0 | (e1 << 1) | (e2 << 2) | (e3 << 3);
    var n0 := SpreadIndex(v, e0, e1, e2, e3, p0, p1, p2, p3, 7);
    var n1 := SpreadIndex(v, e0, e1, e2, e3, p0, p1, p2, p3, 6);
    var n2 := SpreadIndex(v, e0, e1, e2, e3, p0, p1, p2, p3, 5);
    var n3 := SpreadIndex(v, e0, e1, e2, e3, p0, p1, p2, p3, 4);
    var n4 := SpreadIndex(v, e0, e1, e2, e3, p0, p1, p2, p3, 3);
    var n5 := SpreadIndex(v, e0, e1, e2, e3, p0, p1, p2, p3, 2);
    var n6 := SpreadIndex(v, e0, e1, e2, e3, p0, p1, p2, p3, 1);
    var n7 := SpreadIndex(v, e0, e1, e2, e3, p0, p1, p2, p3, 0);
    ns := [n0, n1, n2, n3, n4, n5, n6, n7];
  }

  // ------------------------------------------------------------------
  // Four-colour groups

  lemma NibbleOfPairs(low: bv32, high: bv32, j: bv8)
    requires low & 0x3333 == low && high & 0x3333 == high && j < 4
    ensures ((low | (high << 2)) >> (4 * j)) & 0xf == ((low >> (4 * j)) & 3) | (((high >> (4 * j)) & 3) << 2)
  {
  }

  lemma PairOfBits(b: bv8, j: bv8)
    requires j < 4
    ensures PairAt(b, j) == BitAt(b, 2 * j) | (BitAt(b, 2 * j + 1) << 1)
  {
  }

  lemma NibbleOfPairBits(l0: bv8, l1: bv8, h0: bv8, h1: bv8, low: bv8, high: bv8)
    requires l0 < 2 && l1 < 2 && h0 < 2 && h1 < 2
    requires low == l0 | (l1 << 1) && high == h0 | (h1 << 1)
    ensures (low as bv32) | ((high as bv32) << 2) == Nibble(l0, l1, h0, h1)
  {
  }

  function PairNibble(low: bv8, high: bv8, j: bv8): Index4
    requires j < 4
  {
    Nibble(BitAt(low, 2 * j), BitAt(low, 2 * j + 1), BitAt(high, 2 * j), BitAt(high, 2 * j + 1))
  }

  /** The palette index in nibble j of a word spread from two planes. */
  method PairIndexOf(v: bv32, ghost e0: bv32, ghost e1: bv32, ghost low: bv8, ghost high: bv8, j: bv8)
    returns (n: Index4)
    requires v == e0 | (e1 << 2) && j < 4
    requires Spread2(e0, low) && Spread2(e1, high)
    ensures n == PairNibble(low, high, j)
  {
    NibbleOfPairs(e0, e1, j);
    ghost var (b0, b1) := (NibblePair(e0, j), NibblePair(e1, j));
    PairOfBits(low, j);
    PairOfBits(high, j);
    NibbleOfPairBits(BitAt(low, 2 * j), BitAt(low, 2 * j + 1), BitAt(high, 2 * j), BitAt(high, 2 * j + 1),
                     PairAt(low, j), PairAt(high, j));
    n := (v >> (4 * j)) & 0xf;
  }

  /** The four pixels spread from one pair of planes, left to right. */
  method PairsOf(t: Tables, low: bv8, high: bv8) returns (n0: Index4, n1: Index4, n2: Index4, n3: Index4)
    requires t.Valid()
    ensures n0 == PairNibble(low, high, 3) && n1 == PairNibble(low, high, 2)
    ensures n2 == PairNibble(low, high, 1) && n3 == PairNibble(low, high, 0)
  {
    var e0 := SpreadPairs(t, low);
    var e1 := SpreadPairs(t, high);
    var v := e0 | (e1 << 2);
    n0 := PairIndexOf(v, e0, e1, low, high, 3);
    n1 := PairIndexOf(v, e0, e1, low, high, 2);
    n2 := PairIndexOf(v, e0, e1, low, high, 1);
    n3 := PairIndexOf(v, e0, e1, low, high, 0);
  }

  method SpreadPairs(t: Tables, b: bv8) returns (e: bv32)
    requires t.Valid()
    ensures Spread2(e, b)
  {
    assert Entry2(t.expand2, b);
    e := t.expand2[b as int];
  }

  /** The eight palette indices of a four-colour group. */
  method PairIndices(t: Tables, planes: bv8, vram: array<bv8>, a: nat) returns (ns: seq<Index4>)
    requires t.Valid() && planes < 16 && a + 4 <= vram.Length
    ensures ns == PairGroup(planes, vram[..], a)
  {
    var p0, p1, p2, p3 := EnabledPlanes(planes, vram, a);
    var n0, n1, n2, n3 := PairsOf(t, p0, p2);
    var n4, n5, n6, n7 := PairsOf(t, p1, p3);
    ns := [n0, n1, n2, n3, n4, n5, n6, n7];
    PairGroupOf(planes, vram[..], a, p0, p1, p2, p3);
  }

  lemma PairGroupOf(planes: bv8, vram: seq<bv8>, a: nat, p0: bv8, p1: bv8, p2: bv8, p3: bv8)
    requires a + 4 <= |vram|
    requires p0 == Enabled(vram[a], planes, 0) && p1 == Enabled(vram[a + 1], planes, 1)
    requires p2 == Enabled(vram[a + 2], planes, 2) && p3 == Enabled(vram[a + 3], planes, 3)
    ensures PairGroup(planes, vram, a)
         == [PairNibble(p0, p2, 3), PairNibble(p0, p2, 2), PairNibble(p0, p2, 1), PairNibble(p0, p2, 0),
             PairNibble(p1, p3, 3), PairNibble(p1, p3, 2), PairNibble(p1, p3, 1), PairNibble(p1, p3, 0)]
  {
  }

  // ------------------------------------------------------------------
  // Drawing a line

  /** The pixels at o show the group of source bytes at a. */
  ghost predicate GroupShows(fb: seq<Pixel>, o: nat, m: LineMode, palette: seq<Pixel>, planes: bv8, vram: seq<bv8>,
                             a: nat)
  {
    && |palette| == 256 && a + GroupBytes(m) <= |vram| && o + GroupPixels(m) <= |fb|
    && forall k {:trigger GroupPixel(m, palette, planes, vram, a, k)} | 0 <= k < GroupPixels(m) ::
         fb[o + k] == GroupPixel(m, palette, planes, vram, a, k)
  }

  /** The first n groups of a line at o show the source bytes from a on. */
  ghost predicate LineShows(fb: seq<Pixel>, o: nat, m: LineMode, palette: seq<Pixel>, planes: bv8, vram: seq<bv8>,
                            a: nat, n: nat)
  {
    forall g {:trigger At(a, GroupBytes(m), g)} | 0 <= g < n ::
      GroupShows(fb, At(o, GroupPixels(m), g), m, palette, planes, vram, At(a, GroupBytes(m), g))
  }

  /** Only cells lo..hi may differ. */
  ghost predicate SameOutside(was: seq<Pixel>, fb: seq<Pixel>, lo: nat, hi: nat) {
    |fb| == |was| && forall i | 0 <= i < |fb| && !(lo <= i < hi) :: fb[i] == was[i]
  }

  // The same as a function of the buffer

  function PaintGroup(fb: seq<Pixel>, o: nat, m: LineMode, palette: seq<Pixel>, planes: bv8, vram: seq<bv8>,
                      a: nat): (f: seq<Pixel>)
    requires |palette| == 256 && a + GroupBytes(m) <= |vram| && o + GroupPixels(m) <= |fb|
    ensures |f| == |fb|
  {
    fb[..o] + seq(GroupPixels(m), k requires 0 <= k < GroupPixels(m) => GroupPixel(m, palette, planes, vram, a, k))
            + fb[o + GroupPixels(m)..]
  }

  /** fb after the first n groups of a line. */
  function PaintLine(fb: seq<Pixel>, o: nat, m: LineMode, palette: seq<Pixel>, planes: bv8, vram: seq<bv8>, a: nat,
                     n: nat): (f: seq<Pixel>)
    requires |palette| == 256 && At(a, GroupBytes(m), n) <= |vram| && At(o, GroupPixels(m), n) <= |fb|
    ensures |f| == |fb|
    decreases n
  {
    if n == 0 then fb
    else
      PaintGroup(PaintLine(fb, o, m, palette, planes, vram, a, n - 1), At(o, GroupPixels(m), n - 1), m, palette, planes,
                 vram, At(a, GroupBytes(m), n - 1))
  }

  lemma {:induction false} PaintLineShows(fb: seq<Pixel>, o: nat, m: LineMode, palette: seq<Pixel>, planes: bv8,
                                          vram: seq<bv8>, a: nat, n: nat)
    requires |palette| == 256 && At(a, GroupBytes(m), n) <= |vram| && At(o, GroupPixels(m), n) <= |fb|
    ensures var f := PaintLine(fb, o, m, palette, planes, vram, a, n);
      && LineShows(f, o, m, palette, planes, vram, a, n)
      && SameOutside(fb, f, o, At(o, GroupPixels(m), n))
    decreases n
  {
    if n > 0 {
      PaintLineShows(fb, o, m, palette, planes, vram, a, n - 1);
      var was := PaintLine(fb, o, m, palette, planes, vram, a, n - 1);
      var f := PaintLine(fb, o, m, palette, planes, vram, a, n);
      var d := At(o, GroupPixels(m), n - 1);
      PaintGroupShows(was, d, m, palette, planes, vram, At(a, GroupBytes(m), n - 1));
      LineShowsElsewhere(was, f, d, d + GroupPixels(m), o, m, palette, planes, vram, a, n - 1);
    }
  }

  lemma PaintGroupShows(fb: seq<Pixel>, o: nat, m: LineMode, palette: seq<Pixel>, planes: bv8, vram: seq<bv8>, a: nat)
    requires |palette| == 256 && a + GroupBytes(m) <= |vram| && o + GroupPixels(m) <= |fb|
    ensures var f := PaintGroup(fb, o, m, palette, planes, vram, a);
      GroupShows(f, o, m, palette, planes, vram, a) && SameOutside(fb, f, o, o + GroupPixels(m))
  {
  }

  lemma GroupIsPainted(was: seq<Pixel>, fb: seq<Pixel>, o: nat, m: LineMode, palette: seq<Pixel>, planes: bv8,
                       vram: seq<bv8>, a: nat)
    requires GroupShows(fb, o, m, palette, planes, vram, a) && SameOutside(was, fb, o, o + GroupPixels(m))
    ensures fb == PaintGroup(was, o, m, palette, planes, vram, a)
  {
    var f := PaintGroup(was, o, m, palette, planes, vram, a);
    forall i | 0 <= i < |fb|
      ensures fb[i] == f[i]
    {
      if o <= i < o + GroupPixels(m) {
        assert fb[o + (i - o)] == GroupPixel(m, palette, planes, vram, a, i - o);
      }
    }
  }

  method PutPixels(fb: array<Pixel>, o: nat, vs: seq<Pixel>)
    requires o + |vs| <= fb.Length
    modifies fb
    ensures forall k :: 0 <= k < |vs| ==> fb[o + k] == vs[k]
    ensures SameOutside(old(fb[..]), fb[..], o, o + |vs|)
  {
    for k := 0 to |vs|
      invariant forall j :: 0 <= j < k ==> fb[o + j] == vs[j]
      invariant SameOutside(old(fb[..]), fb[..], o, o + k)
    {
      fb[o + k] := vs[k];
    }
  }

  /** PUT_PIXEL2 of every value in turn. */
  method PutDoubled(fb: array<Pixel>, o: nat, vs: seq<Pixel>)
    requires o + 2 * |vs| <= fb.Length
    modifies fb
    ensures forall k :: 0 <= k < 2 * |vs| ==> fb[o + k] == vs[k / 2]
    ensures SameOutside(old(fb[..]), fb[..], o, o + 2 * |vs|)
  {
    for k := 0 to |vs|
      invariant forall j :: 0 <= j < 2 * k ==> fb[o + j] == vs[j / 2]
      invariant SameOutside(old(fb[..]), fb[..], o, o + 2 * k)
    {
      fb[o + 2 * k] := vs[k];
      fb[o + 2 * k + 1] := vs[k];
    }
  }

  method Colours(palette: array<Pixel>, ns: seq<Index4>) returns (vs: seq<Pixel>)
    requires palette.Length == 256 && |ns| == 8
    ensures |vs| == 8 && forall k :: 0 <= k < 8 ==> vs[k] == palette[ns[k] as int]
  {
    vs := [palette[ns[0] as int], palette[ns[1] as int], palette[ns[2] as int], palette[ns[3] as int],
           palette[ns[4] as int], palette[ns[5] as int], palette[ns[6] as int], palette[ns[7] as int]];
  }

  /** Indices drawn once each, or doubled. */
  method DrawIndices(ns: seq<Index4>, palette: array<Pixel>, fb: array<Pixel>, o: nat, twice: bool)
    requires |ns| == 8 && palette.Length == 256 && palette != fb && o + (if twice then 16 else 8) <= fb.Length
    modifies fb
    ensures !twice ==> forall k :: 0 <= k < 8 ==> fb[o + k] == palette[ns[k] as int]
    ensures twice ==> forall k :: 0 <= k < 16 ==> fb[o + k] == palette[ns[k / 2] as int]
    ensures SameOutside(old(fb[..]), fb[..], o, o + if twice then 16 else 8)
  {
    var vs := Colours(palette, ns);
    if twice {
      PutDoubled(fb, o, vs);
    } else {
      PutPixels(fb, o, vs);
    }
  }

  /** The palette indices of a planar group. */
  function Indices(m: LineMode, planes: bv8, vram: seq<bv8>, a: nat): (ns: seq<Index4>)
    requires m.Line2? || m.Line2D2? || m.Line4? || m.Line4D2?
    requires a + 4 <= |vram|
    ensures |ns| == 8
  {
    if m.Line2? || m.Line2D2? then PairGroup(planes, vram, a) else PlanarGroup(planes, vram, a)
  }

  lemma IndicesShow(fb: seq<Pixel>, o: nat, m: LineMode, palette: seq<Pixel>, planes: bv8, vram: seq<bv8>, a: nat)
    requires m.Line2? || m.Line2D2? || m.Line4? || m.Line4D2?
    requires |palette| == 256 && a + 4 <= |vram| && o + GroupPixels(m) <= |fb|
    requires m.Line2? || m.Line4? ==>
               forall k :: 0 <= k < 8 ==> fb[o + k] == palette[Indices(m, planes, vram, a)[k] as int]
    requires m.Line2D2? || m.Line4D2? ==>
               forall k :: 0 <= k < 16 ==> fb[o + k] == palette[Indices(m, planes, vram, a)[k / 2] as int]
    ensures GroupShows(fb, o, m, palette, planes, vram, a)
  {
    var ns := Indices(m, planes, vram, a);
    forall k {:trigger GroupPixel(m, palette, planes, vram, a, k)} | 0 <= k < GroupPixels(m)
      ensures fb[o + k] == GroupPixel(m, palette, planes, vram, a, k)
    {
      if m.Line2? || m.Line4? {
        assert fb[o + k] == palette[ns[k] as int];
      } else {
        assert fb[o + k] == palette[ns[k / 2] as int];
      }
    }
  }

  method DrawPlanar(m: LineMode, t: Tables, palette: array<Pixel>, planes: bv8, fb: array<Pixel>, o: nat,
                    vram: array<bv8>, a: nat)
    requires m.Line2? || m.Line2D2? || m.Line4? || m.Line4D2?
    requires t.Valid() && planes < 16 && palette.Length == 256
    requires fb != palette
    requires a + GroupBytes(m) <= vram.Length && o + GroupPixels(m) <= fb.Length
    modifies fb
    ensures GroupShows(fb[..], o, m, palette[..], planes, vram[..], a)
    ensures SameOutside(old(fb[..]), fb[..], o, o + GroupPixels(m))
  {
    var ns;
    if m.Line2? || m.Line2D2? {
      ns := PairIndices(t, planes, vram, a);
    } else {
      ns := PlanarIndices(t, planes, vram, a);
    }
    DrawIndices(ns, palette, fb, o, m.Line2D2? || m.Line4D2?);
    IndicesShow(fb[..], o, m, palette[..], planes, vram[..], a);
  }

  method DrawGroup(m: LineMode, t: Tables, palette: array<Pixel>, planes: bv8, fb: array<Pixel>, o: nat,
                   vram: array<bv8>, a: nat)
    requires t.Valid() && planes < 16 && palette.Length == 256
    requires fb != palette && fb != t.expand4 && fb != t.expand2
    requires a + GroupBytes(m) <= vram.Length && o + GroupPixels(m) <= fb.Length
    modifies fb
    ensures GroupShows(fb[..], o, m, palette[..], planes, vram[..], a)
    ensures SameOutside(old(fb[..]), fb[..], o, o + GroupPixels(m))
  {
    match m
    case Line2 | Line2D2 | Line4 | Line4D2 => DrawPlanar(m, t, palette, planes, fb, o, vram, a);
    case Line8 | Line8D2 => DrawBytes(m, palette, planes, fb, o, vram, a);
    case Line15 | Line16 | Line24 => DrawDirect(m, palette, planes, fb, o, vram, a);
  }

  function Bytes(vram: seq<bv8>, a: nat, n: nat, palette: seq<Pixel>): (vs: seq<Pixel>)
    requires |palette| == 256 && a + n <= |vram|
    ensures |vs| == n && forall k :: 0 <= k < n ==> vs[k] == palette[vram[a + k] as int]
  {
    if n == 0 then [] else Bytes(vram, a, n - 1, palette) + [palette[vram[a + n - 1] as int]]
  }

  lemma BytesShow(fb: seq<Pixel>, o: nat, m: LineMode, palette: seq<Pixel>, planes: bv8, vram: seq<bv8>, a: nat)
    requires m.Line8? || m.Line8D2?
    requires |palette| == 256 && a + GroupBytes(m) <= |vram| && o + 8 <= |fb|
    requires m.Line8? ==> forall k :: 0 <= k < 8 ==> fb[o + k] == Bytes(vram, a, 8, palette)[k]
    requires m.Line8D2? ==> forall k :: 0 <= k < 8 ==> fb[o + k] == Bytes(vram, a, 4, palette)[k / 2]
    ensures GroupShows(fb, o, m, palette, planes, vram, a)
  {
    forall k {:trigger GroupPixel(m, palette, planes, vram, a, k)} | 0 <= k < 8
      ensures fb[o + k] == GroupPixel(m, palette, planes, vram, a, k)
    {
      if m.Line8? {
        assert fb[o + k] == Bytes(vram, a, 8, palette)[k];
      } else {
        assert fb[o + k] == Bytes(vram, a, 4, palette)[k / 2];
      }
    }
  }

  method DrawBytes(m: LineMode, palette: array<Pixel>, ghost planes: bv8, fb: array<Pixel>, o: nat, vram: array<bv8>,
                   a: nat)
    requires m.Line8? || m.Line8D2?
    requires palette.Length == 256 && fb != palette
    requires a + GroupBytes(m) <= vram.Length && o + GroupPixels(m) <= fb.Length
    modifies fb
    ensures GroupShows(fb[..], o, m, palette[..], planes, vram[..], a)
    ensures SameOutside(old(fb[..]), fb[..], o, o + GroupPixels(m))
  {
    var vs := [palette[vram[a] as int], palette[vram[a + 1] as int], palette[vram[a + 2] as int],
               palette[vram[a + 3] as int]];
    assert vs == Bytes(vram[..], a, 4, palette[..]);
    if m.Line8D2? {
      PutDoubled(fb, o, vs);
      BytesShow(fb[..], o, m, palette[..], planes, vram[..], a);
    } else {
      vs := vs + [palette[vram[a + 4] as int], palette[vram[a + 5] as int], palette[vram[a + 6] as int],
                  palette[vram[a + 7] as int]];
      assert vs == Bytes(vram[..], a, 8, palette[..]);
      PutPixels(fb, o, vs);
      BytesShow(fb[..], o, m, palette[..], planes, vram[..], a);
    }
  }

  method DrawDirect(m: LineMode, ghost palette: array<Pixel>, ghost planes: bv8, fb: array<Pixel>, o: nat,
                    vram: array<bv8>, a: nat)
    requires m.Line15? || m.Line16? || m.Line24?
    requires palette.Length == 256 && fb != palette
    requires a + GroupBytes(m) <= vram.Length && o + GroupPixels(m) <= fb.Length
    modifies fb
    ensures GroupShows(fb[..], o, m, palette[..], planes, vram[..], a)
    ensures SameOutside(old(fb[..]), fb[..], o, o + GroupPixels(m))
  {
    if m.Line24? {
      fb[o] := Rgb(vram[a + 2] as bv32, vram[a + 1] as bv32, vram[a] as bv32);
    } else {
      var v := (vram[a] as bv32) | ((vram[a + 1] as bv32) << 8);
      fb[o] := if m.Line15? then Rgb((v >> 7) & 0xf8, (v >> 2) & 0xf8, (v << 3) & 0xf8)
               else Rgb((v >> 8) & 0xf8, (v >> 3) & 0xfc, (v << 3) & 0xf8);
    }
  }

  lemma LineShowsElsewhere(was: seq<Pixel>, fb: seq<Pixel>, lo: nat, hi: nat,
                           o: nat, m: LineMode, palette: seq<Pixel>, planes: bv8, vram: seq<bv8>, a: nat, n: nat)
    requires SameOutside(was, fb, lo, hi)
    requires hi <= o || At(o, GroupPixels(m), n) <= lo
    requires LineShows(was, o, m, palette, planes, vram, a, n)
    ensures LineShows(fb, o, m, palette, planes, vram, a, n)
  {
    forall g {:trigger At(a, GroupBytes(m), g)} | 0 <= g < n
      ensures GroupShows(fb, At(o, GroupPixels(m), g), m, palette, planes, vram, At(a, GroupBytes(m), g))
    {
      AtMono(o, GroupPixels(m), g, n);
      assert GroupShows(was, At(o, GroupPixels(m), g), m, palette, planes, vram, At(a, GroupBytes(m), g));
    }
  }

  /** vga_draw_line at 32 bits per pixel: `width` guest pixels from `a` on. Everything
      it reads lies in the Groups * GroupBytes bytes at a. */
  method DrawLine(m: LineMode, t: Tables, palette: array<Pixel>, planes: bv8, fb: array<Pixel>, o: nat,
                  vram: array<bv8>, a: nat, width: nat)
    requires t.Valid() && planes < 16 && palette.Length == 256
    requires fb != palette && fb != t.expand4 && fb != t.expand2
    requires width >= 1
    requires At(a, GroupBytes(m), Groups(m, width)) <= vram.Length
    requires At(o, GroupPixels(m), Groups(m, width)) <= fb.Length
    modifies fb
    ensures fb[..] == PaintLine(old(fb[..]), o, m, palette[..], planes, vram[..], a, Groups(m, width))
  {
    AtMono(a, GroupBytes(m), 0, Groups(m, width));
    AtMono(o, GroupPixels(m), 0, Groups(m, width));
    var s, d := a, o;
    for x := 0 to Groups(m, width)
      invariant s == At(a, GroupBytes(m), x) && d == At(o, GroupPixels(m), x)
      invariant s <= vram.Length && d <= fb.Length
      invariant fb[..] == PaintLine(old(fb[..]), o, m, palette[..], planes, vram[..], a, x)
    {
      AtMono(a, GroupBytes(m), x, Groups(m, width));
      AtMono(o, GroupPixels(m), x, Groups(m, width));
      ghost var was := fb[..];
      DrawGroup(m, t, palette, planes, fb, d, vram, s);
      GroupIsPainted(was, fb[..], d, m, palette[..], planes, vram[..], s);
      s := s + GroupBytes(m);
      d := d + GroupPixels(m);
    }
  }
}
