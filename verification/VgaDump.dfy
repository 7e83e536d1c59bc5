/** The two VGA records of the saved state: how dump_vga cuts up the register file and how
    read_vga puts it back. */
module VgaDump {
  import opened VgaRegs
  import opened Bytes
  import opened Ports

  /** A record of the state stream: type, subtype and payload. */
  datatype Record = Record(kind: u16, sub: u16, payload: Bytes)

  const KIND_CLOSE: u16 := 0
  const KIND_DEMU: u16 := 1
  const KIND_VGA: u16 := 2
  const KIND_VMIOPE: u16 := 3

  const PART1_SIZE: nat := 368
  const PART2_SIZE: nat := 768

  // ------------------------------------------------------------------
  // The four contiguous stretches of the register file

  function Section1(v: Vga): (s: Bytes)
    ensures |s| == 13
  {
    [Plane(v.latch, 0), Plane(v.latch, 1), Plane(v.latch, 2), Plane(v.latch, 3), ByteOf(v.srIndex)] + v.sr[..8]
  }

  function Section2(v: Vga): (s: Bytes)
    ensures |s| == 17
  {
    [ByteOf(v.grIndex)] + v.gr[..16]
  }

  function Attributes(v: Vga): (s: Bytes)
    ensures |s| == 26
  {
    [ByteOf(v.arIndex)] + v.ar + Le32(v.arFlipFlop)
  }

  function Crtc(v: Vga): (s: Bytes)
    ensures |s| == 257
  {
    [ByteOf(v.crIndex)] + v.cr
  }

  function Dac(v: Vga): (s: Bytes)
    ensures |s| == 11
  {
    [v.msr, v.fcr, v.st00, v.st01, ByteOf(v.dacState), ByteOf(v.dacSub), ByteOf(v.dacRead), ByteOf(v.dacWrite)]
    + v.dacCache
  }

  function VbeHead(v: Vga): (s: Bytes)
    ensures |s| == 6
  {
    Le32(v.bankOffset) + Le16(v.vbeIndex)
  }

  function VbeTail(v: Vga): (s: Bytes)
    ensures |s| == 12
  {
    Le32(v.vbeStart) + Le32(v.vbeLineOffset) + Le32(v.vbeBankMask)
  }

  function Section3(v: Vga): (s: Bytes)
    ensures |s| == 294
  {
    Attributes(v) + Crtc(v) + Dac(v)
  }

  function Section4(v: Vga): (s: Bytes)
    ensures |s| == 44
  {
    VbeHead(v) + Words(v.vbe) + VbeTail(v)
  }

  function Part1(v: Vga): (s: Bytes)
    ensures |s| == PART1_SIZE
  {
    Section1(v) + Section2(v) + Section3(v) + Section4(v)
  }

  // ------------------------------------------------------------------
  // Reading them back

  function LoadPart1(v: Vga, s: Bytes): (w: Vga)
    requires |s| == PART1_SIZE
  {
    v.(latch := Pack(s[0], s[1], s[2], s[3]), srIndex := s[4] as int, sr := s[5..13] + v.sr[8..],
       grIndex := s[13] as int, gr := s[14..30] + v.gr[16..],
       arIndex := s[30] as int, ar := s[31..52], arFlipFlop := FromLe32(s[52..56]),
       crIndex := s[56] as int, cr := s[57..313],
       msr := s[313], fcr := s[314], st00 := s[315], st01 := s[316],
       dacState := s[317] as int, dacSub := s[318] as int, dacRead := s[319] as int, dacWrite := s[320] as int,
       dacCache := s[321..324],
       bankOffset := FromLe32(s[324..328]), vbeIndex := FromLe16(s[328..330]), vbe := FromWords(s[330..356]),
       vbeStart := FromLe32(s[356..360]), vbeLineOffset := FromLe32(s[360..364]), vbeBankMask := FromLe32(s[364..]))
  }

  // ------------------------------------------------------------------
  // Round trip

  /** v with every field of the first record taken from w: what a faithful copy is. */
  function Restored(v: Vga, w: Vga): Vga {
    v.(latch := w.latch, srIndex := w.srIndex, sr := w.sr[..8] + v.sr[8..],
       grIndex := w.grIndex, gr := w.gr[..16] + v.gr[16..],
       arIndex := w.arIndex, ar := w.ar, arFlipFlop := w.arFlipFlop,
       crIndex := w.crIndex, cr := w.cr,
       msr := w.msr, fcr := w.fcr, st00 := w.st00, st01 := w.st01,
       dacState := w.dacState, dacSub := w.dacSub, dacRead := w.dacRead, dacWrite := w.dacWrite, dacCache := w.dacCache,
       bankOffset := w.bankOffset, vbeIndex := w.vbeIndex, vbe := w.vbe,
       vbeStart := w.vbeStart, vbeLineOffset := w.vbeLineOffset, vbeBankMask := w.vbeBankMask)
  }

  /** A slice of a slice. */
  lemma Slice(s: Bytes, lo: nat, hi: nat, i: nat, j: nat)
    requires lo <= hi <= |s| && i <= j <= hi - lo
    ensures s[lo..hi][i..j] == s[lo + i..lo + j]
  {
    assert forall k | 0 <= k < j - i :: s[lo..hi][i..j][k] == s[lo + i..lo + j][k];
  }

  lemma Trip1(s: Bytes, w: Vga)
    requires |s| == PART1_SIZE && s[0..13] == Section1(w)
    ensures Pack(s[0], s[1], s[2], s[3]) == w.latch && s[4] as int == w.srIndex && s[5..13] == w.sr[..8]
  {
    PackOfPlanes(w.latch);
    assert forall i | 0 <= i < 13 :: s[i] == s[0..13][i];
  }

  lemma Trip2(s: Bytes, w: Vga)
    requires |s| == PART1_SIZE && s[13..30] == Section2(w)
    ensures s[13] as int == w.grIndex && s[14..30] == w.gr[..16]
  {
    assert s[13] == s[13..30][0];
    Slice(s, 13, 30, 1, 17);
    assert Section2(w)[1..17] == w.gr[..16];
  }

  lemma TripAttributes(s: Bytes, w: Vga)
    requires |s| == PART1_SIZE && s[30..56] == Attributes(w)
    ensures s[30] as int == w.arIndex && s[31..52] == w.ar && FromLe32(s[52..56]) == w.arFlipFlop
  {
    assert s[30] == s[30..56][0];
    Slice(s, 30, 56, 1, 22);
    Slice(s, 30, 56, 22, 26);
    assert Attributes(w)[1..22] == w.ar && Attributes(w)[22..26] == Le32(w.arFlipFlop);
  }

  lemma TripCrtc(s: Bytes, w: Vga)
    requires |s| == PART1_SIZE && s[56..313] == Crtc(w)
    ensures s[56] as int == w.crIndex && s[57..313] == w.cr
  {
    assert s[56] == s[56..313][0];
    Slice(s, 56, 313, 1, 257);
    assert Crtc(w)[1..257] == w.cr;
  }

  lemma TripDac(s: Bytes, w: Vga)
    requires |s| == PART1_SIZE && s[313..324] == Dac(w)
    ensures s[313] == w.msr && s[314] == w.fcr && s[315] == w.st00 && s[316] == w.st01
    ensures s[317] as int == w.dacState && s[318] as int == w.dacSub && s[319] as int == w.dacRead
    ensures s[320] as int == w.dacWrite
    ensures s[321..324] == w.dacCache
  {
    var t := s[313..324];
    assert s[313] == t[0] && s[314] == t[1] && s[315] == t[2] && s[316] == t[3];
    assert s[317] == t[4] && s[318] == t[5] && s[319] == t[6] && s[320] == t[7];
    Slice(s, 313, 324, 8, 11);
    assert Dac(w)[8..11] == w.dacCache;
  }

  lemma TripVbe(s: Bytes, w: Vga)
    requires |s| == PART1_SIZE && s[324..368] == Section4(w)
    ensures FromLe32(s[324..328]) == w.bankOffset && FromLe16(s[328..330]) == w.vbeIndex
    ensures FromWords(s[330..356]) == w.vbe
    ensures FromLe32(s[356..360]) == w.vbeStart && FromLe32(s[360..364]) == w.vbeLineOffset
    ensures FromLe32(s[364..]) == w.vbeBankMask
  {
    TripVbeHead(s, w);
    TripVbeTail(s, w);
  }

  lemma TripVbeHead(s: Bytes, w: Vga)
    requires |s| == PART1_SIZE && s[324..368] == Section4(w)
    ensures FromLe32(s[324..328]) == w.bankOffset && FromLe16(s[328..330]) == w.vbeIndex
    ensures FromWords(s[330..356]) == w.vbe
  {
    var t := Section4(w);
    Slice(s, 324, 368, 0, 4);
    Slice(s, 324, 368, 4, 6);
    Slice(s, 324, 368, 6, 32);
    assert t[0..4] == Le32(w.bankOffset) && t[4..6] == Le16(w.vbeIndex);
    assert t[6..32] == Words(w.vbe);
    WordsRoundTrip(w.vbe);
  }

  lemma Section4Tail(w: Vga)
    ensures var t := Section4(w);
      && t[32..36] == Le32(w.vbeStart) && t[36..40] == Le32(w.vbeLineOffset) && t[40..44] == Le32(w.vbeBankMask)
  {
  }

  lemma TripVbeTail(s: Bytes, w: Vga)
    requires |s| == PART1_SIZE && s[324..368] == Section4(w)
    ensures FromLe32(s[356..360]) == w.vbeStart && FromLe32(s[360..364]) == w.vbeLineOffset
    ensures FromLe32(s[364..]) == w.vbeBankMask
  {
    Section4Tail(w);
    Slice(s, 324, 368, 32, 36);
    Slice(s, 324, 368, 36, 40);
    Slice(s, 324, 368, 40, 44);
    assert s[364..368] == s[364..];
  }

  lemma Sections(w: Vga)
    ensures var s := Part1(w);
      && s[0..13] == Section1(w) && s[13..30] == Section2(w)
      && s[30..56] == Attributes(w) && s[56..313] == Crtc(w) && s[313..324] == Dac(w) && s[324..368] == Section4(w)
  {
    var s, t := Part1(w), Section3(w);
    assert s[0..13] == Section1(w) && s[13..30] == Section2(w) && s[30..324] == t && s[324..368] == Section4(w);
    assert t[0..26] == Attributes(w) && t[26..283] == Crtc(w) && t[283..294] == Dac(w);
    Slice(s, 30, 324, 0, 26);
    Slice(s, 30, 324, 26, 283);
    Slice(s, 30, 324, 283, 294);
  }

  /** The first record restores exactly its fields. */
  lemma Part1RoundTrip(v: Vga, w: Vga)
    ensures LoadPart1(v, Part1(w)) == Restored(v, w)
  {
    var s := Part1(w);
    Sections(w);
    Trip1(s, w);
    Trip2(s, w);
    TripAttributes(s, w);
    TripCrtc(s, w);
    TripDac(s, w);
    TripVbe(s, w);
  }

  // ------------------------------------------------------------------
  // dump_vga and read_vga

  /** What can go wrong in a dump: an allocation, or the stream. */
  datatype Luck = Luck(alloc1: bool, sent1: bool, alloc2: bool, sent2: bool)

  const ALL_WELL := Luck(true, true, true, true)

  datatype Dumped = Dumped(dev: Dev, records: seq<Record>, ok: bool)

  function DumpPart1(d: Dev, luck: Luck): Dumped {
    if !d.part1 then Dumped(d, [], true)
    else if !luck.alloc1 then Dumped(d, [], false)
    else Dumped(d.(part1 := false), if luck.sent1 then [Record(KIND_VGA, 1, Part1(d.vga))] else [], luck.sent1)
  }

  function DumpPart2(d: Dev, luck: Luck): Dumped {
    if !d.part2 then Dumped(d, [], true)
    else if !luck.alloc2 then Dumped(d, [], false)
    else Dumped(d.(part2 := false), if luck.sent2 then [Record(KIND_VGA, 2, d.vga.palette)] else [], luck.sent2)
  }

  /** Each part is sent if its flag is set, and the flag is cleared even when sending fails. */
  function Dump(d: Dev, luck: Luck): Dumped {
    var a := DumpPart1(d, luck);
    if !a.ok then a
    else
      var b := DumpPart2(a.dev, luck);
      Dumped(b.dev, a.records + b.records, b.ok)
  }

  datatype Loaded = Loaded(dev: Dev) | Refused

  /** read_vga */
  function LoadRecord(d: Dev, r: Record): (l: Loaded) {
    if r.kind != KIND_VGA then Refused
    else if r.sub == 1 then
      if |r.payload| != PART1_SIZE then Refused else Loaded(Dev(LoadPart1(d.vga, r.payload), true, d.part2))
    else if r.sub == 2 then
      if |r.payload| != PART2_SIZE then Refused else Loaded(Dev(d.vga.(palette := r.payload), d.part1, true))
    else Refused
  }

  function Then(load: (Dev, Record) -> Loaded, l: Loaded, r: Record): Loaded {
    if l.Refused? then Refused else load(l.dev, r)
  }

  /** Records applied in order; a refused record stops the restore. */
  function Fold(load: (Dev, Record) -> Loaded, l: Loaded, rs: seq<Record>): Loaded
    decreases |rs|
  {
    if rs == [] then l else Fold(load, Then(load, l, rs[0]), rs[1..])
  }

  lemma {:induction false} FoldConcat(load: (Dev, Record) -> Loaded, l: Loaded, a: seq<Record>, b: seq<Record>)
    ensures Fold(load, l, a + b) == Fold(load, Fold(load, l, a), b)
    decreases |a|
  {
    if a == [] {
      assert a + b == b;
    } else {
      assert (a + b)[0] == a[0] && (a + b)[1..] == a[1..] + b;
      FoldConcat(load, Then(load, l, a[0]), a[1..], b);
    }
  }

  function Replay(d: Dev, rs: seq<Record>): Loaded {
    Fold(LoadRecord, Loaded(d), rs)
  }

  lemma ReplayConcat(d: Dev, a: seq<Record>, b: seq<Record>)
    requires Replay(d, a).Loaded?
    ensures Replay(d, a + b) == Replay(Replay(d, a).dev, b)
  {
    FoldConcat(LoadRecord, Loaded(d), a, b);
  }

  lemma ReplayOne(d: Dev, r: Record)
    ensures Replay(d, [r]) == LoadRecord(d, r)
  {
    var rest: seq<Record> := [];
    assert [r][1..] == rest;
    assert Fold(LoadRecord, Then(LoadRecord, Loaded(d), r), rest) == Then(LoadRecord, Loaded(d), r);
  }

  lemma ReplayTwo(d: Dev, a: Record, b: Record)
    requires LoadRecord(d, a).Loaded?
    ensures Replay(d, [a, b]) == LoadRecord(LoadRecord(d, a).dev, b)
  {
    ReplayOne(d, a);
    ReplayOne(LoadRecord(d, a).dev, b);
    ReplayConcat(d, [a], [b]);
    assert [a] + [b] == [a, b];
  }
}
