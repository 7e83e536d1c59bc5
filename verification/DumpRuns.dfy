/** Replaying the VGA records of a live session: whatever accesses come between the dumps,
    the copy at the last dump is the source's register file, but for the status byte and
    the attribute flip-flop. */
module DumpRuns {
  import opened VgaRegs
  import opened Bytes
  import opened Ports
  import opened Vbe
  import opened Window
  import opened VgaDump
  import opened Device

  /** The fields of the first record, but for the two a status read changes unmarked. */
  predicate SamePart1(v: Vga, w: Vga) {
    && v.latch == w.latch && v.srIndex == w.srIndex && v.sr[..8] == w.sr[..8]
    && v.grIndex == w.grIndex && v.gr[..16] == w.gr[..16]
    && v.arIndex == w.arIndex && v.ar == w.ar
    && v.crIndex == w.crIndex && v.cr == w.cr
    && v.msr == w.msr && v.fcr == w.fcr && v.st00 == w.st00
    && v.dacState == w.dacState && v.dacSub == w.dacSub && v.dacRead == w.dacRead && v.dacWrite == w.dacWrite
    && v.dacCache == w.dacCache
    && v.bankOffset == w.bankOffset && v.vbeIndex == w.vbeIndex && v.vbe == w.vbe
    && v.vbeStart == w.vbeStart && v.vbeLineOffset == w.vbeLineOffset && v.vbeBankMask == w.vbeBankMask
  }

  // ------------------------------------------------------------------
  // Flags: an access that changes a dumped field marks its part

  /** What a step that leaves a flag clear has left alone. */
  predicate Marked(d: Dev, e: Dev) {
    && (!e.part1 ==> !d.part1 && SamePart1(d.vga, e.vga))
    && (!e.part2 ==> !d.part2 && d.vga.palette == e.vga.palette)
  }

  lemma StatusApart(v: Vga, st: bv8, ff: u32)
    ensures SamePart1(v, v.(st01 := st, arFlipFlop := ff))
  {
  }

  lemma ReadPortMarks(d: Dev, addr: nat)
    requires Indexed(d.vga)
    ensures Marked(d, AfterRead(d, addr))
  {
    var e := AfterRead(d, addr);
    if addr == 0x3ba || addr == 0x3da {
      StatusApart(d.vga, d.vga.st01 ^ ST01_TOGGLE, 0);
    } else if addr == 0x3c9 {
      assert e.vga.palette == d.vga.palette;
    } else {
      assert e == d;
    }
  }

  lemma WritePortMarks(d: Dev, addr: nat, val: bv8)
    requires Indexed(d.vga)
    ensures Marked(d, PortWrite(d, addr, val))
  {
  }

  lemma MemoryMarks(d: Dev, addr: nat, loaded: bv32)
    ensures Marked(d, AfterMemRead(d, addr, loaded)) && Marked(d, AfterMemWrite(d, addr))
  {
  }

  lemma VbeMarks(d: Dev, data: u16, lfb: nat)
    requires RegsOk(d.vga) && DivisorOk(d.vga, data)
    ensures Marked(d, VbeDataWrite(d, data, lfb))
    ensures Marked(d, UpdateLfb(d, lfb))
  {
    VbeWriteOk(d, data, lfb);
  }

  lemma StepMarks(d: Dev, op: Op)
    requires OpOk(d, op)
    ensures Marked(d, Step(d, op))
  {
    StepKeepsRegs(d, op);
    match op
    case ReadPort(addr) => ReadPortMarks(d, addr);
    case WritePort(addr, val) => WritePortMarks(d, addr, val);
    case ReadMemory(addr, loaded) => MemoryMarks(d, addr, loaded);
    case WriteMemory(addr) => MemoryMarks(d, addr, 0);
    case WriteVbeIndex(index) =>
    case WriteVbeData(data, lfb) => VbeMarks(d, data, lfb);
    case MoveFrameBuffer(lfb) =>
    case FontsSeen =>
  }

  // ------------------------------------------------------------------
  // The copy

  /** A clear flag means the last copy sent is current. */
  ghost predicate InStep(d: Dev, copy: Dev) {
    && (!d.part1 ==> SamePart1(d.vga, copy.vga))
    && (!d.part2 ==> d.vga.palette == copy.vga.palette)
  }

  /** The copy is the source in every dumped field but the status byte and the flip-flop. */
  ghost predicate Faithful(v: Vga, w: Vga) {
    SamePart1(v, w) && v.palette == w.palette
  }

  lemma RestoredSame(v: Vga, w: Vga)
    ensures SamePart1(w, Restored(v, w)) && Restored(v, w).palette == v.palette
  {
  }

  /** Loading the first record copies its fields. */
  lemma FirstLoads(copy: Dev, v: Vga)
    ensures var l := LoadRecord(copy, Record(KIND_VGA, 1, Part1(v)));
      l.Loaded? && SamePart1(v, l.dev.vga) && l.dev.vga.palette == copy.vga.palette
  {
    Part1RoundTrip(copy.vga, v);
    RestoredSame(copy.vga, v);
  }

  /** Loading the second copies the palette and nothing else. */
  lemma SecondLoads(copy: Dev, v: Vga)
    ensures var l := LoadRecord(copy, Record(KIND_VGA, 2, v.palette));
      && l.Loaded? && l.dev.vga.palette == v.palette
      && forall w: Vga {:trigger SamePart1(w, l.dev.vga)} | SamePart1(w, copy.vga) :: SamePart1(w, l.dev.vga)
  {
  }

  /** Replaying a dump brings the copy up to date. */
  lemma DumpCopies(d: Dev, copy: Dev)
    requires InStep(d, copy)
    ensures var r := Dump(d, ALL_WELL);
      && r.ok && r.dev == Dev(d.vga, false, false)
      && var l := Replay(copy, r.records); l.Loaded? && InStep(r.dev, l.dev)
  {
    DumpSends(d);
    var first := Record(KIND_VGA, 1, Part1(d.vga));
    var second := Record(KIND_VGA, 2, d.vga.palette);
    if d.part1 {
      FirstLoads(copy, d.vga);
      var next := LoadRecord(copy, first).dev;
      if d.part2 {
        ReplayTwo(copy, first, second);
        SecondLoads(next, d.vga);
      } else {
        ReplayOne(copy, first);
      }
    } else if d.part2 {
      ReplayOne(copy, second);
      SecondLoads(copy, d.vga);
    }
  }

  /** A dump that succeeds sends exactly the marked parts and clears both flags. */
  lemma DumpSends(d: Dev)
    ensures var (first, second) := (Record(KIND_VGA, 1, Part1(d.vga)), Record(KIND_VGA, 2, d.vga.palette));
      Dump(d, ALL_WELL) == Dumped(Dev(d.vga, false, false),
                                  (if d.part1 then [first] else []) + (if d.part2 then [second] else []), true)
    ensures d.part1 && d.part2 ==>
      Dump(d, ALL_WELL).records == [Record(KIND_VGA, 1, Part1(d.vga)), Record(KIND_VGA, 2, d.vga.palette)]
    ensures d.part1 && !d.part2 ==> Dump(d, ALL_WELL).records == [Record(KIND_VGA, 1, Part1(d.vga))]
    ensures !d.part1 && d.part2 ==> Dump(d, ALL_WELL).records == [Record(KIND_VGA, 2, d.vga.palette)]
  {
  }

  /** A session: accesses and dumps, in any order. */
  datatype Event = Access(op: Op) | DumpNow

  ghost predicate SessionOk(d: Dev, es: seq<Event>)
    decreases |es|
  {
    es == [] ||
    match es[0]
    case Access(op) => OpOk(d, op) && SessionOk(Step(d, op), es[1..])
    case DumpNow => RegsOk(d.vga) && SessionOk(Dump(d, ALL_WELL).dev, es[1..])
  }

  /** The source after the session and the records it emitted. */
  function Session(d: Dev, es: seq<Event>): (Dev, seq<Record>)
    requires SessionOk(d, es)
    decreases |es|
  {
    if es == [] then (d, [])
    else
      match es[0]
      case Access(op) => Session(Step(d, op), es[1..])
      case DumpNow =>
        var r := Dump(d, ALL_WELL);
        var (e, rs) := Session(r.dev, es[1..]);
        (e, r.records + rs)
  }

  lemma {:induction false} SessionCopies(d: Dev, copy: Dev, es: seq<Event>)
    requires InStep(d, copy) && SessionOk(d, es)
    ensures var (e, rs) := Session(d, es);
      Replay(copy, rs).Loaded? && InStep(e, Replay(copy, rs).dev)
    decreases |es|
  {
    if es != [] {
      match es[0]
      case Access(op) =>
        StepMarks(d, op);
        SessionCopies(Step(d, op), copy, es[1..]);
      case DumpNow =>
        DumpCopies(d, copy);
        var r := Dump(d, ALL_WELL);
        var next := Replay(copy, r.records).dev;
        SessionCopies(r.dev, next, es[1..]);
        ReplayConcat(copy, r.records, Session(r.dev, es[1..]).1);
    }
  }

  /** From vga_markdirty on, through any accesses and dumps: a clear flag means the copy is
      current, and after a final dump the copy equals the source in every dumped field but the
      status byte and the flip-flop. */
  lemma ReplayedSession(v: Vga, copy: Dev, es: seq<Event>)
    requires SessionOk(Dev(v, true, true), es)
    ensures var (d, rs) := Session(Dev(v, true, true), es);
      && Replay(copy, rs).Loaded?
      && InStep(d, Replay(copy, rs).dev)
      && var last := Dump(d, ALL_WELL);
         var final := Replay(copy, rs + last.records);
         final.Loaded? && Faithful(d.vga, final.dev.vga)
  {
    SessionCopies(Dev(v, true, true), copy, es);
    var (d, rs) := Session(Dev(v, true, true), es);
    DumpCopies(d, Replay(copy, rs).dev);
    ReplayConcat(copy, rs, Dump(d, ALL_WELL).records);
  }

  /** The copy also keeps the bounds every reachable source state has. */
  lemma RestoredOk(v: Vga, w: Vga)
    requires RegsOk(v) && SamePart1(v, w)
    ensures RegsOk(w)
  {
    MaskedPrefix(v.sr, w.sr, SR_MASK);
    MaskedPrefix(v.gr, w.gr, GR_MASK);
  }

  lemma MaskedPrefix(a: seq<bv8>, b: seq<bv8>, masks: seq<bv8>)
    requires |masks| <= |a| && |masks| <= |b| && a[..|masks|] == b[..|masks|] && Masked(a, masks)
    ensures Masked(b, masks)
  {
    forall i | 0 <= i < |masks| ensures b[i] & masks[i] == b[i] {
      assert b[i] == b[..|masks|][i] == a[i];
    }
  }

  // ------------------------------------------------------------------
  // The status byte and the attribute flip-flop, which change unmarked

  /** A read of a status port that is not dead. */
  predicate StatusRead(d: Dev, op: Op) {
    op.ReadPort? && (op.addr == 0x3ba || op.addr == 0x3da) && !Dead(d.vga, op.addr)
  }

  /** What a caller can count: status reads since the first part was last sent, and the flip-flop then. */
  datatype Since = Since(polls: nat, flip: u32)

  function Counted(d: Dev, n: Since, e: Event): Since {
    match e
    case Access(op) => if StatusRead(d, op) then n.(polls := n.polls + 1) else n
    case DumpNow => if d.part1 then Since(0, d.vga.arFlipFlop) else n
  }

  function Count(d: Dev, n: Since, es: seq<Event>): Since
    requires SessionOk(d, es)
    decreases |es|
  {
    if es == [] then n
    else
      match es[0]
      case Access(op) => Count(Step(d, op), Counted(d, n, es[0]), es[1..])
      case DumpNow => Count(Dump(d, ALL_WELL).dev, Counted(d, n, es[0]), es[1..])
  }

  /** With the first part clean, each status read since it was sent toggled the status byte, and the
      first one cleared the flip-flop. */
  ghost predicate StatusBehind(d: Dev, copy: Dev, n: Since) {
    !d.part1 ==>
      && copy.vga.st01 == (if n.polls % 2 == 0 then d.vga.st01 else d.vga.st01 ^ ST01_TOGGLE)
      && copy.vga.arFlipFlop == n.flip && d.vga.arFlipFlop == (if n.polls == 0 then n.flip else 0)
  }

  lemma ToggleTwice(st01: bv8)
    ensures st01 ^ ST01_TOGGLE != st01 && (st01 ^ ST01_TOGGLE) ^ ST01_TOGGLE == st01
  {
  }

  /** An access that leaves the first part clean changes these two only by a status read. */
  ghost predicate StatusKept(d: Dev, e: Dev, status: bool) {
    !e.part1 ==>
      && !d.part1
      && e.vga.st01 == (if status then d.vga.st01 ^ ST01_TOGGLE else d.vga.st01)
      && e.vga.arFlipFlop == (if status then 0 else d.vga.arFlipFlop)
  }

  lemma ReadStatus(d: Dev, addr: nat)
    requires Indexed(d.vga)
    ensures StatusKept(d, AfterRead(d, addr), StatusRead(d, ReadPort(addr)))
  {
    if StatusRead(d, ReadPort(addr)) {
      LiveStatus(d, addr);
    } else if Dead(d.vga, addr) || addr != 0x3c9 {
      assert AfterRead(d, addr) == d;
    }
  }

  lemma LiveStatus(d: Dev, addr: nat)
    requires Indexed(d.vga) && (addr == 0x3ba || addr == 0x3da) && !Dead(d.vga, addr)
    ensures StatusKept(d, AfterRead(d, addr), true)
  {
    var v := d.vga.(st01 := d.vga.st01 ^ ST01_TOGGLE, arFlipFlop := 0);
    assert AfterRead(d, addr) == Dev(v, d.part1, d.part2);
  }

  lemma WriteStatus(d: Dev, addr: nat, val: bv8)
    requires Indexed(d.vga)
    ensures StatusKept(d, PortWrite(d, addr, val), false)
  {
  }

  lemma VbeStatus(d: Dev, data: u16, lfb: nat)
    requires RegsOk(d.vga) && DivisorOk(d.vga, data)
    ensures StatusKept(d, VbeDataWrite(d, data, lfb), false)
  {
    VbeMarks(d, data, lfb);
  }

  lemma MemoryStatus(d: Dev, addr: nat, loaded: bv32)
    ensures StatusKept(d, AfterMemRead(d, addr, loaded), false) && StatusKept(d, AfterMemWrite(d, addr), false)
  {
    MemoryMarks(d, addr, loaded);
  }

  lemma StepStatus(d: Dev, op: Op)
    requires OpOk(d, op)
    ensures StatusKept(d, Step(d, op), StatusRead(d, op))
  {
    match op
    case ReadPort(addr) => ReadStatus(d, addr);
    case WritePort(addr, val) => WriteStatus(d, addr, val);
    case ReadMemory(addr, loaded) => MemoryStatus(d, addr, loaded);
    case WriteMemory(addr) => MemoryStatus(d, addr, 0);
    case WriteVbeIndex(index) =>
    case WriteVbeData(data, lfb) => VbeStatus(d, data, lfb);
    case MoveFrameBuffer(lfb) =>
    case FontsSeen =>
  }

  lemma StillBehind(d: Dev, e: Dev, copy: Dev, n: Since, status: bool)
    requires StatusBehind(d, copy, n) && StatusKept(d, e, status)
    requires (d.vga.st01 ^ ST01_TOGGLE) ^ ST01_TOGGLE == d.vga.st01
    ensures StatusBehind(e, copy, if status then n.(polls := n.polls + 1) else n)
  {
  }

  lemma AccessBehind(d: Dev, copy: Dev, n: Since, op: Op)
    requires OpOk(d, op) && StatusBehind(d, copy, n)
    ensures StatusBehind(Step(d, op), copy, Counted(d, n, Access(op)))
  {
    StepStatus(d, op);
    ToggleTwice(d.vga.st01);
    StillBehind(d, Step(d, op), copy, n, StatusRead(d, op));
  }

  lemma FirstStatus(copy: Dev, v: Vga)
    ensures var l := LoadRecord(copy, Record(KIND_VGA, 1, Part1(v)));
      l.Loaded? && l.dev.vga.st01 == v.st01 && l.dev.vga.arFlipFlop == v.arFlipFlop
  {
    Part1RoundTrip(copy.vga, v);
  }

  /** A dump brings both up to date if it sends the first part, and leaves them else. */
  lemma DumpStatus(d: Dev, copy: Dev)
    ensures var r := Dump(d, ALL_WELL);
      && Replay(copy, r.records).Loaded?
      && var w := Replay(copy, r.records).dev.vga;
         && w.st01 == (if d.part1 then d.vga.st01 else copy.vga.st01)
         && w.arFlipFlop == (if d.part1 then d.vga.arFlipFlop else copy.vga.arFlipFlop)
  {
    DumpSends(d);
    var first := Record(KIND_VGA, 1, Part1(d.vga));
    var second := Record(KIND_VGA, 2, d.vga.palette);
    if d.part1 {
      FirstStatus(copy, d.vga);
      if d.part2 {
        ReplayTwo(copy, first, second);
      } else {
        ReplayOne(copy, first);
      }
    } else if d.part2 {
      ReplayOne(copy, second);
    }
  }

  lemma DumpBehind(d: Dev, copy: Dev, n: Since)
    requires StatusBehind(d, copy, n)
    ensures var r := Dump(d, ALL_WELL);
      Replay(copy, r.records).Loaded? && StatusBehind(r.dev, Replay(copy, r.records).dev, Counted(d, n, DumpNow))
  {
    DumpStatus(d, copy);
    DumpClears(d);
    SentBehind(d, copy, Replay(copy, Dump(d, ALL_WELL).records).dev, n);
  }

  lemma DumpClears(d: Dev)
    ensures Dump(d, ALL_WELL).dev == Dev(d.vga, false, false)
  {
    DumpSends(d);
  }

  lemma SentBehind(d: Dev, copy: Dev, next: Dev, n: Since)
    requires StatusBehind(d, copy, n)
    requires next.vga.st01 == (if d.part1 then d.vga.st01 else copy.vga.st01)
    requires next.vga.arFlipFlop == (if d.part1 then d.vga.arFlipFlop else copy.vga.arFlipFlop)
    ensures StatusBehind(Dev(d.vga, false, false), next, Counted(d, n, DumpNow))
  {
  }

  lemma {:induction false} SessionBehind(d: Dev, copy: Dev, n: Since, es: seq<Event>)
    requires SessionOk(d, es) && StatusBehind(d, copy, n) && Replay(copy, Session(d, es).1).Loaded?
    ensures StatusBehind(Session(d, es).0, Replay(copy, Session(d, es).1).dev, Count(d, n, es))
    decreases |es|
  {
    if es != [] {
      match es[0]
      case Access(op) =>
        AccessBehind(d, copy, n, op);
        SessionBehind(Step(d, op), copy, Counted(d, n, es[0]), es[1..]);
      case DumpNow =>
        DumpBehind(d, copy, n);
        var r := Dump(d, ALL_WELL);
        ReplayConcat(copy, r.records, Session(r.dev, es[1..]).1);
        SessionBehind(r.dev, Replay(copy, r.records).dev, Counted(d, n, es[0]), es[1..]);
    }
  }

  /** The two fields are the copy's or not, by the count. */
  ghost predicate StatusAsCounted(v: Vga, w: Vga, n: Since) {
    && (w.st01 == v.st01 <==> n.polls % 2 == 0)
    && (w.arFlipFlop == v.arFlipFlop <==> n.polls == 0 || n.flip == 0)
  }

  lemma BehindExactly(d: Dev, copy: Dev, n: Since)
    requires StatusBehind(d, copy, n) && !d.part1
    ensures StatusAsCounted(d.vga, copy.vga, n)
  {
    ToggleTwice(d.vga.st01);
  }

  /** Exactly when a session's copy has the two fields that change unmarked: after a final dump the
      status byte is the source's if and only if the status reads since the first part was last sent are
      even in number, and the flip-flop if and only if there were none or it was clear then. A final dump
      that sends the first part makes both equal. */
  lemma StatusReplayed(v: Vga, copy: Dev, es: seq<Event>)
    requires SessionOk(Dev(v, true, true), es)
    ensures var (d, rs) := Session(Dev(v, true, true), es);
      var final := Replay(copy, rs + Dump(d, ALL_WELL).records);
      var n := Counted(d, Count(Dev(v, true, true), Since(0, 0), es), DumpNow);
      final.Loaded? && StatusAsCounted(d.vga, final.dev.vga, n)
  {
    ReplayedSession(v, copy, es);
    SessionBehind(Dev(v, true, true), copy, Since(0, 0), es);
    var (d, rs) := Session(Dev(v, true, true), es);
    var next := Replay(copy, rs).dev;
    var n := Count(Dev(v, true, true), Since(0, 0), es);
    DumpBehind(d, next, n);
    DumpClears(d);
    ReplayConcat(copy, rs, Dump(d, ALL_WELL).records);
    BehindExactly(Dump(d, ALL_WELL).dev, Replay(next, Dump(d, ALL_WELL).records).dev, Counted(d, n, DumpNow));
  }

  /** So one status read after a dump is lost: the next sends nothing. */
  lemma StatusNotReplayed(d: Dev, copy: Dev, addr: nat)
    requires Indexed(d.vga) && !d.part1 && !d.part2 && (addr == 0x3ba || addr == 0x3da) && !Dead(d.vga, addr)
    requires copy.vga.st01 == d.vga.st01
    ensures var e := AfterRead(d, addr); Dump(e, ALL_WELL).records == [] && e.vga.st01 != copy.vga.st01
  {
    ToggleTwice(d.vga.st01);
    var v := d.vga.(st01 := d.vga.st01 ^ ST01_TOGGLE, arFlipFlop := 0);
    assert AfterRead(d, addr) == Dev(v, false, false);
  }

  // ------------------------------------------------------------------
  // Dumps that fail

  /** The part's flag is cleared and its record not sent. */
  predicate Lost1(d: Dev, luck: Luck) {
    d.part1 && luck.alloc1 && !luck.sent1
  }

  /** The second part is tried only if the first went well. */
  predicate Lost2(d: Dev, luck: Luck) {
    (d.part1 ==> luck.alloc1 && luck.sent1) && d.part2 && luck.alloc2 && !luck.sent2
  }

  /** Whatever fails, a dump leaves a clear flag meaning a current copy if and only if each part it lost
      was up to date in the copy already. */
  lemma DumpKeepsStep(d: Dev, copy: Dev, luck: Luck)
    requires InStep(d, copy)
    ensures var r := Dump(d, luck);
      && Replay(copy, r.records).Loaded?
      && (InStep(r.dev, Replay(copy, r.records).dev) <==>
            (Lost1(d, luck) ==> SamePart1(d.vga, copy.vga)) && (Lost2(d, luck) ==> d.vga.palette == copy.vga.palette))
  {
    var first := Record(KIND_VGA, 1, Part1(d.vga));
    var second := Record(KIND_VGA, 2, d.vga.palette);
    FirstLoads(copy, d.vga);
    ReplayOne(copy, first);
    ReplayOne(copy, second);
    SecondLoads(copy, d.vga);
    ReplayTwo(copy, first, second);
    SecondLoads(LoadRecord(copy, first).dev, d.vga);
    DumpRecords(d, luck);
  }

  /** What a dump sends, by what went well. */
  lemma DumpRecords(d: Dev, luck: Luck)
    ensures var (r, first, second) := (Dump(d, luck), Record(KIND_VGA, 1, Part1(d.vga)),
                                       Record(KIND_VGA, 2, d.vga.palette));
      var (sends1, goesOn) := (d.part1 && luck.alloc1 && luck.sent1, d.part1 ==> luck.alloc1 && luck.sent1);
      var sends2 := goesOn && d.part2 && luck.alloc2 && luck.sent2;
      && r.records == (if sends1 && sends2 then [first, second]
                       else if sends1 then [first] else if sends2 then [second] else [])
      && r.dev == Dev(d.vga, d.part1 && !luck.alloc1, d.part2 && (!goesOn || !luck.alloc2))
  {
  }

  /** Why a session starts by marking everything: a part lost by one dump is left out of the next. */
  lemma FailedDumpClears(d: Dev, luck: Luck)
    requires d.part1 && luck.alloc1 && !luck.sent1
    ensures var r := Dump(d, luck); !r.ok && r.records == [] && !r.dev.part1
    ensures forall x :: x in Dump(Dump(d, luck).dev, ALL_WELL).records ==> x.sub != 1
  {
  }
}
