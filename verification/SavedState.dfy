/** A whole saved state: what the passes of a session emit, what restoring it does, and that
    the restored state is the source's at the last pass. */
module SavedState {
  import opened VgaRegs
  import opened Bytes
  import opened Ports
  import opened VgaDump
  import opened Device
  import opened DumpRuns
  import opened Stream

  // ------------------------------------------------------------------
  // Saving

  /** demu_state_dirty and the adapter. */
  datatype Saver = Saver(dirty: bool, dev: Dev)

  datatype Happening = Device(op: Op) | Pass(vm: Bytes) // `vm`: what the plugin has to send now

  const DEMU_RECORD: Record := Record(KIND_DEMU, 0, [0, 0, 0, 0, 0, 0, 0, 0])

  function VmRecord(vm: Bytes): Record {
    Record(KIND_VMIOPE, 0, vm)
  }

  /** demu_migrate: the emulator's own record and the VGA parts if marked, then what the plugin
      returns, if anything. */
  function PassRecords(s: Saver, vm: Bytes): seq<Record> {
    (if s.dirty then [DEMU_RECORD] else []) + Dump(s.dev, ALL_WELL).records + (if vm == [] then [] else [VmRecord(vm)])
  }

  function AfterPass(s: Saver): Saver {
    Saver(false, Dump(s.dev, ALL_WELL).dev)
  }

  /** Moving the frame buffer marks the emulator's record again. */
  function AfterOp(s: Saver, op: Op): Saver
    requires OpOk(s.dev, op)
  {
    Saver(s.dirty || op.MoveFrameBuffer?, Step(s.dev, op))
  }

  /** The plugin never returns more than the buffer it is given holds. */
  ghost predicate SavingOk(s: Saver, hs: seq<Happening>)
    decreases |hs|
  {
    hs == [] ||
    match hs[0]
    case Device(op) => OpOk(s.dev, op) && SavingOk(AfterOp(s, op), hs[1..])
    case Pass(vm) => RegsOk(s.dev.vga) && |vm| <= MAX_REC_DATA_SIZE && SavingOk(AfterPass(s), hs[1..])
  }

  function Saving(s: Saver, hs: seq<Happening>): (Saver, seq<Record>)
    requires SavingOk(s, hs)
    decreases |hs|
  {
    if hs == [] then (s, [])
    else
      match hs[0]
      case Device(op) => Saving(AfterOp(s, op), hs[1..])
      case Pass(vm) =>
        var (e, rs) := Saving(AfterPass(s), hs[1..]);
        (e, PassRecords(s, vm) + rs)
  }

  // ------------------------------------------------------------------
  // Restoring

  /** The adapter being restored and the buffers handed to the plugin so far. */
  datatype Target = Target(dev: Dev, delivered: seq<Bytes>)

  /** Who takes a record: read_vga, and the plugin's write-device-buffer call. */
  datatype Handlers = Handlers(load: (Dev, Record) -> Loaded, accept: Bytes -> bool)

  datatype Processed = Go(t: Target) | Stop | Fail

  /** process_record; subtype 1 of a plugin record is a legacy form, dropped. */
  function Process(t: Target, r: Record, h: Handlers): Processed {
    if r.kind == KIND_CLOSE then Stop
    else if r.kind == KIND_DEMU then (if |r.payload| == 8 then Go(t) else Fail)
    else if r.kind == KIND_VGA then
      match h.load(t.dev, r)
      case Refused => Fail
      case Loaded(d) => Go(t.(dev := d))
    else if r.kind == KIND_VMIOPE then
      if r.sub == 1 then Go(t)
      else if h.accept(r.payload) then Go(t.(delivered := t.delivered + [r.payload]))
      else Fail
    else Fail
  }

  datatype Restored = Finished(t: Target, rest: Bytes) | Failed

  /** readstate: records until a close, an error or the end of the stream. */
  function Restore(t: Target, input: Bytes, h: Handlers): Restored
    decreases |input|
  {
    match Parse(input)
    case Bad => Failed
    case Parsed(r, rest) =>
      match Process(t, r, h)
      case Fail => Failed
      case Stop => Finished(t, rest)
      case Go(u) => Restore(u, rest, h)
  }

  /** readstate over a stream whose reads come back short. */
  method ReadState(reader: StateReader, start: Target, h: Handlers, faulty: bool) returns (ok: bool, t: Target)
    requires reader.Valid()
    modifies reader
    ensures reader.Valid()
    ensures ok ==> Restore(start, reader.input[old(reader.pos)..], h) == Finished(t, reader.input[reader.pos..])
    ensures !faulty && !ok ==> Restore(start, reader.input[old(reader.pos)..], h) == Failed
  {
    t := start;
    var buffer := new bv8[MAX_REC_SIZE];
    while true
      invariant reader.Valid()
      invariant Restore(start, reader.input[old(reader.pos)..], h) == Restore(t, reader.input[reader.pos..], h)
      decreases |reader.input| - reader.pos
    {
      var good := reader.ReadRecord(buffer, faulty);
      if !good {
        return false, t;
      }
      match Process(t, RecordIn(buffer[..]), h)
      case Fail => return false, t;
      case Stop => return true, t;
      case Go(u) => t := u;
    }
  }

  /** demu_get_state: the header, then the records. */
  function Resume(t: Target, input: Bytes, h: Handlers): Restored {
    if Headed(input) then Restore(t, input[HEADER_SIZE..], h) else Failed
  }

  /** demu_get_state once triggered: only on a state file that is neither read nor written. */
  method GetState(reader: StateReader, start: Target, h: Handlers, closed: bool, faulty: bool)
    returns (ok: bool, t: Target)
    requires reader.Valid()
    modifies reader
    ensures reader.Valid()
    ensures ok ==>
        closed && Resume(start, reader.input[old(reader.pos)..], h) == Finished(t, reader.input[reader.pos..])
    ensures !faulty && !ok ==> !closed || Resume(start, reader.input[old(reader.pos)..], h) == Failed
  {
    t := start;
    if !closed {
      return false, t;
    }
    ok := reader.ReadHeader(faulty);
    if ok {
      assert reader.input[old(reader.pos)..][HEADER_SIZE..] == reader.input[reader.pos..];
      ok, t := ReadState(reader, start, h, faulty);
    }
  }

  // ------------------------------------------------------------------
  // Restoring what was saved

  /** Records a restore accepts, whatever the adapter makes of the VGA ones. */
  predicate Ordinary(r: Record, h: Handlers) {
    && Fits(r)
    && (r.kind == KIND_VGA || r == DEMU_RECORD || (r.kind == KIND_VMIOPE && r.sub == 0 && h.accept(r.payload)))
  }

  function VgaRecords(rs: seq<Record>): seq<Record> {
    if rs == [] then []
    else if rs[0].kind == KIND_VGA then [rs[0]] + VgaRecords(rs[1..])
    else VgaRecords(rs[1..])
  }

  function Payloads(rs: seq<Record>): seq<Bytes> {
    if rs == [] then []
    else if rs[0].kind == KIND_VMIOPE then [rs[0].payload] + Payloads(rs[1..])
    else Payloads(rs[1..])
  }

  lemma {:induction false} VgaConcat(a: seq<Record>, b: seq<Record>)
    ensures VgaRecords(a + b) == VgaRecords(a) + VgaRecords(b)
  {
    if a == [] {
      assert a + b == b;
    } else {
      var all := a + b;
      assert all[0] == a[0] && all[1..] == a[1..] + b;
      VgaConcat(a[1..], b);
    }
  }

  lemma {:induction false} PayloadsConcat(a: seq<Record>, b: seq<Record>)
    ensures Payloads(a + b) == Payloads(a) + Payloads(b)
  {
    if a == [] {
      assert a + b == b;
    } else {
      var all := a + b;
      assert all[0] == a[0] && all[1..] == a[1..] + b;
      PayloadsConcat(a[1..], b);
    }
  }

  lemma SplitConcat(a: seq<Record>, b: seq<Record>)
    ensures VgaRecords(a + b) == VgaRecords(a) + VgaRecords(b) && Payloads(a + b) == Payloads(a) + Payloads(b)
  {
    VgaConcat(a, b);
    PayloadsConcat(a, b);
  }

  lemma RestoreOne(t: Target, r: Record, tail: Bytes, h: Handlers)
    requires Fits(r)
    ensures Restore(t, Encode(r) + tail, h) ==
      match Process(t, r, h)
      case Fail => Failed
      case Stop => Finished(t, tail)
      case Go(u) => Restore(u, tail, h)
  {
    ParseEncode(r, tail);
  }

  /** Once refused, always refused. */
  lemma {:induction false} RefusedStays(load: (Dev, Record) -> Loaded, rs: seq<Record>)
    ensures Fold(load, Loaded.Refused, rs) == Loaded.Refused
    decreases |rs|
  {
    if rs != [] {
      RefusedStays(load, rs[1..]);
    }
  }

  lemma FoldFirst(load: (Dev, Record) -> Loaded, d: Dev, r: Record, rs: seq<Record>)
    requires Fold(load, Loaded(d), [r] + rs).Loaded?
    ensures load(d, r).Loaded? && Fold(load, Loaded(d), [r] + rs) == Fold(load, load(d, r), rs)
  {
    assert ([r] + rs)[1..] == rs;
    RefusedStays(load, rs);
  }

  ghost predicate AllOrdinary(rs: seq<Record>, h: Handlers) {
    forall r | r in rs :: Fits(r) && Ordinary(r, h)
  }

  /** The first record is accepted, and what remains to be replayed and delivered. */
  lemma RestoreRest(t: Target, rs: seq<Record>, h: Handlers)
    requires rs != [] && Ordinary(rs[0], h) && Fold(h.load, Loaded(t.dev), VgaRecords(rs)).Loaded?
    ensures Process(t, rs[0], h).Go?
    ensures var u := Process(t, rs[0], h).t;
      && Fold(h.load, Loaded(t.dev), VgaRecords(rs)) == Fold(h.load, Loaded(u.dev), VgaRecords(rs[1..]))
      && t.delivered + Payloads(rs) == u.delivered + Payloads(rs[1..])
  {
    var later := Payloads(rs[1..]);
    if rs[0].kind == KIND_VGA {
      FoldFirst(h.load, t.dev, rs[0], VgaRecords(rs[1..]));
    } else if rs[0].kind == KIND_VMIOPE {
      assert t.delivered + ([rs[0].payload] + later) == (t.delivered + [rs[0].payload]) + later;
    }
  }

  /** Restoring an encoded session replays its VGA records, hands over its plugin payloads in
      order, stops at the close and leaves exactly what follows it. */
  lemma {:induction false} RestoreEncoded(t: Target, rs: seq<Record>, rest: Bytes, h: Handlers)
    requires AllOrdinary(rs, h) && Fold(h.load, Loaded(t.dev), VgaRecords(rs)).Loaded?
    ensures Restore(t, EncodeAll(rs) + (Encode(CLOSE) + rest), h)
         == Finished(Target(Fold(h.load, Loaded(t.dev), VgaRecords(rs)).dev, t.delivered + Payloads(rs)), rest)
    decreases |rs|
  {
    var tail := Encode(CLOSE) + rest;
    if rs == [] {
      assert EncodeAll(rs) + tail == tail && t.delivered + Payloads(rs) == t.delivered;
      RestoreOne(t, CLOSE, rest, h);
    } else {
      var r := rs[0];
      assert r in rs;
      Assoc(Encode(r), EncodeAll(rs[1..]), tail);
      RestoreOne(t, r, EncodeAll(rs[1..]) + tail, h);
      RestoreRest(t, rs, h);
      RestoreEncoded(Process(t, r, h).t, rs[1..], rest, h);
    }
  }

  // ------------------------------------------------------------------
  // End to end

  /** The VGA side of a session: passes become dumps. */
  function Events(hs: seq<Happening>): seq<Event> {
    if hs == [] then []
    else
      [match hs[0]
       case Device(op) => Access(op)
       case Pass(_) => DumpNow] + Events(hs[1..])
  }

  /** Payloads the plugin sent, in order. */
  function Sent(hs: seq<Happening>): seq<Bytes> {
    if hs == [] then []
    else if hs[0].Pass? && hs[0].vm != [] then [hs[0].vm] + Sent(hs[1..])
    else Sent(hs[1..])
  }

  lemma {:induction false} OnlyVga(rs: seq<Record>)
    requires forall r | r in rs :: r.kind == KIND_VGA
    ensures VgaRecords(rs) == rs && Payloads(rs) == []
    decreases |rs|
  {
    if rs != [] {
      OnlyVga(rs[1..]);
      assert [rs[0]] + rs[1..] == rs;
    }
  }

  lemma DumpKinds(d: Dev)
    ensures forall r | r in Dump(d, ALL_WELL).records :: r.kind == KIND_VGA && Fits(r)
  {
    DumpSends(d);
  }

  lemma OneRecord(r: Record)
    ensures VgaRecords([r]) == (if r.kind == KIND_VGA then [r] else [])
    ensures Payloads([r]) == if r.kind == KIND_VMIOPE then [r.payload] else []
  {
    assert [r][1..] == [];
  }

  /** A pass emits the VGA dump, the plugin's payload, and nothing a restore would refuse. */
  lemma PassSplit(s: Saver, vm: Bytes)
    ensures VgaRecords(PassRecords(s, vm)) == Dump(s.dev, ALL_WELL).records
    ensures Payloads(PassRecords(s, vm)) == if vm == [] then [] else [vm]
  {
    var a := if s.dirty then [DEMU_RECORD] else [];
    var b := Dump(s.dev, ALL_WELL).records;
    var c := if vm == [] then [] else [VmRecord(vm)];
    DumpKinds(s.dev);
    OnlyVga(b);
    OneRecord(DEMU_RECORD);
    OneRecord(VmRecord(vm));
    SplitConcat(a + b, c);
    SplitConcat(a, b);
    assert [] + b + [] == b;
  }

  lemma PassOrdinary(s: Saver, vm: Bytes, h: Handlers)
    requires |vm| <= MAX_REC_DATA_SIZE && (vm != [] ==> h.accept(vm))
    ensures AllOrdinary(PassRecords(s, vm), h)
  {
    DumpKinds(s.dev);
  }

  lemma {:induction false} SavingOrdinary(s: Saver, hs: seq<Happening>, h: Handlers)
    requires SavingOk(s, hs) && forall vm | vm in Sent(hs) :: h.accept(vm)
    ensures AllOrdinary(Saving(s, hs).1, h)
    decreases |hs|
  {
    if hs != [] {
      match hs[0]
      case Device(op) => SavingOrdinary(AfterOp(s, op), hs[1..], h);
      case Pass(vm) =>
        assert vm != [] ==> vm in Sent(hs);
        PassOrdinary(s, vm, h);
        SavingOrdinary(AfterPass(s), hs[1..], h);
    }
  }

  /** The session's VGA records are those of its dumps, its payloads those the plugin sent. */
  lemma {:induction false} SavingSplit(s: Saver, hs: seq<Happening>)
    requires SavingOk(s, hs)
    ensures SessionOk(s.dev, Events(hs))
    ensures Saving(s, hs).0.dev == Session(s.dev, Events(hs)).0
    ensures VgaRecords(Saving(s, hs).1) == Session(s.dev, Events(hs)).1
    ensures Payloads(Saving(s, hs).1) == Sent(hs)
    decreases |hs|
  {
    if hs != [] {
      assert Events(hs)[1..] == Events(hs[1..]);
      match hs[0]
      case Device(op) =>
        StepKeepsRegs(s.dev, op);
        SavingSplit(AfterOp(s, op), hs[1..]);
      case Pass(vm) =>
        PassSplit(s, vm);
        SavingSplit(AfterPass(s), hs[1..]);
        SplitConcat(PassRecords(s, vm), Saving(AfterPass(s), hs[1..]).1);
    }
  }

  lemma {:induction false} LastPassClears(s: Saver, hs: seq<Happening>)
    requires SavingOk(s, hs) && hs != [] && hs[|hs| - 1].Pass?
    ensures !Saving(s, hs).0.dev.part1 && !Saving(s, hs).0.dev.part2
    decreases |hs|
  {
    match hs[0]
    case Device(op) =>
      StepKeepsRegs(s.dev, op);
      assert hs[1..][|hs[1..]| - 1] == hs[|hs| - 1];
      LastPassClears(AfterOp(s, op), hs[1..]);
    case Pass(vm) =>
      DumpSends(s.dev);
      if |hs| > 1 {
        assert hs[1..][|hs[1..]| - 1] == hs[|hs| - 1];
        LastPassClears(AfterPass(s), hs[1..]);
      }
  }

  /** A session as demu_init_migrate starts it: everything marked. */
  function Started(v: Vga): Saver {
    Saver(true, Dev(v, true, true))
  }

  lemma RestoreAll(copy: Dev, rs: seq<Record>, rest: Bytes, accept: Bytes -> bool, d: Dev)
    requires AllOrdinary(rs, Handlers(LoadRecord, accept)) && Replay(copy, VgaRecords(rs)) == Loaded(d)
    ensures Restore(Target(copy, []), EncodeAll(rs) + (Encode(CLOSE) + rest), Handlers(LoadRecord, accept))
         == Finished(Target(d, Payloads(rs)), rest)
  {
    RestoreEncoded(Target(copy, []), rs, rest, Handlers(LoadRecord, accept));
    assert [] + Payloads(rs) == Payloads(rs);
  }

  /** Status reads since a pass last sent the registers, and the flip-flop then. */
  function Polls(v: Vga, hs: seq<Happening>): Since
    requires SavingOk(Started(v), hs)
  {
    SavingSplit(Started(v), hs);
    Count(Dev(v, true, true), Since(0, 0), Events(hs))
  }

  /** Every session's records are ordinary, replay to a faithful adapter and carry the payloads sent. */
  lemma SessionRestores(v: Vga, copy: Dev, hs: seq<Happening>, h: Handlers)
    requires SavingOk(Started(v), hs) && forall vm | vm in Sent(hs) :: h.accept(vm)
    requires hs != [] && hs[|hs| - 1].Pass?
    ensures var (s, rs) := Saving(Started(v), hs);
      && AllOrdinary(rs, h) && Payloads(rs) == Sent(hs)
      && Replay(copy, VgaRecords(rs)).Loaded?
      && var w := Replay(copy, VgaRecords(rs)).dev.vga;
         Faithful(s.dev.vga, w) && StatusAsCounted(s.dev.vga, w, Polls(v, hs))
  {
    SavingOrdinary(Started(v), hs, h);
    SavingSplit(Started(v), hs);
    SessionCopies(Dev(v, true, true), copy, Events(hs));
    LastPassClears(Started(v), hs);
    var rs := Saving(Started(v), hs).1;
    SessionBehind(Dev(v, true, true), copy, Since(0, 0), Events(hs));
    BehindExactly(Saving(Started(v), hs).0.dev, Replay(copy, VgaRecords(rs)).dev, Polls(v, hs));
  }

  /** The restore succeeded, left these bytes, delivered these payloads, and the adapter is the saved one
      in every dumped field, the status byte and the flip-flop exactly as the count says. */
  ghost predicate RestoredAs(end: Restored, v: Vga, n: Since, sent: seq<Bytes>, rest: Bytes) {
    && end.Finished? && end.rest == rest && end.t.delivered == sent
    && Faithful(v, end.t.dev.vga) && StatusAsCounted(v, end.t.dev.vga, n)
  }

  /** Whatever happened between the passes, restoring the saved records succeeds if the plugin takes the
      payloads it sent, stops at the close, hands the plugin its payloads in order, and leaves the
      adapter in every dumped field as it was at the last pass, but for the status byte after an odd number
      of status reads since the registers were sent and the flip-flop if one found it set. */
  lemma SavedIsRestored(v: Vga, copy: Dev, hs: seq<Happening>, rest: Bytes, accept: Bytes -> bool)
    requires SavingOk(Started(v), hs) && forall vm | vm in Sent(hs) :: accept(vm)
    requires hs != [] && hs[|hs| - 1].Pass?
    ensures var (s, rs) := Saving(Started(v), hs);
      && AllOrdinary(rs, Handlers(LoadRecord, accept))
      && RestoredAs(Restore(Target(copy, []), EncodeAll(rs) + (Encode(CLOSE) + rest), Handlers(LoadRecord, accept)),
                    s.dev.vga, Polls(v, hs), Sent(hs), rest)
  {
    SessionRestores(v, copy, hs, Handlers(LoadRecord, accept));
    var rs := Saving(Started(v), hs).1;
    RestoreAll(copy, rs, rest, accept, Replay(copy, VgaRecords(rs)).dev);
  }

  // ------------------------------------------------------------------
  // The bytes of a successful session

  function Encoded(rs: seq<Record>): (chunks: seq<Bytes>)
    requires forall r | r in rs :: Fits(r)
    ensures |chunks| == |rs|
  {
    if rs == [] then [] else [Encode(rs[0])] + Encoded(rs[1..])
  }

  lemma {:induction false} ConcatEncoded(rs: seq<Record>)
    requires forall r | r in rs :: Fits(r)
    ensures Concat(Encoded(rs)) == EncodeAll(rs)
  {
    if rs != [] {
      ConcatEncoded(rs[1..]);
      assert Encoded(rs)[1..] == Encoded(rs[1..]);
    }
  }

  lemma {:induction false} ConcatConcat(a: seq<Bytes>, b: seq<Bytes>)
    ensures Concat(a + b) == Concat(a) + Concat(b)
    decreases |a|
  {
    if a == [] {
      assert a + b == b;
    } else {
      ConcatConcat(a[1..], b);
      assert (a + b)[0] == a[0] && (a + b)[1..] == a[1..] + b;
      Assoc(a[0], Concat(a[1..]), Concat(b));
    }
  }

  /** The writes of a session: header, records, close. */
  function Chunks(rs: seq<Record>): seq<Bytes>
    requires forall r | r in rs :: Fits(r)
  {
    [HEADER] + Encoded(rs) + [Encode(CLOSE)]
  }

  /** With writes completed one at a time, a session all of whose writes and whose final flush
      succeed leaves exactly header, padded records and close in the sink; a file's offset has
      advanced by their total length. */
  lemma SessionStream(w: Writer, prior: Bytes, rs: seq<Record>, answers: seq<Answer>, a: Answer)
    requires Fresh(w, prior) && (forall r | r in rs :: Fits(r))
    requires |answers| == |Chunks(rs)| && AllWritten(w, Chunks(rs), answers)
    requires Write(AfterWrites(w, Chunks(rs), answers), [], a).1
    ensures var v := Write(AfterWrites(w, Chunks(rs), answers), [], a).0;
      && v.pending == Idle && Landed(v, SessionBytes(rs), prior)
      && (!v.socket ==> v.offset == v.start + |SessionBytes(rs)|)
  {
    FlushedSession(w, prior, Chunks(rs), answers, a);
    ConcatEncoded(rs);
    ConcatConcat([HEADER] + Encoded(rs), [Encode(CLOSE)]);
    ConcatConcat([HEADER], Encoded(rs));
    OneChunk(HEADER);
    OneChunk(Encode(CLOSE));
  }

  lemma OneChunk(c: Bytes)
    ensures Concat([c]) == c
  {
    assert [c][1..] == [] && c + [] == c;
  }

  // ------------------------------------------------------------------
  // From the sink back to the adapter

  /** What a complete session written into a sink leaves after its close: nothing in a socket, the
      rest of the old contents in a file. */
  function Leftover(socket: bool, rs: seq<Record>, prior: Bytes): Bytes
    requires forall r | r in rs :: Fits(r)
  {
    if socket || |SessionBytes(rs)| > |prior| then [] else prior[|SessionBytes(rs)|..]
  }

  /** The sink after a session all of whose writes and whose flush succeed. */
  ghost predicate SavedInto(sink: Bytes, w: Writer, prior: Bytes, rs: seq<Record>, answers: seq<Answer>, a: Answer) {
    && Fresh(w, prior) && (forall r | r in rs :: Fits(r))
    && |answers| == |Chunks(rs)| && AllWritten(w, Chunks(rs), answers)
    && Write(AfterWrites(w, Chunks(rs), answers), [], a).1
    && sink == Write(AfterWrites(w, Chunks(rs), answers), [], a).0.sink
  }

  lemma {:induction false} WritesKeepKind(w: Writer, chunks: seq<Bytes>, answers: seq<Answer>)
    requires |chunks| == |answers|
    ensures AfterWrites(w, chunks, answers).socket == w.socket
    decreases |chunks|
  {
    if chunks != [] {
      WritesKeepKind(Write(w, chunks[0], answers[0]).0, chunks[1..], answers[1..]);
    }
  }

  lemma SinkHolds(sink: Bytes, w: Writer, prior: Bytes, rs: seq<Record>, answers: seq<Answer>, a: Answer)
    requires SavedInto(sink, w, prior, rs, answers, a)
    ensures sink == SessionBytes(rs) + Leftover(w.socket, rs, prior)
  {
    SessionStream(w, prior, rs, answers, a);
    WritesKeepKind(w, Chunks(rs), answers);
    assert SessionBytes(rs) + [] == SessionBytes(rs);
  }

  lemma HeaderSkipped(rs: seq<Record>, rest: Bytes)
    requires forall r | r in rs :: Fits(r)
    ensures Headed(SessionBytes(rs) + rest)
    ensures (SessionBytes(rs) + rest)[HEADER_SIZE..] == EncodeAll(rs) + (Encode(CLOSE) + rest)
  {
    Assoc(HEADER + EncodeAll(rs), Encode(CLOSE), rest);
    Assoc(HEADER, EncodeAll(rs), Encode(CLOSE) + rest);
    HeadedIsHeader(SessionBytes(rs) + rest);
  }

  /** The bytes in the sink, header included, restore the saved state. */
  lemma SinkIsRestored(v: Vga, copy: Dev, hs: seq<Happening>, accept: Bytes -> bool,
                       sink: Bytes, w: Writer, prior: Bytes, answers: seq<Answer>, a: Answer)
    requires SavingOk(Started(v), hs) && forall vm | vm in Sent(hs) :: accept(vm)
    requires hs != [] && hs[|hs| - 1].Pass? && SavedInto(sink, w, prior, Saving(Started(v), hs).1, answers, a)
    ensures var (s, rs) := Saving(Started(v), hs);
            RestoredAs(Resume(Target(copy, []), sink, Handlers(LoadRecord, accept)), s.dev.vga, Polls(v, hs), Sent(hs),
                       Leftover(w.socket, rs, prior))
  {
    var rs := Saving(Started(v), hs).1;
    SinkHolds(sink, w, prior, rs, answers, a);
    HeaderSkipped(rs, Leftover(w.socket, rs, prior));
    SavedIsRestored(v, copy, hs, Leftover(w.socket, rs, prior), accept);
  }

  /** The whole way: a session of passes and guest accesses, encoded, padded and written through one
      outstanding request at a time, read back in pieces of any size and processed, succeeds, hands the
      plugin what it sent, in order, and leaves the adapter as it was saved. */
  method RestoreSaved(reader: StateReader, copy: Dev, accept: Bytes -> bool, ghost v: Vga, ghost hs: seq<Happening>,
                      ghost w: Writer, ghost prior: Bytes, ghost answers: seq<Answer>, ghost a: Answer)
    returns (ok: bool, t: Target)
    requires SavingOk(Started(v), hs) && forall vm | vm in Sent(hs) :: accept(vm)
    requires hs != [] && hs[|hs| - 1].Pass?
    requires reader.Valid() && reader.pos == 0
    requires SavedInto(reader.input, w, prior, Saving(Started(v), hs).1, answers, a)
    modifies reader
    ensures ok && t.delivered == Sent(hs)
    ensures var now := Saving(Started(v), hs).0.dev.vga;
        Faithful(now, t.dev.vga) && StatusAsCounted(now, t.dev.vga, Polls(v, hs))
    ensures reader.Valid() && reader.input[reader.pos..] == Leftover(w.socket, Saving(Started(v), hs).1, prior)
  {
    SinkIsRestored(v, copy, hs, accept, reader.input, w, prior, answers, a);
    assert reader.input[0..] == reader.input;
    ok, t := GetState(reader, Target(copy, []), Handlers(LoadRecord, accept), true, false);
  }
}
