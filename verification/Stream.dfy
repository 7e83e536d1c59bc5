/** The state stream: its record format, the writer with one asynchronous write outstanding,
    and the reader that tolerates short reads. */
module Stream {
  import opened VgaRegs
  import opened Bytes
  import opened VgaDump

  const MAX_REC_SIZE: nat := 8192
  const RECORD_HEADER: nat := 8
  const MAX_REC_DATA_SIZE: nat := MAX_REC_SIZE - RECORD_HEADER

  /** demu_ident, as it lies in memory. */
  const IDENT: Bytes := [0x44, 0x45, 0x4d, 0x55, 0x2d, 0x66, 0x6d, 0x74]
  const VERSION: u32 := 1
  const OPTIONS: u32 := 0

  /** demu_ident, demu_version and demu_options, little-endian. */
  const HEADER: Bytes := IDENT + Le32(VERSION) + Le32(OPTIONS)

  const HEADER_SIZE: nat := 16

  /** What demu_read_header looks for. */
  predicate Headed(s: Bytes) {
    |s| >= HEADER_SIZE && Expected(s[..8], s[8..12], s[12..16])
  }

  predicate Expected(ident: Bytes, version: Bytes, options: Bytes)
    requires |version| == 4 && |options| == 4
  {
    ident == IDENT && FromLe32(version) == VERSION && FromLe32(options) == OPTIONS
  }

  /** That is the header a session writes, and only that. */
  lemma HeadedIsHeader(s: Bytes)
    ensures Headed(s) <==> HEADER <= s
  {
    if HEADER <= s {
      HeaderHeads(s);
    } else if Headed(s) {
      HeadedStarts(s);
    }
  }

  lemma HeaderHeads(s: Bytes)
    requires HEADER <= s
    ensures Headed(s)
  {
    PartsOf(s, IDENT, Le32(VERSION), Le32(OPTIONS));
  }

  lemma HeadedStarts(s: Bytes)
    requires Headed(s)
    ensures HEADER <= s
  {
    Le32Inverse(s[8..12]);
    Le32Inverse(s[12..16]);
    ThreeParts(s, IDENT, Le32(VERSION), Le32(OPTIONS));
  }

  lemma ThreeParts(s: Bytes, a: Bytes, b: Bytes, c: Bytes)
    requires |s| >= 16 && |a| == 8 && |b| == 4 && |c| == 4 && s[..8] == a && s[8..12] == b && s[12..16] == c
    ensures a + b + c <= s
  {
    assert s[..8] + s[8..12] + s[12..16] == s[..16];
  }

  lemma PartsOf(s: Bytes, a: Bytes, b: Bytes, c: Bytes)
    requires |a| == 8 && |b| == 4 && |c| == 4 && a + b + c <= s
    ensures s[..8] == a && s[8..12] == b && s[12..16] == c
  {
    assert (a + b + c)[..8] == a && (a + b + c)[8..12] == b && (a + b + c)[12..] == c;
  }

  /** "Padding" and its terminator. */
  const PADDING: Bytes := [0x50, 0x61, 0x64, 0x64, 0x69, 0x6e, 0x67, 0]

  const CLOSE: Record := Record(KIND_CLOSE, 0, [])

  // ------------------------------------------------------------------
  // Format

  function RoundUp8(n: nat): (m: nat)
    ensures m % 8 == 0 && n <= m < n + 8
  {
    (n + 7) / 8 * 8
  }

  function Padded(length: nat): nat {
    RoundUp8(length + RECORD_HEADER)
  }

  predicate Fits(r: Record) {
    |r.payload| <= MAX_REC_DATA_SIZE
  }

  function RecordHeader(r: Record): (s: Bytes)
    requires Fits(r)
    ensures |s| == RECORD_HEADER
  {
    Le16(r.kind) + Le16(r.sub) + Le32(|r.payload|)
  }

  /** Header, payload, padding to a multiple of eight. */
  function Encode(r: Record): (s: Bytes)
    requires Fits(r)
    ensures |s| == Padded(|r.payload|) && |s| <= MAX_REC_SIZE
  {
    RecordHeader(r) + r.payload + PADDING[..Padded(|r.payload|) - |r.payload| - RECORD_HEADER]
  }

  function EncodeAll(rs: seq<Record>): Bytes
    requires forall r | r in rs :: Fits(r)
  {
    if rs == [] then [] else Encode(rs[0]) + EncodeAll(rs[1..])
  }

  /** What a complete session writes. */
  function SessionBytes(rs: seq<Record>): Bytes
    requires forall r | r in rs :: Fits(r)
  {
    HEADER + EncodeAll(rs) + Encode(CLOSE)
  }

  datatype Parsed = Parsed(r: Record, rest: Bytes) | Bad

  /** read_record, on lengths whose padding does not wrap 32 bits. */
  function Parse(input: Bytes): Parsed {
    if |input| < RECORD_HEADER then Bad
    else
      var length := FromLe32(input[4..8]);
      if Padded(length) > MAX_REC_SIZE || |input| < Padded(length) then Bad
      else Parsed(Record(FromLe16(input[..2]), FromLe16(input[2..4]), input[8..8 + length]), input[Padded(length)..])
  }

  lemma ParseEncode(r: Record, rest: Bytes)
    requires Fits(r)
    ensures Parse(Encode(r) + rest) == Parsed(r, rest)
  {
    var s := Encode(r) + rest;
    assert s[..2] == Le16(r.kind) && s[2..4] == Le16(r.sub) && s[4..8] == Le32(|r.payload|);
    assert s[8..8 + |r.payload|] == r.payload;
    assert s[Padded(|r.payload|)..] == rest;
  }

  /** The records up to and including a close, and what follows it. */
  datatype Scanned = Scanned(rs: seq<Record>, rest: Bytes) | Broken

  function ScanRecords(input: Bytes): Scanned
    decreases |input|
  {
    match Parse(input)
    case Bad => Broken
    case Parsed(r, rest) =>
      if r.kind == KIND_CLOSE then Scanned([], rest) else Prepend(r, ScanRecords(rest))
  }

  /** r put in front of what was scanned. */
  function Prepend(r: Record, s: Scanned): Scanned {
    match s
    case Broken => Broken
    case Scanned(rs, rest) => Scanned([r] + rs, rest)
  }

  lemma ScanOne(r: Record, tail: Bytes)
    requires Fits(r)
    ensures ScanRecords(Encode(r) + tail) == if r.kind == KIND_CLOSE
                                               then Scanned([], tail) else Prepend(r, ScanRecords(tail))
  {
    ParseEncode(r, tail);
  }

  function PrependAll(rs: seq<Record>, s: Scanned): Scanned {
    if rs == [] then s else Prepend(rs[0], PrependAll(rs[1..], s))
  }

  lemma {:induction false} PrependedAll(rs: seq<Record>, rest: Bytes)
    ensures PrependAll(rs, Scanned([], rest)) == Scanned(rs, rest)
  {
    if rs != [] {
      PrependedAll(rs[1..], rest);
      assert [rs[0]] + rs[1..] == rs;
    }
  }

  lemma Assoc(a: Bytes, b: Bytes, c: Bytes)
    ensures (a + b) + c == a + (b + c)
  {
  }

  lemma {:induction false} ScanMany(rs: seq<Record>, tail: Bytes)
    requires forall r | r in rs :: Fits(r) && r.kind != KIND_CLOSE
    ensures ScanRecords(EncodeAll(rs) + tail) == PrependAll(rs, ScanRecords(tail))
    decreases |rs|
  {
    if rs == [] {
      assert EncodeAll(rs) + tail == tail;
    } else {
      var rest := EncodeAll(rs[1..]) + tail;
      ScanMany(rs[1..], tail);
      Assoc(Encode(rs[0]), EncodeAll(rs[1..]), tail);
      ScanOne(rs[0], rest);
    }
  }

  /** Reading back an encoded session recovers types, subtypes, lengths and payloads, stops at
      the close and leaves exactly what follows it. */
  lemma ScanRoundTrip(rs: seq<Record>, rest: Bytes)
    requires forall r | r in rs :: Fits(r) && r.kind != KIND_CLOSE
    ensures ScanRecords(EncodeAll(rs) + (Encode(CLOSE) + rest)) == Scanned(rs, rest)
  {
    ScanMany(rs, Encode(CLOSE) + rest);
    ScanOne(CLOSE, rest);
    PrependedAll(rs, rest);
  }

  // ------------------------------------------------------------------
  // The writer

  /** The static control block: nothing outstanding, a request the kernel took, one it took from an
      earlier session whose descriptor had the same number, or one it refused. */
  datatype Pending = Idle | InFlight(data: Bytes, at: nat) | Earlier | Rejected

  /** `sink` is what the socket has received, or the file from the session's start on. */
  datatype Writer = Writer(socket: bool, start: nat, sink: Bytes, offset: nat, pending: Pending, abort: bool)

  /** How the kernel answers one do_write: whether the outstanding request completed in full,
      and whether the new one is taken. */
  datatype Answer = Answer(completes: bool, takes: bool)

  /** Completion of a request: appended to a socket, put at its offset in a file. */
  function Put(w: Writer, data: Bytes, at: nat): Bytes {
    if w.socket then w.sink + data
    else
      var i := if w.start <= at <= w.start + |w.sink| then at - w.start else |w.sink|;
      w.sink[..i] + data + if i + |data| <= |w.sink| then w.sink[i + |data|..] else []
  }

  /** Wait for the outstanding request. */
  function Settle(w: Writer, a: Answer): (r: (Writer, bool)) {
    match w.pending
    case Idle => (w, true)
    case InFlight(data, at) => if a.completes then (w.(sink := Put(w, data, at), pending := Idle), true) else (w, false)
    case Earlier => if a.completes then (w.(pending := Idle), true) else (w, false)
    case Rejected => (w, false)
  }

  function Issue(w: Writer, data: Bytes, a: Answer): (Writer, bool) {
    if data == [] then (w, true)
    else if w.abort then (w, false)
    else if !a.takes then (w.(pending := Rejected), false)
    else
      (w.(pending := InFlight(data, if w.socket then 0 else w.offset),
          offset := if w.socket then w.offset else w.offset + |data|), true)
  }

  /** do_write; no bytes means flush. */
  function Write(w: Writer, data: Bytes, a: Answer): (Writer, bool) {
    var (v, ok) := Settle(w, a);
    if ok then Issue(v, data, a) else (v, false)
  }

  /** Everything issued so far, in order, is `bytes`: all but the outstanding request is in the
      sink, and a file's offset has advanced by the total. */
  ghost predicate Written(w: Writer, bytes: Bytes, prior: Bytes) {
    match w.pending
    case Idle => Landed(w, bytes, prior) && (!w.socket ==> w.offset == w.start + |bytes|)
    case InFlight(data, at) =>
      && |data| <= |bytes| && bytes[|bytes| - |data|..] == data
      && Landed(w, bytes[..|bytes| - |data|], prior)
      && (!w.socket ==> w.offset == w.start + |bytes| && at == w.offset - |data|)
    case Earlier => bytes == [] && Landed(w, bytes, prior) && (!w.socket ==> w.offset == w.start)
    case Rejected => false
  }

  /** The sink holds exactly these bytes, over the file's old contents. */
  ghost predicate Landed(w: Writer, bytes: Bytes, prior: Bytes) {
    if w.socket then w.sink == bytes
    else w.sink == bytes + if |bytes| <= |prior| then prior[|bytes|..] else []
  }

  lemma SettleLands(w: Writer, bytes: Bytes, prior: Bytes, a: Answer)
    requires Written(w, bytes, prior) && Settle(w, a).1
    ensures Settle(w, a).0.pending == Idle && Written(Settle(w, a).0, bytes, prior)
  {
    if w.pending.InFlight? {
      var data := w.pending.data;
      var head := bytes[..|bytes| - |data|];
      assert head + data == bytes;
      if !w.socket {
        assert w.pending.at - w.start == |head|;
        assert w.sink[..|head|] == head;
        assert Put(w, data, w.pending.at) == bytes + if |bytes| <= |prior| then prior[|bytes|..] else [];
      }
    }
  }

  /** Every successful write adds its bytes, in order. */
  lemma WriteAppends(w: Writer, bytes: Bytes, prior: Bytes, data: Bytes, a: Answer)
    requires Written(w, bytes, prior) && Write(w, data, a).1
    ensures Written(Write(w, data, a).0, bytes + data, prior)
    ensures data == [] ==> Write(w, data, a).0.pending == Idle
    ensures data != [] ==> !w.abort
  {
    SettleLands(w, bytes, prior, a);
    if data == [] {
      assert bytes + data == bytes;
    } else {
      var all := bytes + data;
      assert all[..|all| - |data|] == bytes && all[|all| - |data|..] == data;
    }
  }

  /** Chunks written one after the other, each successfully. */
  ghost predicate AllWritten(w: Writer, chunks: seq<Bytes>, answers: seq<Answer>)
    requires |chunks| == |answers|
    decreases |chunks|
  {
    chunks == [] || (Write(w, chunks[0], answers[0]).1
                     && AllWritten(Write(w, chunks[0], answers[0]).0, chunks[1..], answers[1..]))
  }

  function AfterWrites(w: Writer, chunks: seq<Bytes>, answers: seq<Answer>): Writer
    requires |chunks| == |answers|
    decreases |chunks|
  {
    if chunks == [] then w else AfterWrites(Write(w, chunks[0], answers[0]).0, chunks[1..], answers[1..])
  }

  function Concat(chunks: seq<Bytes>): Bytes {
    if chunks == [] then [] else chunks[0] + Concat(chunks[1..])
  }

  lemma {:induction false} WritesAppend(w: Writer, bytes: Bytes, prior: Bytes, chunks: seq<Bytes>, answers: seq<Answer>)
    requires |chunks| == |answers| && Written(w, bytes, prior) && AllWritten(w, chunks, answers)
    ensures Written(AfterWrites(w, chunks, answers), bytes + Concat(chunks), prior)
    decreases |chunks|
  {
    if chunks == [] {
      assert bytes + Concat(chunks) == bytes;
    } else {
      WriteAppends(w, bytes, prior, chunks[0], answers[0]);
      WritesAppend(Write(w, chunks[0], answers[0]).0, bytes + chunks[0], prior, chunks[1..], answers[1..]);
      Assoc(bytes, chunks[0], Concat(chunks[1..]));
    }
  }

  /** A writer at the start of a session, over the file's contents from there on, whatever an earlier
      session left behind. */
  predicate Fresh(w: Writer, prior: Bytes) {
    !w.pending.InFlight? && !w.abort && (if w.socket then w.sink == [] else w.sink == prior && w.offset == w.start)
  }

  /** The control block is static: it survives the end of a session, and the next one settles what it
      holds if its descriptor has the same number; else it is simply overwritten. */
  function NextSession(w: Writer, sameFd: bool, socket: bool, start: nat, prior: Bytes): (v: Writer)
    ensures Fresh(v, prior)
  {
    Writer(socket, start, if socket then [] else prior, start,
           if !sameFd || w.pending == Idle then Idle else if w.pending == Rejected then Rejected else Earlier, false)
  }

  /** If every write and the flush succeed, the sink holds exactly the chunks in order and a
      file's offset has advanced by their total length. */
  lemma FlushedSession(w: Writer, prior: Bytes, chunks: seq<Bytes>, answers: seq<Answer>, a: Answer)
    requires Fresh(w, prior) && |chunks| == |answers| && AllWritten(w, chunks, answers)
    requires Write(AfterWrites(w, chunks, answers), [], a).1
    ensures var v := Write(AfterWrites(w, chunks, answers), [], a).0;
      && v.pending == Idle && Landed(v, Concat(chunks), prior)
      && (!v.socket ==> v.offset == v.start + |Concat(chunks)|)
  {
    if w.pending == Rejected {
      RefusedForever(w, chunks, answers, a);
    }
    assert Written(w, [], prior);
    WritesAppend(w, [], prior, chunks, answers);
    assert [] + Concat(chunks) == Concat(chunks);
    WriteAppends(AfterWrites(w, chunks, answers), Concat(chunks), prior, [], a);
    assert Concat(chunks) + [] == Concat(chunks);
  }

  /** A request the kernel refused is never cleared: nothing is written, and nothing flushed, as long as
      descriptors have the same number. */
  lemma RefusedForever(w: Writer, chunks: seq<Bytes>, answers: seq<Answer>, a: Answer)
    requires w.pending == Rejected && |chunks| == |answers|
    ensures chunks != [] ==> !AllWritten(w, chunks, answers) && Write(w, chunks[0], answers[0]) == (w, false)
    ensures Write(w, [], a) == (w, false)
  {
  }

  /** Every answer good. */
  function AllGood(n: nat): (answers: seq<Answer>)
    ensures |answers| == n
  {
    seq(n, i => Answer(true, true))
  }

  lemma {:induction false} GoodAnswers(w: Writer, chunks: seq<Bytes>)
    requires w.pending != Rejected && !w.abort
    ensures AllWritten(w, chunks, AllGood(|chunks|))
    ensures AfterWrites(w, chunks, AllGood(|chunks|)).pending != Rejected
    decreases |chunks|
  {
    if chunks != [] {
      assert AllGood(|chunks|)[1..] == AllGood(|chunks| - 1);
      GoodAnswers(Write(w, chunks[0], Answer(true, true)).0, chunks[1..]);
    }
  }

  /** All chunks are written and flushed. */
  ghost predicate Succeeds(w: Writer, chunks: seq<Bytes>, answers: seq<Answer>, a: Answer) {
    |chunks| == |answers| && AllWritten(w, chunks, answers) && Write(AfterWrites(w, chunks, answers), [], a).1
  }

  /** Exactly when a session can succeed at all, over whatever an earlier one left in the control block:
      unless it is on a descriptor with the same number and was refused. */
  lemma SessionCanSucceed(w: Writer, sameFd: bool, socket: bool, start: nat, prior: Bytes, chunks: seq<Bytes>)
    ensures var v := NextSession(w, sameFd, socket, start, prior);
      (exists answers, a :: Succeeds(v, chunks, answers, a)) <==> !(sameFd && w.pending == Rejected)
  {
    var v := NextSession(w, sameFd, socket, start, prior);
    if v.pending == Rejected {
      forall answers, a
        ensures !Succeeds(v, chunks, answers, a)
      {
        if |chunks| == |answers| {
          RefusedForever(v, chunks, answers, a);
        }
      }
    } else {
      GoodAnswers(v, chunks);
      assert Succeeds(v, chunks, AllGood(|chunks|), Answer(true, true));
    }
  }

  // ------------------------------------------------------------------
  // The code

  /** The record laid out in a buffer: header, then as many bytes as it says. */
  function RecordIn(s: Bytes): Record
    requires |s| >= RECORD_HEADER && |s| >= RECORD_HEADER + FromLe32(s[4..8])
  {
    Record(FromLe16(s[..2]), FromLe16(s[2..4]), s[8..8 + FromLe32(s[4..8])])
  }

  lemma HeaderIn(s: Bytes)
    requires |s| >= RECORD_HEADER && FromLe32(s[4..8]) <= MAX_REC_DATA_SIZE
    requires |s| >= RECORD_HEADER + FromLe32(s[4..8])
    ensures RecordHeader(RecordIn(s)) == s[..8]
  {
    Le16Inverse(s[..2]);
    Le16Inverse(s[2..4]);
    Le32Inverse(s[4..8]);
    assert s[..2] + s[2..4] + s[4..8] == s[..8];
  }

  /** A prefix and what follows it. */
  lemma Joined(t: Bytes, i: nat, j: nat)
    requires i <= j <= |t|
    ensures t[..j] == t[..i] + t[i..j]
  {
  }

  /** A buffer whose tail has been padded is the encoding of its record. */
  lemma PaddedIsEncoded(s: Bytes, t: Bytes, n: nat)
    requires |s| >= RECORD_HEADER + n && n == FromLe32(s[4..8]) <= MAX_REC_DATA_SIZE
    requires t == s[..8 + n] + PADDING[..Padded(n) - n - 8]
    ensures t == Encode(RecordIn(s))
  {
    HeaderIn(s);
    Joined(s, 8, 8 + n);
  }

  class StateWriter {
    var socket: bool
    var start: nat
    var sink: Bytes
    var offset: nat
    var pending: Pending
    var abort: bool

    ghost function State(): Writer
      reads this
    {
      Writer(socket, start, sink, offset, pending, abort)
    }

    /** demu_start_migrate: a socket has no offset, a file starts where it stands. */
    constructor (socket: bool, start: nat, prior: Bytes)
      ensures State() == Writer(socket, start, if socket then [] else prior, start, Idle, false)
      ensures Fresh(State(), prior)
    {
      this.socket, this.start, offset := socket, start, start;
      sink := if socket then [] else prior;
      pending, abort := Idle, false;
    }

    /** demu_init_migrate and demu_start_migrate of a later session; the control block stays. */
    method Restart(sameFd: bool, socket: bool, start: nat, prior: Bytes)
      modifies this
      ensures State() == NextSession(old(State()), sameFd, socket, start, prior)
    {
      this.socket, this.start, offset := socket, start, start;
      sink := if socket then [] else prior;
      abort := false;
      if !sameFd {
        pending := Idle;
      } else if pending.InFlight? {
        pending := Earlier;
      }
    }

    method DoWrite(buffer: Bytes, a: Answer) returns (ok: bool)
      modifies this
      ensures (State(), ok) == Write(old(State()), buffer, a)
    {
      if pending != Idle {
        if pending == Rejected || !a.completes {
          return false;
        }
        if pending.InFlight? {
          sink := Put(Writer(socket, start, sink, offset, pending, abort), pending.data, pending.at);
        }
        pending := Idle;
      }
      if |buffer| == 0 {
        return true;
      }
      if abort {
        return false;
      }
      if !a.takes {
        pending := Rejected;
        return false;
      }
      pending := InFlight(buffer, if socket then 0 else offset);
      if !socket {
        offset := offset + |buffer|;
      }
      ok := true;
    }

    /** write_record: pad the buffer in place and write it. */
    method WriteRecord(buf: array<bv8>, a: Answer) returns (ok: bool)
      requires buf.Length >= RECORD_HEADER && FromLe32(buf[4..8]) <= MAX_REC_DATA_SIZE
      requires Padded(FromLe32(buf[4..8])) <= buf.Length
      modifies this, buf
      ensures (State(), ok) == Write(old(State()), Encode(RecordIn(old(buf[..]))), a)
    {
      ghost var s := buf[..];
      assert buf[4..8] == s[4..8];
      var length := FromLe32(buf[4..8]);
      var padded := RoundUp8(length + RECORD_HEADER);
      PadInPlace(buf, length, padded);
      PaddedIsEncoded(s, buf[..padded], length);
      ok := DoWrite(buf[..padded], a);
    }
  }

  /** The padding after a record of this length. */
  method PadInPlace(buf: array<bv8>, length: nat, padded: nat)
    requires padded == Padded(length) <= buf.Length
    modifies buf
    ensures buf[..padded] == old(buf[..RECORD_HEADER + length]) + PADDING[..padded - length - RECORD_HEADER]
  {
    ghost var head := buf[..RECORD_HEADER + length];
    var i := 0;
    while RECORD_HEADER + length + i < padded
      invariant 0 <= i <= padded - length - RECORD_HEADER
      invariant buf[..RECORD_HEADER + length + i] == head + PADDING[..i]
    {
      buf[RECORD_HEADER + length + i] := PADDING[i];
      i := i + 1;
      assert PADDING[..i] == PADDING[..i - 1] + [PADDING[i - 1]];
      assert buf[..RECORD_HEADER + length + i] == buf[..RECORD_HEADER + length + i - 1] + [PADDING[i - 1]];
    }
  }

  method CopyInto(buf: array<bv8>, at: nat, data: Bytes)
    requires at + |data| <= buf.Length
    modifies buf
    ensures buf[..at + |data|] == old(buf[..at]) + data
  {
    for k := 0 to |data|
      invariant buf[..at + k] == old(buf[..at]) + data[..k]
    {
      buf[at + k] := data[k];
      assert data[..k + 1] == data[..k] + [data[k]];
      assert buf[..at + k + 1] == buf[..at + k] + [data[k]];
    }
  }

  class StateReader {
    const input: Bytes
    var pos: nat

    ghost predicate Valid()
      reads this
    {
      pos <= |input|
    }

    constructor (input: Bytes)
      ensures Valid() && this.input == input && pos == 0
    {
      this.input := input;
      pos := 0;
    }

    /** do_read: reads come back short, in pieces of any size; without a device error it fails
        exactly at a premature end. */
    method DoRead(buf: array<bv8>, at: nat, count: nat, faulty: bool) returns (ok: bool)
      requires Valid() && at + count <= buf.Length
      modifies this, buf
      ensures Valid() && (ok ==> pos == old(pos) + count && buf[at..at + count] == input[old(pos)..pos])
      ensures !faulty ==> (ok <==> old(pos) + count <= |input|)
      ensures buf[..at] == old(buf[..at])
    {
      ghost var (from, head) := (pos, buf[..at]);
      var done := 0;
      while done < count
        invariant Valid() && done <= count && pos == from + done
        invariant buf[..at + done] == head + input[from..pos]
      {
        if pos == |input| {
          Split(buf[..at + done], head, input[from..pos]);
          return false;
        }
        var broken: bool := *;
        if faulty && broken {
          Split(buf[..at + done], head, input[from..pos]);
          return false;
        }
        var r: nat :| 1 <= r <= count - done && pos + r <= |input|;
        CopyInto(buf, at + done, input[pos..pos + r]);
        Adjacent(input, from, pos, pos + r);
        Assoc(head, input[from..pos], input[pos..pos + r]);
        done, pos := done + r, pos + r;
      }
      Split(buf[..at + done], head, input[from..pos]);
      ok := true;
    }

    /** A local variable read. */
    method ReadBytes(count: nat, faulty: bool) returns (ok: bool, s: Bytes)
      requires Valid()
      modifies this
      ensures Valid() && (ok ==> pos == old(pos) + count && s == input[old(pos)..pos])
      ensures !faulty ==> (ok <==> old(pos) + count <= |input|)
    {
      var buf := new bv8[count];
      ok := DoRead(buf, 0, count, faulty);
      s := buf[..];
      assert s == buf[0..count];
    }

    /** demu_read_header: identification, version and options, each read on its own. */
    method ReadHeader(faulty: bool) returns (ok: bool)
      requires Valid()
      modifies this
      ensures Valid() && (ok ==> Headed(input[old(pos)..]) && pos == old(pos) + HEADER_SIZE)
      ensures !faulty && !ok ==> !Headed(input[old(pos)..])
    {
      HeadedAt(input, pos);
      var ident, version, options;
      ok, ident := ReadBytes(8, faulty);
      if !ok || ident != IDENT {
        return false;
      }
      ok, version := ReadBytes(4, faulty);
      if !ok || FromLe32(version) != VERSION {
        return false;
      }
      ok, options := ReadBytes(4, faulty);
      ok := ok && FromLe32(options) == OPTIONS;
    }

    /** read_record: without a device error it succeeds exactly when a record can be parsed,
        and then the buffer holds that record and the stream stands after its padding. */
    method ReadRecord(buf: array<bv8>, faulty: bool) returns (ok: bool)
      requires Valid() && buf.Length == MAX_REC_SIZE
      modifies this, buf
      ensures Valid() && (!faulty ==> (ok <==> Parse(input[old(pos)..]).Parsed?))
      ensures ok ==>
          FromLe32(buf[4..8]) + RECORD_HEADER <= buf.Length
          && Parse(input[old(pos)..]) == Parsed(RecordIn(buf[..]), input[pos..])
    {
      ghost var s := input[pos..];
      ok := DoRead(buf, 0, RECORD_HEADER, faulty);
      if !ok {
        return;
      }
      assert buf[0..8] == s[..8] && buf[4..8] == buf[0..8][4..8];
      var length := FromLe32(buf[4..8]);
      assert length == FromLe32(s[4..8]);
      var padded := RoundUp8(length + RECORD_HEADER);
      if padded > MAX_REC_SIZE {
        return false;
      }
      ok := DoRead(buf, RECORD_HEADER, padded - RECORD_HEADER, faulty);
      InputSlices(input, old(pos), padded);
      if ok {
        BufferParsed(s, buf[..], padded);
      }
    }
  }

  /** The header's fields by their place in the stream. */
  lemma HeadedAt(input: Bytes, from: nat)
    requires from <= |input|
    ensures Headed(input[from..]) <==>
            from + 16 <= |input| && Expected(input[from..from + 8], input[from + 8..from + 12],
                                             input[from + 12..from + 16])
  {
    if from + 16 <= |input| {
      SliceOf(input, from, 0, 8);
      SliceOf(input, from, 8, 12);
      SliceOf(input, from, 12, 16);
    }
  }

  lemma SliceOf(s: Bytes, from: nat, i: nat, j: nat)
    requires i <= j && from + j <= |s|
    ensures s[from..][i..j] == s[from + i..from + j]
  {
  }

  lemma Split(s: Bytes, a: Bytes, b: Bytes)
    requires s == a + b
    ensures s[..|a|] == a && s[|a|..] == b
  {
  }

  lemma Adjacent(s: Bytes, i: nat, j: nat, k: nat)
    requires i <= j <= k <= |s|
    ensures s[i..j] + s[j..k] == s[i..k]
  {
  }

  lemma InputSlices(input: Bytes, from: nat, padded: nat)
    requires from <= |input| && padded >= RECORD_HEADER
    ensures from + padded <= |input| ==>
              && input[from + RECORD_HEADER..from + padded] == input[from..][RECORD_HEADER..padded]
              && input[from + padded..] == input[from..][padded..]
  {
  }

  /** A buffer holding the first bytes of the stream holds its first record. */
  lemma BufferParsed(s: Bytes, t: Bytes, padded: nat)
    requires RECORD_HEADER <= padded <= |s| && padded <= |t| && t[0..8] == s[..8] && t[8..padded] == s[8..padded]
    requires padded == Padded(FromLe32(s[4..8])) && padded <= MAX_REC_SIZE
    ensures FromLe32(t[4..8]) + RECORD_HEADER <= padded
    ensures Parse(s) == Parsed(RecordIn(t), s[padded..])
  {
    assert t[4..8] == t[0..8][4..8] == s[4..8];
    assert t[..2] == t[0..8][..2] == s[..2];
    assert t[2..4] == t[0..8][2..4] == s[2..4];
    var n := FromLe32(s[4..8]);
    assert t[8..8 + n] == t[8..padded][..n] == s[8..padded][..n] == s[8..8 + n];
  }
}
