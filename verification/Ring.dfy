/** The buffered I/O request ring (demu_poll_buffered_iopage): the hypervisor produces while the
    emulator consumes, over 511 slots, with requests of one slot or two. */
module Ring {
  const SLOTS: nat := 511
  const HALF: nat := 0x1_0000_0000

  /** buf_ioreq_t: `size` is the logarithm of the width, `data` 32 bits. */
  datatype Slot = Slot(size: nat, addr: nat, data: nat, dir: bool, kind: nat)

  /** A request as the device sees it. */
  datatype Request = Request(width: nat, addr: nat, data: nat, dir: bool, kind: nat) {
    predicate Wf() {
      (width == 1 || width == 2 || width == 4 || width == 8) && data < (if width == 8 then HALF * HALF else HALF)
    }
  }

  function SizeOf(width: nat): nat {
    if width == 1 then 0 else if width == 2 then 1 else if width == 4 then 2 else 3
  }

  /** The slots of a request: an eight-byte one carries its upper half in a second slot. */
  function SlotsOf(r: Request): (s: seq<Slot>)
    ensures 1 <= |s| <= 2 && (|s| == 2 <==> r.width == 8)
  {
    if r.width == 8 then [Slot(3, r.addr, r.data % HALF, r.dir, r.kind), Slot(3, r.addr, r.data / HALF, r.dir, r.kind)]
    else [Slot(SizeOf(r.width), r.addr, r.data, r.dir, r.kind)]
  }

  /** 1 << size */
  function Width(size: nat): nat {
    if size == 0 then 1 else 2 * Width(size - 1)
  }

  /** The request the consumer puts together from a slot and, for eight bytes, the next. */
  function Assemble(first: Slot, second: Slot): Request {
    Request(Width(first.size), first.addr,
            if Width(first.size) == 8 then first.data + HALF * second.data else first.data,
            first.dir, first.kind)
  }

  lemma AssembleSlots(r: Request, next: Slot)
    requires r.Wf()
    ensures Assemble(SlotsOf(r)[0], if r.width == 8 then SlotsOf(r)[1] else next) == r
  {
    assert Width(0) == 1 && Width(1) == 2 && Width(2) == 4 && Width(3) == 8;
  }

  /** Everything produced, slot by slot. */
  function Flat(rs: seq<Request>): seq<Slot> {
    if rs == [] then [] else Flat(rs[..|rs| - 1]) + SlotsOf(rs[|rs| - 1])
  }

  lemma {:induction false} FlatPrefix(rs: seq<Request>, k: nat)
    requires k <= |rs|
    ensures Flat(rs[..k]) <= Flat(rs)
    ensures k < |rs| ==> Flat(rs[..k]) + SlotsOf(rs[k]) <= Flat(rs)
    decreases |rs|
  {
    if k == |rs| {
      assert rs[..k] == rs;
    } else if k == |rs| - 1 {
    } else {
      FlatPrefix(rs[..|rs| - 1], k);
      assert rs[..|rs| - 1][..k] == rs[..k];
    }
  }

  // ------------------------------------------------------------------
  // The two sides as steps

  /** `cursor` and `target` are the consumer's local copies while `scanning`. */
  datatype State = State(ring: seq<Slot>, readPtr: nat, writePtr: nat, scanning: bool, cursor: nat, target: nat,
                         produced: seq<Request>, handled: seq<Request>)

  function Store(ring: seq<Slot>, p: nat, slots: seq<Slot>): (r: seq<Slot>)
    requires |ring| == SLOTS && 1 <= |slots| <= 2
    ensures |r| == SLOTS
  {
    var one := ring[p % SLOTS := slots[0]];
    if |slots| == 2 then one[(p + 1) % SLOTS := slots[1]] else one
  }

  /** The producer never overruns the published read pointer. */
  predicate HasRoom(s: State, r: Request) {
    s.writePtr + |SlotsOf(r)| <= s.readPtr + SLOTS
  }

  /** Both slots of an eight-byte request are published together. */
  function Publish(s: State, r: Request): State
    requires |s.ring| == SLOTS
  {
    s.(ring := Store(s.ring, s.writePtr, SlotsOf(r)), writePtr := s.writePtr + |SlotsOf(r)|,
       produced := s.produced + [r])
  }

  /** The consumer reads both pointers. */
  function Look(s: State): State {
    s.(scanning := s.readPtr != s.writePtr, cursor := s.readPtr, target := s.writePtr)
  }

  /** The consumer handles the request at its cursor. */
  function Take(s: State): State
    requires |s.ring| == SLOTS
  {
    var first := s.ring[s.cursor % SLOTS];
    var r := Assemble(first, s.ring[(s.cursor + 1) % SLOTS]);
    s.(cursor := s.cursor + (if Width(first.size) == 8 then 2 else 1), handled := s.handled + [r])
  }

  /** The consumer publishes how far it has read. */
  function Release(s: State): State {
    s.(readPtr := s.cursor, scanning := false)
  }

  datatype Step = Produce(r: Request) | ReadPointers | HandleNext | PublishRead

  predicate StepOk(s: State, st: Step) {
    && |s.ring| == SLOTS
    && match st
       case Produce(r) => r.Wf() && HasRoom(s, r)
       case ReadPointers => !s.scanning
       case HandleNext => s.scanning && s.cursor != s.target
       case PublishRead => s.scanning && s.cursor == s.target
  }

  function Next(s: State, st: Step): State
    requires StepOk(s, st)
  {
    match st
    case Produce(r) => Publish(s, r)
    case ReadPointers => Look(s)
    case HandleNext => Take(s)
    case PublishRead => Release(s)
  }

  ghost predicate RunOk(s: State, sts: seq<Step>)
    decreases |sts|
  {
    sts == [] || (StepOk(s, sts[0]) && RunOk(Next(s, sts[0]), sts[1..]))
  }

  function Run(s: State, sts: seq<Step>): State
    requires RunOk(s, sts)
    decreases |sts|
  {
    if sts == [] then s else Run(Next(s, sts[0]), sts[1..])
  }

  function Initial(ring: seq<Slot>): State {
    State(ring, 0, 0, false, 0, 0, [], [])
  }

  // ------------------------------------------------------------------
  // Invariant

  /** Where the consumer stands. */
  function Cursor(s: State): nat {
    if s.scanning then s.cursor else s.readPtr
  }

  /** The first k requests fill exactly the first p slots. */
  predicate Boundary(rs: seq<Request>, k: nat, p: nat) {
    k <= |rs| && |Flat(rs[..k])| == p
  }

  /** No slot from p on has been overwritten. */
  ghost predicate Intact(s: State, p: nat)
    requires |s.ring| == SLOTS && |Flat(s.produced)| == s.writePtr
  {
    forall i | p <= i < s.writePtr :: s.ring[i % SLOTS] == Flat(s.produced)[i]
  }

  ghost predicate Inv(s: State) {
    && |s.ring| == SLOTS && |Flat(s.produced)| == s.writePtr
    && (forall r | r in s.produced :: r.Wf())
    && s.readPtr <= Cursor(s) <= s.writePtr <= s.readPtr + SLOTS
    && Intact(s, s.readPtr)
    && s.handled <= s.produced && Boundary(s.produced, |s.handled|, Cursor(s))
    && (s.scanning ==>
        s.cursor <= s.target <= s.writePtr
        && exists k :: |s.handled| <= k && Boundary(s.produced, k, s.target))
  }

  lemma SlotsDistinct(i: nat, j: nat)
    requires i < j < i + SLOTS
    ensures i % SLOTS != j % SLOTS
  {
  }

  lemma ProduceKeepsInv(s: State, r: Request)
    requires Inv(s) && r.Wf() && HasRoom(s, r)
    ensures Inv(Publish(s, r))
  {
    var t := Publish(s, r);
    assert t.produced[..|s.produced|] == s.produced;
    assert Flat(t.produced) == Flat(s.produced) + SlotsOf(r);
    assert forall k | 0 <= k <= |s.produced| :: t.produced[..k] == s.produced[..k];
    if s.scanning {
      var k :| |s.handled| <= k && Boundary(s.produced, k, s.target);
      assert Boundary(t.produced, k, t.target);
    }
    forall i | s.readPtr <= i < t.writePtr
      ensures t.ring[i % SLOTS] == Flat(t.produced)[i]
    {
      StoredAt(s, r, i);
    }
  }

  lemma StoredAt(s: State, r: Request, i: nat)
    requires Inv(s) && HasRoom(s, r) && s.readPtr <= i < s.writePtr + |SlotsOf(r)|
    ensures Store(s.ring, s.writePtr, SlotsOf(r))[i % SLOTS] == (Flat(s.produced) + SlotsOf(r))[i]
  {
    var w := s.writePtr;
    if i < w {
      SlotsDistinct(i, w);
      if |SlotsOf(r)| == 2 {
        SlotsDistinct(i, w + 1);
      }
    } else if i == w && |SlotsOf(r)| == 2 {
      SlotsDistinct(w, w + 1);
    }
  }

  lemma LookKeepsInv(s: State)
    requires Inv(s) && !s.scanning
    ensures Inv(Look(s))
  {
    assert s.produced[..|s.produced|] == s.produced;
    assert Boundary(s.produced, |s.produced|, s.writePtr);
  }

  /** The slots at the cursor are those of the next request produced. */
  lemma NextSlots(s: State)
    requires Inv(s) && s.scanning && s.cursor != s.target
    ensures |s.handled| < |s.produced|
    ensures var r := s.produced[|s.handled|];
      && r.Wf() && s.ring[s.cursor % SLOTS] == SlotsOf(r)[0]
      && (r.width == 8 ==> s.ring[(s.cursor + 1) % SLOTS] == SlotsOf(r)[1])
  {
    var n := |s.handled|;
    var k :| n <= k && Boundary(s.produced, k, s.target);
    var r := s.produced[n];
    FlatPrefix(s.produced, n);
    assert Flat(s.produced)[s.cursor] == SlotsOf(r)[0];
    if r.width == 8 {
      assert Flat(s.produced)[s.cursor + 1] == SlotsOf(r)[1];
    }
  }

  lemma Widths(r: Request)
    requires r.Wf()
    ensures Width(SlotsOf(r)[0].size) == r.width
  {
    assert Width(0) == 1 && Width(1) == 2 && Width(2) == 4 && Width(3) == 8;
  }

  /** The request at the cursor is the next one produced. */
  lemma TakesNext(s: State)
    requires Inv(s) && s.scanning && s.cursor != s.target
    ensures var n := |s.handled|;
      && n < |s.produced| && Take(s).handled == s.produced[..n + 1]
      && Take(s).cursor == s.cursor + |SlotsOf(s.produced[n])|
  {
    NextSlots(s);
    var n := |s.handled|;
    Widths(s.produced[n]);
    AssembleSlots(s.produced[n], s.ring[(s.cursor + 1) % SLOTS]);
    assert s.produced[..n + 1] == s.produced[..n] + [s.produced[n]];
  }

  /** A boundary at or past the next request leaves room for all of it. */
  lemma BoundaryAhead(rs: seq<Request>, n: nat, k: nat)
    requires n < k <= |rs|
    ensures |Flat(rs[..n])| + |SlotsOf(rs[n])| == |Flat(rs[..n + 1])| <= |Flat(rs[..k])|
  {
    assert rs[..n + 1][..n] == rs[..n];
    FlatPrefix(rs[..k], n + 1);
    assert rs[..k][..n + 1] == rs[..n + 1];
  }

  lemma TakeKeepsInv(s: State)
    requires Inv(s) && s.scanning && s.cursor != s.target
    ensures Inv(Take(s)) && Take(s).cursor <= s.target
  {
    var n := |s.handled|;
    var k :| n <= k && Boundary(s.produced, k, s.target);
    TakesNext(s);
    BoundaryAhead(s.produced, n, k);
    var t := Take(s);
    assert |t.handled| <= k && Boundary(t.produced, k, t.target);
  }

  lemma StepKeepsInv(s: State, st: Step)
    requires Inv(s) && StepOk(s, st)
    ensures Inv(Next(s, st))
  {
    match st
    case Produce(r) => ProduceKeepsInv(s, r);
    case ReadPointers => LookKeepsInv(s);
    case HandleNext => TakeKeepsInv(s);
    case PublishRead =>
  }

  lemma {:induction false} RunKeepsInv(s: State, sts: seq<Step>)
    requires Inv(s) && RunOk(s, sts)
    ensures Inv(Run(s, sts))
    decreases |sts|
  {
    if sts != [] {
      StepKeepsInv(s, sts[0]);
      RunKeepsInv(Next(s, sts[0]), sts[1..]);
    }
  }

  /** Against any producer that never overruns the published read pointer: what has been handled
      is what was produced, each request once, in order, with its data; no slot still to be read
      has been overwritten; and each pass of the inner loop comes closer to its target without
      passing it. */
  lemma HandledInOrder(ring: seq<Slot>, sts: seq<Step>)
    requires |ring| == SLOTS && RunOk(Initial(ring), sts)
    ensures var s := Run(Initial(ring), sts);
      && s.handled <= s.produced
      && |s.ring| == SLOTS && |Flat(s.produced)| == s.writePtr && Intact(s, Cursor(s))
      && (s.readPtr == s.writePtr ==> s.handled == s.produced)
      && (s.scanning && s.cursor != s.target ==> s.cursor < Take(s).cursor <= s.target)
  {
    RunKeepsInv(Initial(ring), sts);
    var s := Run(Initial(ring), sts);
    if s.readPtr == s.writePtr {
      AllHandled(s);
    }
    if s.scanning && s.cursor != s.target {
      TakeKeepsInv(s);
      TakesNext(s);
    }
  }

  lemma AllHandled(s: State)
    requires Inv(s) && s.readPtr == s.writePtr
    ensures s.handled == s.produced
  {
    var n := |s.handled|;
    if n < |s.produced| {
      FlatPrefix(s.produced, n);
      assert false;
    }
  }

  // ------------------------------------------------------------------
  // The code

  ghost predicate AllWf(rs: seq<Request>) {
    forall r | r in rs :: r.Wf()
  }

  class Page {
    const slots: array<Slot>
    var readPointer: nat
    var writePointer: nat
    /** What the emulator has been given to handle. */
    var handled: seq<Request>
    ghost var produced: seq<Request>

    ghost function StateOf(scanning: bool, cursor: nat, target: nat): State
      reads this, slots
    {
      State(slots[..], readPointer, writePointer, scanning, cursor, target, produced, handled)
    }

    constructor ()
      ensures Inv(StateOf(false, 0, 0)) && fresh(slots) && handled == []
    {
      slots := new Slot[SLOTS](_ => Slot(0, 0, 0, false, 0));
      readPointer, writePointer, handled, produced := 0, 0, [], [];
    }

    method StoreSlots(words: seq<Slot>)
      requires slots.Length == SLOTS && 1 <= |words| <= 2
      modifies slots
      ensures slots[..] == Store(old(slots[..]), writePointer, words)
    {
      slots[writePointer % SLOTS] := words[0];
      if |words| == 2 {
        slots[(writePointer + 1) % SLOTS] := words[1];
      }
    }

    /** The hypervisor publishes a request, if there is room. */
    method TryPublish(r: Request, ghost scanning: bool, ghost cursor: nat, ghost target: nat) returns (done: bool)
      requires r.Wf() && Inv(StateOf(scanning, cursor, target))
      modifies this`writePointer, this`produced, slots
      ensures Inv(StateOf(scanning, cursor, target))
      ensures done ==> produced == old(produced) + [r]
      ensures !done ==> StateOf(scanning, cursor, target) == old(StateOf(scanning, cursor, target))
    {
      ghost var s := StateOf(scanning, cursor, target);
      var words := SlotsOf(r);
      if writePointer + |words| > readPointer + SLOTS {
        return false;
      }
      ProduceKeepsInv(s, r);
      StoreSlots(words);
      writePointer := writePointer + |words|;
      produced := produced + [r];
      assert StateOf(scanning, cursor, target) == Publish(s, r);
      done := true;
    }

    /** Between any two accesses of the consumer the hypervisor may publish some of what it has. */
    method Interfere(coming: seq<Request>, ghost scanning: bool, ghost cursor: nat, ghost target: nat)
      returns (rest: seq<Request>)
      requires AllWf(coming) && Inv(StateOf(scanning, cursor, target))
      modifies this`writePointer, this`produced, slots
      ensures Inv(StateOf(scanning, cursor, target)) && AllWf(rest) && |rest| <= |coming|
      ensures produced + rest == old(produced) + coming
      ensures |rest| == |coming| ==> writePointer == old(writePointer)
      decreases |coming|
    {
      var go: bool := *;
      if !go || coming == [] {
        return coming;
      }
      var done := TryPublish(coming[0], scanning, cursor, target);
      if !done {
        return coming;
      }
      assert produced + coming[1..] == old(produced) + coming;
      rest := Interfere(coming[1..], scanning, cursor, target);
    }

    /** demu_poll_buffered_iopage against a hypervisor that still has `coming` to publish: it
        returns having handled everything published. */
    method Poll(coming: seq<Request>) returns (rest: seq<Request>)
      requires AllWf(coming) && Inv(StateOf(false, 0, 0))
      modifies this, slots
      ensures Inv(StateOf(false, 0, 0)) && handled == produced && produced + rest == old(produced) + coming
    {
      rest := coming;
      while true
        invariant Inv(StateOf(false, 0, 0)) && AllWf(rest) && produced + rest == old(produced) + coming
        decreases |rest|, writePointer - readPointer
      {
        rest := Interfere(rest, false, 0, 0);
        LookKeepsInv(StateOf(false, 0, 0));
        var cursor, target := readPointer, writePointer;
        if cursor == target {
          AllHandled(StateOf(false, 0, 0));
          return;
        }
        rest := Drain(rest, cursor, target);
      }
    }

    /** The inner loop and the publication of the read pointer. */
    method Drain(coming: seq<Request>, start: nat, target: nat) returns (rest: seq<Request>)
      requires AllWf(coming) && start == readPointer && start < target && Inv(StateOf(true, start, target))
      modifies this, slots
      ensures Inv(StateOf(false, 0, 0)) && AllWf(rest) && |rest| <= |coming|
      ensures produced + rest == old(produced) + coming && readPointer == target
      ensures |rest| == |coming| ==> writePointer == old(writePointer)
    {
      rest := coming;
      var cursor := start;
      while cursor != target
        invariant Inv(StateOf(true, cursor, target)) && AllWf(rest) && |rest| <= |coming|
        invariant produced + rest == old(produced) + coming && cursor <= target && readPointer == start
        invariant |rest| == |coming| ==> writePointer == old(writePointer)
        decreases target - cursor
      {
        rest := Interfere(rest, true, cursor, target);
        cursor := HandleOne(cursor, target);
      }
      readPointer := cursor;
    }

    method HandleOne(at: nat, ghost target: nat) returns (cursor: nat)
      requires at != target && Inv(StateOf(true, at, target))
      modifies this`handled
      ensures Inv(StateOf(true, cursor, target)) && at < cursor <= target
    {
      ghost var s := StateOf(true, at, target);
      TakeKeepsInv(s);
      TakesNext(s);
      var first := slots[at % SLOTS];
      handled := handled + [Assemble(first, slots[(at + 1) % SLOTS])];
      cursor := at + if Width(first.size) == 8 then 2 else 1;
      assert first == s.ring[at % SLOTS] && handled == s.handled + [Assemble(first, s.ring[(at + 1) % SLOTS])];
      assert StateOf(true, cursor, target) == Take(s);
    }
  }
}
