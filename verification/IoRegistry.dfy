/** The I/O space registry of demu.c and the hypervisor's view of it: lists newest first, a
    range refused only if one of its endpoints is taken, and the ranges mapped at the
    hypervisor kept in step. */
module IoRegistry {
  /** `initialised`: the hypervisor has been told (io_init). */
  datatype Space = Space(start: nat, end: nat, initialised: bool)

  datatype Kind = PciConfig | Memory | Port

  datatype Range = Range(start: nat, end: nat)

  // ------------------------------------------------------------------
  // One list

  predicate Covers(sp: Space, addr: nat) {
    sp.start <= addr <= sp.end
  }

  /** Index of the first space that covers an address, or the length of the list. */
  function Find(es: seq<Space>, addr: nat): (i: nat)
    ensures i <= |es| && (i < |es| ==> Covers(es[i], addr))
    ensures forall j :: 0 <= j < i ==> !Covers(es[j], addr)
  {
    if es == [] then 0 else if Covers(es[0], addr) then 0 else 1 + Find(es[1..], addr)
  }

  /** Index of the first space that starts at an address, or the length of the list. */
  function FindStart(es: seq<Space>, start: nat): (i: nat)
    ensures i <= |es| && (i < |es| ==> es[i].start == start)
    ensures forall j :: 0 <= j < i ==> es[j].start != start
  {
    if es == [] then 0 else if es[0].start == start then 0 else 1 + FindStart(es[1..], start)
  }

  predicate Taken(es: seq<Space>, addr: nat) {
    Find(es, addr) < |es|
  }

  predicate Disjoint(a: Space, b: Space) {
    a.end < b.start || b.end < a.start
  }

  predicate StrictlyContains(outer: Space, inner: Space) {
    outer.start < inner.start && inner.end < outer.end
  }

  predicate Compatible(newer: Space, older: Space) {
    Disjoint(newer, older) || StrictlyContains(newer, older)
  }

  /** Any two ranges are disjoint, or the later one strictly contains the earlier. */
  ghost predicate Nested(es: seq<Space>) {
    && (forall i | 0 <= i < |es| :: es[i].start <= es[i].end)
    && (forall i, j | 0 <= i < j < |es| :: Compatible(es[i], es[j]))
  }

  /** The spaces the hypervisor has been told of are the newest ones. */
  ghost predicate InitialisedFirst(es: seq<Space>) {
    forall i, j | 0 <= i < j < |es| && es[j].initialised :: es[i].initialised
  }

  ghost predicate ListOk(es: seq<Space>) {
    Nested(es) && InitialisedFirst(es)
  }

  lemma StartsUnique(es: seq<Space>, i: nat, j: nat)
    requires Nested(es) && i < |es| && j < |es| && es[i].start == es[j].start
    ensures i == j
  {
  }

  /** A lookup reports the outermost of the ranges that hold the address. */
  lemma LookupIsOutermost(es: seq<Space>, addr: nat, j: nat)
    requires Nested(es) && j < |es| && Covers(es[j], addr)
    ensures Taken(es, addr) && Find(es, addr) <= j
    ensures Find(es, addr) != j ==> StrictlyContains(es[Find(es, addr)], es[j])
  {
    assert Find(es, addr) < j ==> Compatible(es[Find(es, addr)], es[j]);
  }

  lemma PrependNested(es: seq<Space>, sp: Space)
    requires Nested(es) && sp.start <= sp.end
    ensures Nested([sp] + es) <==> forall k | 0 <= k < |es| :: Compatible(sp, es[k])
  {
    var all := [sp] + es;
    if Nested(all) {
      forall k | 0 <= k < |es| ensures Compatible(sp, es[k]) {
        assert Compatible(all[0], all[k + 1]);
      }
    }
    if forall k | 0 <= k < |es| :: Compatible(sp, es[k]) {
      forall i, j | 0 <= i < j < |all|
        ensures Compatible(all[i], all[j])
      {
        assert all[j] == es[j - 1];
        assert i > 0 ==> all[i] == es[i - 1];
      }
    }
  }

  /** The endpoint test is exactly what keeps ranges disjoint or nested. */
  lemma EndpointsSuffice(es: seq<Space>, start: nat, end: nat, initialised: bool)
    requires Nested(es) && start <= end
    ensures Nested([Space(start, end, initialised)] + es) <==> !Taken(es, start) && !Taken(es, end)
  {
    var sp := Space(start, end, initialised);
    PrependNested(es, sp);
    assert Taken(es, start) ==> !Compatible(sp, es[Find(es, start)]);
    assert Taken(es, end) ==> !Compatible(sp, es[Find(es, end)]);
    assert forall k | 0 <= k < |es| && !Compatible(sp, es[k]) :: Covers(es[k], start) || Covers(es[k], end);
  }

  function Removed(es: seq<Space>, start: nat): (r: seq<Space>)
    requires FindStart(es, start) < |es|
    ensures |r| == |es| - 1
    ensures forall i | 0 <= i < |r| :: r[i] == es[if i < FindStart(es, start) then i else i + 1]
  {
    es[..FindStart(es, start)] + es[FindStart(es, start) + 1..]
  }

  lemma RemovedOk(es: seq<Space>, start: nat)
    requires ListOk(es) && FindStart(es, start) < |es|
    ensures ListOk(Removed(es, start))
  {
    var r := Removed(es, start);
    forall i, j | 0 <= i < j < |r|
      ensures Compatible(r[i], r[j])
      ensures r[j].initialised ==> r[i].initialised
    {
      var from := FindStart(es, start);
      assert r[i] == es[if i < from then i else i + 1] && r[j] == es[if j < from then j else j + 1];
    }
  }

  /** The ranges of a list, those the hypervisor has not been told of and those it has. */
  function Ranges(es: seq<Space>): set<Range> {
    set sp | sp in es :: Range(sp.start, sp.end)
  }

  function Untold(es: seq<Space>): set<Range> {
    set sp | sp in es && !sp.initialised :: Range(sp.start, sp.end)
  }

  function Told(es: seq<Space>): set<Range> {
    set sp | sp in es && sp.initialised :: Range(sp.start, sp.end)
  }

  // ------------------------------------------------------------------
  // One list beside what the hypervisor maps for it

  datatype Held = Held(spaces: seq<Space>, mapped: set<Range>)

  /** Refused if an endpoint is taken or memory is short; taken back if the hypervisor refuses. */
  predicate Accepted(h: Held, up: bool, start: nat, end: nat, alloc: bool, mapOk: bool) {
    !Taken(h.spaces, start) && !Taken(h.spaces, end) && alloc && (up ==> mapOk)
  }

  function Register(h: Held, up: bool, start: nat, end: nat, alloc: bool, mapOk: bool): Held {
    if !Accepted(h, up, start, end, alloc, mapOk) then h
    else Held([Space(start, end, up)] + h.spaces, if up then h.mapped + {Range(start, end)} else h.mapped)
  }

  /** The source asserts that a covered address is the start of a registered range. */
  predicate CanDeregister(h: Held, start: nat) {
    Taken(h.spaces, start) ==> FindStart(h.spaces, start) < |h.spaces|
  }

  /** Whether to unmap is read from the space found to cover the start, which is not always the
      one removed. */
  function Deregister(h: Held, start: nat): Held
    requires CanDeregister(h, start)
  {
    if !Taken(h.spaces, start) then h
    else
      Held(Removed(h.spaces, start),
           if h.spaces[Find(h.spaces, start)].initialised
           then h.mapped - {Range(start, h.spaces[FindStart(h.spaces, start)].end)} else h.mapped)
  }

  predicate Refused(sp: Space, accepts: Range -> bool) {
    !sp.initialised && !accepts(Range(sp.start, sp.end))
  }

  /** How far down a list, from its i-th space on, the hypervisor is told before it refuses. */
  function Reach(es: seq<Space>, accepts: Range -> bool, i: nat): (n: nat)
    requires i <= |es|
    ensures i <= n <= |es| && (n < |es| ==> Refused(es[n], accepts))
    ensures forall j | i <= j < n :: !Refused(es[j], accepts)
    decreases |es| - i
  {
    if i == |es| || Refused(es[i], accepts) then i else Reach(es, accepts, i + 1)
  }

  /** A list once its first n spaces have been told. */
  function ToldUpTo(es: seq<Space>, n: nat): (r: seq<Space>)
    requires n <= |es|
    ensures |r| == |es|
    ensures forall i | 0 <= i < |r| :: r[i] == if i < n then es[i].(initialised := true) else es[i]
  {
    seq(|es|, i requires 0 <= i < |es| => if i < n then es[i].(initialised := true) else es[i])
  }

  function EnableFirst(h: Held, n: nat): Held
    requires n <= |h.spaces|
  {
    Held(ToldUpTo(h.spaces, n), h.mapped + Untold(h.spaces[..n]))
  }

  /** One loop of enable_io. */
  function EnableList(h: Held, accepts: Range -> bool): Held {
    EnableFirst(h, Reach(h.spaces, accepts, 0))
  }

  predicate Enabled(h: Held) {
    forall i | 0 <= i < |h.spaces| :: h.spaces[i].initialised
  }

  /** The hypervisor maps just the ranges it has been told of: none before I/O is up. */
  ghost predicate Agrees(h: Held, up: bool) {
    && ListOk(h.spaces)
    && h.mapped == Told(h.spaces)
    && (!up ==> forall i | 0 <= i < |h.spaces| :: !h.spaces[i].initialised)
  }

  lemma RegisterAgrees(h: Held, up: bool, start: nat, end: nat, alloc: bool, mapOk: bool)
    requires Agrees(h, up) && start <= end
    ensures Agrees(Register(h, up, start, end, alloc, mapOk), up)
    ensures up && Enabled(h) ==> Enabled(Register(h, up, start, end, alloc, mapOk))
  {
    EndpointsSuffice(h.spaces, start, end, up);
    assert Told([Space(start, end, up)] + h.spaces)
        == Told(h.spaces) + if up then {Range(start, end)} else {};
  }

  /** Removing by start takes exactly one range out of those told of. */
  lemma RemovedTold(es: seq<Space>, start: nat, r: Range)
    requires ListOk(es) && FindStart(es, start) < |es|
    ensures r in Told(Removed(es, start)) <==> r in Told(es) && r.start != start
  {
    var at := FindStart(es, start);
    var rest := Removed(es, start);
    if r in Told(es) && r.start != start {
      var i :| 0 <= i < |es| && es[i].initialised && r == Range(es[i].start, es[i].end);
      assert rest[if i < at then i else i - 1] == es[i];
    }
    if r in Told(rest) {
      var i :| 0 <= i < |rest| && rest[i].initialised && r == Range(rest[i].start, rest[i].end);
      var from := if i < at then i else i + 1;
      assert rest[i] == es[from];
      if r.start == start {
        StartsUnique(es, from, at);
      }
    }
  }

  /** What has been told at a start is the range registered there, and then any newer range around
      it has been told too. */
  lemma OnlyToldAtStart(es: seq<Space>, start: nat, r: Range)
    requires ListOk(es) && FindStart(es, start) < |es| && r.start == start && r in Told(es)
    ensures r == Range(start, es[FindStart(es, start)].end)
    ensures Taken(es, start) && es[Find(es, start)].initialised
  {
    var i :| 0 <= i < |es| && es[i].initialised && r == Range(es[i].start, es[i].end);
    StartsUnique(es, i, FindStart(es, start));
    LookupIsOutermost(es, start, i);
  }

  /** The flag read is the wrong space's only when a newer range holds the start, and then it is
      set if the right one is. */
  lemma DeregisterAgrees(h: Held, up: bool, start: nat)
    requires Agrees(h, up) && CanDeregister(h, start)
    ensures Agrees(Deregister(h, start), up)
    ensures Enabled(h) ==> Enabled(Deregister(h, start))
  {
    var es, t := h.spaces, Deregister(h, start);
    if Taken(es, start) {
      RemovedOk(es, start);
      forall r: Range
        ensures r in t.mapped <==> r in Told(t.spaces)
      {
        RemovedTold(es, start, r);
        if r.start == start && r in Told(es) {
          OnlyToldAtStart(es, start, r);
        }
      }
    }
  }

  lemma ToldUpToOk(es: seq<Space>, n: nat)
    requires ListOk(es) && n <= |es|
    ensures ListOk(ToldUpTo(es, n))
    ensures Told(ToldUpTo(es, n)) == Told(es) + Untold(es[..n])
  {
    var r := ToldUpTo(es, n);
    forall i, j | 0 <= i < j < |r|
      ensures Compatible(r[i], r[j])
      ensures r[j].initialised ==> r[i].initialised
    {
      assert Compatible(es[i], es[j]);
    }
    forall x | x in Told(es) + Untold(es[..n])
      ensures x in Told(r)
    {
      var i :| 0 <= i < |es| && (es[i].initialised || i < n) && x == Range(es[i].start, es[i].end);
      assert r[i] in r;
    }
    forall x | x in Told(r)
      ensures x in Told(es) + Untold(es[..n])
    {
      var i :| 0 <= i < |r| && r[i].initialised && x == Range(r[i].start, r[i].end);
      assert i < n ==> es[..n][i] == es[i];
    }
  }

  /** The hypervisor and the list agree whether the loop gets to the end or is stopped. */
  lemma EnableListAgrees(h: Held, accepts: Range -> bool)
    requires Agrees(h, true)
    ensures Agrees(EnableList(h, accepts), true)
    ensures Enabled(h) ==> Enabled(EnableList(h, accepts))
  {
    ToldUpToOk(h.spaces, Reach(h.spaces, accepts, 0));
  }

  /** A lookup reports the most recent registration that holds the address: registering a range
      changes the answer exactly at its own addresses. */
  lemma LatestWins(h: Held, up: bool, start: nat, end: nat, alloc: bool, mapOk: bool, addr: nat)
    requires Accepted(h, up, start, end, alloc, mapOk)
    ensures var es, fs := h.spaces, Register(h, up, start, end, alloc, mapOk).spaces;
            && |fs| == |es| + 1
            && (start <= addr <= end ==> Find(fs, addr) == 0 && fs[0] == Space(start, end, up))
            && (!(start <= addr <= end) ==>
                  Taken(fs, addr) == Taken(es, addr)
                  && (Taken(es, addr) ==> fs[Find(fs, addr)] == es[Find(es, addr)]))
  {
    var es, fs := h.spaces, Register(h, up, start, end, alloc, mapOk).spaces;
    assert fs == [Space(start, end, up)] + es && fs[1..] == es;
  }

  lemma LinkedFirst(es: seq<Space>, sp: Space)
    requires sp.start <= sp.end
    ensures var fs := [sp] + es;
            Find(fs, sp.start) == 0 && FindStart(fs, sp.start) == 0 && Removed(fs, sp.start) == es
  {
    assert ([sp] + es)[1..] == es;
  }

  lemma NotYetTold(es: seq<Space>, start: nat, end: nat)
    requires Nested(es) && !Taken(es, start)
    ensures Range(start, end) !in Told(es)
  {
    forall i | 0 <= i < |es| ensures es[i].start != start {
      assert !Covers(es[i], start);
    }
  }

  /** A range registered and taken away again leaves no trace. */
  lemma RegisterDeregister(h: Held, up: bool, start: nat, end: nat)
    requires Agrees(h, up) && start <= end && Accepted(h, up, start, end, true, true)
    ensures var t := Register(h, up, start, end, true, true);
            CanDeregister(t, start) && Deregister(t, start) == h
  {
    LinkedFirst(h.spaces, Space(start, end, up));
    NotYetTold(h.spaces, start, end);
    var m := if up then h.mapped + {Range(start, end)} else h.mapped;
    assert (if up then m - {Range(start, end)} else m) == h.mapped;
  }

  // ------------------------------------------------------------------
  // The registry

  datatype Registry = Registry(pciConfig: Held, memory: Held, port: Held, ioUp: bool)

  function List(s: Registry, k: Kind): Held {
    match k case PciConfig => s.pciConfig case Memory => s.memory case Port => s.port
  }

  function WithList(s: Registry, k: Kind, h: Held): (t: Registry)
    ensures List(t, k) == h && t.ioUp == s.ioUp
    ensures forall o: Kind | o != k :: List(t, o) == List(s, o)
  {
    match k
    case PciConfig => s.(pciConfig := h)
    case Memory => s.(memory := h)
    case Port => s.(port := h)
  }

  /** enable_io: the three lists in turn, up to the first refusal. */
  function Enable(s: Registry, accepts: Kind -> Range -> bool): Registry {
    var p := EnableList(s.pciConfig, accepts(PciConfig));
    var a := s.(ioUp := true, pciConfig := p);
    if !Enabled(p) then a
    else
      var m := EnableList(s.memory, accepts(Memory));
      if !Enabled(m) then a.(memory := m)
      else a.(memory := m, port := EnableList(s.port, accepts(Port)))
  }

  datatype Op =
    | DoRegister(k: Kind, start: nat, end: nat, alloc: bool, mapOk: bool)
    | DoDeregister(k: Kind, start: nat)
    | DoEnable(accepts: Kind -> Range -> bool)

  /** Ranges do not wrap, and what is deregistered was registered. */
  predicate OpOk(s: Registry, op: Op) {
    match op
    case DoRegister(_, start, end, _, _) => start <= end
    case DoDeregister(k, start) => CanDeregister(List(s, k), start)
    case DoEnable(_) => true
  }

  function Step(s: Registry, op: Op): Registry
    requires OpOk(s, op)
  {
    match op
    case DoRegister(k, start, end, alloc, mapOk) =>
      WithList(s, k, Register(List(s, k), s.ioUp, start, end, alloc, mapOk))
    case DoDeregister(k, start) => WithList(s, k, Deregister(List(s, k), start))
    case DoEnable(accepts) => Enable(s, accepts)
  }

  predicate RunOk(s: Registry, ops: seq<Op>)
    decreases |ops|
  {
    |ops| == 0 || (OpOk(s, ops[0]) && RunOk(Step(s, ops[0]), ops[1..]))
  }

  function Run(s: Registry, ops: seq<Op>): Registry
    requires RunOk(s, ops)
    decreases |ops|
  {
    if |ops| == 0 then s else Run(Step(s, ops[0]), ops[1..])
  }

  function Initial(): Registry {
    Registry(Held([], {}), Held([], {}), Held([], {}), false)
  }

  ghost predicate Inv(s: Registry) {
    forall k: Kind :: Agrees(List(s, k), s.ioUp)
  }

  ghost predicate AllEnabled(s: Registry) {
    s.ioUp && forall k: Kind :: Enabled(List(s, k))
  }

  lemma EnableAgrees(s: Registry, accepts: Kind -> Range -> bool)
    requires Inv(s)
    ensures Inv(Enable(s, accepts))
    ensures AllEnabled(s) ==> AllEnabled(Enable(s, accepts))
  {
    forall k: Kind
      ensures Agrees(List(s, k), true) && Agrees(EnableList(List(s, k), accepts(k)), true)
      ensures Enabled(List(s, k)) ==> Enabled(EnableList(List(s, k), accepts(k)))
    {
      assert Agrees(List(s, k), s.ioUp);
      EnableListAgrees(List(s, k), accepts(k));
    }
    EnableLists(s, accepts);
    if AllEnabled(s) {
      assert Enabled(List(s, PciConfig)) && Enabled(List(s, Memory));
    }
  }

  lemma EnableLists(s: Registry, accepts: Kind -> Range -> bool)
    ensures var t := Enable(s, accepts);
            forall k: Kind :: List(t, k) == List(s, k) || List(t, k) == EnableList(List(s, k), accepts(k))
  {
  }

  lemma StepAgrees(s: Registry, op: Op)
    requires Inv(s) && OpOk(s, op)
    ensures Inv(Step(s, op))
    ensures AllEnabled(s) ==> AllEnabled(Step(s, op))
  {
    match op
    case DoRegister(k, start, end, alloc, mapOk) => RegisterAgrees(List(s, k), s.ioUp, start, end, alloc, mapOk);
    case DoDeregister(k, start) => DeregisterAgrees(List(s, k), s.ioUp, start);
    case DoEnable(accepts) => EnableAgrees(s, accepts);
  }

  lemma {:induction false} RunAgrees(s: Registry, ops: seq<Op>)
    requires Inv(s) && RunOk(s, ops)
    ensures Inv(Run(s, ops))
    ensures AllEnabled(s) ==> AllEnabled(Run(s, ops))
    decreases |ops|
  {
    if |ops| != 0 {
      StepAgrees(s, ops[0]);
      RunAgrees(Step(s, ops[0]), ops[1..]);
    }
  }

  /** In every reachable state ranges of a kind start at different addresses and are disjoint or
      nested the later around the earlier, and the hypervisor maps just those it was told of. */
  lemma ReachableRegistry(ops: seq<Op>, k: Kind)
    requires RunOk(Initial(), ops)
    ensures var h := List(Run(Initial(), ops), k);
            && Agrees(h, Run(Initial(), ops).ioUp)
            && forall i, j | 0 <= i < j < |h.spaces| ::
                 h.spaces[i].start != h.spaces[j].start && Compatible(h.spaces[i], h.spaces[j])
  {
    RunAgrees(Initial(), ops);
    var h := List(Run(Initial(), ops), k);
    forall i, j | 0 <= i < j < |h.spaces|
      ensures h.spaces[i].start != h.spaces[j].start && Compatible(h.spaces[i], h.spaces[j])
    {
      assert Compatible(h.spaces[i], h.spaces[j]);
    }
  }

  /** Once enable_io has got through all three lists, the hypervisor maps exactly the registered
      ranges, whatever is registered, refused or deregistered later. */
  lemma MappedIsRegistered(before: seq<Op>, accepts: Kind -> Range -> bool, after: seq<Op>, k: Kind)
    requires RunOk(Initial(), before)
    requires AllEnabled(Enable(Run(Initial(), before), accepts))
    requires RunOk(Enable(Run(Initial(), before), accepts), after)
    ensures var h := List(Run(Enable(Run(Initial(), before), accepts), after), k);
            h.mapped == Ranges(h.spaces)
  {
    RunAgrees(Initial(), before);
    EnableAgrees(Run(Initial(), before), accepts);
    RunAgrees(Enable(Run(Initial(), before), accepts), after);
    var t := Run(Enable(Run(Initial(), before), accepts), after);
    assert Agrees(List(t, k), t.ioUp) && Enabled(List(t, k));
  }

  // ------------------------------------------------------------------
  // The registry in place

  /** One turn of a loop of enable_io. */
  lemma EnableNext(h: Held, i: nat)
    requires i < |h.spaces|
    ensures var sp, t := h.spaces[i], EnableFirst(h, i);
            EnableFirst(h, i + 1) == (
              if sp.initialised then t
              else Held(t.spaces[i := sp.(initialised := true)], t.mapped + {Range(sp.start, sp.end)}))
  {
    assert h.spaces[..i + 1] == h.spaces[..i] + [h.spaces[i]];
    assert h.spaces[i].initialised ==> h.spaces[i].(initialised := true) == h.spaces[i];
  }

  method FindSpace(es: seq<Space>, addr: nat) returns (i: nat)
    ensures i == Find(es, addr)
  {
    i := 0;
    while i < |es|
      invariant i <= |es| && Find(es, addr) == i + Find(es[i..], addr)
    {
      if Covers(es[i], addr) {
        return;
      }
      i := i + 1;
    }
  }

  method FindByStart(es: seq<Space>, start: nat) returns (i: nat)
    ensures i == FindStart(es, start)
  {
    i := 0;
    while i < |es|
      invariant i <= |es| && FindStart(es, start) == i + FindStart(es[i..], start)
    {
      if es[i].start == start {
        return;
      }
      i := i + 1;
    }
  }

  /** One list of spaces. `mapped` stands for what the hypervisor holds. */
  class SpaceList {
    var spaces: seq<Space>
    var mapped: set<Range>

    function State(): Held
      reads this
    {
      Held(spaces, mapped)
    }

    constructor ()
      ensures State() == Held([], {})
    {
      spaces, mapped := [], {};
    }

    method Unlink(start: nat) returns (end: nat)
      requires FindStart(spaces, start) < |spaces|
      modifies this`spaces
      ensures spaces == Removed(old(spaces), start)
      ensures end == old(spaces)[FindStart(old(spaces), start)].end
    {
      var i := FindByStart(spaces, start);
      end := spaces[i].end;
      spaces := spaces[..i] + spaces[i + 1..];
    }

    /** The space is linked in before the hypervisor is asked, and unlinked if it refuses. */
    method Add(up: bool, start: nat, end: nat, alloc: bool, mapOk: bool) returns (ok: bool)
      modifies this
      ensures ok == Accepted(old(State()), up, start, end, alloc, mapOk)
      ensures State() == Register(old(State()), up, start, end, alloc, mapOk)
    {
      var i := FindSpace(spaces, start);
      var j := FindSpace(spaces, end);
      if i < |spaces| || j < |spaces| || !alloc {
        return false;
      }
      spaces := [Space(start, end, false)] + spaces;
      if up {
        if !mapOk {
          var _ := Unlink(start);
          assert spaces == old(spaces);
          return false;
        }
        spaces := spaces[0 := spaces[0].(initialised := true)];
        mapped := mapped + {Range(start, end)};
      }
      return true;
    }

    method Remove(start: nat)
      requires CanDeregister(State(), start)
      modifies this
      ensures State() == Deregister(old(State()), start)
    {
      var i := FindSpace(spaces, start);
      if i == |spaces| {
        return;
      }
      var initialised := spaces[i].initialised;
      var end := Unlink(start);
      if initialised {
        mapped := mapped - {Range(start, end)};
      }
    }

    method EnableAll(accepts: Range -> bool) returns (ok: bool)
      modifies this
      ensures State() == EnableList(old(State()), accepts)
      ensures ok == Enabled(State())
    {
      ghost var h := State();
      var i := 0;
      while i < |spaces|
        invariant i <= |h.spaces| && State() == EnableFirst(h, i)
        invariant Reach(h.spaces, accepts, i) == Reach(h.spaces, accepts, 0)
      {
        EnableNext(h, i);
        if !spaces[i].initialised {
          if !accepts(Range(spaces[i].start, spaces[i].end)) {
            return false;
          }
          mapped := mapped + {Range(spaces[i].start, spaces[i].end)};
          spaces := spaces[i := spaces[i].(initialised := true)];
        }
        i := i + 1;
      }
      return true;
    }
  }

  class IoSpaces {
    const pciConfig: SpaceList
    const memory: SpaceList
    const port: SpaceList
    var ioUp: bool

    ghost predicate Valid() {
      pciConfig != memory && memory != port && pciConfig != port
    }

    function State(): Registry
      reads this, pciConfig, memory, port
    {
      Registry(pciConfig.State(), memory.State(), port.State(), ioUp)
    }

    constructor ()
      ensures Valid() && fresh(pciConfig) && fresh(memory) && fresh(port)
      ensures State() == Initial()
    {
      pciConfig := new SpaceList();
      memory := new SpaceList();
      port := new SpaceList();
      ioUp := false;
    }

    function Chosen(k: Kind): SpaceList {
      match k case PciConfig => pciConfig case Memory => memory case Port => port
    }

    method RegisterSpace(k: Kind, start: nat, end: nat, alloc: bool, mapOk: bool) returns (ok: bool)
      requires Valid() && start <= end
      modifies Chosen(k)
      ensures ok == Accepted(List(old(State()), k), ioUp, start, end, alloc, mapOk)
      ensures State() == Step(old(State()), DoRegister(k, start, end, alloc, mapOk))
    {
      ok := Chosen(k).Add(ioUp, start, end, alloc, mapOk);
    }

    method DeregisterSpace(k: Kind, start: nat)
      requires Valid() && CanDeregister(List(State(), k), start)
      modifies Chosen(k)
      ensures State() == Step(old(State()), DoDeregister(k, start))
    {
      Chosen(k).Remove(start);
    }

    method EnableIo(accepts: Kind -> Range -> bool) returns (ok: bool)
      requires Valid()
      modifies this, pciConfig, memory, port
      ensures State() == Enable(old(State()), accepts)
      ensures ok <==> AllEnabled(State())
    {
      ioUp := true;
      ok := pciConfig.EnableAll(accepts(PciConfig));
      if !ok {
        assert !Enabled(List(State(), PciConfig));
        return;
      }
      ok := memory.EnableAll(accepts(Memory));
      if !ok {
        assert !Enabled(List(State(), Memory));
        return;
      }
      ok := port.EnableAll(accepts(Port));
      assert Enabled(List(State(), Port)) == ok;
    }
  }
}
