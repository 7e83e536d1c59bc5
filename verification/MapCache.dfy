/** The guest-page mapping cache of mapcache.c: 32 buckets of 32 entries, each
    entry stamped with an epoch and replaced least-recently-used first.

    The process's address space (what xc_map_foreign_pages and munmap act on) is
    modelled by `Space`, which numbers every mapping ever obtained. */
module MapCache {
  const PAGE_SIZE: nat := 4096
  const BUCKET_SIZE: nat := 32
  const BUCKET_COUNT: nat := 32
  const ENTRY_COUNT: nat := BUCKET_SIZE * BUCKET_COUNT
  /** Epochs are uint64_t and wrap. */
  const EPOCH_LIMIT: nat := 0x1_0000_0000_0000_0000

  /** A NULL pointer is address 0. */
  datatype Entry = Entry(ptr: nat, pfn: nat, epoch: nat)

  datatype Mapping = Mapping(id: nat, pfn: nat)

  /** `live` is what is mapped now, by address; `unmapped` counts munmap calls by mapping. */
  datatype Space = Space(live: map<nat, Mapping>, obtained: nat, unmapped: multiset<nat>) {
    /** munmap of a live page. */
    function Unmap(p: nat): Space
      requires p in live
    {
      Space(live - {p}, obtained, unmapped + multiset{live[p].id})
    }

    /** The address a mapping request ends with: the kernel proposes `answer`,
        and anything but a free, page-aligned address is a failed map. */
    function Grant(answer: nat): nat {
      if answer % PAGE_SIZE == 0 && answer !in live then answer else 0
    }

    function Map(p: nat, pfn: nat): Space {
      Space(live[p := Mapping(obtained, pfn)], obtained + 1, unmapped)
    }
  }

  datatype Cache = Cache(es: seq<Entry>, epoch: nat, space: Space) {
    predicate Wf() {
      |es| == ENTRY_COUNT
    }
  }

  function Low(pfn: nat): (lo: nat)
    ensures lo + BUCKET_SIZE <= ENTRY_COUNT
  {
    pfn % BUCKET_COUNT * BUCKET_SIZE
  }

  // ------------------------------------------------------------------
  // Specification functions

  /** The lookup scan after entries lo..i: every match is stamped, the last one wins. */
  datatype Scan = Scan(es: seq<Entry>, epoch: nat, ptr: nat)

  function ScanTo(es: seq<Entry>, epoch: nat, pfn: nat, lo: nat, i: nat): (t: Scan)
    requires lo <= i <= |es|
    ensures |t.es| == |es|
  {
    if i == lo then Scan(es, epoch, 0)
    else
      var t := ScanTo(es, epoch, pfn, lo, i - 1);
      var e := t.es[i - 1];
      if e.pfn == pfn then
        Scan(t.es[i - 1 := e.(epoch := t.epoch)], (t.epoch + 1) % EPOCH_LIMIT, e.ptr)
      else t
  }

  function Oldest(es: seq<Entry>, epoch: nat, lo: nat, i: nat): nat
    requires lo <= i <= |es|
  {
    if i == lo then epoch
    else
      var o := Oldest(es, epoch, lo, i - 1);
      if es[i - 1].epoch < o then es[i - 1].epoch else o
  }

  /** First index in i..hi stamped `epoch`, or hi. */
  function First(es: seq<Entry>, epoch: nat, i: nat, hi: nat): (v: nat)
    requires i <= hi <= |es|
    ensures i <= v <= hi
    ensures v < hi ==> es[v].epoch == epoch
    ensures forall j :: i <= j < v ==> es[j].epoch != epoch
    decreases hi - i
  {
    if i == hi then hi else if es[i].epoch == epoch then i else First(es, epoch, i + 1, hi)
  }

  function Victim(c: Cache, pfn: nat): (v: nat)
    requires c.Wf()
    ensures Low(pfn) <= v <= Low(pfn) + BUCKET_SIZE
  {
    var lo := Low(pfn);
    First(c.es, Oldest(c.es, c.epoch, lo, lo + BUCKET_SIZE), lo, lo + BUCKET_SIZE)
  }

  /** Empty entry v: munmap the page it holds, if any. */
  function Empty(c: Cache, v: nat): (d: Cache)
    requires v < |c.es|
    ensures |d.es| == |c.es| && d.epoch == c.epoch
  {
    var e := c.es[v];
    Cache(c.es[v := e.(ptr := 0)], c.epoch,
          if e.ptr != 0 && e.ptr in c.space.live then c.space.Unmap(e.ptr) else c.space)
  }

  /** Empty entry v, then map pfn into it if the kernel agrees. */
  function Refill(c: Cache, v: nat, pfn: nat, answer: nat): (d: Cache)
    requires v < |c.es|
    ensures |d.es| == |c.es|
  {
    var m := Empty(c, v);
    var p := m.space.Grant(answer);
    if p != 0 then Cache(m.es[v := Entry(p, pfn, c.es[v].epoch)], c.epoch, m.space.Map(p, pfn)) else m
  }

  function FaultSpec(c: Cache, pfn: nat, answer: nat): (d: Cache)
    requires c.Wf()
    ensures d.Wf()
  {
    var v := Victim(c, pfn);
    if v < Low(pfn) + BUCKET_SIZE then Refill(c, v, pfn, answer) else c
  }

  function TouchSpec(c: Cache, pfn: nat): (r: (Cache, nat))
    requires c.Wf()
    ensures r.0.Wf()
  {
    var t := ScanTo(c.es, c.epoch, pfn, Low(pfn), Low(pfn) + BUCKET_SIZE);
    (Cache(t.es, t.epoch, c.space), t.ptr)
  }

  function LookupSpec(c: Cache, addr: nat, answer: nat): (r: (Cache, nat))
    requires c.Wf()
    ensures r.0.Wf()
  {
    var pfn := addr / PAGE_SIZE;
    var (c1, p1) := TouchSpec(c, pfn);
    if p1 != 0 then (c1, p1 + addr % PAGE_SIZE)
    else
      var (c2, p2) := TouchSpec(FaultSpec(c1, pfn, answer), pfn);
      (c2, if p2 != 0 then p2 + addr % PAGE_SIZE else 0)
  }

  function InvalidateSpec(c: Cache, i: nat): (d: Cache)
    requires i <= |c.es|
    ensures |d.es| == |c.es| && d.epoch == c.epoch
    ensures forall j :: i <= j < |c.es| ==> d.es[j] == c.es[j]
  {
    if i == 0 then c
    else
      Empty(InvalidateSpec(c, i - 1), i - 1)
  }

  // ------------------------------------------------------------------
  // The code

  class PageCache {
    var entries: array<Entry>
    var epoch: nat
    var space: Space

    ghost predicate Valid()
      reads this, entries
    {
      entries.Length == ENTRY_COUNT && Sound(State())
    }

    ghost function State(): Cache
      reads this, entries
    {
      Cache(entries[..], epoch, space)
    }

    constructor ()
      ensures Valid() && fresh(entries) && State() == Initial()
    {
      entries := new Entry[ENTRY_COUNT](_ => Entry(0, 0, 0));
      epoch := 0;
      space := Space(map[], 0, multiset{});
      new;
      assert entries[..] == Initial().es;
    }

    method Touch(pfn: nat) returns (ptr: nat)
      requires Valid()
      modifies this`epoch, entries
      ensures Valid() && (State(), ptr) == TouchSpec(old(State()), pfn)
    {
      ghost var c := State();
      var lo := Low(pfn);
      ptr := 0;
      var i := 0;
      while i < BUCKET_SIZE
        invariant 0 <= i <= BUCKET_SIZE
        invariant Scan(entries[..], epoch, ptr) == ScanTo(c.es, c.epoch, pfn, lo, lo + i)
      {
        var entry := entries[lo + i];
        if entry.pfn == pfn {
          entries[lo + i] := entry.(epoch := epoch);
          epoch := (epoch + 1) % EPOCH_LIMIT;
          ptr := entry.ptr;
        }
        i := i + 1;
      }
      TouchSound(c, pfn);
    }

    /** The least stamp of a bucket, if it is at most the counter. */
    method OldestStamp(lo: nat) returns (oldest: nat)
      requires Valid() && lo + BUCKET_SIZE <= ENTRY_COUNT
      ensures oldest == Oldest(entries[..], epoch, lo, lo + BUCKET_SIZE)
    {
      oldest := epoch;
      for i := 0 to BUCKET_SIZE
        invariant oldest == Oldest(entries[..], epoch, lo, lo + i)
      {
        if entries[lo + i].epoch < oldest {
          oldest := entries[lo + i].epoch;
        }
      }
    }

    method Fault(pfn: nat, answer: nat)
      requires Valid()
      modifies this`space, entries
      ensures Valid() && State() == FaultSpec(old(State()), pfn, answer)
    {
      ghost var c := State();
      var lo := Low(pfn);
      var oldest := OldestStamp(lo);
      var i := 0;
      while i < BUCKET_SIZE && entries[lo + i].epoch != oldest
        invariant 0 <= i <= BUCKET_SIZE
        invariant Victim(c, pfn) == First(c.es, oldest, lo + i, lo + BUCKET_SIZE)
      {
        i := i + 1;
      }
      if i < BUCKET_SIZE {
        assert Victim(c, pfn) == lo + i;
        RefillEntry(lo + i, pfn, answer);
      } else {
        assert Victim(c, pfn) == lo + BUCKET_SIZE;
      }
    }

    /** The body of the victim's iteration: munmap what it holds, map the new page. */
    method RefillEntry(v: nat, pfn: nat, answer: nat)
      requires Valid() && v < ENTRY_COUNT
      modifies this`space, entries
      ensures Valid() && State() == Refill(old(State()), v, pfn, answer)
    {
      ghost var c := State();
      EmptySound(c, v);
      RefillSound(c, v, pfn, answer);
      var entry := entries[v];
      if entry.ptr != 0 {
        space := space.Unmap(entry.ptr);
        entries[v] := entry.(ptr := 0);
      }
      assert entries[..] == Empty(c, v).es;
      var p := space.Grant(answer);
      if p != 0 {
        space := space.Map(p, pfn);
        entries[v] := Entry(p, pfn, entry.epoch);
      }
      assert entries[..] == Refill(c, v, pfn, answer).es;
    }

    method Lookup(addr: nat, answer: nat) returns (ptr: nat)
      requires Valid()
      modifies this`epoch, this`space, entries
      ensures Valid() && (State(), ptr) == LookupSpec(old(State()), addr, answer)
    {
      var pfn := addr / PAGE_SIZE;
      var offset := addr % PAGE_SIZE;
      ghost var c := State();
      ptr := Touch(pfn);
      ghost var c1 := State();
      assert (c1, ptr) == TouchSpec(c, pfn);
      if ptr == 0 {
        Fault(pfn, answer);
        ghost var c2 := State();
        assert c2 == FaultSpec(c1, pfn, answer);
        ptr := Touch(pfn);
        if ptr == 0 {
          return 0;
        }
      }
      ptr := ptr + offset;
    }

    method Invalidate()
      requires Valid()
      modifies this`space, entries
      ensures Valid() && State() == InvalidateSpec(old(State()), ENTRY_COUNT)
    {
      ghost var c := State();
      for i := 0 to ENTRY_COUNT
        invariant State() == InvalidateSpec(c, i)
        invariant Sound(State())
      {
        InvalidateSound(c, i);
        InvalidateSound(c, i + 1);
        var entry := entries[i];
        if entry.ptr != 0 {
          space := space.Unmap(entry.ptr);
          entries[i] := entry.(ptr := 0);
        }
        assert entries[..] == InvalidateSpec(c, i + 1).es;
      }
    }
  }

  // ------------------------------------------------------------------
  // Soundness and conservation

  function Initial(): Cache {
    Cache(seq(ENTRY_COUNT, _ => Entry(0, 0, 0)), 0, Space(map[], 0, multiset{}))
  }

  /** Some live mapping has number id. */
  ghost predicate IsLive(s: Space, id: nat) {
    exists p :: p in s.live && s.live[p].id == id
  }

  /** Entry i holds the live mapping at address p. */
  predicate Holds(es: seq<Entry>, i: nat, p: nat)
    requires i < |es|
  {
    p != 0 && es[i].ptr == p
  }

  ghost predicate Sound(c: Cache) {
    Matched(c.es, c.space.live) && Accounted(c.space)
  }

  ghost predicate Matched(es: seq<Entry>, live: map<nat, Mapping>) {
    // a held pointer is a live mapping of the page the entry names
    && (forall i :: 0 <= i < |es| && es[i].ptr != 0 ==>
          es[i].ptr in live && live[es[i].ptr].pfn == es[i].pfn)
    // held by exactly one entry
    && (forall i, j :: 0 <= i < j < |es| && es[i].ptr != 0 ==> es[i].ptr != es[j].ptr)
    && (forall p :: p in live ==> exists i :: 0 <= i < |es| && Holds(es, i, p))
  }

  /** Every mapping ever obtained is either live once, or has been unmapped once. */
  ghost predicate Accounted(s: Space) {
    && (forall p :: p in s.live ==> p % PAGE_SIZE == 0 && s.live[p].id < s.obtained)
    && (forall p, q :: p in s.live && q in s.live && s.live[p].id == s.live[q].id ==> p == q)
    && (forall id: nat :: s.unmapped[id] == if id < s.obtained && !IsLive(s, id) then 1 else 0)
  }

  lemma UnmapAccounted(s: Space, p: nat)
    requires Accounted(s) && p in s.live
    ensures Accounted(s.Unmap(p))
  {
    var t := s.Unmap(p);
    forall id: nat
      ensures t.unmapped[id] == if id < t.obtained && !IsLive(t, id) then 1 else 0
    {
      if id == s.live[p].id {
        assert IsLive(s, id);
      } else if IsLive(s, id) {
        var q :| q in s.live && s.live[q].id == id;
        assert q in t.live;
      }
    }
  }

  lemma MapAccounted(s: Space, answer: nat, pfn: nat)
    requires Accounted(s) && s.Grant(answer) != 0
    ensures Accounted(s.Map(s.Grant(answer), pfn))
  {
    var p := s.Grant(answer);
    var t := s.Map(p, pfn);
    forall id: nat
      ensures t.unmapped[id] == if id < t.obtained && !IsLive(t, id) then 1 else 0
    {
      if id == s.obtained {
        assert p in t.live && t.live[p].id == id;
      } else if IsLive(s, id) {
        var q :| q in s.live && s.live[q].id == id;
        assert q in t.live && t.live[q].id == id;
      }
    }
  }

  /** A scan changes stamps only. */
  lemma {:induction false} TouchKeeps(es: seq<Entry>, epoch: nat, pfn: nat, lo: nat, i: nat)
    requires lo <= i <= |es|
    ensures var t := ScanTo(es, epoch, pfn, lo, i);
      && (forall j :: 0 <= j < |es| ==> t.es[j].ptr == es[j].ptr && t.es[j].pfn == es[j].pfn)
      && (forall j :: 0 <= j < |es| && !(lo <= j < i && es[j].pfn == pfn) ==> t.es[j] == es[j])
      && (t.ptr != 0 ==> exists j :: lo <= j < i && es[j].pfn == pfn && Holds(es, j, t.ptr))
  {
    if i > lo {
      TouchKeeps(es, epoch, pfn, lo, i - 1);
      var t := ScanTo(es, epoch, pfn, lo, i - 1);
      if t.es[i - 1].pfn == pfn && t.es[i - 1].ptr != 0 {
        assert Holds(es, i - 1, t.es[i - 1].ptr);
      }
    }
  }

  lemma TouchSound(c: Cache, pfn: nat)
    requires c.Wf() && Sound(c)
    ensures Sound(TouchSpec(c, pfn).0)
    ensures var p := TouchSpec(c, pfn).1; p != 0 ==> p in c.space.live && c.space.live[p].pfn == pfn
  {
    TouchKeeps(c.es, c.epoch, pfn, Low(pfn), Low(pfn) + BUCKET_SIZE);
    var d := TouchSpec(c, pfn).0;
    forall p | p in d.space.live
      ensures exists i :: 0 <= i < |d.es| && Holds(d.es, i, p)
    {
      var i :| 0 <= i < |c.es| && Holds(c.es, i, p);
      assert Holds(d.es, i, p);
    }
  }

  lemma MatchedDrop(es: seq<Entry>, live: map<nat, Mapping>, v: nat)
    requires Matched(es, live) && v < |es|
    ensures Matched(es[v := es[v].(ptr := 0)], live - {es[v].ptr})
  {
    var fs := es[v := es[v].(ptr := 0)];
    forall p | p in live - {es[v].ptr}
      ensures exists i :: 0 <= i < |fs| && Holds(fs, i, p)
    {
      var i :| 0 <= i < |es| && Holds(es, i, p);
      assert Holds(fs, i, p);
    }
  }

  lemma MatchedFill(es: seq<Entry>, live: map<nat, Mapping>, v: nat, e: Entry, id: nat)
    requires Matched(es, live) && v < |es| && es[v].ptr == 0 && e.ptr != 0 && e.ptr !in live
    ensures Matched(es[v := e], live[e.ptr := Mapping(id, e.pfn)])
  {
    var fs := es[v := e];
    assert Holds(fs, v, e.ptr);
    forall p | p in live
      ensures exists i :: 0 <= i < |fs| && Holds(fs, i, p)
    {
      var i :| 0 <= i < |es| && Holds(es, i, p);
      assert Holds(fs, i, p);
    }
  }

  lemma EmptySound(c: Cache, v: nat)
    requires Sound(c) && v < |c.es|
    ensures c.es[v].ptr != 0 ==> c.es[v].ptr in c.space.live
    ensures Sound(Empty(c, v))
  {
    var e := c.es[v];
    if e.ptr != 0 {
      UnmapAccounted(c.space, e.ptr);
      MatchedDrop(c.es, c.space.live, v);
    } else {
      assert c.es[v := e.(ptr := 0)] == c.es;
    }
  }

  lemma RefillSound(c: Cache, v: nat, pfn: nat, answer: nat)
    requires Sound(c) && v < |c.es|
    ensures Sound(Refill(c, v, pfn, answer))
  {
    EmptySound(c, v);
    var m := Empty(c, v);
    var p := m.space.Grant(answer);
    if p != 0 {
      MapAccounted(m.space, answer, pfn);
      MatchedFill(m.es, m.space.live, v, Entry(p, pfn, c.es[v].epoch), m.space.obtained);
    }
  }

  lemma FaultSound(c: Cache, pfn: nat, answer: nat)
    requires c.Wf() && Sound(c)
    ensures Sound(FaultSpec(c, pfn, answer))
  {
    if Victim(c, pfn) < Low(pfn) + BUCKET_SIZE {
      RefillSound(c, Victim(c, pfn), pfn, answer);
    }
  }

  lemma EmptiedSound(c: Cache, v: nat, d: Cache)
    requires Sound(c) && v < |c.es| && d == Empty(c, v)
    ensures Sound(d)
  {
    EmptySound(c, v);
  }

  lemma {:induction false} InvalidateSound(c: Cache, i: nat)
    requires Sound(c) && i <= |c.es|
    ensures Sound(InvalidateSpec(c, i))
  {
    if i > 0 {
      InvalidateSound(c, i - 1);
      EmptiedSound(InvalidateSpec(c, i - 1), i - 1, InvalidateSpec(c, i));
    }
  }

  /** Invalidation forgets the pointers and keeps the page numbers. */
  lemma {:induction false} InvalidateClears(c: Cache, i: nat)
    requires i <= |c.es|
    ensures forall j :: 0 <= j < i ==> InvalidateSpec(c, i).es[j] == c.es[j].(ptr := 0)
  {
    if i > 0 {
      InvalidateClears(c, i - 1);
    }
  }

  /** A pointer into a live mapping of the page, displaced by the page offset. */
  ghost predicate PointsInto(s: Space, ptr: nat, addr: nat) {
    exists base :: base in s.live && s.live[base].pfn == addr / PAGE_SIZE && ptr == base + addr % PAGE_SIZE
  }

  lemma LookupSound(c: Cache, addr: nat, answer: nat)
    requires c.Wf() && Sound(c)
    ensures var (d, p) := LookupSpec(c, addr, answer); Sound(d) && (p != 0 ==> PointsInto(d.space, p, addr))
  {
    var pfn := addr / PAGE_SIZE;
    var (c1, p1) := TouchSpec(c, pfn);
    TouchSound(c, pfn);
    if p1 == 0 {
      FaultSound(c1, pfn, answer);
      TouchSound(FaultSpec(c1, pfn, answer), pfn);
    }
  }

  datatype Op = Lookup(addr: nat, answer: nat) | Invalidate

  function Step(c: Cache, op: Op): (r: (Cache, nat))
    requires c.Wf()
    ensures r.0.Wf()
  {
    match op
    case Lookup(addr, answer) => LookupSpec(c, addr, answer)
    case Invalidate => (InvalidateSpec(c, ENTRY_COUNT), 0)
  }

  function Run(c: Cache, ops: seq<Op>): (d: Cache)
    requires c.Wf()
    ensures d.Wf()
    decreases |ops|
  {
    if ops == [] then c else Run(Step(c, ops[0]).0, ops[1..])
  }

  lemma StepSound(c: Cache, op: Op)
    requires c.Wf() && Sound(c)
    ensures Sound(Step(c, op).0)
  {
    match op
    case Lookup(addr, answer) => LookupSound(c, addr, answer);
    case Invalidate => InvalidateSound(c, ENTRY_COUNT);
  }

  lemma {:induction false} RunSoundFrom(c: Cache, ops: seq<Op>)
    requires c.Wf() && Sound(c)
    ensures Sound(Run(c, ops))
    decreases |ops|
  {
    if ops != [] {
      StepSound(c, ops[0]);
      RunSoundFrom(Step(c, ops[0]).0, ops[1..]);
    }
  }

  /** In every reachable state, whatever was invalidated or failed to map: each mapping
      obtained is held by exactly one entry or has been unmapped exactly once, and the
      next non-NULL lookup points into a live mapping of the page it was asked for. */
  lemma ReachableSound(ops: seq<Op>, addr: nat, answer: nat)
    ensures Sound(Run(Initial(), ops))
    ensures var (d, p) := LookupSpec(Run(Initial(), ops), addr, answer); p != 0 ==> PointsInto(d.space, p, addr)
  {
    assert Sound(Initial());
    RunSoundFrom(Initial(), ops);
    LookupSound(Run(Initial(), ops), addr, answer);
  }
}
