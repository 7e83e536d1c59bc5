/** Replacement in the mapping cache: which entry a fault takes, when a lookup that
    could be mapped still fails, and how long a page is retained. */
module MapCacheLru {
  import opened MapCache

  // ------------------------------------------------------------------
  // The victim of a fault

  lemma {:induction false} OldestIsLeast(es: seq<Entry>, epoch: nat, lo: nat, i: nat)
    requires lo <= i <= |es|
    ensures var o := Oldest(es, epoch, lo, i);
      && o <= epoch
      && (forall j :: lo <= j < i ==> o <= es[j].epoch)
      && (o < epoch ==> exists j :: lo <= j < i && es[j].epoch == o)
  {
    if i > lo {
      OldestIsLeast(es, epoch, lo, i - 1);
    }
  }

  /** A fault finds a victim exactly when some entry of the bucket is stamped no later than
      the counter, and then takes one with the least stamp. Only wrap-around of the 64-bit
      counter can break the condition. */
  lemma VictimIff(c: Cache, pfn: nat)
    requires c.Wf()
    ensures var (v, lo, hi) := (Victim(c, pfn), Low(pfn), Low(pfn) + BUCKET_SIZE);
      && (v < hi <==> exists j :: lo <= j < hi && c.es[j].epoch <= c.epoch)
      && (v < hi ==> forall j :: lo <= j < hi ==> c.es[v].epoch <= c.es[j].epoch)
  {
    OldestIsLeast(c.es, c.epoch, Low(pfn), Low(pfn) + BUCKET_SIZE);
  }

  /** Stamps never run ahead of the counter, which has ticked at most n times. */
  ghost predicate Stamped(c: Cache, n: nat) {
    c.epoch <= n && forall i :: 0 <= i < |c.es| ==> c.es[i].epoch <= c.epoch
  }

  lemma {:induction false} ScanStamped(es: seq<Entry>, epoch: nat, pfn: nat, lo: nat, i: nat)
    requires lo <= i <= |es| && epoch + i - lo < EPOCH_LIMIT
    requires forall j :: 0 <= j < |es| ==> es[j].epoch <= epoch
    ensures var t := ScanTo(es, epoch, pfn, lo, i);
      epoch <= t.epoch <= epoch + i - lo && forall j :: 0 <= j < |es| ==> t.es[j].epoch <= t.epoch
  {
    if i > lo {
      ScanStamped(es, epoch, pfn, lo, i - 1);
    }
  }

  lemma StepStamped(c: Cache, op: Op, n: nat)
    requires c.Wf() && Stamped(c, n) && n + 2 * BUCKET_SIZE < EPOCH_LIMIT
    ensures Stamped(Step(c, op).0, n + 2 * BUCKET_SIZE)
    ensures op.Lookup? ==> Stamped(TouchSpec(c, op.addr / PAGE_SIZE).0, n + BUCKET_SIZE)
  {
    match op
    case Lookup(addr, answer) =>
      var pfn := addr / PAGE_SIZE;
      var lo := Low(pfn);
      ScanStamped(c.es, c.epoch, pfn, lo, lo + BUCKET_SIZE);
      var d := FaultSpec(TouchSpec(c, pfn).0, pfn, answer);
      ScanStamped(d.es, d.epoch, pfn, lo, lo + BUCKET_SIZE);
    case Invalidate =>
      InvalidateKeepsStamps(c, ENTRY_COUNT);
  }

  lemma {:induction false} InvalidateKeepsStamps(c: Cache, i: nat)
    requires i <= |c.es|
    ensures forall j :: 0 <= j < |c.es| ==> InvalidateSpec(c, i).es[j].epoch == c.es[j].epoch
  {
    if i > 0 {
      InvalidateKeepsStamps(c, i - 1);
    }
  }

  lemma {:induction false} RunStamped(c: Cache, ops: seq<Op>, n: nat)
    requires c.Wf() && Stamped(c, n) && n + 2 * BUCKET_SIZE * |ops| < EPOCH_LIMIT
    ensures Stamped(Run(c, ops), n + 2 * BUCKET_SIZE * |ops|)
    decreases |ops|
  {
    if ops != [] {
      StepStamped(c, ops[0], n);
      RunStamped(Step(c, ops[0]).0, ops[1..], n + 2 * BUCKET_SIZE);
    }
  }

  /** In every run too short to wrap the counter, a fault finds a victim of least stamp. */
  lemma FaultFindsVictim(ops: seq<Op>, addr: nat)
    requires 2 * BUCKET_SIZE * (|ops| + 1) < EPOCH_LIMIT
    ensures var pfn := addr / PAGE_SIZE;
      var c := TouchSpec(Run(Initial(), ops), pfn).0;
      var (v, lo, hi) := (Victim(c, pfn), Low(pfn), Low(pfn) + BUCKET_SIZE);
      lo <= v < hi && forall j :: lo <= j < hi ==> c.es[v].epoch <= c.es[j].epoch
  {
    RunStamped(Initial(), ops, 0);
    var c0 := Run(Initial(), ops);
    StepStamped(c0, Lookup(addr, 0), 2 * BUCKET_SIZE * |ops|);
    var c := TouchSpec(c0, addr / PAGE_SIZE).0;
    VictimIff(c, addr / PAGE_SIZE);
    assert c.es[Low(addr / PAGE_SIZE)].epoch <= c.epoch;
  }

  // ------------------------------------------------------------------
  // Completeness: the last match wins, so a stale match can hide a fresh mapping

  ghost predicate NoMatch(es: seq<Entry>, pfn: nat, i: nat, hi: nat)
    requires hi <= |es|
  {
    forall j :: i <= j < hi ==> es[j].pfn != pfn
  }

  lemma {:induction false} ScanLast(es: seq<Entry>, epoch: nat, pfn: nat, lo: nat, i: nat)
    requires lo <= i <= |es|
    ensures NoMatch(es, pfn, lo, i) ==> ScanTo(es, epoch, pfn, lo, i) == Scan(es, epoch, 0)
    ensures forall k :: lo <= k < i && es[k].pfn == pfn && NoMatch(es, pfn, k + 1, i) ==>
              ScanTo(es, epoch, pfn, lo, i).ptr == es[k].ptr
  {
    if i > lo {
      ScanLast(es, epoch, pfn, lo, i - 1);
      TouchKeeps(es, epoch, pfn, lo, i - 1);
    }
  }

  lemma {:induction false} LastMatch(es: seq<Entry>, pfn: nat, lo: nat, hi: nat) returns (k: nat)
    requires lo <= hi <= |es| && !NoMatch(es, pfn, lo, hi)
    ensures lo <= k < hi && es[k].pfn == pfn && NoMatch(es, pfn, k + 1, hi)
  {
    if es[hi - 1].pfn == pfn {
      k := hi - 1;
    } else {
      k := LastMatch(es, pfn, lo, hi - 1);
    }
  }

  lemma ScanAt(es: seq<Entry>, epoch: nat, pfn: nat, lo: nat, hi: nat, k: nat)
    requires lo <= k < hi <= |es| && es[k].pfn == pfn && NoMatch(es, pfn, k + 1, hi)
    ensures ScanTo(es, epoch, pfn, lo, hi).ptr == es[k].ptr
  {
    ScanLast(es, epoch, pfn, lo, hi);
  }

  /** A lookup whose page is not found at once, which has a victim and whose map succeeds,
      returns NULL exactly when an entry above the victim still carries the page's number. */
  lemma LookupComplete(c: Cache, addr: nat, answer: nat)
    requires c.Wf() && Sound(c)
    requires TouchSpec(c, addr / PAGE_SIZE).1 == 0
    requires var pfn := addr / PAGE_SIZE;
      var c1 := TouchSpec(c, pfn).0;
      && Victim(c1, pfn) < Low(pfn) + BUCKET_SIZE
      && Empty(c1, Victim(c1, pfn)).space.Grant(answer) != 0
    ensures var pfn := addr / PAGE_SIZE;
      var v := Victim(TouchSpec(c, pfn).0, pfn);
      LookupSpec(c, addr, answer).1 != 0 <==> NoMatch(c.es, pfn, v + 1, Low(pfn) + BUCKET_SIZE)
  {
    var pfn := addr / PAGE_SIZE;
    var (lo, hi) := (Low(pfn), Low(pfn) + BUCKET_SIZE);
    TouchKeeps(c.es, c.epoch, pfn, lo, hi);
    ScanLast(c.es, c.epoch, pfn, lo, hi);
    var c1 := TouchSpec(c, pfn).0;
    var v := Victim(c1, pfn);
    var d := FaultSpec(c1, pfn, answer);
    if NoMatch(c.es, pfn, v + 1, hi) {
      ScanAt(d.es, d.epoch, pfn, lo, hi, v);
    } else {
      var k := LastMatch(c.es, pfn, v + 1, hi);
      assert c.es[k].ptr == 0;
      ScanAt(d.es, d.epoch, pfn, lo, hi, k);
    }
  }

  lemma {:induction false} ScanAllMatch(es: seq<Entry>, epoch: nat, pfn: nat, lo: nat, i: nat)
    requires lo <= i <= |es| && epoch + i - lo < EPOCH_LIMIT && forall j :: lo <= j < i ==> es[j].pfn == pfn
    ensures var t := ScanTo(es, epoch, pfn, lo, i);
      t.epoch == epoch + i - lo && forall j :: lo <= j < i ==> t.es[j].epoch == epoch + j - lo
  {
    if i > lo {
      ScanAllMatch(es, epoch, pfn, lo, i - 1);
      TouchKeeps(es, epoch, pfn, lo, i - 1);
    }
  }

  /** The very first lookup of page 0 maps it and returns NULL: all 32 never-used entries of its bucket
      carry its number, the first one takes the mapping, the last one is looked at. */
  lemma PageZeroHidden(addr: nat, answer: nat)
    requires addr < PAGE_SIZE && answer != 0 && answer % PAGE_SIZE == 0
    ensures var (d, p) := LookupSpec(Initial(), addr, answer);
            p == 0 && d.space == Space(map[answer := Mapping(0, 0)], 1, multiset{})
  {
    var c := Initial();
    PageZeroScan();
    InitialSound();
    assert c.es[BUCKET_SIZE - 1].pfn == 0;
    assert addr / PAGE_SIZE == 0 && Low(0) == 0;
    LookupComplete(c, addr, answer);
  }

  /** The scan stamps all 32 entries in order and finds no pointer, so the first entry is the victim. */
  lemma PageZeroScan()
    ensures TouchSpec(Initial(), 0).1 == 0 && TouchSpec(Initial(), 0).0.space == Initial().space
    ensures Victim(TouchSpec(Initial(), 0).0, 0) < BUCKET_SIZE - 1
    ensures TouchSpec(Initial(), 0).0.es[Victim(TouchSpec(Initial(), 0).0, 0)].ptr == 0
  {
    var es := Initial().es;
    ScanAllMatch(es, 0, 0, 0, BUCKET_SIZE);
    ScanAt(es, 0, 0, 0, BUCKET_SIZE, BUCKET_SIZE - 1);
    TouchKeeps(es, 0, 0, 0, BUCKET_SIZE);
    StampedInOrder(TouchSpec(Initial(), 0).0);
  }

  lemma StampedInOrder(c: Cache)
    requires c.Wf() && c.epoch == BUCKET_SIZE && forall j :: 0 <= j < BUCKET_SIZE ==> c.es[j].epoch == j
    ensures Victim(c, 0) < BUCKET_SIZE - 1
  {
    VictimIff(c, 0);
    assert c.es[0].epoch == 0 && c.es[BUCKET_SIZE - 1].epoch == BUCKET_SIZE - 1;
  }

  lemma InitialSound()
    ensures Sound(Initial())
  {
    ReachableSound([], 0, 0);
  }

  // ------------------------------------------------------------------
  // Retention

  ghost predicate Filled(e: Entry) {
    e.ptr != 0
  }

  /** What holds while every page is non-zero, every lookup succeeds and nothing is
      invalidated: entries are never-used or hold one page each, with distinct stamps. */
  ghost predicate Clean(c: Cache) {
    && c.Wf()
    && (forall i :: 0 <= i < |c.es| ==> CleanEntry(c.es[i], i, c.epoch))
    && (forall i, j :: 0 <= i < j < |c.es| && Filled(c.es[i]) && Filled(c.es[j]) ==>
          c.es[i].pfn != c.es[j].pfn && c.es[i].epoch != c.es[j].epoch)
  }

  ghost predicate CleanEntry(e: Entry, i: nat, epoch: nat) {
    if Filled(e) then e.pfn != 0 && Low(e.pfn) <= i < Low(e.pfn) + BUCKET_SIZE && e.epoch < epoch
    else e == Entry(0, 0, 0)
  }

  /** Every operation is a lookup of a non-zero page that returned a pointer. */
  ghost predicate Served(c: Cache, ops: seq<Op>)
    requires c.Wf()
    decreases |ops|
  {
    ops == [] ||
    (ops[0].Lookup? && ops[0].addr >= PAGE_SIZE && Step(c, ops[0]).1 != 0 && Served(Step(c, ops[0]).0, ops[1..]))
  }

  /** The pages of page p's bucket, other than p, that the operations look up. */
  function Others(p: nat, ops: seq<Op>): set<nat> {
    if ops == [] then {}
    else
      Others(p, ops[1..]) +
      if ops[0].Lookup? && ops[0].addr / PAGE_SIZE != p && Low(ops[0].addr / PAGE_SIZE) == Low(p)
      then {ops[0].addr / PAGE_SIZE} else {}
  }

  lemma {:induction false} ScanUnique(es: seq<Entry>, epoch: nat, pfn: nat, lo: nat, k: nat, i: nat)
    requires lo <= k < i <= |es| && es[k].pfn == pfn
    requires forall j :: lo <= j < i && j != k ==> es[j].pfn != pfn
    ensures ScanTo(es, epoch, pfn, lo, i)
         == Scan(es[k := es[k].(epoch := epoch)], (epoch + 1) % EPOCH_LIMIT, es[k].ptr)
  {
    if k == i - 1 {
      ScanLast(es, epoch, pfn, lo, i - 1);
    } else {
      ScanUnique(es, epoch, pfn, lo, k, i - 1);
    }
  }

  /** The page of a clean cache's filled entry is nowhere else in the cache. */
  lemma CleanAbsent(c: Cache, pfn: nat)
    requires Clean(c) && pfn != 0 && NoMatch(c.es, pfn, Low(pfn), Low(pfn) + BUCKET_SIZE)
    ensures NoMatch(c.es, pfn, 0, |c.es|)
  {
    forall j | 0 <= j < |c.es|
      ensures c.es[j].pfn != pfn
    {
      assert CleanEntry(c.es[j], j, c.epoch);
    }
  }

  lemma HitLookup(c: Cache, addr: nat, answer: nat, k: nat)
    requires Clean(c) && c.epoch + 1 < EPOCH_LIMIT && addr >= PAGE_SIZE
    requires var pfn := addr / PAGE_SIZE; Low(pfn) <= k < Low(pfn) + BUCKET_SIZE && c.es[k].pfn == pfn
    ensures Filled(c.es[k])
    ensures LookupSpec(c, addr, answer)
         == (Cache(c.es[k := c.es[k].(epoch := c.epoch)], c.epoch + 1, c.space), c.es[k].ptr + addr % PAGE_SIZE)
  {
    var pfn := addr / PAGE_SIZE;
    var lo := Low(pfn);
    assert CleanEntry(c.es[k], k, c.epoch);
    forall j | lo <= j < lo + BUCKET_SIZE && j != k
      ensures c.es[j].pfn != pfn
    {
      assert CleanEntry(c.es[j], j, c.epoch);
    }
    ScanUnique(c.es, c.epoch, pfn, lo, k, lo + BUCKET_SIZE);
    assert TouchSpec(c, pfn) == (Cache(c.es[k := c.es[k].(epoch := c.epoch)], c.epoch + 1, c.space), c.es[k].ptr);
  }

  /** A miss that is served: the victim takes the page and is stamped with the counter. */
  lemma MissLookup(c: Cache, addr: nat, answer: nat)
    requires Clean(c) && c.epoch + 1 < EPOCH_LIMIT && addr >= PAGE_SIZE
    requires LookupSpec(c, addr, answer).1 != 0
    requires var pfn := addr / PAGE_SIZE; NoMatch(c.es, pfn, Low(pfn), Low(pfn) + BUCKET_SIZE)
    ensures var pfn := addr / PAGE_SIZE;
      var k := Victim(c, pfn);
      var (d, p) := LookupSpec(c, addr, answer);
      && k < Low(pfn) + BUCKET_SIZE && d.epoch == c.epoch + 1 && Filled(d.es[k])
      && d.es == c.es[k := Entry(d.es[k].ptr, pfn, c.epoch)]
      && d.space == Refill(c, k, pfn, answer).space && d.es[k].ptr == Refill(c, k, pfn, answer).es[k].ptr
      && p == d.es[k].ptr + addr % PAGE_SIZE
  {
    var pfn := addr / PAGE_SIZE;
    var (lo, hi) := (Low(pfn), Low(pfn) + BUCKET_SIZE);
    ScanLast(c.es, c.epoch, pfn, lo, hi);
    assert TouchSpec(c, pfn) == (c, 0);
    var k := Victim(c, pfn);
    if k == hi {
      assert false;
    }
    RefilledScan(c, pfn, answer, k);
  }

  /** The scan of a refilled bucket: it finds the victim, or nothing if the map failed. */
  lemma RefilledScan(c: Cache, pfn: nat, answer: nat, k: nat)
    requires c.Wf() && Low(pfn) <= k < Low(pfn) + BUCKET_SIZE && NoMatch(c.es, pfn, Low(pfn), Low(pfn) + BUCKET_SIZE)
    requires c.epoch + 1 < EPOCH_LIMIT
    ensures var d := Refill(c, k, pfn, answer);
      if d.es[k].pfn == pfn then
        TouchSpec(d, pfn) == (Cache(d.es[k := d.es[k].(epoch := c.epoch)], c.epoch + 1, d.space), d.es[k].ptr)
      else TouchSpec(d, pfn) == (d, 0)
  {
    var (lo, hi, d) := (Low(pfn), Low(pfn) + BUCKET_SIZE, Refill(c, k, pfn, answer));
    assert forall j :: lo <= j < hi && j != k ==> d.es[j] == c.es[j];
    if d.es[k].pfn == pfn {
      ScanUnique(d.es, d.epoch, pfn, lo, k, hi);
    } else {
      ScanLast(d.es, d.epoch, pfn, lo, hi);
    }
  }

  /** What a served lookup does to a clean cache: entry k is stamped with the counter,
      after the victim was refilled if the page was absent. */
  lemma ServedLookup(c: Cache, addr: nat, answer: nat) returns (k: nat)
    requires Clean(c) && c.epoch + 1 < EPOCH_LIMIT && addr >= PAGE_SIZE
    requires LookupSpec(c, addr, answer).1 != 0
    ensures var pfn := addr / PAGE_SIZE;
      var (d, p) := LookupSpec(c, addr, answer);
      && Low(pfn) <= k < Low(pfn) + BUCKET_SIZE
      && d.epoch == c.epoch + 1 && Filled(d.es[k]) && p == d.es[k].ptr + addr % PAGE_SIZE
      && d.es == c.es[k := Entry(d.es[k].ptr, pfn, c.epoch)]
      && (c.es[k].pfn == pfn ==> d.es[k].ptr == c.es[k].ptr && d.space == c.space)
      && (c.es[k].pfn != pfn ==> k == Victim(c, pfn) && NoMatch(c.es, pfn, 0, |c.es|))
  {
    var pfn := addr / PAGE_SIZE;
    var (lo, hi) := (Low(pfn), Low(pfn) + BUCKET_SIZE);
    if NoMatch(c.es, pfn, lo, hi) {
      k := Victim(c, pfn);
      MissLookup(c, addr, answer);
      CleanAbsent(c, pfn);
    } else {
      k := LastMatch(c.es, pfn, lo, hi);
      HitLookup(c, addr, answer, k);
    }
  }

  lemma ServedKeepsClean(c: Cache, addr: nat, answer: nat)
    requires Clean(c) && c.epoch + 1 < EPOCH_LIMIT && addr >= PAGE_SIZE
    requires LookupSpec(c, addr, answer).1 != 0
    ensures Clean(LookupSpec(c, addr, answer).0)
  {
    var k := ServedLookup(c, addr, answer);
  }

  lemma {:induction false} RunClean(c: Cache, ops: seq<Op>)
    requires Clean(c) && Served(c, ops) && c.epoch + |ops| < EPOCH_LIMIT
    ensures Clean(Run(c, ops)) && Run(c, ops).epoch == c.epoch + |ops|
    decreases |ops|
  {
    if ops != [] {
      ServedKeepsClean(c, ops[0].addr, ops[0].answer);
      var k := ServedLookup(c, ops[0].addr, ops[0].answer);
      RunClean(Step(c, ops[0]).0, ops[1..]);
    }
  }

  /** Page p sits in entry k, stamped at or after e; every entry of its bucket stamped
      later than e holds a page of `seen`. */
  ghost predicate Since(c: Cache, p: nat, k: nat, e: nat, seen: set<nat>) {
    && Clean(c) && k < |c.es| && Filled(c.es[k]) && c.es[k].pfn == p
    && 1 <= e <= c.es[k].epoch
    && (forall j :: Low(p) <= j < Low(p) + BUCKET_SIZE && j != k && c.es[j].epoch > e ==>
          c.es[j].pfn in seen)
  }

  /** The pages of entries lo..hi except entry k. */
  function Pages(es: seq<Entry>, lo: nat, hi: nat, k: nat): set<nat>
    requires lo <= hi <= |es|
  {
    set j | lo <= j < hi && j != k :: es[j].pfn
  }

  lemma {:induction false} PagesDistinct(es: seq<Entry>, lo: nat, hi: nat, k: nat)
    requires lo <= hi <= |es|
    requires forall i, j :: lo <= i < j < hi ==> es[i].pfn != es[j].pfn
    ensures |Pages(es, lo, hi, k)| == hi - lo - (if lo <= k < hi then 1 else 0)
  {
    if lo < hi {
      PagesDistinct(es, lo, hi - 1, k);
      var rest := Pages(es, lo, hi - 1, k);
      assert Pages(es, lo, hi, k) == if k == hi - 1 then rest else rest + {es[hi - 1].pfn};
    }
  }

  lemma SubsetSize(a: set<nat>, b: set<nat>)
    requires a <= b
    ensures |a| <= |b|
  {
    assert b == a + (b - a);
  }

  /** Evicting p takes 32 other pages of its bucket. */
  lemma EvictionCost(c: Cache, p: nat, k: nat, e: nat, seen: set<nat>, q: nat)
    requires Since(c, p, k, e, seen) && Low(q) == Low(p)
    requires NoMatch(c.es, q, 0, |c.es|) && k == Victim(c, q)
    ensures |seen + {q}| >= BUCKET_SIZE
  {
    VictimIff(c, q);
    var (lo, hi) := (Low(p), Low(p) + BUCKET_SIZE);
    assert CleanEntry(c.es[k], k, c.epoch);
    forall j | lo <= j < hi && j != k
      ensures c.es[j].pfn in seen && Filled(c.es[j])
    {
      assert CleanEntry(c.es[j], j, c.epoch);
      assert c.es[k].epoch <= c.es[j].epoch;
    }
    PagesDistinct(c.es, lo, hi, k);
    var pages := Pages(c.es, lo, hi, k);
    assert q !in pages;
    SubsetSize(pages + {q}, seen + {q});
  }

  lemma SinceStep(c: Cache, p: nat, k: nat, e: nat, seen: set<nat>, op: Op)
    requires Since(c, p, k, e, seen) && c.epoch + 1 < EPOCH_LIMIT
    requires Served(c, [op]) && |seen + Others(p, [op])| < BUCKET_SIZE
    ensures Since(Step(c, op).0, p, k, e, seen + Others(p, [op]))
    ensures Step(c, op).0.es[k].ptr == c.es[k].ptr
  {
    var q := op.addr / PAGE_SIZE;
    var i := ServedLookup(c, op.addr, op.answer);
    ServedKeepsClean(c, op.addr, op.answer);
    assert CleanEntry(c.es[k], k, c.epoch);
    if i == k && q != p {
      assert Others(p, [op]) == {q};
      EvictionCost(c, p, k, e, seen, q);
    }
  }

  lemma OthersHead(p: nat, ops: seq<Op>, seen: set<nat>)
    requires ops != []
    ensures seen + Others(p, [ops[0]]) + Others(p, ops[1..]) == seen + Others(p, ops)
  {
    assert [ops[0]][1..] == [];
    assert Others(p, [ops[0]]) + Others(p, ops[1..]) == Others(p, ops);
  }

  lemma {:induction false} SinceRun(c: Cache, p: nat, k: nat, e: nat, seen: set<nat>, ops: seq<Op>)
    requires Since(c, p, k, e, seen) && c.epoch + |ops| < EPOCH_LIMIT
    requires Served(c, ops) && |seen + Others(p, ops)| < BUCKET_SIZE
    ensures Since(Run(c, ops), p, k, e, seen + Others(p, ops))
    ensures Run(c, ops).es[k].ptr == c.es[k].ptr
    decreases |ops|
  {
    if ops == [] {
      assert seen + Others(p, ops) == seen;
    } else {
      var now := seen + Others(p, [ops[0]]);
      OthersHead(p, ops, seen);
      SubsetSize(now, seen + Others(p, ops));
      SinceStep(c, p, k, e, seen, ops[0]);
      var i := ServedLookup(c, ops[0].addr, ops[0].answer);
      SinceRun(Step(c, ops[0]).0, p, k, e, now, ops[1..]);
    }
  }

  lemma {:induction false} ServedSplit(c: Cache, a: seq<Op>, b: seq<Op>)
    requires c.Wf() && Served(c, a + b)
    ensures Served(c, a) && Served(Run(c, a), b)
    decreases |a|
  {
    if a == [] {
      assert a + b == b;
    } else {
      assert (a + b)[0] == a[0] && (a + b)[1..] == a[1..] + b;
      ServedSplit(Step(c, a[0]).0, a[1..], b);
    }
  }

  /** Retention from any clean cache whose counter has ticked. */
  lemma RetainedFrom(c: Cache, addr: nat, answer: nat, after: seq<Op>, addr': nat, answer': nat)
    requires Clean(c) && c.epoch >= 1 && c.epoch + |after| + 2 < EPOCH_LIMIT
    requires addr >= PAGE_SIZE && addr / PAGE_SIZE == addr' / PAGE_SIZE
    requires var (d, p) := LookupSpec(c, addr, answer); p != 0 && Served(d, after)
    requires |Others(addr / PAGE_SIZE, after)| < BUCKET_SIZE
    ensures var (d, p) := LookupSpec(c, addr, answer);
      var (e, q) := LookupSpec(Run(d, after), addr', answer');
      q - addr' % PAGE_SIZE == p - addr % PAGE_SIZE && e.space == Run(d, after).space
  {
    var p := addr / PAGE_SIZE;
    var d := LookupSpec(c, addr, answer).0;
    var k := ServedLookup(c, addr, answer);
    ServedKeepsClean(c, addr, answer);
    forall j | Low(p) <= j < Low(p) + BUCKET_SIZE && j != k
      ensures d.es[j].epoch <= c.epoch
    {
      assert CleanEntry(c.es[j], j, c.epoch);
    }
    assert {} + Others(p, after) == Others(p, after);
    SinceRun(d, p, k, c.epoch, {}, after);
    RunClean(d, after);
    assert CleanEntry(Run(d, after).es[k], k, Run(d, after).epoch);
    HitLookup(Run(d, after), addr', answer', k);
  }

  /** After any run of served lookups that has ticked the counter, a page just looked up keeps
      its mapping, and is found without a fault, until 32 other pages of its bucket have been
      looked up. */
  lemma LruRetention(before: seq<Op>, addr: nat, answer: nat, after: seq<Op>, addr': nat, answer': nat)
    requires Served(Initial(), before + ([Lookup(addr, answer)] + after)) && |before| >= 1
    requires |before| + |after| + 2 < EPOCH_LIMIT
    requires addr / PAGE_SIZE == addr' / PAGE_SIZE
    requires |Others(addr / PAGE_SIZE, after)| < BUCKET_SIZE
    ensures var c := Run(Initial(), before);
      var (d, p) := LookupSpec(c, addr, answer);
      var (e, q) := LookupSpec(Run(d, after), addr', answer');
      q - addr' % PAGE_SIZE == p - addr % PAGE_SIZE && e.space == Run(d, after).space
  {
    var rest := [Lookup(addr, answer)] + after;
    ServedSplit(Initial(), before, rest);
    RunClean(Initial(), before);
    assert rest[0] == Lookup(addr, answer) && rest[1..] == after;
    RetainedFrom(Run(Initial(), before), addr, answer, after, addr', answer');
  }

  /** Why the counter must have ticked: the very first page is stamped 0, like a never-used
      entry, and the next page of its bucket unmaps it. */
  lemma FirstPageEvicted(addr: nat, answer: nat, addr': nat, answer': nat)
    requires PAGE_SIZE <= addr && PAGE_SIZE <= addr' && addr / PAGE_SIZE != addr' / PAGE_SIZE
    requires Low(addr / PAGE_SIZE) == Low(addr' / PAGE_SIZE)
    requires var (c, p) := LookupSpec(Initial(), addr, answer); p != 0 && LookupSpec(c, addr', answer').1 != 0
    ensures LookupSpec(LookupSpec(Initial(), addr, answer).0, addr', answer').0.space.unmapped[0] == 1
  {
    var c := Initial();
    var (p, q) := (addr / PAGE_SIZE, addr' / PAGE_SIZE);
    LowVictim(c, p);
    MissLookup(c, addr, answer);
    ServedKeepsClean(c, addr, answer);
    var d := LookupSpec(c, addr, answer).0;
    var e := d.es[Low(p)];
    assert e.ptr in d.space.live && d.space.live[e.ptr].id == 0 && d.space.unmapped == multiset{};
    LowVictim(d, q);
    MissLookup(d, addr', answer');
  }

  lemma LowVictim(c: Cache, pfn: nat)
    requires c.Wf() && c.es[Low(pfn)].epoch == 0
    ensures Victim(c, pfn) == Low(pfn)
  {
    OldestIsLeast(c.es, c.epoch, Low(pfn), Low(pfn) + BUCKET_SIZE);
  }

  // ------------------------------------------------------------------
  // After an invalidate

  /** No entry holds a pointer, and entry k alone of its bucket carries the page's number. */
  ghost predicate Forgotten(d: Cache, pfn: nat, k: nat) {
    && d.Wf() && d.epoch + 1 < EPOCH_LIMIT && Low(pfn) <= k < Low(pfn) + BUCKET_SIZE && d.es[k].pfn == pfn
    && (forall i :: 0 <= i < ENTRY_COUNT ==> d.es[i].ptr == 0)
    && NoMatch(d.es, pfn, Low(pfn), k) && NoMatch(d.es, pfn, k + 1, Low(pfn) + BUCKET_SIZE)
  }

  lemma InvalidateForgets(c: Cache, pfn: nat, k: nat)
    requires Clean(c) && c.epoch + 1 < EPOCH_LIMIT && pfn != 0
    requires Low(pfn) <= k < Low(pfn) + BUCKET_SIZE && c.es[k].pfn == pfn
    ensures var d := InvalidateSpec(c, ENTRY_COUNT);
      Forgotten(d, pfn, k) && forall i :: 0 <= i < ENTRY_COUNT ==> d.es[i].epoch == c.es[i].epoch
  {
    var d := InvalidateSpec(c, ENTRY_COUNT);
    InvalidateClears(c, ENTRY_COUNT);
    assert CleanEntry(c.es[k], k, c.epoch);
    forall j | Low(pfn) <= j < Low(pfn) + BUCKET_SIZE && j != k
      ensures d.es[j].pfn != pfn
    {
      assert CleanEntry(c.es[j], j, c.epoch);
    }
  }

  /** The scan stamps the page's entry and finds no pointer. */
  lemma ForgottenScan(d: Cache, pfn: nat, k: nat)
    requires Forgotten(d, pfn, k)
    ensures TouchSpec(d, pfn) == (Cache(d.es[k := Entry(0, pfn, d.epoch)], d.epoch + 1, d.space), 0)
  {
    ScanUnique(d.es, d.epoch, pfn, Low(pfn), k, Low(pfn) + BUCKET_SIZE);
  }

  /** So the page is returned exactly if the victim comes after its old entry. */
  lemma ForgottenLookup(d: Cache, addr: nat, answer: nat, k: nat)
    requires Forgotten(d, addr / PAGE_SIZE, k) && Sound(d) && answer != 0 && answer % PAGE_SIZE == 0
    requires var pfn := addr / PAGE_SIZE;
      var v := Victim(TouchSpec(d, pfn).0, pfn);
      v < Low(pfn) + BUCKET_SIZE && v != k
    ensures var pfn := addr / PAGE_SIZE;
      var (e, p) := LookupSpec(d, addr, answer);
      && answer in e.space.live && e.space.live[answer].pfn == pfn
      && (p == 0 <==> Victim(TouchSpec(d, pfn).0, pfn) < k)
  {
    var pfn := addr / PAGE_SIZE;
    ForgottenScan(d, pfn, k);
    var c1 := TouchSpec(d, pfn).0;
    var v := Victim(c1, pfn);
    NothingLive(d);
    assert Empty(c1, v).space == d.space;
    LookupComplete(d, addr, answer);
    RefilledLive(c1, v, pfn, answer);
  }

  lemma NothingLive(d: Cache)
    requires Sound(d) && forall i :: 0 <= i < |d.es| ==> d.es[i].ptr == 0
    ensures d.space.live == map[]
  {
  }

  lemma RefilledLive(c: Cache, v: nat, pfn: nat, answer: nat)
    requires v < |c.es| && Empty(c, v).space.Grant(answer) == answer != 0
    ensures var s := Refill(c, v, pfn, answer).space; answer in s.live && s.live[answer].pfn == pfn
  {
  }

  /** Entry j is the least recently stamped of its bucket but for entry k. */
  ghost predicate OldestOther(c: Cache, lo: nat, j: nat, k: nat)
    requires c.Wf() && lo + BUCKET_SIZE <= |c.es|
  {
    lo <= j < lo + BUCKET_SIZE && j != k && forall i ::
      lo <= i < lo + BUCKET_SIZE && i != k ==> c.es[j].epoch <= c.es[i].epoch
  }

  /** The entry just stamped is not the victim; the first of the oldest others is. */
  lemma OtherVictim(c: Cache, c1: Cache, pfn: nat, k: nat)
    requires Clean(c) && c.epoch >= 1 && c1.Wf() && c1.epoch == c.epoch + 1 && Low(pfn) <= k < Low(pfn) + BUCKET_SIZE
    requires forall i :: 0 <= i < ENTRY_COUNT ==> c1.es[i].epoch == if i == k then c.epoch else c.es[i].epoch
    ensures Victim(c1, pfn) < Low(pfn) + BUCKET_SIZE && OldestOther(c, Low(pfn), Victim(c1, pfn), k)
    ensures forall j: nat :: OldestOther(c, Low(pfn), j, k) ==> Victim(c1, pfn) <= j
  {
    var (lo, hi, v) := (Low(pfn), Low(pfn) + BUCKET_SIZE, Victim(c1, pfn));
    VictimIff(c1, pfn);
    assert c1.es[k].epoch <= c1.epoch;
    var other := if k == lo then lo + 1 else lo;
    assert CleanEntry(c.es[other], other, c.epoch);
    assert c1.es[other].epoch == c.es[other].epoch < c.epoch == c1.es[k].epoch;
    forall j: nat | OldestOther(c, lo, j, k)
      ensures v <= j
    {
      assert c1.es[j].epoch == c1.es[v].epoch;
    }
  }

  lemma VictimBefore(c: Cache, lo: nat, v: nat, k: nat)
    requires c.Wf() && lo + BUCKET_SIZE <= |c.es| && OldestOther(c, lo, v, k)
    requires forall j: nat :: OldestOther(c, lo, j, k) ==> v <= j
    ensures v < k <==> exists j: nat :: j < k && OldestOther(c, lo, j, k)
    ensures k == lo + BUCKET_SIZE - 1 ==> v < k
  {
  }

  lemma AfterInvalidateFrom(c: Cache, d: Cache, addr: nat, answer: nat, k: nat)
    requires Clean(c) && c.epoch >= 1 && addr >= PAGE_SIZE && Forgotten(d, addr / PAGE_SIZE, k) && Sound(d)
    requires d.epoch == c.epoch
    requires forall i :: 0 <= i < ENTRY_COUNT ==> d.es[i].epoch == c.es[i].epoch
    requires answer != 0 && answer % PAGE_SIZE == 0
    ensures var pfn := addr / PAGE_SIZE;
      var (e, p) := LookupSpec(d, addr, answer);
      && answer in e.space.live && e.space.live[answer].pfn == pfn
      && (p == 0 <==> exists j: nat :: j < k && OldestOther(c, Low(pfn), j, k))
      && (k == Low(pfn) + BUCKET_SIZE - 1 ==> p == 0)
  {
    var pfn := addr / PAGE_SIZE;
    ForgottenScan(d, pfn, k);
    var v := Victim(TouchSpec(d, pfn).0, pfn);
    OtherVictim(c, TouchSpec(d, pfn).0, pfn, k);
    VictimBefore(c, Low(pfn), v, k);
    ForgottenLookup(d, addr, answer, k);
  }

  /** After an invalidate a page that was cached in entry k and is mapped again is not returned exactly if
      the bucket's oldest other entry comes before k; so a page in the bucket's last entry never is. */
  lemma AfterInvalidate(before: seq<Op>, c: Cache, addr: nat, pfn: nat, answer: nat, k: nat)
    requires Served(Initial(), before) && 1 <= |before| && |before| + 1 < EPOCH_LIMIT && c == Run(Initial(), before)
    requires pfn == addr / PAGE_SIZE != 0 && Low(pfn) <= k < Low(pfn) + BUCKET_SIZE && c.es[k].pfn == pfn
    requires answer != 0 && answer % PAGE_SIZE == 0
    ensures var (d, p) := LookupSpec(InvalidateSpec(c, ENTRY_COUNT), addr, answer);
      && answer in d.space.live && d.space.live[answer].pfn == pfn
      && (p == 0 <==> exists j: nat :: j < k && OldestOther(c, Low(pfn), j, k))
      && (k == Low(pfn) + BUCKET_SIZE - 1 ==> p == 0)
  {
    RunClean(Initial(), before);
    ReachableSound(before, addr, answer);
    InvalidateSound(c, ENTRY_COUNT);
    InvalidateForgets(c, pfn, k);
    AfterInvalidateFrom(c, InvalidateSpec(c, ENTRY_COUNT), addr, answer, k);
  }
}
