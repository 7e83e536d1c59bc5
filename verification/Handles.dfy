/** The handle tables of vmiop-env.c: blocks of 128 elements in a chain that only grows, handles
    that count elements from 1, and the walks between handles and element addresses. */
module Handles {
  const BLOCK := 128

  /** `used`: what the table's free test would read from each element. */
  datatype Block = Block(base: nat, at: nat, used: seq<bool>)

  /** `testReads`: the free test looks at the element; the region table's only looks for NULL and
      so never finds a free one. */
  datatype Table = Table(size: nat, testReads: bool, limit: nat, blocks: seq<Block>)

  predicate InBlock(size: nat, b: Block, o: nat) {
    b.at <= o < b.at + size * BLOCK
  }

  predicate Apart(size: nat, a: Block, b: Block) {
    a.at + size * BLOCK <= b.at || b.at + size * BLOCK <= a.at
  }

  ghost predicate Ok(t: Table) {
    && t.size > 0
    && t.limit == BLOCK * |t.blocks|
    && (forall i | 0 <= i < |t.blocks| ::
          t.blocks[i].base == BLOCK * i && t.blocks[i].at > 0 && |t.blocks[i].used| == BLOCK)
    && (forall i, j | 0 <= i < j < |t.blocks| :: Apart(t.size, t.blocks[i], t.blocks[j]))
  }

  // ------------------------------------------------------------------
  // Elements by number

  function Free(t: Table, n: nat): bool
    requires Ok(t) && n < t.limit
  {
    t.testReads && !t.blocks[n / BLOCK].used[n % BLOCK]
  }

  function Address(t: Table, n: nat): (a: nat)
    requires Ok(t) && n < t.limit
    ensures a > 0
  {
    t.blocks[n / BLOCK].at + n % BLOCK * t.size
  }

  lemma Within(size: nat, i: nat, r: nat)
    requires i < BLOCK && r < size
    ensures i * size + r < size * BLOCK && (i * size + r) / size == i
  {
    OneMore(i, BLOCK, size);
    QuotientIs(i * size + r, size, i, r);
  }

  lemma {:induction false} OneMore(a: nat, b: nat, size: nat)
    requires a < b
    ensures a * size + size <= b * size
  {
    assert b * size == (b - 1) * size + size;
    if a < b - 1 {
      OneMore(a, b - 1, size);
    }
  }

  lemma QuotientIs(x: nat, size: nat, i: nat, r: nat)
    requires r < size && x == i * size + r
    ensures x / size == i
  {
    var q := x / size;
    assert x == q * size + x % size;
    if q < i {
      OneMore(q, i, size);
    } else if i < q {
      OneMore(i, q, size);
    }
  }

  lemma AddressInBlock(t: Table, n: nat, r: nat)
    requires Ok(t) && n < t.limit && r < t.size
    ensures InBlock(t.size, t.blocks[n / BLOCK], Address(t, n) + r)
    ensures (Address(t, n) + r - t.blocks[n / BLOCK].at) / t.size == n % BLOCK
  {
    Within(t.size, n % BLOCK, r);
  }

  // ------------------------------------------------------------------
  // From handles to objects and back

  function ToObject(t: Table, h: nat, k: nat): nat
    requires Ok(t) && h > 0 && k <= |t.blocks|
    decreases |t.blocks| - k
  {
    if k == |t.blocks| || h - 1 < t.blocks[k].base then 0
    else if h - 1 < t.blocks[k].base + BLOCK then
      var i := h - 1 - t.blocks[k].base;
      if t.testReads && !t.blocks[k].used[i] then 0 else t.blocks[k].at + i * t.size
    else ToObject(t, h, k + 1)
  }

  /** 0 stands for the NULL handle and for the NULL object. */
  function HandleToObject(t: Table, h: nat): nat
    requires Ok(t)
  {
    if h == 0 then 0 else ToObject(t, h, 0)
  }

  function ToHandle(t: Table, o: nat, k: nat): nat
    requires Ok(t) && k <= |t.blocks|
    decreases |t.blocks| - k
  {
    if k == |t.blocks| then 0
    else if InBlock(t.size, t.blocks[k], o) then t.blocks[k].base + (o - t.blocks[k].at) / t.size + 1
    else ToHandle(t, o, k + 1)
  }

  function ObjectToHandle(t: Table, o: nat): nat
    requires Ok(t)
  {
    if o == 0 then 0 else ToHandle(t, o, 0)
  }

  predicate Live(t: Table, h: nat)
    requires Ok(t)
  {
    1 <= h <= t.limit && !Free(t, h - 1)
  }

  lemma {:induction false} ToObjectFrom(t: Table, h: nat, k: nat)
    requires Ok(t) && h > 0 && k <= |t.blocks| && BLOCK * k <= h - 1
    ensures ToObject(t, h, k) == if Live(t, h) then Address(t, h - 1) else 0
    decreases |t.blocks| - k
  {
    if k < |t.blocks| {
      if h - 1 < t.blocks[k].base + BLOCK {
        assert (h - 1) / BLOCK == k && (h - 1) % BLOCK == h - 1 - BLOCK * k;
      } else {
        ToObjectFrom(t, h, k + 1);
      }
    }
  }

  /** A handle gives its element exactly when it is live. */
  lemma LookupIsExact(t: Table, h: nat)
    requires Ok(t)
    ensures HandleToObject(t, h) == if Live(t, h) then Address(t, h - 1) else 0
  {
    if h > 0 {
      ToObjectFrom(t, h, 0);
    }
  }

  lemma {:induction false} ToHandleFrom(t: Table, o: nat, k: nat, b: nat)
    requires Ok(t) && k <= b < |t.blocks| && InBlock(t.size, t.blocks[b], o)
    ensures ToHandle(t, o, k) == t.blocks[b].base + (o - t.blocks[b].at) / t.size + 1
    decreases b - k
  {
    if k < b {
      assert Apart(t.size, t.blocks[k], t.blocks[b]);
      ToHandleFrom(t, o, k + 1, b);
    }
  }

  /** Any address inside an element gives the element's handle. */
  lemma HandleOfElement(t: Table, n: nat, r: nat)
    requires Ok(t) && n < t.limit && r < t.size
    ensures ObjectToHandle(t, Address(t, n) + r) == n + 1
  {
    AddressInBlock(t, n, r);
    ToHandleFrom(t, Address(t, n) + r, 0, n / BLOCK);
  }

  lemma {:induction false} Stray(t: Table, o: nat, k: nat)
    requires Ok(t) && k <= |t.blocks|
    ensures ToHandle(t, o, k) == 0 <==> forall b | k <= b < |t.blocks| :: !InBlock(t.size, t.blocks[b], o)
    decreases |t.blocks| - k
  {
    if k < |t.blocks| {
      Stray(t, o, k + 1);
      if InBlock(t.size, t.blocks[k], o) {
        assert (o - t.blocks[k].at) / t.size >= 0;
      }
    }
  }

  /** An address outside every block has no handle, and no other address has none. */
  lemma OutsideHasNoHandle(t: Table, o: nat)
    requires Ok(t)
    ensures ObjectToHandle(t, o) == 0 <==> forall b | 0 <= b < |t.blocks| :: !InBlock(t.size, t.blocks[b], o)
  {
    Stray(t, o, 0);
  }

  /** The two lookups undo each other on live handles and their objects. */
  lemma LookupsUndo(t: Table, h: nat)
    requires Ok(t) && Live(t, h)
    ensures HandleToObject(t, h) != 0
    ensures ObjectToHandle(t, HandleToObject(t, h)) == h
    ensures HandleToObject(t, ObjectToHandle(t, HandleToObject(t, h))) == HandleToObject(t, h)
  {
    LookupIsExact(t, h);
    HandleOfElement(t, h - 1, 0);
  }

  lemma LiveAreDistinct(t: Table, g: nat, h: nat)
    requires Ok(t) && Live(t, g) && Live(t, h) && g != h
    ensures HandleToObject(t, g) != HandleToObject(t, h)
  {
    LookupsUndo(t, g);
    LookupsUndo(t, h);
  }

  // ------------------------------------------------------------------
  // Allocation

  datatype Result = Allocated(handle: nat, element: nat) | NoMemory

  /** Number of the first free element from the n-th on, or the limit. */
  function FirstFree(t: Table, n: nat): (f: nat)
    requires Ok(t) && n <= t.limit
    ensures n <= f <= t.limit && (f < t.limit ==> Free(t, f))
    ensures forall m | n <= m < f :: !Free(t, m)
    decreases t.limit - n
  {
    if n == t.limit || Free(t, n) then n else FirstFree(t, n + 1)
  }

  /** What calloc may return: 0, or zeroed memory apart from every block. */
  predicate FreshAt(t: Table, at: nat) {
    at != 0 ==> forall i | 0 <= i < |t.blocks| :: Apart(t.size, t.blocks[i], Block(t.limit, at, []))
  }

  function Extended(t: Table, at: nat): (u: Table)
    requires Ok(t) && FreshAt(t, at) && at != 0
    ensures Ok(u)
  {
    t.(limit := t.limit + BLOCK, blocks := t.blocks + [Block(t.limit, at, seq(BLOCK, _ => false))])
  }

  function AllocatedTable(t: Table, at: nat): (u: Table)
    requires Ok(t) && FreshAt(t, at)
    ensures Ok(u)
  {
    if FirstFree(t, 0) < t.limit || at == 0 then t else Extended(t, at)
  }

  function Allocate(t: Table, at: nat): Result
    requires Ok(t) && FreshAt(t, at)
  {
    var f := FirstFree(t, 0);
    if f < t.limit then Allocated(f + 1, Address(t, f))
    else if at == 0 then NoMemory
    else Allocated(t.limit + 1, at)
  }

  /** The caller, or the owner later, marks an element used or free. */
  function Marked(t: Table, n: nat, used: bool): (u: Table)
    requires Ok(t) && n < t.limit
    ensures Ok(u) && u.limit == t.limit
  {
    var b := t.blocks[n / BLOCK];
    t.(blocks := t.blocks[n / BLOCK := b.(used := b.used[n % BLOCK := used])])
  }

  lemma ExtendedKeeps(t: Table, at: nat, n: nat)
    requires Ok(t) && FreshAt(t, at) && at != 0 && n < t.limit + BLOCK
    ensures n < t.limit ==> Free(Extended(t, at), n) == Free(t, n) && Address(Extended(t, at), n) == Address(t, n)
    ensures n >= t.limit ==> Free(Extended(t, at), n) == t.testReads
    ensures n == t.limit ==> Address(Extended(t, at), n) == at
  {
    if n < t.limit {
      assert Extended(t, at).blocks[n / BLOCK] == t.blocks[n / BLOCK];
    }
  }

  lemma MarkedElsewhere(t: Table, n: nat, used: bool, m: nat)
    requires Ok(t) && n < t.limit && m < t.limit
    ensures Address(Marked(t, n, used), m) == Address(t, m)
    ensures Free(Marked(t, n, used), m) == if m == n then t.testReads && !used else Free(t, m)
  {
    if m / BLOCK == n / BLOCK && m % BLOCK == n % BLOCK {
      assert m == n;
    }
  }

  /** For a test that reads the element, the handle is the smallest one not live, or the first of a
      new block when all are; memory is short only if all handles are live. */
  lemma AllocateIsSmallest(t: Table, at: nat, g: nat)
    requires Ok(t) && FreshAt(t, at) && t.testReads
    ensures Allocate(t, at).NoMemory? ==>
              at == 0 && AllocatedTable(t, at) == t && (1 <= g <= t.limit ==> Live(t, g))
    ensures Allocate(t, at).Allocated? ==>
              var h, u := Allocate(t, at).handle, AllocatedTable(t, at);
              && 1 <= h <= u.limit && !Live(u, h)
              && (1 <= g < h ==> Live(t, g))
              && (Live(t, g) <==> Live(u, g))
  {
    var f := FirstFree(t, 0);
    assert 1 <= g <= t.limit && g - 1 < f ==> !Free(t, g - 1);
    if f == t.limit && at != 0 {
      ExtendedKeeps(t, at, f);
      if 1 <= g <= t.limit + BLOCK {
        ExtendedKeeps(t, at, g - 1);
      }
    }
  }

  /** Marking what was allocated makes just that handle live too, and it leads to the element that
      the allocation reported. */
  lemma AllocatedThenMarked(t: Table, at: nat, g: nat)
    requires Ok(t) && FreshAt(t, at) && t.testReads && Allocate(t, at).Allocated?
    ensures var h := Allocate(t, at).handle;
            var v := Marked(AllocatedTable(t, at), h - 1, true);
            && (Live(v, g) <==> Live(t, g) || g == h)
            && HandleToObject(v, h) == Allocate(t, at).element
  {
    AllocateIsSmallest(t, at, g);
    AllocatedElement(t, at);
    MarkedLive(AllocatedTable(t, at), Allocate(t, at).handle, g);
  }

  lemma AllocatedElement(t: Table, at: nat)
    requires Ok(t) && FreshAt(t, at) && Allocate(t, at).Allocated?
    ensures var h := Allocate(t, at).handle;
            1 <= h <= AllocatedTable(t, at).limit && Address(AllocatedTable(t, at), h - 1) == Allocate(t, at).element
  {
    if FirstFree(t, 0) == t.limit {
      ExtendedKeeps(t, at, t.limit);
    }
  }

  lemma MarkedLive(u: Table, h: nat, g: nat)
    requires Ok(u) && 1 <= h <= u.limit
    ensures var v := Marked(u, h - 1, true);
            (Live(v, g) <==> Live(u, g) || g == h) && HandleToObject(v, h) == Address(u, h - 1)
  {
    MarkedElsewhere(u, h - 1, true, h - 1);
    if 1 <= g <= u.limit {
      MarkedElsewhere(u, h - 1, true, g - 1);
    }
    LookupIsExact(Marked(u, h - 1, true), h);
  }

  /** Allocation marks nothing: asked again before the caller marks it, the same handle and object
      come back. With a test that never finds a free element, every allocation takes a new block. */
  lemma AllocateAgain(t: Table, at: nat, again: nat)
    requires Ok(t) && FreshAt(t, at) && FreshAt(AllocatedTable(t, at), again)
    requires Allocate(t, at).Allocated?
    ensures t.testReads ==> Allocate(AllocatedTable(t, at), again) == Allocate(t, at)
    ensures !t.testReads && again != 0 ==>
              Allocate(AllocatedTable(t, at), again) == Allocated(Allocate(t, at).handle + BLOCK, again)
  {
    var u, f := AllocatedTable(t, at), FirstFree(t, 0);
    if f == t.limit {
      ExtendedKeeps(t, at, f);
      var g := FirstFree(u, 0);
      if t.testReads && g < f {
        ExtendedKeeps(t, at, g);
        assert false;
      }
    }
  }

  // ------------------------------------------------------------------
  // Runs

  datatype Op = Get(at: nat) | Mark(n: nat, used: bool)

  predicate OpOk(t: Table, op: Op) {
    match op case Get(at) => FreshAt(t, at) case Mark(n, _) => n < t.limit
  }

  function Step(t: Table, op: Op): (u: Table)
    requires Ok(t) && OpOk(t, op)
    ensures Ok(u)
  {
    match op case Get(at) => AllocatedTable(t, at) case Mark(n, used) => Marked(t, n, used)
  }

  ghost predicate RunOk(t: Table, ops: seq<Op>)
    requires Ok(t)
    decreases |ops|
  {
    ops == [] || (OpOk(t, ops[0]) && RunOk(Step(t, ops[0]), ops[1..]))
  }

  ghost function Run(t: Table, ops: seq<Op>): (u: Table)
    requires Ok(t) && RunOk(t, ops)
    ensures Ok(u)
    decreases |ops|
  {
    if ops == [] then t else Run(Step(t, ops[0]), ops[1..])
  }

  function Empty(size: nat, testReads: bool): (t: Table)
    requires size > 0
    ensures Ok(t)
  {
    Table(size, testReads, 0, [])
  }

  /** Blocks are never freed or moved: whatever is allocated, marked or given back later, a live
      handle keeps its object as long as it is not itself given back. */
  lemma {:induction false} HandleIsStable(t: Table, ops: seq<Op>, h: nat)
    requires Ok(t) && RunOk(t, ops) && Live(t, h)
    requires Mark(h - 1, false) !in ops
    ensures Live(Run(t, ops), h) && HandleToObject(Run(t, ops), h) == HandleToObject(t, h)
    decreases |ops|
  {
    if ops != [] {
      var u := Step(t, ops[0]);
      assert ops[0] in ops;
      match ops[0] {
        case Get(at) =>
          if u != t {
            ExtendedKeeps(t, at, h - 1);
          }
        case Mark(n, used) => MarkedElsewhere(t, n, used, h - 1);
      }
      LookupIsExact(t, h);
      LookupIsExact(u, h);
      HandleIsStable(u, ops[1..], h);
    }
  }

  // ------------------------------------------------------------------
  // The table in place

  class ObjectTable {
    const size: nat
    const testReads: bool
    var limit: nat
    var blocks: seq<Block>

    function State(): Table
      reads this
    {
      Table(size, testReads, limit, blocks)
    }

    constructor (size: nat, testReads: bool)
      requires size > 0
      ensures State() == Empty(size, testReads)
    {
      this.size, this.testReads, limit, blocks := size, testReads, 0, [];
    }

    method ObjectOf(h: nat) returns (o: nat)
      requires Ok(State())
      ensures o == HandleToObject(State(), h)
    {
      if h == 0 {
        return 0;
      }
      var k := 0;
      while k < |blocks|
        invariant k <= |blocks| && ToObject(State(), h, k) == ToObject(State(), h, 0)
      {
        var b := blocks[k];
        if h - 1 < b.base {
          return 0;
        }
        if h - 1 < b.base + BLOCK {
          var i := h - 1 - b.base;
          return if testReads && !b.used[i] then 0 else b.at + i * size;
        }
        k := k + 1;
      }
      return 0;
    }

    method HandleOf(o: nat) returns (h: nat)
      requires Ok(State())
      ensures h == ObjectToHandle(State(), o)
    {
      if o == 0 {
        return 0;
      }
      var k := 0;
      while k < |blocks|
        invariant k <= |blocks| && ToHandle(State(), o, k) == ToHandle(State(), o, 0)
      {
        if InBlock(size, blocks[k], o) {
          return blocks[k].base + (o - blocks[k].at) / size + 1;
        }
        k := k + 1;
      }
      return 0;
    }

    method FreeInBlock(k: nat) returns (i: nat)
      requires Ok(State()) && k < |blocks|
      ensures i <= BLOCK && FirstFree(State(), BLOCK * k + i) == FirstFree(State(), BLOCK * k)
      ensures i < BLOCK ==> Free(State(), BLOCK * k + i)
    {
      i := 0;
      while i < BLOCK
        invariant i <= BLOCK && FirstFree(State(), BLOCK * k + i) == FirstFree(State(), BLOCK * k)
      {
        assert (BLOCK * k + i) / BLOCK == k && (BLOCK * k + i) % BLOCK == i;
        if testReads && !blocks[k].used[i] {
          return;
        }
        i := i + 1;
      }
    }

    /** The first free element, by block and place in it. */
    lemma FirstAt(t: Table, at: nat, k: nat, i: nat)
      requires Ok(t) && FreshAt(t, at) && k < |t.blocks| && i < BLOCK && FirstFree(t, 0) == BLOCK * k + i
      ensures Allocate(t, at) == Allocated(t.blocks[k].base + i + 1, t.blocks[k].at + i * t.size)
      ensures AllocatedTable(t, at) == t
    {
      assert (BLOCK * k + i) / BLOCK == k && (BLOCK * k + i) % BLOCK == i;
    }

    /** A new block at the end of the chain. */
    method Grow(at: nat) returns (r: Result)
      requires Ok(State()) && FreshAt(State(), at)
      modifies this
      ensures at == 0 ==> r == NoMemory && State() == old(State())
      ensures at != 0 ==> r == Allocated(old(limit) + 1, at) && State() == Extended(old(State()), at)
    {
      if at == 0 {
        return NoMemory;
      }
      blocks := blocks + [Block(limit, at, seq(BLOCK, _ => false))];
      limit := limit + BLOCK;
      r := Allocated(limit - BLOCK + 1, at);
    }

    /** Look through every element of every block, then take a new block. */
    method New(at: nat) returns (r: Result)
      requires Ok(State()) && FreshAt(State(), at)
      modifies this
      ensures r == Allocate(old(State()), at)
      ensures State() == AllocatedTable(old(State()), at)
    {
      var k := 0;
      while k < |blocks|
        invariant State() == old(State())
        invariant k <= |blocks| && FirstFree(State(), BLOCK * k) == FirstFree(State(), 0)
      {
        var i := FreeInBlock(k);
        if i < BLOCK {
          FirstAt(State(), at, k, i);
          return Allocated(blocks[k].base + i + 1, blocks[k].at + i * size);
        }
        k := k + 1;
      }
      r := Grow(at);
    }
  }
}
