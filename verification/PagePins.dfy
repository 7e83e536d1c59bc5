/** Pinning and unpinning lists of guest pages in batches (vmiop-env.c), with the hypervisor's
    translation and release calls as functions of the batch they are given. */
module PagePins {
  const BATCH := 128
  const WRAP := 0x1_0000_0000

  /** VMIOP_PAGE_NUMBER_NULL */
  const NULL_PAGE := 0xFFFF_FFFF_FFFF_FFFF

  datatype Status = Success | Resource | Inval | Refused | NoLimit

  // ------------------------------------------------------------------
  // How far a list is translated

  function Least(a: nat, b: nat): nat {
    if a < b then a else b
  }

  /** Index of the page whose own translation is refused, or the length of the list: from page li
      on in batches of at most `limit`, a refused batch being tried again a page at a time. */
  function Reached(src: seq<nat>, li: nat, limit: nat, refuses: seq<nat> -> bool): (n: nat)
    requires li <= |src| && limit >= 1
    ensures li <= n <= |src|
    decreases |src| - li, limit
  {
    if li == |src| then li
    else
      var n := Least(limit, |src| - li);
      if refuses(src[li..li + n]) then
        if limit > 1 then Reached(src, li, 1, refuses) else li
      else Reached(src, li + n, limit, refuses)
  }

  /** A page at a time, the list is translated up to the first page refused. */
  lemma {:induction false} ReachedSingly(src: seq<nat>, li: nat, refuses: seq<nat> -> bool)
    requires li <= |src|
    ensures var n := Reached(src, li, 1, refuses);
            && (n < |src| ==> refuses([src[n]]))
            && forall i | li <= i < n :: !refuses([src[i]])
    decreases |src| - li
  {
    if li < |src| {
      assert src[li..li + 1] == [src[li]];
      if !refuses([src[li]]) {
        ReachedSingly(src, li + 1, refuses);
      }
    }
  }

  /** A hypervisor that refuses a batch just when it would refuse a page of it. */
  ghost predicate PageByPage(refuses: seq<nat> -> bool) {
    forall b {:trigger SomeRefused(b, refuses)} :: refuses(b) <==> SomeRefused(b, refuses)
  }

  ghost predicate SomeRefused(b: seq<nat>, refuses: seq<nat> -> bool) {
    exists i | 0 <= i < |b| :: refuses([b[i]])
  }

  lemma PagesAccepted(b: seq<nat>, i: nat, refuses: seq<nat> -> bool)
    requires PageByPage(refuses) && i < |b| && !refuses(b)
    ensures !refuses([b[i]])
  {
    assert !SomeRefused(b, refuses);
  }

  /** Then trying in batches first makes no difference: the list is translated up to the first page
      refused. */
  lemma {:induction false} ReachedIsFirstRefused(src: seq<nat>, li: nat, limit: nat, refuses: seq<nat> -> bool)
    requires li <= |src| && limit >= 1 && PageByPage(refuses)
    ensures var n := Reached(src, li, limit, refuses);
            && (n < |src| ==> refuses([src[n]]))
            && forall i | li <= i < n :: !refuses([src[i]])
    decreases |src| - li, limit
  {
    if li < |src| {
      var n := Least(limit, |src| - li);
      var b := src[li..li + n];
      if limit == 1 || refuses(b) {
        ReachedSingly(src, li, refuses);
      } else {
        ReachedIsFirstRefused(src, li + n, limit, refuses);
        forall i | li <= i < li + n ensures !refuses([src[i]]) {
          PagesAccepted(b, i - li, refuses);
        }
      }
    }
  }

  // ------------------------------------------------------------------
  // The limit on guest page numbers

  /** The greatest page number the cached count admits: the subtraction is 32-bit. */
  function Greatest(count: nat): nat {
    (count + WRAP - 1) % WRAP
  }

  /** The cached count once a page has been looked at. */
  function CountAfter(count: nat, page: nat, reported: int): nat {
    if page > Greatest(count) && reported > count then reported else count
  }

  predicate Admits(count: nat, page: nat, reported: int) {
    page <= Greatest(count) || (reported >= 0 && page <= Greatest(CountAfter(count, page, reported)))
  }

  /** Index of the first page, from i on, beyond the limit, or the length of the list. */
  function Admitted(count: nat, src: seq<nat>, i: nat, reported: int): (n: nat)
    requires i <= |src|
    ensures i <= n <= |src|
    decreases |src| - i
  {
    if i == |src| || !Admits(count, src[i], reported) then i
    else Admitted(CountAfter(count, src[i], reported), src, i + 1, reported)
  }

  /** With a cached count set, pages are admitted up to the first at or beyond both the cached and
      the reported count, in whatever order they come. */
  lemma {:induction false} AdmittedIsBelowLimits(count: nat, src: seq<nat>, i: nat, reported: int)
    requires i <= |src| && 0 < count < WRAP && reported < WRAP
    ensures var n := Admitted(count, src, i, reported);
            && (n < |src| ==> src[n] >= count && src[n] >= reported)
            && forall j | i <= j < n :: src[j] < count || src[j] < reported
    decreases |src| - i
  {
    if i < |src| && Admits(count, src[i], reported) {
      AdmittedIsBelowLimits(CountAfter(count, src[i], reported), src, i + 1, reported);
    }
  }

  /** A count of zero wraps and admits every 32-bit page number, whatever would be reported. */
  lemma UnsetCountAdmitsAll(src: seq<nat>, reported: int)
    requires forall i | 0 <= i < |src| :: src[i] < WRAP
    ensures Admitted(0, src, 0, reported) == |src|
  {
    UnsetFrom(src, 0, reported);
  }

  lemma {:induction false} UnsetFrom(src: seq<nat>, i: nat, reported: int)
    requires i <= |src| && forall j | i <= j < |src| :: src[j] < WRAP
    ensures Admitted(0, src, i, reported) == |src|
    decreases |src| - i
  {
    if i < |src| {
      UnsetFrom(src, i + 1, reported);
    }
  }

  // ------------------------------------------------------------------
  // Pinning

  /** demu_translate_guest_pages on the first n pages of a batch. */
  method Translate(gpfns: array<nat>, mfns: array<nat>, n: nat,
                   translate: nat -> nat, refuses: seq<nat> -> bool) returns (ok: bool)
    requires n <= gpfns.Length && n <= mfns.Length && gpfns != mfns
    modifies mfns
    ensures ok == !refuses(gpfns[..n])
    ensures ok ==> forall i | 0 <= i < n :: mfns[i] == translate(gpfns[i])
  {
    ok := !refuses(gpfns[..n]);
    if ok {
      var i := 0;
      while i < n
        invariant i <= n && forall j | 0 <= j < i :: mfns[j] == translate(gpfns[j])
      {
        mfns[i] := translate(gpfns[i]);
        i := i + 1;
      }
    }
  }

  /** A list with the translations of n pages stored over its start. */
  ghost predicate Stored(now: seq<nat>, before: seq<nat>, src: seq<nat>, n: nat, translate: nat -> nat) {
    && n <= |src| <= |before| && |now| == |before|
    && forall k | 0 <= k < |now| :: now[k] == if k < n then translate(src[k]) else before[k]
  }

  lemma StoredMore(now: seq<nat>, mid: seq<nat>, before: seq<nat>, src: seq<nat>, li: nat, ti: nat,
                   translate: nat -> nat)
    requires Stored(mid, before, src, li, translate) && li + ti <= |src| && |now| == |mid|
    requires forall k | 0 <= k < |now| :: now[k] == if li <= k < li + ti then translate(src[k]) else mid[k]
    ensures Stored(now, before, src, li + ti, translate)
  {
  }

  /** How a pin ends: the number of pages stored, and why no more. */
  datatype Outcome = Outcome(pages: nat, status: Status)

  function BeyondLimit(reported: int): Status {
    if reported < 0 then NoLimit else Inval
  }

  /** How a pin that has got to page li will end: at the first page refused or beyond the limit. */
  function PinnedFrom(count: nat, src: seq<nat>, li: nat, limit: nat, refuses: seq<nat> -> bool, reported: int):
    (o: Outcome)
    requires li <= |src| && limit >= 1
    ensures li <= o.pages <= |src| && (o.status == Success <==> o.pages == |src|)
  {
    var r, a := Reached(src, li, limit, refuses), Admitted(count, src, li, reported);
    if a < r then Outcome(a, BeyondLimit(reported))
    else Outcome(r, if r == |src| then Success else Refused)
  }

  function Pinned(count: nat, src: seq<nat>, refuses: seq<nat> -> bool, reported: int): (o: Outcome)
    ensures o.pages <= |src| && (o.status == Success <==> o.pages == |src|)
  {
    PinnedFrom(count, src, 0, BATCH, refuses, reported)
  }

  lemma RefusedBatch(count: nat, src: seq<nat>, li: nat, limit: nat, refuses: seq<nat> -> bool, reported: int)
    requires li < |src| && limit >= 1 && refuses(src[li..li + Least(limit, |src| - li)])
    ensures PinnedFrom(count, src, li, limit, refuses, reported)
         == if limit > 1 then PinnedFrom(count, src, li, 1, refuses, reported) else Outcome(li, Refused)
  {
  }

  lemma StoredBatch(count: nat, src: seq<nat>, li: nat, limit: nat, refuses: seq<nat> -> bool, reported: int,
                    ti: nat, now: nat)
    requires li < |src| && limit >= 1 && !refuses(src[li..li + Least(limit, |src| - li)])
    requires ti <= Least(limit, |src| - li)
    requires Admitted(count, src, li, reported)
          == if ti < Least(limit, |src| - li) then li + ti
             else Admitted(now, src, li + Least(limit, |src| - li), reported)
    ensures PinnedFrom(count, src, li, limit, refuses, reported)
         == if ti < Least(limit, |src| - li) then Outcome(li + ti, BeyondLimit(reported))
            else PinnedFrom(now, src, li + Least(limit, |src| - li), limit, refuses, reported)
  {
  }

  class Pages {
    /** vmiope_guest_pfn_count */
    var count: nat

    constructor (reported: nat)
      ensures count == reported
    {
      count := reported;
    }

    /** One page against the limit, asking the hypervisor again if it is beyond what is cached. */
    method Check(page: nat, reported: int) returns (status: Status)
      modifies this
      ensures count == CountAfter(old(count), page, reported)
      ensures status == if Admits(old(count), page, reported) then Success
                        else BeyondLimit(reported)
    {
      if page <= Greatest(count) {
        return Success;
      }
      if reported < 0 {
        return NoLimit;
      }
      if reported > count {
        count := reported;
      }
      return if page <= Greatest(count) then Success else Inval;
    }

    /** The pages of a translated batch, up to the first beyond the limit. */
    method Store(gpfns: array<nat>, mfns: array<nat>, n: nat, dest: array<nat>, li: nat,
                 ghost src: seq<nat>, reported: int) returns (status: Status, ti: nat)
      requires n <= gpfns.Length && n <= mfns.Length && li + n <= |src| <= dest.Length
      requires gpfns != dest && mfns != dest && gpfns[..n] == src[li..li + n]
      modifies this, dest
      ensures ti <= n && status == if ti == n then Success else BeyondLimit(reported)
      ensures Admitted(old(count), src, li, reported)
           == if ti < n then li + ti else Admitted(count, src, li + n, reported)
      ensures forall k | 0 <= k < dest.Length ::
                dest[k] == if li <= k < li + ti then mfns[k - li] else old(dest[k])
    {
      ti := 0;
      status := Success;
      while ti < n
        invariant ti <= n && status == Success
        invariant Admitted(old(count), src, li, reported) == Admitted(count, src, li + ti, reported)
        invariant forall k | 0 <= k < dest.Length ::
                    dest[k] == if li <= k < li + ti then mfns[k - li] else old(dest[k])
      {
        assert gpfns[ti] == gpfns[..n][ti] == src[li + ti];
        status := Check(gpfns[ti], reported);
        if status != Success {
          return;
        }
        dest[li + ti] := mfns[ti];
        ti := ti + 1;
      }
    }

    /** One batch: nothing is stored if it is refused, and the pages up to the first beyond the limit
        if it is not. */
    method Batch(gpfn: array<nat>, hpfn: array<nat>, li: nat, n: nat, ghost limit: nat,
                 ghost src: seq<nat>, ghost dest: seq<nat>,
                 translate: nat -> nat, refuses: seq<nat> -> bool, reported: int)
      returns (status: Status, ghost ti: nat)
      requires li < |src| <= gpfn.Length && 1 <= limit <= BATCH && n == Least(limit, |src| - li)
      requires forall k | li <= k < |src| :: gpfn[k] == src[k]
      requires Stored(hpfn[..], dest, src, li, translate)
      modifies this, hpfn
      ensures status == Refused ==>
                && ti == 0 && count == old(count)
                && PinnedFrom(count, src, li, limit, refuses, reported)
                   == if limit > 1 then PinnedFrom(count, src, li, 1, refuses, reported) else Outcome(li, Refused)
      ensures status == Success ==>
                && ti == n
                && PinnedFrom(old(count), src, li, limit, refuses, reported)
                   == PinnedFrom(count, src, li + n, limit, refuses, reported)
      ensures status != Refused && status != Success ==>
                ti < n && PinnedFrom(old(count), src, li, limit, refuses, reported) == Outcome(li + ti, status)
      ensures forall k | li + ti <= k < |src| :: gpfn[k] == src[k]
      ensures Stored(hpfn[..], dest, src, li + ti, translate)
    {
      ghost var mid := hpfn[..];
      var gpfns, mfns := new nat[BATCH], new nat[BATCH];
      assert gpfn[li..li + n] == src[li..li + n];
      Copy(gpfn, li, gpfns, n);
      var ok := Translate(gpfns, mfns, n, translate, refuses);
      if !ok {
        RefusedBatch(count, src, li, limit, refuses, reported);
        return Refused, 0;
      }
      var stored;
      status, stored := Store(gpfns, mfns, n, hpfn, li, src, reported);
      ti := stored;
      StoredBatch(old(count), src, li, limit, refuses, reported, ti, count);
      assert forall k | li <= k < li + n :: gpfns[..n][k - li] == src[k];
      StoredMore(hpfn[..], mid, dest, src, li, ti, translate);
    }

    /** Batches of 128 until one is refused, then of one. On success every page is translated, and
        on failure just those before the one refused or beyond the limit, also when the two lists
        are the same array. */
    method Pin(gpfn: array<nat>, hpfn: array<nat>, pfnCount: nat,
               translate: nat -> nat, refuses: seq<nat> -> bool, reported: int) returns (status: Status)
      requires pfnCount <= gpfn.Length && pfnCount <= hpfn.Length
      modifies this, hpfn
      ensures var o := Pinned(old(count), old(gpfn[..pfnCount]), refuses, reported);
              && status == o.status
              && Stored(hpfn[..], old(hpfn[..]), old(gpfn[..pfnCount]), o.pages, translate)
    {
      ghost var src, dest := gpfn[..pfnCount], hpfn[..];
      ghost var pinned := Pinned(count, src, refuses, reported);
      var limit, li := BATCH, 0;
      status := Success;
      while li < pfnCount
        invariant li <= pfnCount && 1 <= limit <= BATCH && status == Success
        invariant PinnedFrom(count, src, li, limit, refuses, reported) == pinned
        invariant forall k | li <= k < pfnCount :: gpfn[k] == src[k]
        invariant Stored(hpfn[..], dest, src, li, translate)
        decreases pfnCount - li, limit
      {
        var n := Least(limit, pfnCount - li);
        ghost var ti;
        status, ti := Batch(gpfn, hpfn, li, n, limit, src, dest, translate, refuses, reported);
        if status == Refused {
          if limit == 1 {
            return;
          }
          limit := 1;
          status := Success;
        } else if status != Success {
          return;
        } else {
          li := li + n;
        }
      }
    }

    method PinGuestPages(gpfn: array?<nat>, hpfn: array?<nat>, pfnCount: nat,
                         translate: nat -> nat, refuses: seq<nat> -> bool, reported: int)
      returns (status: Status)
      requires gpfn != null && hpfn != null ==> pfnCount <= gpfn.Length && pfnCount <= hpfn.Length
      modifies this, if hpfn == null then {} else {hpfn}
      ensures gpfn == null || hpfn == null ==> status == Inval && (hpfn != null ==> hpfn[..] == old(hpfn[..]))
      ensures gpfn != null && hpfn != null && status == Success ==>
                Stored(hpfn[..], old(hpfn[..]), old(gpfn[..pfnCount]), pfnCount, translate)
    {
      if gpfn == null || hpfn == null {
        return Inval;
      }
      status := Pin(gpfn, hpfn, pfnCount, translate, refuses, reported);
    }
  }

  method Copy(from: array<nat>, at: nat, to: array<nat>, n: nat)
    requires at + n <= from.Length && n <= to.Length && from != to
    modifies to
    ensures to[..n] == from[at..at + n]
  {
    var i := 0;
    while i < n
      invariant i <= n && to[..i] == from[at..at + i]
    {
      to[i] := from[at + i];
      i := i + 1;
    }
  }

  /** When the hypervisor judges pages one by one and a count is cached, a list is pinned exactly if
      no page of it is refused and each is below the cached or the reported count. */
  lemma PinnedExactly(count: nat, src: seq<nat>, refuses: seq<nat> -> bool, reported: int)
    requires PageByPage(refuses) && 0 < count < WRAP && reported < WRAP
    ensures Pinned(count, src, refuses, reported).status == Success
       <==> forall i | 0 <= i < |src| :: !refuses([src[i]]) && (src[i] < count || src[i] < reported)
  {
    ReachedIsFirstRefused(src, 0, BATCH, refuses);
    AdmittedIsBelowLimits(count, src, 0, reported);
  }

  // ------------------------------------------------------------------
  // Unpinning

  function NonNull(src: seq<nat>): seq<nat> {
    if src == [] then []
    else NonNull(src[..|src| - 1]) + if src[|src| - 1] == NULL_PAGE then [] else [src[|src| - 1]]
  }

  lemma NonNullNext(src: seq<nat>, i: nat)
    requires i < |src|
    ensures NonNull(src[..i + 1]) == NonNull(src[..i]) + if src[i] == NULL_PAGE then [] else [src[i]]
  {
    assert src[..i + 1][..i] == src[..i];
  }

  function Flatten(bs: seq<seq<nat>>): seq<nat> {
    if bs == [] then [] else Flatten(bs[..|bs| - 1]) + bs[|bs| - 1]
  }

  /** Batches to release: full but for the last, and none empty. */
  ghost predicate Batched(bs: seq<seq<nat>>) {
    && (forall i | 0 <= i < |bs| :: 1 <= |bs[i]| <= BATCH)
    && (forall i | 0 <= i < |bs| - 1 :: |bs[i]| == BATCH)
  }

  /** What a run of releases reports: a failure is remembered, and the loop goes on. */
  function Verdict(bs: seq<seq<nat>>, fails: seq<nat> -> bool): Status {
    if bs == [] then Success
    else if fails(bs[|bs| - 1]) then Inval else Verdict(bs[..|bs| - 1], fails)
  }

  lemma {:induction false} VerdictIsAnyFailure(bs: seq<seq<nat>>, fails: seq<nat> -> bool)
    ensures Verdict(bs, fails) == if exists i | 0 <= i < |bs| :: fails(bs[i]) then Inval else Success
  {
    if bs != [] {
      VerdictIsAnyFailure(bs[..|bs| - 1], fails);
    }
  }

  method Release(batch: seq<nat>, fails: seq<nat> -> bool, status: Status, released: seq<seq<nat>>)
    returns (now: Status, all: seq<seq<nat>>)
    requires status == Verdict(released, fails)
    ensures all == released + [batch] && Flatten(all) == Flatten(released) + batch
    ensures now == Verdict(all, fails)
  {
    all := released + [batch];
    now := if fails(batch) then Inval else status;
    assert all[..|all| - 1] == released;
  }

  /** One more page in the buffer, released when that is full. */
  method Gather(mfns: array<nat>, c: nat, page: nat, fails: seq<nat> -> bool, status: Status, released: seq<seq<nat>>)
    returns (left: nat, now: Status, all: seq<seq<nat>>)
    requires mfns.Length == BATCH && c < BATCH && status == Verdict(released, fails)
    requires forall j | 0 <= j < |released| :: |released[j]| == BATCH
    modifies mfns
    ensures left < BATCH && now == Verdict(all, fails)
    ensures Flatten(all) + mfns[..left] == Flatten(released) + old(mfns[..c]) + [page]
    ensures forall j | 0 <= j < |all| :: |all[j]| == BATCH
  {
    left, now, all := c + 1, status, released;
    mfns[c] := page;
    assert mfns[..c + 1] == old(mfns[..c]) + [page];
    if left == BATCH {
      now, all := Release(mfns[..left], fails, status, released);
      left := 0;
    }
  }

  /** `released` lists the release calls. Without the buffer nothing happens; with it every page that
      is not null is released once, in order, and every entry ends up null, even if releases fail. */
  method Unpin(hpfn: array<nat>, pfnCount: nat, malloc: bool, mlock: bool, fails: seq<nat> -> bool)
    returns (status: Status, released: seq<seq<nat>>)
    requires pfnCount <= hpfn.Length
    modifies hpfn
    ensures !malloc || !mlock ==> status == Resource && released == [] && hpfn[..] == old(hpfn[..])
    ensures malloc && mlock ==>
              && Flatten(released) == NonNull(old(hpfn[..pfnCount])) && Batched(released)
              && (forall k | 0 <= k < hpfn.Length :: hpfn[k] == if k < pfnCount then NULL_PAGE else old(hpfn[k]))
              && status == if exists i | 0 <= i < |released| :: fails(released[i]) then Inval else Success
  {
    released := [];
    if !malloc || !mlock {
      return Resource, [];
    }
    status := Success;
    ghost var src := hpfn[..pfnCount];
    var mfns := new nat[BATCH];
    var i: nat, c: nat := 0, 0;
    while i < pfnCount
      invariant i <= pfnCount && c < BATCH && fresh(mfns)
      invariant Flatten(released) + mfns[..c] == NonNull(src[..i])
      invariant forall j | 0 <= j < |released| :: |released[j]| == BATCH
      invariant status == Verdict(released, fails)
      invariant forall k | 0 <= k < hpfn.Length :: hpfn[k] == if k < i then NULL_PAGE else old(hpfn[k])
    {
      var page := hpfn[i];
      NonNullNext(src, i);
      i := i + 1;
      if page != NULL_PAGE {
        hpfn[i - 1] := NULL_PAGE;
        c, status, released := Gather(mfns, c, page, fails, status, released);
      }
    }
    assert src[..i] == src;
    if c != 0 {
      status, released := Release(mfns[..c], fails, status, released);
    }
    VerdictIsAnyFailure(released, fails);
  }
}
