/** The id scan that both event caches contain
    (ServiceSubscriptionEventsCache.cpp:14-25, ServiceMessageEventsCache.cpp:6-17). */
module EventIds {
  import opened Framing

  /** Walk the ids while they continue the count from `candidate`; uint32_t wraps. */
  function Scan(ids: seq<Uint32>, candidate: Uint32): Uint32 {
    if ids == [] || ids[0] != candidate then candidate
    else Scan(ids[1..], (candidate + 1) % UINT32_LIMIT)
  }

  /** Entry i has id i, up to wrap-around. */
  predicate Dense(ids: seq<Uint32>) {
    forall i :: 0 <= i < |ids| ==> ids[i] == i % UINT32_LIMIT
  }

  predicate Ascending(ids: seq<Uint32>) {
    forall i, j :: 0 <= i < j < |ids| ==> ids[i] < ids[j]
  }

  predicate Unique(ids: seq<Uint32>) {
    forall i, j :: 0 <= i < j < |ids| ==> ids[i] != ids[j]
  }

  lemma WrapThenAdd(candidate: Uint32, i: nat)
    ensures ((candidate + 1) % UINT32_LIMIT + i) % UINT32_LIMIT == (candidate + (i + 1)) % UINT32_LIMIT
  {
  }

  lemma {:induction false} ScanSkips(ids: seq<Uint32>, candidate: Uint32, k: nat)
    requires k <= |ids| && forall i :: 0 <= i < k ==> ids[i] == (candidate + i) % UINT32_LIMIT
    ensures Scan(ids, candidate) == Scan(ids[k..], (candidate + k) % UINT32_LIMIT)
    decreases k
  {
    if k > 0 {
      assert ids[0] == (candidate + 0) % UINT32_LIMIT == candidate;
      var next := (candidate + 1) % UINT32_LIMIT;
      forall i | 0 <= i < k - 1 ensures ids[1..][i] == (next + i) % UINT32_LIMIT {
        assert ids[1..][i] == ids[i + 1];
        WrapThenAdd(candidate, i);
      }
      ScanSkips(ids[1..], next, k - 1);
      WrapThenAdd(candidate, k - 1);
      assert ids[1..][k - 1..] == ids[k..];
    } else {
      assert ids[0..] == ids;
    }
  }

  /** On the ids a cache can hold, the next id is the number of entries. */
  lemma DenseScan(ids: seq<Uint32>)
    requires Dense(ids)
    ensures Scan(ids, 0) == |ids| % UINT32_LIMIT
  {
    ScanSkips(ids, 0, |ids|);
  }

  lemma {:induction false} AscendingAtLeast(ids: seq<Uint32>, i: nat)
    requires Ascending(ids) && i < |ids|
    ensures ids[i] >= i
  {
    if i > 0 {
      AscendingAtLeast(ids, i - 1);
    }
  }

  lemma {:induction false} AscendingAtMost(ids: seq<Uint32>, i: nat)
    requires Ascending(ids) && i < |ids|
    ensures ids[i] + (|ids| - i) <= UINT32_LIMIT
    decreases |ids| - i
  {
    if i + 1 < |ids| {
      AscendingAtMost(ids, i + 1);
    }
  }

  /** The first place where the ids stop counting 0, 1, 2, ... */
  lemma FirstGap(ids: seq<Uint32>) returns (k: nat)
    requires Ascending(ids)
    ensures k <= |ids| <= UINT32_LIMIT && (k == UINT32_LIMIT <==> |ids| == UINT32_LIMIT)
    ensures forall i :: 0 <= i < k ==> ids[i] == i
    ensures forall i :: k <= i < |ids| ==> ids[i] > k
    ensures Scan(ids, 0) == k % UINT32_LIMIT
  {
    if ids != [] {
      AscendingAtMost(ids, 0);
    }
    k := 0;
    while k < |ids| && ids[k] == k
      invariant k <= |ids| && forall i :: 0 <= i < k ==> ids[i] == i
    {
      k := k + 1;
    }
    ScanSkips(ids, 0, k);
    if k < |ids| {
      AscendingAtLeast(ids, k);
      AscendingAtMost(ids, k);
    }
  }

  /** On any strictly ascending ids the scan returns the least unused value; only
      if all 2^32 values are in use does it return a used one. */
  lemma ScanIsLeastUnused(ids: seq<Uint32>)
    requires Ascending(ids)
    ensures |ids| <= UINT32_LIMIT
    ensures Scan(ids, 0) !in ids <==> |ids| < UINT32_LIMIT
    ensures forall v: nat :: v < Scan(ids, 0) ==> v in ids
  {
    var k := FirstGap(ids);
    if k == UINT32_LIMIT {
      assert Scan(ids, 0) == 0 && ids[0] == 0;
    } else {
      assert Scan(ids, 0) == k;
      forall v: nat | v < k ensures v in ids {
        assert ids[v] == v;
      }
    }
  }

  /** Dense ids are unique exactly up to 2^32 entries. */
  lemma DenseIsUniqueIffFits(ids: seq<Uint32>)
    requires Dense(ids)
    ensures Unique(ids) <==> |ids| <= UINT32_LIMIT
    ensures |ids| <= UINT32_LIMIT ==> Ascending(ids)
  {
    if |ids| > UINT32_LIMIT {
      assert ids[0] == ids[UINT32_LIMIT];
    }
  }
}
