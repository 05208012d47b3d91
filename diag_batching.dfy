/** The diagonal batch partitioner (util.DiagBatchingScheme).

    DiagBatchingScheme(l, p) splits the diagonal indices 0, 1, 2, ... of an
    l-diagonal distance matrix into p contiguous batches Batch{Idx, Size}, one
    per worker.  Diagonal k costs about l - k cells, so later batches, whose
    diagonals are cheaper, span more indices.  The batch boundaries come from a
    rounded real-valued formula that is not part of this model; what is
    modelled is the shape every result has (IsDiagBatching) and what follows
    from that shape: each diagonal of 0..l-1 lies in exactly one batch, and when
    there are at least as many diagonals as workers, every worker gets one.
 */
module DiagBatching {

  /** The diagonals idx, idx+1, ..., idx+size-1, handed to one worker. */
  datatype Batch = Batch(idx: int, size: int)

  /** One past the last diagonal of a batch. */
  function End(b: Batch): int {
    b.idx + b.size
  }

  /** Whether diagonal d is one of batch b's. */
  predicate InBatch(b: Batch, d: int) {
    b.idx <= d < End(b)
  }

  /** The shape of DiagBatchingScheme(l, p): exactly p batches, the first at
      diagonal 0, each starting where the previous one ends, every batch at least
      one diagonal long, sizes never decreasing, and the last batch reaching at
      least diagonal l (it may reach past it, absorbing the rounding).  When
      l >= p the last batch starts below l, so no worker is left only with
      diagonals past the end. */
  predicate IsDiagBatching(l: int, p: int, bs: seq<Batch>) {
    && |bs| == p
    && p >= 1
    && bs[0].idx == 0
    && bs[0].size >= 1
    && (forall k :: 0 < k < |bs| ==> bs[k].idx == End(bs[k - 1]))
    && (forall k :: 0 < k < |bs| ==> bs[k - 1].size <= bs[k].size)
    && End(bs[|bs| - 1]) >= l
    && (l >= p ==> bs[|bs| - 1].idx < l)
  }

  /** The total number of diagonals in a run of batches. */
  function TotalSize(bs: seq<Batch>): int {
    if bs == [] then 0 else TotalSize(bs[..|bs| - 1]) + bs[|bs| - 1].size
  }

  /** Each batch starts after all diagonals of the batches before it, and the
      batches together hold at least l diagonals. */
  lemma {:induction false} StartsAreRunningTotals(l: int, p: int, bs: seq<Batch>, k: nat)
    requires IsDiagBatching(l, p, bs)
    requires k < p
    ensures bs[k].idx == TotalSize(bs[..k])
    ensures End(bs[k]) == TotalSize(bs[..k + 1])
  {
    assert bs[..k + 1][..k] == bs[..k];
    if k > 0 {
      StartsAreRunningTotals(l, p, bs, k - 1);
    }
  }

  /** The batches hold at least the l diagonals asked for. */
  lemma CoversTotal(l: int, p: int, bs: seq<Batch>)
    requires IsDiagBatching(l, p, bs)
    ensures TotalSize(bs) >= l
  {
    StartsAreRunningTotals(l, p, bs, p - 1);
    assert bs[..p] == bs;
  }

  /** Every batch has at least one diagonal: sizes only grow from the first. */
  lemma {:induction false} SizesPositive(l: int, p: int, bs: seq<Batch>, k: nat)
    requires IsDiagBatching(l, p, bs)
    requires k < p
    ensures bs[k].size >= bs[0].size >= 1
  {
    if k > 0 {
      SizesPositive(l, p, bs, k - 1);
    }
  }

  /** Batches are ordered and do not overlap: an earlier batch ends no later
      than a later one starts. */
  lemma {:induction false} Disjoint(l: int, p: int, bs: seq<Batch>, j: nat, k: nat)
    requires IsDiagBatching(l, p, bs)
    requires j < k < p
    ensures End(bs[j]) <= bs[k].idx
    decreases k - j
  {
    if j + 1 < k {
      Disjoint(l, p, bs, j, k - 1);
      SizesPositive(l, p, bs, k - 1);
    }
  }

  /** Each of the first n batches' diagonals below End(bs[n-1]) is in one of them. */
  lemma {:induction false} CoveredBy(l: int, p: int, bs: seq<Batch>, n: nat, d: int)
    requires IsDiagBatching(l, p, bs)
    requires 1 <= n <= p
    requires 0 <= d < End(bs[n - 1])
    ensures exists k :: 0 <= k < n && InBatch(bs[k], d)
  {
    if n > 1 && d < End(bs[n - 2]) {
      CoveredBy(l, p, bs, n - 1, d);
    } else {
      if n > 1 {
        assert bs[n - 1].idx == End(bs[n - 2]);
      }
      assert InBatch(bs[n - 1], d);
    }
  }

  /** The batches partition the diagonals 0..l-1: each lies in exactly one batch. */
  lemma EachDiagonalInOneBatch(l: int, p: int, bs: seq<Batch>, d: int)
    requires IsDiagBatching(l, p, bs)
    requires 0 <= d < l
    ensures exists k :: 0 <= k < p && InBatch(bs[k], d)
    ensures forall j, k :: 0 <= j < p && 0 <= k < p && InBatch(bs[j], d) && InBatch(bs[k], d) ==> j == k
  {
    CoveredBy(l, p, bs, p, d);
    forall j, k | 0 <= j < p && 0 <= k < p && InBatch(bs[j], d) && InBatch(bs[k], d)
      ensures j == k
    {
      if j < k {
        Disjoint(l, p, bs, j, k);
      } else if k < j {
        Disjoint(l, p, bs, k, j);
      }
    }
  }

  /** With at least as many diagonals as workers, every batch holds one of the
      diagonals 0..l-1: its first diagonal. */
  lemma EveryBatchHasWork(l: int, p: int, bs: seq<Batch>, k: nat)
    requires IsDiagBatching(l, p, bs)
    requires l >= p
    requires k < p
    ensures 0 <= bs[k].idx < l && InBatch(bs[k], bs[k].idx)
  {
    SizesPositive(l, p, bs, k);
    if k > 0 {
      Disjoint(l, p, bs, 0, k);
    }
    if k < p - 1 {
      Disjoint(l, p, bs, k, p - 1);
    }
  }

  /** The scheme fixed by the test: 33 diagonals over 4 workers give
      batches starting at 0, 3, 9 and 16 of sizes 3, 6, 7 and 18.  The last one
      ends at 34, one past l, so the shape cannot demand an exact end. */
  lemma ExampleThirtyThreeByFour()
    ensures IsDiagBatching(33, 4, [Batch(0, 3), Batch(3, 6), Batch(9, 7), Batch(16, 18)])
    ensures End(Batch(16, 18)) == 34
  {
  }
}
