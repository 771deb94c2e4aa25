/** The batch slicing of `process_all_ids`:
    `[pm_ids[i:i+BATCH_SIZE] for i in range(0, len(pm_ids), BATCH_SIZE)]`. */
module Batching {
  import opened Text

  /** `BATCH_SIZE`. */
  const BatchSize: nat := 1

  function Min(a: int, b: int): int
  {
    if a <= b then a else b
  }

  /** The length of `range(0, n, size)`: the number of batches. */
  function NumBatches(n: nat, size: nat): nat
    requires size > 0
  {
    (n + size - 1) / size
  }

  /** Multiplying by a natural number keeps the order. */
  lemma MulLe(a: int, b: int, c: nat)
    requires a <= b
    ensures a * c <= b * c
  {
    assert b * c - a * c == (b - a) * c;
  }

  /** Batch `j` starts inside the list exactly when `j` is below the
      number of batches. */
  lemma StartInRange(n: nat, size: nat, j: nat)
    requires size > 0
    ensures j < NumBatches(n, size) <==> j * size < n
  {
    var q, r := (n + size - 1) / size, (n + size - 1) % size;
    assert n + size - 1 == q * size + r && 0 <= r < size;
    if j < q {
      MulLe(j, q - 1, size);
      assert (q - 1) * size == q * size - size;
    } else {
      MulLe(q, j, size);
    }
  }

  /** Where batch `j` ends: `i + BATCH_SIZE`, clipped to the list. */
  function BatchEnd(n: nat, size: nat, j: nat): int
  {
    Min((j + 1) * size, n)
  }

  /** Every batch `j` below the number of batches is a non-empty slice of
      at most `size` ids inside the list. */
  lemma SliceBounds(n: nat, size: nat)
    requires size > 0
    ensures forall j: nat :: j < NumBatches(n, size) ==>
      0 <= j * size < BatchEnd(n, size, j) <= n && BatchEnd(n, size, j) - j * size <= size
  {
    forall j: nat | j < NumBatches(n, size)
      ensures 0 <= j * size < BatchEnd(n, size, j) <= n && BatchEnd(n, size, j) - j * size <= size
    {
      StartInRange(n, size, j);
      assert (j + 1) * size == j * size + size;
    }
  }

  /** The batches, as the source's list comprehension builds them. */
  function Batches<T>(ids: seq<T>, size: nat): (bs: seq<seq<T>>)
    requires size > 0
    ensures |bs| == NumBatches(|ids|, size)
    ensures forall j :: 0 <= j < |bs| ==> 0 < |bs[j]| <= size
  {
    SliceBounds(|ids|, size);
    seq(NumBatches(|ids|, size), j requires 0 <= j < NumBatches(|ids|, size) =>
      ids[j * size .. BatchEnd(|ids|, size, j)])
  }

  /** There are `ceil(|ids| / size)` batches; every batch is non-empty and
      holds `size` ids, except the last, which may hold fewer. */
  lemma BatchesShape<T>(ids: seq<T>, size: nat)
    requires size > 0
    ensures var bs := Batches(ids, size);
      (|bs| - 1) * size < |ids| <= |bs| * size
    ensures var bs := Batches(ids, size);
      forall j :: 0 <= j < |bs| ==> 0 < |bs[j]| <= size && (j < |bs| - 1 ==> |bs[j]| == size)
  {
    var bs := Batches(ids, size);
    StartInRange(|ids|, size, |bs|);
    if |bs| > 0 {
      StartInRange(|ids|, size, |bs| - 1);
    } else {
      assert (|bs| - 1) * size < 0;
    }
    forall j | 0 <= j < |bs|
      ensures 0 < |bs[j]| <= size && (j < |bs| - 1 ==> |bs[j]| == size)
    {
      StartInRange(|ids|, size, j);
      if j < |bs| - 1 {
        StartInRange(|ids|, size, j + 1);
        assert (j + 1) * size == j * size + size;
      }
    }
  }

  /** The first `k` batches together are the first `k * size` ids. */
  lemma {:induction false} BatchesPrefix<T>(ids: seq<T>, size: nat, k: nat)
    requires size > 0
    requires k <= |Batches(ids, size)|
    ensures Concat(Batches(ids, size)[..k]) == ids[..Min(k * size, |ids|)]
  {
    var bs := Batches(ids, size);
    if k == 0 {
      assert bs[..0] == [];
    } else {
      BatchesPrefix(ids, size, k - 1);
      assert bs[..k][..k - 1] == bs[..k - 1];
      StartInRange(|ids|, size, k - 1);
      assert (k - 1) * size + size == k * size;
      assert ids[..(k - 1) * size] + ids[(k - 1) * size .. Min(k * size, |ids|)] == ids[..Min(k * size, |ids|)];
    }
  }

  /** Concatenating the batches gives back exactly the input list. */
  lemma BatchesConcat<T>(ids: seq<T>, size: nat)
    requires size > 0
    ensures Concat(Batches(ids, size)) == ids
  {
    var bs := Batches(ids, size);
    BatchesPrefix(ids, size, |bs|);
    assert bs[..|bs|] == bs;
    StartInRange(|ids|, size, |bs|);
  }

  /** With a batch size of one, as in the source, each PMID is a batch of
      its own. */
  lemma BatchesOfOne<T>(ids: seq<T>)
    ensures |Batches(ids, 1)| == |ids|
    ensures forall i :: 0 <= i < |ids| ==> Batches(ids, 1)[i] == [ids[i]]
  {
    assert NumBatches(|ids|, 1) == |ids|;
  }
}
