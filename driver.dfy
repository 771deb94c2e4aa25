/** The fetch phase of `process_all_ids`: cut the PMIDs into batches, run
    `process_batch` on each, and, as each batch completes, append its
    results to the dataset or, when it has none, its PMIDs to the failed
    list. The thread pool is modelled by the order in which `as_completed`
    hands the batches back: any permutation of the batch indices. */
module Driver {
  import opened Records
  import opened Text
  import opened Fetch
  import opened Batching
  import opened Process

  function Range(n: nat): (r: seq<nat>)
    ensures |r| == n && forall i :: 0 <= i < n ==> r[i] == i
  {
    seq(n, i => i)
  }

  /** Every index of `order` names one of `n` batches. */
  predicate InBounds(order: seq<nat>, n: nat)
  {
    forall j :: 0 <= j < |order| ==> order[j] < n
  }

  /** `as_completed` yields each of the `n` submitted batches exactly once,
      in some order. */
  predicate IsCompletionOrder(order: seq<nat>, n: nat)
  {
    multiset(order) == multiset(Range(n))
  }

  lemma CompletionOrderFacts(order: seq<nat>, n: nat)
    requires IsCompletionOrder(order, n)
    ensures |order| == n && InBounds(order, n)
    ensures forall i :: 0 <= i < n ==> i in order
  {
    assert |multiset(order)| == |multiset(Range(n))|;
    forall j | 0 <= j < |order| ensures order[j] < n {
      assert order[j] in multiset(order);
      assert order[j] in Range(n);
    }
    forall i | 0 <= i < n ensures i in order {
      assert Range(n)[i] == i;
      assert i in multiset(Range(n));
    }
  }

  /** The piece of index `i`, nothing for an index out of range. */
  function Piece<T>(parts: seq<seq<T>>, i: nat): seq<T>
  {
    if i < |parts| then parts[i] else []
  }

  /** The pieces `parts[order[0]]`, `parts[order[1]]`, ... one after the
      other: what a loop over `order` appends. */
  function Gather<T>(parts: seq<seq<T>>, order: seq<nat>): seq<T>
  {
    if order == [] then []
    else Gather(parts, order[..|order| - 1]) + Piece(parts, order[|order| - 1])
  }

  /** The results each batch writes to the dataset file (none when its
      results are empty). */
  function Written(batches: seq<seq<string>>, parse: Oracle): (w: seq<seq<Record>>)
    ensures |w| == |batches|
    ensures forall i :: 0 <= i < |w| ==> |w[i]| <= |batches[i]| && forall r :: r in w[i] ==> Usable(r)
  {
    seq(|batches|, i requires 0 <= i < |batches| => BatchResults(batches[i], parse))
  }

  /** What a batch adds to `failed_ids`: all of it when it has no results. */
  function FailedPart(batch: seq<string>, parse: Oracle): seq<string>
  {
    if BatchResults(batch, parse) == [] then batch else []
  }

  /** What each batch adds to `failed_ids`: the whole batch or nothing. */
  function FailedParts(batches: seq<seq<string>>, parse: Oracle): (f: seq<seq<string>>)
    ensures |f| == |batches|
    ensures forall i :: 0 <= i < |f| ==> f[i] == [] || f[i] == batches[i]
  {
    seq(|batches|, i requires 0 <= i < |batches| => FailedPart(batches[i], parse))
  }

  /** The loop over `as_completed(futures)`. `dataset` is the sequence of
      records appended to the dataset file, `failedIds` the final
      `failed_ids`. */
  method ProcessAllIds(pmIds: seq<string>, batchSize: nat, order: seq<nat>, parse: Oracle)
    returns (dataset: seq<Record>, failedIds: seq<string>)
    requires batchSize > 0
    requires IsCompletionOrder(order, NumBatches(|pmIds|, batchSize))
    ensures dataset == Gather(Written(Batches(pmIds, batchSize), parse), order)
    ensures failedIds == Gather(FailedParts(Batches(pmIds, batchSize), parse), order)
  {
    var batches := Batches(pmIds, batchSize);
    CompletionOrderFacts(order, |batches|);
    dataset, failedIds := [], [];
    var j := 0;
    while j < |order|
      invariant j <= |order|
      invariant dataset == Gather(Written(batches, parse), order[..j])
      invariant failedIds == Gather(FailedParts(batches, parse), order[..j])
    {
      var k := order[j];
      var w, f := Written(batches, parse), FailedParts(batches, parse);
      assert order[..j + 1][..j] == order[..j] && order[..j + 1][j] == k;
      assert Gather(w, order[..j + 1]) == Gather(w, order[..j]) + Piece(w, k);
      assert Gather(f, order[..j + 1]) == Gather(f, order[..j]) + Piece(f, k);
      var results, current := ProcessBatch(batches[k], parse);
      assert Piece(w, k) == results;
      assert Piece(f, k) == if results == [] then current else [];
      if results != [] {
        dataset := dataset + results;
      } else {
        failedIds := failedIds + current;
      }
      j := j + 1;
    }
    assert order[..j] == order;
  }

  // ---------------------------------------------------------------------
  // Properties of gathering in an order

  lemma {:induction false} GatherAppend<T>(parts: seq<seq<T>>, o1: seq<nat>, o2: seq<nat>)
    ensures Gather(parts, o1 + o2) == Gather(parts, o1) + Gather(parts, o2)
    decreases |o2|
  {
    if o2 == [] {
      assert o1 + o2 == o1;
    } else {
      var init, last := o2[..|o2| - 1], o2[|o2| - 1];
      GatherAppend(parts, o1, init);
      assert (o1 + o2)[..|o1 + o2| - 1] == o1 + init;
      assert (o1 + o2)[|o1 + o2| - 1] == last;
      calc {
        Gather(parts, o1 + o2);
        Gather(parts, o1 + init) + Piece(parts, last);
        Gather(parts, o1) + Gather(parts, init) + Piece(parts, last);
        Gather(parts, o1) + (Gather(parts, init) + Piece(parts, last));
        Gather(parts, o1) + Gather(parts, o2);
      }
    }
  }

  /** The content of what is gathered does not depend on the order: two
      orders that are permutations of each other gather the same multiset. */
  lemma {:induction false} GatherPermutation<T>(parts: seq<seq<T>>, o1: seq<nat>, o2: seq<nat>)
    requires multiset(o1) == multiset(o2)
    ensures multiset(Gather(parts, o1)) == multiset(Gather(parts, o2))
    decreases |o1|
  {
    if o1 == [] {
      assert |multiset(o2)| == 0;
    } else {
      var x: nat := o1[|o1| - 1];
      var init: seq<nat> := o1[..|o1| - 1];
      assert o1 == init + [x];
      assert x in multiset(o2);
      var k :| 0 <= k < |o2| && o2[k] == x;
      var before: seq<nat>, after: seq<nat> := o2[..k], o2[k + 1..];
      assert o2 == before + [x] + after;
      RemoveOne(init, x, before, after);
      GatherPermutation(parts, init, before + after);
      GatherAppend(parts, before, after);
      GatherAppend(parts, before, [x]);
      GatherAppend(parts, before + [x], after);
      assert Gather(parts, [x]) == Piece(parts, x) by {
        assert [x][..0] == [];
      }
    }
  }

  /** Taking the same element out of two equal multisets leaves equal
      multisets. */
  lemma RemoveOne(init: seq<nat>, x: nat, before: seq<nat>, after: seq<nat>)
    requires multiset(init + [x]) == multiset(before + [x] + after)
    ensures multiset(before + after) == multiset(init)
  {
    calc {
      multiset(before + after);
      multiset(before) + multiset(after);
      multiset(before + [x] + after) - multiset([x]);
      multiset(init + [x]) - multiset([x]);
      multiset(init);
    }
  }

  /** An element is gathered exactly when it is in the piece of one of the
      gathered indices. */
  lemma {:induction false} GatherMember<T>(parts: seq<seq<T>>, order: seq<nat>, x: T)
    requires InBounds(order, |parts|)
    ensures x in Gather(parts, order) <==> exists j :: 0 <= j < |order| && x in parts[order[j]]
    decreases |order|
  {
    if order != [] {
      var init := order[..|order| - 1];
      var last := order[|order| - 1];
      GatherMember(parts, init, x);
      assert Gather(parts, order) == Gather(parts, init) + parts[last];
      if exists j :: 0 <= j < |order| && x in parts[order[j]] {
        var j :| 0 <= j < |order| && x in parts[order[j]];
        if j < |init| {
          assert order[j] == init[j];
          assert x in Gather(parts, init);
        }
      }
      if x in Gather(parts, init) {
        var j :| 0 <= j < |init| && x in parts[init[j]];
        assert init[j] == order[j];
      }
      if x in parts[last] {
        assert x in parts[order[|order| - 1]];
      }
    }
  }

  /** Gathering in input order is plain concatenation. */
  lemma {:induction false} GatherRange<T>(parts: seq<seq<T>>, k: nat)
    requires k <= |parts|
    ensures Gather(parts, Range(k)) == Concat(parts[..k])
  {
    if k > 0 {
      GatherRange(parts, k - 1);
      assert Range(k)[..k - 1] == Range(k - 1);
      assert parts[..k][..k - 1] == parts[..k - 1];
    }
  }

  /** When every index gives at least one element to one of two gatherings,
      together they hold at least one element per index. */
  lemma {:induction false} GatherCount<T, U>(ps: seq<seq<T>>, qs: seq<seq<U>>, order: seq<nat>)
    requires |ps| == |qs| && InBounds(order, |ps|)
    requires forall i :: 0 <= i < |ps| ==> |ps[i]| + |qs[i]| >= 1
    ensures |Gather(ps, order)| + |Gather(qs, order)| >= |order|
    decreases |order|
  {
    if order != [] {
      GatherCount(ps, qs, order[..|order| - 1]);
    }
  }

  // ---------------------------------------------------------------------
  // Properties of the fetch phase

  /** Every batch goes to exactly one side: its results to the dataset, or
      its (non-empty) list of PMIDs to the failed list, never both. */
  lemma EachBatchOneSide(pmIds: seq<string>, batchSize: nat, parse: Oracle, i: nat)
    requires batchSize > 0 && i < |Batches(pmIds, batchSize)|
    ensures var b := Batches(pmIds, batchSize)[i];
      || (Written(Batches(pmIds, batchSize), parse)[i] != [] && FailedParts(Batches(pmIds, batchSize), parse)[i] == [])
      || (Written(Batches(pmIds, batchSize), parse)[i] == [] && FailedParts(Batches(pmIds, batchSize), parse)[i] == b != [])
  {
    BatchesShape(pmIds, batchSize);
  }

  /** The dataset and the failed list together hold at least one entry per
      batch. */
  lemma DatasetAndFailedCount(pmIds: seq<string>, batchSize: nat, order: seq<nat>, parse: Oracle)
    requires batchSize > 0
    requires IsCompletionOrder(order, NumBatches(|pmIds|, batchSize))
    ensures var bs := Batches(pmIds, batchSize);
      |Gather(Written(bs, parse), order)| + |Gather(FailedParts(bs, parse), order)| >= |bs|
  {
    var bs := Batches(pmIds, batchSize);
    CompletionOrderFacts(order, |bs|);
    forall i | 0 <= i < |bs|
      ensures |Written(bs, parse)[i]| + |FailedParts(bs, parse)[i]| >= 1
    {
      EachBatchOneSide(pmIds, batchSize, parse, i);
    }
    GatherCount(Written(bs, parse), FailedParts(bs, parse), order);
  }

  /** No PMID vanishes: each input PMID is in the failed list or belongs to
      a batch whose results were all written to the dataset. */
  lemma NoIdVanishes(pmIds: seq<string>, batchSize: nat, order: seq<nat>, parse: Oracle, id: string)
    requires batchSize > 0
    requires IsCompletionOrder(order, NumBatches(|pmIds|, batchSize))
    requires id in pmIds
    ensures var bs := Batches(pmIds, batchSize);
      (|| id in Gather(FailedParts(bs, parse), order)
       || exists i :: 0 <= i < |bs| && id in bs[i] && BatchResults(bs[i], parse) != []
            && forall r :: r in BatchResults(bs[i], parse) ==> r in Gather(Written(bs, parse), order))
  {
    var bs := Batches(pmIds, batchSize);
    CompletionOrderFacts(order, |bs|);
    BatchesConcat(pmIds, batchSize);
    ConcatMember(bs, id);
    var i :| 0 <= i < |bs| && id in bs[i];
    assert i in order;
    var j :| 0 <= j < |order| && order[j] == i;
    if BatchResults(bs[i], parse) == [] {
      assert id in FailedParts(bs, parse)[order[j]];
      GatherMember(FailedParts(bs, parse), order, id);
    } else {
      forall r | r in BatchResults(bs[i], parse) ensures r in Gather(Written(bs, parse), order) {
        assert r in Written(bs, parse)[order[j]];
        GatherMember(Written(bs, parse), order, r);
      }
    }
  }

  lemma FetchAllAppend(xs: seq<string>, ys: seq<string>, parse: Oracle)
    ensures FetchAll(xs + ys, parse) == FetchAll(xs, parse) + FetchAll(ys, parse)
  {
    assert forall i :: 0 <= i < |xs| ==> (xs + ys)[i] == xs[i];
    assert forall i :: 0 <= i < |ys| ==> (xs + ys)[|xs| + i] == ys[i];
  }

  /** Batch results one batch after the other are the usable records of
      all their PMIDs, in input order. */
  lemma {:induction false} WrittenConcat(bs: seq<seq<string>>, parse: Oracle)
    ensures Concat(Written(bs, parse)) == KeepUsable(FetchAll(Concat(bs), parse))
    decreases |bs|
  {
    if bs != [] {
      var init, last := bs[..|bs| - 1], bs[|bs| - 1];
      var w := Written(bs, parse);
      WrittenConcat(init, parse);
      assert w[..|w| - 1] == Written(init, parse);
      assert w[|w| - 1] == KeepUsable(FetchAll(last, parse));
      FetchAllAppend(Concat(init), last, parse);
      KeepUsableAppend(FetchAll(Concat(init), parse), FetchAll(last, parse));
      calc {
        Concat(w);
        Concat(w[..|w| - 1]) + w[|w| - 1];
        KeepUsable(FetchAll(Concat(init), parse)) + KeepUsable(FetchAll(last, parse));
        KeepUsable(FetchAll(Concat(init), parse) + FetchAll(last, parse));
        KeepUsable(FetchAll(Concat(init) + last, parse));
      }
    }
  }

  /** Whatever order the batches complete in, the dataset holds exactly the
      usable records fetched for the input PMIDs, each as often as in a
      sequential run: only the order of the records depends on completion. */
  lemma DatasetContent(pmIds: seq<string>, batchSize: nat, order: seq<nat>, parse: Oracle)
    requires batchSize > 0
    requires IsCompletionOrder(order, NumBatches(|pmIds|, batchSize))
    ensures var bs := Batches(pmIds, batchSize);
      multiset(Gather(Written(bs, parse), order)) == multiset(BatchResults(pmIds, parse))
  {
    var bs := Batches(pmIds, batchSize);
    var w := Written(bs, parse);
    CompletionOrderFacts(order, |bs|);
    GatherRange(w, |w|);
    assert w[..|w|] == w;
    GatherPermutation(w, order, Range(|w|));
    WrittenConcat(bs, parse);
    BatchesConcat(pmIds, batchSize);
  }

  /** Whatever the completion order, a record is in the dataset exactly
      when it is usable and is what the fetch of some input PMID returned. */
  lemma DatasetMember(pmIds: seq<string>, batchSize: nat, order: seq<nat>, parse: Oracle, r: Record)
    requires batchSize > 0
    requires IsCompletionOrder(order, NumBatches(|pmIds|, batchSize))
    ensures r in Gather(Written(Batches(pmIds, batchSize), parse), order) <==>
      Usable(r) && exists i :: 0 <= i < |pmIds| && FetchResult(pmIds[i], DefaultRetries, parse(pmIds[i])) == Some(r)
  {
    var dataset := Gather(Written(Batches(pmIds, batchSize), parse), order);
    DatasetContent(pmIds, batchSize, order, parse);
    assert r in dataset <==> r in multiset(dataset);
    assert r in BatchResults(pmIds, parse) <==> r in multiset(BatchResults(pmIds, parse));
    BatchResultsMember(pmIds, parse, r);
  }

  /** When the batches complete in submission order, the dataset is
      exactly the usable records of the input PMIDs, in input order. */
  lemma SequentialDataset(pmIds: seq<string>, batchSize: nat, parse: Oracle)
    requires batchSize > 0
    ensures var bs := Batches(pmIds, batchSize);
      Gather(Written(bs, parse), Range(|bs|)) == BatchResults(pmIds, parse)
  {
    var bs := Batches(pmIds, batchSize);
    var w := Written(bs, parse);
    GatherRange(w, |w|);
    assert w[..|w|] == w;
    WrittenConcat(bs, parse);
    BatchesConcat(pmIds, batchSize);
  }

  /** The PMIDs whose fetch did not give a usable record, in input order:
      those that failed every attempt and those fetched but filtered out. */
  function Unusable(ids: seq<string>, parse: Oracle): seq<string>
  {
    if ids == [] then []
    else
      var p := ids[|ids| - 1];
      Unusable(ids[..|ids| - 1], parse) + (if Kept(FetchResult(p, DefaultRetries, parse(p))) then [] else [p])
  }

  /** A batch of one PMID fails exactly when that PMID has no usable
      record. */
  lemma SingletonFailedPart(p: string, parse: Oracle)
    ensures FailedPart([p], parse) == if Kept(FetchResult(p, DefaultRetries, parse(p))) then [] else [p]
  {
    var x := FetchResult(p, DefaultRetries, parse(p));
    assert FetchAll([p], parse) == [x];
    assert [x][..0] == [];
    assert KeepUsable([x]) == if Kept(x) then [x.value] else [];
  }

  /** Failed parts of singleton batches, flattened in input order, are the
      PMIDs without a usable record. */
  lemma {:induction false} ConcatSingletonFailed(fs: seq<seq<string>>, ids: seq<string>, parse: Oracle, k: nat)
    requires |fs| == |ids| && k <= |ids|
    requires forall i :: 0 <= i < |ids| ==> fs[i] == FailedPart([ids[i]], parse)
    ensures Concat(fs[..k]) == Unusable(ids[..k], parse)
  {
    if k > 0 {
      ConcatSingletonFailed(fs, ids, parse, k - 1);
      assert fs[..k][..k - 1] == fs[..k - 1];
      assert ids[..k][..k - 1] == ids[..k - 1];
      SingletonFailedPart(ids[k - 1], parse);
    }
  }

  /** With one PMID per batch, the failed parts in input order are the
      PMIDs without a usable record. */
  lemma FailedPartsSingletons(ids: seq<string>, parse: Oracle)
    ensures Concat(FailedParts(Batches(ids, 1), parse)) == Unusable(ids, parse)
  {
    var fs := FailedParts(Batches(ids, 1), parse);
    BatchesOfOne(ids);
    ConcatSingletonFailed(fs, ids, parse, |ids|);
    assert fs[..|ids|] == fs;
    assert ids[..|ids|] == ids;
  }

  /** With the source's batch size of one, the failed list holds exactly
      the PMIDs that were not fetched as a usable record, whether every
      attempt failed or the record was filtered out, each as often as it
      occurs in the input. */
  lemma FailedContentSingletons(pmIds: seq<string>, order: seq<nat>, parse: Oracle)
    requires IsCompletionOrder(order, NumBatches(|pmIds|, BatchSize))
    ensures var bs := Batches(pmIds, BatchSize);
      multiset(Gather(FailedParts(bs, parse), order)) == multiset(Unusable(pmIds, parse))
  {
    var bs := Batches(pmIds, BatchSize);
    var fs := FailedParts(bs, parse);
    CompletionOrderFacts(order, |bs|);
    GatherRange(fs, |fs|);
    GatherPermutation(fs, order, Range(|fs|));
    FailedPartsSingletons(pmIds, parse);
    assert fs[..|fs|] == fs;
  }
}
