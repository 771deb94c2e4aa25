/** `process_batch`: fetch every PMID of a batch and keep the usable
    records, in batch order. */
module Process {
  import opened Records
  import opened Fetch

  /** The parser for the whole run: the outcome of attempt `k` on PMID `p`
      is `parse(p)(k)`. */
  type Oracle = string -> nat -> ParseOutcome

  /** What `fetch_article_data(pmid)` returns for each PMID of the batch,
      with the default retry budget. */
  function FetchAll(batch: seq<string>, parse: Oracle): (fetched: seq<Option<Record>>)
    ensures |fetched| == |batch|
  {
    seq(|batch|, i requires 0 <= i < |batch| => FetchResult(batch[i], DefaultRetries, parse(batch[i])))
  }

  /** The condition of `process_batch`: the fetch returned a record (a
      non-empty dict is truthy) and that record is usable. */
  predicate Kept(x: Option<Record>)
  {
    x.Some? && Usable(x.value)
  }

  /** The kept records of a list of fetch results, in their order. */
  function KeepUsable(fetched: seq<Option<Record>>): (kept: seq<Record>)
    ensures |kept| <= |fetched|
    ensures forall r :: r in kept ==> Usable(r)
  {
    if fetched == [] then []
    else
      var last := fetched[|fetched| - 1];
      KeepUsable(fetched[..|fetched| - 1]) + (if Kept(last) then [last.value] else [])
  }

  /** The `results` that `process_batch` returns for `batch`. */
  function BatchResults(batch: seq<string>, parse: Oracle): (results: seq<Record>)
    ensures |results| <= |batch|
    ensures forall r :: r in results ==> Usable(r)
  {
    KeepUsable(FetchAll(batch, parse))
  }

  method ProcessBatch(batch: seq<string>, parse: Oracle) returns (results: seq<Record>, current: seq<string>)
    ensures results == BatchResults(batch, parse)
    ensures current == batch
  {
    results := [];
    var i := 0;
    while i < |batch|
      invariant i <= |batch|
      invariant results == KeepUsable(FetchAll(batch, parse)[..i])
    {
      var data, _, _ := FetchArticleData(batch[i], DefaultRetries, parse(batch[i]));
      if data.Some? && data.value.abstractText != "" && Truthy(data.value.doi) {
        results := results + [data.value];
      }
      assert FetchAll(batch, parse)[..i + 1][..i] == FetchAll(batch, parse)[..i];
      i := i + 1;
    }
    assert FetchAll(batch, parse)[..i] == FetchAll(batch, parse);
    current := batch;
  }

  /** A record is kept exactly when some fetch result is that record and
      it is usable. */
  lemma {:induction false} KeepUsableMember(fetched: seq<Option<Record>>, r: Record)
    ensures r in KeepUsable(fetched) <==> Some(r) in fetched && Usable(r)
    decreases |fetched|
  {
    if fetched != [] {
      var init := fetched[..|fetched| - 1];
      KeepUsableMember(init, r);
      assert fetched == init + [fetched[|fetched| - 1]];
    }
  }

  /** Filtering keeps order: the kept records of two lists one after the
      other are the kept records of the first, then those of the second. */
  lemma {:induction false} KeepUsableAppend(xs: seq<Option<Record>>, ys: seq<Option<Record>>)
    ensures KeepUsable(xs + ys) == KeepUsable(xs) + KeepUsable(ys)
    decreases |ys|
  {
    if ys == [] {
      assert xs + ys == xs;
    } else {
      var init, last := ys[..|ys| - 1], ys[|ys| - 1];
      var tail := if Kept(last) then [last.value] else [];
      KeepUsableAppend(xs, init);
      assert (xs + ys)[..|xs + ys| - 1] == xs + init;
      assert (xs + ys)[|xs + ys| - 1] == last;
      calc {
        KeepUsable(xs + ys);
        KeepUsable(xs + init) + tail;
        KeepUsable(xs) + KeepUsable(init) + tail;
        KeepUsable(xs) + (KeepUsable(init) + tail);
        KeepUsable(xs) + KeepUsable(ys);
      }
    }
  }

  /** The results of a batch are exactly the usable records fetched for
      its PMIDs. */
  lemma BatchResultsMember(batch: seq<string>, parse: Oracle, r: Record)
    ensures r in BatchResults(batch, parse) <==>
      Usable(r) && exists i :: 0 <= i < |batch| && FetchResult(batch[i], DefaultRetries, parse(batch[i])) == Some(r)
  {
    var fetched := FetchAll(batch, parse);
    KeepUsableMember(fetched, r);
    if Some(r) in fetched {
      var i :| 0 <= i < |fetched| && fetched[i] == Some(r);
      assert FetchResult(batch[i], DefaultRetries, parse(batch[i])) == Some(r);
    }
    if exists i :: 0 <= i < |batch| && FetchResult(batch[i], DefaultRetries, parse(batch[i])) == Some(r) {
      var i :| 0 <= i < |batch| && FetchResult(batch[i], DefaultRetries, parse(batch[i])) == Some(r);
      assert fetched[i] == Some(r);
    }
  }

  /** A batch yields no result exactly when none of its PMIDs is fetched
      as a usable record. */
  lemma BatchResultsEmpty(batch: seq<string>, parse: Oracle)
    ensures BatchResults(batch, parse) == [] <==>
      forall i :: 0 <= i < |batch| ==> !Kept(FetchResult(batch[i], DefaultRetries, parse(batch[i])))
  {
    var fetched := FetchAll(batch, parse);
    if BatchResults(batch, parse) != [] {
      var r := BatchResults(batch, parse)[0];
      BatchResultsMember(batch, parse, r);
    } else {
      forall i | 0 <= i < |batch|
        ensures !Kept(FetchResult(batch[i], DefaultRetries, parse(batch[i])))
      {
        var x := FetchResult(batch[i], DefaultRetries, parse(batch[i]));
        if Kept(x) {
          BatchResultsMember(batch, parse, x.value);
        }
      }
    }
  }
}
