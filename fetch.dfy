/** `fetch_article_data`: fetch one PMID with a bounded number of attempts
    and exponential backoff between them. The parser is an oracle giving
    the outcome of each attempt; the sleeps are recorded as a list of
    delays instead of being performed. */
module Fetch {
  import opened Records

  /** The `retries` default of `fetch_article_data`, the value
      `process_batch` uses. */
  const DefaultRetries: int := 3

  /** The base of the backoff, `3 ** attempt`. */
  const BackoffBase: nat := 3

  function Pow(b: nat, e: nat): (r: nat)
    ensures b > 0 ==> r > 0
  {
    if e == 0 then 1 else b * Pow(b, e - 1)
  }

  /** The index of the first attempt in `from .. retries - 1` whose parse
      succeeds, if there is one. */
  function FirstSuccess(parse: nat -> ParseOutcome, from: nat, retries: int): (k: Option<nat>)
    ensures k.Some? ==> from <= k.value < retries && parse(k.value).Parsed?
    ensures k.Some? ==> forall j: nat :: from <= j < k.value ==> parse(j).ParseError?
    ensures k.None? ==> forall j: nat :: from <= j < retries ==> parse(j).ParseError?
    decreases retries - from
  {
    if retries <= from then None
    else if parse(from).Parsed? then Some(from)
    else FirstSuccess(parse, from + 1, retries)
  }

  /** What `fetch_article_data(pmid, retries)` returns: the record built
      from the first successful attempt among the `retries` allowed, or
      `None` when every attempt fails (or none is allowed). */
  function FetchResult(pmid: string, retries: int, parse: nat -> ParseOutcome): (r: Option<Record>)
    ensures r.Some? <==> exists k: nat :: k < retries && parse(k).Parsed?
    ensures r.Some? ==> r.value.pubId == pmid
    ensures r.Some? ==> exists k: nat :: k < retries && parse(k).Parsed?
                          && r.value == BuildRecord(pmid, parse(k).article)
                          && forall j: nat :: j < k ==> parse(j).ParseError?
  {
    match FirstSuccess(parse, 0, retries)
    case Some(k) => Some(BuildRecord(pmid, parse(k).article))
    case None => None
  }

  /** The loop of `fetch_article_data`. `attempts` counts the calls to the
      parser and `delays` records the argument of every `time.sleep`. */
  method FetchArticleData(pmid: string, retries: int, parse: nat -> ParseOutcome)
    returns (r: Option<Record>, attempts: nat, delays: seq<nat>)
    ensures r == FetchResult(pmid, retries, parse)
    ensures attempts <= if retries > 0 then retries else 0
    ensures r.Some? ==> 0 < attempts && parse(attempts - 1).Parsed?
    ensures forall j: nat :: j < attempts - 1 ==> parse(j).ParseError?
    ensures r.None? ==> attempts == if retries > 0 then retries else 0
    ensures |delays| == if attempts > 0 then attempts - 1 else 0
    ensures forall i :: 0 <= i < |delays| ==> delays[i] == Pow(BackoffBase, i)
  {
    r, attempts, delays := None, 0, [];
    var attempt: nat := 0;
    while attempt < retries
      invariant attempt == 0 || attempt < retries
      invariant attempts == attempt
      invariant forall j: nat :: j < attempt ==> parse(j).ParseError?
      invariant |delays| == attempt
      invariant forall i :: 0 <= i < |delays| ==> delays[i] == Pow(BackoffBase, i)
    {
      var outcome := parse(attempt);
      attempts := attempts + 1;
      if outcome.Parsed? {
        FetchResultAt(pmid, retries, parse, attempt);
        r := Some(BuildRecord(pmid, outcome.article));
        return;
      } else if attempt < retries - 1 {
        delays := delays + [Pow(BackoffBase, attempt)];
      } else {
        FetchResultNone(pmid, retries, parse);
        r := None;
        return;
      }
      attempt := attempt + 1;
    }
    FetchResultNone(pmid, retries, parse);
    r := None;
  }

  /** When attempt `k` is the first to parse, the fetch returns the
      record built from it. */
  lemma FetchResultAt(pmid: string, retries: int, parse: nat -> ParseOutcome, k: nat)
    requires k < retries && parse(k).Parsed?
    requires forall j: nat :: j < k ==> parse(j).ParseError?
    ensures FetchResult(pmid, retries, parse) == Some(BuildRecord(pmid, parse(k).article))
  {
    var first := FirstSuccess(parse, 0, retries);
    assert first.Some?;
    assert !(first.value < k) && !(first.value > k);
  }

  /** When every allowed attempt fails, the fetch returns `None`. */
  lemma FetchResultNone(pmid: string, retries: int, parse: nat -> ParseOutcome)
    requires forall j: nat :: j < retries ==> parse(j).ParseError?
    ensures FetchResult(pmid, retries, parse) == None
  {
  }

  /** A success within `r1` attempts is the same success with any larger
      budget: more retries never change a result that was found. */
  lemma {:induction false} FirstSuccessStable(parse: nat -> ParseOutcome, from: nat, r1: int, r2: int)
    requires r1 <= r2
    requires FirstSuccess(parse, from, r1).Some?
    ensures FirstSuccess(parse, from, r2) == FirstSuccess(parse, from, r1)
    decreases r1 - from
  {
    if !parse(from).Parsed? {
      FirstSuccessStable(parse, from + 1, r1, r2);
    }
  }

  /** Raising the retry budget never loses a record that a smaller budget
      fetched, and never changes it. */
  lemma MoreRetriesKeepResult(pmid: string, parse: nat -> ParseOutcome, r1: int, r2: int)
    requires r1 <= r2
    requires FetchResult(pmid, r1, parse).Some?
    ensures FetchResult(pmid, r2, parse) == FetchResult(pmid, r1, parse)
  {
    FirstSuccessStable(parse, 0, r1, r2);
  }

  /** A parser that always raises, with the default three retries: three
      attempts, sleeps of 1 and 3, and no record. */
  method AllAttemptsFail(pmid: string) returns (r: Option<Record>, attempts: nat, delays: seq<nat>)
    ensures r == None && attempts == 3 && delays == [1, 3]
  {
    r, attempts, delays := FetchArticleData(pmid, DefaultRetries, _ => ParseError("unavailable"));
  }

  /** A parser that raises on attempts 0 and 1 and succeeds on attempt 2:
      three attempts, sleeps of 1 and 3, and the record of that success. */
  method ThirdAttemptSucceeds(pmid: string, a: ParsedArticle) returns (r: Option<Record>, attempts: nat, delays: seq<nat>)
    ensures r == Some(BuildRecord(pmid, a)) && attempts == 3 && delays == [1, 3]
  {
    r, attempts, delays := FetchArticleData(pmid, DefaultRetries, k => if k < 2 then ParseError("timeout") else Parsed(a));
  }
}
