/** A whole run on three PMIDs: "A1" parses to a usable article, "A2"
    parses to an article without an abstract, and every attempt on "A3"
    raises. */
module Scenario {
  import opened Records
  import opened Fetch
  import opened Batching
  import opened Process
  import opened Driver
  import opened Export

  const ArticleA1: ParsedArticle := ParsedArticle(
    authors := ["Ada (Lab 1)", "Bo (Lab 2)"],
    ids := [ArticleId("pubmed", "A1"), ArticleId("doi", "10.1/a1"), ArticleId("pmc", "PMC1")],
    abstractText := Some("Code on github"),
    title := Some("First"),
    keywords := Some(["genomics"]),
    journalTitle := Some("J"),
    pubDate := None)

  const ArticleA2: ParsedArticle := ParsedArticle(
    authors := [],
    ids := [ArticleId("doi", "10.1/a2")],
    abstractText := None,
    title := Some("Second"),
    keywords := None,
    journalTitle := None,
    pubDate := None)

  function StubParser(pmid: string): nat -> ParseOutcome
  {
    k => if pmid == "A1" then Parsed(ArticleA1)
         else if pmid == "A2" then Parsed(ArticleA2)
         else ParseError("HTTP 500")
  }

  lemma FetchA1()
    ensures FetchResult("A1", DefaultRetries, StubParser("A1")) == Some(BuildRecord("A1", ArticleA1))
    ensures Kept(FetchResult("A1", DefaultRetries, StubParser("A1")))
  {
    assert StubParser("A1")(0) == Parsed(ArticleA1);
    assert ArticleA1.ids[1] == ArticleId("doi", "10.1/a1");
    assert FirstIdOfType(ArticleA1.ids, "doi") == Some("10.1/a1");
  }

  lemma FetchA2()
    ensures FetchResult("A2", DefaultRetries, StubParser("A2")) == Some(BuildRecord("A2", ArticleA2))
    ensures !Kept(FetchResult("A2", DefaultRetries, StubParser("A2")))
  {
    assert StubParser("A2")(0) == Parsed(ArticleA2);
  }

  lemma FetchA3()
    ensures FetchResult("A3", DefaultRetries, StubParser("A3")) == None
  {
  }

  /** A1 fetches a usable record, A2 a record without an abstract, and
      every attempt on A3 fails. */
  lemma StubFetches()
    ensures FetchResult("A1", DefaultRetries, StubParser("A1")) == Some(BuildRecord("A1", ArticleA1))
    ensures Kept(FetchResult("A1", DefaultRetries, StubParser("A1")))
    ensures FetchResult("A2", DefaultRetries, StubParser("A2")) == Some(BuildRecord("A2", ArticleA2))
    ensures !Kept(FetchResult("A2", DefaultRetries, StubParser("A2")))
    ensures FetchResult("A3", DefaultRetries, StubParser("A3")) == None
  {
    FetchA1();
    FetchA2();
    FetchA3();
  }

  const Ids: seq<string> := ["A1", "A2", "A3"]

  /** Batches completing in submission order. */
  const InOrder: seq<nat> := [0, 1, 2]

  lemma ScenarioBatches()
    ensures Batches(Ids, BatchSize) == [["A1"], ["A2"], ["A3"]]
  {
    BatchesOfOne(Ids);
  }

  lemma ResultsA1()
    ensures BatchResults(["A1"], StubParser) == [BuildRecord("A1", ArticleA1)]
  {
    FetchA1();
    var x := FetchResult("A1", DefaultRetries, StubParser("A1"));
    assert FetchAll(["A1"], StubParser) == [x];
    assert [x][..0] == [];
    assert KeepUsable([x]) == [x.value];
  }

  lemma ResultsA2()
    ensures BatchResults(["A2"], StubParser) == []
  {
    FetchA2();
    BatchResultsEmpty(["A2"], StubParser);
  }

  lemma ResultsA3()
    ensures BatchResults(["A3"], StubParser) == []
  {
    FetchA3();
    BatchResultsEmpty(["A3"], StubParser);
  }

  /** A list of three parts is the display of its parts. */
  lemma ThreeParts<T>(w: seq<seq<T>>, a: seq<T>, b: seq<T>, c: seq<T>)
    requires |w| == 3 && w[0] == a && w[1] == b && w[2] == c
    ensures w == [a, b, c]
  {
  }

  lemma WrittenParts()
    ensures var w := Written(Batches(Ids, BatchSize), StubParser);
      |w| == 3 && w[0] == BatchResults(["A1"], StubParser)
      && w[1] == BatchResults(["A2"], StubParser) && w[2] == BatchResults(["A3"], StubParser)
  {
    ScenarioBatches();
  }

  lemma ScenarioWritten()
    ensures Written(Batches(Ids, BatchSize), StubParser) == [[BuildRecord("A1", ArticleA1)], [], []]
  {
    var w := Written(Batches(Ids, BatchSize), StubParser);
    WrittenParts();
    ResultsA1();
    ResultsA2();
    ResultsA3();
    ThreeParts(w, [BuildRecord("A1", ArticleA1)], [], []);
  }

  lemma FailedPartsOfIds()
    ensures var f := FailedParts(Batches(Ids, BatchSize), StubParser);
      |f| == 3 && f[0] == FailedPart(["A1"], StubParser)
      && f[1] == FailedPart(["A2"], StubParser) && f[2] == FailedPart(["A3"], StubParser)
  {
    ScenarioBatches();
  }

  lemma ScenarioFailed()
    ensures FailedParts(Batches(Ids, BatchSize), StubParser) == [[], ["A2"], ["A3"]]
  {
    var f := FailedParts(Batches(Ids, BatchSize), StubParser);
    FailedPartsOfIds();
    ResultsA1();
    ResultsA2();
    ResultsA3();
    ThreeParts(f, [], ["A2"], ["A3"]);
  }

  lemma GatherInOrder<T>(parts: seq<seq<T>>)
    requires |parts| == 3
    ensures Gather(parts, InOrder) == parts[0] + parts[1] + parts[2]
  {
    var o := InOrder;
    assert o[..2] == [0, 1] && o[..2][..1] == [0] && o[..2][..1][..0] == [];
    assert Gather(parts, [0]) == parts[0];
    assert Gather(parts, [0, 1]) == parts[0] + parts[1];
  }

  lemma ScenarioOrder()
    ensures IsCompletionOrder(InOrder, NumBatches(|Ids|, BatchSize))
  {
    assert NumBatches(|Ids|, BatchSize) == 3;
    assert Range(3) == InOrder;
  }

  lemma ScenarioPmcIds()
    ensures PmcIds([BuildRecord("A1", ArticleA1)]) == ["PMC1"]
  {
    var record := BuildRecord("A1", ArticleA1);
    assert [record][..0] == [];
    assert FirstIdOfType(ArticleA1.ids, "pmc") == Some("PMC1");
    assert Select([record], HasPmc) == [record];
  }

  lemma GatheredDataset()
    ensures Gather(Written(Batches(Ids, BatchSize), StubParser), InOrder) == [BuildRecord("A1", ArticleA1)]
  {
    ScenarioWritten();
    GatherFirstOnly(Written(Batches(Ids, BatchSize), StubParser), BuildRecord("A1", ArticleA1));
  }

  /** Only the first of three batches contributes, one entry. */
  lemma GatherFirstOnly<T>(parts: seq<seq<T>>, x: T)
    requires parts == [[x], [], []]
    ensures Gather(parts, InOrder) == [x]
  {
    GatherInOrder(parts);
    assert parts[0] + parts[1] + parts[2] == [x];
  }

  lemma GatheredFailed()
    ensures Gather(FailedParts(Batches(Ids, BatchSize), StubParser), InOrder) == ["A2", "A3"]
  {
    var parts: seq<seq<string>> := [[], ["A2"], ["A3"]];
    ScenarioFailed();
    GatherInOrder(parts);
    assert parts[0] + parts[1] + parts[2] == ["A2", "A3"];
  }

  /** The fetch phase of the run: the dataset holds A1's record alone;
      the failed list holds A3, whose every attempt failed, and also A2,
      which was fetched but filtered out. */
  method FetchPhase() returns (dataset: seq<Record>, failedIds: seq<string>)
    ensures dataset == [BuildRecord("A1", ArticleA1)]
    ensures failedIds == ["A2", "A3"]
  {
    ScenarioOrder();
    dataset, failedIds := ProcessAllIds(Ids, BatchSize, InOrder, StubParser);
    GatheredDataset();
    GatheredFailed();
  }

  /** One block per record, for a single record. */
  lemma SingleBlock(articles: seq<Record>, allMd: seq<string>)
    requires |articles| == 1 && |allMd| == 1
    requires forall i :: 0 <= i < |articles| ==> allMd[i] == FormatArticleMarkdown(articles[i])
    ensures allMd == [FormatArticleMarkdown(articles[0])]
  {
  }

  /** The whole run, fetch then export: one rendered block, A1's, and
      A1's PMC id. */
  method EndToEnd() returns (dataset: seq<Record>, failedIds: seq<string>, pmcids: seq<string>, allMd: seq<string>)
    ensures dataset == [BuildRecord("A1", ArticleA1)]
    ensures failedIds == ["A2", "A3"]
    ensures pmcids == ["PMC1"]
    ensures allMd == [FormatArticleMarkdown(BuildRecord("A1", ArticleA1))]
  {
    dataset, failedIds := FetchPhase();
    ScenarioPmcIds();
    var noPmcids, linkArticles, noLinkArticles, mdContent, linkMd, noLinkMd;
    pmcids, noPmcids, allMd, linkArticles, noLinkArticles, mdContent, linkMd, noLinkMd := GenerateOutputs(dataset, true);
    SingleBlock(dataset, allMd);
  }
}
