/** The data the pipeline moves around: what the PubMed parser hands back
    for one PMID, and the flat record (the Python dict built in
    `fetch_article_data`) that is stored one per line and exported. */
module Records {

  /** Python's `None` or a value. */
  datatype Option<T> = None | Some(value: T)

  /** One entry of `article.ids`: its `id_type` and its `id_value`. */
  datatype ArticleId = ArticleId(idType: string, idValue: string)

  /** The fields of a parsed article that the record is built from. The
      author strings are opaque (the source renders each author with its
      affiliation through Python's `str`); `keywords` is `None` when the
      parsed article has no `keywords` attribute; `abstractText` and `title`
      are `None` where the parser gives a falsy value; `journalTitle` is
      `None` when there is no journal; `pubDate` is the string form of the
      publication date, `None` when there is none. */
  datatype ParsedArticle = ParsedArticle(
    authors: seq<string>,
    ids: seq<ArticleId>,
    abstractText: Option<string>,
    title: Option<string>,
    keywords: Option<seq<string>>,
    journalTitle: Option<string>,
    pubDate: Option<string>)

  /** What one call of the parser does: returns an article or raises. */
  datatype ParseOutcome = Parsed(article: ParsedArticle) | ParseError(message: string)

  /** The stored record, one field per key of the source's dict. */
  datatype Record = Record(
    pubId: string,
    doi: Option<string>,
    pmcId: Option<string>,
    abstractText: string,
    title: string,
    keyword: seq<string>,
    firstAuthorAffiliation: Option<string>,
    communicateAuthorAffiliation: Option<string>,
    journal: Option<string>,
    pubDate: Option<string>)

  /** Python truthiness of an optional string: present and non-empty. */
  predicate Truthy(o: Option<string>)
  {
    o.Some? && o.value != ""
  }

  /** Python's `x or ""` on an optional string. */
  function OrEmpty(o: Option<string>): string
  {
    if o.Some? then o.value else ""
  }

  /** `next((i.id_value for i in ids if i.id_type == t), None)`: the value
      of the first id of type `t`, or `None`. */
  function FirstIdOfType(ids: seq<ArticleId>, t: string): (r: Option<string>)
    ensures r.Some? <==> exists i :: 0 <= i < |ids| && ids[i].idType == t
    ensures r.Some? ==> exists i :: 0 <= i < |ids| && ids[i] == ArticleId(t, r.value)
                                    && forall j :: 0 <= j < i ==> ids[j].idType != t
    decreases |ids|
  {
    if ids == [] then None
    else if ids[0].idType == t then
      assert ids[0] == ArticleId(t, ids[0].idValue);
      Some(ids[0].idValue)
    else
      var r := FirstIdOfType(ids[1..], t);
      assert forall i :: 0 < i < |ids| ==> ids[1..][i - 1] == ids[i];
      if r.Some? then
        var k :| 0 <= k < |ids[1..]| && ids[1..][k] == ArticleId(t, r.value)
                 && forall j :: 0 <= j < k ==> ids[1..][j].idType != t;
        assert ids[k + 1] == ArticleId(t, r.value);
        assert forall j :: 0 <= j < k + 1 ==> ids[j].idType != t by {
          forall j | 0 <= j < k + 1 ensures ids[j].idType != t {
            if j > 0 { assert ids[j] == ids[1..][j - 1]; }
          }
        }
        r
      else
        r
  }

  /** The dict that `fetch_article_data` returns once the parser succeeded:
      the requested PMID, the first DOI and the first PMC id, the first and
      the last author, and the remaining fields with the source's defaults. */
  function BuildRecord(pmid: string, a: ParsedArticle): (r: Record)
    ensures r.pubId == pmid
    ensures r.doi.Some? <==> exists i :: 0 <= i < |a.ids| && a.ids[i].idType == "doi"
    ensures r.pmcId.Some? <==> exists i :: 0 <= i < |a.ids| && a.ids[i].idType == "pmc"
    ensures r.firstAuthorAffiliation.Some? <==> |a.authors| > 0
    ensures r.communicateAuthorAffiliation.Some? <==> |a.authors| > 0
    ensures |a.authors| > 0 ==> r.firstAuthorAffiliation.value == a.authors[0]
    ensures |a.authors| > 0 ==> r.communicateAuthorAffiliation.value == a.authors[|a.authors| - 1]
    ensures r.abstractText == "" <==> !Truthy(a.abstractText)
    ensures a.keywords.None? ==> r.keyword == []
  {
    Record(
      pubId := pmid,
      doi := FirstIdOfType(a.ids, "doi"),
      pmcId := FirstIdOfType(a.ids, "pmc"),
      abstractText := OrEmpty(a.abstractText),
      title := OrEmpty(a.title),
      keyword := if a.keywords.Some? then a.keywords.value else [],
      firstAuthorAffiliation := if |a.authors| > 0 then Some(a.authors[0]) else None,
      communicateAuthorAffiliation := if |a.authors| > 0 then Some(a.authors[|a.authors| - 1]) else None,
      journal := a.journalTitle,
      pubDate := a.pubDate)
  }

  /** A record is kept by `process_batch` when its abstract is non-empty
      and its DOI is truthy. */
  predicate Usable(r: Record)
  {
    r.abstractText != "" && Truthy(r.doi)
  }

  /** A built record is usable exactly when the parsed abstract is
      non-empty and the first DOI among the article's ids is non-empty. */
  lemma UsableBuiltRecord(pmid: string, a: ParsedArticle)
    ensures Usable(BuildRecord(pmid, a)) <==>
      && Truthy(a.abstractText)
      && exists i :: 0 <= i < |a.ids| && a.ids[i].idType == "doi" && a.ids[i].idValue != ""
                     && forall j :: 0 <= j < i ==> a.ids[j].idType != "doi"
  {
    var doi := FirstIdOfType(a.ids, "doi");
    if exists i :: 0 <= i < |a.ids| && a.ids[i].idType == "doi" && a.ids[i].idValue != ""
                   && forall j :: 0 <= j < i ==> a.ids[j].idType != "doi" {
      var i :| 0 <= i < |a.ids| && a.ids[i].idType == "doi" && a.ids[i].idValue != ""
               && forall j :: 0 <= j < i ==> a.ids[j].idType != "doi";
      var k :| 0 <= k < |a.ids| && a.ids[k] == ArticleId("doi", doi.value)
               && forall j :: 0 <= j < k ==> a.ids[j].idType != "doi";
      assert k == i;
    }
  }
}
