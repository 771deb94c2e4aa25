# PubMed download pipeline — a verified model

This project models the core of `download.py` from BGI_NGS_Knowledge_Build.
That script turns a list of PubMed identifiers (PMIDs) into stored article
records, in five steps:

1. It cuts the PMID list into batches of `BATCH_SIZE` (line 160).
2. It fetches each PMID with a retry loop and exponential backoff
   (`fetch_article_data`). Each successful parse becomes a record: the first
   DOI, the first PMC id, and the first and last author strings.
3. It keeps the usable records of each batch (`process_batch`). A record is
   usable when it has a non-empty abstract and a DOI.
4. It collects the results of the batches as they complete
   (`process_all_ids`). A batch with no usable record goes whole into the
   failed list; otherwise its records are appended to the dataset.
5. It splits the dataset for export (`generate_outputs`):
   - records with and without a PMC id;
   - one markdown block per record (`format_article_markdown`);
   - records whose abstract does or does not mention a code link
     (`has_github_link`).

Modules, one per stage:

- `Text`: substring test, `join`, `split` and flattening.
- `Records`: the parser's output and the stored record.
- `Fetch`: step 2.
- `Batching`: step 1.
- `Process`: step 3.
- `Driver`: step 4.
- `Export`: step 5.
- `Scenario`: a worked three-PMID run.

How the environment is represented:

- **Parser.** `Article.parse_pmid` is an oracle. `parse(pmid)(k)` is the
  outcome of attempt `k` on `pmid`: a parsed article, or an error.
- **Sleeps.** `time.sleep` becomes the list of delays the loop asks for.
- **Parse calls.** The number of parser calls is returned alongside the
  result.
- **Thread pool.** The pool and `as_completed` become a completion order: any
  permutation of the batch indices, processed one at a time.
- **Stored file.** The JSON-lines file between the fetch and the export is a
  list of records. Writing it and reading it back is taken to give back the
  same records.
- **`None` in the template.** A Python `None` formatted into the markdown
  template prints as `None`, and the model renders it that way.

### The failed list

A batch whose PMIDs were all fetched but filtered out goes to the failed
list, just like a batch whose fetches all failed (download.py:174-180). The
failed list therefore mixes the PMIDs the parser never returned with those
whose record lacked an abstract or a DOI. In the worked run of `Scenario`:

- A1 is usable.
- A2 parses but has no abstract.
- Every attempt on A3 fails.

The failed list is `["A2", "A3"]`: A2 is listed although its fetch succeeded
(`Scenario.FetchPhase`).

With batches larger than one, a batch that has at least one usable record is
not marked as failed at all. Its other PMIDs then appear in neither output.
`Driver.NoIdVanishes` states exactly this weaker guarantee. The constant
`BATCH_SIZE` is 1, so with the shipped configuration every PMID is either
written or listed as failed (`Driver.FailedContentSingletons`).

## Model

| member | source | states |
|---|---|---|
| Records.FirstIdOfType | download.py:23-24 | the lookup yields a value exactly when some id has the requested type, and that value belongs to an id of that type |
| Records.BuildRecord | download.py:22-37 | `pub_id` is the requested pmid; `doi` and `pmc_id` are present exactly when an id of that type exists; the two affiliations are the first and the last author, and both are absent when there are no authors; the abstract is empty exactly when the parsed one is missing or empty; missing keywords become an empty list |
| Records.UsableBuiltRecord | download.py:51 | the usability test of `process_batch` holds for a built record exactly when the parsed abstract is non-empty and the first DOI among the article's ids is non-empty |
| Fetch.FirstSuccess | download.py:19-21 | the first attempt from `from` on that parses, if it is below the retry budget; every earlier attempt failed; when there is none, every attempt in range failed |
| Fetch.FetchResult | download.py:17-44 | the fetch yields a record exactly when some attempt below the retry budget parses, and the record carries the requested pmid |
| Fetch.FetchArticleData | download.py:17-44 | the loop returns `FetchResult`; it makes at most `retries` attempts, and none when `retries <= 0`; on success, the last attempt made parsed and all earlier ones failed; on failure, exactly `retries` attempts were made; one delay is recorded per attempt but the last, and delay `i` is `3^i` |
| Fetch.FetchResultAt | download.py:19-37 | when attempt `k` is the first to parse and is within the budget, the fetch returns the record built from attempt `k` |
| Fetch.FetchResultNone | download.py:38-44 | when every allowed attempt fails, the fetch returns `None` |
| Fetch.MoreRetriesKeepResult | download.py:19-44 | once a budget of retries finds a record, a larger budget finds the same record |
| Fetch.AllAttemptsFail | download.py:38-43 | with the default budget of 3 and a parser that always fails, the result is `None` after 3 attempts, with delays `[1, 3]` and no sleep after the last failure |
| Fetch.ThirdAttemptSucceeds | download.py:19-40 | a parser that fails twice and then parses gives the record of the third attempt, after delays `[1, 3]` |
| Batching.StartInRange | download.py:160 | slice `j` exists exactly when its start `j * size` is inside the list |
| Batching.SliceBounds | download.py:160 | every slice `pm_ids[i:i+BATCH_SIZE]` with `i` in the range lies inside the list, is non-empty and holds at most `BATCH_SIZE` PMIDs |
| Batching.Batches | download.py:160 | the comprehension yields `ceil(n / size)` batches, each non-empty and of at most `size` PMIDs |
| Batching.BatchesShape | download.py:160 | there are `ceil(n / size)` batches; every batch is non-empty and holds `size` PMIDs, except the last, which may hold fewer |
| Batching.BatchesConcat | download.py:160 | concatenating the batches gives back the PMID list exactly |
| Batching.BatchesOfOne | download.py:13 | with `BATCH_SIZE = 1`, batch `i` is `[pm_ids[i]]` |
| Process.FetchAll | download.py:49-50 | one fetch result per PMID of the batch |
| Process.KeepUsable | download.py:48-52 | the filtered records are no more than the fetch results, and every one of them is usable |
| Process.BatchResults | download.py:46-53 | a batch yields at most one record per PMID, and only usable ones |
| Process.ProcessBatch | download.py:46-53 | the loop returns the usable fetched records of the batch, in batch order, and the batch itself unchanged |
| Process.KeepUsableMember | download.py:51-52 | a record is kept exactly when it was fetched and it is usable |
| Process.KeepUsableAppend | download.py:48-52 | the filter preserves order: filtering two lists in turn is filtering their concatenation |
| Process.BatchResultsMember | download.py:46-53 | a record is in a batch's results exactly when it is usable and is the fetch result of some PMID of the batch |
| Process.BatchResultsEmpty | download.py:48-53 | a batch's results are empty exactly when none of its PMIDs is fetched as a usable record |
| Driver.CompletionOrderFacts | download.py:172 | a completion order visits every batch index exactly once |
| Driver.Written | download.py:174-178 | one entry per batch: what the batch writes to the dataset file, no more records than it has PMIDs, all usable |
| Driver.FailedParts | download.py:179-180 | one entry per batch: what it adds to `failed_ids` is either the whole batch or nothing |
| Driver.GatherAppend | download.py:172-180 | appending batches one after another as they complete: the list built over two runs of completions is the first run's list followed by the second's |
| Driver.GatherMember | download.py:172-180 | an entry is in the collected list exactly when it belongs to the contribution of some completed batch |
| Driver.ProcessAllIds | download.py:158-181 | the loop over completed batches builds the dataset from the results of the batches in completion order, and the failed list from the PMIDs of the batches that yielded nothing |
| Driver.GatherPermutation | download.py:172-180 | two completion orders that visit the same batches give the same entries, each as often, only in another order |
| Driver.EachBatchOneSide | download.py:174-180 | each batch goes to exactly one side: results to the dataset, or its non-empty PMID list to the failed list, never both |
| Driver.DatasetAndFailedCount | download.py:160-181 | the dataset and the failed list together hold at least one entry per batch |
| Driver.NoIdVanishes | download.py:160-181 | every input PMID is in the failed list, or belongs to a batch whose results are all in the dataset |
| Driver.WrittenConcat | download.py:46-53 | the results of the batches taken in turn are the usable records of all their PMIDs, in order |
| Driver.DatasetContent | download.py:158-181 | whatever the completion order, the dataset holds exactly the usable records fetched for the input PMIDs, each as often as in a sequential run |
| Driver.DatasetMember | download.py:172-178 | whatever the completion order, a record is in the dataset exactly when it is usable and is what the fetch of some input PMID returned |
| Driver.SequentialDataset | download.py:160-178 | when the batches complete in submission order, the dataset is the usable records of the input, in input order |
| Driver.SingletonFailedPart | download.py:174-180 | a one-PMID batch is listed as failed exactly when its PMID was not fetched as a usable record |
| Driver.FailedPartsSingletons | download.py:13 | with batches of one, the failed PMIDs, taken in submission order, are the unusable PMIDs in input order |
| Driver.FailedContentSingletons | download.py:158-181 | with `BATCH_SIZE = 1` and any completion order, the failed list holds exactly the PMIDs not fetched as a usable record: failed fetches and filtered-out records alike |
| Export.FormatAsJoin | download.py:55-68 | the rendered block is the nine template lines joined by newlines and closed by a blank line |
| Export.TemplateOrder | download.py:55-68 | when no field holds a newline, the block splits into exactly the nine labelled lines in template order (title, id, DOI, keywords, both affiliations, journal, date, abstract), then an empty line and an empty remainder |
| Export.HasGithubLink | download.py:70-72 | true exactly when "ithub" or "avaliable" occurs in the abstract, case-sensitively |
| Export.HasGithubLinkExamples | download.py:70-72 | a github URL and the word "avaliable" are detected; "GITHUB" is not |
| Export.FormatArticleMarkdown | download.py:55-68 | the block opens with the `#### ` title heading and ends with a blank line; its line structure is `Export.FormatAsJoin` and `Export.TemplateOrder` |
| Export.Select | download.py:108-124 | the records the loop appends to a list for which its test holds: each of them passes the test |
| Export.Reject | download.py:108-124 | the records the loop appends to the other list: each of them fails the test |
| Export.RenderDocument | download.py:133 | the `''.join` of the blocks: empty for no records, otherwise it opens with a title heading and ends with a blank line |
| Export.PmcIds | download.py:110-111 | one PMC id per record that has one |
| Export.GenerateOutputs | download.py:108-124 | the loop returns the PMC ids of the records that have one, in order; the records without one, in order; one markdown block per record, in order; the link and no-link lists when link selection is on, and empty lists otherwise; and the three documents, each the concatenation of its records' blocks (lines 133, 142, 150) |
| Export.SelectMember | download.py:110-124 | a record is selected exactly when it is in the list and meets the test, and rejected exactly when it is in the list and fails it |
| Export.SelectPartition | download.py:108-124 | the selected and rejected records together are the input, each as often |
| Export.PmcSplit | download.py:110-113 | every record contributes its PMC id or lands among the no-PMC records, never both; the two counts add up to the number of records; each PMC id listed is that of a record with a PMC id |
| Export.LinkSplit | download.py:120-124 | the link and no-link lists partition the records by `has_github_link` of their abstract |
| Export.RenderDocumentAppend | download.py:133 | rendering two lists of records in turn is rendering their concatenation |
| Text.Contains | download.py:72 | Python's `in` on strings: true exactly when the pattern occurs at some index |
| Scenario.StubFetches | download.py:17-44 | in the worked run, A1 fetches a usable record, A2 fetches a record with no abstract, and A3 fetches nothing |
| Scenario.FetchPhase | download.py:158-181 | the worked run writes A1's record alone and lists both A2 and A3 as failed |
| Scenario.EndToEnd | download.py:158-185 | in the worked run, the export yields A1's PMC id and A1's markdown block |

## Left out

- `Article.parse_pmid` and the `pubmed_mapper` library: a network-backed parser. It is an oracle of per-attempt outcomes. An exception raised while the record is built (line 22-36, e.g. an author without an `affiliation`) counts as a failed attempt, the same as a parse error.
- The author strings, which the source builds as `str([author, author.affiliation])`: they are opaque strings in the model.
- The title, journal and date: the model takes them already converted to strings, so `str(article.pubdate)` and `article.journal.title` are not modelled apart.
- `keywords`: a missing attribute is modelled (it becomes `[]`), but an attribute whose value is `None` or is not a list of strings is not; either would make the export raise.
- Repeated PMIDs: the parser's outcome depends only on the PMID and the attempt number, so a PMID that occurs twice in the input gets the same outcomes both times. In the source each occurrence is a separate network call whose outcome may differ; `Driver.DatasetContent`, `Driver.DatasetMember` and `Driver.FailedContentSingletons` rest on this.
- The thread pool and `as_completed`: an arbitrary permutation of the batches, processed one at a time. `MAX_WORKERS`, interleaving, and the thread safety of the file appends are not modelled.
- File I/O, `json.dumps`/`json.loads` and the `if line.strip()` filter on reading: the stored file is a list of records, read back unchanged. Output file names, the `'\n'.join` of `pmcids.txt` and of `failed_ids.txt`, and the "write only if non-empty" test of `failed_ids.txt` are I/O.
- The error handler around `generate_outputs` (lines 184-188): the modelled export cannot raise, so the early return that skips `failed_ids.txt` is not modelled.
- `tqdm`, `print` and the actual `time.sleep`: the delays are recorded instead of slept.
- `md_to_html`: a wrapper over the `markdown` library plus a fixed HTML string.
- The `__main__` block (lines 196-204): it reads the input file.
- `crawl.py` is not part of this model. It is I/O against the NCBI search service.
- Driver.FailedContentSingletons: the exact content of the failed list is stated for `BATCH_SIZE = 1`, the configured value. For other batch sizes the model states only `Driver.EachBatchOneSide` and `Driver.NoIdVanishes`.
