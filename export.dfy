/** The export phase, `generate_outputs`: split the stored records by PMC
    id and by the repository-link heuristic, and render every record with
    the markdown template of `format_article_markdown`. */
module Export {
  import opened Records
  import opened Text

  /** How a Python f-string shows an optional value: `None` as "None". */
  function Show(o: Option<string>): string
  {
    if o.Some? then o.value else "None"
  }

  /** The labels that open the nine template lines, in template order. */
  const Labels: seq<string> := [
    "#### ",
    "- **Article ID**: ",
    "- **DOI**: ",
    "- **Keywords**: ",
    "- **First Author Affiliation**: ",
    "- **Corresponding Author Affiliation**: ",
    "- **Journal**: ",
    "- **Publication Date**: ",
    "**Abstract**: "]

  /** The value shown after each label. */
  function FieldValues(d: Record): (vs: seq<string>)
    ensures |vs| == |Labels|
  {
    [d.title, d.pubId, Show(d.doi), Join(d.keyword, ", "), Show(d.firstAuthorAffiliation),
     Show(d.communicateAuthorAffiliation), Show(d.journal), Show(d.pubDate), d.abstractText]
  }

  /** Line `i` of the template without its closing newline: label `i`
      followed by the value of field `i`. */
  function TemplateLines(d: Record): seq<string>
  {
    seq(|Labels|, i requires 0 <= i < |Labels| => Labels[i] + FieldValues(d)[i])
  }

  /** The nine strings of `format_article_markdown`: each template line
      closed by a newline, the last one by a blank line. */
  function TemplateStrings(d: Record): seq<string>
  {
    seq(|Labels|, i requires 0 <= i < |Labels| =>
      TemplateLines(d)[i] + if i == |Labels| - 1 then "\n\n" else "\n")
  }

  /** `format_article_markdown`: the nine template strings joined. The
      block opens with the title heading and ends with a blank line. */
  function FormatArticleMarkdown(d: Record): (block: string)
    ensures Labels[0] <= block
    ensures |block| >= 2 && block[|block| - 2..] == "\n\n"
  {
    var ts := TemplateStrings(d);
    ConcatPrefix(ts, 1);
    assert ts[..1][..0] == [];
    assert |Labels| == 9 && TemplateLines(d)[0] == Labels[0] + FieldValues(d)[0];
    assert Concat(ts[..1]) == ts[0] == Labels[0] + (FieldValues(d)[0] + "\n");
    Concat(ts)
  }

  /** No shown value breaks its line. */
  predicate LineSafe(d: Record)
  {
    && '\n' !in d.title && '\n' !in d.pubId && '\n' !in Show(d.doi)
    && (forall k :: 0 <= k < |d.keyword| ==> '\n' !in d.keyword[k])
    && '\n' !in Show(d.firstAuthorAffiliation) && '\n' !in Show(d.communicateAuthorAffiliation)
    && '\n' !in Show(d.journal) && '\n' !in Show(d.pubDate) && '\n' !in d.abstractText
  }

  /** The rendered block is the template lines and two empty lines joined
      by newlines. */
  lemma FormatAsJoin(d: Record)
    ensures FormatArticleMarkdown(d) == Join(TemplateLines(d) + ["", ""], "\n")
  {
    var ls := TemplateLines(d) + [""];
    var closed := seq(|ls|, i requires 0 <= i < |ls| => ls[i] + "\n");
    ConcatClosedLines(ls, '\n');
    var blocks := TemplateStrings(d);
    assert blocks[..8] == closed[..8];
    assert closed[..9][..8] == closed[..8];
    assert closed[..9] == closed[..|closed| - 1];
    assert blocks[8] == closed[8] + closed[9];
    calc {
      FormatArticleMarkdown(d);
      Concat(blocks);
      Concat(blocks[..8]) + blocks[8];
      Concat(closed[..8]) + closed[8] + closed[9];
      Concat(closed);
      Join(ls, "\n") + "\n";
      { JoinSnoc(ls, "\n", ""); }
      Join(ls + [""], "\n");
    }
    assert ls + [""] == TemplateLines(d) + ["", ""];
  }

  /** The template has a fixed order: when no value holds a newline, the
      rendered block splits into exactly nine lines, line `i` being label
      `i` followed by field `i`, then the blank line and the empty rest. */
  lemma TemplateOrder(d: Record)
    requires LineSafe(d)
    ensures var lines := Split(FormatArticleMarkdown(d), '\n');
      |lines| == |Labels| + 2 && lines[|Labels|..] == ["", ""] &&
      forall i :: 0 <= i < |Labels| ==> lines[i] == Labels[i] + FieldValues(d)[i]
  {
    var ls := TemplateLines(d) + ["", ""];
    LinesAvoidNewline(d);
    assert forall i :: 0 <= i < |ls| ==> '\n' !in ls[i];
    FormatAsJoin(d);
    SplitJoin(ls, '\n');
  }

  /** No label holds a newline. */
  lemma LabelsAvoidNewline()
    ensures forall i :: 0 <= i < |Labels| ==> '\n' !in Labels[i]
  {
  }

  /** No template line holds a newline when no shown value does. */
  lemma LinesAvoidNewline(d: Record)
    requires LineSafe(d)
    ensures forall i :: 0 <= i < |TemplateLines(d)| ==> '\n' !in TemplateLines(d)[i]
  {
    JoinAvoids(d.keyword, ", ", '\n');
    var vs := FieldValues(d);
    LabelsAvoidNewline();
    assert forall i :: 0 <= i < |vs| ==> '\n' !in vs[i];
  }

  /** `has_github_link`: the abstract holds "ithub" or "avaliable"
      (the source's spelling), case-sensitively. */
  function HasGithubLink(abstractText: string): (b: bool)
    ensures b <==> (exists i :: OccursAt(abstractText, "ithub", i))
                   || (exists i :: OccursAt(abstractText, "avaliable", i))
  {
    Contains(abstractText, "ithub") || Contains(abstractText, "avaliable")
  }

  /** The test is case-sensitive and only as good as its two fragments:
      a lower-case link matches, an upper-case one does not. */
  lemma HasGithubLinkExamples()
    ensures HasGithubLink("code: https://github.com/x")
    ensures HasGithubLink("Data are avaliable on request")
    ensures !HasGithubLink("GITHUB")
  {
    assert OccursAt("code: https://github.com/x", "ithub", 15);
    assert OccursAt("Data are avaliable on request", "avaliable", 9);
    forall i ensures !OccursAt("GITHUB", "ithub", i) {
      if 0 <= i && i + 5 <= 6 {
        assert "GITHUB"[i..i + 5][0] != 'i';
      }
    }
  }

  predicate HasPmc(a: Record)
  {
    Truthy(a.pmcId)
  }

  predicate HasLink(a: Record)
  {
    HasGithubLink(a.abstractText)
  }

  /** The records of `xs` that satisfy `p`, in order. */
  function Select(xs: seq<Record>, p: Record -> bool): (r: seq<Record>)
    ensures forall i :: 0 <= i < |r| ==> p(r[i])
  {
    if xs == [] then []
    else Select(xs[..|xs| - 1], p) + (if p(xs[|xs| - 1]) then [xs[|xs| - 1]] else [])
  }

  /** The records of `xs` that do not satisfy `p`, in order. */
  function Reject(xs: seq<Record>, p: Record -> bool): (r: seq<Record>)
    ensures forall i :: 0 <= i < |r| ==> !p(r[i])
  {
    if xs == [] then []
    else Reject(xs[..|xs| - 1], p) + (if p(xs[|xs| - 1]) then [] else [xs[|xs| - 1]])
  }

  /** The PMC ids of the records that have one, in order (`pmcids`). */
  function PmcIds(xs: seq<Record>): (ids: seq<string>)
    ensures |ids| == |Select(xs, HasPmc)|
  {
    var s := Select(xs, HasPmc);
    seq(|s|, i requires 0 <= i < |s| => s[i].pmcId.value)
  }

  /** The markdown document of a list of records: one block per record. */
  function RenderDocument(xs: seq<Record>): (doc: string)
    ensures xs == [] ==> doc == ""
    ensures xs != [] ==> Labels[0] <= doc && |doc| >= 2 && doc[|doc| - 2..] == "\n\n"
  {
    var blocks := seq(|xs|, i requires 0 <= i < |xs| => FormatArticleMarkdown(xs[i]));
    if blocks == [] then Concat(blocks)
    else
      ConcatPrefix(blocks, 1);
      assert blocks[..1][..0] == [];
      assert Concat(blocks[..1]) == blocks[0];
      Concat(blocks)
  }

  /** The loop of `generate_outputs` and the three documents it renders
      after it (`md_content`, `link_md`, `no_link_md`); the file writes and
      the HTML wrapping are left out. */
  method GenerateOutputs(articles: seq<Record>, selectLink: bool)
    returns (pmcids: seq<string>, noPmcids: seq<Record>, allMd: seq<string>,
             linkArticles: seq<Record>, noLinkArticles: seq<Record>,
             mdContent: string, linkMd: string, noLinkMd: string)
    ensures pmcids == PmcIds(articles)
    ensures noPmcids == Reject(articles, HasPmc)
    ensures |allMd| == |articles|
    ensures forall i :: 0 <= i < |articles| ==> allMd[i] == FormatArticleMarkdown(articles[i])
    ensures linkArticles == if selectLink then Select(articles, HasLink) else []
    ensures noLinkArticles == if selectLink then Reject(articles, HasLink) else []
    ensures mdContent == RenderDocument(articles)
    ensures linkMd == RenderDocument(linkArticles) && noLinkMd == RenderDocument(noLinkArticles)
  {
    pmcids, noPmcids, allMd, linkArticles, noLinkArticles := [], [], [], [], [];
    var i := 0;
    while i < |articles|
      invariant i <= |articles|
      invariant pmcids == PmcIds(articles[..i])
      invariant noPmcids == Reject(articles[..i], HasPmc)
      invariant allMd == seq(i, j requires 0 <= j < i => FormatArticleMarkdown(articles[j]))
      invariant linkArticles == if selectLink then Select(articles[..i], HasLink) else []
      invariant noLinkArticles == if selectLink then Reject(articles[..i], HasLink) else []
    {
      var article := articles[i];
      assert articles[..i + 1][..i] == articles[..i];
      if Truthy(article.pmcId) {
        pmcids := pmcids + [article.pmcId.value];
      } else {
        noPmcids := noPmcids + [article];
      }
      allMd := allMd + [FormatArticleMarkdown(article)];
      if selectLink {
        if HasGithubLink(article.abstractText) {
          linkArticles := linkArticles + [article];
        } else {
          noLinkArticles := noLinkArticles + [article];
        }
      }
      i := i + 1;
    }
    assert articles[..i] == articles;
    mdContent := Concat(allMd);
    linkMd := RenderDocument(linkArticles);
    noLinkMd := RenderDocument(noLinkArticles);
  }

  // ---------------------------------------------------------------------
  // Properties of the split

  /** A record is selected exactly when it is in the list and satisfies
      the predicate, and rejected exactly when it is in the list and does
      not. */
  lemma {:induction false} SelectMember(xs: seq<Record>, p: Record -> bool, x: Record)
    ensures x in Select(xs, p) <==> x in xs && p(x)
    ensures x in Reject(xs, p) <==> x in xs && !p(x)
    decreases |xs|
  {
    if xs != [] {
      var init := xs[..|xs| - 1];
      SelectMember(init, p, x);
      assert xs == init + [xs[|xs| - 1]];
    }
  }

  /** A predicate splits a list in two: every record lands on exactly one
      side, each as often as it occurs. */
  lemma {:induction false} SelectPartition(xs: seq<Record>, p: Record -> bool)
    ensures multiset(Select(xs, p)) + multiset(Reject(xs, p)) == multiset(xs)
    decreases |xs|
  {
    if xs != [] {
      var init := xs[..|xs| - 1];
      SelectPartition(init, p);
      assert xs == init + [xs[|xs| - 1]];
    }
  }

  /** Every stored record either gives its PMC id to `pmcids` or goes to
      `no_pmcids`, never both: the two lists count the records exactly, the
      ids are those of the records with a PMC id in order, and the records
      without one are exactly those of `no_pmcids`. */
  lemma PmcSplit(articles: seq<Record>)
    ensures |PmcIds(articles)| + |Reject(articles, HasPmc)| == |articles|
    ensures forall a :: a in Reject(articles, HasPmc) <==> a in articles && !Truthy(a.pmcId)
    ensures forall i :: 0 <= i < |PmcIds(articles)| ==>
      Truthy(Select(articles, HasPmc)[i].pmcId) && PmcIds(articles)[i] == Select(articles, HasPmc)[i].pmcId.value
  {
    SelectPartition(articles, HasPmc);
    assert |multiset(Select(articles, HasPmc))| + |multiset(Reject(articles, HasPmc))| == |multiset(articles)|;
    forall a ensures a in Reject(articles, HasPmc) <==> a in articles && !Truthy(a.pmcId) {
      SelectMember(articles, HasPmc, a);
    }
  }

  /** With `select_link` on, the link and no-link lists partition the
      records by the heuristic; with it off both stay empty. */
  lemma LinkSplit(articles: seq<Record>)
    ensures multiset(Select(articles, HasLink)) + multiset(Reject(articles, HasLink)) == multiset(articles)
    ensures forall a :: a in Select(articles, HasLink) <==> a in articles && HasGithubLink(a.abstractText)
    ensures forall a :: a in Reject(articles, HasLink) <==> a in articles && !HasGithubLink(a.abstractText)
  {
    SelectPartition(articles, HasLink);
    forall a
      ensures a in Select(articles, HasLink) <==> a in articles && HasGithubLink(a.abstractText)
      ensures a in Reject(articles, HasLink) <==> a in articles && !HasGithubLink(a.abstractText)
    {
      SelectMember(articles, HasLink, a);
    }
  }

  /** The document of two lists one after the other is the document of the
      first followed by that of the second. */
  lemma RenderDocumentAppend(xs: seq<Record>, ys: seq<Record>)
    ensures RenderDocument(xs + ys) == RenderDocument(xs) + RenderDocument(ys)
  {
    var bx := seq(|xs|, i requires 0 <= i < |xs| => FormatArticleMarkdown(xs[i]));
    var bys := seq(|ys|, i requires 0 <= i < |ys| => FormatArticleMarkdown(ys[i]));
    assert seq(|xs + ys|, i requires 0 <= i < |xs + ys| => FormatArticleMarkdown((xs + ys)[i])) == bx + bys;
    ConcatAppend(bx, bys);
  }
}
