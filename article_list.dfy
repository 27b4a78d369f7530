/** The category pills and the category filter of the article list page. */
module ArticleList {
  import opened Wrappers
  import opened Seqs
  import opened Articles

  /** The pill ids in display order; "all" stands for every article. */
  const PillIds: seq<string> := ["all", "react", "javascript", "performance", "architecture",
    "web-apis", "build-tools", "security", "testing", "css", "nextjs"]

  /** The selection before any click: `initialCategory`, "all" when not given. */
  function InitialSelection(initialCategory: Option<string>): (r: string)
    ensures initialCategory.None? ==> r == "all"
    ensures initialCategory.Some? ==> r == initialCategory.value
  {
    initialCategory.GetOr("all")
  }

  /** `filteredArticles` for the selected pill. */
  function SelectedArticles(articles: seq<Article>, selected: string): (r: seq<Article>)
    ensures selected == "all" ==> r == articles
    ensures selected != "all" ==> forall i :: 0 <= i < |r| ==> r[i].category == selected
    ensures selected != "all" ==>
      forall i :: 0 <= i < |articles| ==> (articles[i] in r <==> articles[i].category == selected)
  {
    if selected == "all" then articles
    else Filter(articles, (a: Article) => a.category == selected)
  }

  /** The selection keeps the list's order. */
  lemma SelectedPreservesOrder(articles: seq<Article>, selected: string)
    ensures Subseq(SelectedArticles(articles, selected), articles)
  {
    if selected == "all" {
      FilterKeepsAll(articles, (a: Article) => true);
      FilterIsSubseq(articles, (a: Article) => true);
    } else {
      FilterIsSubseq(articles, (a: Article) => a.category == selected);
    }
  }

  /** The count a pill shows: none for "all", the number of articles in that category otherwise. */
  function PillCount(articles: seq<Article>, id: string): (r: Option<nat>)
    ensures r.None? <==> id == "all"
    ensures r.Some? ==> r.value <= |articles|
  {
    if id == "all" then None
    else Some(Count(articles, (a: Article) => a.category == id))
  }

  /** A pill's count is the number of articles that clicking it would show. */
  lemma PillCountMatchesSelection(articles: seq<Article>, id: string)
    requires id != "all"
    ensures PillCount(articles, id) == Some(|SelectedArticles(articles, id)|)
  {
  }

  /** The pills as rendered for the given id table: each id with its count. */
  function Pills(articles: seq<Article>, ids: seq<string>): (r: seq<(string, Option<nat>)>)
    ensures |r| == |ids|
    ensures forall i :: 0 <= i < |r| ==> r[i] == (ids[i], PillCount(articles, ids[i]))
  {
    MapSeq(ids, (id: string) => (id, PillCount(articles, id)))
  }

  /** The page's pills: only the first one, "all", shows no count. */
  lemma OnlyAllPillHasNoCount(articles: seq<Article>)
    ensures forall i :: 0 <= i < |PillIds| ==> (Pills(articles, PillIds)[i].1.None? <==> i == 0)
  {
    assert PillIds[0] == "all";
    forall i | 1 <= i < |PillIds| ensures PillIds[i] != "all" {
      assert PillIds[i][0] != 'a' || |PillIds[i]| != 3;
    }
  }
}
