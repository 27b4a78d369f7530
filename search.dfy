/** The `filteredArticles` computation of the search hook. */
module Search {
  import opened Wrappers
  import opened Seqs
  import opened Text
  import opened Articles

  /**
   * `filteredArticles` for the hook's state: the selected category (null when
   * none) and the raw query text. A query that trims to nothing filters
   * nothing; any other query is lowercased but not trimmed.
   */
  function FilteredArticles(articles: seq<Article>, query: string, selectedCategory: Option<string>): (r: seq<Article>)
    ensures !Truthy(selectedCategory) && IsBlank(query) ==> r == articles
    ensures Truthy(selectedCategory) ==>
      forall i :: 0 <= i < |r| ==> r[i].category == selectedCategory.value
    ensures !IsBlank(query) ==>
      forall i :: 0 <= i < |r| ==> MatchesQuery(r[i], Lower(query))
  {
    var byCategory :=
      if Truthy(selectedCategory) then
        var c := selectedCategory.value;
        Filter(articles, (a: Article) => a.category == c)
      else articles;
    if !IsBlank(query) then
      var lowerQuery := Lower(query);
      Filter(byCategory, (a: Article) => MatchesQuery(a, lowerQuery))
    else byCategory
  }

  /**
   * The hook computes `filterArticles` with the query counted as absent when
   * it is whitespace only.
   */
  lemma {:induction false} AgreesWithFilterArticles(articles: seq<Article>, query: string, selectedCategory: Option<string>)
    ensures FilteredArticles(articles, query, selectedCategory)
         == FilterArticles(articles, FilterOptions(selectedCategory, Some(if IsBlank(query) then "" else query)))
  {
    assert query == "" ==> IsBlank(query);
  }

  /** The hook's result keeps the input's order. */
  lemma PreservesOrder(articles: seq<Article>, query: string, selectedCategory: Option<string>)
    ensures Subseq(FilteredArticles(articles, query, selectedCategory), articles)
  {
    AgreesWithFilterArticles(articles, query, selectedCategory);
    FilterArticlesPreservesOrder(articles, FilterOptions(selectedCategory, Some(if IsBlank(query) then "" else query)));
  }

  /** An article is kept exactly when it passes both the category and the query test. */
  lemma KeptIff(articles: seq<Article>, query: string, selectedCategory: Option<string>, i: int)
    requires 0 <= i < |articles|
    ensures articles[i] in FilteredArticles(articles, query, selectedCategory) <==>
      && (Truthy(selectedCategory) ==> articles[i].category == selectedCategory.value)
      && (!IsBlank(query) ==> MatchesQuery(articles[i], Lower(query)))
  {
    AgreesWithFilterArticles(articles, query, selectedCategory);
  }

  /** The query is not trimmed: " react" does not find an article titled "react". */
  lemma SurroundingSpacesMustMatch()
    ensures var a := Article("react", "react", "react-internals", "", Beginner, [], [], Published);
      a !in FilteredArticles([a], " react", None)
  {
    var a := Article("react", "react", "react-internals", "", Beginner, [], [], Published);
    assert !IsBlank(" react") by { assert !IsWhitespace(" react"[1]); }
    ContainsLonger(Lower(a.title), Lower(" react"));
    ContainsLonger(Lower(a.description), Lower(" react"));
    assert !MatchesQuery(a, Lower(" react"));
    KeptIff([a], " react", None, 0);
  }
}
