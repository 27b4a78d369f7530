/**
 * The article queries of the content library, taken over a given list of
 * articles (the list the file loader would produce, already in its order).
 */
module Articles {
  import opened Wrappers
  import opened Seqs
  import opened Text

  datatype Difficulty = Beginner | Intermediate | Advanced

  datatype Status = Published | Stub

  /** The front-matter fields the core reads; categories are plain strings. */
  datatype Article = Article(
    title: string,
    slug: string,
    category: string,
    description: string,
    difficulty: Difficulty,
    tags: seq<string>,
    related: seq<string>,
    status: Status)

  /** JavaScript truthiness of an optional string: present and not empty. */
  predicate Truthy(o: Option<string>) {
    o.Some? && o.value != ""
  }

  /**
   * The search test shared by `searchArticles`, `filterArticles` and the
   * search hook: the lowercased title, description or some lowercased tag
   * includes the (already lowercased) query.
   */
  predicate MatchesQuery(a: Article, lowerQuery: string) {
    || Contains(Lower(a.title), lowerQuery)
    || Contains(Lower(a.description), lowerQuery)
    || exists t :: t in a.tags && Contains(Lower(t), lowerQuery)
  }

  /** Every article matches the empty query. */
  lemma MatchesEmptyQuery(a: Article)
    ensures MatchesQuery(a, "")
  {
    ContainsEmpty(Lower(a.title));
  }

  datatype FilterOptions = FilterOptions(category: Option<string>, query: Option<string>)

  /** The condition an article must meet to survive `filterArticles`. */
  predicate Keep(options: FilterOptions, a: Article) {
    && (Truthy(options.category) ==> a.category == options.category.value)
    && (Truthy(options.query) ==> MatchesQuery(a, Lower(options.query.value)))
  }

  /** `filterArticles(articles, options)`: a category filter, then a query filter. */
  function FilterArticles(articles: seq<Article>, options: FilterOptions): (r: seq<Article>)
    ensures !Truthy(options.category) && !Truthy(options.query) ==> r == articles
    ensures Truthy(options.category) ==>
      forall i :: 0 <= i < |r| ==> r[i].category == options.category.value
    ensures Truthy(options.query) ==>
      forall i :: 0 <= i < |r| ==> MatchesQuery(r[i], Lower(options.query.value))
    ensures forall i :: 0 <= i < |articles| ==> (articles[i] in r <==> Keep(options, articles[i]))
  {
    var byCategory :=
      if Truthy(options.category) then
        var c := options.category.value;
        Filter(articles, (a: Article) => a.category == c)
      else articles;
    if Truthy(options.query) then
      var lowerQuery := Lower(options.query.value);
      Filter(byCategory, (a: Article) => MatchesQuery(a, lowerQuery))
    else byCategory
  }

  /** `filterArticles` is a single order-preserving filter by `Keep`. */
  lemma FilterArticlesIsFilter(articles: seq<Article>, options: FilterOptions)
    ensures FilterArticles(articles, options) == Filter(articles, (a: Article) => Keep(options, a))
  {
    var keep := (a: Article) => Keep(options, a);
    var c := options.category;
    var q := options.query;
    if Truthy(c) && Truthy(q) {
      var cv := c.value;
      var lq := Lower(q.value);
      FilterFusion(articles, (a: Article) => a.category == cv, (a: Article) => MatchesQuery(a, lq), keep);
    } else if Truthy(c) {
      var cv := c.value;
      FilterCongruent(articles, (a: Article) => a.category == cv, keep);
    } else if Truthy(q) {
      var lq := Lower(q.value);
      FilterCongruent(articles, (a: Article) => MatchesQuery(a, lq), keep);
    } else {
      FilterKeepsAll(articles, keep);
    }
  }

  /** The result keeps the input's order: it is a subsequence of it. */
  lemma FilterArticlesPreservesOrder(articles: seq<Article>, options: FilterOptions)
    ensures Subseq(FilterArticles(articles, options), articles)
  {
    FilterArticlesIsFilter(articles, options);
    FilterIsSubseq(articles, (a: Article) => Keep(options, a));
  }

  /** Filtering the result again with the same options changes nothing. */
  lemma FilterArticlesIdempotent(articles: seq<Article>, options: FilterOptions)
    ensures FilterArticles(FilterArticles(articles, options), options)
         == FilterArticles(articles, options)
  {
    var keep := (a: Article) => Keep(options, a);
    FilterArticlesIsFilter(articles, options);
    FilterArticlesIsFilter(FilterArticles(articles, options), options);
    FilterIdempotent(articles, keep);
  }

  /** `searchArticles(query)` over the given list. */
  function SearchArticles(articles: seq<Article>, query: string): (r: seq<Article>)
    ensures forall i :: 0 <= i < |articles| ==>
      (articles[i] in r <==> MatchesQuery(articles[i], Lower(query)))
    ensures forall i :: 0 <= i < |r| ==> MatchesQuery(r[i], Lower(query))
  {
    var lowerQuery := Lower(query);
    Filter(articles, (a: Article) => MatchesQuery(a, lowerQuery))
  }

  /**
   * `searchArticles` and `filterArticles` with only a query agree for every
   * query, including the empty one (which `includes` on every title).
   */
  lemma SearchAgreesWithFilter(articles: seq<Article>, query: string)
    ensures SearchArticles(articles, query) == FilterArticles(articles, FilterOptions(None, Some(query)))
  {
    var lowerQuery := Lower(query);
    if query == "" {
      forall i | 0 <= i < |articles| ensures MatchesQuery(articles[i], lowerQuery) {
        MatchesEmptyQuery(articles[i]);
      }
      FilterKeepsAll(articles, (a: Article) => MatchesQuery(a, lowerQuery));
    }
  }

  /** The search ignores the case of ASCII letters in the query. */
  lemma SearchIgnoresQueryCase(articles: seq<Article>, query: string)
    ensures SearchArticles(articles, query) == SearchArticles(articles, Lower(query))
  {
    LowerIdempotent(query);
  }

  /** `getArticlesByTag(tag)`: an exact, case-sensitive tag match. */
  function GetArticlesByTag(articles: seq<Article>, tag: string): (r: seq<Article>)
    ensures forall i :: 0 <= i < |articles| ==> (articles[i] in r <==> tag in articles[i].tags)
    ensures forall i :: 0 <= i < |r| ==> tag in r[i].tags
  {
    Filter(articles, (a: Article) => tag in a.tags)
  }

  /** Tag lookup is case-sensitive where the search is not: a "React" tag is found by searching "react" but not by tag "react". */
  lemma TagLookupIsCaseSensitive(a: Article)
    requires a.tags == ["React"]
    ensures a !in GetArticlesByTag([a], "react")
    ensures a in SearchArticles([a], "react")
  {
    assert "react"[0] != "React"[0];
    TagMatchesLowered();
    assert "React" in a.tags;
    assert MatchesQuery(a, Lower("react"));
    assert [a][0] == a;
  }

  /** "react" occurs in the lowercased "React". */
  lemma TagMatchesLowered()
    ensures Lower("react") == "react"
    ensures Contains(Lower("React"), "react")
  {
    assert Lower("React") == "react";
    assert StartsWith("react", "react");
  }

  /** `getArticlesByCategory(category)`. */
  function GetArticlesByCategory(articles: seq<Article>, category: string): (r: seq<Article>)
    ensures forall i :: 0 <= i < |articles| ==> (articles[i] in r <==> articles[i].category == category)
    ensures forall i :: 0 <= i < |r| ==> r[i].category == category && r[i] in articles
  {
    FilterMembers(articles, (a: Article) => a.category == category);
    Filter(articles, (a: Article) => a.category == category)
  }

  /** Position `i` holds the first article with that slug. */
  ghost predicate FirstWithSlug(articles: seq<Article>, slug: string, i: int) {
    0 <= i < |articles| && articles[i].slug == slug
    && forall j :: 0 <= j < i ==> articles[j].slug != slug
  }

  /** `getArticleBySlug(slug)`: the first article with that slug, or none. */
  function GetArticleBySlug(articles: seq<Article>, slug: string): (r: Option<Article>)
    ensures r.None? <==> forall i :: 0 <= i < |articles| ==> articles[i].slug != slug
    ensures r.Some? ==> r.value.slug == slug
    ensures r.Some? ==> exists i :: FirstWithSlug(articles, slug, i) && articles[i] == r.value
  {
    if articles == [] then None
    else if articles[0].slug == slug then Some(articles[0])
    else
      var r := GetArticleBySlug(articles[1..], slug);
      assert r.Some? ==> exists i :: FirstWithSlug(articles, slug, i) && articles[i] == r.value by {
        if r.Some? {
          var k :| FirstWithSlug(articles[1..], slug, k) && articles[1..][k] == r.value;
          forall j | 0 <= j < k + 1 ensures articles[j].slug != slug || j == k + 1 {
            if j > 0 { assert articles[j] == articles[1..][j - 1]; }
          }
          assert FirstWithSlug(articles, slug, k + 1);
        }
      }
      r
  }
}
