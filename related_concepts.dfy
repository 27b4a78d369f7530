/**
 * Related concepts: every other published article is scored for relatedness
 * to the current one, the six best are kept, and they are grouped into four
 * overlapping lists shown with small caps. The read status comes from the
 * progress store, given as a map.
 */
module RelatedConcepts {
  import opened Wrappers
  import opened Seqs
  import opened Articles
  import opened LearningProgress

  /** The number of ranked articles kept. */
  const RankLimit: nat := 6

  /** `progress[slug]?.readCount > 0`. */
  predicate IsRead(progress: map<string, ArticleProgress>, slug: string) {
    slug in progress && progress[slug].readCount > 0
  }

  /** The articles that may be recommended: published, and not the current one. */
  function Candidates(all: seq<Article>, current: Article): (r: seq<Article>)
    ensures forall i :: 0 <= i < |r| ==> r[i].slug != current.slug && r[i].status == Published && r[i] in all
    ensures forall i :: 0 <= i < |all| && all[i].slug != current.slug && all[i].status == Published ==> all[i] in r
  {
    Filter(all, (a: Article) => a.slug != current.slug && a.status == Published)
  }

  /** Whether a tag is one of the current article's. */
  function TagOf(current: Article): string -> bool {
    (t: string) => t in current.tags
  }

  /** The article's tags that the current article also has, counted with repetition. */
  function SharedTags(article: Article, current: Article): (n: nat)
    ensures n <= |article.tags|
  {
    Count(article.tags, TagOf(current))
  }

  function Indicator(b: bool): nat {
    if b then 1 else 0
  }

  /** The relatedness score, as a weighted sum of its five signals. */
  function Relatedness(current: Article, article: Article, progress: map<string, ArticleProgress>): (s: int)
    ensures 0 <= s <= 36 + 5 * |article.tags|
  {
    10 * Indicator(article.category == current.category)
    + 15 * Indicator(article.slug in current.related)
    + 5 * SharedTags(article, current)
    + 8 * Indicator(IsRead(progress, article.slug))
    + 3 * Indicator(article.difficulty == current.difficulty)
  }

  /** An article that shares nothing with the current one scores 0; one that shares everything scores at least 36. */
  lemma RelatednessExtremes(current: Article, article: Article, progress: map<string, ArticleProgress>)
    ensures (&& article.category != current.category && article.slug !in current.related
             && SharedTags(article, current) == 0 && !IsRead(progress, article.slug)
             && article.difficulty != current.difficulty)
            ==> Relatedness(current, article, progress) == 0
    ensures (&& article.category == current.category && article.slug in current.related
             && IsRead(progress, article.slug) && article.difficulty == current.difficulty)
            ==> Relatedness(current, article, progress) >= 36
  {
  }

  /** The scoring callback, adding each signal's weight to a running score. */
  method ScoreArticle(current: Article, article: Article, progress: map<string, ArticleProgress>) returns (score: int)
    ensures score == Relatedness(current, article, progress)
  {
    score := 0;
    if article.category == current.category {
      score := score + 10;
    }
    if article.slug in current.related {
      score := score + 15;
    }
    var shared := 0;
    var i := 0;
    while i < |article.tags|
      invariant 0 <= i <= |article.tags|
      invariant shared == Count(article.tags[..i], TagOf(current))
    {
      assert article.tags[..i + 1] == article.tags[..i] + [article.tags[i]];
      CountSnoc(article.tags[..i], article.tags[i], TagOf(current));
      if article.tags[i] in current.tags {
        shared := shared + 1;
      }
      i := i + 1;
    }
    assert article.tags[..i] == article.tags;
    score := score + shared * 5;
    if IsRead(progress, article.slug) {
      score := score + 8;
    }
    if article.difficulty == current.difficulty {
      score := score + 3;
    }
  }

  lemma CountSnoc(s: seq<string>, x: string, p: string -> bool)
    ensures Count(s + [x], p) == Count(s, p) + (if p(x) then 1 else 0)
  {
    FilterSnoc(s, x, p);
  }

  datatype Scored = Scored(article: Article, score: int)

  /** The sort key of the ranking: higher scores first. */
  function ScoreKey(s: Scored): int {
    -s.score
  }

  function ArticleOf(s: Scored): Article {
    s.article
  }

  /** Each element carries its article's own relatedness. */
  ghost predicate WellScored(ss: seq<Scored>, current: Article, progress: map<string, ArticleProgress>) {
    forall i :: 0 <= i < |ss| ==> ss[i].score == Relatedness(current, ss[i].article, progress)
  }

  /** The candidates with their scores. */
  function ScoredCandidates(all: seq<Article>, current: Article, progress: map<string, ArticleProgress>): seq<Scored> {
    MapSeq(Candidates(all, current), (a: Article) => Scored(a, Relatedness(current, a, progress)))
  }

  /** The candidates with their scores, best first. */
  function RankedCandidates(all: seq<Article>, current: Article, progress: map<string, ArticleProgress>): (r: seq<Scored>)
    ensures SortedBy(r, ScoreKey)
    ensures multiset(r) == multiset(ScoredCandidates(all, current, progress))
    ensures |r| == |Candidates(all, current)|
  {
    SortBy(ScoredCandidates(all, current, progress), ScoreKey)
  }

  /** Each ranked entry carries its article's own relatedness. */
  lemma RankedWellScored(all: seq<Article>, current: Article, progress: map<string, ArticleProgress>)
    ensures WellScored(RankedCandidates(all, current, progress), current, progress)
  {
    var r := RankedCandidates(all, current, progress);
    var scored := ScoredCandidates(all, current, progress);
    forall i | 0 <= i < |r| ensures r[i].score == Relatedness(current, r[i].article, progress) {
      assert r[i] in multiset(scored);
      var k :| 0 <= k < |scored| && scored[k] == r[i];
    }
  }

  /** Every ranked entry is a candidate. */
  lemma RankedFromCandidates(all: seq<Article>, current: Article, progress: map<string, ArticleProgress>)
    ensures var r := RankedCandidates(all, current, progress);
      forall i :: 0 <= i < |r| ==> r[i].article in Candidates(all, current)
  {
    var r := RankedCandidates(all, current, progress);
    var scored := ScoredCandidates(all, current, progress);
    forall i | 0 <= i < |r| ensures r[i].article in Candidates(all, current) {
      assert r[i] in multiset(scored);
      var k :| 0 <= k < |scored| && scored[k] == r[i];
    }
  }

  /** Every candidate is ranked, with its own relatedness. */
  lemma RankedHasCandidate(all: seq<Article>, current: Article, progress: map<string, ArticleProgress>, c: Article)
    requires c in Candidates(all, current)
    ensures Scored(c, Relatedness(current, c, progress)) in RankedCandidates(all, current, progress)
  {
    var cands := Candidates(all, current);
    var scored := ScoredCandidates(all, current, progress);
    var m :| 0 <= m < |cands| && cands[m] == c;
    assert scored[m] in multiset(RankedCandidates(all, current, progress));
  }

  /** `relatedArticles`: the six best-scoring candidates, best first. */
  function RelatedArticles(all: seq<Article>, current: Article, progress: map<string, ArticleProgress>): (r: seq<Article>)
    ensures |r| == if |RankedCandidates(all, current, progress)| < RankLimit then |RankedCandidates(all, current, progress)| else RankLimit
    ensures forall i :: 0 <= i < |r| ==> r[i] == RankedCandidates(all, current, progress)[i].article
  {
    var ranked := RankedCandidates(all, current, progress);
    var top := Take(ranked, RankLimit);
    var r := MapSeq(top, ArticleOf);
    assert forall i :: 0 <= i < |r| ==> r[i] == ArticleOf(top[i]) == ranked[i].article;
    r
  }

  /** The related articles are candidates, in non-increasing score order. */
  lemma RelatedArticlesRanked(all: seq<Article>, current: Article, progress: map<string, ArticleProgress>)
    ensures var r := RelatedArticles(all, current, progress);
      && (forall i :: 0 <= i < |r| ==> r[i].slug != current.slug && r[i].status == Published && r[i] in all)
      && (forall i, j :: 0 <= i < j < |r| ==>
            Relatedness(current, r[i], progress) >= Relatedness(current, r[j], progress))
  {
    RelatedAreCandidates(all, current, progress);
    RelatedInScoreOrder(all, current, progress);
  }

  /** Every related article is a candidate. */
  lemma RelatedAreCandidates(all: seq<Article>, current: Article, progress: map<string, ArticleProgress>)
    ensures var r := RelatedArticles(all, current, progress);
      forall i :: 0 <= i < |r| ==> r[i] in Candidates(all, current)
  {
    RankedFromCandidates(all, current, progress);
  }

  /** The related articles come in non-increasing score order. */
  lemma RelatedInScoreOrder(all: seq<Article>, current: Article, progress: map<string, ArticleProgress>)
    ensures var r := RelatedArticles(all, current, progress);
      forall i, j :: 0 <= i < j < |r| ==>
        Relatedness(current, r[i], progress) >= Relatedness(current, r[j], progress)
  {
    var ranked := RankedCandidates(all, current, progress);
    RankedWellScored(all, current, progress);
    var r := RelatedArticles(all, current, progress);
    forall i, j | 0 <= i < j < |r|
      ensures Relatedness(current, r[i], progress) >= Relatedness(current, r[j], progress)
    {
      assert ScoreKey(ranked[i]) <= ScoreKey(ranked[j]);
    }
  }

  /** No candidate left out of the ranking scores higher than any article in it. */
  lemma RankingKeepsTheBest(all: seq<Article>, current: Article, progress: map<string, ArticleProgress>, c: Article)
    requires c in Candidates(all, current)
    requires c !in RelatedArticles(all, current, progress)
    ensures forall i :: 0 <= i < |RelatedArticles(all, current, progress)| ==>
      Relatedness(current, c, progress) <= Relatedness(current, RelatedArticles(all, current, progress)[i], progress)
  {
    var ranked := RankedCandidates(all, current, progress);
    RankedWellScored(all, current, progress);
    RankedHasCandidate(all, current, progress, c);
    var r := RelatedArticles(all, current, progress);
    var entry := Scored(c, Relatedness(current, c, progress));
    var k :| 0 <= k < |ranked| && ranked[k] == entry;
    assert k >= |r| by {
      forall i | 0 <= i < |r| ensures ranked[i] != entry {
        assert r[i] == ranked[i].article;
      }
    }
    PrefixOutranks(ranked, |r|, k);
  }

  /** In a ranking, every entry before position `n` scores at least as much as any entry from `n` on. */
  lemma PrefixOutranks(ranked: seq<Scored>, n: nat, k: nat)
    requires SortedBy(ranked, ScoreKey) && n <= k < |ranked|
    ensures forall i :: 0 <= i < n ==> ranked[i].score >= ranked[k].score
  {
    forall i | 0 <= i < n ensures ranked[i].score >= ranked[k].score {
      assert ScoreKey(ranked[i]) <= ScoreKey(ranked[k]);
    }
  }

  /** Fewer than six candidates are all kept. */
  lemma SmallPoolKeptWhole(all: seq<Article>, current: Article, progress: map<string, ArticleProgress>)
    requires |Candidates(all, current)| <= RankLimit
    ensures forall i :: 0 <= i < |Candidates(all, current)| ==>
      Candidates(all, current)[i] in RelatedArticles(all, current, progress)
  {
    var ranked := RankedCandidates(all, current, progress);
    var r := RelatedArticles(all, current, progress);
    var cands := Candidates(all, current);
    forall i | 0 <= i < |cands| ensures cands[i] in r {
      RankedHasCandidate(all, current, progress, cands[i]);
      var e := Scored(cands[i], Relatedness(current, cands[i], progress));
      var k :| 0 <= k < |ranked| && ranked[k] == e;
      assert r[k] == cands[i];
    }
  }

  // ---------------------------------------------------------------------------
  // The four lists
  // ---------------------------------------------------------------------------

  predicate IsPrerequisite(current: Article, a: Article) {
    a.difficulty == Beginner && current.difficulty != Beginner && a.category == current.category
  }

  predicate IsAdvancedStep(current: Article, a: Article) {
    a.difficulty == Advanced && current.difficulty != Advanced && a.category == current.category
  }

  datatype Groups = Groups(reinforcement: seq<Article>, prerequisite: seq<Article>, advanced: seq<Article>, related: seq<Article>)

  /** `categories`: four filters of the ranked articles. */
  function Categorize(related: seq<Article>, current: Article, progress: map<string, ArticleProgress>): (g: Groups)
    ensures forall i :: 0 <= i < |related| ==>
      && (related[i] in g.reinforcement <==> IsRead(progress, related[i].slug))
      && (related[i] in g.prerequisite <==> IsPrerequisite(current, related[i]))
      && (related[i] in g.advanced <==> IsAdvancedStep(current, related[i]))
      && (related[i] in g.related <==> related[i].slug in current.related)
    ensures current.difficulty == Beginner ==> g.prerequisite == []
    ensures current.difficulty == Advanced ==> g.advanced == []
  {
    assert current.difficulty == Beginner ==> Filter(related, (a: Article) => IsPrerequisite(current, a)) == [] by {
      if current.difficulty == Beginner {
        FilterKeepsNone(related, (a: Article) => IsPrerequisite(current, a));
      }
    }
    assert current.difficulty == Advanced ==> Filter(related, (a: Article) => IsAdvancedStep(current, a)) == [] by {
      if current.difficulty == Advanced {
        FilterKeepsNone(related, (a: Article) => IsAdvancedStep(current, a));
      }
    }
    Groups(
      Filter(related, (a: Article) => IsRead(progress, a.slug)),
      Filter(related, (a: Article) => IsPrerequisite(current, a)),
      Filter(related, (a: Article) => IsAdvancedStep(current, a)),
      Filter(related, (a: Article) => a.slug in current.related))
  }

  /** Each list keeps the ranking's order. */
  lemma CategoriesPreserveOrder(related: seq<Article>, current: Article, progress: map<string, ArticleProgress>)
    ensures var g := Categorize(related, current, progress);
      && Subseq(g.reinforcement, related) && Subseq(g.prerequisite, related)
      && Subseq(g.advanced, related) && Subseq(g.related, related)
  {
    FilterIsSubseq(related, (a: Article) => IsRead(progress, a.slug));
    FilterIsSubseq(related, (a: Article) => IsPrerequisite(current, a));
    FilterIsSubseq(related, (a: Article) => IsAdvancedStep(current, a));
    FilterIsSubseq(related, (a: Article) => a.slug in current.related);
  }

  // ---------------------------------------------------------------------------
  // What is shown
  // ---------------------------------------------------------------------------

  /** The cards of each section; an empty list means the section is not shown. */
  datatype Display = Display(reinforcement: seq<Article>, prerequisite: seq<Article>, advanced: seq<Article>, related: seq<Article>)

  /** The rendered component: nothing without ranked articles, else each list cut to its cap. */
  function Render(related: seq<Article>, current: Article, progress: map<string, ArticleProgress>): (d: Option<Display>)
    ensures d.None? <==> related == []
    ensures d.Some? ==> var g := Categorize(related, current, progress);
      && d.value.reinforcement == Take(g.reinforcement, 2)
      && d.value.prerequisite == Take(g.prerequisite, 2)
      && d.value.advanced == Take(g.advanced, 2)
      && d.value.related == Take(g.related, 4)
  {
    if |related| == 0 then None
    else
      var g := Categorize(related, current, progress);
      Some(Display(
        if |g.reinforcement| > 0 then Take(g.reinforcement, 2) else [],
        if |g.prerequisite| > 0 && current.difficulty != Beginner then Take(g.prerequisite, 2) else [],
        if |g.advanced| > 0 && current.difficulty != Advanced then Take(g.advanced, 2) else [],
        if |g.related| > 0 then Take(g.related, 4) else []))
  }

  /** At most ten cards are shown, two, two, two and four per section. */
  lemma RenderCaps(related: seq<Article>, current: Article, progress: map<string, ArticleProgress>)
    requires related != []
    ensures var d := Render(related, current, progress).value;
      |d.reinforcement| <= 2 && |d.prerequisite| <= 2 && |d.advanced| <= 2 && |d.related| <= 4
  {
  }
}
