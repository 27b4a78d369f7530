/**
 * The review queue: the read records of the progress store, in ascending
 * review time, split into the articles due now and those due within the
 * next seven days, and the label shown for an upcoming due date.
 */
module ReviewQueue {
  import opened Wrappers
  import opened Seqs
  import opened Articles
  import opened LearningProgress

  const Week: int := 7 * Day

  /** An upcoming review: the article and the time it falls due. */
  datatype Upcoming = Upcoming(article: Article, dueDate: int)

  /** The two lists and their lengths, as the component keeps them. */
  datatype Reviews = Reviews(due: seq<Article>, upcoming: seq<Upcoming>, dueCount: nat, upcomingCount: nat)

  /** A considered record together with the article its slug names. */
  datatype Entry = Entry(progress: ArticleProgress, article: Article)

  /** The records the queue looks at: read ones, in ascending review time. */
  function Considered(values: seq<ArticleProgress>): seq<ArticleProgress> {
    SortBy(Filter(values, HasBeenRead), ReviewTime)
  }

  /** The considered records are exactly the read ones, sorted by review time. */
  lemma ConsideredIsSortedReadRecords(values: seq<ArticleProgress>)
    ensures SortedBy(Considered(values), ReviewTime)
    ensures forall i :: 0 <= i < |Considered(values)| ==> Considered(values)[i].readCount > 0 && Considered(values)[i] in values
    ensures forall i :: 0 <= i < |values| && values[i].readCount > 0 ==> values[i] in Considered(values)
  {
    SortedFilterMembers(values, HasBeenRead, ReviewTime);
  }

  /** The records whose slug names an article, paired with that article, in order. */
  function Matched(articles: seq<Article>, ps: seq<ArticleProgress>): seq<Entry>
    decreases |ps|
  {
    if ps == [] then []
    else
      var rest := Matched(articles, ps[..|ps| - 1]);
      var p := ps[|ps| - 1];
      match GetArticleBySlug(articles, p.articleSlug)
      case None => rest
      case Some(a) => rest + [Entry(p, a)]
  }

  /** Each matched entry pairs one of the records with the article its slug finds. */
  lemma {:induction false} MatchedSound(articles: seq<Article>, ps: seq<ArticleProgress>)
    ensures forall i :: 0 <= i < |Matched(articles, ps)| ==>
      var e := Matched(articles, ps)[i];
      e.progress in ps && GetArticleBySlug(articles, e.progress.articleSlug) == Some(e.article)
    decreases |ps|
  {
    if ps != [] {
      var init := ps[..|ps| - 1];
      MatchedSound(articles, init);
      assert ps == init + [ps[|ps| - 1]];
    }
  }

  /** Every record whose slug finds an article is matched. */
  lemma {:induction false} MatchedComplete(articles: seq<Article>, ps: seq<ArticleProgress>)
    ensures forall i :: 0 <= i < |ps| && GetArticleBySlug(articles, ps[i].articleSlug).Some? ==>
      Entry(ps[i], GetArticleBySlug(articles, ps[i].articleSlug).value) in Matched(articles, ps)
    decreases |ps|
  {
    if ps != [] {
      var init := ps[..|ps| - 1];
      MatchedComplete(articles, init);
      assert ps == init + [ps[|ps| - 1]];
      forall i | 0 <= i < |ps| - 1 ensures ps[i] == init[i] { }
    }
  }

  /** Matching keeps the records' review-time order. */
  lemma {:induction false} MatchedSorted(articles: seq<Article>, ps: seq<ArticleProgress>)
    requires SortedBy(ps, ReviewTime)
    ensures SortedBy(Matched(articles, ps), EntryTime)
    decreases |ps|
  {
    if ps != [] {
      var init := ps[..|ps| - 1];
      var p := ps[|ps| - 1];
      assert ps == init + [p];
      assert SortedBy(init, ReviewTime);
      MatchedSorted(articles, init);
      MatchedSound(articles, init);
      var rest := Matched(articles, init);
      forall i | 0 <= i < |rest| ensures rest[i].progress.nextReviewAt <= p.nextReviewAt {
        var k :| 0 <= k < |init| && init[k] == rest[i].progress;
        assert ps[k] == init[k];
      }
    }
  }

  predicate IsDueEntry(e: Entry, now: int) {
    e.progress.nextReviewAt <= now
  }

  predicate IsUpcomingEntry(e: Entry, now: int) {
    now < e.progress.nextReviewAt <= now + Week
  }

  function EntryArticle(e: Entry): Article {
    e.article
  }

  function EntryUpcoming(e: Entry): Upcoming {
    Upcoming(e.article, e.progress.nextReviewAt)
  }

  function EntryTime(e: Entry): int {
    e.progress.nextReviewAt
  }

  function DueAtEntry(now: int): Entry -> bool {
    (e: Entry) => IsDueEntry(e, now)
  }

  function UpcomingAtEntry(now: int): Entry -> bool {
    (e: Entry) => IsUpcomingEntry(e, now)
  }

  /** The entries of the due list. */
  function DueEntries(es: seq<Entry>, now: int): seq<Entry> {
    Filter(es, DueAtEntry(now))
  }

  /** The entries of the upcoming list. */
  function UpcomingEntries(es: seq<Entry>, now: int): seq<Entry> {
    Filter(es, UpcomingAtEntry(now))
  }

  function DueArticles(es: seq<Entry>, now: int): seq<Article> {
    MapSeq(DueEntries(es, now), EntryArticle)
  }

  function UpcomingReviews(es: seq<Entry>, now: int): seq<Upcoming> {
    MapSeq(UpcomingEntries(es, now), EntryUpcoming)
  }

  /** The entries `calculateReviews` walks over. */
  function QueueEntries(articles: seq<Article>, values: seq<ArticleProgress>): seq<Entry> {
    Matched(articles, Considered(values))
  }

  /** `calculateReviews` at time `now` over the store's values and the article list. */
  method CalculateReviews(articles: seq<Article>, values: seq<ArticleProgress>, now: int) returns (r: Reviews)
    ensures r.due == DueArticles(QueueEntries(articles, values), now)
    ensures r.upcoming == UpcomingReviews(QueueEntries(articles, values), now)
    ensures r.dueCount == |r.due| && r.upcomingCount == |r.upcoming|
  {
    var considered := Considered(values);
    var due: seq<Article> := [];
    var upcoming: seq<Upcoming> := [];
    var i := 0;
    while i < |considered|
      invariant 0 <= i <= |considered|
      invariant due == DueArticles(Matched(articles, considered[..i]), now)
      invariant upcoming == UpcomingReviews(Matched(articles, considered[..i]), now)
    {
      var progress := considered[i];
      DueStep(articles, considered, i, now);
      UpcomingStep(articles, considered, i, now);
      var found := GetArticleBySlug(articles, progress.articleSlug);
      if found.Some? {
        if progress.nextReviewAt <= now {
          due := due + [found.value];
        } else if progress.nextReviewAt <= now + Week {
          upcoming := upcoming + [Upcoming(found.value, progress.nextReviewAt)];
        }
      }
      i := i + 1;
    }
    assert considered[..|considered|] == considered;
    r := Reviews(due, upcoming, |due|, |upcoming|);
  }

  /** One step of the walk: the next record adds its article to the due list exactly when it is found and due. */
  lemma DueStep(articles: seq<Article>, cs: seq<ArticleProgress>, i: nat, now: int)
    requires i < |cs|
    ensures var p := cs[i]; var found := GetArticleBySlug(articles, p.articleSlug);
      && (found.Some? && p.nextReviewAt <= now ==>
            DueArticles(Matched(articles, cs[..i + 1]), now) == DueArticles(Matched(articles, cs[..i]), now) + [found.value])
      && (!(found.Some? && p.nextReviewAt <= now) ==>
            DueArticles(Matched(articles, cs[..i + 1]), now) == DueArticles(Matched(articles, cs[..i]), now))
  {
    var ps, p := cs[..i], cs[i];
    assert cs[..i + 1] == ps + [p];
    var es := Matched(articles, ps);
    assert (ps + [p])[..|ps + [p]| - 1] == ps;
    var found := GetArticleBySlug(articles, p.articleSlug);
    if found.Some? {
      var e := Entry(p, found.value);
      assert Matched(articles, ps + [p]) == es + [e];
      FilterSnoc(es, e, DueAtEntry(now));
      if IsDueEntry(e, now) {
        MapSeqSnoc(DueEntries(es, now), e, EntryArticle);
      }
    } else {
      assert Matched(articles, ps + [p]) == es;
    }
  }

  /** One step of the walk: the next record adds its review to the upcoming list exactly when it is found and within the week. */
  lemma UpcomingStep(articles: seq<Article>, cs: seq<ArticleProgress>, i: nat, now: int)
    requires i < |cs|
    ensures var p := cs[i]; var found := GetArticleBySlug(articles, p.articleSlug);
      && (found.Some? && now < p.nextReviewAt <= now + Week ==>
            UpcomingReviews(Matched(articles, cs[..i + 1]), now)
            == UpcomingReviews(Matched(articles, cs[..i]), now) + [Upcoming(found.value, p.nextReviewAt)])
      && (!(found.Some? && now < p.nextReviewAt <= now + Week) ==>
            UpcomingReviews(Matched(articles, cs[..i + 1]), now) == UpcomingReviews(Matched(articles, cs[..i]), now))
  {
    var ps, p := cs[..i], cs[i];
    assert cs[..i + 1] == ps + [p];
    var es := Matched(articles, ps);
    assert (ps + [p])[..|ps + [p]| - 1] == ps;
    var found := GetArticleBySlug(articles, p.articleSlug);
    if found.Some? {
      var e := Entry(p, found.value);
      assert Matched(articles, ps + [p]) == es + [e];
      FilterSnoc(es, e, UpcomingAtEntry(now));
      if IsUpcomingEntry(e, now) {
        MapSeqSnoc(UpcomingEntries(es, now), e, EntryUpcoming);
      }
    } else {
      assert Matched(articles, ps + [p]) == es;
    }
  }

  /** Every queued entry is a read record of the store together with the article its slug finds. */
  lemma QueueEntriesSound(articles: seq<Article>, values: seq<ArticleProgress>, i: int)
    requires 0 <= i < |QueueEntries(articles, values)|
    ensures var e := QueueEntries(articles, values)[i];
      e.progress in values && e.progress.readCount > 0 &&
      GetArticleBySlug(articles, e.progress.articleSlug) == Some(e.article)
  {
    ConsideredIsSortedReadRecords(values);
    MatchedSound(articles, Considered(values));
  }

  /**
   * A read record whose slug finds an article is queued; it is in the due list
   * exactly when its review time has come and in the upcoming list exactly when
   * it falls within the next seven days.
   */
  lemma QueueMembership(articles: seq<Article>, values: seq<ArticleProgress>, now: int, i: int)
    requires 0 <= i < |values| && values[i].readCount > 0
    requires GetArticleBySlug(articles, values[i].articleSlug).Some?
    ensures var e := Entry(values[i], GetArticleBySlug(articles, values[i].articleSlug).value);
      && e in QueueEntries(articles, values)
      && (e in DueEntries(QueueEntries(articles, values), now) <==> values[i].nextReviewAt <= now)
      && (e in UpcomingEntries(QueueEntries(articles, values), now) <==>
            now < values[i].nextReviewAt <= now + Week)
  {
    var c := Considered(values);
    ConsideredIsSortedReadRecords(values);
    var k :| 0 <= k < |c| && c[k] == values[i];
    MatchedComplete(articles, c);
  }

  /** A record due more than seven days from now is in neither list. */
  lemma LaterReviewsHidden(es: seq<Entry>, now: int, e: Entry)
    requires e.progress.nextReviewAt > now + Week
    ensures e !in DueEntries(es, now) && e !in UpcomingEntries(es, now)
  {
  }

  /** No entry is in both lists. */
  lemma ListsDisjoint(es: seq<Entry>, now: int)
    ensures forall i, j :: 0 <= i < |DueEntries(es, now)| && 0 <= j < |UpcomingEntries(es, now)| ==>
      DueEntries(es, now)[i] != UpcomingEntries(es, now)[j]
  {
  }

  /** Both lists are in ascending review time. */
  lemma ListsSorted(articles: seq<Article>, values: seq<ArticleProgress>, now: int)
    ensures SortedBy(DueEntries(QueueEntries(articles, values), now), EntryTime)
    ensures SortedBy(UpcomingEntries(QueueEntries(articles, values), now), EntryTime)
  {
    var es := QueueEntries(articles, values);
    ConsideredIsSortedReadRecords(values);
    MatchedSorted(articles, Considered(values));
    FilterSorted(es, DueAtEntry(now), EntryTime);
    FilterSorted(es, UpcomingAtEntry(now), EntryTime);
  }

  /** The due list shows the articles of the due entries, one each, in the same order. */
  lemma DueArticlesFollowEntries(es: seq<Entry>, now: int)
    ensures |DueArticles(es, now)| == |DueEntries(es, now)|
    ensures forall i :: 0 <= i < |DueEntries(es, now)| ==> DueArticles(es, now)[i] == DueEntries(es, now)[i].article
  {
  }

  // ---------------------------------------------------------------------------
  // Due-date label
  // ---------------------------------------------------------------------------

  /** `Math.ceil((due - now) / day)` on integer milliseconds. */
  function DiffDays(due: int, now: int): (d: int)
    ensures (d - 1) * Day < due - now <= d * Day
  {
    -((now - due) / Day)
  }

  datatype DueLabel = Today | Tomorrow | InDays(days: int) | OnDate(date: int)

  /** `formatDueDate(date)` at time `now`. */
  function FormatDueDate(due: int, now: int): (l: DueLabel)
    ensures l == Today <==> now - Day < due <= now
    ensures l == Tomorrow <==> now < due <= now + Day
    ensures l.InDays? ==> l.days == DiffDays(due, now) && l.days < 7 && l.days != 0 && l.days != 1
    ensures l.OnDate? <==> due > now + 6 * Day
  {
    var d := DiffDays(due, now);
    if d == 0 then Today
    else if d == 1 then Tomorrow
    else if d < 7 then InDays(d)
    else OnDate(due)
  }

  /**
   * The label of an upcoming review: "Tomorrow", "In d days" for d from 2 to 6,
   * or a calendar date for the last day of the week; never "Today".
   */
  lemma UpcomingLabels(due: int, now: int)
    requires now < due <= now + Week
    ensures FormatDueDate(due, now) != Today
    ensures FormatDueDate(due, now).InDays? ==> 2 <= FormatDueDate(due, now).days <= 6
    ensures due > now + 6 * Day ==> FormatDueDate(due, now) == OnDate(due)
  {
    var d := DiffDays(due, now);
    assert 0 < d * Day;
  }

  /** A review exactly three days away reads "In 3 days". */
  lemma ThreeDaysAway(now: int)
    ensures FormatDueDate(now + 3 * Day, now) == InDays(3)
  {
    assert DiffDays(now + 3 * Day, now) == 3;
  }
}
