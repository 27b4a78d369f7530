/**
 * The learning-progress manager: a store of per-article progress records, a
 * current reading session, a capped history of finished sessions, the
 * spaced-repetition scheduler, and the statistics and streak derived from
 * them. Timestamps are integers in milliseconds; calendar days are integer
 * day numbers. The clock, the calendar day and highlight ids are parameters.
 */
module LearningProgress {
  import opened Wrappers
  import opened Seqs

  /** One day in milliseconds. */
  const Day: int := 24 * 60 * 60 * 1000

  /** The number of finished sessions the history keeps. */
  const HistoryLimit: nat := 30

  /** The number of days the streak walk examines. */
  const StreakWindow: nat := 365

  datatype Highlight = Highlight(id: string, text: string, position: int, note: Option<string>, createdAt: int)

  datatype ArticleProgress = ArticleProgress(
    articleSlug: string,
    firstReadAt: int,
    lastReadAt: int,
    readCount: int,
    completionPercentage: int,
    timeSpent: int,
    quizScores: seq<int>,
    notes: string,
    highlights: seq<Highlight>,
    nextReviewAt: int)

  /** A finished quiz; the manager keeps only its score. Answers are keyed by question index. */
  datatype QuizAttempt = QuizAttempt(
    articleSlug: string,
    score: int,
    totalQuestions: int,
    answers: map<nat, bool>,
    timestamp: int,
    timeSpent: int)

  /** The session being recorded. */
  datatype Session = Session(sessionStart: int, articlesRead: seq<string>, quizzesCompleted: seq<string>)

  /** A finished session as stored in the history, with the calendar day it ended on. */
  datatype PastSession = PastSession(
    sessionStart: int,
    sessionEnd: int,
    articlesRead: seq<string>,
    quizzesCompleted: seq<string>,
    timeSpent: int,
    date: int)

  /** The exported backup document. */
  datatype Backup = Backup(progress: map<string, ArticleProgress>, sessions: seq<PastSession>, exportedAt: int)

  /** A backup text after parsing: unreadable, or a document whose two parts may each be missing. */
  datatype ImportData =
    | Malformed
    | Parsed(progress: Option<map<string, ArticleProgress>>, sessions: Option<seq<PastSession>>)

  datatype Stats = Stats(
    articlesRead: nat,
    articlesInProgress: nat,
    totalTimeSpent: int,
    averageQuizScore: real,
    currentStreak: nat,
    notesCount: nat)

  // ---------------------------------------------------------------------------
  // Spaced-repetition scheduler
  // ---------------------------------------------------------------------------

  /** The review intervals, in days. */
  const IntervalDays: seq<int> := [1, 3, 7, 14, 30, 90]

  /** `calculateNextReview(lastRead, readCount)`: the interval for the read count, clamped to the last one. */
  function NextReview(lastRead: int, readCount: nat): (r: int)
    ensures r > lastRead
    ensures readCount == 0 ==> r == lastRead + Day
    ensures readCount == 1 ==> r == lastRead + 3 * Day
    ensures readCount == 2 ==> r == lastRead + 7 * Day
    ensures readCount == 3 ==> r == lastRead + 14 * Day
    ensures readCount == 4 ==> r == lastRead + 30 * Day
    ensures readCount >= 5 ==> r == lastRead + 90 * Day
  {
    var index := if readCount < |IntervalDays| - 1 then readCount else |IntervalDays| - 1;
    lastRead + IntervalDays[index] * Day
  }

  /** More reads never schedule an earlier review. */
  lemma NextReviewMonotonic(lastRead: int, r1: nat, r2: nat)
    requires r1 <= r2
    ensures NextReview(lastRead, r1) <= NextReview(lastRead, r2)
  {
  }

  /** A review falls due when it is scheduled no later than `now` and the article was read. */
  predicate IsDue(p: ArticleProgress, now: int) {
    p.nextReviewAt <= now && p.readCount > 0
  }

  /** `IsDue` at a fixed time, as a filter predicate. */
  function DueAt(now: int): ArticleProgress -> bool {
    (p: ArticleProgress) => IsDue(p, now)
  }

  /** The sort key of the review lists. */
  function ReviewTime(p: ArticleProgress): int {
    p.nextReviewAt
  }

  /** A record counted as read. */
  predicate HasBeenRead(p: ArticleProgress) {
    p.readCount > 0
  }

  /** A record counted as in progress: never completed but started. */
  predicate InProgress(p: ArticleProgress) {
    p.readCount == 0 && p.completionPercentage > 0
  }

  function TimeSpentOf(p: ArticleProgress): int {
    p.timeSpent
  }

  predicate HasNote(p: ArticleProgress) {
    p.notes != ""
  }

  function HighlightCount(p: ArticleProgress): int {
    |p.highlights|
  }

  // ---------------------------------------------------------------------------
  // Record updates
  // ---------------------------------------------------------------------------

  /** The record `startArticle` creates for a slug it has not seen. */
  function NewProgress(slug: string, now: int): (p: ArticleProgress)
    ensures p.readCount == 0 && p.completionPercentage == 0 && p.timeSpent == 0
    ensures p.quizScores == [] && p.notes == "" && p.highlights == []
    ensures p.articleSlug == slug && p.firstReadAt == now && p.lastReadAt == now
    ensures p.nextReviewAt == now + Day
    ensures !IsDue(p, now)
  {
    ArticleProgress(slug, now, now, 0, 0, 0, [], "", [], NextReview(now, 0))
  }

  function Max(a: int, b: int): int {
    if a >= b then a else b
  }

  /** True when this update marks the article as read for the first time. */
  predicate CompletesFirstRead(p: ArticleProgress, percentage: int) {
    percentage >= 90 && p.readCount == 0
  }

  /**
   * `updateReadingProgress` on an existing record: keep the larger completion,
   * add the time, and on the first pass of 90% (by the incoming percentage)
   * set the read count to 1 and schedule the review three days from `now`.
   */
  function WithReading(p: ArticleProgress, percentage: int, timeSpent: int, now: int): (r: ArticleProgress)
    ensures r.completionPercentage >= p.completionPercentage && r.completionPercentage >= percentage
    ensures r.completionPercentage == p.completionPercentage || r.completionPercentage == percentage
    ensures r.timeSpent == p.timeSpent + timeSpent
    ensures CompletesFirstRead(p, percentage) ==> r.readCount == 1 && r.nextReviewAt == now + 3 * Day
    ensures !CompletesFirstRead(p, percentage) ==> r.readCount == p.readCount && r.nextReviewAt == p.nextReviewAt
    ensures r.(completionPercentage := p.completionPercentage, timeSpent := p.timeSpent,
               readCount := p.readCount, nextReviewAt := p.nextReviewAt) == p
  {
    var q := p.(completionPercentage := Max(p.completionPercentage, percentage),
                timeSpent := p.timeSpent + timeSpent);
    if CompletesFirstRead(p, percentage) then q.(readCount := 1, nextReviewAt := NextReview(now, 1))
    else q
  }

  /** One `updateReadingProgress` call: percentage, seconds spent, and the clock. */
  datatype Reading = Reading(percentage: int, timeSpent: int, at: int)

  /** A record after a run of reading updates, in order. */
  function ApplyReadings(p: ArticleProgress, rs: seq<Reading>): ArticleProgress
    decreases |rs|
  {
    if rs == [] then p
    else ApplyReadings(WithReading(p, rs[0].percentage, rs[0].timeSpent, rs[0].at), rs[1..])
  }

  /** `m` is the largest of `init` and the percentages of `rs`. */
  ghost predicate IsRunningMax(m: int, init: int, rs: seq<Reading>) {
    && m >= init
    && (forall i :: 0 <= i < |rs| ==> m >= rs[i].percentage)
    && (m == init || exists i :: 0 <= i < |rs| && m == rs[i].percentage)
  }

  /** The first update that reaches 90%. */
  ghost predicate FirstPass(rs: seq<Reading>, i: int) {
    0 <= i < |rs| && rs[i].percentage >= 90 && forall j :: 0 <= j < i ==> rs[j].percentage < 90
  }

  /**
   * After any run of updates the completion is the running maximum, the time
   * is the sum, and a record never read becomes read exactly when some update
   * reached 90%, with its review scheduled three days after the first such update.
   */
  lemma ReadingsAccumulate(p: ArticleProgress, rs: seq<Reading>)
    ensures var r := ApplyReadings(p, rs);
      && IsRunningMax(r.completionPercentage, p.completionPercentage, rs)
      && r.timeSpent == p.timeSpent + SumOf(rs, (x: Reading) => x.timeSpent)
      && (p.readCount != 0 ==> r.readCount == p.readCount && r.nextReviewAt == p.nextReviewAt)
      && (p.readCount == 0 && (forall i :: 0 <= i < |rs| ==> rs[i].percentage < 90) ==>
            r.readCount == 0 && r.nextReviewAt == p.nextReviewAt)
      && (forall i :: p.readCount == 0 && FirstPass(rs, i) ==>
            r.readCount == 1 && r.nextReviewAt == rs[i].at + 3 * Day)
      && r.articleSlug == p.articleSlug && r.quizScores == p.quizScores
      && r.notes == p.notes && r.highlights == p.highlights
  {
    ReadingsKeepMax(p, rs);
    ReadingsAddTime(p, rs);
    ReadingsMarkFirstPass(p, rs);
  }

  /** The completion after a run of updates is the running maximum. */
  lemma {:induction false} ReadingsKeepMax(p: ArticleProgress, rs: seq<Reading>)
    ensures IsRunningMax(ApplyReadings(p, rs).completionPercentage, p.completionPercentage, rs)
    decreases |rs|
  {
    if rs != [] {
      var x := rs[0];
      var q := WithReading(p, x.percentage, x.timeSpent, x.at);
      ReadingsKeepMax(q, rs[1..]);
      var r := ApplyReadings(q, rs[1..]);
      assert r == ApplyReadings(p, rs);
      forall i | 0 <= i < |rs| ensures r.completionPercentage >= rs[i].percentage {
        if i > 0 { assert rs[i] == rs[1..][i - 1]; }
      }
      if r.completionPercentage != p.completionPercentage {
        if r.completionPercentage == q.completionPercentage {
          assert r.completionPercentage == rs[0].percentage;
        } else {
          var k :| 0 <= k < |rs[1..]| && r.completionPercentage == rs[1..][k].percentage;
          assert r.completionPercentage == rs[k + 1].percentage;
        }
      }
    }
  }

  /** The time after a run of updates is the sum; slug, scores, notes and highlights stay. */
  lemma {:induction false} ReadingsAddTime(p: ArticleProgress, rs: seq<Reading>)
    ensures var r := ApplyReadings(p, rs);
      && r.timeSpent == p.timeSpent + SumOf(rs, (x: Reading) => x.timeSpent)
      && r.articleSlug == p.articleSlug && r.quizScores == p.quizScores
      && r.notes == p.notes && r.highlights == p.highlights
    decreases |rs|
  {
    if rs != [] {
      var x := rs[0];
      var q := WithReading(p, x.percentage, x.timeSpent, x.at);
      ReadingsAddTime(q, rs[1..]);
      assert ApplyReadings(q, rs[1..]) == ApplyReadings(p, rs);
      assert SumOf(rs, (x: Reading) => x.timeSpent) == x.timeSpent + SumOf(rs[1..], (x: Reading) => x.timeSpent);
    }
  }

  /** A read record keeps its count and review; an unread one is marked at the first update reaching 90%. */
  lemma {:induction false} ReadingsMarkFirstPass(p: ArticleProgress, rs: seq<Reading>)
    ensures var r := ApplyReadings(p, rs);
      && (p.readCount != 0 ==> r.readCount == p.readCount && r.nextReviewAt == p.nextReviewAt)
      && (p.readCount == 0 && (forall i :: 0 <= i < |rs| ==> rs[i].percentage < 90) ==>
            r.readCount == 0 && r.nextReviewAt == p.nextReviewAt)
      && (forall i :: p.readCount == 0 && FirstPass(rs, i) ==>
            r.readCount == 1 && r.nextReviewAt == rs[i].at + 3 * Day)
    decreases |rs|
  {
    if rs != [] {
      var x := rs[0];
      var q := WithReading(p, x.percentage, x.timeSpent, x.at);
      ReadingsMarkFirstPass(q, rs[1..]);
      var r := ApplyReadings(q, rs[1..]);
      assert r == ApplyReadings(p, rs);
      forall i | p.readCount == 0 && FirstPass(rs, i)
        ensures r.readCount == 1 && r.nextReviewAt == rs[i].at + 3 * Day
      {
        if i > 0 {
          assert rs[0].percentage < 90;
          assert FirstPass(rs[1..], i - 1) by {
            forall j | 0 <= j < i - 1 ensures rs[1..][j].percentage < 90 {
              assert rs[1..][j] == rs[j + 1];
            }
          }
        }
      }
      if p.readCount == 0 && (forall i :: 0 <= i < |rs| ==> rs[i].percentage < 90) {
        assert forall i :: 0 <= i < |rs[1..]| ==> rs[1..][i].percentage < 90 by {
          forall i | 0 <= i < |rs[1..]| ensures rs[1..][i].percentage < 90 {
            assert rs[1..][i] == rs[i + 1];
          }
        }
      }
    }
  }

  /** Reading updates keep a read count of 0 or 1 within 0..1. */
  lemma {:induction false} ReadingsKeepReadCountBounded(p: ArticleProgress, rs: seq<Reading>)
    requires 0 <= p.readCount <= 1
    ensures 0 <= ApplyReadings(p, rs).readCount <= 1
  {
    ReadingsAccumulate(p, rs);
    if p.readCount == 0 && exists i :: 0 <= i < |rs| && rs[i].percentage >= 90 {
      var i := FirstPassIndex(rs);
      assert FirstPass(rs, i);
    }
  }

  /** The index of the first update that reaches 90%. */
  ghost function FirstPassIndex(rs: seq<Reading>): (i: int)
    requires exists i :: 0 <= i < |rs| && rs[i].percentage >= 90
    ensures FirstPass(rs, i)
    decreases |rs|
  {
    if rs[0].percentage >= 90 then 0
    else
      assert exists i :: 0 <= i < |rs[1..]| && rs[1..][i].percentage >= 90 by {
        var k :| 0 <= k < |rs| && rs[k].percentage >= 90;
        assert rs[1..][k - 1] == rs[k];
      }
      var j := FirstPassIndex(rs[1..]);
      assert forall m :: 0 <= m < j + 1 ==> rs[m].percentage < 90 by {
        forall m | 0 <= m < j + 1 ensures rs[m].percentage < 90 {
          if m > 0 { assert rs[m] == rs[1..][m - 1]; }
        }
      }
      j + 1
  }

  /** `saveQuizAttempt` on an existing record: exactly one score appended. */
  function WithQuizScore(p: ArticleProgress, score: int): (r: ArticleProgress)
    ensures r.quizScores == p.quizScores + [score]
    ensures r.(quizScores := p.quizScores) == p
  {
    p.(quizScores := p.quizScores + [score])
  }

  /** `saveNote` on an existing record: the notes replaced. */
  function WithNote(p: ArticleProgress, note: string): (r: ArticleProgress)
    ensures r.notes == note
    ensures r.(notes := p.notes) == p
  {
    p.(notes := note)
  }

  /** `addHighlight` on an existing record: exactly one highlight appended. */
  function WithHighlight(p: ArticleProgress, h: Highlight): (r: ArticleProgress)
    ensures r.highlights == p.highlights + [h]
    ensures r.(highlights := p.highlights) == p
  {
    p.(highlights := p.highlights + [h])
  }

  /** `removeHighlight` on an existing record: every highlight with that id dropped. */
  function WithoutHighlight(p: ArticleProgress, id: string): (r: ArticleProgress)
    ensures forall i :: 0 <= i < |r.highlights| ==> r.highlights[i].id != id
    ensures forall i :: 0 <= i < |p.highlights| && p.highlights[i].id != id ==> p.highlights[i] in r.highlights
    ensures forall i :: 0 <= i < |r.highlights| ==> r.highlights[i] in p.highlights
    ensures r.(highlights := p.highlights) == p
  {
    p.(highlights := Filter(p.highlights, (h: Highlight) => h.id != id))
  }

  /** The highlights that remain keep their order. */
  lemma WithoutHighlightKeepsOrder(p: ArticleProgress, id: string)
    ensures Subseq(WithoutHighlight(p, id).highlights, p.highlights)
  {
    FilterIsSubseq(p.highlights, (h: Highlight) => h.id != id);
  }

  /** Removing the same highlight twice is removing it once. */
  lemma WithoutHighlightIdempotent(p: ArticleProgress, id: string)
    ensures WithoutHighlight(WithoutHighlight(p, id), id) == WithoutHighlight(p, id)
  {
    FilterIdempotent(p.highlights, (h: Highlight) => h.id != id);
  }

  // ---------------------------------------------------------------------------
  // Sessions
  // ---------------------------------------------------------------------------

  /** `trackArticleRead` on a session: the slug added unless it is already listed. */
  function TrackRead(s: Session, slug: string): (r: Session)
    ensures slug in r.articlesRead
    ensures slug in s.articlesRead ==> r == s
    ensures slug !in s.articlesRead ==> r.articlesRead == s.articlesRead + [slug]
    ensures r.quizzesCompleted == s.quizzesCompleted && r.sessionStart == s.sessionStart
    ensures NoDup(s.articlesRead) ==> NoDup(r.articlesRead)
  {
    if slug in s.articlesRead then s else s.(articlesRead := s.articlesRead + [slug])
  }

  /** `trackQuizCompleted` on a session: the slug added unless it is already listed. */
  function TrackQuiz(s: Session, slug: string): (r: Session)
    ensures slug in r.quizzesCompleted
    ensures slug in s.quizzesCompleted ==> r == s
    ensures slug !in s.quizzesCompleted ==> r.quizzesCompleted == s.quizzesCompleted + [slug]
    ensures r.articlesRead == s.articlesRead && r.sessionStart == s.sessionStart
    ensures NoDup(s.quizzesCompleted) ==> NoDup(r.quizzesCompleted)
  {
    if slug in s.quizzesCompleted then s else s.(quizzesCompleted := s.quizzesCompleted + [slug])
  }

  /** Tracking the same slug again changes nothing. */
  lemma TrackIdempotent(s: Session, slug: string)
    ensures TrackRead(TrackRead(s, slug), slug) == TrackRead(s, slug)
    ensures TrackQuiz(TrackQuiz(s, slug), slug) == TrackQuiz(s, slug)
  {
  }

  /** The history entry `endSession` writes. */
  function Finish(s: Session, sessionEnd: int, date: int): (r: PastSession)
    ensures r.timeSpent == sessionEnd - s.sessionStart
    ensures r.sessionStart == s.sessionStart && r.sessionEnd == sessionEnd && r.date == date
    ensures r.articlesRead == s.articlesRead && r.quizzesCompleted == s.quizzesCompleted
  {
    PastSession(s.sessionStart, sessionEnd, s.articlesRead, s.quizzesCompleted, sessionEnd - s.sessionStart, date)
  }

  /** The history after appending an entry and keeping the newest 30. */
  function AppendCapped(history: seq<PastSession>, entry: PastSession): (r: seq<PastSession>)
    ensures |r| <= HistoryLimit
    ensures |r| > 0 && r[|r| - 1] == entry
    ensures |history| < HistoryLimit ==> r == history + [entry]
    ensures |history| >= HistoryLimit ==> r == history[|history| - (HistoryLimit - 1)..] + [entry]
  {
    var all := history + [entry];
    var r := LastN(all, HistoryLimit);
    assert |history| >= HistoryLimit ==> r == history[|history| - (HistoryLimit - 1)..] + [entry] by {
      if |history| >= HistoryLimit {
        assert all[|all| - HistoryLimit..] == history[|history| - (HistoryLimit - 1)..] + [entry];
      }
    }
    r
  }

  /** `[...new Set(dates)]`: each date once. */
  function Distinct(dates: seq<int>): (r: seq<int>)
    ensures NoDup(r)
    ensures forall x :: x in r <==> x in dates
    ensures |r| <= |dates|
  {
    if dates == [] then []
    else
      var init := Distinct(dates[..|dates| - 1]);
      var last := dates[|dates| - 1];
      assert dates == dates[..|dates| - 1] + [last];
      if last in init then init else init + [last]
  }

  /** The calendar days of the stored sessions (`getPastSessions`). */
  function SessionDays(history: seq<PastSession>): (r: seq<int>)
    ensures NoDup(r)
    ensures forall d :: d in r <==> exists i :: 0 <= i < |history| && history[i].date == d
  {
    var dates := MapSeq(history, (s: PastSession) => s.date);
    assert forall d :: d in dates <==> exists i :: 0 <= i < |history| && history[i].date == d by {
      forall d ensures d in dates <==> exists i :: 0 <= i < |history| && history[i].date == d {
        if d in dates {
          var i :| 0 <= i < |dates| && dates[i] == d;
          assert history[i].date == d;
        }
      }
    }
    Distinct(dates)
  }

  // ---------------------------------------------------------------------------
  // Streak
  // ---------------------------------------------------------------------------

  /** Consecutive session days from `day` backwards, examining at most `limit` days. */
  function RunBack(days: seq<int>, day: int, limit: nat): (n: nat)
    ensures n <= limit
    decreases limit
  {
    if limit == 0 || day !in days then 0 else 1 + RunBack(days, day - 1, limit - 1)
  }

  /** The walk counts session days only, and stops early only at a day without one. */
  lemma {:induction false} RunBackIsRun(days: seq<int>, day: int, limit: nat)
    ensures forall d :: day - RunBack(days, day, limit) < d <= day ==> d in days
    ensures RunBack(days, day, limit) < limit ==> day - RunBack(days, day, limit) !in days
    decreases limit
  {
    if limit > 0 && day in days {
      RunBackIsRun(days, day - 1, limit - 1);
    }
  }

  /**
   * The streak `calculateStreak` reports: no sessions give 0; otherwise the
   * run of consecutive session days ending today, or ending yesterday when
   * today has none, within the 365 days it looks at.
   */
  function StreakOf(days: seq<int>, today: int): (n: nat)
    ensures n <= StreakWindow
    ensures |days| == 0 ==> n == 0
    ensures today in days ==> n >= 1
  {
    if |days| == 0 then 0
    else if today in days then RunBack(days, today, StreakWindow)
    else RunBack(days, today - 1, StreakWindow - 1)
  }

  /**
   * The streak counts exactly the unbroken run of session days ending today,
   * or ending yesterday when today has no session.
   */
  lemma StreakIsUnbrokenRun(days: seq<int>, today: int)
    requires |days| > 0
    ensures today in days ==>
      && (forall d :: today - StreakOf(days, today) < d <= today ==> d in days)
      && (StreakOf(days, today) < StreakWindow ==> today - StreakOf(days, today) !in days)
    ensures today !in days ==>
      && (forall d :: today - 1 - StreakOf(days, today) < d <= today - 1 ==> d in days)
      && (StreakOf(days, today) < StreakWindow - 1 ==> today - 1 - StreakOf(days, today) !in days)
  {
    if today in days {
      RunBackIsRun(days, today, StreakWindow);
    } else {
      RunBackIsRun(days, today - 1, StreakWindow - 1);
    }
  }

  /** Sessions today and on the two days before give a streak of 3. */
  lemma StreakOfThreeDays(today: int)
    ensures StreakOf([today, today - 1, today - 2], today) == 3
  {
    var days := [today, today - 1, today - 2];
    assert today - 3 !in days;
    assert RunBack(days, today - 3, StreakWindow - 3) == 0;
    assert RunBack(days, today - 2, StreakWindow - 2) == 1;
    assert RunBack(days, today - 1, StreakWindow - 1) == 2;
  }

  /** A missing yesterday ends the run after today. */
  lemma StreakGapAfterToday(today: int)
    ensures StreakOf([today, today - 2], today) == 1
  {
    var days := [today, today - 2];
    assert today - 1 !in days;
    assert RunBack(days, today - 1, StreakWindow - 1) == 0;
  }

  /** With neither today nor yesterday there is no streak. */
  lemma StreakGapBeforeYesterday(today: int)
    ensures StreakOf([today - 2, today - 3], today) == 0
  {
    var days := [today - 2, today - 3];
    assert today !in days && today - 1 !in days;
  }

  /** A missing today does not end the count: the run up to yesterday is reported. */
  lemma StreakGraceDay(today: int)
    ensures StreakOf([today - 1, today - 2], today) == 2
  {
    var days := [today - 1, today - 2];
    assert today !in days && today - 3 !in days;
    assert RunBack(days, today - 3, StreakWindow - 3) == 0;
    assert RunBack(days, today - 2, StreakWindow - 2) == 1;
  }

  /** `calculateStreak`: the backward walk over at most 365 calendar days. */
  method CalculateStreak(days: seq<int>, today: int) returns (streak: nat)
    ensures streak == StreakOf(days, today)
  {
    if |days| == 0 {
      return 0;
    }
    streak := 0;
    var current := today;
    var i := 0;
    while i < StreakWindow
      invariant 0 <= i <= StreakWindow
      invariant i == 0 ==> streak == 0 && current == today
      invariant i > 0 ==> StreakOf(days, today) == streak + RunBack(days, current, StreakWindow - i)
    {
      if current in days {
        streak := streak + 1;
        current := current - 1;
      } else if i == 0 {
        // no session today: start counting from yesterday
        current := current - 1;
        i := i + 1;
        continue;
      } else {
        break;
      }
      i := i + 1;
    }
  }

  // ---------------------------------------------------------------------------
  // Queries over the records
  // ---------------------------------------------------------------------------

  /** Due records in ascending review time (the filter and sort of `getDueReviews`). */
  function DueRecords(values: seq<ArticleProgress>, now: int): (r: seq<ArticleProgress>)
    ensures SortedBy(r, ReviewTime)
    ensures multiset(r) == multiset(Filter(values, DueAt(now)))
    ensures forall i :: 0 <= i < |r| ==> IsDue(r[i], now) && r[i] in values
    ensures forall i :: 0 <= i < |values| && IsDue(values[i], now) ==> values[i] in r
  {
    SortedFilterMembers(values, DueAt(now), ReviewTime);
    SortBy(Filter(values, DueAt(now)), ReviewTime)
  }

  /** `getDueReviews` over the values of the store. */
  function DueReviews(values: seq<ArticleProgress>, now: int): (r: seq<string>)
    ensures |r| == Count(values, DueAt(now))
    ensures forall i :: 0 <= i < |r| ==> r[i] == DueRecords(values, now)[i].articleSlug
  {
    var due := DueRecords(values, now);
    assert |due| == |multiset(due)|;
    MapSeq(due, (p: ArticleProgress) => p.articleSlug)
  }

  /** Every quiz score of every record, in order. */
  function AllScores(values: seq<ArticleProgress>): (r: seq<int>)
    ensures forall i :: 0 <= i < |values| ==> |values[i].quizScores| <= |r|
  {
    if values == [] then [] else values[0].quizScores + AllScores(values[1..])
  }

  function SumInts(xs: seq<int>): int {
    if xs == [] then 0 else xs[0] + SumInts(xs[1..])
  }

  /** Every score lies in 0..100. */
  ghost predicate ScoresInRange(values: seq<ArticleProgress>) {
    forall i, j :: 0 <= i < |values| && 0 <= j < |values[i].quizScores| ==> 0 <= values[i].quizScores[j] <= 100
  }

  lemma {:induction false} SumIntsBounds(xs: seq<int>)
    requires forall i :: 0 <= i < |xs| ==> 0 <= xs[i] <= 100
    ensures 0 <= SumInts(xs) <= 100 * |xs|
  {
    if xs != [] {
      SumIntsBounds(xs[1..]);
    }
  }

  lemma {:induction false} AllScoresInRange(values: seq<ArticleProgress>)
    requires ScoresInRange(values)
    ensures forall i :: 0 <= i < |AllScores(values)| ==> 0 <= AllScores(values)[i] <= 100
  {
    if values != [] {
      assert ScoresInRange(values[1..]) by {
        forall i, j | 0 <= i < |values[1..]| && 0 <= j < |values[1..][i].quizScores|
          ensures 0 <= values[1..][i].quizScores[j] <= 100
        {
          assert values[1..][i] == values[i + 1];
        }
      }
      AllScoresInRange(values[1..]);
      var r := AllScores(values);
      forall k | 0 <= k < |r| ensures 0 <= r[k] <= 100 {
        if k < |values[0].quizScores| {
          assert r[k] == values[0].quizScores[k];
        } else {
          assert r[k] == AllScores(values[1..])[k - |values[0].quizScores|];
        }
      }
    }
  }

  /** The mean of all scores; 0 when there are none (the `|| 0` fallback for 0/0). */
  function AverageScore(values: seq<ArticleProgress>): (avg: real)
    ensures |AllScores(values)| == 0 ==> avg == 0.0
    ensures ScoresInRange(values) ==> 0.0 <= avg <= 100.0
  {
    var scores := AllScores(values);
    if |values| > 0 && |scores| > 0 then
      var total := SumInts(scores);
      assert ScoresInRange(values) ==> 0 <= total <= 100 * |scores| by {
        if ScoresInRange(values) {
          AllScoresInRange(values);
          SumIntsBounds(scores);
        }
      }
      total as real / |scores| as real
    else 0.0
  }

  /** The statistics `getStats` derives from the store's values and the streak. */
  function StatsOf(values: seq<ArticleProgress>, streak: nat): (s: Stats)
    ensures s.articlesRead + s.articlesInProgress <= |values|
    ensures |AllScores(values)| == 0 ==> s.averageQuizScore == 0.0
    ensures ScoresInRange(values) ==> 0.0 <= s.averageQuizScore <= 100.0
    ensures (forall i :: 0 <= i < |values| ==> values[i].timeSpent >= 0) ==> s.totalTimeSpent >= 0
    ensures s.currentStreak == streak
  {
    CountDisjoint(values, HasBeenRead, InProgress);
    assert (forall i :: 0 <= i < |values| ==> values[i].timeSpent >= 0) ==> SumOf(values, TimeSpentOf) >= 0 by {
      if forall i :: 0 <= i < |values| ==> values[i].timeSpent >= 0 {
        SumOfNonNegative(values, TimeSpentOf);
      }
    }
    Stats(
      Count(values, HasBeenRead),
      Count(values, InProgress),
      SumOf(values, TimeSpentOf),
      AverageScore(values),
      streak,
      NotesCount(values))
  }

  /** Non-empty notes count one each, highlights one each. */
  function NotesCount(values: seq<ArticleProgress>): (n: nat)
    ensures n == Count(values, HasNote) + SumOf(values, HighlightCount)
  {
    if values == [] then 0
    else (if values[0].notes != "" then 1 else 0) + |values[0].highlights| + NotesCount(values[1..])
  }

  lemma {:induction false} CountDisjoint(values: seq<ArticleProgress>, p: ArticleProgress -> bool, q: ArticleProgress -> bool)
    requires forall x :: !(p(x) && q(x))
    ensures Count(values, p) + Count(values, q) <= |values|
  {
    if values != [] {
      CountDisjoint(values[1..], p, q);
    }
  }

  lemma {:induction false} SumOfNonNegative(values: seq<ArticleProgress>, f: ArticleProgress -> int)
    requires forall i :: 0 <= i < |values| ==> f(values[i]) >= 0
    ensures SumOf(values, f) >= 0
  {
    if values != [] {
      SumOfNonNegative(values[1..], f);
    }
  }

  // ---------------------------------------------------------------------------
  // Enumerating the store
  // ---------------------------------------------------------------------------

  /** `values` lists each record of `m` once, `keys[i]` being the key of `values[i]`. */
  ghost predicate Enumerates(values: seq<ArticleProgress>, keys: seq<string>, m: map<string, ArticleProgress>) {
    && |values| == |keys|
    && NoDup(keys)
    && (forall i :: 0 <= i < |keys| ==> keys[i] in m && values[i] == m[keys[i]])
    && (forall k :: k in m ==> k in keys)
  }

  /** The keys among `keys` whose record satisfies `p`. */
  ghost function KeysWhere(keys: seq<string>, m: map<string, ArticleProgress>, p: ArticleProgress -> bool): set<string>
    requires forall i :: 0 <= i < |keys| ==> keys[i] in m
  {
    set k | k in keys && p(m[k])
  }

  lemma KeysWhereSplit(keys: seq<string>, m: map<string, ArticleProgress>, p: ArticleProgress -> bool)
    requires |keys| > 0 && forall i :: 0 <= i < |keys| ==> keys[i] in m
    ensures KeysWhere(keys, m, p) == (if p(m[keys[0]]) then {keys[0]} else {}) + KeysWhere(keys[1..], m, p)
  {
    assert keys == [keys[0]] + keys[1..];
  }

  lemma NoDupTail(keys: seq<string>)
    requires |keys| > 0 && NoDup(keys)
    ensures NoDup(keys[1..]) && keys[0] !in keys[1..]
  {
    forall i, j | 0 <= i < j < |keys[1..]| ensures keys[1..][i] != keys[1..][j] {
      assert keys[1..][i] == keys[i + 1] && keys[1..][j] == keys[j + 1];
    }
    forall i | 0 <= i < |keys[1..]| ensures keys[1..][i] != keys[0] {
      assert keys[1..][i] == keys[i + 1];
    }
  }

  /** Records counted along an enumeration are the keys whose record satisfies `p`. */
  lemma {:induction false} CountEnumerated(
    values: seq<ArticleProgress>, keys: seq<string>, m: map<string, ArticleProgress>, p: ArticleProgress -> bool)
    requires |values| == |keys| && NoDup(keys)
    requires forall i :: 0 <= i < |keys| ==> keys[i] in m && values[i] == m[keys[i]]
    ensures Count(values, p) == |KeysWhere(keys, m, p)|
    decreases |keys|
  {
    if keys == [] {
      assert KeysWhere(keys, m, p) == {};
    } else {
      NoDupTail(keys);
      CountEnumerated(values[1..], keys[1..], m, p);
      KeysWhereSplit(keys, m, p);
      assert keys[0] !in KeysWhere(keys[1..], m, p);
    }
  }

  /** Over a full enumeration, counting the values is counting the keys of the map. */
  lemma CountMatchesMap(values: seq<ArticleProgress>, keys: seq<string>, m: map<string, ArticleProgress>,
                         p: ArticleProgress -> bool, selected: set<string>)
    requires Enumerates(values, keys, m)
    requires forall k :: k in selected <==> k in m && p(m[k])
    ensures Count(values, p) == |selected|
  {
    CountEnumerated(values, keys, m, p);
    assert KeysWhere(keys, m, p) == selected;
  }

  /** The keys of the records due at `now`. */
  ghost function DueKeysOf(m: map<string, ArticleProgress>, now: int): set<string> {
    set k | k in m && IsDue(m[k], now)
  }

  /** Every record is filed under its own slug. */
  ghost predicate KeyedBySlug(m: map<string, ArticleProgress>) {
    forall k :: k in m ==> m[k].articleSlug == k
  }

  /** Over a full enumeration, there are as many due records as due keys. */
  lemma DueRecordsCount(values: seq<ArticleProgress>, keys: seq<string>, m: map<string, ArticleProgress>, now: int)
    requires Enumerates(values, keys, m)
    ensures |DueRecords(values, now)| == |DueKeysOf(m, now)|
  {
    CountMatchesMap(values, keys, m, DueAt(now), DueKeysOf(m, now));
    assert |DueRecords(values, now)| == |DueReviews(values, now)|;
  }

  /** Over a full enumeration, the due records are the records of the due keys. */
  lemma DueRecordsOfStore(values: seq<ArticleProgress>, keys: seq<string>, m: map<string, ArticleProgress>, now: int)
    requires Enumerates(values, keys, m)
    ensures forall i :: 0 <= i < |DueRecords(values, now)| ==>
      exists k :: k in DueKeysOf(m, now) && m[k] == DueRecords(values, now)[i]
    ensures forall k :: k in DueKeysOf(m, now) ==> m[k] in DueRecords(values, now)
  {
    var due := DueRecords(values, now);
    forall i | 0 <= i < |due| ensures exists k :: k in DueKeysOf(m, now) && m[k] == due[i] {
      var j :| 0 <= j < |values| && values[j] == due[i];
      assert keys[j] in DueKeysOf(m, now);
    }
    forall k | k in DueKeysOf(m, now) ensures m[k] in due {
      var j :| 0 <= j < |keys| && keys[j] == k;
      assert values[j] == m[k];
    }
  }

  /** The slugs `getDueReviews` returns name exactly the due records, one per record. */
  lemma DueReviewsOfStore(values: seq<ArticleProgress>, keys: seq<string>, m: map<string, ArticleProgress>, now: int)
    requires Enumerates(values, keys, m)
    ensures |DueReviews(values, now)| == |DueKeysOf(m, now)|
    ensures forall s :: s in DueReviews(values, now) <==> exists k :: k in DueKeysOf(m, now) && m[k].articleSlug == s
  {
    var due := DueRecords(values, now);
    var slugs := DueReviews(values, now);
    DueRecordsCount(values, keys, m, now);
    DueRecordsOfStore(values, keys, m, now);
    forall s ensures s in slugs <==> exists k :: k in DueKeysOf(m, now) && m[k].articleSlug == s {
      if s in slugs {
        var i :| 0 <= i < |slugs| && slugs[i] == s;
        var k :| k in DueKeysOf(m, now) && m[k] == due[i];
      }
      if k :| k in DueKeysOf(m, now) && m[k].articleSlug == s {
        var i :| 0 <= i < |due| && due[i] == m[k];
        assert slugs[i] == s;
      }
    }
  }

  /** In a store keyed by slug, the due slugs are the due keys, once each, by ascending review time. */
  lemma DueReviewsOfKeyedStore(values: seq<ArticleProgress>, keys: seq<string>, m: map<string, ArticleProgress>, now: int)
    requires Enumerates(values, keys, m) && KeyedBySlug(m)
    ensures forall s :: s in DueReviews(values, now) <==> s in DueKeysOf(m, now)
    ensures NoDup(DueReviews(values, now))
    ensures forall i, j :: 0 <= i < j < |DueReviews(values, now)| ==>
      var si, sj := DueReviews(values, now)[i], DueReviews(values, now)[j];
      si in m && sj in m && m[si].nextReviewAt <= m[sj].nextReviewAt
  {
    var due := DueRecords(values, now);
    var slugs := DueReviews(values, now);
    DueRecordsOfStore(values, keys, m, now);
    DueReviewsOfStore(values, keys, m, now);
    forall i | 0 <= i < |slugs| ensures slugs[i] in m && m[slugs[i]] == due[i] {
      var k :| k in DueKeysOf(m, now) && m[k] == due[i];
    }
    SetOfSeqSize(slugs, DueKeysOf(m, now));
  }

  /** Over a full enumeration, `getStats` counts the keys of the map. */
  lemma StatsOfStore(values: seq<ArticleProgress>, keys: seq<string>, m: map<string, ArticleProgress>, streak: nat)
    requires Enumerates(values, keys, m)
    ensures StatsOf(values, streak).articlesRead == |set k | k in m && m[k].readCount > 0|
    ensures StatsOf(values, streak).articlesInProgress ==
      |set k | k in m && m[k].readCount == 0 && m[k].completionPercentage > 0|
    ensures |values| == |m|
  {
    CountMatchesMap(values, keys, m, HasBeenRead, set k | k in m && m[k].readCount > 0);
    CountMatchesMap(values, keys, m, InProgress, set k | k in m && m[k].readCount == 0 && m[k].completionPercentage > 0);
    EnumerationSize(values, keys, m);
  }

  /** Over a full enumeration: no quiz taken gives an average of 0, and no negative time gives a non-negative total. */
  lemma StatsOfStoreDefaults(values: seq<ArticleProgress>, keys: seq<string>, m: map<string, ArticleProgress>, streak: nat)
    requires Enumerates(values, keys, m)
    ensures (forall k :: k in m ==> m[k].quizScores == []) ==> StatsOf(values, streak).averageQuizScore == 0.0
    ensures (forall k :: k in m ==> m[k].timeSpent >= 0) ==> StatsOf(values, streak).totalTimeSpent >= 0
  {
    if forall k :: k in m ==> m[k].quizScores == [] {
      NoScores(values);
    }
  }

  // ---------------------------------------------------------------------------
  // The manager
  // ---------------------------------------------------------------------------

  class Manager {
    /** The progress store, by article slug. */
    var progress: map<string, ArticleProgress>
    /** The session being recorded, if any. */
    var session: Option<Session>
    /** The finished sessions, oldest first. */
    var history: seq<PastSession>

    /** Every record is filed under its own slug and read at most once. */
    ghost predicate Valid()
      reads this
    {
      && KeyedBySlug(progress)
      && forall k :: k in progress ==> 0 <= progress[k].readCount <= 1
    }

    /** A manager over empty stores. */
    constructor ()
      ensures progress == map[] && session == None && history == []
      ensures Valid()
    {
      progress := map[];
      session := None;
      history := [];
    }

    /** `getArticleProgress(slug)`. */
    function GetArticleProgress(slug: string): (r: Option<ArticleProgress>)
      reads this
      ensures r.Some? <==> slug in progress
      ensures r.Some? ==> r.value == progress[slug]
    {
      if slug in progress then Some(progress[slug]) else None
    }

    /** `startArticle(slug)` at time `now`, which also starts a new session. */
    method StartArticle(slug: string, now: int)
      modifies this
      ensures slug !in old(progress) ==>
        progress == old(progress)[slug := ArticleProgress(slug, now, now, 0, 0, 0, [], "", [], now + Day)]
      ensures slug in old(progress) ==>
        progress == old(progress)[slug := old(progress)[slug].(lastReadAt := now)]
      ensures session == Some(Session(now, [], []))
      ensures history == old(history)
      ensures old(Valid()) ==> Valid()
    {
      if slug !in progress {
        progress := progress[slug := NewProgress(slug, now)];
      }
      progress := progress[slug := progress[slug].(lastReadAt := now)];
      StartSession(now);
    }

    /** `updateReadingProgress(slug, percentage, timeSpent)` at time `now`. */
    method UpdateReadingProgress(slug: string, percentage: int, timeSpent: int, now: int)
      modifies this
      ensures slug in old(progress) ==>
        progress == old(progress)[slug := WithReading(old(progress)[slug], percentage, timeSpent, now)]
      ensures slug !in old(progress) ==> progress == old(progress)
      ensures session == old(session) && history == old(history)
      ensures old(Valid()) ==> Valid()
    {
      if slug in progress {
        progress := progress[slug := WithReading(progress[slug], percentage, timeSpent, now)];
      }
    }

    /** `saveQuizAttempt(attempt)`: only the score is kept. */
    method SaveQuizAttempt(attempt: QuizAttempt)
      modifies this
      ensures attempt.articleSlug in old(progress) ==>
        progress == old(progress)[attempt.articleSlug := WithQuizScore(old(progress)[attempt.articleSlug], attempt.score)]
      ensures attempt.articleSlug !in old(progress) ==> progress == old(progress)
      ensures session == old(session) && history == old(history)
      ensures old(Valid()) ==> Valid()
    {
      var slug := attempt.articleSlug;
      if slug in progress {
        progress := progress[slug := WithQuizScore(progress[slug], attempt.score)];
      }
    }

    /** `saveNote(slug, note)`. */
    method SaveNote(slug: string, note: string)
      modifies this
      ensures slug in old(progress) ==> progress == old(progress)[slug := WithNote(old(progress)[slug], note)]
      ensures slug !in old(progress) ==> progress == old(progress)
      ensures session == old(session) && history == old(history)
      ensures old(Valid()) ==> Valid()
    {
      if slug in progress {
        progress := progress[slug := WithNote(progress[slug], note)];
      }
    }

    /** `addHighlight(slug, text, position, note)` with the id and time supplied. */
    method AddHighlight(slug: string, text: string, position: int, note: Option<string>, id: string, now: int)
      modifies this
      ensures slug in old(progress) ==>
        progress == old(progress)[slug := WithHighlight(old(progress)[slug], Highlight(id, text, position, note, now))]
      ensures slug !in old(progress) ==> progress == old(progress)
      ensures session == old(session) && history == old(history)
      ensures old(Valid()) ==> Valid()
    {
      if slug in progress {
        progress := progress[slug := WithHighlight(progress[slug], Highlight(id, text, position, note, now))];
      }
    }

    /** `removeHighlight(slug, highlightId)`. */
    method RemoveHighlight(slug: string, highlightId: string)
      modifies this
      ensures slug in old(progress) ==>
        progress == old(progress)[slug := WithoutHighlight(old(progress)[slug], highlightId)]
      ensures slug !in old(progress) ==> progress == old(progress)
      ensures session == old(session) && history == old(history)
      ensures old(Valid()) ==> Valid()
    {
      if slug in progress {
        progress := progress[slug := WithoutHighlight(progress[slug], highlightId)];
      }
    }

    /** `Object.values` of the store: every record once, in an order the model leaves open. */
    method Values() returns (values: seq<ArticleProgress>, ghost keys: seq<string>)
      ensures Enumerates(values, keys, progress)
    {
      values, keys := [], [];
      var rest := progress.Keys;
      while rest != {}
        invariant rest <= progress.Keys
        invariant |values| == |keys| && NoDup(keys)
        invariant forall i :: 0 <= i < |keys| ==> keys[i] in progress && keys[i] !in rest && values[i] == progress[keys[i]]
        invariant forall k :: k in progress && k !in rest ==> k in keys
        decreases rest
      {
        var k :| k in rest;
        values, keys := values + [progress[k]], keys + [k];
        rest := rest - {k};
      }
    }

    /**
     * `getDueReviews()` at time `now`: one slug per due record; in a valid
     * store these are the due keys themselves, each once, in ascending review time.
     */
    method GetDueReviews(now: int) returns (slugs: seq<string>)
      ensures |slugs| == |DueKeysOf(progress, now)|
      ensures forall s :: s in slugs <==> exists k :: k in DueKeysOf(progress, now) && progress[k].articleSlug == s
      ensures Valid() ==> (forall s :: s in slugs <==> s in DueKeysOf(progress, now)) && NoDup(slugs)
      ensures Valid() ==> forall i, j :: 0 <= i < j < |slugs| ==>
        slugs[i] in progress && slugs[j] in progress &&
        progress[slugs[i]].nextReviewAt <= progress[slugs[j]].nextReviewAt
    {
      var values;
      ghost var keys;
      values, keys := Values();
      slugs := DueReviews(values, now);
      DueReviewsOfStore(values, keys, progress, now);
      if Valid() {
        DueReviewsOfKeyedStore(values, keys, progress, now);
      }
    }

    /** `getPastSessions()`: the distinct calendar days of the history. */
    function GetPastSessions(): (days: seq<int>)
      reads this
      ensures NoDup(days)
      ensures forall d :: d in days <==> exists i :: 0 <= i < |history| && history[i].date == d
    {
      SessionDays(history)
    }

    /** `calculateStreak()` on calendar day `today`. */
    method Streak(today: int) returns (streak: nat)
      ensures streak == StreakOf(GetPastSessions(), today)
      ensures history == [] ==> streak == 0
      ensures streak <= StreakWindow
    {
      streak := CalculateStreak(GetPastSessions(), today);
    }

    /** `getStats()` on calendar day `today`. */
    method GetStats(today: int) returns (stats: Stats, ghost values: seq<ArticleProgress>, ghost keys: seq<string>)
      ensures Enumerates(values, keys, progress)
      ensures stats == StatsOf(values, StreakOf(GetPastSessions(), today))
      ensures stats.averageQuizScore == AverageScore(values)
      ensures ScoresInRange(values) ==> 0.0 <= stats.averageQuizScore <= 100.0
      ensures stats.totalTimeSpent == SumOf(values, TimeSpentOf)
      ensures stats.notesCount ==
        Count(values, HasNote) + SumOf(values, HighlightCount)
      ensures stats.articlesRead == |set k | k in progress && progress[k].readCount > 0|
      ensures stats.articlesInProgress ==
        |set k | k in progress && progress[k].readCount == 0 && progress[k].completionPercentage > 0|
      ensures stats.articlesRead + stats.articlesInProgress <= |progress|
      ensures stats.currentStreak == StreakOf(GetPastSessions(), today)
      ensures (forall k :: k in progress ==> progress[k].quizScores == []) ==> stats.averageQuizScore == 0.0
      ensures (forall k :: k in progress ==> progress[k].timeSpent >= 0) ==> stats.totalTimeSpent >= 0
    {
      var vs;
      vs, keys := Values();
      values := vs;
      var streak := Streak(today);
      stats := StatsOf(vs, streak);
      StatsOfStore(values, keys, progress, streak);
      StatsOfStoreDefaults(values, keys, progress, streak);
    }

    /** `startSession()` at time `now`. */
    method StartSession(now: int)
      modifies this
      ensures session == Some(Session(now, [], []))
      ensures progress == old(progress) && history == old(history)
    {
      session := Some(Session(now, [], []));
    }

    /** `trackArticleRead(slug)`; nothing happens without a current session. */
    method TrackArticleRead(slug: string)
      modifies this
      ensures old(session).None? ==> session == None
      ensures old(session).Some? ==> session == Some(TrackRead(old(session).value, slug))
      ensures progress == old(progress) && history == old(history)
    {
      if session.Some? {
        session := Some(TrackRead(session.value, slug));
      }
    }

    /** `trackQuizCompleted(slug)`; nothing happens without a current session. */
    method TrackQuizCompleted(slug: string)
      modifies this
      ensures old(session).None? ==> session == None
      ensures old(session).Some? ==> session == Some(TrackQuiz(old(session).value, slug))
      ensures progress == old(progress) && history == old(history)
    {
      if session.Some? {
        session := Some(TrackQuiz(session.value, slug));
      }
    }

    /** `endSession()` at time `now` on calendar day `today`. */
    method EndSession(now: int, today: int)
      modifies this
      ensures old(session).None? ==> session == None && history == old(history)
      ensures old(session).Some? ==>
        session == None && history == AppendCapped(old(history), Finish(old(session).value, now, today))
      ensures progress == old(progress)
    {
      if session.Some? {
        history := AppendCapped(history, Finish(session.value, now, today));
        session := None;
      }
    }

    /** `exportProgress()` at time `now`. */
    method ExportProgress(now: int) returns (backup: Backup)
      ensures backup == Backup(progress, history, now)
    {
      backup := Backup(progress, history, now);
    }

    /** `importProgress(data)`: each part present replaces its store; unreadable data changes nothing. */
    method ImportProgress(data: ImportData) returns (ok: bool)
      modifies this
      ensures ok <==> data.Parsed?
      ensures progress == if data.Parsed? && data.progress.Some? then data.progress.value else old(progress)
      ensures history == if data.Parsed? && data.sessions.Some? then data.sessions.value else old(history)
      ensures session == old(session)
    {
      if data.Malformed? {
        return false;
      }
      if data.progress.Some? {
        progress := data.progress.value;
      }
      if data.sessions.Some? {
        history := data.sessions.value;
      }
      return true;
    }

    /** `clearProgress()`. */
    method ClearProgress()
      modifies this
      ensures progress == map[] && history == [] && session == None
      ensures Valid()
    {
      progress := map[];
      history := [];
      session := None;
    }
  }

  /** The backup document as `importProgress` reads it back. */
  function ParseBackup(b: Backup): (d: ImportData)
    ensures d.Parsed? && d.progress == Some(b.progress) && d.sessions == Some(b.sessions)
  {
    Parsed(Some(b.progress), Some(b.sessions))
  }

  /** Importing what another manager exported restores its store and history. */
  method RestoreBackup(source: Manager, target: Manager, now: int)
    modifies target
    ensures target.progress == old(source.progress) && target.history == old(source.history)
    ensures target.session == old(target.session)
  {
    var backup := source.ExportProgress(now);
    var ok := target.ImportProgress(ParseBackup(backup));
    assert ok;
  }

  /** An enumeration of a map is as long as the map. */
  lemma EnumerationSize(values: seq<ArticleProgress>, keys: seq<string>, m: map<string, ArticleProgress>)
    requires Enumerates(values, keys, m)
    ensures |values| == |m|
  {
    var all := (p: ArticleProgress) => true;
    CountMatchesMap(values, keys, m, all, m.Keys);
    FilterKeepsAll(values, all);
  }

  lemma {:induction false} NoScores(values: seq<ArticleProgress>)
    requires forall i :: 0 <= i < |values| ==> values[i].quizScores == []
    ensures AllScores(values) == []
  {
    if values != [] {
      NoScores(values[1..]);
    }
  }

  /** A sequence whose elements make up a set of its own length lists each element once. */
  lemma SetOfSeqSize(s: seq<string>, t: set<string>)
    requires |s| == |t|
    requires forall x :: x in s <==> x in t
    ensures NoDup(s)
  {
    if !NoDup(s) {
      var i, j :| 0 <= i < j < |s| && s[i] == s[j];
      var without := s[..j] + s[j + 1..];
      assert forall x :: x in s ==> x in without by {
        forall x | x in s ensures x in without {
          var k :| 0 <= k < |s| && s[k] == x;
          if k < j { assert without[k] == x; }
          else if k == j { assert without[i] == x; }
          else { assert without[k - 1] == x; }
        }
      }
      SeqCoversSet(without, t);
      assert false;
    }
  }

  /** A set covered by a sequence is no larger than it. */
  lemma {:induction false} SeqCoversSet(s: seq<string>, t: set<string>)
    requires forall x :: x in t ==> x in s
    ensures |t| <= |s|
  {
    if s == [] {
      assert t == {};
    } else {
      var rest := t - {s[0]};
      assert forall x :: x in rest ==> x in s[1..] by {
        forall x | x in rest ensures x in s[1..] {
          var k :| 0 <= k < |s| && s[k] == x;
          assert k != 0;
          assert s[1..][k - 1] == x;
        }
      }
      SeqCoversSet(s[1..], rest);
    }
  }
}
