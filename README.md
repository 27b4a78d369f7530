# Learning progress and article queries — a Dafny model

Models the client-side learning features of a content site of frontend
articles, and proves properties of the model.

- **The progress manager.** It keeps a store of per-article progress records in local storage, keyed by slug. It also keeps the current reading session and a history of the last 30 finished sessions. It schedules spaced-repetition reviews (1, 3, 7, 14, 30 and 90 days). From that state it derives the due-review list, the statistics and the day streak.
- **The quiz.** The quiz saves its score on the manager.
- **The difficulty assessment.**
- **The review queue.**
- **The related-concepts ranking.**
- **The learning path.**
- **The progress tracker.**
- **The article queries**, the search hook, the category pills of the article list and the active test of navigation links.

Each source file is a module:

| module | models |
|---|---|
| `LearningProgress` | src/lib/learning-progress.ts. The manager is a class `Manager` whose `progress` map, `session` and `history` are reassigned by its methods. The record updates are functions on the `ArticleProgress` datatype. The streak walk is a method with a loop, proved against `StreakOf`. |
| `Quiz`, `DifficultyAssessment` | The two React components, as classes over their state fields. The counting loop of `calculateLevel` is a method proved against `TallyOf`. |
| `ReviewQueue` | The walk of `calculateReviews`, as a method with a loop proved against `DueArticles` and `UpcomingReviews`, plus the due-date label. |
| `RelatedConcepts`, `LearningPath`, `ProgressTracker` | What those components compute and when they render. |
| `Articles`, `Search`, `ArticleList`, `NavLink` | src/lib/articles.ts, src/hooks/use-search.ts, the article list page and the link component. |
| `Wrappers`, `Seqs`, `Text` | Shared helpers: `Option`; filter, map, insertion sort and subsequences; ASCII lower-casing, `includes`, `startsWith`, whitespace and decimal rendering. |

**Values supplied from outside.** The clock (`now`, in milliseconds), the calendar day (`today`, an integer day number) and the random highlight id are parameters. The article list the loader would return is a parameter of every query.

**Two behaviours of the code worth noting:**
- A record is marked read when the incoming `percentage` reaches 90, not the stored completion (src/lib/learning-progress.ts:100-103). Its review is then scheduled `calculateNextReview(now, 1)`, three days ahead of the current time.
- Every finished session is appended to the history (src/lib/learning-progress.ts:278-282). Days are made distinct only when `getPastSessions` reads them back (src/lib/learning-progress.ts:287-293).

The review page explains the schedule as "1 day, 3 days, …". But the only record with a 1-day review is the one `startArticle` creates, with a read count of 0, and such a record is never due.

## Model

| member | source | states |
|---|---|---|
| LearningProgress.NextReview | src/lib/learning-progress.ts:168-181 | The review is always later than the last read. Read counts 0 to 4 give 1, 3, 7, 14 and 30 days; every count from 5 on gives 90 days. |
| LearningProgress.NextReviewMonotonic | src/lib/learning-progress.ts:168-181 | More reads never schedule an earlier review. |
| LearningProgress.NewProgress | src/lib/learning-progress.ts:71-84 | A new record is unread and empty, first and last read now, with its review a day ahead. It is not due. |
| LearningProgress.WithReading | src/lib/learning-progress.ts:95-103 | Completion becomes the larger of the old value and the percentage. Time is added. The first pass of 90% on an unread record sets the read count to 1 and the review three days ahead; otherwise both are kept. No other field changes. |
| LearningProgress.ApplyReadings | src/lib/learning-progress.ts:92-107 | A record after a run of `updateReadingProgress` calls, one `WithReading` per call. Its properties are `ReadingsAccumulate` and the lemmas below it. |
| LearningProgress.ReadingsAccumulate | src/lib/learning-progress.ts:92-107 | After any run of updates: completion is the running maximum and time is the sum. An unread record is read exactly when some update reached 90%, with its review three days after the first such update. Slug, scores, notes and highlights stay. |
| LearningProgress.ReadingsKeepMax | src/lib/learning-progress.ts:96 | Completion after a run of updates is the largest of the initial value and the percentages. |
| LearningProgress.ReadingsAddTime | src/lib/learning-progress.ts:97 | Time after a run of updates is the initial time plus the sum of the increments. |
| LearningProgress.ReadingsMarkFirstPass | src/lib/learning-progress.ts:100-103 | A read record keeps its count and review. An unread one stays unread until an update reaches 90%, and the first such update schedules its review. |
| LearningProgress.ReadingsKeepReadCountBounded | src/lib/learning-progress.ts:100-103 | A read count of 0 or 1 stays within 0..1 under any run of updates. |
| LearningProgress.WithQuizScore | src/lib/learning-progress.ts:113-116 | Exactly one score is appended; nothing else changes. |
| LearningProgress.WithNote | src/lib/learning-progress.ts:123-126 | The notes are replaced; nothing else changes. |
| LearningProgress.WithHighlight | src/lib/learning-progress.ts:133-143 | Exactly one highlight is appended; nothing else changes. |
| LearningProgress.WithoutHighlight | src/lib/learning-progress.ts:150-153 | No highlight with the id remains. Every other highlight remains and nothing new appears. Other fields are unchanged. |
| LearningProgress.WithoutHighlightKeepsOrder | src/lib/learning-progress.ts:151 | The remaining highlights keep their order. |
| LearningProgress.WithoutHighlightIdempotent | src/lib/learning-progress.ts:151 | Removing an id twice is removing it once. |
| LearningProgress.TrackRead | src/lib/learning-progress.ts:240-251 | Afterwards the slug is listed. It is appended only if missing, so a duplicate-free list stays duplicate-free. The quiz list is untouched. |
| LearningProgress.TrackQuiz | src/lib/learning-progress.ts:253-264 | The same for the quiz list. |
| LearningProgress.TrackIdempotent | src/lib/learning-progress.ts:240-264 | Tracking the same slug twice is tracking it once. |
| LearningProgress.Finish | src/lib/learning-progress.ts:270-281 | The history entry's time spent is end minus start, with the session's lists and the day it ended. |
| LearningProgress.AppendCapped | src/lib/learning-progress.ts:278-282 | At most 30 entries, the new one last. Below 30 nothing is dropped; otherwise the newest 29 old entries are kept. |
| LearningProgress.Distinct | src/lib/learning-progress.ts:292 | No date twice, exactly the dates of the input. |
| LearningProgress.SessionDays | src/lib/learning-progress.ts:287-293 | The distinct days on which some stored session ended. |
| LearningProgress.RunBack | src/lib/learning-progress.ts:210-222 | The backward walk counts at most its limit of days. |
| LearningProgress.RunBackIsRun | src/lib/learning-progress.ts:210-222 | Every day the walk counted had a session. It stops early only at a day without one. |
| LearningProgress.StreakOf | src/lib/learning-progress.ts:202-225 | No sessions give 0. A session today gives at least 1. It never exceeds 365. |
| LearningProgress.StreakIsUnbrokenRun | src/lib/learning-progress.ts:202-225 | With a session today, the streak is the unbroken run of session days ending today. Without one, it is the run ending yesterday. The run is maximal unless the 365-day window ends it. |
| LearningProgress.StreakOfThreeDays | src/lib/learning-progress.ts:210-222 | Sessions today and on the two days before give 3. |
| LearningProgress.StreakGapAfterToday | src/lib/learning-progress.ts:210-222 | A missing yesterday after a session today gives 1. |
| LearningProgress.StreakGapBeforeYesterday | src/lib/learning-progress.ts:210-222 | No session today or yesterday gives 0. |
| LearningProgress.StreakGraceDay | src/lib/learning-progress.ts:215-218 | A missing today does not break the streak: sessions yesterday and the day before give 2. |
| LearningProgress.CalculateStreak | src/lib/learning-progress.ts:202-225 | The loop, with its skip of today on the first step and its break, returns `StreakOf`. |
| LearningProgress.DueRecords | src/lib/learning-progress.ts:161-163 | Sorted by review time. A permutation of the due values. Exactly the values that are due (read, and review time reached). |
| LearningProgress.DueReviews | src/lib/learning-progress.ts:157-165 | One slug per due record, in the sorted order. |
| LearningProgress.AllScores | src/lib/learning-progress.ts:193 | The flattened list is at least as long as any one record's scores. |
| LearningProgress.AverageScore | src/lib/learning-progress.ts:192-195 | With no scores the average is 0, which covers the `\|\| 0` fallback. With scores in 0..100 the average lies in 0..100. |
| LearningProgress.StatsOf | src/lib/learning-progress.ts:184-198 | Read plus in-progress records number at most the records, because the two are disjoint. The average is 0 without scores and within 0..100 for valid scores. Time is non-negative when every record's time is. The streak is passed through. |
| LearningProgress.NotesCount | src/lib/learning-progress.ts:197 | Each non-empty note counts 1 and each highlight counts 1. |
| LearningProgress.CountMatchesMap | src/lib/learning-progress.ts:186-190 | Counting along an enumeration of the store is counting its keys. |
| LearningProgress.EnumerationSize | src/lib/learning-progress.ts:186 | An enumeration of the store lists as many records as the store has keys. |
| LearningProgress.DueRecordsCount | src/lib/learning-progress.ts:161-162 | There are as many due records as due keys. |
| LearningProgress.DueRecordsOfStore | src/lib/learning-progress.ts:161-163 | The due records are exactly the records of the due keys. |
| LearningProgress.DueReviewsOfStore | src/lib/learning-progress.ts:157-165 | One slug per due key; a slug is returned exactly when some due record carries it. |
| LearningProgress.DueReviewsOfKeyedStore | src/lib/learning-progress.ts:157-165 | In a store filed by slug, the result is exactly the due keys, each once, in ascending review time. |
| LearningProgress.StatsOfStore | src/lib/learning-progress.ts:186-190 | The read and in-progress counts equal the numbers of such keys in the store. |
| LearningProgress.StatsOfStoreDefaults | src/lib/learning-progress.ts:191-195 | A store without scores averages 0. A store without negative time has a non-negative total. |
| LearningProgress.Manager.constructor | src/lib/learning-progress.ts:44-46 | Empty store, no session, empty history; the store invariant holds. |
| LearningProgress.Manager.GetArticleProgress | src/lib/learning-progress.ts:61-64 | Some record exactly when the slug is stored, and then that record. |
| LearningProgress.Manager.StartArticle | src/lib/learning-progress.ts:67-89 | A new slug gets a fresh record; a known one only gets its last-read time updated. A new empty session starts and the history is unchanged. Keying by slug is preserved. |
| LearningProgress.Manager.UpdateReadingProgress | src/lib/learning-progress.ts:92-107 | A stored record becomes `WithReading` of itself; a missing slug changes nothing. |
| LearningProgress.Manager.SaveQuizAttempt | src/lib/learning-progress.ts:110-117 | Only the score of a stored slug's attempt is appended; otherwise nothing changes. |
| LearningProgress.Manager.SaveNote | src/lib/learning-progress.ts:120-127 | A stored record's notes are replaced; a missing slug changes nothing. |
| LearningProgress.Manager.AddHighlight | src/lib/learning-progress.ts:130-144 | A stored record gains the highlight with the given id, text, position, note and time; a missing slug changes nothing. |
| LearningProgress.Manager.RemoveHighlight | src/lib/learning-progress.ts:147-154 | A stored record loses the highlights with that id; a missing slug changes nothing. |
| LearningProgress.Manager.Values | src/lib/learning-progress.ts:161 | The values list every record of the store exactly once. |
| LearningProgress.Manager.GetDueReviews | src/lib/learning-progress.ts:157-165 | One slug per due record. In a valid store they are exactly the due keys, each once, in ascending review time. |
| LearningProgress.Manager.GetPastSessions | src/lib/learning-progress.ts:287-293 | The distinct days of the history. |
| LearningProgress.Manager.Streak | src/lib/learning-progress.ts:202-225 | `StreakOf` the past days. An empty history gives 0. At most 365. |
| LearningProgress.Manager.GetStats | src/lib/learning-progress.ts:184-198 | The statistics are `StatsOf` an enumeration of the store with the history's streak. Read and in-progress counts equal the numbers of such keys and sum to at most the store's size. Time and notes are sums over the records. The average is `AverageScore` of the records: 0 without scores, within 0..100 when every score is. |
| LearningProgress.Manager.StartSession | src/lib/learning-progress.ts:228-238 | A new empty session starting now; the store and history are unchanged. |
| LearningProgress.Manager.TrackArticleRead | src/lib/learning-progress.ts:240-251 | With a session, applies `TrackRead`; without one, nothing changes. |
| LearningProgress.Manager.TrackQuizCompleted | src/lib/learning-progress.ts:253-264 | With a session, applies `TrackQuiz`; without one, nothing changes. |
| LearningProgress.Manager.EndSession | src/lib/learning-progress.ts:266-285 | A current session is finished into the capped history and cleared; without one, nothing changes. |
| LearningProgress.Manager.ExportProgress | src/lib/learning-progress.ts:302-308 | The backup holds the store, the history and the time. |
| LearningProgress.Manager.ImportProgress | src/lib/learning-progress.ts:310-323 | Succeeds exactly on parseable data. Each part that is present replaces its store, and a missing part leaves its store as it was. The session is untouched. |
| LearningProgress.Manager.ClearProgress | src/lib/learning-progress.ts:326-331 | Store, history and session are all emptied. |
| LearningProgress.ParseBackup | src/lib/learning-progress.ts:310-313 | An exported document parses, and neither of its parts is missing. |
| LearningProgress.RestoreBackup | src/lib/learning-progress.ts:302-323 | Importing another manager's export reproduces its store and history. |
| Quiz.Score | src/components/learning/quiz.tsx:52 | The integer nearest to 100·correct/total, halves rounded up. |
| Quiz.ScoreBounds | src/components/learning/quiz.tsx:52 | The score is in 0..100: 100 when all are right and 0 when none are. |
| Quiz.ScoreMonotonic | src/components/learning/quiz.tsx:52 | More correct answers never lower the score. |
| Quiz.PassedIff | src/components/learning/quiz.tsx:87 | Passed (score ≥ 70) exactly when at least 69.5% of the answers are correct. |
| Quiz.PassExamples | src/components/learning/quiz.tsx:52 | 7 of 10 scores 70 and passes; 2 of 3 scores 67 and fails. |
| Quiz.CorrectCount | src/components/learning/quiz.tsx:49-51 | At most the number of answers and of questions. |
| Quiz.AttemptAnswers | src/components/learning/quiz.tsx:62-65 | One entry per answered question, true exactly when the answer is right. |
| Quiz.AttemptAgreesWithScore | src/components/learning/quiz.tsx:49-65 | The attempt's right answers are exactly those the score counts. |
| Quiz.QuizState.constructor | src/components/learning/quiz.tsx:22-28 | All six fields start at their initial values. |
| Quiz.QuizState.HandleAnswer | src/components/learning/quiz.tsx:34-44 | Ignored while the explanation shows. Otherwise it selects the answer and records it for the current question. |
| Quiz.QuizState.ShowExplanation | src/components/learning/quiz.tsx:41-43 | The delayed callback shows the explanation and changes nothing else. |
| Quiz.QuizState.HandleNext | src/components/learning/quiz.tsx:46-74 | On the last question: scores the answers, completes the quiz and returns the attempt to save, with a score in 0..100. Otherwise: the next question, with nothing selected. |
| Quiz.QuizState.HandleReset | src/components/learning/quiz.tsx:76-83 | All six fields back to their initial values. |
| Quiz.FinishQuiz | src/components/learning/quiz.tsx:47-68 | On the last question the quiz completes with the score of its answers, within 0..100. If the manager has a record for the quiz's article, only that record changes, by `WithQuizScore` with the quiz score. Otherwise the store is unchanged. The session, the history and the store invariant are kept. |
| DifficultyAssessment.CorrectAmong | src/components/learning/difficulty-assessment.tsx:54-62 | Never more correct answers than questions looked at. |
| DifficultyAssessment.CorrectAmongZero | src/components/learning/difficulty-assessment.tsx:54-62 | A counter is zero exactly when no question it admits was answered correctly. |
| DifficultyAssessment.CorrectSplits | src/components/learning/difficulty-assessment.tsx:56-60 | Every correct answer is counted under exactly one difficulty. |
| DifficultyAssessment.TallyOf | src/components/learning/difficulty-assessment.tsx:48-62 | The total is the sum of the three per-level counters, and at most the number of questions. |
| DifficultyAssessment.LevelFor | src/components/learning/difficulty-assessment.tsx:65-75 | The level `calculateLevel` picks from the tally. Its meaning is stated by `BelowThresholdIsBeginner`, `LevelAtThreshold` and `AdvancedNeedsAdvancedAnswer`. |
| DifficultyAssessment.BelowThresholdIsBeginner | src/components/learning/difficulty-assessment.tsx:73-75 | Below 70% correct the level is beginner. |
| DifficultyAssessment.LevelAtThreshold | src/components/learning/difficulty-assessment.tsx:65-72 | At 70% or more: advanced exactly when an advanced question was right; otherwise intermediate exactly when an intermediate one was; otherwise beginner. |
| DifficultyAssessment.AdvancedNeedsAdvancedAnswer | src/components/learning/difficulty-assessment.tsx:66-67 | Advanced is recommended only when some advanced question was answered correctly. |
| DifficultyAssessment.CountCorrect | src/components/learning/difficulty-assessment.tsx:49-62 | The `forEach` loop's four counters equal `TallyOf`. |
| DifficultyAssessment.AssessmentState.constructor | src/components/learning/difficulty-assessment.tsx:27-30 | Initial state: first question, no answers, no result, beginner. |
| DifficultyAssessment.AssessmentState.CalculateLevel | src/components/learning/difficulty-assessment.tsx:48-78 | The recommendation is `LevelFor` the given answers, and the result is shown. |
| DifficultyAssessment.AssessmentState.HandleAnswer | src/components/learning/difficulty-assessment.tsx:35-46 | The answer is recorded. On the last question the level is computed from the answers including it; otherwise the next question follows. |
| DifficultyAssessment.AssessmentState.HandleContinue | src/components/learning/difficulty-assessment.tsx:80-82 | Hands on the recommended level. |
| DifficultyAssessment.AssessmentState.HandleSkip | src/components/learning/difficulty-assessment.tsx:84-86 | Always hands on beginner. |
| ReviewQueue.Considered | src/components/learning/review-queue.tsx:27-29 | The read records sorted by review time; `ConsideredIsSortedReadRecords` states this. |
| ReviewQueue.ConsideredIsSortedReadRecords | src/components/learning/review-queue.tsx:27-29 | The walked records are sorted by review time and are exactly the read records. |
| ReviewQueue.Matched | src/components/learning/review-queue.tsx:30-32 | The records whose slug finds an article, each paired with it; `MatchedSound`, `MatchedComplete` and `MatchedSorted` state this. |
| ReviewQueue.MatchedSound | src/components/learning/review-queue.tsx:31-32 | Each entry pairs a walked record with the article its slug finds. |
| ReviewQueue.MatchedComplete | src/components/learning/review-queue.tsx:31-32 | Every record whose slug finds an article has an entry. |
| ReviewQueue.MatchedSorted | src/components/learning/review-queue.tsx:29-32 | Pairing keeps the review-time order. |
| ReviewQueue.QueueEntries | src/components/learning/review-queue.tsx:27-32 | The entries the walk visits: the matched considered records; `QueueEntriesSound` and `QueueMembership` state this. |
| ReviewQueue.CalculateReviews | src/components/learning/review-queue.tsx:19-50 | The walk's two lists are the due and upcoming lists of the queued entries; the counts are their lengths. |
| ReviewQueue.DueStep | src/components/learning/review-queue.tsx:31-35 | One step appends the article to the due list exactly when it is found and due; otherwise the list is unchanged. |
| ReviewQueue.UpcomingStep | src/components/learning/review-queue.tsx:31-41 | One step appends an upcoming entry exactly when the article is found and due within seven days; otherwise that list is unchanged. |
| ReviewQueue.QueueEntriesSound | src/components/learning/review-queue.tsx:27-32 | Every queued entry is a read record of the store with the article its slug finds. |
| ReviewQueue.QueueMembership | src/components/learning/review-queue.tsx:27-41 | A read record whose article exists is queued. It is due exactly when its time has come, and upcoming exactly when it falls within the next seven days. |
| ReviewQueue.LaterReviewsHidden | src/components/learning/review-queue.tsx:34-41 | A review more than seven days away is in neither list. |
| ReviewQueue.ListsDisjoint | src/components/learning/review-queue.tsx:34-41 | No entry is both due and upcoming. |
| ReviewQueue.ListsSorted | src/components/learning/review-queue.tsx:29-41 | Both lists ascend by review time. |
| ReviewQueue.DueArticlesFollowEntries | src/components/learning/review-queue.tsx:34-35 | The due list shows one article per due entry, in order. |
| ReviewQueue.DiffDays | src/components/learning/review-queue.tsx:57 | The ceiling of the distance in days: (d−1)·day < due−now ≤ d·day. |
| ReviewQueue.FormatDueDate | src/components/learning/review-queue.tsx:55-63 | "Today" exactly within the past day, "Tomorrow" exactly within the next one, "In d days" for other d below 7, and a date beyond six days. |
| ReviewQueue.UpcomingLabels | src/components/learning/review-queue.tsx:55-63 | An upcoming review never reads "Today". "In d days" has d in 2..6, and the seventh day shows a date. |
| ReviewQueue.ThreeDaysAway | src/components/learning/review-queue.tsx:61 | Three days ahead reads "In 3 days". |
| RelatedConcepts.Candidates | src/components/learning/related-concepts.tsx:20 | Exactly the published articles other than the current one. |
| RelatedConcepts.SharedTags | src/components/learning/related-concepts.tsx:35-38 | At most the article's number of tags. |
| RelatedConcepts.Relatedness | src/components/learning/related-concepts.tsx:22-53 | The score lies between 0 and 36 plus 5 per tag. |
| RelatedConcepts.RelatednessExtremes | src/components/learning/related-concepts.tsx:22-53 | Sharing nothing scores 0. Same category, listed as related, read and same difficulty scores at least 36. |
| RelatedConcepts.ScoreArticle | src/components/learning/related-concepts.tsx:21-53 | The scoring callback, with its tag-counting loop, computes `Relatedness`. |
| RelatedConcepts.RankedCandidates | src/components/learning/related-concepts.tsx:55 | Sorted by descending score, and a permutation of the scored candidates. |
| RelatedConcepts.RankedWellScored | src/components/learning/related-concepts.tsx:53-55 | Each ranked entry carries its own article's score. |
| RelatedConcepts.RankedFromCandidates | src/components/learning/related-concepts.tsx:19-55 | Every ranked article is a candidate. |
| RelatedConcepts.RankedHasCandidate | src/components/learning/related-concepts.tsx:19-55 | Every candidate is ranked. |
| RelatedConcepts.RelatedArticles | src/components/learning/related-concepts.tsx:55-57 | The first min(6, candidates) articles of the ranking. |
| RelatedConcepts.RelatedArticlesRanked | src/components/learning/related-concepts.tsx:18-57 | The related articles are published, not the current one, and in non-increasing score order. |
| RelatedConcepts.RelatedAreCandidates | src/components/learning/related-concepts.tsx:19-57 | Every related article is a candidate. |
| RelatedConcepts.RelatedInScoreOrder | src/components/learning/related-concepts.tsx:55-57 | The scores do not increase along the list. |
| RelatedConcepts.RankingKeepsTheBest | src/components/learning/related-concepts.tsx:55-56 | No candidate left out scores higher than any kept article. |
| RelatedConcepts.PrefixOutranks | src/components/learning/related-concepts.tsx:55-56 | In a ranking, each entry before a cut scores at least as much as any entry after it. |
| RelatedConcepts.SmallPoolKeptWhole | src/components/learning/related-concepts.tsx:56 | With at most six candidates, all of them are kept. |
| RelatedConcepts.Categorize | src/components/learning/related-concepts.tsx:62-84 | An article is in each list exactly when it meets that list's test. There are no prerequisites for a beginner article and no advanced steps for an advanced one. |
| RelatedConcepts.CategoriesPreserveOrder | src/components/learning/related-concepts.tsx:62-84 | Each list keeps the ranking's order. |
| RelatedConcepts.Render | src/components/learning/related-concepts.tsx:86-170 | Nothing is rendered exactly when there are no related articles; otherwise there are four sections cut to 2, 2, 2 and 4 cards. |
| RelatedConcepts.RenderCaps | src/components/learning/related-concepts.tsx:110-167 | At most 2, 2, 2 and 4 cards per section. |
| LearningPath.PathFor | src/components/learning/learning-path.tsx:16-65 | A path exists exactly for the three categories. |
| LearningPath.ReactOrderNoDup | src/components/learning/learning-path.tsx:20-32 | The React order lists no slug twice. |
| LearningPath.JavaScriptOrderNoDup | src/components/learning/learning-path.tsx:37-49 | The JavaScript order lists no slug twice. |
| LearningPath.PerformanceOrderNoDup | src/components/learning/learning-path.tsx:54-63 | The performance order lists no slug twice. |
| LearningPath.PathsHaveNoDuplicates | src/components/learning/learning-path.tsx:16-65 | No path order lists a slug twice. |
| LearningPath.IndexOf | src/components/learning/learning-path.tsx:78 | Either −1 exactly when the slug is absent, or the first position holding it. |
| LearningPath.CurrentIndex | src/components/learning/learning-path.tsx:77-79 | Either −1 exactly when there is no path or the slug is not on it, or the article's first position in the path. |
| LearningPath.PathInfo | src/components/learning/learning-path.tsx:72-74 | The path of the current article's category, when there is an article. |
| LearningPath.PathArticles | src/components/learning/learning-path.tsx:68 | Exactly the given articles of the current category, or of "react-internals" without one. |
| LearningPath.FindAll | src/components/learning/learning-path.tsx:87-88 | At most one article per slug; only articles of the pool whose slug was asked for; every slug the pool has is found. |
| LearningPath.FindAllSlugs | src/components/learning/learning-path.tsx:85-88 | The found articles' slugs are, in order, the slugs that name an article of the pool. |
| LearningPath.NextSlugs | src/components/learning/learning-path.tsx:86 | The up to three slugs right after position i, in order. |
| LearningPath.PrerequisiteSlugs | src/components/learning/learning-path.tsx:96 | The up to three slugs right before position i, in order. None at position 0. |
| LearningPath.NextInPath | src/components/learning/learning-path.tsx:82-89 | At most three. None without a path or off the path. |
| LearningPath.Prerequisites | src/components/learning/learning-path.tsx:92-99 | At most three. None without a path, off the path, or at the start. |
| LearningPath.NextSlugsExclude | src/components/learning/learning-path.tsx:85-86 | In a duplicate-free order, the window after a slug does not hold it. |
| LearningPath.PrerequisiteSlugsExclude | src/components/learning/learning-path.tsx:95-96 | The window before a slug's first position does not hold it. |
| LearningPath.NextExcludesCurrent | src/components/learning/learning-path.tsx:82-89 | The next articles are on the path and are not the current one. |
| LearningPath.PrerequisitesExcludeCurrent | src/components/learning/learning-path.tsx:92-99 | The prerequisites are on the path and are not the current one. |
| LearningPath.NextInPathOrder | src/components/learning/learning-path.tsx:85-88 | The next articles follow the path order within the three following slugs. |
| LearningPath.PrerequisitesOrder | src/components/learning/learning-path.tsx:95-98 | The prerequisites follow the path order within the three preceding slugs. |
| LearningPath.ReactHooksWindows | src/components/learning/learning-path.tsx:20-32 | The fourth React article has the first three before it and the next three after it; the last has none after it. |
| LearningPath.Render | src/components/learning/learning-path.tsx:101-108 | Nothing is rendered exactly when there is no path and no full view is asked for. Without a path the heading is "Learning Path" and both lists are empty. |
| ProgressTracker.JsRem | src/components/learning/progress-tracker.tsx:12 | JavaScript's `%`: the remainder takes the dividend's sign. |
| ProgressTracker.Hours | src/components/learning/progress-tracker.tsx:11 | `Math.floor(seconds / 3600)`; `TimeSplit` and `NegativeTime` state its range. |
| ProgressTracker.Minutes | src/components/learning/progress-tracker.tsx:12 | `Math.floor((seconds % 3600) / 60)` with JavaScript's `%`; `TimeSplit` and `NegativeTime` state its range. |
| ProgressTracker.FormatTime | src/components/learning/progress-tracker.tsx:10-18 | The study-time text; `FormatTimeShowsHoursIff` states when it shows hours. |
| ProgressTracker.TimeSplit | src/components/learning/progress-tracker.tsx:10-12 | For a non-negative time: whole hours, and whole minutes 0..59 of the rest. |
| ProgressTracker.NegativeTime | src/components/learning/progress-tracker.tsx:11-12 | For a negative total: negative hours, and minutes within −60..0. |
| ProgressTracker.FormatTimeShowsHoursIff | src/components/learning/progress-tracker.tsx:14-17 | The text shows hours exactly when there is a whole hour, and it always ends in "m". |
| ProgressTracker.FormatTimeExamples | src/components/learning/progress-tracker.tsx:10-18 | 5400 s is 1 h 30 m and 600 s is 10 m. |
| ProgressTracker.StreakTier | src/components/learning/progress-tracker.tsx:20-26 | Purple from 30 days, orange from 14, yellow from 7, green from 3, gray below. Each tier is chosen exactly in its range. |
| ProgressTracker.StreakTierMonotonic | src/components/learning/progress-tracker.tsx:20-26 | A longer streak never gets a lower tier. |
| ProgressTracker.ArticleNoun | src/components/learning/progress-tracker.tsx:103 | "article" exactly for a count of 1. |
| ProgressTracker.Round | src/components/learning/progress-tracker.tsx:73 | The nearest integer, halves rounded up. |
| ProgressTracker.Render | src/components/learning/progress-tracker.tsx:34-124 | Badge exactly for a positive streak, with its tier. Review banner exactly with due reviews. Continue banner exactly with articles in progress. A valid average shows within 0..100. |
| ProgressTracker.ReviewBannerPlural | src/components/learning/progress-tracker.tsx:103 | "1 article", "2 articles". |
| Articles.MatchesEmptyQuery | src/lib/articles.ts:51 | Every article matches the empty query. |
| Articles.MatchesQuery | src/lib/articles.ts:51-53 | The search test on an article; `SearchArticles` and `MatchesEmptyQuery` state its use. |
| Articles.FilterArticles | src/lib/articles.ts:57-81 | No options return the list unchanged. Each given option is met by every result. An article is kept exactly when it meets both. |
| Articles.FilterArticlesIsFilter | src/lib/articles.ts:57-81 | The two filters in a row are one filter by their conjunction. |
| Articles.FilterArticlesPreservesOrder | src/lib/articles.ts:57-81 | The result is a subsequence of the input. |
| Articles.FilterArticlesIdempotent | src/lib/articles.ts:57-81 | Filtering twice with the same options is filtering once. |
| Articles.SearchArticles | src/lib/articles.ts:47-55 | An article is found exactly when its lowercased title, description or a tag includes the lowercased query. |
| Articles.SearchAgreesWithFilter | src/lib/articles.ts:47-81 | Search equals the filter with that query alone, for every query including the empty one. |
| Articles.SearchIgnoresQueryCase | src/lib/articles.ts:48 | Lowercasing the query first changes nothing. |
| Articles.GetArticlesByTag | src/lib/articles.ts:43-45 | Exactly the articles carrying that exact tag. |
| Articles.TagLookupIsCaseSensitive | src/lib/articles.ts:43-55 | A "React" tag is found by searching "react" but not by the tag "react". |
| Articles.GetArticlesByCategory | src/lib/articles.ts:39-41 | Exactly the given articles of that category. |
| Articles.GetArticleBySlug | src/lib/articles.ts:34-37 | None exactly when no article has the slug; otherwise the first article with it. |
| Search.FilteredArticles | src/hooks/use-search.ts:10-30 | No category and a blank query return the list unchanged. Otherwise each active test holds for every result. |
| Search.AgreesWithFilterArticles | src/hooks/use-search.ts:10-30 | The hook is `filterArticles` with a blank query counted as absent. |
| Search.PreservesOrder | src/hooks/use-search.ts:10-30 | The result keeps the input's order. |
| Search.KeptIff | src/hooks/use-search.ts:14-27 | An article is kept exactly when it passes both active tests. |
| Search.SurroundingSpacesMustMatch | src/hooks/use-search.ts:19-20 | The query is trimmed only for the blank test: " react" does not find "react". |
| ArticleList.InitialSelection | src/app/articles/components/article-list.tsx:30-32 | "all" unless a category is given. |
| ArticleList.SelectedArticles | src/app/articles/components/article-list.tsx:51-53 | All articles for "all"; otherwise exactly those of the category. |
| ArticleList.SelectedPreservesOrder | src/app/articles/components/article-list.tsx:51-53 | The selection keeps the list's order. |
| ArticleList.PillCount | src/app/articles/components/article-list.tsx:79-98 | No count exactly for "all"; otherwise at most the number of articles. |
| ArticleList.PillCountMatchesSelection | src/app/articles/components/article-list.tsx:79-81 | A pill's count is the number of articles that clicking it shows. |
| ArticleList.Pills | src/app/articles/components/article-list.tsx:78-101 | One pill per id, in order, with its count. |
| ArticleList.OnlyAllPillHasNoCount | src/app/articles/components/article-list.tsx:16-28 | Of the page's eleven pills only the first, "all", shows no count. |
| NavLink.ActiveIff | src/components/layout/nav-link.tsx:15 | Active exactly on the href itself or on a path continuing it after "/". |
| NavLink.ActiveBelow | src/components/layout/nav-link.tsx:15 | Every path below the href is active. |
| NavLink.InactiveOnSharedPrefix | src/components/layout/nav-link.tsx:15 | "/articles-old" does not activate "/articles". |
| NavLink.InactiveWhenShorter | src/components/layout/nav-link.tsx:15 | A path shorter than the href is never active. |
| NavLink.IsActive | src/components/layout/nav-link.tsx:15 | An active path always starts with the href. |

## Left out

- **Local storage and JSON.** The three stored documents are the manager's fields. `ImportData` stands for the result of `JSON.parse`; `Malformed` covers a parse error.
- **The `getAllProgress` fallback.** Its fallback to `{}` on unreadable storage, and the server-side `typeof window` guards, are not modelled.
- **Clock and calendar.** `Date.now()`, `new Date()` and `toISOString().split('T')[0]` become the parameters `now` and `today`. The model does not capture the mismatch between local midnight and the UTC date string in `calculateStreak`, or `toLocaleDateString` in `formatDueDate` (shown as the `OnDate` label).
- **Highlight ids.** `Math.random` ids are a parameter of `AddHighlight`.
- **Floating point.** Scores, averages and the 0.7 threshold are exact rationals or integers. IEEE rounding of `questions.length * 0.7` and of the mean is not modelled.
- **Timers.** The 500 ms explanation delay of the quiz is the separate event `ShowExplanation`. The 300 ms advance of the assessment is collapsed into `HandleAnswer`.
- **Sort tie order.** The order of equal review times or equal scores is left open: `SortBy` is a stable insertion sort, which JavaScript's sort also is. `Object.values` order is left open by `Manager.Values`.
- **Record shape.** Records and messages are assumed to conform to their interfaces. Prototype keys looked up in `learningPaths[category]` or `progress[slug]` are not modelled.
- **Case folding.** Lowercasing covers ASCII letters only; Unicode case folding is not modelled.
- **Outside the model.** These files are not part of this model: use-learning-progress.ts (the React hooks that feed the stats), code-playground.tsx, mdx.ts and the zod schemas, and constants.ts.
- **Article loading.** The `fs`/`gray-matter` loader and its `localeCompare` title sort are replaced by a given article list.
- **Markup.** Rendering is reduced to what is shown and when; the markup is left out.
- LearningProgress.Manager.Values: states only that the result enumerates the store, since the order of `Object.values` is not modelled.
- LearningProgress.Manager.GetDueReviews: the uniqueness and key-equality clauses are stated for a store keyed by slug (`Valid`), which every method keeps. An imported store need not be keyed by slug.
- LearningProgress.StatsOf: the average is bounded only for scores in 0..100, which the quiz produces; scores saved from elsewhere are not constrained.
- ProgressTracker.Render: only guards, tiers and the study-time text are stated; the banner strings are built but not specified beyond their presence.
