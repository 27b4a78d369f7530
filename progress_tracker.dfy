/**
 * The progress tracker's arithmetic and display guards: study time as hours
 * and minutes, the streak colour ladder, and which banners appear.
 */
module ProgressTracker {
  import opened Wrappers
  import opened Text
  import opened LearningProgress

  /** JavaScript's `a % b` for a positive `b`: the remainder takes the sign of `a`. */
  function JsRem(a: int, b: int): (r: int)
    requires b > 0
    ensures a >= 0 ==> 0 <= r < b
    ensures a < 0 ==> -b < r <= 0
    ensures a >= 0 ==> r == a % b
  {
    if a >= 0 then a % b else -((-a) % b)
  }

  /** `Math.floor(seconds / 3600)`. */
  function Hours(seconds: int): int {
    seconds / 3600
  }

  /** `Math.floor((seconds % 3600) / 60)`. */
  function Minutes(seconds: int): int {
    JsRem(seconds, 3600) / 60
  }

  /** For a non-negative time, the hours and minutes are the whole hours and the whole minutes left over. */
  lemma TimeSplit(seconds: int)
    requires seconds >= 0
    ensures Hours(seconds) >= 0 && 0 <= Minutes(seconds) < 60
    ensures 3600 * Hours(seconds) + 60 * Minutes(seconds) <= seconds < 3600 * Hours(seconds) + 60 * Minutes(seconds) + 60
  {
    var h, rem := seconds / 3600, seconds % 3600;
    assert seconds == 3600 * h + rem;
    assert rem == 60 * (rem / 60) + rem % 60;
  }

  /** For a negative total the hours are negative and the minutes lie in -60..0. */
  lemma NegativeTime(seconds: int)
    requires seconds < 0
    ensures Hours(seconds) < 0 && -60 <= Minutes(seconds) <= 0
  {
  }

  /** `formatTime(seconds)`. */
  function FormatTime(seconds: int): string {
    if Hours(seconds) > 0 then IntString(Hours(seconds)) + "h " + IntString(Minutes(seconds)) + "m"
    else IntString(Minutes(seconds)) + "m"
  }

  /** The hours part appears exactly when there is at least one whole hour. */
  lemma FormatTimeShowsHoursIff(seconds: int)
    ensures 'h' in FormatTime(seconds) <==> Hours(seconds) > 0
    ensures FormatTime(seconds)[|FormatTime(seconds)| - 1] == 'm'
  {
    var m := IntString(Minutes(seconds));
    if Hours(seconds) > 0 {
      var h := IntString(Hours(seconds));
      assert FormatTime(seconds)[|h|] == 'h';
    } else {
      assert FormatTime(seconds) == m + "m";
      forall i | 0 <= i < |m| + 1 ensures FormatTime(seconds)[i] != 'h' {
        if i < |m| {
          assert FormatTime(seconds)[i] == m[i];
        }
      }
    }
  }

  /** An hour and a half reads "1h 30m"; ten minutes read "10m". */
  lemma FormatTimeExamples()
    ensures Hours(5400) == 1 && Minutes(5400) == 30
    ensures Hours(600) == 0 && Minutes(600) == 10
  {
  }

  /** The five colours of the streak badge, from the lowest tier up. */
  datatype Tier = Gray | Green | Yellow | Orange | Purple

  function Rank(t: Tier): nat {
    match t
    case Gray => 0
    case Green => 1
    case Yellow => 2
    case Orange => 3
    case Purple => 4
  }

  /** `getStreakColor(streak)`, as the tier it picks. */
  function StreakTier(streak: int): (t: Tier)
    ensures t == Purple <==> streak >= 30
    ensures t == Orange <==> 14 <= streak < 30
    ensures t == Yellow <==> 7 <= streak < 14
    ensures t == Green <==> 3 <= streak < 7
    ensures t == Gray <==> streak < 3
  {
    if streak >= 30 then Purple
    else if streak >= 14 then Orange
    else if streak >= 7 then Yellow
    else if streak >= 3 then Green
    else Gray
  }

  /** A longer streak never gets a lower tier. */
  lemma StreakTierMonotonic(s1: int, s2: int)
    requires s1 <= s2
    ensures Rank(StreakTier(s1)) <= Rank(StreakTier(s2))
  {
  }

  /** The class names of each tier. */
  function TierClass(t: Tier): string {
    match t
    case Purple => "text-purple-600 dark:text-purple-400"
    case Orange => "text-orange-600 dark:text-orange-400"
    case Yellow => "text-yellow-600 dark:text-yellow-400"
    case Green => "text-green-600 dark:text-green-400"
    case Gray => "text-gray-600 dark:text-gray-400"
  }

  /** `count === 1 ? 'article' : 'articles'`. */
  function ArticleNoun(count: int): (r: string)
    ensures r == "article" <==> count == 1
    ensures r == "articles" <==> count != 1
  {
    if count == 1 then "article" else "articles"
  }

  /** `Math.round(x)`: the nearest integer, halves rounded up. */
  function Round(x: real): (r: int)
    ensures x - 0.5 < r as real <= x + 0.5
  {
    (x + 0.5).Floor
  }

  /** What the tracker shows beside its four figures. */
  datatype View = View(
    streakBadge: Option<Tier>,
    studyTime: string,
    averageScore: int,
    reviewBanner: Option<string>,
    continueBanner: Option<string>)

  /** The tracker for these statistics and this many due reviews. */
  function Render(stats: Stats, dueCount: nat): (v: View)
    ensures v.streakBadge.Some? <==> stats.currentStreak > 0
    ensures v.streakBadge.Some? ==> v.streakBadge.value == StreakTier(stats.currentStreak)
    ensures v.reviewBanner.Some? <==> dueCount > 0
    ensures v.continueBanner.Some? <==> stats.articlesInProgress > 0
    ensures v.studyTime == FormatTime(stats.totalTimeSpent)
    ensures 0.0 <= stats.averageQuizScore <= 100.0 ==> 0 <= v.averageScore <= 100
  {
    View(
      if stats.currentStreak > 0 then Some(StreakTier(stats.currentStreak)) else None,
      FormatTime(stats.totalTimeSpent),
      Round(stats.averageQuizScore),
      if dueCount > 0 then Some("You have " + IntString(dueCount) + " " + ArticleNoun(dueCount) + " due for review.") else None,
      if stats.articlesInProgress > 0 then Some(IntString(stats.articlesInProgress) + " " + ArticleNoun(stats.articlesInProgress) + " in progress") else None)
  }

  /** One due review reads "1 article"; two read "2 articles". */
  lemma ReviewBannerPlural()
    ensures ArticleNoun(1) == "article" && ArticleNoun(2) == "articles"
  {
  }
}
