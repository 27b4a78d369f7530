/**
 * The difficulty assessment: questions answered one after another, then a
 * recommended level from the number and the difficulty of the correct
 * answers. The 0.7 threshold is the exact rational `10·correct >= 7·n`.
 */
module DifficultyAssessment {
  import opened Wrappers
  import opened Articles

  datatype AssessmentQuestion = AssessmentQuestion(
    id: string,
    question: string,
    options: seq<string>,
    correctAnswer: int,
    difficulty: Difficulty)

  /** Question `idx` has a recorded answer equal to its correct option. */
  predicate IsCorrect(questions: seq<AssessmentQuestion>, answers: map<nat, int>, idx: nat)
    requires idx < |questions|
  {
    idx in answers && answers[idx] == questions[idx].correctAnswer
  }

  /** A difficulty filter: `None` admits every question. */
  predicate Admits(level: Option<Difficulty>, d: Difficulty) {
    level.None? || level.value == d
  }

  /** The correct answers among the first `n` questions whose difficulty the filter admits. */
  function CorrectAmong(questions: seq<AssessmentQuestion>, answers: map<nat, int>, n: nat, level: Option<Difficulty>): (c: nat)
    requires n <= |questions|
    ensures c <= n
  {
    if n == 0 then 0
    else
      CorrectAmong(questions, answers, n - 1, level)
      + (if IsCorrect(questions, answers, n - 1) && Admits(level, questions[n - 1].difficulty) then 1 else 0)
  }

  /** No answer is counted exactly when none of the first `n` admitted questions was answered correctly. */
  lemma {:induction false} CorrectAmongZero(questions: seq<AssessmentQuestion>, answers: map<nat, int>, n: nat, level: Option<Difficulty>)
    requires n <= |questions|
    ensures CorrectAmong(questions, answers, n, level) == 0 <==>
      forall i :: 0 <= i < n ==> !(IsCorrect(questions, answers, i) && Admits(level, questions[i].difficulty))
  {
    if n > 0 {
      CorrectAmongZero(questions, answers, n - 1, level);
    }
  }

  /** The four counters of `calculateLevel`. */
  datatype Tally = Tally(correct: nat, beginner: nat, intermediate: nat, advanced: nat)

  /** The counters over all questions. */
  function TallyOf(questions: seq<AssessmentQuestion>, answers: map<nat, int>): (t: Tally)
    ensures t.correct == t.beginner + t.intermediate + t.advanced
    ensures t.correct <= |questions|
  {
    var n := |questions|;
    CorrectSplits(questions, answers, n);
    Tally(
      CorrectAmong(questions, answers, n, None),
      CorrectAmong(questions, answers, n, Some(Beginner)),
      CorrectAmong(questions, answers, n, Some(Intermediate)),
      CorrectAmong(questions, answers, n, Some(Advanced)))
  }

  /** Every correct answer is counted under exactly one difficulty. */
  lemma {:induction false} CorrectSplits(questions: seq<AssessmentQuestion>, answers: map<nat, int>, n: nat)
    requires n <= |questions|
    ensures CorrectAmong(questions, answers, n, None) ==
      CorrectAmong(questions, answers, n, Some(Beginner))
      + CorrectAmong(questions, answers, n, Some(Intermediate))
      + CorrectAmong(questions, answers, n, Some(Advanced))
  {
    if n > 0 {
      CorrectSplits(questions, answers, n - 1);
      match questions[n - 1].difficulty
      case Beginner =>
        assert Admits(Some(Beginner), questions[n - 1].difficulty) && !Admits(Some(Intermediate), questions[n - 1].difficulty)
          && !Admits(Some(Advanced), questions[n - 1].difficulty);
      case Intermediate =>
        assert !Admits(Some(Beginner), questions[n - 1].difficulty) && Admits(Some(Intermediate), questions[n - 1].difficulty)
          && !Admits(Some(Advanced), questions[n - 1].difficulty);
      case Advanced =>
        assert !Admits(Some(Beginner), questions[n - 1].difficulty) && !Admits(Some(Intermediate), questions[n - 1].difficulty)
          && Admits(Some(Advanced), questions[n - 1].difficulty);
    }
  }

  /** The threshold: at least 70% of the questions answered correctly. */
  predicate MeetsThreshold(correct: nat, total: nat) {
    10 * correct >= 7 * total
  }

  /** The level `calculateLevel` recommends for these answers. */
  function LevelFor(questions: seq<AssessmentQuestion>, answers: map<nat, int>): Difficulty {
    var t := TallyOf(questions, answers);
    if MeetsThreshold(t.correct, |questions|) then
      if t.advanced >= 1 then Advanced
      else if t.intermediate >= 1 then Intermediate
      else Beginner
    else Beginner
  }

  /** Some question of difficulty `d` was answered correctly. */
  ghost predicate SomeCorrectOf(questions: seq<AssessmentQuestion>, answers: map<nat, int>, d: Difficulty) {
    exists i :: 0 <= i < |questions| && IsCorrect(questions, answers, i) && questions[i].difficulty == d
  }

  /** Below the threshold the level is always beginner. */
  lemma BelowThresholdIsBeginner(questions: seq<AssessmentQuestion>, answers: map<nat, int>)
    requires !MeetsThreshold(TallyOf(questions, answers).correct, |questions|)
    ensures LevelFor(questions, answers) == Beginner
  {
  }

  /**
   * At or above the threshold: advanced exactly when an advanced question was
   * right, otherwise intermediate exactly when an intermediate one was.
   */
  lemma LevelAtThreshold(questions: seq<AssessmentQuestion>, answers: map<nat, int>)
    requires MeetsThreshold(TallyOf(questions, answers).correct, |questions|)
    ensures LevelFor(questions, answers) == Advanced <==> SomeCorrectOf(questions, answers, Advanced)
    ensures LevelFor(questions, answers) == Intermediate <==>
      !SomeCorrectOf(questions, answers, Advanced) && SomeCorrectOf(questions, answers, Intermediate)
    ensures LevelFor(questions, answers) == Beginner <==>
      !SomeCorrectOf(questions, answers, Advanced) && !SomeCorrectOf(questions, answers, Intermediate)
  {
    var n := |questions|;
    CorrectAmongZero(questions, answers, n, Some(Advanced));
    CorrectAmongZero(questions, answers, n, Some(Intermediate));
    assert CorrectAmong(questions, answers, n, Some(Advanced)) == 0 <==> !SomeCorrectOf(questions, answers, Advanced);
    assert CorrectAmong(questions, answers, n, Some(Intermediate)) == 0 <==> !SomeCorrectOf(questions, answers, Intermediate);
  }

  /** The level is advanced only when some advanced question was answered correctly. */
  lemma AdvancedNeedsAdvancedAnswer(questions: seq<AssessmentQuestion>, answers: map<nat, int>)
    requires LevelFor(questions, answers) == Advanced
    ensures SomeCorrectOf(questions, answers, Advanced)
  {
    LevelAtThreshold(questions, answers);
  }

  /** The `forEach` loop of `calculateLevel`, incrementing its four counters. */
  method CountCorrect(questions: seq<AssessmentQuestion>, answers: map<nat, int>) returns (t: Tally)
    ensures t == TallyOf(questions, answers)
  {
    var correctCount, beginnerCorrect, intermediateCorrect, advancedCorrect := 0, 0, 0, 0;
    var idx := 0;
    while idx < |questions|
      invariant 0 <= idx <= |questions|
      invariant correctCount == CorrectAmong(questions, answers, idx, None)
      invariant beginnerCorrect == CorrectAmong(questions, answers, idx, Some(Beginner))
      invariant intermediateCorrect == CorrectAmong(questions, answers, idx, Some(Intermediate))
      invariant advancedCorrect == CorrectAmong(questions, answers, idx, Some(Advanced))
    {
      var q := questions[idx];
      if idx in answers && answers[idx] == q.correctAnswer {
        correctCount := correctCount + 1;
        if q.difficulty == Beginner {
          beginnerCorrect := beginnerCorrect + 1;
        } else if q.difficulty == Intermediate {
          intermediateCorrect := intermediateCorrect + 1;
        } else {
          advancedCorrect := advancedCorrect + 1;
        }
      }
      idx := idx + 1;
    }
    t := Tally(correctCount, beginnerCorrect, intermediateCorrect, advancedCorrect);
  }

  class AssessmentState {
    const questions: seq<AssessmentQuestion>
    var currentQuestion: nat
    var answers: map<nat, int>
    var showResult: bool
    var recommendedLevel: Difficulty

    ghost predicate Valid()
      reads this
    {
      currentQuestion < |questions|
    }

    /** An assessment over a non-empty list of questions (the component reads the current one at once). */
    constructor (questions: seq<AssessmentQuestion>)
      requires |questions| > 0
      ensures this.questions == questions
      ensures currentQuestion == 0 && answers == map[] && !showResult && recommendedLevel == Beginner
      ensures Valid()
    {
      this.questions := questions;
      currentQuestion := 0;
      answers := map[];
      showResult := false;
      recommendedLevel := Beginner;
    }

    /** `calculateLevel(userAnswers)`: the recommendation is set and the result shown. */
    method CalculateLevel(userAnswers: map<nat, int>)
      modifies this
      ensures recommendedLevel == LevelFor(questions, userAnswers) && showResult
      ensures currentQuestion == old(currentQuestion) && answers == old(answers)
    {
      var t := CountCorrect(questions, userAnswers);
      if 10 * t.correct >= 7 * |questions| {
        if t.advanced >= 1 {
          recommendedLevel := Advanced;
        } else if t.intermediate >= 1 {
          recommendedLevel := Intermediate;
        } else {
          recommendedLevel := Beginner;
        }
      } else {
        recommendedLevel := Beginner;
      }
      showResult := true;
    }

    /**
     * `handleAnswer(answerIndex)`: the answer is recorded; on the last
     * question the level is computed from the answers including it, otherwise
     * the next question follows (the 300 ms delay collapsed).
     */
    method HandleAnswer(answerIndex: int)
      requires Valid()
      modifies this
      ensures answers == old(answers)[old(currentQuestion) := answerIndex]
      ensures old(currentQuestion) == |questions| - 1 ==>
        currentQuestion == old(currentQuestion) && showResult && recommendedLevel == LevelFor(questions, answers)
      ensures old(currentQuestion) < |questions| - 1 ==>
        currentQuestion == old(currentQuestion) + 1 && showResult == old(showResult)
        && recommendedLevel == old(recommendedLevel)
      ensures Valid()
    {
      var newAnswers := answers[currentQuestion := answerIndex];
      answers := newAnswers;
      if currentQuestion == |questions| - 1 {
        CalculateLevel(newAnswers);
      } else {
        currentQuestion := currentQuestion + 1;
      }
    }

    /** `handleContinue()`: the level passed to the completion callback. */
    method HandleContinue() returns (level: Difficulty)
      ensures level == recommendedLevel
    {
      level := recommendedLevel;
    }

    /** `handleSkip()`: the completion callback always receives beginner. */
    method HandleSkip() returns (level: Difficulty)
      ensures level == Beginner
    {
      level := Beginner;
    }
  }
}
