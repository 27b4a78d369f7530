/**
 * The quiz component as a state machine over its six state fields, with the
 * final score, the pass threshold and the attempt it hands to the progress
 * manager. The delayed "show explanation" is an explicit event.
 */
module Quiz {
  import opened Wrappers
  import opened LearningProgress

  datatype QuizQuestion = QuizQuestion(id: string, question: string, options: seq<string>, correctAnswer: int, explanation: string)

  /** The pass mark, in percent. */
  const PassMark: int := 70

  /**
   * `Math.round(correct / total * 100)`, rounding halves up, on exact
   * rationals: the integer nearest to 100·correct/total.
   */
  function Score(correct: nat, total: nat): (r: int)
    requires 0 < total
    ensures total * (2 * r - 1) <= 200 * correct < total * (2 * r + 1)
  {
    (200 * correct + total) / (2 * total)
  }

  /** Multiplying by a positive factor keeps the order of its operands. */
  lemma MulLe(t: int, x: int, y: int)
    requires t > 0
    ensures t * x <= t * y <==> x <= y
  {
    assert t * y - t * x == t * (y - x);
    if x <= y {
      assert t * (y - x) >= 0;
    } else {
      assert t * (x - y) > 0;
    }
  }

  /** The score of a quiz lies in 0..100: 100 with every answer right, 0 with none right. */
  lemma ScoreBounds(correct: nat, total: nat)
    requires 0 < total && correct <= total
    ensures 0 <= Score(correct, total) <= 100
    ensures correct == total ==> Score(correct, total) == 100
    ensures correct == 0 ==> Score(correct, total) == 0
  {
    var r := Score(correct, total);
    assert total * 0 == 0;
    assert 0 <= r by {
      MulLe(total, 2 * r + 1, 0);
    }
    assert r <= 100 by {
      assert 200 * correct <= total * 200;
      MulLe(total, 2 * r - 1, 200);
    }
    if correct == total {
      assert 100 <= r by {
        assert 200 * correct == total * 200;
        MulLe(total, 2 * r + 1, 200);
      }
    }
    if correct == 0 {
      assert r <= 0 by {
        MulLe(total, 2 * r - 1, 0);
      }
    }
  }

  /** More correct answers never lower the score. */
  lemma ScoreMonotonic(c1: nat, c2: nat, total: nat)
    requires 0 < total && c1 <= c2
    ensures Score(c1, total) <= Score(c2, total)
  {
    DivMonotonic(200 * c1 + total, 200 * c2 + total, 2 * total);
  }

  lemma DivMonotonic(a: int, b: int, d: int)
    requires a <= b && 0 < d
    ensures a / d <= b / d
  {
    if a / d > b / d {
      MulLe(d, b / d + 1, a / d);
    }
  }

  /** A quiz is passed with a score of at least 70. */
  predicate Passed(score: int) {
    score >= PassMark
  }

  /** A quiz is passed exactly when at least 69.5% of its questions were answered correctly. */
  lemma PassedIff(correct: nat, total: nat)
    requires 0 < total
    ensures Passed(Score(correct, total)) <==> 200 * correct >= 139 * total
  {
    var r := Score(correct, total);
    MulLe(total, 139, 2 * r - 1);
    MulLe(total, 2 * r + 1, 139);
    assert total * 139 == 139 * total;
  }

  /** With seven of ten right the quiz is passed; with two of three (67%) it is not. */
  lemma PassExamples()
    ensures Score(7, 10) == 70 && Passed(Score(7, 10))
    ensures Score(2, 3) == 67 && !Passed(Score(2, 3))
  {
  }

  /** The keys of a recorded-answers map that are valid question indices. */
  function CorrectKeys(questions: seq<QuizQuestion>, answers: map<nat, int>): set<nat> {
    set k | k in answers && k < |questions| && questions[k].correctAnswer == answers[k]
  }

  /** The number of recorded answers equal to their question's correct answer. */
  function CorrectCount(questions: seq<QuizQuestion>, answers: map<nat, int>): (c: nat)
    ensures (forall k :: k in answers ==> k < |questions|) ==> c <= |answers| && c <= |questions|
  {
    var keys := CorrectKeys(questions, answers);
    assert keys <= answers.Keys;
    assert (forall k :: k in answers ==> k < |questions|) ==> |answers.Keys| <= |questions| by {
      if forall k :: k in answers ==> k < |questions| {
        IndicesBelow(answers.Keys, |questions|);
      }
    }
    SubsetSize(keys, answers.Keys);
    |keys|
  }

  lemma SubsetSize(a: set<nat>, b: set<nat>)
    requires a <= b
    ensures |a| <= |b|
  {
    assert |b| == |a| + |b - a|;
  }

  /** A set of indices below `n` has at most `n` elements. */
  lemma {:induction false} IndicesBelow(s: set<nat>, n: nat)
    requires forall k :: k in s ==> k < n
    ensures |s| <= n
  {
    if n > 0 {
      IndicesBelow(s - {n - 1}, n - 1);
    } else {
      assert s == {};
    }
  }

  /** The `answers` field of the saved attempt: each answered index mapped to whether it was right. */
  function AttemptAnswers(questions: seq<QuizQuestion>, answers: map<nat, int>): (r: map<nat, bool>)
    requires forall k :: k in answers ==> k < |questions|
    ensures r.Keys == answers.Keys
    ensures forall k :: k in r ==> (r[k] <==> questions[k].correctAnswer == answers[k])
  {
    map k | k in answers :: questions[k].correctAnswer == answers[k]
  }

  /** The attempt's answers marked right are exactly the ones the score counts. */
  lemma AttemptAgreesWithScore(questions: seq<QuizQuestion>, answers: map<nat, int>)
    requires forall k :: k in answers ==> k < |questions|
    ensures (set k | k in AttemptAnswers(questions, answers) && AttemptAnswers(questions, answers)[k])
         == CorrectKeys(questions, answers)
  {
  }

  class QuizState {
    const questions: seq<QuizQuestion>
    const articleSlug: string
    var currentQuestion: nat
    var selectedAnswer: Option<int>
    var showExplanation: bool
    var answers: map<nat, int>
    var isCompleted: bool
    var score: int

    /** The current question exists and every answer belongs to a question. */
    ghost predicate Valid()
      reads this
    {
      && currentQuestion < |questions|
      && forall k :: k in answers ==> k < |questions|
    }

    /** The state every field starts in. */
    ghost predicate Initial()
      reads this
    {
      && currentQuestion == 0
      && selectedAnswer == None
      && !showExplanation
      && answers == map[]
      && !isCompleted
      && score == 0
    }

    /** A quiz over a non-empty list of questions (the component reads the current question at once). */
    constructor (questions: seq<QuizQuestion>, articleSlug: string)
      requires |questions| > 0
      ensures this.questions == questions && this.articleSlug == articleSlug
      ensures Initial() && Valid()
    {
      this.questions := questions;
      this.articleSlug := articleSlug;
      currentQuestion := 0;
      selectedAnswer := None;
      showExplanation := false;
      answers := map[];
      isCompleted := false;
      score := 0;
    }

    predicate IsLastQuestion()
      reads this
    {
      currentQuestion == |questions| - 1
    }

    /** `handleAnswer(answerIndex)`: ignored while the explanation shows; otherwise records the choice. */
    method HandleAnswer(answerIndex: int)
      modifies this
      ensures old(showExplanation) ==>
        selectedAnswer == old(selectedAnswer) && answers == old(answers)
      ensures !old(showExplanation) ==>
        selectedAnswer == Some(answerIndex) && answers == old(answers)[old(currentQuestion) := answerIndex]
      ensures currentQuestion == old(currentQuestion) && showExplanation == old(showExplanation)
      ensures isCompleted == old(isCompleted) && score == old(score)
      ensures old(Valid()) ==> Valid()
    {
      if showExplanation {
        return;
      }
      selectedAnswer := Some(answerIndex);
      answers := answers[currentQuestion := answerIndex];
    }

    /** The delayed callback of `handleAnswer`, which shows the explanation. */
    method ShowExplanation()
      modifies this
      ensures showExplanation
      ensures currentQuestion == old(currentQuestion) && selectedAnswer == old(selectedAnswer)
      ensures answers == old(answers) && isCompleted == old(isCompleted) && score == old(score)
    {
      showExplanation := true;
    }

    /**
     * `handleNext()` at time `now`: on the last question the quiz is scored,
     * completed and the attempt returned for saving; otherwise the next
     * question is shown with nothing selected.
     */
    method HandleNext(now: int) returns (attempt: Option<QuizAttempt>)
      requires Valid()
      modifies this
      ensures answers == old(answers)
      ensures Valid()
      ensures old(IsLastQuestion()) ==>
        && score == Score(CorrectCount(questions, answers), |questions|)
        && isCompleted
        && attempt == Some(QuizAttempt(articleSlug, score, |questions|,
                                       AttemptAnswers(questions, answers), now, 0))
        && currentQuestion == old(currentQuestion) && selectedAnswer == old(selectedAnswer)
        && showExplanation == old(showExplanation)
      ensures !old(IsLastQuestion()) ==>
        && currentQuestion == old(currentQuestion) + 1
        && selectedAnswer == None && !showExplanation
        && attempt == None
        && isCompleted == old(isCompleted) && score == old(score)
      ensures attempt.Some? ==> 0 <= attempt.value.score <= 100
    {
      if currentQuestion == |questions| - 1 {
        var correct := CorrectCount(questions, answers);
        ScoreBounds(correct, |questions|);
        var finalScore := Score(correct, |questions|);
        score := finalScore;
        isCompleted := true;
        attempt := Some(QuizAttempt(articleSlug, finalScore, |questions|, AttemptAnswers(questions, answers), now, 0));
      } else {
        currentQuestion := currentQuestion + 1;
        selectedAnswer := None;
        showExplanation := false;
        attempt := None;
      }
    }

    /** `handleReset()`: all six fields back to their initial values. */
    method HandleReset()
      modifies this
      ensures Initial()
      ensures old(Valid()) ==> Valid()
    {
      currentQuestion := 0;
      selectedAnswer := None;
      showExplanation := false;
      answers := map[];
      isCompleted := false;
      score := 0;
    }
  }

  /** "Next" on the last question: the scored attempt is saved on the manager. */
  method FinishQuiz(quiz: QuizState, manager: Manager, now: int)
    requires quiz.Valid() && quiz.IsLastQuestion()
    modifies quiz, manager
    ensures quiz.isCompleted
    ensures quiz.score == Score(CorrectCount(quiz.questions, quiz.answers), |quiz.questions|)
    ensures 0 <= quiz.score <= 100
    ensures quiz.answers == old(quiz.answers)
    ensures quiz.articleSlug in old(manager.progress) ==>
      manager.progress == old(manager.progress)[quiz.articleSlug :=
        WithQuizScore(old(manager.progress)[quiz.articleSlug], quiz.score)]
    ensures quiz.articleSlug in old(manager.progress) ==>
      quiz.articleSlug in manager.progress &&
      manager.progress[quiz.articleSlug].quizScores == old(manager.progress[quiz.articleSlug].quizScores) + [quiz.score]
    ensures manager.session == old(manager.session) && manager.history == old(manager.history)
    ensures old(manager.Valid()) ==> manager.Valid()
    ensures quiz.articleSlug !in old(manager.progress) ==> manager.progress == old(manager.progress)
  {
    var attempt := quiz.HandleNext(now);
    manager.SaveQuizAttempt(attempt.value);
  }
}
