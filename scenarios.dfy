/** Whole runs of the quiz view, driven through the session's handlers in
    the order its buttons allow: load, then for each question select,
    submit and move on, then read the results screen. */
module Scenarios {
  import opened QuizData
  import opened Flattening
  import opened Scoring
  import opened QuizSession

  /** The score a run should end with, stated without the session: how many
      of the first |answers| questions got an answer strictly equal to their
      correct one. */
  function MatchCount(questions: seq<FlatQuestion>, answers: seq<Answer>): nat
    requires |answers| <= |questions|
  {
    if answers == [] then 0
    else
      var n := |answers| - 1;
      MatchCount(questions, answers[..n]) + (if answers[n] == questions[n].question.correctAnswer then 1 else 0)
  }

  /** Each question's own correct answer, in order: answering with these
      scores every question. */
  function CorrectAnswers(questions: seq<FlatQuestion>): (answers: seq<Answer>)
    ensures |answers| == |questions|
    ensures MatchCount(questions, answers) == |questions|
  {
    var answers := seq(|questions|, k requires 0 <= k < |questions| => questions[k].question.correctAnswer);
    AllCorrectMatchesAll(questions, answers);
    answers
  }

  /** Answering every question correctly scores every question. */
  lemma {:induction false} AllCorrectMatchesAll(questions: seq<FlatQuestion>, answers: seq<Answer>)
    requires |answers| <= |questions|
    requires forall k :: 0 <= k < |answers| ==> answers[k] == questions[k].question.correctAnswer
    ensures MatchCount(questions, answers) == |answers|
  {
    if answers != [] {
      AllCorrectMatchesAll(questions, answers[..|answers| - 1]);
    }
  }

  /** Selects `choice` for the current question, submits it and presses
      the next/results button. */
  method AnswerThenAdvance(s: Session, choice: Answer)
    requires s.Valid() && s.CurrentScreen() == QuestionScreen && !s.isAnswered
    modifies s
    ensures s.Valid()
    ensures s.loading == old(s.loading) && s.error == old(s.error) && s.quiz == old(s.quiz)
    ensures s.allQuestions == old(s.allQuestions)
    ensures s.score == old(s.score)
                       + (if choice == s.allQuestions[old(s.currentQuestionIndex)].question.correctAnswer then 1 else 0)
    ensures old(s.currentQuestionIndex) < |s.allQuestions| - 1 ==>
      s.currentQuestionIndex == old(s.currentQuestionIndex) + 1 && !s.isAnswered && s.CurrentScreen() == QuestionScreen
    ensures old(s.currentQuestionIndex) >= |s.allQuestions| - 1 ==> s.CurrentScreen() == ResultsScreen
  {
    s.SelectAnswer(choice);
    assert s.CurrentScreen() == QuestionScreen && s.selectedAnswer == Some(choice);
    s.SubmitAnswer();
    assert s.CurrentScreen() == QuestionScreen && s.isAnswered;
    s.NextQuestion();
  }

  /** Answers every question of a freshly started session in turn, ending
      on the results screen with the reference score. */
  method AnswerAll(s: Session, answers: seq<Answer>)
    requires s.Valid() && s.CurrentScreen() == QuestionScreen && s.NothingAnswered()
    requires |answers| == |s.allQuestions|
    modifies s
    ensures s.Valid() && s.CurrentScreen() == ResultsScreen
    ensures s.loading == old(s.loading) && s.error == old(s.error) && s.quiz == old(s.quiz)
    ensures s.allQuestions == old(s.allQuestions)
    ensures s.score == MatchCount(s.allQuestions, answers)
  {
    var i := 0;
    while i < |answers|
      invariant 0 <= i <= |answers|
      invariant s.Valid()
      invariant s.loading == old(s.loading) && s.error == old(s.error) && s.quiz == old(s.quiz)
      invariant s.allQuestions == old(s.allQuestions)
      invariant i < |answers| ==> s.currentQuestionIndex == i && !s.isAnswered && s.CurrentScreen() == QuestionScreen
      invariant i == |answers| ==> s.CurrentScreen() == ResultsScreen
      invariant s.score == MatchCount(s.allQuestions, answers[..i])
    {
      AnswerThenAdvance(s, answers[i]);
      assert answers[..i + 1][..i] == answers[..i];
      i := i + 1;
    }
    assert answers[..i] == answers;
  }

  /** Loads `quiz` and answers its questions with `answers`, in order. The
      results screen shows the number of answers strictly equal to their
      question's correct answer, its rounded percentage and the tier of that
      percentage. */
  method TakeQuiz(quiz: Quiz, answers: seq<Answer>) returns (score: nat, percentage: Option<int>, tier: Tier)
    requires 0 < |answers| == |Flatten(quiz.sections)|
    ensures score == MatchCount(Flatten(quiz.sections), answers) <= |answers|
    ensures percentage == Percentage(score, |answers|) && percentage.Some?
    ensures 0 <= percentage.value <= 100
    ensures tier == TierFor(percentage)
  {
    var s := new Session("quiz");
    s.RunLoadEffect(Fetched(quiz));
    AnswerAll(s, answers);
    ResultsInRange(s);
    score, percentage := s.score, s.ScorePercentage();
    tier := TierFor(percentage);
  }

  /** Every question answered correctly: full marks, 100 percent, the top
      tier. */
  method PerfectRun(quiz: Quiz) returns (score: nat, percentage: Option<int>, tier: Tier)
    requires 0 < QuestionCount(quiz.sections)
    ensures score == QuestionCount(quiz.sections) && percentage == Some(100) && tier == Excellent
  {
    var questions := Flatten(quiz.sections);
    score, percentage, tier := TakeQuiz(quiz, CorrectAnswers(questions));
    PercentageEnds(score);
  }

  /** A section of two true/false questions whose answers are true and
      false, both answered true: one point out of two, 50 percent, the lowest
      tier. */
  method TrueFalseRun(section: Section) returns (score: nat, percentage: Option<int>, tier: Tier)
    requires |section.questions| == 2
    requires section.questions[0].options == None && section.questions[0].correctAnswer == TF(true)
    requires section.questions[1].options == None && section.questions[1].correctAnswer == TF(false)
    ensures score == 1 && percentage == Some(50) && tier == NeedsReview
  {
    var sections := [section];
    assert sections[..0] == [];
    FlattenAt(sections, 0, 0);
    FlattenAt(sections, 0, 1);
    var questions, answers := Flatten(sections), [TF(true), TF(true)];
    assert questions[0].question.correctAnswer == TF(true) && questions[1].question.correctAnswer == TF(false);
    assert answers[..1] == [TF(true)] && answers[..1][..0] == [];
    assert MatchCount(questions, answers[..1]) == 1;
    assert Percentage(1, 2) == Some(50);
    score, percentage, tier := TakeQuiz(Quiz("true or false", sections), answers);
  }

  /** Restarting from the results screen zeroes the score and the history,
      keeps the same questions and shows the first question again; the same
      answers then give the same score. */
  method RestartRun(quiz: Quiz, answers: seq<Answer>) returns (first: nat, restarted: nat, second: nat)
    requires 0 < |answers| == |Flatten(quiz.sections)|
    ensures first == second == MatchCount(Flatten(quiz.sections), answers)
    ensures restarted == 0
  {
    var s := new Session("quiz");
    s.RunLoadEffect(Fetched(quiz));
    AnswerAll(s, answers);
    first := s.score;
    s.Restart();
    restarted := s.score;
    AnswerAll(s, answers);
    second := s.score;
  }

  /** A failed fetch ends on the error screen, with the question screen
      never reached. */
  method FailedLoadRun(message: string) returns (screen: Screen)
    ensures screen == ErrorScreen
  {
    var s := new Session("missing");
    s.RunLoadEffect(FetchFailed(message));
    screen := s.CurrentScreen();
  }

  /** A quiz whose sections hold no question also ends on the error screen. */
  method EmptyQuizRun(sections: seq<Section>) returns (screen: Screen)
    requires forall i :: 0 <= i < |sections| ==> sections[i].questions == []
    ensures screen == ErrorScreen
  {
    var s := new Session("empty");
    s.RunLoadEffect(Fetched(Quiz("empty", sections)));
    NoQuestionsFlattenToNothing(sections);
    screen := s.CurrentScreen();
  }

  lemma {:induction false} NoQuestionsFlattenToNothing(sections: seq<Section>)
    requires forall i :: 0 <= i < |sections| ==> sections[i].questions == []
    ensures Flatten(sections) == []
  {
    if sections != [] {
      NoQuestionsFlattenToNothing(sections[..|sections| - 1]);
    }
  }
}
