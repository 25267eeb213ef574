/** The quiz-taking view's session: the React state of the component as
    fields of one object, each event handler as a method that updates them,
    and the screen the component renders as a function of them. */
module QuizSession {
  import opened QuizData
  import opened Flattening
  import opened Scoring

  /** What the fetch of the quiz document resolved to: the parsed quiz, or
      the message of the error it raised. */
  datatype FetchOutcome = Fetched(data: Quiz) | FetchFailed(message: string)

  /** The four screens the component renders, checked in this order. */
  datatype Screen = LoadingScreen | ErrorScreen | ResultsScreen | QuestionScreen

  /** The number of correct entries in a history. */
  function CorrectCount(records: seq<AnsweredRecord>): nat {
    if records == [] then 0
    else (if records[0].isCorrect then 1 else 0) + CorrectCount(records[1..])
  }

  /** Appending one record adds one to the count exactly when it is correct. */
  lemma {:induction false} CorrectCountAppend(records: seq<AnsweredRecord>, r: AnsweredRecord)
    ensures CorrectCount(records + [r]) == CorrectCount(records) + (if r.isCorrect then 1 else 0)
  {
    if records != [] {
      assert (records + [r])[1..] == records[1..] + [r];
      CorrectCountAppend(records[1..], r);
    }
  }

  /** No history has more correct entries than entries. */
  lemma {:induction false} CorrectCountBound(records: seq<AnsweredRecord>)
    ensures CorrectCount(records) <= |records|
  {
    if records != [] {
      CorrectCountBound(records[1..]);
    }
  }

  /** Record `r` answers question `q`: it carries q's id, and it is marked
      correct exactly when its answer strictly equals q's correct answer. */
  ghost predicate Answers(r: AnsweredRecord, q: FlatQuestion) {
    r.questionId == q.question.id && (r.isCorrect <==> r.selectedAnswer == q.question.correctAnswer)
  }

  /** A JavaScript string or null as a condition: null and "" are false. */
  predicate Truthy(s: Option<string>) {
    s.Some? && s.value != ""
  }

  class Session {
    const quizId: string
    var loading: bool
    var error: Option<string>
    var quiz: Option<Quiz>
    var allQuestions: seq<FlatQuestion>
    var currentQuestionIndex: nat
    var selectedAnswer: Option<Answer>
    var userAnswers: seq<AnsweredRecord>
    var showResult: bool
    var isAnswered: bool
    var score: nat

    /** No question has been reached past the first or submitted. */
    ghost predicate NothingAnswered()
      reads this
    {
      && currentQuestionIndex == 0
      && userAnswers == []
      && !showResult
      && !isAnswered
      && score == 0
    }

    /** The progress fields hold the values the component starts with and
        that a restart puts back. */
    ghost predicate AtStart()
      reads this
    {
      NothingAnswered() && selectedAnswer == None
    }

    /** The session invariant. The question list is the flattened quiz; the
        history has one entry per question up to the current one (the current
        one included once it is submitted), each entry answers the question at
        its own position, and the score is the number of correct entries. */
    ghost predicate Valid()
      reads this
    {
      && (loading ==> NothingAnswered() && quiz == None && error == None)
      && allQuestions == (if quiz.Some? then Flatten(quiz.value.sections) else [])
      && (currentQuestionIndex < |allQuestions| || (currentQuestionIndex == 0 && !isAnswered))
      && |userAnswers| == currentQuestionIndex + (if isAnswered then 1 else 0)
      && (forall k :: 0 <= k < |userAnswers| ==> Answers(userAnswers[k], allQuestions[k]))
      && score == CorrectCount(userAnswers)
      && (isAnswered ==> selectedAnswer == Some(userAnswers[|userAnswers| - 1].selectedAnswer))
      && (showResult ==> isAnswered && currentQuestionIndex == |allQuestions| - 1)
    }

    /** The component as first rendered for quiz `quizId`: loading, no quiz,
        no questions, nothing answered. */
    constructor (quizId: string)
      ensures Valid() && AtStart()
      ensures this.quizId == quizId && loading && error == None && quiz == None && allQuestions == []
    {
      this.quizId := quizId;
      loading := true;
      error := None;
      quiz := None;
      allQuestions := [];
      currentQuestionIndex := 0;
      selectedAnswer := None;
      userAnswers := [];
      showResult := false;
      isAnswered := false;
      score := 0;
    }

    /** The screen rendered: loading first, then the error screen when there
        is an error message, no quiz or no question, then the results, else
        the current question. */
    function CurrentScreen(): (screen: Screen)
      reads this
      ensures loading <==> screen == LoadingScreen
      ensures !loading && (Truthy(error) || quiz.None? || allQuestions == []) ==> screen == ErrorScreen
      ensures !loading && !Truthy(error) && quiz.Some? && 0 < |allQuestions| ==>
        && (screen == ResultsScreen <==> showResult)
        && (screen == QuestionScreen <==> !showResult)
      ensures screen == QuestionScreen ==> !loading && !showResult && 0 < |allQuestions|
      ensures screen == ResultsScreen ==> !loading && showResult && 0 < |allQuestions|
    {
      if loading then LoadingScreen
      else if Truthy(error) || quiz.None? || |allQuestions| == 0 then ErrorScreen
      else if showResult then ResultsScreen
      else QuestionScreen
    }

    /** The question at the current index, if there is one. */
    function CurrentQuestion(): (q: Option<FlatQuestion>)
      reads this
      ensures q.Some? <==> currentQuestionIndex < |allQuestions|
      ensures q.Some? ==> q.value == allQuestions[currentQuestionIndex]
    {
      if currentQuestionIndex < |allQuestions| then Some(allQuestions[currentQuestionIndex]) else None
    }

    /** The current question is a true/false one: it exists and has no
        options list (an empty list still counts as options). */
    function IsTrueFalse(): (b: bool)
      reads this
      ensures b ==> CurrentQuestion().Some?
      ensures Valid() && CurrentScreen() == QuestionScreen
              ==> (b <==> allQuestions[currentQuestionIndex].question.options.None?)
    {
      var q := CurrentQuestion();
      q.Some? && q.value.question.options.None?
    }

    /** The load effect, with the fetch and its parse replaced by their
        outcome. Nothing happens for an empty quiz id. On success the quiz is
        kept and flattened; on failure the error message is kept. */
    method RunLoadEffect(outcome: FetchOutcome)
      requires Valid() && loading
      modifies this`loading, this`error, this`quiz, this`allQuestions
      ensures Valid()
      ensures quizId == "" ==> loading && error == None && quiz == None && allQuestions == []
      ensures quizId != "" && outcome.Fetched? ==>
        && !loading && error == None && quiz == Some(outcome.data)
        && allQuestions == Flatten(outcome.data.sections)
      ensures quizId != "" && outcome.FetchFailed? ==>
        !loading && error == Some(outcome.message) && quiz == None && allQuestions == []
      ensures quizId != "" ==>
        (CurrentScreen() == ErrorScreen <==> outcome.FetchFailed? || |allQuestions| == 0)
      ensures quizId != "" ==> CurrentScreen() in {ErrorScreen, QuestionScreen}
    {
      if quizId != "" {
        loading := true;
        error := None;
        match outcome
        case Fetched(data) =>
          quiz := Some(data);
          var questions := FlattenQuestions(data.sections);
          allQuestions := questions;
          loading := false;
        case FetchFailed(message) =>
          error := Some(message);
          loading := false;
      }
    }

    /** Choosing an answer. Once the current question is submitted nothing
        changes; before that the choice replaces any earlier one. */
    method SelectAnswer(choice: Answer)
      requires Valid()
      modifies this`selectedAnswer
      ensures Valid()
      ensures isAnswered ==> selectedAnswer == old(selectedAnswer)
      ensures !isAnswered ==> selectedAnswer == Some(choice)
    {
      if isAnswered {
        return;
      }
      selectedAnswer := Some(choice);
    }

    /** Submitting the selected answer. The confirm button exists only on the
        question screen and only while the question is not yet submitted,
        hence the requires; the handler itself checks only for a selection.
        Without one nothing changes; with one, exactly one record is appended,
        correct exactly when the selection strictly equals the correct answer,
        the score goes up by one exactly when it is correct, and the question
        becomes submitted. */
    method SubmitAnswer()
      requires Valid() && CurrentScreen() == QuestionScreen && !isAnswered
      modifies this`userAnswers, this`score, this`isAnswered
      ensures Valid()
      ensures old(selectedAnswer).None? ==>
        userAnswers == old(userAnswers) && score == old(score) && !isAnswered
      ensures old(selectedAnswer).Some? ==>
        var q := allQuestions[currentQuestionIndex].question;
        var correct := selectedAnswer.value == q.correctAnswer;
        && userAnswers == old(userAnswers) + [AnsweredRecord(q.id, selectedAnswer.value, correct)]
        && score == old(score) + (if correct then 1 else 0)
        && isAnswered
    {
      if selectedAnswer == None {
        return;
      }
      var current := allQuestions[currentQuestionIndex].question;
      var isCorrect := selectedAnswer.value == current.correctAnswer;
      var record := AnsweredRecord(current.id, selectedAnswer.value, isCorrect);
      CorrectCountAppend(userAnswers, record);
      userAnswers := userAnswers + [record];
      assert forall k :: 0 <= k < |userAnswers| ==> Answers(userAnswers[k], allQuestions[k]);
      if isCorrect {
        score := score + 1;
      }
      isAnswered := true;
    }

    /** Moving on. The next/results button exists only on the question
        screen and only once the question is submitted, hence the requires;
        the handler itself checks nothing. Before the last question it moves
        to the next one and clears the selection and the submitted flag; on
        the last it only switches to the results. */
    method NextQuestion()
      requires Valid() && CurrentScreen() == QuestionScreen && isAnswered
      modifies this`currentQuestionIndex, this`selectedAnswer, this`isAnswered, this`showResult
      ensures Valid()
      ensures old(currentQuestionIndex) < |allQuestions| - 1 ==>
        && currentQuestionIndex == old(currentQuestionIndex) + 1
        && selectedAnswer == None && !isAnswered && !showResult
      ensures old(currentQuestionIndex) >= |allQuestions| - 1 ==>
        && currentQuestionIndex == old(currentQuestionIndex)
        && selectedAnswer == old(selectedAnswer) && isAnswered && showResult
      ensures currentQuestionIndex < |allQuestions|
    {
      if currentQuestionIndex < |allQuestions| - 1 {
        currentQuestionIndex := currentQuestionIndex + 1;
        selectedAnswer := None;
        isAnswered := false;
      } else {
        showResult := true;
      }
    }

    /** Starting over on the same questions: the progress fields go back to
        their initial values; the quiz is not fetched again. */
    method Restart()
      requires Valid()
      modifies this`currentQuestionIndex, this`selectedAnswer, this`userAnswers,
               this`showResult, this`isAnswered, this`score
      ensures Valid() && AtStart()
      ensures old(CurrentScreen()) == ResultsScreen ==> CurrentScreen() == QuestionScreen
    {
      currentQuestionIndex := 0;
      selectedAnswer := None;
      userAnswers := [];
      showResult := false;
      isAnswered := false;
      score := 0;
    }

    /** The percentage shown on the results screen: NaN (None) without
        questions, otherwise the score over the question count rounded to the
        nearest integer, in 0..100 while the score does not exceed the count. */
    function ScorePercentage(): (p: Option<int>)
      reads this
      ensures p.Some? <==> 0 < |allQuestions|
      ensures p.Some? ==> 2 * |allQuestions| * p.value <= 200 * score + |allQuestions| < 2 * |allQuestions| * (p.value + 1)
      ensures p.Some? && score <= |allQuestions| ==> 0 <= p.value <= 100
    {
      Percentage(score, |allQuestions|)
    }

    /** The message shown on the results screen: the top message from 90
        percent, the second from 75, the third from 60, the lowest below 60
        percent or without questions. */
    function ScoreMessage(): (m: string)
      reads this
      ensures m == Message(Excellent) <==> ScorePercentage().Some? && ScorePercentage().value >= 90
      ensures m == Message(VeryGood) <==> ScorePercentage().Some? && 75 <= ScorePercentage().value < 90
      ensures m == Message(Good) <==> ScorePercentage().Some? && 60 <= ScorePercentage().value < 75
      ensures m == Message(NeedsReview) <==> ScorePercentage().None? || ScorePercentage().value < 60
    {
      Message(TierFor(ScorePercentage()))
    }
  }

  /** On the results screen the score counts the correct answers among all
      the questions, and the percentage lies between 0 and 100. */
  lemma ResultsInRange(s: Session)
    requires s.Valid() && s.CurrentScreen() == ResultsScreen
    ensures s.score == CorrectCount(s.userAnswers) <= |s.userAnswers| == |s.allQuestions|
    ensures s.ScorePercentage().Some? && 0 <= s.ScorePercentage().value <= 100
  {
    CorrectCountBound(s.userAnswers);
  }
}
