/** The values the quiz view works on: questions, sections, quizzes as they
    come out of a quiz document, the flattened question entries and the
    answer records kept in the session history. All of them are immutable. */
module QuizData {

  datatype Option<T> = None | Some(value: T)

  /** A selected or correct answer: an option index for a multiple-choice
      question, a boolean for a true/false one. Datatype equality is the
      source's strict `===`: `Idx(0)` and `TF(false)` differ, and neither is
      the absence of a selection, which is `None` of an `Option<Answer>`. */
  datatype Answer = Idx(index: nat) | TF(truth: bool)

  /** A question; `options == None` marks a true/false question. */
  datatype Question = Question(
    id: int,
    text: string,
    options: Option<seq<string>>,
    correctAnswer: Answer,
    correctAnswerText: string)

  datatype Section = Section(name: string, difficulty: string, questions: seq<Question>)

  datatype Quiz = Quiz(title: string, sections: seq<Section>)

  /** An entry of the flattened question list: the question's own fields
      plus the name and difficulty of the section it came from. */
  datatype FlatQuestion = FlatQuestion(question: Question, sectionName: string, difficulty: string)

  /** One history entry, made when an answer is submitted. */
  datatype AnsweredRecord = AnsweredRecord(questionId: int, selectedAnswer: Answer, isCorrect: bool)
}
