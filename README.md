# Quiz session model

A Dafny model of the quiz-taking view of a browser quiz application
(`components/QuizClient.tsx`). The view loads one quiz document, flattens
its sections into a single ordered list of questions, and then runs a small
state machine over the component's React state: the current question index,
the selected answer, the history of submitted answers, the "submitted" and
"show results" flags, and the score. At the end it shows the score as a
rounded percentage with one of four feedback messages.

The model has five modules:

- `QuizData`: the values: `Answer` (an option index or a boolean, so that
  datatype equality is the source's strict `===`), `Question`, `Section`,
  `Quiz`, the flattened entry `FlatQuestion` and the history entry
  `AnsweredRecord`. `Option` marks "no selection", so index 0 and `false` stay
  real selections.
- `Flattening`: `Flatten`, the specification of the flattened list, and
  `FlattenQuestions`, the nested loops of the load effect, proved to build
  exactly that list. Lemmas give the position of every question and the
  origin of every entry, and prove that order is kept.
- `Scoring`: the percentage as exact round-half-up integer arithmetic, and
  the tier chosen by the thresholds 90, 75 and 60.
- `QuizSession`: class `Session`. Its fields mirror the component's state,
  and each event handler is a method. `Valid()` is the session invariant: the
  question list is the flattened quiz; the history has one entry per question
  before the current one, plus one once the current one is submitted; every entry
  answers the question at its own position; and the score is the number of
  correct entries. `CurrentScreen()` is the screen the component renders.
- `Scenarios`: whole runs driven through the handlers in the order the
  buttons allow. They are checked against `MatchCount`, a reference score
  defined without the session. The scenarios are: a run with any answers,
  a perfect run, two true/false questions answered true/true, a restart
  followed by a second run, a failed load and an empty quiz.

Two guards live in the rendered buttons, not in the handlers. The confirm
button is rendered only while the current question is not yet submitted.
The next/results button is rendered only once it is. The model states these
as preconditions of `SubmitAnswer` and `NextQuestion`, and both also require
the question screen. The guards the handlers do have are modelled as
branches: selecting after submission is ignored, and submitting with no
selection is ignored.

## Model

| member | source | states |
|---|---|---|
| `Flattening.Flatten` | components/QuizClient.tsx:80-91 | the flattened list has exactly as many entries as all sections have questions |
| `Flattening.FlattenQuestions` | components/QuizClient.tsx:80-91 | the nested section/question loops push exactly the flattened list |
| `Flattening.FlattenAt` | components/QuizClient.tsx:82-89 | question j of section i is at position (questions of sections before i) + j and carries its own section's name and difficulty |
| `Flattening.FlattenOrigin` | components/QuizClient.tsx:82-89 | every entry of the list is some section's question at that position; with FlattenAt the positions are in one-to-one correspondence with (section, question) pairs |
| `Flattening.PrefixCountGrows` | components/QuizClient.tsx:82-89 | the questions before a later section include every question of an earlier section |
| `Flattening.FlattenOrder` | components/QuizClient.tsx:82-89 | section order, then question order within a section, is kept in the list |
| `Scoring.Percentage` | components/QuizClient.tsx:154-156 | NaN (None) exactly for zero questions; otherwise the nearest integer to 100·score/total, a half rounding up; within 0..100 when score ≤ total |
| `Scoring.RoundingBounds` | components/QuizClient.tsx:154-156 | the integer quotient (200·score + total) div (2·total) is within half a unit of 100·score/total, and between 0 and 100 when score ≤ total |
| `Scoring.TierFor` | components/QuizClient.tsx:158-164 | top tier iff the percentage is ≥ 90, second or better iff ≥ 75, third or better iff ≥ 60; NaN gives the lowest |
| `Scoring.PercentageMonotone` | components/QuizClient.tsx:154-156 | more correct answers never give a smaller percentage |
| `Scoring.TierMonotone` | components/QuizClient.tsx:158-164 | a higher percentage never gives a lower tier |
| `Scoring.TierMonotoneInScore` | components/QuizClient.tsx:154-164 | more correct answers never give a lower message tier |
| `Scoring.PercentageEnds` | components/QuizClient.tsx:154-164 | no correct answer gives 0% and the lowest tier; all correct gives 100% and the top tier |
| `QuizSession.CorrectCountAppend` | components/QuizClient.tsx:119-127 | appending one record adds one to the correct count exactly when the record is correct, which is what the submit handler does to the score |
| `QuizSession.CorrectCountBound` | components/QuizClient.tsx:119-127 | the correct count never exceeds the number of records |
| `QuizSession.Session.constructor` | components/QuizClient.tsx:32-41 | the initial state: loading, no error, no quiz, no questions, index 0, no selection, empty history, score 0; it satisfies the session invariant |
| `QuizSession.Session.CurrentScreen` | components/QuizClient.tsx:166-195 | the loading screen exactly while loading; once loaded, the error screen whenever there is an error message, no quiz or no question; with a quiz, no error and at least one question, the results screen exactly when the results flag is set and the question screen exactly when it is not |
| `QuizSession.Session.CurrentQuestion` | components/QuizClient.tsx:105-106 | the current question exists exactly when the index is inside the list, and is then the entry at the current index |
| `QuizSession.Session.IsTrueFalse` | components/QuizClient.tsx:107 | on the question screen: true exactly when the current question has no options list |
| `QuizSession.Session.RunLoadEffect` | components/QuizClient.tsx:65-103 | no change for an empty quiz id; on success the quiz is kept and the question list is its flattening; on failure the message is kept and there are no questions; the error screen follows exactly on failure or an empty list, otherwise the question screen |
| `QuizSession.Session.SelectAnswer` | components/QuizClient.tsx:109-112 | after submission nothing changes; before it the selection becomes the choice (overwriting any earlier one); no other field changes |
| `QuizSession.Session.SubmitAnswer` | components/QuizClient.tsx:114-133 | with no selection nothing changes; otherwise exactly one record {current question id, selection, correct iff selection strictly equals the correct answer} is appended, the score rises by one iff correct, the question becomes submitted, the index stays; the invariant is kept |
| `QuizSession.Session.NextQuestion` | components/QuizClient.tsx:135-143 | before the last question: index + 1, selection cleared, not submitted, score and history untouched; on the last: only the results flag is set; the index stays inside the list; the invariant is kept |
| `QuizSession.Session.Restart` | components/QuizClient.tsx:145-152 | index 0, no selection, empty history, no results, not submitted, score 0; quiz and questions untouched (no refetch); from the results screen it returns to the question screen |
| `QuizSession.Session.ScorePercentage` | components/QuizClient.tsx:154-156 | NaN (None) exactly without questions; otherwise the score over the question count rounded to the nearest integer, a half rounding up, and within 0..100 while the score does not exceed the count |
| `QuizSession.Session.ScoreMessage` | components/QuizClient.tsx:158-164 | "ممتاز! 🎉" exactly from 90 percent, "جيد جداً! 👏" exactly from 75 to 89, "جيد! 👍" exactly from 60 to 74, and "يحتاج إلى مزيد من المراجعة 📚" exactly below 60 percent or when the percentage is NaN |
| `QuizSession.ResultsInRange` | components/QuizClient.tsx:195-208 | on the results screen the history covers every question, the score is its correct count and at most the total, and the percentage is between 0 and 100 |
| `Scenarios.CorrectAnswers` | components/QuizClient.tsx:117 | one answer per question, and answering with them scores every question: each is strictly equal to its question's correct answer |
| `Scenarios.AllCorrectMatchesAll` | components/QuizClient.tsx:117 | answers all equal to the correct ones match every question |
| `Scenarios.AnswerThenAdvance` | components/QuizClient.tsx:109-143 | select, submit, next: the score rises by one iff the choice is correct; the session moves to the next question or to the results |
| `Scenarios.AnswerAll` | components/QuizClient.tsx:109-143 | answering every question in turn ends on the results screen with the score equal to the number of answers strictly equal to the correct ones |
| `Scenarios.TakeQuiz` | components/QuizClient.tsx:65-164 | a whole run: score = number of correct answers, percentage = its rounding and within 0..100, tier = its tier |
| `Scenarios.PerfectRun` | components/QuizClient.tsx:114-164 | every question answered correctly gives full marks, 100% and the top tier |
| `Scenarios.TrueFalseRun` | components/QuizClient.tsx:114-164 | two true/false questions (answers true, false) answered true, true give score 1, 50% and the lowest tier |
| `Scenarios.RestartRun` | components/QuizClient.tsx:145-152 | restart zeroes the score, and the same answers afterwards give the same score as before |
| `Scenarios.FailedLoadRun` | components/QuizClient.tsx:73-97 | a failed fetch ends on the error screen |
| `Scenarios.NoQuestionsFlattenToNothing` | components/QuizClient.tsx:80-91 | sections without questions flatten to an empty list |
| `Scenarios.EmptyQuizRun` | components/QuizClient.tsx:177 | a quiz with no question ends on the error screen |

## Left out

- Audio: the preload effect, `playSound` and the sound toggle (lines 44-63, 130, 258). They are browser side effects, their failures are swallowed, and they never touch the session state.
- The fetch and JSON parsing (lines 66-77). `RunLoadEffect` takes their outcome as a parameter: a parsed quiz, or the message of the error raised. A thrown value that is not an `Error` (message replaced by a fixed text) is covered only as some message. A document that parses but is malformed is not modelled, because `Quiz` is well-typed by construction.
- RunLoadEffect: the effect runs as one step, so the intermediate state (loading again, error cleared, fetch pending) is not a separate state. A re-run of the effect for a changed quiz id is not modelled; the quiz id is fixed per session.
- SubmitAnswer: the precondition `!isAnswered` comes from the rendering (the confirm button exists only then). A second submit without advancing is therefore not modelled.
- NextQuestion: the precondition `isAnswered` comes from the rendering (the next/results button exists only then). Advancing before submission is not modelled.
- Percentage: computed on exact rationals. The source computes `score / total * 100` in floating point. There, a value that is exactly a half in rationals can land just below it and round down.
- Answer indices are natural numbers. Non-integer or negative numbers in a document's `correctAnswer` are not modelled; they can never equal a selection anyway.
- All JSX rendering, Tailwind classes, per-option colouring and the progress-bar width (lines 166-400). The results list finds each question's record with `userAnswers.find` by question id (line 213). That is display only. If two sections reuse an id, it shows the first record with that id, which this model does not capture.
- `app/page.tsx` and the route pages. They fetch and render course lists and pass the quiz id to the view; the only computation is a display sum.
