/** The Progress schema: one record per (user, course) pair holding the
    completed section ids, the quiz attempts, the stored percentage and the
    completion flag with its timestamps. */
module ProgressModel {
  import opened Results
  import opened Lists
  import opened CourseModel

  datatype Answer = Answer(questionId: string, selectedAnswer: int, isCorrect: bool)

  datatype QuizResult = QuizResult(quizId: string, score: int, passed: bool,
                                   answers: seq<Answer>, attemptedAt: Time)

  datatype ProgressRecord = ProgressRecord(
    userId: ObjectId,
    courseId: ObjectId,
    completedSections: seq<string>,
    progressPercentage: int,
    quizResults: seq<QuizResult>,
    isCompleted: bool,
    startedAt: Time,
    completedAt: Option<Time>)

  /** The compound unique index: a record is stored under its own pair. */
  type Key = (ObjectId, ObjectId)

  function KeyOf(p: ProgressRecord): Key
  {
    (p.userId, p.courseId)
  }

  /** A freshly created record: nothing done, 0%, not completed, started now
      and without a completion time. */
  function NewProgress(userId: ObjectId, courseId: ObjectId, now: Time): (p: ProgressRecord)
    ensures KeyOf(p) == (userId, courseId)
    ensures p.completedSections == [] && p.quizResults == []
    ensures p.progressPercentage == 0 && !p.isCompleted
    ensures p.startedAt == now && p.completedAt.None?
  {
    ProgressRecord(userId, courseId, [], 0, [], false, now, None)
  }

  /** No two results for the same quiz. */
  predicate OneResultPerQuiz(results: seq<QuizResult>)
  {
    forall i, j :: 0 <= i < j < |results| ==> results[i].quizId != results[j].quizId
  }

  /** What every stored record satisfies: it sits under its own key, its
      sections and quiz results have no repeats, and it carries a completion
      time exactly when it is completed. */
  predicate WellFormed(k: Key, p: ProgressRecord)
  {
    && KeyOf(p) == k
    && NoDup(p.completedSections)
    && OneResultPerQuiz(p.quizResults)
    && (p.completedAt.Some? <==> p.isCompleted)
  }

  predicate TableWellFormed(table: map<Key, ProgressRecord>)
  {
    forall k :: k in table ==> WellFormed(k, table[k])
  }

  /** A new record is well formed under its own key. */
  lemma NewProgressWellFormed(userId: ObjectId, courseId: ObjectId, now: Time)
    ensures WellFormed((userId, courseId), NewProgress(userId, courseId, now))
  {
  }
}
