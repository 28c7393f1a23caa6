/** The script every generated course page ships with: the login-guarded
    calls to the progress routes, the one-question quiz score, and the
    progress display. */
module TemplateClient {
  import opened Results
  import opened Lists
  import opened ProgressModel
  import Ledger
  import Dashboard

  /** `if (!TOKEN)`: a missing or empty token is falsy. */
  predicate HasToken(token: Option<string>)
  {
    token.Some? && token.value != ""
  }

  /** The bodies the script sends. An absent quiz id is dropped by
      `JSON.stringify`, so it reaches the server as a missing field. */
  datatype Request =
    | SectionPut(courseId: string, sectionId: string)
    | QuizPost(courseId: string, quizId: Option<string>, score: int)

  /** `courseAPI.markSectionComplete`: nothing is sent without a token. */
  function MarkSectionRequest(token: Option<string>, courseId: string, sectionId: string): (r: Option<Request>)
    ensures r.None? <==> !HasToken(token)
    ensures r.Some? ==> r.value.SectionPut? && r.value.courseId == courseId && r.value.sectionId == sectionId
  {
    if !HasToken(token) then None else Some(SectionPut(courseId, sectionId))
  }

  /** `courseAPI.submitQuiz`: nothing is sent without a token. */
  function SubmitQuizRequest(token: Option<string>, courseId: string, quizId: Option<string>,
                             score: int): (r: Option<Request>)
    ensures r.None? <==> !HasToken(token)
    ensures r.Some? ==> r.value == QuizPost(courseId, quizId, score)
  {
    if !HasToken(token) then None else Some(QuizPost(courseId, quizId, score))
  }

  /** `calculateQuizScore`: one point when the checked q1 value equals the
      key. Both sides may be undefined, and undefined === undefined. */
  function CalculateQuizScore(q1Answer: Option<string>, q1Key: Option<string>): (score: int)
    ensures score == 0 || score == 1
    ensures score == 1 <==> q1Answer == q1Key
  {
    if q1Answer == q1Key then 1 else 0
  }

  /** `COURSE_QUIZZES[0]`: the first quiz of the page, undefined when it has none. */
  function FirstQuiz(courseQuizzes: seq<string>): (q: Option<string>)
    ensures |courseQuizzes| == 0 <==> q.None?
    ensures q.Some? ==> q.value == courseQuizzes[0] && q.value in courseQuizzes
  {
    if |courseQuizzes| == 0 then None else Some(courseQuizzes[0])
  }

  /** `submitCourseQuiz`: always the page's first quiz, with the 0/1 score. */
  method SubmitCourseQuiz(token: Option<string>, courseId: string, courseQuizzes: seq<string>,
                          q1Answer: Option<string>, q1Key: Option<string>)
    returns (request: Option<Request>)
    ensures request == SubmitQuizRequest(token, courseId, FirstQuiz(courseQuizzes), CalculateQuizScore(q1Answer, q1Key))
    ensures request.Some? ==> request.value.quizId == FirstQuiz(courseQuizzes)
                              && 0 <= request.value.score <= 1
  {
    var score := CalculateQuizScore(q1Answer, q1Key);
    var quizId := FirstQuiz(courseQuizzes);
    request := SubmitQuizRequest(token, courseId, quizId, score);
  }

  /** What `markSectionComplete` and `submitQuiz` return: the parsed reply,
      or undefined when there is no token, when the request or its JSON
      fails, or when the `updateProgressDisplay` they await inside their
      `try` throws. `reply` is the parsed body, whatever its status. */
  function CallResult<T>(token: Option<string>, reply: Option<T>, refreshed: Display): (r: Option<T>)
    ensures r.Some? <==> HasToken(token) && reply.Some? && !refreshed.Crashed?
    ensures r.Some? ==> r == reply
  {
    if !HasToken(token) || reply.None? || refreshed.Crashed? then None else reply
  }

  /** `getProgress`: the record the server holds, as JSON, or null without a
      token or when the server has none. */
  function FetchedProgress(token: Option<string>, stored: Option<ProgressRecord>): (j: Option<ProgressJson>)
    ensures j.Some? <==> HasToken(token) && stored.Some?
    ensures j.Some? ==> j.value == ToJson(stored.value)
  {
    if HasToken(token) && stored.Some? then Some(ToJson(stored.value)) else None
  }

  /** The message after a submission: any returned object reads as
      delivered, and its `isCompleted`, which the quiz route's reply does
      not carry, sends it to "not saved". */
  datatype QuizMessage = SavedMessage | NotSavedMessage | SendFailedMessage

  function QuizReplyMessage<T>(result: Option<T>): (m: QuizMessage)
    ensures result.None? <==> m == SendFailedMessage
    ensures m != SavedMessage
  {
    if result.None? then SendFailedMessage else NotSavedMessage
  }

  /** Once the server holds the user's record for the course (which every
      accepted submission needs), the refresh throws inside `submitQuiz`,
      so the page reports that the result could not be sent. */
  lemma StoredRecordShowsSendFailed<T>(token: Option<string>, reply: Option<T>, p: ProgressRecord,
                                       courseSections: seq<string>, courseQuizzes: seq<string>)
    ensures var shown := UpdateProgressDisplay(FetchedProgress(token, Some(p)), courseSections, courseQuizzes);
            QuizReplyMessage(CallResult(token, reply, shown)) == SendFailedMessage
  {
    if HasToken(token) {
      DisplayAlwaysCrashes(p, courseSections, courseQuizzes);
    }
  }

  /** Without a stored record the quiz route refuses (404), the refresh
      finds nothing and shows "login required", and the refusal's body is
      reported as "not saved". */
  lemma NoRecordShowsNotSaved<T>(token: Option<string>, reply: T,
                                 courseSections: seq<string>, courseQuizzes: seq<string>)
    requires HasToken(token)
    ensures var shown := UpdateProgressDisplay(FetchedProgress(token, None), courseSections, courseQuizzes);
            QuizReplyMessage(CallResult(token, Some(reply), shown)) == NotSavedMessage
  {
  }

  /** `markComplete`: the section's status is set only when
      `markSectionComplete` returned something, which it never does once a
      record is stored, so the status is left to the (crashing) refresh. */
  function MarkCompleteSetsStatus<T>(result: Option<T>): (sets: bool)
    ensures sets <==> result.Some?
  {
    result.Some?
  }

  lemma MarkCompleteNeverSetsStatus<T>(token: Option<string>, reply: Option<T>, p: ProgressRecord,
                                       courseSections: seq<string>, courseQuizzes: seq<string>)
    ensures var shown := UpdateProgressDisplay(FetchedProgress(token, Some(p)), courseSections, courseQuizzes);
            !MarkCompleteSetsStatus(CallResult(token, reply, shown))
  {
    if HasToken(token) {
      DisplayAlwaysCrashes(p, courseSections, courseQuizzes);
    }
  }

  /** The Progress document as the browser receives it. Server records have
      no `completedQuizzes` property. */
  datatype ProgressJson = ProgressJson(completedSections: seq<string>, quizResults: seq<QuizResult>,
                                       completedQuizzes: Option<seq<string>>)

  function ToJson(p: ProgressRecord): (j: ProgressJson)
    ensures j.completedSections == p.completedSections && j.quizResults == p.quizResults
  {
    ProgressJson(p.completedSections, p.quizResults, None)
  }

  datatype Display =
    | LoginRequired
    | Shown(percentage: nat, itemsDone: nat, totalItems: nat, completed: seq<bool>, quizDone: bool)
    | Crashed

  /** `updateProgressDisplay` as written: no record means "login required";
      an absent `completedQuizzes` makes `.filter` throw a TypeError. */
  function UpdateProgressDisplay(progress: Option<ProgressJson>, courseSections: seq<string>,
                                 courseQuizzes: seq<string>): (d: Display)
    ensures progress.None? <==> d.LoginRequired?
    ensures progress.Some? ==> (progress.value.completedQuizzes.None? <==> d.Crashed?)
    ensures d.Shown? ==>
              var j := progress.value;
              && d.totalItems == |courseSections| + |courseQuizzes|
              && d.itemsDone == CountIn(j.completedSections, courseSections)
                                + CountIn(j.completedQuizzes.value, courseQuizzes)
              && d.percentage == Dashboard.ItemPercentage(d.itemsDone, d.totalItems)
              && d.completed == Dashboard.SectionStatuses(courseSections, j.completedSections)
  {
    if progress.None? then LoginRequired
    else
      var j := progress.value;
      match j.completedQuizzes
      case None => Crashed
      case Some(quizzes) =>
        var totalItems := |courseSections| + |courseQuizzes|;
        var itemsDone := CountIn(j.completedSections, courseSections) + CountIn(quizzes, courseQuizzes);
        var first := FirstQuiz(courseQuizzes);
        Shown(Dashboard.ItemPercentage(itemsDone, totalItems), itemsDone, totalItems,
              Dashboard.SectionStatuses(courseSections, j.completedSections),
              first.Some? && first.value in quizzes)
  }

  /** Every record the server returns makes the display throw. */
  lemma DisplayAlwaysCrashes(p: ProgressRecord, courseSections: seq<string>, courseQuizzes: seq<string>)
    ensures UpdateProgressDisplay(Some(ToJson(p)), courseSections, courseQuizzes) == Crashed
  {
  }

  /** The display with the completed quizzes taken from the passed results,
      as the main site's course page does. */
  function UpdateProgressDisplayCorrected(progress: Option<ProgressRecord>, courseSections: seq<string>,
                                          courseQuizzes: seq<string>): (d: Display)
    ensures progress.None? <==> d.LoginRequired?
    ensures !d.Crashed?
  {
    if progress.None? then LoginRequired
    else
      var p := progress.value;
      var j := ProgressJson(p.completedSections, p.quizResults, Some(Dashboard.PassedQuizIds(p.quizResults)));
      UpdateProgressDisplay(Some(j), courseSections, courseQuizzes)
  }

  /** For every stored record the corrected display stays within 0..100,
      and a section shows completed exactly when the record lists it. */
  lemma CorrectedDisplayBounded(p: ProgressRecord, courseSections: seq<string>, courseQuizzes: seq<string>)
    requires NoDup(p.completedSections) && OneResultPerQuiz(p.quizResults)
    ensures var d := UpdateProgressDisplayCorrected(Some(p), courseSections, courseQuizzes);
            && d.Shown? && d.itemsDone <= d.totalItems && d.percentage <= 100
            && forall i :: 0 <= i < |courseSections| ==>
                 (d.completed[i] <==> courseSections[i] in p.completedSections)
  {
    Dashboard.PassedQuizIdsNoDup(p.quizResults);
    CountInBound(Dashboard.PassedQuizIds(p.quizResults), courseQuizzes);
    CountInBound(p.completedSections, courseSections);
    var d := UpdateProgressDisplayCorrected(Some(p), courseSections, courseQuizzes);
    Dashboard.ItemPercentageBounds(d.itemsDone, d.totalItems);
  }

  /** The 0/1 score never reaches the server's pass mark of 70. */
  lemma TemplateQuizNeverPasses(q1Answer: Option<string>, q1Key: Option<string>)
    ensures !Ledger.Passed(CalculateQuizScore(q1Answer, q1Key))
  {
  }

  /** The score the server expects: a percentage of the questions answered
      correctly, here one question. */
  function QuizScoreCorrected(q1Answer: Option<string>, q1Key: Option<string>): (score: int)
    ensures score == 100 * CalculateQuizScore(q1Answer, q1Key)
  {
    if q1Answer == q1Key then 100 else 0
  }

  /** With the corrected score a correct answer passes and a wrong one fails. */
  lemma CorrectedQuizPassesIffCorrect(q1Answer: Option<string>, q1Key: Option<string>)
    ensures Ledger.Passed(QuizScoreCorrected(q1Answer, q1Key)) <==> q1Answer == q1Key
  {
  }
}
