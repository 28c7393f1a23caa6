/** The learner-facing page script: the home page's course-id → percentage
    map and the course page's item-count progress with per-section status. */
module Dashboard {
  import opened Results
  import opened Lists
  import opened ProgressModel
  import Ledger

  // ---------------------------------------------------------------------
  // Home page progress map

  /** The `courseId` of a listed record: populated with the course's `_id`,
      a bare id, or null when the course was deleted. */
  datatype CourseRef = NullRef | IdRef(id: string) | Populated(populatedId: string)

  datatype ProgressEntry = ProgressEntry(courseId: CourseRef, progressPercentage: Option<int>)

  /** `p.courseId?._id || p.courseId`, kept only when truthy. A populated
      reference with an empty `_id` falls back to the object itself, which
      becomes the property name "[object Object]". */
  function RefKey(r: CourseRef): (k: Option<string>)
    ensures r.NullRef? ==> k.None?
    ensures r.IdRef? ==> (k.Some? <==> r.id != "") && (k.Some? ==> k.value == r.id)
    ensures r.Populated? && r.populatedId != "" ==> k == Some(r.populatedId)
  {
    match r
    case NullRef => None
    case IdRef(id) => if id == "" then None else Some(id)
    case Populated(id) => if id == "" then Some("[object Object]") else Some(id)
  }

  /** `p.progressPercentage || 0`. */
  function EntryPercentage(e: ProgressEntry): int
  {
    if e.progressPercentage.Some? then e.progressPercentage.value else 0
  }

  /** The map after the records have been applied in order: a later record
      for the same course overwrites an earlier one. */
  function ProgressMapOf(entries: seq<ProgressEntry>): (m: map<string, int>)
    ensures forall k :: k in m <==> exists i :: 0 <= i < |entries| && RefKey(entries[i].courseId) == Some(k)
  {
    if entries == [] then map[]
    else
      var m := ProgressMapOf(entries[..|entries| - 1]);
      var e := entries[|entries| - 1];
      assert forall i :: 0 <= i < |entries| - 1 ==> entries[..|entries| - 1][i] == entries[i];
      match RefKey(e.courseId)
      case None => m
      case Some(k) => m[k := EntryPercentage(e)]
  }

  /** Each course shows the percentage of the LAST record listed for it. */
  lemma {:induction false} LastRecordWins(entries: seq<ProgressEntry>, i: nat)
    requires i < |entries| && RefKey(entries[i].courseId).Some?
    requires forall j :: i < j < |entries| ==> RefKey(entries[j].courseId) != RefKey(entries[i].courseId)
    ensures ProgressMapOf(entries)[RefKey(entries[i].courseId).value] == EntryPercentage(entries[i])
    decreases |entries|
  {
    if i < |entries| - 1 {
      var prefix := entries[..|entries| - 1];
      assert prefix[i] == entries[i];
      forall j | i < j < |prefix| ensures RefKey(prefix[j].courseId) != RefKey(prefix[i].courseId) {
        assert prefix[j] == entries[j];
      }
      LastRecordWins(prefix, i);
    }
  }

  /** The `forEach` over the listed records. */
  method BuildProgressMap(entries: seq<ProgressEntry>) returns (userProgressMap: map<string, int>)
    ensures userProgressMap == ProgressMapOf(entries)
  {
    userProgressMap := map[];
    var n := 0;
    while n < |entries|
      invariant 0 <= n <= |entries|
      invariant userProgressMap == ProgressMapOf(entries[..n])
    {
      var p := entries[n];
      var courseId := RefKey(p.courseId);
      if courseId.Some? {
        userProgressMap := userProgressMap[courseId.value := EntryPercentage(p)];
      }
      assert entries[..n + 1][..n] == entries[..n];
      n := n + 1;
    }
    assert entries[..n] == entries;
  }

  /** `userProgressMap[course._id] || 0`: a course without an entry shows 0. */
  function DisplayedPercentage(userProgressMap: map<string, int>, courseId: string): (pct: int)
    ensures courseId !in userProgressMap ==> pct == 0
    ensures courseId in userProgressMap ==> pct == userProgressMap[courseId]
  {
    if courseId in userProgressMap then userProgressMap[courseId] else 0
  }

  // ---------------------------------------------------------------------
  // Course page progress

  /** `quizResults.filter(r => r.passed).map(r => r.quizId)`. */
  function PassedQuizIds(results: seq<QuizResult>): (ids: seq<string>)
    ensures |ids| <= |results|
    ensures forall q :: q in ids <==> exists r :: r in results && r.passed && r.quizId == q
  {
    if results == [] then []
    else (if results[0].passed then [results[0].quizId] else []) + PassedQuizIds(results[1..])
  }

  /** With one result per quiz, each passed quiz is listed once. */
  lemma {:induction false} PassedQuizIdsNoDup(results: seq<QuizResult>)
    requires OneResultPerQuiz(results)
    ensures NoDup(PassedQuizIds(results))
  {
    if results != [] {
      var tail := PassedQuizIds(results[1..]);
      PassedQuizIdsNoDup(results[1..]);
      if results[0].passed {
        forall j | 0 <= j < |tail| ensures tail[j] != results[0].quizId {
          assert tail[j] in tail;
          var r :| r in results[1..] && r.passed && r.quizId == tail[j];
          var k :| 0 <= k < |results[1..]| && results[1..][k] == r;
          assert results[k + 1] == r;
        }
      }
    }
  }

  /** `totalItems > 0 ? Math.round(itemsDone / totalItems * 100) : 0`. */
  function ItemPercentage(itemsDone: nat, totalItems: nat): (r: nat)
    ensures totalItems == 0 ==> r == 0
    ensures totalItems > 0 ==> 2 * totalItems * r <= 200 * itemsDone + totalItems < 2 * totalItems * (r + 1)
  {
    if totalItems > 0 then Ledger.RoundPercent(itemsDone, totalItems) else 0
  }

  /** Nothing to count shows 0; all items done shows 100; at most all items
      done never shows more. */
  lemma ItemPercentageBounds(itemsDone: nat, totalItems: nat)
    ensures totalItems == 0 ==> ItemPercentage(itemsDone, totalItems) == 0
    ensures 0 < totalItems && itemsDone <= totalItems ==> ItemPercentage(itemsDone, totalItems) <= 100
    ensures 0 < totalItems && itemsDone == totalItems ==> ItemPercentage(itemsDone, totalItems) == 100
  {
    if 0 < totalItems {
      Ledger.RoundPercentBounds(itemsDone, totalItems);
    }
  }

  /** One status per course section, completed exactly when listed. */
  function SectionStatuses(courseSections: seq<string>, completed: seq<string>): (done: seq<bool>)
    ensures |done| == |courseSections|
    ensures forall i :: 0 <= i < |done| ==> (done[i] <==> courseSections[i] in completed)
  {
    seq(|courseSections|, i requires 0 <= i < |courseSections| => courseSections[i] in completed)
  }

  /** What GET /progress/course/:courseId gave: the record, a 404, or
      another failure (a non-404 error status or a network error). */
  datatype Fetched = Found(record: ProgressRecord) | Missing | Failed

  datatype CourseView =
    | LoginPrompt
    | Shown(percentage: nat, itemsDone: nat, totalItems: nat, completed: seq<bool>)
    | LoadFailed

  /** `loadCourseProgress`: no token shows the login prompt; a 404 counts as
      an empty record; the completed sections are counted as listed, the
      passed quizzes only when they belong to the page. */
  function LoadCourseProgress(token: bool, courseSections: seq<string>, courseQuizzes: seq<string>,
                              fetched: Fetched): (v: CourseView)
    ensures !token <==> v.LoginPrompt?
    ensures token ==> (fetched.Failed? <==> v.LoadFailed?)
    ensures v.Shown? ==> v.totalItems == |courseSections| + |courseQuizzes|
                         && v.percentage == ItemPercentage(v.itemsDone, v.totalItems)
                         && |v.completed| == |courseSections|
    ensures token && fetched.Missing? ==>
              v.Shown? && v.itemsDone == 0 && v.percentage == 0
              && forall i :: 0 <= i < |courseSections| ==> !v.completed[i]
    ensures token && fetched.Found? ==>
              var p := fetched.record;
              && v.Shown?
              && v.itemsDone == |p.completedSections| + CountIn(PassedQuizIds(p.quizResults), courseQuizzes)
              && forall i :: 0 <= i < |courseSections| ==>
                   (v.completed[i] <==> courseSections[i] in p.completedSections)
  {
    if !token then LoginPrompt
    else if fetched.Failed? then LoadFailed
    else
      var sections := if fetched.Found? then fetched.record.completedSections else [];
      var results := if fetched.Found? then fetched.record.quizResults else [];
      var totalItems := |courseSections| + |courseQuizzes|;
      var itemsDone := |sections| + CountIn(PassedQuizIds(results), courseQuizzes);
      Shown(ItemPercentage(itemsDone, totalItems), itemsDone, totalItems,
            SectionStatuses(courseSections, sections))
  }

  /** A stored record (no repeated section, one result per quiz) whose
      sections all belong to the page never shows more than 100. */
  lemma StoredRecordAtMost100(courseSections: seq<string>, courseQuizzes: seq<string>, p: ProgressRecord)
    requires NoDup(p.completedSections) && OneResultPerQuiz(p.quizResults)
    requires forall s :: s in p.completedSections ==> s in courseSections
    ensures var v := LoadCourseProgress(true, courseSections, courseQuizzes, Found(p));
            v.itemsDone <= v.totalItems && v.percentage <= 100
  {
    PassedQuizIdsNoDup(p.quizResults);
    CountInBound(PassedQuizIds(p.quizResults), courseQuizzes);
    CountInBound(p.completedSections, courseSections);
    assert CountIn(p.completedSections, courseSections) == |p.completedSections|;
    var v := LoadCourseProgress(true, courseSections, courseQuizzes, Found(p));
    ItemPercentageBounds(v.itemsDone, v.totalItems);
  }

  /** Sections are counted without checking them against the page, so a
      record with a section the page does not list can show more than 100. */
  lemma UnfilteredSectionsOvershoot(userId: string, courseId: string)
    ensures LoadCourseProgress(true, ["s1"], [], Found(ProgressRecord(userId, courseId, ["s1", "old"], 100, [], false, 0, None)))
            == Shown(200, 2, 1, [true])
  {
    assert Ledger.RoundPercent(2, 1) == 200;
  }
}
