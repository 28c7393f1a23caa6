/** The progress routes: starting a course, marking a section, submitting a
    quiz, and the completion gate with the course and platinum badges that
    both update routes share. The pure parts (percentage, pass threshold,
    quiz upsert, gate) are functions; the handlers are methods of a ledger
    that holds the progress table and the users' badge lists. */
module Ledger {
  import opened Results
  import opened Lists
  import opened CourseModel
  import opened UserModel
  import opened ProgressModel
  import Catalog

  // ---------------------------------------------------------------------
  // Percentage

  /** `Math.round(count / total * 100)` for a positive total, on exact
      rationals: the nearest integer to 100·count/total, halves rounded up. */
  function RoundPercent(count: nat, total: nat): (r: nat)
    requires total > 0
    ensures 2 * total * r <= 200 * count + total < 2 * total * (r + 1)
  {
    var q := (200 * count + total) / (2 * total);
    assert 200 * count + total == q * (2 * total) + (200 * count + total) % (2 * total);
    q
  }

  /** The rounded percentage is the only integer within half a point of the ratio. */
  lemma RoundPercentUnique(count: nat, total: nat, r: int)
    requires total > 0
    requires 2 * total * r <= 200 * count + total < 2 * total * (r + 1)
    ensures r == RoundPercent(count, total)
  {
    var q := RoundPercent(count, total);
    if r < q {
      MulMono(2 * total, r + 1, q);
    } else if r > q {
      MulMono(2 * total, q + 1, r);
    }
  }

  lemma MulMono(k: nat, a: int, b: int)
    requires a <= b
    ensures k * a <= k * b
  {
  }

  /** The stored percentage: rounded share of the section count, 0 when the
      course declares no sections. */
  function SectionPercentage(completedCount: nat, totalSections: int): (r: nat)
    ensures totalSections <= 0 ==> r == 0
    ensures totalSections > 0 ==>
              2 * totalSections * r <= 200 * completedCount + totalSections < 2 * totalSections * (r + 1)
  {
    if totalSections > 0 then RoundPercent(completedCount, totalSections) else 0
  }

  /** The percentage is exactly 100 for every count within half a percent of
      the total, not only for count == total. */
  lemma {:induction false} PercentIs100Iff(count: nat, total: nat)
    requires total > 0
    ensures RoundPercent(count, total) == 100 <==> 199 * total <= 200 * count < 201 * total
  {
    if 199 * total <= 200 * count < 201 * total {
      RoundPercentUnique(count, total, 100);
    }
  }

  /** Marking every declared section gives 100. */
  lemma AllSectionsGive100(total: nat)
    requires total > 0
    ensures SectionPercentage(total, total) == 100
  {
    PercentIs100Iff(total, total);
  }

  /** At most as many sections as declared never gives more than 100. */
  lemma {:induction false} PercentAtMost100(count: nat, total: nat)
    requires 0 < total && count <= total
    ensures RoundPercent(count, total) <= 100
  {
    var r := RoundPercent(count, total);
    if r > 100 {
      MulMono(2 * total, 101, r);
    }
  }

  /** The two bounds the pages rely on: no more than the total gives at
      most 100, and exactly the total gives 100. */
  lemma RoundPercentBounds(count: nat, total: nat)
    requires total > 0
    ensures count <= total ==> RoundPercent(count, total) <= 100
    ensures count == total ==> RoundPercent(count, total) == 100
  {
    if count <= total {
      PercentAtMost100(count, total);
    }
    PercentIs100Iff(total, total);
  }

  /** With 201 sections declared, 200 of them already give 100. */
  lemma NearlyAllSectionsGive100()
    ensures SectionPercentage(200, 201) == 100
  {
    PercentIs100Iff(200, 201);
  }

  /** With up to 200 sections declared, one id more than declared (ids are
      not checked against sectionIds) pushes the percentage past 100, so the
      gate's `=== 100` test then fails. */
  lemma {:induction false} ExtraSectionsOvershoot(count: nat, total: nat)
    requires 0 < total <= 200 && count > total
    ensures SectionPercentage(count, total) > 100
  {
    var r := RoundPercent(count, total);
    if r <= 100 {
      MulMono(2 * total, r + 1, 101);
    }
  }

  // ---------------------------------------------------------------------
  // Sections and quiz results

  /** `if (!includes(id)) push(id)`. */
  function AddSection(sections: seq<string>, id: string): (r: seq<string>)
    ensures id in r
    ensures forall x :: x in r <==> x in sections || x == id
    ensures id in sections ==> r == sections
    ensures |r| == if id in sections then |sections| else |sections| + 1
    ensures r[..|sections|] == sections
    ensures NoDup(sections) ==> NoDup(r)
  {
    if id in sections then sections else sections + [id]
  }

  const PassingScore: int := 70

  predicate Passed(score: int)
  {
    score >= PassingScore
  }

  /** `results.find(r => r.quizId === quizId)`: the first result for the quiz. */
  function FindResult(results: seq<QuizResult>, quizId: string): (r: Option<QuizResult>)
    ensures r.None? <==> forall i :: 0 <= i < |results| ==> results[i].quizId != quizId
    ensures r.Some? ==> r.value in results && r.value.quizId == quizId
    ensures r.Some? ==> IsFirstMatch(results, quizId, r.value)
  {
    if results == [] then None
    else if results[0].quizId == quizId then Some(results[0])
    else
      var r := FindResult(results[1..], quizId);
      if r.Some? then FirstMatchShift(results, quizId, r.value); r else r
  }

  /** The first match in `results[1..]` is the first in `results` when the head does not match. */
  lemma FirstMatchShift(results: seq<QuizResult>, quizId: string, v: QuizResult)
    requires |results| > 0 && results[0].quizId != quizId
    requires IsFirstMatch(results[1..], quizId, v)
    ensures IsFirstMatch(results, quizId, v)
  {
    var i :| 0 <= i < |results| - 1 && results[1..][i] == v
             && forall j :: 0 <= j < i ==> results[1..][j].quizId != quizId;
    assert results[i + 1] == v;
    forall j | 0 <= j < i + 1 ensures results[j].quizId != quizId {
      if j > 0 { assert results[j] == results[1..][j - 1]; }
    }
  }

  /** `v` is the entry at some index with no entry for `quizId` before it. */
  predicate IsFirstMatch(results: seq<QuizResult>, quizId: string, v: QuizResult)
  {
    exists i :: 0 <= i < |results| && results[i] == v
                && forall j :: 0 <= j < i ==> results[j].quizId != quizId
  }

  /** `results.filter(r => r.quizId !== quizId)`. */
  function WithoutQuiz(results: seq<QuizResult>, quizId: string): (r: seq<QuizResult>)
    ensures forall x :: x in r <==> x in results && x.quizId != quizId
    ensures |r| <= |results|
  {
    if results == [] then []
    else (if results[0].quizId != quizId then [results[0]] else []) + WithoutQuiz(results[1..], quizId)
  }

  /** Filter out the quiz's old results, then push the new one. */
  function Upsert(results: seq<QuizResult>, result: QuizResult): (r: seq<QuizResult>)
    ensures |r| >= 1 && r[|r| - 1] == result
    ensures forall x :: x in r <==> x == result || (x in results && x.quizId != result.quizId)
  {
    WithoutQuiz(results, result.quizId) + [result]
  }

  /** The number of results stored for a quiz. */
  function Attempts(results: seq<QuizResult>, quizId: string): nat
  {
    if results == [] then 0
    else (if results[0].quizId == quizId then 1 else 0) + Attempts(results[1..], quizId)
  }

  lemma {:induction false} AttemptsAppend(xs: seq<QuizResult>, ys: seq<QuizResult>, quizId: string)
    ensures Attempts(xs + ys, quizId) == Attempts(xs, quizId) + Attempts(ys, quizId)
  {
    if xs == [] {
      assert xs + ys == ys;
    } else {
      assert (xs + ys)[0] == xs[0];
      assert (xs + ys)[1..] == xs[1..] + ys;
      AttemptsAppend(xs[1..], ys, quizId);
    }
  }

  lemma {:induction false} AttemptsWithout(results: seq<QuizResult>, quizId: string, other: string)
    ensures Attempts(WithoutQuiz(results, quizId), quizId) == 0
    ensures other != quizId ==> Attempts(WithoutQuiz(results, quizId), other) == Attempts(results, other)
  {
    if results != [] {
      var head := if results[0].quizId != quizId then [results[0]] else [];
      AttemptsWithout(results[1..], quizId, other);
      AttemptsAppend(head, WithoutQuiz(results[1..], quizId), quizId);
      AttemptsAppend(head, WithoutQuiz(results[1..], quizId), other);
    }
  }

  /** After a submission the quiz has exactly one stored result, and every
      other quiz keeps as many as it had. */
  lemma UpsertCounts(results: seq<QuizResult>, result: QuizResult, other: string)
    ensures Attempts(Upsert(results, result), result.quizId) == 1
    ensures other != result.quizId ==>
              Attempts(Upsert(results, result), other) == Attempts(results, other)
  {
    AttemptsWithout(results, result.quizId, other);
    AttemptsAppend(WithoutQuiz(results, result.quizId), [result], result.quizId);
    AttemptsAppend(WithoutQuiz(results, result.quizId), [result], other);
  }

  lemma {:induction false} WithoutQuizOnePerQuiz(results: seq<QuizResult>, quizId: string)
    requires OneResultPerQuiz(results)
    ensures OneResultPerQuiz(WithoutQuiz(results, quizId))
  {
    if results != [] {
      var tail := WithoutQuiz(results[1..], quizId);
      WithoutQuizOnePerQuiz(results[1..], quizId);
      if results[0].quizId != quizId {
        forall j | 0 <= j < |tail| ensures tail[j].quizId != results[0].quizId {
          assert tail[j] in results[1..];
        }
      }
    }
  }

  /** Submitting keeps the record's one-result-per-quiz invariant. */
  lemma UpsertOnePerQuiz(results: seq<QuizResult>, result: QuizResult)
    requires OneResultPerQuiz(results)
    ensures OneResultPerQuiz(Upsert(results, result))
  {
    WithoutQuizOnePerQuiz(results, result.quizId);
    var kept := WithoutQuiz(results, result.quizId);
    forall i | 0 <= i < |kept| ensures kept[i].quizId != result.quizId {
      assert kept[i] in kept;
    }
  }

  lemma {:induction false} FindWithout(results: seq<QuizResult>, quizId: string, other: string)
    requires other != quizId
    ensures FindResult(WithoutQuiz(results, quizId), other) == FindResult(results, other)
  {
    if results != [] {
      var tail := WithoutQuiz(results[1..], quizId);
      FindWithout(results[1..], quizId, other);
      if results[0].quizId != quizId {
        var kept := [results[0]] + tail;
        assert WithoutQuiz(results, quizId) == kept;
        assert kept[0] == results[0] && kept[1..] == tail;
      } else {
        assert WithoutQuiz(results, quizId) == tail;
      }
    }
  }

  lemma {:induction false} FindAppend(xs: seq<QuizResult>, result: QuizResult, quizId: string)
    ensures FindResult(xs + [result], quizId) ==
            if FindResult(xs, quizId).Some? then FindResult(xs, quizId)
            else if result.quizId == quizId then Some(result) else None
  {
    if xs != [] {
      assert (xs + [result])[1..] == xs[1..] + [result];
      FindAppend(xs[1..], result, quizId);
    }
  }

  /** The submitted result is the one later found for its quiz (last write
      wins), and the results found for other quizzes are untouched. */
  lemma UpsertFind(results: seq<QuizResult>, result: QuizResult, other: string)
    ensures FindResult(Upsert(results, result), result.quizId) == Some(result)
    ensures other != result.quizId ==>
              FindResult(Upsert(results, result), other) == FindResult(results, other)
  {
    var kept := WithoutQuiz(results, result.quizId);
    FindAppend(kept, result, result.quizId);
    FindAppend(kept, result, other);
    if other != result.quizId {
      FindWithout(results, result.quizId, other);
    }
  }

  // ---------------------------------------------------------------------
  // Completion gate and badges

  /** `result && result.passed` on the first stored result for the quiz. */
  function QuizPassed(results: seq<QuizResult>, quizId: string): (passed: bool)
    ensures passed ==> exists i :: 0 <= i < |results| && results[i].quizId == quizId && results[i].passed
    ensures (forall i :: 0 <= i < |results| ==> results[i].quizId != quizId) ==> !passed
  {
    var found := FindResult(results, quizId);
    found.Some? && found.value.passed
  }

  /** With one result per quiz, "the first result passed" is "some result
      for the quiz passed". */
  lemma QuizPassedIff(results: seq<QuizResult>, quizId: string)
    requires OneResultPerQuiz(results)
    ensures QuizPassed(results, quizId) <==>
            exists i :: 0 <= i < |results| && results[i].quizId == quizId && results[i].passed
  {
    var found := FindResult(results, quizId);
    if i :| 0 <= i < |results| && results[i].quizId == quizId && results[i].passed {
      assert found.Some?;
      var k :| 0 <= k < |results| && results[k] == found.value;
      assert k == i;
    }
  }

  /** `quizIds.every(...)`, walked from the front: vacuously true for a
      course without quizzes. */
  function AllQuizzesPassed(quizIds: seq<string>, results: seq<QuizResult>): (all: bool)
    ensures all <==> forall i :: 0 <= i < |quizIds| ==> QuizPassed(results, quizIds[i])
  {
    if quizIds == [] then true
    else QuizPassed(results, quizIds[0]) && AllQuizzesPassed(quizIds[1..], results)
  }

  /** The gate both routes apply: stored percentage exactly 100 and every
      quiz of the course passed. */
  predicate GateHolds(p: ProgressRecord, course: Course)
  {
    p.progressPercentage == 100 && AllQuizzesPassed(course.metadata.quizIds, p.quizResults)
  }

  /** GateHolds in terms of the stored results: the percentage is exactly
      100 and every quiz the course lists has a passed result. */
  lemma GateHoldsMeans(p: ProgressRecord, course: Course)
    requires OneResultPerQuiz(p.quizResults)
    ensures GateHolds(p, course) <==>
            && p.progressPercentage == 100
            && forall q :: q in course.metadata.quizIds ==>
                 exists i :: 0 <= i < |p.quizResults| && p.quizResults[i].quizId == q
                                                      && p.quizResults[i].passed
  {
    var ids := course.metadata.quizIds;
    forall q | q in ids
      ensures QuizPassed(p.quizResults, q) <==>
              exists i :: 0 <= i < |p.quizResults| && p.quizResults[i].quizId == q
                                                   && p.quizResults[i].passed
    {
      QuizPassedIff(p.quizResults, q);
    }
    assert AllQuizzesPassed(ids, p.quizResults) <==> forall q :: q in ids ==> QuizPassed(p.quizResults, q) by {
      if AllQuizzesPassed(ids, p.quizResults) {
        forall q | q in ids ensures QuizPassed(p.quizResults, q) {
          var j :| 0 <= j < |ids| && ids[j] == q;
        }
      }
    }
  }

  /** The course badge: named after the course, of the course's tier. */
  function CourseBadge(course: Course, stamp: string, now: Time): (b: Badge)
    ensures b.badgeType == Tier(course.badgeType) && b.courseId == course.id
    ensures b.badgeName == course.title + " Master" && b.courseName == course.title
    ensures b.badgeId == "badge_" + stamp && b.earnedAt == now
  {
    Badge("badge_" + stamp, course.title + " Master", Tier(course.badgeType),
          course.id, course.title, now)
  }

  /** The platinum badge, not tied to any one course. */
  function PlatinumBadge(stamp: string, now: Time): (b: Badge)
    ensures b.badgeType == Platinum && b.courseId == "all" && b.courseName == "All Courses"
    ensures b.badgeId == "badge_platinum_" + stamp && b.earnedAt == now
  {
    Badge("badge_platinum_" + stamp, "Ultimate Learner", Platinum, "all", "All Courses", now)
  }

  /** As the routes test it: the user's completed-record count, taken before
      the current record is saved, equals the published course count. */
  predicate PlatinumDue(completedBefore: nat, publishedCount: nat)
  {
    completedBefore == publishedCount
  }

  /** The two badges minted in one completion are told apart: they differ
      in type and their ids differ even though they share the stamp. */
  lemma BadgesOfOneCompletionDiffer(course: Course, stamp: string, now: Time)
    ensures CourseBadge(course, stamp, now).badgeType != PlatinumBadge(stamp, now).badgeType
    ensures CourseBadge(course, stamp, now).badgeId != PlatinumBadge(stamp, now).badgeId
  {
    var a, b := CourseBadge(course, stamp, now).badgeId, PlatinumBadge(stamp, now).badgeId;
    assert |a| != |b|;
  }

  /** The outcome of the gate: the record to save, the badges pushed to the
      user in order, and the one badge reported back. */
  datatype Settlement = Settlement(record: ProgressRecord, minted: seq<Badge>, earned: Option<Badge>)

  /** The shared completion step. Badges are minted only on the false→true
      transition of isCompleted; the course badge comes first, the platinum
      badge second when due, and the last minted badge is the one reported. */
  function Settle(p: ProgressRecord, course: Course, completedBefore: nat, publishedCount: nat,
                  stamp: string, now: Time): (s: Settlement)
    ensures s.minted != [] <==> !p.isCompleted && GateHolds(p, course)
    ensures s.record.isCompleted <==> p.isCompleted || GateHolds(p, course)
    ensures s.minted == [] ==> s.record == p && s.earned.None?
    ensures s.minted != [] ==>
              && s.record == p.(isCompleted := true, completedAt := Some(now))
              && s.minted[0] == CourseBadge(course, stamp, now)
              && |s.minted| == (if PlatinumDue(completedBefore, publishedCount) then 2 else 1)
              && (|s.minted| == 2 ==> s.minted[1] == PlatinumBadge(stamp, now))
              && s.earned == Some(s.minted[|s.minted| - 1])
  {
    if GateHolds(p, course) && !p.isCompleted then
      var done := p.(isCompleted := true, completedAt := Some(now));
      var badge := CourseBadge(course, stamp, now);
      if PlatinumDue(completedBefore, publishedCount) then
        Settlement(done, [badge, PlatinumBadge(stamp, now)], Some(PlatinumBadge(stamp, now)))
      else
        Settlement(done, [badge], Some(badge))
    else
      Settlement(p, [], None)
  }

  /** A completed record stays completed and keeps its completion time. */
  lemma CompletionIsMonotone(p: ProgressRecord, course: Course, completedBefore: nat,
                             publishedCount: nat, stamp: string, now: Time)
    requires p.isCompleted
    ensures Settle(p, course, completedBefore, publishedCount, stamp, now) == Settlement(p, [], None)
  {
  }

  /** Settling keeps a record well formed. */
  lemma SettleWellFormed(k: Key, p: ProgressRecord, course: Course, completedBefore: nat,
                         publishedCount: nat, stamp: string, now: Time)
    requires WellFormed(k, p)
    ensures WellFormed(k, Settle(p, course, completedBefore, publishedCount, stamp, now).record)
  {
  }

  /** The record after the section route's update, before the gate. */
  function MarkedSection(p: ProgressRecord, course: Course, sectionId: string): (q: ProgressRecord)
    ensures sectionId in q.completedSections
    ensures q.completedSections == AddSection(p.completedSections, sectionId)
    ensures q.progressPercentage == SectionPercentage(|q.completedSections|, course.metadata.totalSections)
    ensures q.quizResults == p.quizResults && q.isCompleted == p.isCompleted
    ensures q.completedAt == p.completedAt && KeyOf(q) == KeyOf(p)
    ensures NoDup(p.completedSections) ==> NoDup(q.completedSections)
  {
    var sections := AddSection(p.completedSections, sectionId);
    p.(completedSections := sections,
       progressPercentage := SectionPercentage(|sections|, course.metadata.totalSections))
  }

  /** The record after the quiz route's update, before the gate: the
      percentage is the stored one, not recomputed. */
  function WithQuizResult(p: ProgressRecord, quizId: string, score: int, now: Time): (q: ProgressRecord)
    ensures q.progressPercentage == p.progressPercentage
    ensures q.completedSections == p.completedSections
    ensures q.isCompleted == p.isCompleted && q.completedAt == p.completedAt && KeyOf(q) == KeyOf(p)
    ensures FindResult(q.quizResults, quizId) == Some(QuizResult(quizId, score, Passed(score), [], now))
  {
    var result := QuizResult(quizId, score, Passed(score), [], now);
    UpsertFind(p.quizResults, result, quizId);
    p.(quizResults := Upsert(p.quizResults, result))
  }

  /** Marking a section a second time changes nothing and mints nothing,
      whatever the first mark did. */
  lemma RemarkIsNoOp(p: ProgressRecord, course: Course, sectionId: string,
                     c1: nat, n1: nat, stamp1: string, now1: Time,
                     c2: nat, n2: nat, stamp2: string, now2: Time)
    ensures var first := Settle(MarkedSection(p, course, sectionId), course, c1, n1, stamp1, now1).record;
            && MarkedSection(first, course, sectionId) == first
            && Settle(MarkedSection(first, course, sectionId), course, c2, n2, stamp2, now2)
               == Settlement(first, [], None)
  {
    var marked := MarkedSection(p, course, sectionId);
    var first := Settle(marked, course, c1, n1, stamp1, now1).record;
    assert first.completedSections == marked.completedSections;
    assert MarkedSection(first, course, sectionId) == first;
  }

  /** Badges already earned are kept; the new ones are appended in order.
      A user the store no longer has gets nothing (the update finds no
      document). */
  function PushAll(users: map<ObjectId, User>, userId: ObjectId, badges: seq<Badge>): (r: map<ObjectId, User>)
    ensures r.Keys == users.Keys
    ensures forall u :: u in users && u != userId ==> r[u] == users[u]
    ensures userId in users ==> r[userId] == users[userId].(badges := users[userId].badges + badges)
  {
    if userId in users then users[userId := users[userId].(badges := users[userId].badges + badges)]
    else users
  }

  // ---------------------------------------------------------------------
  // Completed-course count

  /** The documents `Progress.countDocuments({ userId, isCompleted: true })` counts. */
  function CompletedDocs(records: map<Key, ProgressRecord>, userId: ObjectId): set<Key>
  {
    set k | k in records && k.0 == userId && records[k].isCompleted
  }

  /** The courses those documents are for. */
  function CompletedCourses(records: map<Key, ProgressRecord>, userId: ObjectId): set<ObjectId>
  {
    set k | k in CompletedDocs(records, userId) :: k.1
  }

  /** For one user, documents and courses are in one-to-one correspondence,
      so counting either gives the same number. */
  lemma {:induction false} CompletedDocsCount(docs: set<Key>, userId: ObjectId)
    requires forall k :: k in docs ==> k.0 == userId
    ensures |docs| == |set k | k in docs :: k.1|
    decreases docs
  {
    if docs != {} {
      var x :| x in docs;
      var rest := docs - {x};
      CompletedDocsCount(rest, userId);
      var ids := set k | k in docs :: k.1;
      var restIds := set k | k in rest :: k.1;
      assert ids == restIds + {x.1};
      assert x.1 !in restIds;
    }
  }

  /** The record being completed is not among the courses counted: the
      count is taken before it is saved. */
  lemma CurrentNotCounted(records: map<Key, ProgressRecord>, userId: ObjectId, courseId: ObjectId)
    requires (userId, courseId) in records && !records[(userId, courseId)].isCompleted
    ensures courseId !in CompletedCourses(records, userId)
  {
  }

  /** The platinum test the routes evidently mean: with the current course,
      the user has completed every published course, and there is at least
      one. */
  predicate PlatinumDueCorrected(completedBefore: set<ObjectId>, current: ObjectId,
                                 published: set<ObjectId>)
  {
    published != {} && published <= completedBefore + {current}
  }

  /** When every completed course is published, the corrected test is the
      count comparison taken after the current record is saved. */
  lemma {:induction false} PlatinumCorrectedByCount(completedBefore: set<ObjectId>, current: ObjectId,
                                                   published: set<ObjectId>)
    requires completedBefore + {current} <= published
    ensures PlatinumDueCorrected(completedBefore, current, published)
            <==> |completedBefore + {current}| == |published|
  {
    var done := completedBefore + {current};
    if |done| == |published| {
      assert |published - done| == |published| - |done|;
      assert published - done == {};
      assert published <= done;
    }
    if PlatinumDueCorrected(completedBefore, current, published) {
      assert published == done;
    }
  }

  /** The as-written test never fires on the course that completes the
      published catalogue: the user's count is one short. */
  lemma {:induction false} PlatinumMissedOnLastCourse(completedBefore: set<ObjectId>, current: ObjectId,
                                                     published: set<ObjectId>)
    requires completedBefore <= published && current in published && current !in completedBefore
    requires PlatinumDueCorrected(completedBefore, current, published)
    ensures !PlatinumDue(|completedBefore|, |published|)
  {
    SubsetCardinality(completedBefore, published - {current});
  }

  /** Three published courses, two already completed: finishing the third
      earns only the course badge as written. */
  lemma PlatinumMissedExample()
    ensures PlatinumDueCorrected({"A", "B"}, "C", {"A", "B", "C"})
    ensures !PlatinumDue(|{"A", "B"}|, |{"A", "B", "C"}|)
  {
    PlatinumMissedOnLastCourse({"A", "B"}, "C", {"A", "B", "C"});
  }

  /** The routes look a course up by id whether or not it is published, so
      with nothing published a user's first completion compares 0 with 0 and
      mints the platinum badge along with the course badge. */
  lemma FirstCompletionWithNothingPublished(p: ProgressRecord, course: Course, stamp: string, now: Time)
    requires !p.isCompleted && GateHolds(p, course)
    ensures Settle(p, course, 0, 0, stamp, now).minted
            == [CourseBadge(course, stamp, now), PlatinumBadge(stamp, now)]
  {
    var s := Settle(p, course, 0, 0, stamp, now);
    assert |s.minted| == 2;
  }

  /** A course with two sections and one quiz, step one: the first section
      gives 50 and completes nothing. */
  lemma WalkFirstSection(course: Course, userId: ObjectId)
    requires course.metadata.totalSections == 2 && course.metadata.quizIds == ["q1"]
    ensures var m := MarkedSection(NewProgress(userId, course.id, 0), course, "s1");
            && m.completedSections == ["s1"] && m.progressPercentage == 50
            && Settle(m, course, 0, 2, "1", 1) == Settlement(m, [], None)
  {
    var m := MarkedSection(NewProgress(userId, course.id, 0), course, "s1");
    assert m.completedSections == ["s1"];
    RoundPercentUnique(1, 2, 50);
  }

  /** Step two: the second section gives 100, but the quiz is still open. */
  lemma WalkSecondSection(course: Course, p: ProgressRecord)
    requires course.metadata.totalSections == 2 && course.metadata.quizIds == ["q1"]
    requires p.completedSections == ["s1"] && p.quizResults == [] && !p.isCompleted
    ensures var m := MarkedSection(p, course, "s2");
            && m.progressPercentage == 100 && !GateHolds(m, course)
            && Settle(m, course, 0, 2, "2", 2) == Settlement(m, [], None)
  {
    var m := MarkedSection(p, course, "s2");
    assert m.completedSections == ["s1", "s2"];
    RoundPercentUnique(2, 2, 100);
    assert course.metadata.quizIds[0] == "q1";
    assert !QuizPassed(m.quizResults, "q1");
  }

  /** Step three: a passing submission at 100 completes the course and
      mints the course badge alone when platinum is not due. */
  lemma WalkPassingQuiz(course: Course, p: ProgressRecord)
    requires course.metadata.quizIds == ["q1"]
    requires p.progressPercentage == 100 && !p.isCompleted
    ensures var s := Settle(WithQuizResult(p, "q1", 85, 3), course, 0, 2, "3", 3);
            && s.record.isCompleted && s.record.completedAt == Some(3)
            && s.minted == [CourseBadge(course, "3", 3)]
  {
    var q := WithQuizResult(p, "q1", 85, 3);
    assert QuizPassed(q.quizResults, "q1");
    assert GateHolds(q, course);
  }

  /** Response bodies of the two update routes. */
  datatype SectionResponse = SectionResponse(progress: ProgressRecord, badgeEarned: Option<Badge>)
  datatype QuizResponse = QuizResponse(score: int, passed: bool, badgeEarned: Option<Badge>)

  class ProgressLedger {
    /** The Progress collection under its unique (userId, courseId) index. */
    var records: map<Key, ProgressRecord>
    /** The User collection, of which the routes touch only the badges. */
    var users: map<ObjectId, User>

    ghost predicate Valid()
      reads this
    {
      TableWellFormed(records)
    }

    constructor (users0: map<ObjectId, User>)
      ensures Valid() && records == map[] && users == users0
    {
      records := map[];
      users := users0;
    }

    /** The count the platinum check reads. */
    function CompletedCount(userId: ObjectId): (n: nat)
      reads this`records
      ensures n == |CompletedCourses(records, userId)|
    {
      CompletedDocsCount(CompletedDocs(records, userId), userId);
      |CompletedDocs(records, userId)|
    }

    /** GET /course/:courseId. */
    function CourseProgress(userId: ObjectId, courseId: ObjectId): (r: Result<ProgressRecord>)
      reads this
      ensures r.Ok? <==> (userId, courseId) in records
      ensures r.Ok? ==> r.value == records[(userId, courseId)]
      ensures r.Ok? && Valid() ==> KeyOf(r.value) == (userId, courseId)
    {
      if (userId, courseId) in records then Ok(records[(userId, courseId)])
      else Err(NotFound("progress"))
    }

    /** GET /user: every record of the user, one per course. */
    function UserProgress(userId: ObjectId): (r: map<ObjectId, ProgressRecord>)
      reads this
      ensures forall c :: c in r <==> (userId, c) in records
      ensures forall c :: c in r ==> r[c] == records[(userId, c)]
    {
      map k | k in records && k.0 == userId :: k.1 := records[k]
    }

    /** POST /start: return the existing record unchanged, or create one. */
    method Start(userId: ObjectId, courseId: ObjectId, now: Time) returns (p: ProgressRecord, created: bool)
      requires Valid()
      modifies this`records
      ensures Valid()
      ensures created <==> (userId, courseId) !in old(records)
      ensures !created ==> p == old(records)[(userId, courseId)] && records == old(records)
      ensures created ==> p == NewProgress(userId, courseId, now)
                          && records == old(records)[(userId, courseId) := p]
    {
      var key := (userId, courseId);
      if key in records {
        return records[key], false;
      }
      p := NewProgress(userId, courseId, now);
      records := records[key := p];
      created := true;
    }

    /** Lines shared by both update routes: run the gate on the in-memory
        record, push the minted badges, and count completions in the store
        before the record is saved. */
    method CompleteIfDue(progress: ProgressRecord, course: Course, catalog: Catalog.CourseCatalog,
                         stamp: string, now: Time)
      returns (p: ProgressRecord, earned: Option<Badge>)
      modifies this`users
      ensures var s := Settle(progress, course, CompletedCount(progress.userId),
                              catalog.PublishedCount(), stamp, now);
              && p == s.record && earned == s.earned
              && users == PushAll(old(users), progress.userId, s.minted)
    {
      p, earned := progress, None;
      if progress.userId in users {
        assert users[progress.userId].badges + [] == users[progress.userId].badges;
      }
      if GateHolds(progress, course) && !progress.isCompleted {
        p := p.(isCompleted := true, completedAt := Some(now));
        var badge := CourseBadge(course, stamp, now);
        if progress.userId in users {
          users := users[progress.userId := PushBadge(users[progress.userId], badge)];
        }
        assert users == PushAll(old(users), progress.userId, [badge]);
        earned := Some(badge);
        var completedCoursesCount := CompletedCount(progress.userId);
        var totalPublishedCourses := catalog.PublishedCount();
        if completedCoursesCount == totalPublishedCourses {
          var platinum := PlatinumBadge(stamp, now);
          if progress.userId in users {
            users := users[progress.userId := PushBadge(users[progress.userId], platinum)];
            assert old(users)[progress.userId].badges + [badge] + [platinum]
                == old(users)[progress.userId].badges + [badge, platinum];
          }
          earned := Some(platinum);
        }
      }
    }

    /** PUT /section. */
    method MarkSection(catalog: Catalog.CourseCatalog, userId: ObjectId, courseId: ObjectId,
                       sectionId: string, stamp: string, now: Time)
      returns (r: Result<SectionResponse>)
      requires Valid()
      modifies this
      ensures Valid()
      ensures courseId !in catalog.courses ==>
                r == Err(NotFound("course")) && records == old(records) && users == old(users)
      ensures courseId in catalog.courses && (userId, courseId) !in old(records) ==>
                r == Err(NotFound("progress")) && records == old(records) && users == old(users)
      ensures courseId in catalog.courses && (userId, courseId) in old(records) ==>
                var course := catalog.courses[courseId];
                var s := Settle(MarkedSection(old(records)[(userId, courseId)], course, sectionId),
                                course, old(CompletedCount(userId)), catalog.PublishedCount(),
                                stamp, now);
                && r == Ok(SectionResponse(s.record, s.earned))
                && records == old(records)[(userId, courseId) := s.record]
                && users == PushAll(old(users), userId, s.minted)
    {
      var found := catalog.Get(courseId);
      if found.Err? {
        return Err(NotFound("course"));
      }
      var course := found.value;
      var key := (userId, courseId);
      if key !in records {
        return Err(NotFound("progress"));
      }
      var progress := records[key];
      if sectionId !in progress.completedSections {
        progress := progress.(completedSections := progress.completedSections + [sectionId]);
      }
      var totalSections := course.metadata.totalSections;
      var completedCount := |progress.completedSections|;
      progress := progress.(progressPercentage :=
        if totalSections > 0 then RoundPercent(completedCount, totalSections) else 0);
      assert progress == MarkedSection(records[key], course, sectionId);
      var earned;
      progress, earned := CompleteIfDue(progress, course, catalog, stamp, now);
      SettleWellFormed(key, MarkedSection(records[key], course, sectionId), course,
                       CompletedCount(userId), catalog.PublishedCount(), stamp, now);
      records := records[key := progress];
      r := Ok(SectionResponse(progress, earned));
    }

    /** POST /quiz. The course is looked up first; the pass flag is fixed by
        the threshold before the record is loaded. */
    method SubmitQuiz(catalog: Catalog.CourseCatalog, userId: ObjectId, courseId: ObjectId,
                      quizId: string, score: int, stamp: string, now: Time)
      returns (r: Result<QuizResponse>)
      requires Valid()
      modifies this
      ensures Valid()
      ensures courseId !in catalog.courses ==>
                r == Err(NotFound("course")) && records == old(records) && users == old(users)
      ensures courseId in catalog.courses && (userId, courseId) !in old(records) ==>
                r == Err(NotFound("progress")) && records == old(records) && users == old(users)
      ensures courseId in catalog.courses && (userId, courseId) in old(records) ==>
                var course := catalog.courses[courseId];
                var s := Settle(WithQuizResult(old(records)[(userId, courseId)], quizId, score, now),
                                course, old(CompletedCount(userId)), catalog.PublishedCount(),
                                stamp, now);
                && r == Ok(QuizResponse(score, score >= 70, s.earned))
                && records == old(records)[(userId, courseId) := s.record]
                && users == PushAll(old(users), userId, s.minted)
    {
      var found := catalog.Get(courseId);
      if found.Err? {
        return Err(NotFound("course"));
      }
      var course := found.value;
      var passed := score >= PassingScore;
      var key := (userId, courseId);
      if key !in records {
        return Err(NotFound("progress"));
      }
      var progress := records[key];
      var quizResult := QuizResult(quizId, score, passed, [], now);
      progress := progress.(quizResults := WithoutQuiz(progress.quizResults, quizId));
      progress := progress.(quizResults := progress.quizResults + [quizResult]);
      assert progress == WithQuizResult(records[key], quizId, score, now);
      UpsertOnePerQuiz(records[key].quizResults, quizResult);
      var earned;
      progress, earned := CompleteIfDue(progress, course, catalog, stamp, now);
      SettleWellFormed(key, WithQuizResult(records[key], quizId, score, now), course,
                       CompletedCount(userId), catalog.PublishedCount(), stamp, now);
      records := records[key := progress];
      r := Ok(QuizResponse(score, passed, earned));
    }
  }
}
