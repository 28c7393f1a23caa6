# Course progress and badges, modelled in Dafny

This project models the part of the e-learning application that tracks learning. An
administrator creates courses. Each course has a difficulty, a badge tier and metadata
listing its sections and quizzes. A learner starts a course and marks sections complete.
The learner also submits quiz scores. The server keeps one progress record per (user,
course) pair. It recomputes the section percentage and settles completion: a course
badge, and possibly the "Ultimate Learner" platinum badge, is pushed onto the user.

Besides the server routes and the Mongoose schemas, the model covers the browser
scripts that read and display this state:

- the home page's progress map and the course page's progress panel (`frontend/js/main.js`);
- the generated course template's client (`backend/templates/course_template/script.js`);
- the self-contained HTML course, which keeps completion flags in local storage;
- the section and exam navigator of the demo course page (`src/course/tes/tes.js`);
- the admin form that assembles a new course (`frontend/js/admin.js`).

Modules, one per source concern:

- `Results`, `Lists` and `Text`: Option/Result and error kinds, duplicate-free lists and
  counting, and the JavaScript string operations the code relies on (`trim`,
  `toLowerCase`, `split`/`join`).
- `CourseModel`, `UserModel` and `ProgressModel`: the three schemas, with their
  defaults, enums, setters and unique indexes.
- `Catalog`: the course routes. The class `CourseCatalog` holds the courses collection as a map.
- `Ledger`: the progress routes. Pure functions give the percentage, the completion
  gate and the badge settlement. The class `ProgressLedger` holds the progress and user
  collections, and its methods are the route handlers.
- `Dashboard`, `TemplateClient`, `HtmlCourse`, `CourseNav` and `AdminForm`: the browser
  scripts. Loops become methods, and DOM state that handlers update becomes class fields.

The handlers follow the code as written:

- No progress record is created lazily. Marking a section or submitting a quiz without
  a started record is a "not found" error.
- The percentage is not clamped.
- The quiz route reuses the stored percentage.
- The completion gate is "percentage equals 100".
- The platinum test compares the user's count of completed records, taken before the
  current record is saved, with the number of published courses.

`Math.round(c / t * 100)` is modelled on exact rationals as the unique `r` with
`2t·r ≤ 200c + t < 2t(r+1)`. Consequences the model proves:

- 200 sections done out of 201 already reads 100%.
- For totals up to 200, extra section ids push the percentage past 100.

Time, `Date.now()` stamps and the presence of a token are parameters.

## Model

| member | source | states |
|---|---|---|
| Text.Trim | backend/models/User.js:9-16 | the result is the slice of the input that starts where the leading white space ends, with only white space before and after it; it neither starts nor ends with white space, and an already trimmed string is unchanged |
| Text.LowerTrimCommute | backend/models/User.js:15-16 | lower-casing and trimming commute, so the order of the two email setters does not matter |
| Text.JoinSplit | frontend/js/admin.js:76-77 | joining the pieces of `split(sep)` with `sep` gives back the original string |
| Text.SplitJoin | frontend/js/admin.js:76-77 | splitting a join of separator-free pieces gives back those pieces |
| Lists.CountInBound | frontend/js/main.js:478 | counting the entries of a duplicate-free list that occur in another list never exceeds the other list's length |
| CourseModel.ParseDifficulty | backend/models/Course.js:16-20 | an absent difficulty defaults to beginner; a given one is accepted exactly when it is one of the three enum names, and rejected with a validation error otherwise |
| CourseModel.ParseTier | backend/models/Course.js:21-25 | an absent badge type defaults to bronze; a given one is accepted exactly when it is bronze, silver or gold |
| CourseModel.NamesRoundTrip | backend/models/Course.js:16-25 | parsing the stored name of any difficulty or tier gives that value back |
| CourseModel.NewCourse | backend/models/Course.js:3-70 | a course is valid exactly when title and description are given and non-empty and both enums accept; a given difficulty or badge type is stored as the value of that name, an absent one as beginner or bronze; the thumbnail defaults to the placeholder, the flag to unpublished, and both times are now |
| UserModel.ParseRole | backend/models/User.js:23-27 | the role defaults to user and accepts exactly "user" and "admin" |
| UserModel.NormalizeEmail | backend/models/User.js:11-17 | the stored email is the trimmed input lower-cased character by character, so it is trimmed and has no ASCII capitals |
| UserModel.NormalizeEmailIdempotent | backend/models/User.js:11-17 | normalising an already normalised email changes nothing |
| UserModel.NewUser | backend/models/User.js:4-47 | a user is valid exactly when trimmed username, normalised email and password are non-empty and the role is in the enum; username and email are stored trimmed and normalised, a given role as parsed and an absent one as user; the password is stored as given (in plain text) and the creation time is the time passed in; badges start empty |
| UserModel.InsertUser | backend/models/User.js:5-17 | saving succeeds exactly when id, username and email are all unused, and then keeps the accounts unique |
| UserModel.PushBadge | backend/routes/progress.js:124-126 | `$push` keeps the old badges as a prefix, appends exactly the new badge and changes no other field |
| ProgressModel.NewProgress | backend/routes/progress.js:25-32 | a started record belongs to the pair, has no sections, no quiz results, 0 percent, is not completed and was started now |
| ProgressModel.NewProgressWellFormed | backend/models/Progress.js:4-47 | a freshly started record meets the record invariant (no duplicate sections, one result per quiz, no completion time) |
| Catalog.CodeOf | backend/routes/courses.js:26-30 | each missing code field becomes the empty string and each given field is kept as given, field by field |
| Catalog.MetadataOf | backend/routes/courses.js:31-36 | missing counts become 0 and missing id lists become empty; given values are kept |
| Catalog.Created | backend/routes/courses.js:8-46 | creation succeeds exactly when the body has its nested objects, title and description are given and both enums accept; the new course is unpublished |
| Catalog.Updated | backend/routes/courses.js:86-130 | an update keeps id, publication flag, creator and creation time and sets updatedAt to now; given title, description and thumbnail replace the stored ones and absent ones are kept; a given difficulty or badge type is stored as the value of that name and an absent one is kept; code and metadata are rewritten with the create defaults; it fails only on an off-enum value |
| Catalog.Published | backend/routes/courses.js:49-58 | the published set holds exactly the courses whose flag is set |
| Catalog.Toggled | backend/routes/courses.js:141 | toggling flips exactly the one course's flag and leaves every other field and every other course as it was |
| Catalog.EmptiedTitleBlocksToggle | backend/routes/courses.js:98-142 | an update that empties the title succeeds, since it runs no validators, and leaves a course the toggle's save then refuses |
| Catalog.CreatedIsSaveable | backend/routes/courses.js:8-46 | every course the create route builds passes the toggle's save validation |
| Catalog.ToggleTwice | backend/routes/courses.js:141 | toggling publication twice restores the collection |
| Catalog.ToggleMovesPublishedCount | backend/routes/courses.js:133-148 | toggling moves the number of published courses by exactly one, in the direction of the old flag |
| Catalog.CourseCatalog.PublishedCount | backend/routes/progress.js:136-138 | the published count is the size of the published set and at most the number of courses |
| Catalog.CourseCatalog.ListPublished | backend/routes/courses.js:49-58 | the listing holds exactly the published courses, unchanged |
| Catalog.CourseCatalog.Get | backend/routes/courses.js:71-83 | a lookup succeeds exactly for a stored id and otherwise reports "course not found" |
| Catalog.CourseCatalog.Create | backend/routes/courses.js:8-46 | the course is stored exactly when it is valid and its id is new; otherwise the collection is unchanged |
| Catalog.CourseCatalog.Update | backend/routes/courses.js:86-130 | an unreadable body is a bad request, a missing id is not found, otherwise the stored course becomes the updated one |
| Catalog.CourseCatalog.TogglePublish | backend/routes/courses.js:133-148 | a missing id is not found; a stored course whose title or description is empty fails the save's validation and is left unchanged; otherwise exactly that course's flag flips and the new course is returned |
| Catalog.CourseCatalog.Delete | backend/routes/courses.js:151-163 | the id is removed and the call succeeds exactly when it was present |
| Ledger.RoundPercent | backend/routes/progress.js:97-99 | the rounded percentage is the unique integer within half a unit of 100·count/total, rounding halves up |
| Ledger.SectionPercentage | backend/routes/progress.js:94-99 | with a positive declared total the percentage is the rounded share of the completed count; with none it is 0 |
| Ledger.PercentIs100Iff | backend/routes/progress.js:97-102 | the section gate reads 100 exactly when 199·total ≤ 200·count < 201·total |
| Ledger.AllSectionsGive100 | backend/routes/progress.js:95-102 | completing as many sections as the course declares gives 100 |
| Ledger.RoundPercentBounds | backend/routes/progress.js:97-99 | with no more sections done than declared, the percentage is at most 100, and equal counts give exactly 100 |
| Ledger.NearlyAllSectionsGive100 | backend/routes/progress.js:97-102 | 200 of 201 sections already passes the section gate |
| Ledger.ExtraSectionsOvershoot | backend/routes/progress.js:89-99 | section ids are not checked against the course, so for totals up to 200 more ids than sections give over 100 |
| Ledger.AddSection | backend/routes/progress.js:89-92 | adding a section id makes it present, keeps the old list as a prefix, adds nothing if it was there, and keeps the list duplicate-free |
| Ledger.FindResult | backend/routes/progress.js:104 | finding a quiz result gives none exactly when no entry has that quiz id, and otherwise the first entry for it: no entry before it has that quiz id |
| Ledger.WithoutQuiz | backend/routes/progress.js:202 | removing a quiz's attempts keeps exactly the entries of other quizzes |
| Ledger.Upsert | backend/routes/progress.js:201-203 | the new result is last, and the list holds exactly it and the earlier results of other quizzes |
| Ledger.UpsertCounts | backend/routes/progress.js:201-203 | after saving a result its quiz has exactly one entry, and every other quiz keeps its number of entries |
| Ledger.UpsertOnePerQuiz | backend/routes/progress.js:201-203 | saving a result keeps one entry per quiz |
| Ledger.UpsertFind | backend/routes/progress.js:201-210 | after saving, the gate finds the new result for its quiz and the same result as before for every other quiz |
| Ledger.QuizPassed | backend/routes/progress.js:104-105 | a quiz counts as passed only if some stored result for it is passed, and never when it has no result |
| Ledger.QuizPassedIff | backend/routes/progress.js:104-105 | with one result per quiz, the quiz counts as passed exactly when some stored result for it is passed |
| Ledger.AllQuizzesPassed | backend/routes/progress.js:103-106 | `every` holds exactly when each quiz id of the course passes, and vacuously for no quizzes |
| Ledger.GateHoldsMeans | backend/routes/progress.js:101-106 | for a well-formed record the gate holds exactly when the percentage is 100 and every quiz id of the course has a passed result |
| Ledger.CourseBadge | backend/routes/progress.js:114-122 | the course badge has the course's tier and id, is named after the course title, and carries the stamp and time |
| Ledger.PlatinumBadge | backend/routes/progress.js:141-148 | the platinum badge is of type platinum, for "all" courses, and carries the stamp and time |
| Ledger.BadgesOfOneCompletionDiffer | backend/routes/progress.js:114-148 | the two badges of one completion differ in type and in id, although they share the time stamp |
| Ledger.Settle | backend/routes/progress.js:101-156 | badges are minted exactly when the record was incomplete and the gate holds; the record is then completed at now; the course badge comes first and the platinum badge is added exactly when the counts are equal; the last minted badge is reported |
| Ledger.CompletionIsMonotone | backend/routes/progress.js:110 | settling an already completed record changes nothing and mints nothing |
| Ledger.SettleWellFormed | backend/routes/progress.js:110-113 | settlement keeps the record invariant |
| Ledger.MarkedSection | backend/routes/progress.js:89-99 | marking a section adds it to the list as `includes`/`push` does, sets the percentage to the rounded share of the new list's length, and leaves quiz results, completion and key unchanged |
| Ledger.WithQuizResult | backend/routes/progress.js:179-203 | a submission leaves sections and the stored percentage unchanged, and afterwards the quiz's result is the new score, passed exactly when the score is at least 70 |
| Ledger.RemarkIsNoOp | backend/routes/progress.js:89-110 | marking the same section a second time leaves the settled record unchanged and mints nothing |
| Ledger.PushAll | backend/routes/progress.js:124-126 | pushing badges appends them to that user only; a missing user leaves the table unchanged |
| Ledger.CompletedDocsCount | backend/routes/progress.js:131-134 | for one user, counting completed records is counting completed courses |
| Ledger.CurrentNotCounted | backend/routes/progress.js:131-134 | the record being completed is not yet saved, so its course is not among the counted ones |
| Ledger.PlatinumMissedOnLastCourse | backend/routes/progress.js:131-140 | when the current course is the last published one still open, the as-written count is one short and platinum is not minted |
| Ledger.PlatinumMissedExample | backend/routes/progress.js:131-140 | with published courses A, B, C, having completed A and B and now completing C, the corrected test holds and the as-written one fails |
| Ledger.PlatinumCorrectedByCount | backend/routes/progress.js:131-140 | the corrected test holds exactly when the completed courses plus the current one are as many as the published ones |
| Ledger.FirstCompletionWithNothingPublished | backend/routes/progress.js:131-140 | the routes find a course whether or not it is published, so with nothing published a first completion compares 0 with 0 and mints the platinum badge after the course badge |
| Ledger.WalkFirstSection | backend/routes/progress.js:71-167 | on a two-section course with one quiz, the first section gives 50% and nothing is minted |
| Ledger.WalkSecondSection | backend/routes/progress.js:71-167 | the second section gives 100% but, with the quiz unpassed, the course stays incomplete |
| Ledger.WalkPassingQuiz | backend/routes/progress.js:170-272 | a passing score then completes the course and mints exactly the course badge |
| Ledger.ProgressLedger.CompletedCount | backend/routes/progress.js:131-134 | the count is the number of courses the user has a completed record for |
| Ledger.ProgressLedger.CourseProgress | backend/routes/progress.js:53-68 | a lookup succeeds exactly when the pair has a record, and that record belongs to the pair |
| Ledger.ProgressLedger.UserProgress | backend/routes/progress.js:42-50 | the listing holds exactly the user's records, keyed by course |
| Ledger.ProgressLedger.Start | backend/routes/progress.js:10-39 | an existing record is returned unchanged; otherwise a new empty record is stored and reported as created |
| Ledger.ProgressLedger.CompleteIfDue | backend/routes/progress.js:108-156 | the settlement is computed with the completed count read before the save, and its badges are pushed onto the user |
| Ledger.ProgressLedger.MarkSection | backend/routes/progress.js:71-167 | a missing course or record is not found and changes nothing; otherwise the section is added, the percentage recomputed, the settled record stored and the reported badge returned |
| Ledger.ProgressLedger.SubmitQuiz | backend/routes/progress.js:170-272 | a missing course or record is not found; otherwise the result replaces earlier attempts, the record is settled and stored, and the reply says passed exactly when the score is at least 70 |
| Dashboard.RefKey | frontend/js/main.js:89-91 | a null reference and an empty plain id are skipped; a populated course or a non-empty plain id gives its id as the key |
| Dashboard.ProgressMapOf | frontend/js/main.js:86-97 | the map has a key exactly for the records whose course reference yields one |
| Dashboard.LastRecordWins | frontend/js/main.js:86-97 | a course's entry is the percentage of its last record in the listing |
| Dashboard.BuildProgressMap | frontend/js/main.js:72-97 | the loop builds exactly the progress map of the listing |
| Dashboard.DisplayedPercentage | frontend/js/main.js:125 | a course without an entry shows 0, otherwise its entry |
| Dashboard.PassedQuizIds | frontend/js/main.js:471-473 | the list holds exactly the quiz ids of passed results |
| Dashboard.PassedQuizIdsNoDup | frontend/js/main.js:471-473 | with one result per quiz the passed ids have no duplicates |
| Dashboard.ItemPercentage | frontend/js/main.js:482 | with a positive total the shown percentage is the rounded share of the items done; with none it is 0 |
| Dashboard.ItemPercentageBounds | frontend/js/main.js:482 | no items gives 0; at most as many done as there are gives at most 100, all done gives 100 |
| Dashboard.SectionStatuses | frontend/js/main.js:496-509 | a section shows as finished exactly when the record lists it |
| Dashboard.LoadCourseProgress | frontend/js/main.js:431-517 | no token shows the login prompt; a failed fetch shows the error; a missing record shows 0; otherwise items done are the stored sections plus the passed course quizzes, out of sections plus quizzes |
| Dashboard.StoredRecordAtMost100 | frontend/js/main.js:470-482 | a well-formed record whose sections all belong to the course never shows more than 100% |
| Dashboard.UnfilteredSectionsOvershoot | frontend/js/main.js:477 | stored section ids are not filtered, so a record with a stale section shows 200% |
| TemplateClient.MarkSectionRequest | backend/templates/course_template/script.js:7-24 | without a token no request is sent; otherwise it names the course and the section |
| TemplateClient.SubmitQuizRequest | backend/templates/course_template/script.js:40-58 | without a token no request is sent; otherwise it carries course, quiz and score |
| TemplateClient.CalculateQuizScore | backend/templates/course_template/script.js:99-111 | the score is 0 or 1, and 1 exactly when the checked answer equals the key |
| TemplateClient.FirstQuiz | backend/templates/course_template/script.js:125 | the quiz is the first course quiz, or undefined when there is none |
| TemplateClient.SubmitCourseQuiz | backend/templates/course_template/script.js:123-127 | the request carries the first quiz and the computed score |
| TemplateClient.CallResult | backend/templates/course_template/script.js:7-71 | a call returns the parsed reply exactly when there is a token, the request and its JSON succeed and the awaited refresh does not throw; otherwise it returns undefined |
| TemplateClient.FetchedProgress | backend/templates/course_template/script.js:73-91 | `getProgress` gives the stored record exactly when there is a token and the server holds one, and null otherwise |
| TemplateClient.QuizReplyMessage | backend/templates/course_template/script.js:130-139 | an absent result shows the send failure; any returned object shows "not saved" and never "saved", since no reply has an `isCompleted` field |
| TemplateClient.StoredRecordShowsSendFailed | backend/templates/course_template/script.js:46-139 | once the server holds the record, the refresh inside `submitQuiz` throws, so the page shows the send failure whatever the reply |
| TemplateClient.NoRecordShowsNotSaved | backend/templates/course_template/script.js:130-136 | without a stored record the refresh shows "login required", the refusal is returned and the page shows "not saved" |
| TemplateClient.MarkCompleteSetsStatus | backend/templates/course_template/script.js:114-120 | `markComplete` sets the section's status exactly when the call returned something |
| TemplateClient.MarkCompleteNeverSetsStatus | backend/templates/course_template/script.js:7-120 | once the server holds the record, `markSectionComplete` returns undefined and `markComplete` never sets the status |
| TemplateClient.UpdateProgressDisplay | backend/templates/course_template/script.js:143-186 | no record shows the login text; a record without `completedQuizzes` makes the display throw |
| TemplateClient.DisplayAlwaysCrashes | backend/templates/course_template/script.js:157 | every record the server returns lacks `completedQuizzes`, so the display always throws |
| TemplateClient.UpdateProgressDisplayCorrected | backend/templates/course_template/script.js:143-186 | reading passed quiz results instead never throws |
| TemplateClient.CorrectedDisplayBounded | backend/templates/course_template/script.js:153-162 | the corrected display counts course sections and passed course quizzes and stays within 0..100 |
| TemplateClient.TemplateQuizNeverPasses | backend/templates/course_template/script.js:99-111 | a score of 0 or 1 never reaches the server's pass mark of 70 |
| TemplateClient.QuizScoreCorrected | backend/templates/course_template/script.js:99-111 | the corrected score is 100 for a right answer and 0 otherwise |
| TemplateClient.CorrectedQuizPassesIffCorrect | backend/templates/course_template/script.js:99-111 | with the corrected score, the server passes the quiz exactly when the answer is right |
| HtmlCourse.StripAngles | frontend/courses/learn-html-interactive-course/script.js:17 | removing angle brackets keeps every other character and leaves bracket-free text unchanged |
| HtmlCourse.Normalize | frontend/courses/learn-html-interactive-course/script.js:17 | the compared input has no angle brackets and no ASCII capitals, and is no longer than what was typed |
| HtmlCourse.CheckAnswer | frontend/courses/learn-html-interactive-course/script.js:11-26 | nothing is shown without both elements; otherwise the answer is correct exactly when the lower-cased, trimmed, bracket-free input equals the lower-cased key |
| HtmlCourse.AngleKeyNeverAccepted | frontend/courses/learn-html-interactive-course/script.js:17-19 | a key that contains a bracket can never be matched |
| HtmlCourse.PlainKeyAccepted | frontend/courses/learn-html-interactive-course/script.js:17-19 | a trimmed, bracket-free key typed as it is is accepted |
| HtmlCourse.WrappedKeyAccepted | frontend/courses/learn-html-interactive-course/script.js:17-19 | a bracket-free key typed wrapped in a tag's brackets is accepted |
| HtmlCourse.SpaceAfterBracketRefused | frontend/courses/learn-html-interactive-course/script.js:17 | "< p" is refused for "p", because brackets are removed after trimming |
| HtmlCourse.FlagKey | frontend/courses/learn-html-interactive-course/script.js:100 | the storage key starts with the course id and is longer than course and item id together |
| HtmlCourse.FlagKeyInjective | frontend/courses/learn-html-interactive-course/script.js:45-100 | within one course, two item ids with the same storage key are the same id |
| HtmlCourse.CountFlags | frontend/courses/learn-html-interactive-course/script.js:45 | the number of set flags is at most the number of ids, and 0 when none is stored |
| HtmlCourse.DisplayedProgress | frontend/courses/learn-html-interactive-course/script.js:83-91 | no items shows NaN; otherwise at most 100, and 100 when all are done |
| HtmlCourse.CalculateQuizScore | frontend/courses/learn-html-interactive-course/script.js:128-141 | the score is 0 or 100, and 100 exactly when the form exists and the answer equals the key |
| HtmlCourse.LocalStore.UpdateProgressDisplay | frontend/courses/learn-html-interactive-course/script.js:34-93 | the loops count the set section and quiz flags; done is at most total, and the text is the displayed progress |
| HtmlCourse.LocalStore.MarkComplete | frontend/courses/learn-html-interactive-course/script.js:99-101 | the section's flag is set, nothing else changes, and the view is recounted |
| HtmlCourse.LocalStore.SubmitCourseQuiz | frontend/courses/learn-html-interactive-course/script.js:146-182 | the quiz flag is set exactly on a score of 100; otherwise the store is unchanged |
| HtmlCourse.MarkTwiceSameStore | frontend/courses/learn-html-interactive-course/script.js:99-101 | marking a section twice leaves the same store as marking it once |
| HtmlCourse.FlagRaisesCount | frontend/courses/learn-html-interactive-course/script.js:45-46 | setting a listed id's flag raises the count by one if it was unset, and otherwise keeps it; no distinctness of keys is assumed, since distinct ids give distinct keys |
| HtmlCourse.SameCountWithout | frontend/courses/learn-html-interactive-course/script.js:45-46 | setting a flag for an id that is not in the list leaves the count unchanged |
| CourseNav.Tick | src/course/tes/tes.js:116-123 | an empty check icon becomes ticked, and any other icon is left as it is |
| CourseNav.NextIndex | src/course/tes/tes.js:75-82 | before the last section next moves exactly one on; on the last it stays; the index stays in range |
| CourseNav.PrevIndex | src/course/tes/tes.js:58-62 | after the first section previous moves exactly one back; on the first it stays |
| CourseNav.NextReachesLast | src/course/tes/tes.js:75-82 | enough presses of next always reach the last section and stop there |
| CourseNav.SectionNavigator.constructor | src/course/tes/tes.js:257 | the navigator starts at section 0 with the previous button disabled |
| CourseNav.SectionNavigator.Select | src/course/tes/tes.js:21-49 | selecting marks exactly that item active, shows exactly its panel, and updates both buttons |
| CourseNav.SectionNavigator.MarkSectionAsCompleted | src/course/tes/tes.js:85-124 | the current item, not the argument, is marked completed and its icon ticked |
| CourseNav.SectionNavigator.Prev | src/course/tes/tes.js:58-62 | previous selects the earlier section, making exactly it active and exactly its panel visible, and does nothing at the first |
| CourseNav.SectionNavigator.Next | src/course/tes/tes.js:75-82 | next completes the current section and selects the following one, making exactly it active and exactly its panel visible, and does nothing at the last |
| CourseNav.NextLabel | src/course/tes/tes.js:213-222 | the next button reads "Selesai" exactly on question 10 |
| CourseNav.ExamWidth | src/course/tes/tes.js:176-179 | the progress bar width is 10 times the question number, so 10% per question and full on the last |
| CourseNav.ExamNavigator.constructor | src/course/tes/tes.js:161 | the exam starts at question 1 |
| CourseNav.ExamNavigator.SelectQuestion | src/course/tes/tes.js:163-183 | selecting number i makes question i+1 current, marks exactly that number active and updates width and buttons |
| CourseNav.ExamNavigator.Prev | src/course/tes/tes.js:185-189 | previous moves back one question and marks exactly its number active, and does nothing on the first |
| CourseNav.ExamNavigator.Next | src/course/tes/tes.js:191-211 | next moves forward one question and marks exactly its number active, and on question 10 submits without moving |
| AdminForm.BadgeTypeFor | frontend/js/admin.js:65-71 | a known difficulty maps to a badge tier, and an unknown one to undefined |
| AdminForm.BadgeMapAgreesWithSchema | frontend/js/admin.js:65-71 | the form's mapping sends each difficulty to a tier the course schema accepts |
| AdminForm.TrimAll | frontend/js/admin.js:76 | each piece is trimmed in place |
| AdminForm.DropEmpty | frontend/js/admin.js:76 | the filter keeps exactly the non-empty pieces; one piece is kept exactly when non-empty |
| AdminForm.DropEmptyAppend | frontend/js/admin.js:76 | filtering a concatenation is concatenating the filtered parts, which with the one-piece case fixes the order and multiplicity kept |
| AdminForm.ParseIdList | frontend/js/admin.js:76-77 | the ids are the comma-separated pieces, each trimmed, with the empty ones dropped; each is non-empty, trimmed and free of commas |
| AdminForm.ParseIdListOfJoin | frontend/js/admin.js:76-77 | whatever is typed between the commas, the ids are the typed pieces trimmed, empty ones dropped, in the order typed |
| AdminForm.ParseIdListJoin | frontend/js/admin.js:76-77 | parsing a comma-joined list of such ids gives the list back |
| AdminForm.DigitPrefix | frontend/js/admin.js:74-75 | the digit prefix is the longest prefix of digits in the radix |
| AdminForm.DecimalValue | frontend/js/admin.js:74-75 | the decimal spelling of a number reads back as that number |
| AdminForm.ParseIntDecimal | frontend/js/admin.js:74-75 | `parseInt` of a decimal numeral followed by a non-digit gives the numeral's value |
| AdminForm.ParseIntNegative | frontend/js/admin.js:74-75 | a minus sign before a decimal numeral gives the negated value |
| AdminForm.ParseIntSkipsSpace | frontend/js/admin.js:74-75 | white space before the number is skipped |
| AdminForm.ZeroXIsHex | frontend/js/admin.js:74-75 | "0x1A" reads as 26 in hexadecimal |
| AdminForm.ZeroXAloneIsNaN | frontend/js/admin.js:74-75 | a bare "0x" reads as NaN |
| AdminForm.ParseIntHex | frontend/js/admin.js:74-75 | "0x" and any non-empty run of hexadecimal digits, followed by anything that is not one, reads as the base-16 value of those digits |
| AdminForm.CoursePayload | frontend/js/admin.js:57-106 | the body carries the form's title, description and difficulty as typed, the mapped badge type, the placeholder for an empty thumbnail, the HTML, CSS and JavaScript fields as the course code, the parsed counts and the parsed id lists |
| AdminForm.FormCreatesCourse | frontend/js/admin.js:57-106 | the form's course is created exactly when title and description are filled and the difficulty is known, and its tier is the mapped one |
| AdminForm.CountsNotCheckedAgainstLists | frontend/js/admin.js:74-77 | a declared count of 3 with an empty id list is sent as it stands |

## Left out

- HTTP, authentication middleware, JSON encoding and status codes are left out. Each route's outcome is a `Result` whose error kind stands for the status.
- Alerts, console output and styling in the browser scripts are left out.
- Concurrency is left out. The read-modify-write of a progress record races with other requests on the same record. So do the count queries and the save.
- Ledger.RoundPercent: rounds the exact rational. The source rounds the floating-point value of `c / t * 100`, which can differ at an exact half.
- HtmlCourse.DisplayedProgress: models only the rounded text. The bar's width is the unrounded floating-point percentage and is not modelled.
- Text.LowerChar: maps only A to Z. JavaScript's `toLowerCase` also maps non-ASCII capitals.
- AdminForm.ParseInt: reads digits exactly. The source's number loses precision past 2^53.
- Ledger.ProgressLedger.CompleteIfDue: uses one time stamp for both badge ids. The source calls `Date.now()` separately for each.
- Ids are plain strings. A malformed id on any route is a cast error (400) in the source: the progress start, section, quiz and lookup routes and the course get, update, toggle and delete routes. Here it is a lookup that misses (not found).
- The schemas' `Number` fields (the metadata counts, the quiz score and the percentage) are integers here. Fractional, NaN and infinite numbers are not modelled.
- Ledger.ProgressLedger.SubmitQuiz: takes the score as an integer. A non-numeric score compared with `>=` is not modelled.
- Ledger.ProgressLedger.UserProgress: returns the records without the `populate` join of course fields. `Dashboard.CourseRef` models the populated shape the browser sees.
- Catalog.CourseCatalog.ListPublished: returns a map. The `courseCode` projection and any listing order are left out.
- Catalog.Updated: refuses an off-enum difficulty or badge type. Mongoose's `findByIdAndUpdate` runs no validators by default and would store it. So the publish toggle's save can fail here only on an empty title or description, not on such a stored enum value.
- The users, comments and authentication routes are not part of this model. Neither are the profile page and the comment and modal code in `frontend/js/main.js`.
- The second course-listing variant in `frontend/js/main.js` (lines 380-422) is not part of this model.
- The HTML course's section unlocking (the disabled class and attribute) is DOM only and is left out.
- The HTML course's simulated requests to `/complete-section` and `/complete-quiz` are left out. The server defines no such routes.
- CourseNav.ExamNavigator: assumes the exam strip has exactly ten numbers. The section panels are assumed present, and the initial exam button state comes from the markup.
- Option highlighting, audio and video buttons and scrolling in `src/course/tes/tes.js` are left out.

## Findings

None of these were executed. The route handlers and the client functions above keep the
code as written. Each corrected member stands beside its as-written one, with the
intended property proved about it.

| source | as written | input that shows it | evidently intended | confidence | as-written member | corrected member |
|---|---|---|---|---|---|---|
| backend/routes/progress.js:131-140 | platinum is due when the number of completed records, counted before the current record is saved, equals the number of published courses | published courses A, B and C; the user completed A and B and now completes C: the count is 2 against 3 | platinum when the completed courses together with the current one cover every published course | not executed; proved for every such input | Ledger.PlatinumMissedOnLastCourse | Ledger.PlatinumCorrectedByCount |
| backend/templates/course_template/script.js:99-111 | the template's quiz score is 0 or 1, sent as is to a server whose pass mark is 70 | the right answer gives score 1, stored as not passed | a right answer scores 100, as in the HTML course | not executed; proved for every answer | TemplateClient.TemplateQuizNeverPasses | TemplateClient.CorrectedQuizPassesIffCorrect |
| backend/templates/course_template/script.js:157 | the display reads `progress.completedQuizzes`, a field progress records do not have | any record returned by the progress route: `undefined.filter` throws | count passed quiz results, as `frontend/js/main.js` does | not executed; proved for every record | TemplateClient.DisplayAlwaysCrashes | TemplateClient.CorrectedDisplayBounded |
