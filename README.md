# Canvas-Agent, modelled in Dafny

Canvas-Agent is a set of Python scripts built around the Canvas LMS REST API. This
project models their decision logic as Dafny definitions and proves properties about them:

- **Daily planner** (`planners/daily-canvas-planner.py`).
  - Gathers planner items and course assignments from every configured Canvas instance and
    removes duplicates by a `name_due` key.
  - Keeps the work due within the next three and a half days, ordered by due time.
  - Classifies each item as a major test or not, assigns a priority marker, and reads the
    `ACTION_PLAN:` / `TIPS:` sections of the AI answer.
  - Writes the digest grouped by local date.
- **Debug listing** (`planners/debug-assignments.py`). Sorts every assignment into overdue,
  upcoming (30 days), future, no date or unparsable, then counts and labels each bucket.
- **Three-day scan** (`planners/scan-next-3-days.py`).
  - Skips courses that ended more than 60 days ago.
  - Lists assignments due on the local calendar days from today through today+3.
  - Flags exam-like names.
- **Automatic study guide** (`study_guides/auto-study-guide-generator.py`).
  - Selects the modules published before an exam and collects their page, assignment and
    discussion text.
  - Collects quiz questions with a 100-character de-duplication key.
  - Builds the prompt material and turns the AI answer into document paragraphs.
- **Interactive study guide** (`study_guides/canvas-study-guide-generator.py`).
  - Searches all instances' assignments by name, ignoring case.
  - Builds the resource list from the first ten modules and writes the guide.
- **Telegram bot** (`bots/telegram-bot-listener.py`).
  - Redacts bot tokens from log records.
  - Answers only the configured chat, dispatches `TEST`, `STATUS` and `HELP`, and reports
    the pipeline's outcome.

HTTP responses, the AI's answer, the current time and the outcome of the pipeline
subprocess are all inputs:

- a response is a `Fetch` value: `Ok(body)`, `BadStatus` or `Raised`;
- time is an instant in epoch seconds plus a fixed time-zone offset;
- a `.docx` call becomes an `Output` value.

Code that mutates state step by step is modelled as Dafny methods with loops. Each method is
proved equal to a specification function, and the properties are proved about that
function. Pure Python helpers are modelled as functions and lemmas.

Modules:

| module | what it covers |
|---|---|
| `Wrappers` | `Option` and `Fetch` |
| `CanvasData` | raw API records and Python truthiness |
| `Text` | ASCII string operations |
| `Timestamps` | parsing `%Y-%m-%dT%H:%M:%SZ`, epoch arithmetic, local dates |
| `Sorting` | Python's stable `list.sort` |
| `Html` | `clean_html` |
| `SafeName` | file-name sanitising |
| `PlannerCollect`, `DueWindow`, `PlannerClassify`, `PlannerDigest` | the daily planner |
| `DebugBuckets` | the debug listing |
| `ScanDays` | the three-day scan |
| `StudyMaterials`, `StudyQuizzes`, `StudyPrompt`, `GuideLines` | the automatic study guide |
| `GuideSearch` | the interactive study guide |
| `TelegramBot` | the Telegram bot |

## Model

| member | source | states |
|---|---|---|
| Timestamps.ParseFields | planners/daily-canvas-planner.py:198 | a due string is accepted only if it is a valid date and time, and it is exactly the `%Y-%m-%dT%H:%M:%SZ` rendering of what was parsed |
| Timestamps.ParseFormat | planners/daily-canvas-planner.py:198 | every valid date and time, once formatted, parses back to itself |
| Timestamps.ParseInstant | planners/daily-canvas-planner.py:198-200 | an instant is produced exactly when the fields parse |
| Timestamps.EpochOrder | planners/daily-canvas-planner.py:205-209 | comparing instants agrees with comparing dates and times field by field, in both directions |
| Timestamps.EpochInjective | planners/daily-canvas-planner.py:217 | distinct date-times get distinct instants, so sorting by instant orders by due time |
| Timestamps.EpochOrigin | planners/daily-canvas-planner.py:198-200 | 1970-01-01T00:00:00Z is instant 0 |
| Timestamps.LocalDateMonotone | planners/daily-canvas-planner.py:211 | a later instant never falls on an earlier local date |
| Timestamps.ClockAt | planners/daily-canvas-planner.py:183 | the clock keeps now's whole second and records whether any microseconds are past it |
| Timestamps.BeforeNowMicros | planners/daily-canvas-planner.py:205 | `due < now` for a whole-second due instant agrees with `<` on now's full microsecond reading |
| Timestamps.WithinMicros | planners/daily-canvas-planner.py:187-209 | `due <= now + d` for whole seconds does not depend on now's microseconds |
| Timestamps.SameSecond | planners/daily-canvas-planner.py:205 | an instant in now's own second is before now exactly when the clock is past that second |
| Timestamps.LocalTimeOfDay | planners/scan-next-3-days.py:34 | the local time of day lies within one day |
| Timestamps.DigitsDecimal | planners/daily-canvas-planner.py:560 | the decimal rendering of a number reads back as that number |
| Timestamps.PadDigits | planners/daily-canvas-planner.py:198 | a fixed-width digit field is the zero-padded rendering of its value |
| Sorting.SortBy | planners/daily-canvas-planner.py:217 | sorting is a permutation of its input |
| Sorting.SortSorted | planners/daily-canvas-planner.py:217 | the result is ordered by the key |
| Sorting.SortStable | planners/daily-canvas-planner.py:217 | items with equal keys keep their original relative order |
| Sorting.SortIdentity | planners/daily-canvas-planner.py:217 | an already ordered list is left unchanged |
| Html.StripTags | planners/daily-canvas-planner.py:233 | removing tags never adds characters and never lengthens the text |
| Html.Collapse | planners/daily-canvas-planner.py:235 | after collapsing, whitespace appears only as single spaces, emptiness is preserved, and a leading space exists exactly when the input started with whitespace |
| Html.CleanHtmlNormalized | planners/daily-canvas-planner.py:228-236 | cleaned text is stripped and single-spaced |
| Html.StripTagsNoTag | study_guides/auto-study-guide-generator.py:38 | text without `<` passes the tag removal unchanged |
| Html.CollapseSingleSpaced | study_guides/auto-study-guide-generator.py:39 | already single-spaced text passes whitespace collapsing unchanged |
| Html.CleanHtmlFixpoint | study_guides/canvas-study-guide-generator.py:53-59 | clean text with no `<` is a fixed point of `clean_html` |
| Html.StripNormalizes | study_guides/canvas-study-guide-generator.py:53-59 | stripping single-spaced text leaves it normalised |
| Html.SinglePassLeavesTag | study_guides/auto-study-guide-generator.py:38 | one tag-removal pass can leave a tag behind (`<a<b>c>` gives `<ac>`), so `clean_html` is not idempotent |
| SafeName.DropOthers | study_guides/auto-study-guide-generator.py:520 | only word characters, whitespace and hyphens survive the first substitution |
| SafeName.JoinWithHyphens | study_guides/auto-study-guide-generator.py:521 | each run of hyphens and whitespace becomes one hyphen; no whitespace and no doubled hyphen remain |
| SafeName.SanitizeSafe | study_guides/auto-study-guide-generator.py:520-521 | a sanitised name contains only word characters and single hyphens |
| SafeName.SanitizeIdempotent | study_guides/canvas-study-guide-generator.py:319-323 | sanitising twice equals sanitising once |
| SafeName.SanitizeKeepsWords | study_guides/auto-study-guide-generator.py:520-521 | sanitising keeps exactly the word characters of the name, in order |
| SafeName.ComprehensiveFileName | study_guides/auto-study-guide-generator.py:524 | the output file name ends in `-COMPREHENSIVE-study-guide.docx` |
| SafeName.ComprehensiveNoSlash | study_guides/auto-study-guide-generator.py:520-524 | the sanitised exam guide name holds no `/`, so it is one path component |
| SafeName.JoinPath | study_guides/auto-study-guide-generator.py:524 | `os.path.join` of a directory and a relative name: starts with the directory, ends with the name, with one `/` between them unless the directory is empty or ends in `/` |
| SafeName.ComprehensiveInDirectory | study_guides/auto-study-guide-generator.py:522-524 | the joined path ends with the guide's file name, preceded by a `/` |
| SafeName.StudyGuideFileName | study_guides/canvas-study-guide-generator.py:319-323 | the output file name ends in `-study-guide.docx` |
| PlannerCollect.DedupKeys | planners/daily-canvas-planner.py:119-122 | de-duplication keeps every key that occurred |
| PlannerCollect.DedupUnique | planners/daily-canvas-planner.py:164-167 | no key appears twice after de-duplication |
| PlannerCollect.DedupNoDupId | planners/daily-canvas-planner.py:119-122 | a list without repeated keys is unchanged |
| PlannerCollect.DedupKeepsFirsts | planners/daily-canvas-planner.py:119-122 | de-duplication keeps exactly the first occurrence of each key, in order |
| PlannerCollect.DedupPrefix | planners/daily-canvas-planner.py:119-122 | items accepted earlier are never displaced by later ones |
| PlannerCollect.DedupMerge | planners/daily-canvas-planner.py:129-171 | continuing from an already de-duplicated list equals de-duplicating the whole stream |
| PlannerCollect.DedupPair | planners/daily-canvas-planner.py:119 | of two items, the second is kept exactly when its key differs |
| PlannerCollect.KeyCollision | planners/daily-canvas-planner.py:119 | distinct name/due pairs can share a `name_due` key (`a_b`+`c` against `a`+`b_c`), and then one of them is dropped |
| PlannerCollect.PlannerItems | planners/daily-canvas-planner.py:102-122 | one work item per planner record |
| PlannerCollect.Collect | planners/daily-canvas-planner.py:86-176 | an instance whose requests raise yields nothing; otherwise the result has unique keys and covers every key of the planner-then-courses stream |
| PlannerCollect.PlannerFirst | planners/daily-canvas-planner.py:102-122 | de-duplicated planner items come first, ahead of any assignment |
| PlannerCollect.AssignmentItemsDue | planners/daily-canvas-planner.py:151-152 | every item taken from an assignment has a truthy due date |
| PlannerCollect.CoursesItemsDue | planners/daily-canvas-planner.py:129-171 | the course scan contributes only items with a due date |
| PlannerCollect.OneOfEach | planners/daily-canvas-planner.py:86-176 | one planner item and one assignment yield that stream, in that order |
| PlannerCollect.NullDueDates | planners/daily-canvas-planner.py:151-152 | a planner item without a date is kept, but an assignment without a due date is not |
| PlannerCollect.BadStatusIsEmpty | planners/daily-canvas-planner.py:102-104 | a planner request with a bad status counts as an empty planner |
| PlannerCollect.PlannerWins | planners/daily-canvas-planner.py:164-167 | when a planner item and an assignment share a key, the planner item is kept |
| PlannerCollect.Step | planners/daily-canvas-planner.py:119-122 | one step of the seen-set loop extends the de-duplicated stream |
| PlannerCollect.MergePlanner | planners/daily-canvas-planner.py:102-122 | the planner loop computes the de-duplicated planner items and their key set |
| PlannerCollect.MergeAssignments | planners/daily-canvas-planner.py:145-167 | the assignment loop extends the de-duplicated stream |
| PlannerCollect.MergeCourse | planners/daily-canvas-planner.py:131-167 | a course is skipped or scanned as the source decides, and `raised` reports exactly an exception |
| PlannerCollect.MergeCourses | planners/daily-canvas-planner.py:129-171 | the course loop raises exactly when some course does, and otherwise de-duplicates all course items |
| PlannerCollect.CollectInstance | planners/daily-canvas-planner.py:86-176 | `get_canvas_all_items` computes `Collect` |
| PlannerCollect.CollectInstances | planners/daily-canvas-planner.py:433-437 | `main` concatenates the instances' lists |
| PlannerCollect.CrossInstanceRepeats | planners/daily-canvas-planner.py:433-437 | an item found in two instances appears twice, because instance lists are never de-duplicated against each other |
| DueWindow.Schedule | planners/daily-canvas-planner.py:192-212 | an item is kept iff its due time is truthy, parses, is not before now on the full clock, and is at most 3d12h after now; it keeps its local date |
| DueWindow.DueThisSecond | planners/daily-canvas-planner.py:205 | an item due in the second of now is kept iff the clock shows no microseconds past it |
| DueWindow.FilterDueSoon | planners/daily-canvas-planner.py:178-226 | `filter_due_next_3_days` computes the window sorted by due time |
| DueWindow.WindowMembers | planners/daily-canvas-planner.py:192-212 | an entry is in the window exactly when its item is one of the inputs and the due-time rule keeps that item as that entry |
| DueWindow.SortKeepsMembers | planners/daily-canvas-planner.py:217 | sorting loses and invents no item |
| DueWindow.DueSoonSound | planners/daily-canvas-planner.py:178-226 | every listed item is one of the inputs, has a parsable due date, and is due in the window |
| DueWindow.DueSoonComplete | planners/daily-canvas-planner.py:178-226 | every input due in the window is listed |
| DueWindow.DueSoonOrdered | planners/daily-canvas-planner.py:217 | the list is ordered by due time, a permutation of the window, and stable for equal times |
| PlannerClassify.MidtermExamRedundant | planners/daily-canvas-planner.py:327-331 | a name with "midterm exam" is already caught by "midterm" |
| PlannerClassify.MidtermExample | planners/daily-canvas-planner.py:321-341 | "Midterm Exam 1" is a major test, whatever its points |
| PlannerClassify.ExamPointsExample | planners/daily-canvas-planner.py:334-338 | "Exam 3" is a major test at 50 points and not at 40 |
| PlannerClassify.RespondusExample | planners/daily-canvas-planner.py:337-339 | a description mentioning Respondus LockDown Browser makes a major test |
| PlannerClassify.PriorityOf | planners/daily-canvas-planner.py:343-359 | a major test outranks the date; otherwise due today, due tomorrow or routine, each if and only if its condition holds |
| PlannerClassify.PlanSections | planners/daily-canvas-planner.py:296-311 | the parsed sections contain neither marker |
| PlannerClassify.ParseSections | planners/daily-canvas-planner.py:296-319 | no answer gives the fallback; an answer without `ACTION_PLAN:` gives empty sections; sections never contain a marker |
| PlannerClassify.ParseSectionsRoundTrip | planners/daily-canvas-planner.py:296-311 | an answer built from a stripped plan and stripped tips without colons parses back to them |
| PlannerClassify.OrdinalSuffixEnglish | planners/daily-canvas-planner.py:555-559 | the day suffix is the English ordinal suffix for every day 1..31 (11th, 12th, 13th included) |
| PlannerClassify.CourseCode | planners/daily-canvas-planner.py:570-571 | the short course code contains no space and no `(`, and only characters of the course name |
| PlannerClassify.CourseCodeIdempotent | planners/daily-canvas-planner.py:570-571 | shortening an already short code changes nothing |
| PlannerClassify.CourseCodeExample | planners/daily-canvas-planner.py:570-571 | "MGMT 311 (Winter 2026; 23330)" becomes "MGMT311" |
| PlannerDigest.GroupByDate | planners/daily-canvas-planner.py:539-545 | the grouping loop builds the date-to-items map and the order of first appearance |
| PlannerDigest.GroupsOnDate | planners/daily-canvas-planner.py:539-545 | each date's group is exactly the items on that date, in list order, and a date is absent exactly when it has no items |
| PlannerDigest.GroupKeys | planners/daily-canvas-planner.py:539-545 | the grouped dates are exactly the items' dates, each once |
| PlannerDigest.SortedDates | planners/daily-canvas-planner.py:551-553 | every sorted date is a key of the grouping |
| PlannerDigest.FlattenGroups | planners/daily-canvas-planner.py:551-585 | reading the groups date by date rebuilds a date-sorted list exactly |
| PlannerDigest.DigestKeepsOrder | planners/daily-canvas-planner.py:551-585 | the digest lists a date-sorted list unchanged |
| PlannerDigest.DueSoonDateSorted | planners/daily-canvas-planner.py:217 | the due-soon list is ordered by local date |
| PlannerDigest.DigestListsDueSoon | planners/daily-canvas-planner.py:539-585 | the digest lists every due-soon item once, in due-time order |
| DebugBuckets.BucketOf | planners/debug-assignments.py:78-104 | no-date iff the due date is falsy, unparsable iff it is truthy but does not parse; overdue iff before now on the full clock; upcoming from now while the local date is at most 30 days after today's; future beyond |
| DebugBuckets.CategorizeLoop | planners/debug-assignments.py:78-108 | the loop and the two sorts compute the four buckets |
| DebugBuckets.BucketCounts | planners/debug-assignments.py:166-170 | the four counts plus unparsable records add up to all records |
| DebugBuckets.SummaryCounts | planners/debug-assignments.py:166-170 | the summary's counts are the bucket sizes, and the parsed three never exceed the total |
| DebugBuckets.PicksMembers | planners/debug-assignments.py:78-104 | a dated bucket holds exactly the records that land in it |
| DebugBuckets.OverdueExactly | planners/debug-assignments.py:97-98 | an entry is overdue exactly when it was one of the records and is due before now |
| DebugBuckets.UpcomingExactly | planners/debug-assignments.py:99-100 | an entry is upcoming exactly when it is due from now on with a local date at most 30 days after today's; such a date is never before today |
| DebugBuckets.FutureExactly | planners/debug-assignments.py:101-102 | an entry is future exactly when its local date is more than 30 days after today's |
| DebugBuckets.BucketOrder | planners/debug-assignments.py:107-108 | overdue is latest first, upcoming is soonest first, and both are stable for equal times |
| DebugBuckets.UpcomingLabel | planners/debug-assignments.py:137-151 | red for today, yellow for tomorrow, green up to 3 days, blue up to 7, white beyond, each if and only if |
| DebugBuckets.UpcomingLabelRange | planners/debug-assignments.py:137-151 | every upcoming entry gets a label for a day count of 0..30 |
| DebugBuckets.DueThisSecond | planners/debug-assignments.py:97-100 | a record due in the second of now is overdue iff the clock is past that second, and upcoming otherwise |
| ScanDays.CourseActive | planners/scan-next-3-days.py:52-73 | a course is scanned if and only if it has an id, is neither completed nor deleted, and has no parsable end before now minus 60 days on the full clock |
| ScanDays.CollectActive | planners/scan-next-3-days.py:52-73 | the course loop keeps the active courses in order |
| ScanDays.ActiveCoursesMembers | planners/scan-next-3-days.py:52-73 | a course is kept exactly when it is one of the courses and is active |
| ScanDays.UnparsableEndKept | planners/scan-next-3-days.py:63-71 | an `end_at` that does not parse keeps the course |
| ScanDays.EndedSixtyDaysAgo | planners/scan-next-3-days.py:68 | a course that ended in the second exactly 60 days before now is kept iff the clock shows no microseconds past it |
| ScanDays.CourseItems | planners/scan-next-3-days.py:77-85 | one item per assignment, tagged with the course name or "Unknown" and the instance name |
| ScanDays.AppendCourse | planners/scan-next-3-days.py:77-85 | the inner loop appends one course's items |
| ScanDays.AppendCourses | planners/scan-next-3-days.py:77-85 | the course loop appends every active course's items |
| ScanDays.CollectAll | planners/scan-next-3-days.py:52-85 | the instance loop gathers every active course's assignments |
| ScanDays.AllItemsAppend | planners/scan-next-3-days.py:77-85 | gathering distributes over instances |
| ScanDays.NoDeduplication | planners/scan-next-3-days.py:77-85 | an instance listed twice contributes its items twice |
| ScanDays.Pick | planners/scan-next-3-days.py:92-115 | an item is kept iff its due date is truthy, parsable, not before now on the full clock, and on a local date from today to today+3 |
| ScanDays.FilterNextThreeDays | planners/scan-next-3-days.py:92-118 | the filtering loop and the sort compute the window ordered by due time |
| ScanDays.PicksMembers | planners/scan-next-3-days.py:92-115 | the window holds exactly the kept items |
| ScanDays.WindowExactly | planners/scan-next-3-days.py:92-118 | an entry is listed iff its item is collected and its parsed due date lies on days today..today+3 |
| ScanDays.KeptDays | planners/scan-next-3-days.py:152-161 | every listed entry is 0..3 days away |
| ScanDays.WindowOrder | planners/scan-next-3-days.py:118 | the list is ordered by due time and stable for equal times |
| ScanDays.CalendarWindowWiderThanPlanner | planners/scan-next-3-days.py:34-36 | a calendar-day window keeps work due late on day 3, which the planner's `now+3d12h` horizon drops for a morning run |
| ScanDays.ExamType | planners/scan-next-3-days.py:131-150 | midterm wins over final, final over exam, exam over test; empty iff no keyword |
| ScanDays.ExamIffKeyword | planners/scan-next-3-days.py:131-150 | an item is flagged iff its lower-cased name contains one of the four keywords |
| ScanDays.DetectExam | planners/scan-next-3-days.py:131-150 | the detection loop flags exactly when a type is named, and names the precedence winner |
| ScanDays.Urgency | planners/scan-next-3-days.py:152-161 | the scan's label for today, tomorrow, two days and later |
| ScanDays.LaddersAgree | planners/scan-next-3-days.py:152-161 | for 0..3 days the scan's wording agrees with the debug listing's |
| ScanDays.KeptUrgency | planners/scan-next-3-days.py:152-161 | every listed entry gets one of the four scan labels |
| StudyMaterials.MentionsAnyLoop | study_guides/auto-study-guide-generator.py:73 | the keyword loop finds a match exactly when some keyword occurs |
| StudyMaterials.SelectModules | study_guides/auto-study-guide-generator.py:42-102 | the module loop computes the before-exam selection, or nothing on a failed request |
| StudyMaterials.FilterMembers | study_guides/auto-study-guide-generator.py:69-96 | a module is selected exactly when it is listed and passes the rule |
| StudyMaterials.FilterAppend | study_guides/auto-study-guide-generator.py:69-96 | selection keeps listing order |
| StudyMaterials.ExcludedNeverSelected | study_guides/auto-study-guide-generator.py:51-74 | a module naming any excluded keyword is never selected |
| StudyMaterials.UnlockRule | study_guides/auto-study-guide-generator.py:79-92 | a module with an unlock date is selected iff that date parses and is before the exam |
| StudyMaterials.WeekFallbackExample | study_guides/auto-study-guide-generator.py:93-96 | a "Week 5" module without an unlock date is selected |
| StudyMaterials.LibraryGuideExample | study_guides/auto-study-guide-generator.py:51-74 | a "Library Guide" module is excluded even when unlocked long before |
| StudyMaterials.ItemEntry | study_guides/auto-study-guide-generator.py:250-304 | only pages with a URL, assignments with `page_url`, and discussions produce an entry, and only with non-empty cleaned text |
| StudyMaterials.GatherItems | study_guides/auto-study-guide-generator.py:250-304 | the item loop collects the entries of one module |
| StudyMaterials.GatherContent | study_guides/auto-study-guide-generator.py:246-304 | the module loop collects all entries |
| StudyMaterials.ContentSound | study_guides/auto-study-guide-generator.py:231-307 | every entry comes from an item of a selected module and has non-empty normalised text |
| StudyMaterials.ContentAppend | study_guides/auto-study-guide-generator.py:246-304 | content collection keeps module order |
| StudyMaterials.RepeatedModuleRepeats | study_guides/auto-study-guide-generator.py:246-304 | a module listed twice contributes its content twice |
| StudyMaterials.AssignmentNeedsPageUrl | study_guides/auto-study-guide-generator.py:269 | an assignment item without `page_url` adds nothing |
| StudyMaterials.GenerateStudyGuide | study_guides/auto-study-guide-generator.py:489-530 | a document is written iff there is content and an answer; its path is the output directory joined with `{safe_name}-COMPREHENSIVE-study-guide.docx` |
| StudyMaterials.GuidePathNamesExam | study_guides/auto-study-guide-generator.py:519-530 | a returned path starts with the output directory and ends with `/` and the sanitised exam name plus `-COMPREHENSIVE-study-guide.docx`, which holds no `/` |
| StudyQuizzes.OptionsSuffix | study_guides/auto-study-guide-generator.py:200-206 | the options text is empty or starts with the options lead-in |
| StudyQuizzes.AddQuestion | study_guides/auto-study-guide-generator.py:208-217 | a question is appended iff its text is non-empty and its 100-character prefix is unseen; nothing else changes |
| StudyQuizzes.AlreadyStored | study_guides/auto-study-guide-generator.py:211 | the duplicate scan finds a stored question with that prefix exactly when one exists |
| StudyQuizzes.StoreQuestions | study_guides/auto-study-guide-generator.py:196-217 | the question loop computes the accumulated list |
| StudyQuizzes.StoreFromSubmissions | study_guides/auto-study-guide-generator.py:177-221 | the submission loop computes the accumulated list |
| StudyQuizzes.GetQuizQuestions | study_guides/auto-study-guide-generator.py:125-229 | the quiz loop computes the collected questions, or none on a failed request |
| StudyQuizzes.AddQuestionsExtends | study_guides/auto-study-guide-generator.py:196-217 | questions are only ever appended |
| StudyQuizzes.FromSubmissionsExtends | study_guides/auto-study-guide-generator.py:177-221 | submissions only append |
| StudyQuizzes.FromQuizzesExtends | study_guides/auto-study-guide-generator.py:140-221 | quizzes only append |
| StudyQuizzes.SkippedQuizAddsNothing | study_guides/auto-study-guide-generator.py:142-152 | a quiz due at or after the exam adds nothing |
| StudyQuizzes.FirstAnsweredAttemptOnly | study_guides/auto-study-guide-generator.py:219-221 | after the first attempt with questions, later attempts are ignored |
| StudyQuizzes.StoredPrefixIsKey | study_guides/auto-study-guide-generator.py:210-211 | when no line break falls in the first 100 characters, the stored prefix is the question's key |
| StudyQuizzes.OptionsBreakKept | study_guides/auto-study-guide-generator.py:206-214 | for a short question with options, the stored prefix contains the options' line break |
| StudyQuizzes.AddQuestionUnique | study_guides/auto-study-guide-generator.py:208-217 | adding a question keeps stored prefixes distinct |
| StudyQuizzes.QuizQuestionsUnique | study_guides/auto-study-guide-generator.py:125-229 | no two collected questions share a 100-character prefix |
| StudyQuizzes.ShortChoiceQuestionRepeats | study_guides/auto-study-guide-generator.py:210-217 | a short multiple-choice question seen in two quizzes is stored twice, because the stored text carries its options |
| StudyQuizzes.LongQuestionOnce | study_guides/auto-study-guide-generator.py:210-217 | a question of at least 100 characters is stored once |
| StudyPrompt.MatchAt | study_guides/auto-study-guide-generator.py:315 | a match starts with "ch" and captures a non-empty run of digits, spaces and commas |
| StudyPrompt.Search | study_guides/auto-study-guide-generator.py:315 | the search returns the leftmost match position, or none when nothing matches |
| StudyPrompt.ChaptersCovered | study_guides/auto-study-guide-generator.py:315-318 | the chapter list is stripped digits, spaces and commas; absent iff the regex matches nowhere |
| StudyPrompt.ChapterListExample | study_guides/auto-study-guide-generator.py:315-318 | "Ch 1, 2" covers "1, 2" |
| StudyPrompt.EmptyChapterListExample | study_guides/auto-study-guide-generator.py:315-318 | "Ch review" matches with an empty chapter list |
| StudyPrompt.NoChapterListWithoutCh | study_guides/auto-study-guide-generator.py:315-318 | a name without "ch" has no chapter list |
| StudyPrompt.Block | study_guides/auto-study-guide-generator.py:323-324 | each entry is its header plus at most 2000 characters of its content |
| StudyPrompt.PromptMaterial | study_guides/auto-study-guide-generator.py:332 | the material is a prefix of the content text of at most 12000 characters, the whole text when short enough |
| StudyPrompt.BuildContentText | study_guides/auto-study-guide-generator.py:321-324 | the concatenation loop computes the content text |
| StudyPrompt.BlocksAppend | study_guides/auto-study-guide-generator.py:321-324 | blocks concatenate in entry order |
| StudyPrompt.EntryBlockPlaced | study_guides/auto-study-guide-generator.py:321-324 | each of the first 25 entries' blocks sits between those of its neighbours |
| StudyPrompt.LaterEntriesIgnored | study_guides/auto-study-guide-generator.py:322 | entries after the 25th never reach the prompt |
| StudyPrompt.MaterialGrows | study_guides/auto-study-guide-generator.py:321-332 | more content never removes prompt material already there |
| GuideLines.AutoLine | study_guides/auto-study-guide-generator.py:434-453 | blank lines become empty paragraphs; headings have levels 1..3, and those other than level 2 come from `#` lines |
| GuideLines.CanvasLine | study_guides/canvas-study-guide-generator.py:215-228 | blank lines are skipped; the rest become level-2 headings or paragraphs |
| GuideLines.RenderAuto | study_guides/auto-study-guide-generator.py:434-453 | the paragraph loop writes one output per line of the answer |
| GuideLines.RenderCanvas | study_guides/canvas-study-guide-generator.py:215-228 | the paragraph loop writes the non-blank lines |
| GuideLines.UnboldKeepsFirst | study_guides/auto-study-guide-generator.py:442 | removing `**` keeps a first character that is not a star |
| GuideLines.UnboldNoDoubleStar | study_guides/auto-study-guide-generator.py:442 | removing `**` leaves no `**` |
| GuideLines.BoldHeadingText | study_guides/auto-study-guide-generator.py:441-443 | a bold line becomes a level-2 heading without `**`, made of the line's characters |
| GuideLines.HashLevelCountsAll | study_guides/auto-study-guide-generator.py:444-447 | a `#` heading's level counts every `#` in the line, capped at 3 |
| GuideLines.HashLevelExample | study_guides/auto-study-guide-generator.py:444-447 | `#A#` becomes a level-2 heading "A#" |
| GuideLines.GeneratorsAgree | study_guides/canvas-study-guide-generator.py:215-228 | the two generators agree on blank lines and on heading texts |
| GuideLines.SplitCount | study_guides/auto-study-guide-generator.py:434 | splitting on line breaks gives one more piece than there are breaks |
| GuideLines.AutoDocumentLength | study_guides/auto-study-guide-generator.py:434-453 | the comprehensive guide writes exactly one output per line |
| GuideLines.KeepLinesFrom | study_guides/canvas-study-guide-generator.py:215-228 | every kept output comes from a line, and all are kept iff none is skipped |
| GuideLines.CanvasDocumentLines | study_guides/canvas-study-guide-generator.py:215-228 | the document has only paragraphs and level-2 headings, at most one per line, one per line iff no line is blank |
| GuideSearch.Annotate | study_guides/canvas-study-guide-generator.py:84-89 | each assignment is annotated with its course's name (or "Unknown"), id and instance URL |
| GuideSearch.CollectCourses | study_guides/canvas-study-guide-generator.py:75-89 | the course loop collects one instance's assignments |
| GuideSearch.CollectAll | study_guides/canvas-study-guide-generator.py:67-91 | the instance loop collects all assignments |
| GuideSearch.FilterByName | study_guides/canvas-study-guide-generator.py:94-95 | the filter loop keeps matching names |
| GuideSearch.SearchAssignments | study_guides/canvas-study-guide-generator.py:61-97 | `search_canvas_assignment` computes the search result |
| GuideSearch.MatchingMembers | study_guides/canvas-study-guide-generator.py:94-95 | a result is exactly a collected assignment whose name contains the query, ignoring case |
| GuideSearch.MatchingAppend | study_guides/canvas-study-guide-generator.py:94-95 | matches keep collection order |
| GuideSearch.EmptyQueryMatchesAll | study_guides/canvas-study-guide-generator.py:94-95 | the empty query matches everything |
| GuideSearch.SearchIgnoresCase | study_guides/canvas-study-guide-generator.py:94-95 | upper-casing the query changes nothing |
| GuideSearch.CourseWithoutIdSkipped | study_guides/canvas-study-guide-generator.py:75-77 | a course without an id adds nothing |
| GuideSearch.RaisedEndsInstance | study_guides/canvas-study-guide-generator.py:70-91 | an exception keeps the earlier courses' assignments and drops the rest of the instance |
| GuideSearch.Chosen | study_guides/canvas-study-guide-generator.py:267-279 | no assignment is chosen iff none matches; a chosen one is a match |
| GuideSearch.ListOrEmpty | study_guides/canvas-study-guide-generator.py:113-125 | a response's list on success, otherwise empty |
| GuideSearch.ModuleLines | study_guides/canvas-study-guide-generator.py:296-306 | one resource line per item of a module, naming the module or "Unknown Module", with the separator spelled as in the file (U+201A U+00DC U+00ED) |
| GuideSearch.BuildModulesInfo | study_guides/canvas-study-guide-generator.py:293-306 | the module loop computes the resource lines |
| GuideSearch.LinesOfAppend | study_guides/canvas-study-guide-generator.py:294-306 | resource lines keep module order |
| GuideSearch.LinesOfSound | study_guides/canvas-study-guide-generator.py:294-306 | every resource line names a module and one of its items |
| GuideSearch.LaterModulesIgnored | study_guides/canvas-study-guide-generator.py:294 | modules after the tenth never appear |
| GuideSearch.FailedModuleAddsNothing | study_guides/canvas-study-guide-generator.py:113-125 | a module whose items request fails contributes no line |
| GuideSearch.ResourceEntries | study_guides/canvas-study-guide-generator.py:136 | each resource becomes a `- ` list entry |
| GuideSearch.PromptResources | study_guides/canvas-study-guide-generator.py:146 | the placeholder appears iff there are no resources |
| GuideSearch.ResourcesTextStart | study_guides/canvas-study-guide-generator.py:136 | the list text is empty iff there are no resources, and otherwise starts with `-` |
| GuideSearch.DocResources | study_guides/canvas-study-guide-generator.py:233-236 | the document lists a prefix of at most 30 resources, all when there are no more |
| TelegramBot.BotMatch | bots/telegram-bot-listener.py:37 | a match is `bot`, digits, `:`, then token characters, and extends as far as it can |
| TelegramBot.BareMatch | bots/telegram-bot-listener.py:38 | a match is exactly 10 digits, `:`, then 35 token characters |
| TelegramBot.NoMatchUnchanged | bots/telegram-bot-listener.py:37-38 | text where the pattern matches nowhere is unchanged |
| TelegramBot.NoColonUnchanged | bots/telegram-bot-listener.py:37-38 | text without a colon passes redaction unchanged |
| TelegramBot.BotTokenHidden | bots/telegram-bot-listener.py:37 | `bot<digits>:<token>` is replaced in full |
| TelegramBot.BareTokenHidden | bots/telegram-bot-listener.py:38 | a bare 10-digit token is replaced in full |
| TelegramBot.RedactArgs | bots/telegram-bot-listener.py:39-46 | string arguments are redacted, other arguments kept, order and count preserved |
| TelegramBot.ColonFreeArgsKept | bots/telegram-bot-listener.py:39-46 | arguments without colons are kept as they are |
| TelegramBot.LogRecord.constructor | bots/telegram-bot-listener.py:32-34 | a record holds its message and arguments |
| TelegramBot.LogRecord.Filter | bots/telegram-bot-listener.py:34-47 | the record is always kept; a string message and its arguments are redacted, and a non-string message leaves everything unchanged |
| TelegramBot.Dispatch | bots/telegram-bot-listener.py:132-158 | other chats are ignored; `TEST`, `STATUS` and `HELP` are recognised after stripping and upper-casing |
| TelegramBot.CommandIgnoresCaseAndPadding | bots/telegram-bot-listener.py:139 | " test\n" runs the pipeline |
| TelegramBot.LeadingZeroIdMatchesNoChat | bots/telegram-bot-listener.py:135-137 | a configured id with a leading zero never matches, because ids are compared as text |
| TelegramBot.PipelineOutcome | bots/telegram-bot-listener.py:74-101 | success iff the exit code is 0; a timeout or exception is a failure with its message |
| TelegramBot.ErrorMessage | bots/telegram-bot-listener.py:150 | at most 500 characters of stderr, or "Unknown error" when stderr is empty |
| TelegramBot.SuccessReplyIffZeroExit | bots/telegram-bot-listener.py:145-151 | the success reply is sent iff the pipeline exits with 0 |
| TelegramBot.NonZeroExitReportsUnknownError | bots/telegram-bot-listener.py:96 | a non-zero exit reports "Unknown error", because the output goes to stdout |
| TelegramBot.Replies | bots/telegram-bot-listener.py:132-158 | no reply outside the configured chat; `TEST` gives the running notice and then the outcome; `STATUS` and `HELP` give their texts |

## Left out

- HTTP requests, credentials, file loading, Telegram sending, OpenAI calls and python-docx are
  not modelled. Responses, the AI answer and the pipeline's outcome are inputs, and document
  calls are `Output` values.
- The guide's output directory (`~/Documents/Canvas Study Guides`) is the parameter
  `outputDir`. `expanduser` and `os.makedirs` are not modelled.
- The `America/Los_Angeles` zone is a fixed offset in seconds, so daylight-saving changes are
  not modelled. `timedelta` arithmetic on zoned datetimes (`now + 3 days 12 hours`, `now - 60
  days`) is treated as arithmetic on instants.
- The current time is a parameter: a `Timestamps.Clock` of whole epoch seconds and whether
  microseconds are past that second, which is all a comparison with whole-second due dates
  can see. Reading the clock is not modelled.
- `strptime` is modelled for the exact `%Y-%m-%dT%H:%M:%SZ` shape only.
- Strings are ASCII. Unicode `\w`, `\s`, `upper`, `lower` and `strip` are not modelled.
- `get_time_until_due` and `create_telegram_summary` in the daily planner are never called
  there, so they are not modelled.
- A JSON `null` is modelled like a missing key, so the default is used where the source
  crashes or gives up:
- PlannerItems (PlannerCollect.PlannerItems): a `null` title becomes "Unnamed". The source
  keeps `None`, keys the item `None_<due>`, and, once the item is in the due-soon list, fails
  on `None.lower()` in `is_major_test`, which ends the planner run with its error message.
- IsMajorTest (PlannerClassify.IsMajorTest): a `null` `points_possible` reads as 0. The
  source raises `TypeError` when the name contains "exam" and no earlier keyword matched,
  which ends the planner run. Fractional points are not modelled; points are integers.
- DetectExam (ScanDays.DetectExam): a `null` name is classified as "Unnamed". The source
  fails on `None.lower()` for a listed item, and the scan ends.
- MatchingMembers (GuideSearch.MatchingMembers): a `null` assignment name is matched as "".
  The source's comprehension raises `AttributeError` instead.
- SelectModules (StudyMaterials.SelectModules): a `null` module name is read as "". The
  source fails on `None.lower()`, catches the error, and returns no modules for that course.
- `main`'s `importlib` loading, course lookup, messages and printing are not modelled.
- The bot's polling, `async` handlers, subprocess streaming, logging configuration and
  `print` calls are not modelled. `run_pipeline` enters as a `RunResult`.
- `record.args` given as a dictionary is not modelled. Arguments are a sequence.
- The record and item mutations the scripts perform (`due_datetime_parsed`, `record.msg`)
  are modelled as new values. Aliasing between dictionaries is not modelled.
- `get_quiz_questions` is modelled on its own. Its result never reaches the automatic guide,
  because `get_all_content_before_exam` sets `quiz_questions = []` and never uses it.
- The debug listing's collection loop (`planners/debug-assignments.py:38-72`) is not
  modelled. The records it gathers are an input.
- An exception in the three-day scan ends the script, so it is not modelled as a value.
- A course listing that is not a JSON list is not modelled.
- Emoji markers are datatype constructors. The wording of messages, prompts and documents
  is modelled only where a property depends on it.
- The `tests/` scripts are not part of this model.
