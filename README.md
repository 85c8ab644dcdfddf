# Goal-Genie plan parsing and progress tracking, in Dafny

Goal-Genie turns a learning goal into a multi-day study plan. The backend asks a
generative-text model for a plan in a fixed text format. It then cuts the
answer into day records `{ day, task }`, where `task` is the raw text of that
day's sections and tasks. The goal page in the frontend parses each record's
text back into sections, tasks and subtasks. It keeps a map of ticked
checkboxes and shows the percentage of ticked items.

This project models four pieces of that pipeline and proves properties about them:

- **DaySplitter** (`day_splitter.dfy`) models the day splitter of
  `generatePlanFromGoal`. It covers the two regular expressions as
  leftmost-match searches, the single pass over trimmed lines and the final
  flush. It also covers the one-day fallback plan returned when the generation
  call throws. The generation outcome is an input.
- **TaskParser** (`task_parser.dfy`) models `parseTasks` on one day's text.
  It covers section headers, task lines split on `:` and then on a separator,
  and the `TypeError` thrown by a task line that comes before any header,
  which is modelled as a `Failure`. The loop is the method `ParseTasks`,
  proved equal to the specification function `Parse`.
- **Completion** (`completion.dfy`) models the page state as the class
  `GoalPage`. It covers the checkbox initialisation, `handleCheckboxChange`
  and the progress effect. The nested counting loops are methods proved
  equal to counting functions, and the counting functions are related to
  "every item checked" and to the percentage range.
- **Pipeline** (`pipeline.dfy`) holds lemmas across the two halves: what the
  splitter writes is what the parser reads. It also holds the subtask
  separator finding.

`Strings` (`strings.dfy`) gives the JavaScript `trim()` and `split()`
behaviour these parsers rely on. `Results` (`results.dfy`) holds `Option`
and `Result`.

### Notes on what the code does

- A section title keeps everything between the `**` markers, including a
  trailing colon. The line `**Intro:**` gives the title `Intro:`.
- The fallback day is returned only when the generation call throws. Text
  without any `**Day N:**` header gives an empty plan
  (`DaySplitter.NoHeaderNoDays`).
- The text is classified line by line. The plan has one day per line holding
  a day header, numbered by the first header on that line, in line order
  (`DaySplitter.Plan`). A line holding two day headers gives one day.
- `parseTasks` throws on a task line that comes before any section header
  (`TaskParser.ParseMeaning`).
- A task line is split on every colon. The first part is the main task and
  the second part holds the subtasks; any further parts are unused.
- A splitter task line of two or more stars only, such as `***`, is a header
  line to `parseTasks`, which opens a section titled "" for it
  (`Pipeline.StarLineReadAsSection`).

## Model

| member | source | states |
|---|---|---|
| Strings.TrimStart | Goal-Genie-main/backend/server/utils/aiPlanner.js:64 | the leading-whitespace strip never lengthens the text and leaves no whitespace in front |
| Strings.TrimStartSuffix | Goal-Genie-main/backend/server/utils/aiPlanner.js:64 | the leading strip removes exactly a whitespace prefix and keeps the rest unchanged |
| Strings.TrimEnd | Goal-Genie-main/backend/server/utils/aiPlanner.js:64 | the trailing strip keeps a prefix and removes only whitespace, leaving none at the end |
| Strings.Trim | Goal-Genie-main/backend/server/utils/aiPlanner.js:64 | `trim()` gives a text with no whitespace at either end, no longer than the input |
| Strings.TrimInfix | Goal-Genie-main/backend/server/utils/aiPlanner.js:64 | `trim()` keeps the infix between a whitespace prefix and a whitespace suffix |
| Strings.TrimKeepsOut | Goal-Genie-main/frontend/src/pages/GoalSetup.jsx:92 | trimming never introduces a character that was absent |
| Strings.TrimOfTrimmed | Goal-Genie-main/frontend/src/pages/GoalSetup.jsx:93 | a text already free of whitespace at its ends is left unchanged |
| Strings.TrimIdempotent | Goal-Genie-main/frontend/src/pages/GoalSetup.jsx:93 | trimming twice equals trimming once |
| Strings.TrimPadded | Goal-Genie-main/frontend/src/pages/GoalSetup.jsx:93 | one space before or after a trimmed non-empty text is removed again |
| Strings.Split | Goal-Genie-main/frontend/src/pages/GoalSetup.jsx:79 | `split` with a non-empty separator always yields at least one piece |
| Strings.TrimAll | Goal-Genie-main/frontend/src/pages/GoalSetup.jsx:94 | the mapped trim keeps the number of pieces and trims each piece at its index |
| Strings.JoinSplit | Goal-Genie-main/frontend/src/pages/GoalSetup.jsx:79 | joining the pieces of a split with the separator gives back the text |
| Strings.SplitCount | Goal-Genie-main/frontend/src/pages/GoalSetup.jsx:79 | a split has one more piece than the separator has non-overlapping occurrences |
| Strings.SplitPiecesFree | Goal-Genie-main/frontend/src/pages/GoalSetup.jsx:93 | no piece of a split on a character contains that character |
| Strings.SplitNoSeparator | Goal-Genie-main/frontend/src/pages/GoalSetup.jsx:93 | a text without the separator character splits into itself |
| Strings.SplitAppend | Goal-Genie-main/frontend/src/pages/GoalSetup.jsx:93 | a split on a character distributes over one occurrence of that character |
| Strings.IndexOf | Goal-Genie-main/frontend/src/pages/GoalSetup.jsx:93 | the result is the first position of the character, or the length when it is absent |
| Strings.SplitAtFirst | Goal-Genie-main/frontend/src/pages/GoalSetup.jsx:93 | the first piece of a split on a character runs up to its first occurrence, and the rest is the split of what follows |
| Strings.SplitKeepsOut | Goal-Genie-main/frontend/src/pages/GoalSetup.jsx:94 | a character absent from the text is absent from every piece |
| Strings.SplitWithoutSeparator | Goal-Genie-main/frontend/src/pages/GoalSetup.jsx:94 | a separator whose first character never occurs leaves the text as one piece |
| DaySplitter.SpaceRun | Goal-Genie-main/backend/server/utils/aiPlanner.js:67 | greedy `\s+` consumes exactly the maximal whitespace run |
| DaySplitter.DigitRun | Goal-Genie-main/backend/server/utils/aiPlanner.js:67 | greedy `\d+` consumes exactly the maximal digit run |
| DaySplitter.NonStarRun | Goal-Genie-main/backend/server/utils/aiPlanner.js:80 | `[^*]+` consumes exactly the text up to the next `*` |
| DaySplitter.DigitsValue | Goal-Genie-main/backend/server/utils/aiPlanner.js:73 | the decimal value of a digit run, as `parseInt` reads the captured digits (used by `DaySplitter.Classify`, hence `DaySplitter.Plan` and `DaySplitter.DaysFollowHeaders`) |
| DaySplitter.MatchDayAt | Goal-Genie-main/backend/server/utils/aiPlanner.js:67 | a match of the day pattern at a position has the `**Day<ws><digits>:**` shape there |
| DaySplitter.MatchSectionAt | Goal-Genie-main/backend/server/utils/aiPlanner.js:80 | a match of the section pattern at a position has the `**<no star>**` shape with that capture |
| DaySplitter.FindDayFrom | Goal-Genie-main/backend/server/utils/aiPlanner.js:67 | the search returns the leftmost position where the day pattern matches; nothing matches before it |
| DaySplitter.FindSectionFrom | Goal-Genie-main/backend/server/utils/aiPlanner.js:80 | the search returns the leftmost section match; nothing matches before it |
| DaySplitter.DayMatchComplete | Goal-Genie-main/backend/server/utils/aiPlanner.js:67 | every text of the day-header shape is matched, capturing exactly its digits |
| DaySplitter.SectionMatchComplete | Goal-Genie-main/backend/server/utils/aiPlanner.js:80 | every text of the section shape is matched, capturing exactly its title |
| DaySplitter.DayHeaderFound | Goal-Genie-main/backend/server/utils/aiPlanner.js:67-68 | a day header anywhere in the line is found, at or before that position |
| DaySplitter.SectionHeaderFound | Goal-Genie-main/backend/server/utils/aiPlanner.js:80-81 | a section shape anywhere in the line is found, at or before that position |
| DaySplitter.DayHeaderIsAlsoSection | Goal-Genie-main/backend/server/utils/aiPlanner.js:66-86 | every day header also matches the section pattern, so the day test must come first |
| DaySplitter.Classify | Goal-Genie-main/backend/server/utils/aiPlanner.js:67-92 | a trimmed line is a day header (first), else a section line, else a task line if it starts with `*`, else ignored; justified by `DaySplitter.ClassifySound` and `DaySplitter.ClassifyKinds` |
| DaySplitter.Appended | Goal-Genie-main/backend/server/utils/aiPlanner.js:82-92 | a section line adds `\n**title**\n` and a task line adds itself plus `\n` to the open day; its well-formedness is `DaySplitter.AppendedKeepsForm` |
| DaySplitter.Step | Goal-Genie-main/backend/server/utils/aiPlanner.js:63-94 | one iteration on a trimmed, classified line; its effect on the records is `DaySplitter.DaysAppendLine` |
| DaySplitter.Plan | Goal-Genie-main/backend/server/utils/aiPlanner.js:58-106 | on failure the plan is the single day 1 with the error text; otherwise its day numbers are the header numbers, in line order |
| DaySplitter.GeneratePlanFromGoal | Goal-Genie-main/backend/server/utils/aiPlanner.js:58-106 | the loop over lines with its pushes returns exactly `Plan` |
| DaySplitter.ClassifyDayHeader | Goal-Genie-main/backend/server/utils/aiPlanner.js:67-68 | a line holding a day header anywhere is classified as a day header |
| DaySplitter.ClassifySound | Goal-Genie-main/backend/server/utils/aiPlanner.js:66-93 | each class is justified: day headers match, section lines match only the section pattern at the leftmost match, task lines start with `*` and match neither |
| DaySplitter.ClassifyKinds | Goal-Genie-main/backend/server/utils/aiPlanner.js:80-89 | a section line holds its captured title at the match, and a task line starts with `*` |
| DaySplitter.RunShape | Goal-Genie-main/backend/server/utils/aiPlanner.js:69-71 | days are only pushed once a day is open |
| DaySplitter.DayNumbersAppend | Goal-Genie-main/backend/server/utils/aiPlanner.js:70 | pushing a record appends its number to the day numbers |
| DaySplitter.DaysFollowHeaders | Goal-Genie-main/backend/server/utils/aiPlanner.js:58-99 | the records' day numbers are exactly the header numbers, one per header, in order |
| DaySplitter.DaysAppendLine | Goal-Genie-main/backend/server/utils/aiPlanner.js:63-99 | one more line adds a record (header), leaves the plan (ignored, or no day open), or extends the last record's text |
| DaySplitter.RunAppend | Goal-Genie-main/backend/server/utils/aiPlanner.js:63 | the loop over two line blocks is the loop over the first, continued on the second |
| DaySplitter.PreambleRun | Goal-Genie-main/backend/server/utils/aiPlanner.js:82-92 | lines before the first day header leave the loop state untouched |
| DaySplitter.Preamble | Goal-Genie-main/backend/server/utils/aiPlanner.js:82-92 | content before the first day header is discarded |
| DaySplitter.NoHeaderNoDays | Goal-Genie-main/backend/server/utils/aiPlanner.js:58-99 | text without any day header gives an empty plan (no fallback) |
| DaySplitter.AppendSectionKeepsForm | Goal-Genie-main/backend/server/utils/aiPlanner.js:83 | appending a section block keeps a day text made of empty, section and task lines |
| DaySplitter.AppendTaskKeepsForm | Goal-Genie-main/backend/server/utils/aiPlanner.js:91 | appending a task line keeps a day text made of empty, section and task lines |
| DaySplitter.AppendedKeepsForm | Goal-Genie-main/backend/server/utils/aiPlanner.js:80-92 | the text any section or task line adds keeps the open day's text well-formed |
| DaySplitter.OpenDayKeepsForm | Goal-Genie-main/backend/server/utils/aiPlanner.js:69-75 | pushing the open day and opening an empty one keeps every record well-formed |
| DaySplitter.ReplaceOpenKeepsForm | Goal-Genie-main/backend/server/utils/aiPlanner.js:82-92 | replacing the open day by a well-formed one keeps every record well-formed |
| DaySplitter.StepKeepsForm | Goal-Genie-main/backend/server/utils/aiPlanner.js:63-94 | one loop iteration keeps every record's text well-formed |
| DaySplitter.RunKeepsForm | Goal-Genie-main/backend/server/utils/aiPlanner.js:58-99 | every record built from lines is well-formed |
| DaySplitter.PlanTextsWellFormed | Goal-Genie-main/backend/server/utils/aiPlanner.js:58-102 | every generated record's text is empty or ends in a line break, and consists only of empty and `*…` lines, the `**…**` section lines among them |
| TaskParser.TaskLineMeaning | Goal-Genie-main/frontend/src/pages/GoalSetup.jsx:92-94 | the main task is the trimmed text before the first colon, and it holds no colon; the subtasks come from the segment between the first and second colon only; there are none exactly when that segment is missing or blank; otherwise they are the trimmed pieces of the trimmed segment split on the separator, one more than the separator's occurrences; each subtask is trimmed and colon-free |
| TaskParser.IsHeaderLine | Goal-Genie-main/frontend/src/pages/GoalSetup.jsx:83 | a line starting and ending with `**`; its use is stated by `TaskParser.HeaderStep` |
| TaskParser.HeaderTitle | Goal-Genie-main/frontend/src/pages/GoalSetup.jsx:88 | `slice(2, -2)` then `trim()`, empty for lines shorter than four characters; stated by `TaskParser.ParseMeaning` and `Pipeline.SectionLineIsHeader` |
| TaskParser.ParseTaskLine | Goal-Genie-main/frontend/src/pages/GoalSetup.jsx:92-94 | one task line into main task and subtasks; its meaning is `TaskParser.TaskLineMeaning` |
| TaskParser.FirstPiece | Goal-Genie-main/frontend/src/pages/GoalSetup.jsx:93 | the first piece of the colon split is the text before the first colon |
| TaskParser.SecondPiece | Goal-Genie-main/frontend/src/pages/GoalSetup.jsx:93 | a second piece exists exactly when there is a colon, and it runs to the next colon |
| TaskParser.ScanStep | Goal-Genie-main/frontend/src/pages/GoalSetup.jsx:83-99 | one loop iteration: a header opens a section, a task line joins the open one or throws, other lines are skipped; its meaning is `TaskParser.StepMeaning` |
| TaskParser.Parse | Goal-Genie-main/frontend/src/pages/GoalSetup.jsx:75-108 | what `parseTasks` returns or throws; its meaning is `TaskParser.ParseMeaning` |
| TaskParser.SubtaskPieces | Goal-Genie-main/frontend/src/pages/GoalSetup.jsx:94 | every subtask is trimmed and holds no colon |
| TaskParser.SegmentPieces | Goal-Genie-main/frontend/src/pages/GoalSetup.jsx:94 | the trimmed separator split of a colon-free segment has trimmed, colon-free pieces |
| TaskParser.ScanPrefix | Goal-Genie-main/frontend/src/pages/GoalSetup.jsx:82 | the scan of one more line is one more loop iteration |
| TaskParser.HeaderStep | Goal-Genie-main/frontend/src/pages/GoalSetup.jsx:83-90 | a header line pushes the open section and opens a new, empty one with the sliced, trimmed title |
| TaskParser.TaskStep | Goal-Genie-main/frontend/src/pages/GoalSetup.jsx:91-99 | a task line appends its parsed task to the open section |
| TaskParser.OrphanStep | Goal-Genie-main/frontend/src/pages/GoalSetup.jsx:96 | a task line with no open section throws |
| TaskParser.SkipStep | Goal-Genie-main/frontend/src/pages/GoalSetup.jsx:82-101 | any other line leaves the state as it was |
| TaskParser.CrashedStays | Goal-Genie-main/frontend/src/pages/GoalSetup.jsx:96 | once thrown, later lines do not matter |
| TaskParser.ParseTasks | Goal-Genie-main/frontend/src/pages/GoalSetup.jsx:75-108 | the loop over lines with its pushes and final flush returns exactly `Parse` |
| TaskParser.OrphanParse | Goal-Genie-main/frontend/src/pages/GoalSetup.jsx:91-96 | the loop throwing on an orphan task line is exactly what `parseTasks` gives for the whole text |
| TaskParser.FinishedParse | Goal-Genie-main/frontend/src/pages/GoalSetup.jsx:103-107 | the loop state after every line, once flushed, is what `parseTasks` returns |
| TaskParser.IgnoredLine | Goal-Genie-main/frontend/src/pages/GoalSetup.jsx:82-101 | adding a line that is neither header nor task changes nothing |
| TaskParser.Titles | Goal-Genie-main/frontend/src/pages/GoalSetup.jsx:87-89 | there is one title per section |
| TaskParser.SnocHeader | Goal-Genie-main/frontend/src/pages/GoalSetup.jsx:83 | a header exists in the extended lines iff one existed or the new line is one |
| TaskParser.SnocOrphan | Goal-Genie-main/frontend/src/pages/GoalSetup.jsx:96 | an orphan task line exists in the extended lines iff one existed or the new line is a task line with no header before it |
| TaskParser.AllTasksSnoc | Goal-Genie-main/frontend/src/pages/GoalSetup.jsx:103-105 | flushing a section appends its tasks to the task list |
| TaskParser.TitlesSnoc | Goal-Genie-main/frontend/src/pages/GoalSetup.jsx:103-105 | flushing a section appends its title to the title list |
| TaskParser.HeaderTitlesSnoc | Goal-Genie-main/frontend/src/pages/GoalSetup.jsx:83-90 | one more line adds its title to the header titles exactly when it is a header line |
| TaskParser.TaskLineTasksSnoc | Goal-Genie-main/frontend/src/pages/GoalSetup.jsx:91-99 | one more line adds its parsed task exactly when it is a task line |
| TaskParser.AddTaskMeaning | Goal-Genie-main/frontend/src/pages/GoalSetup.jsx:96-99 | pushing a task into the open section appends it to all tasks and keeps the titles |
| TaskParser.OpenSectionMeaning | Goal-Genie-main/frontend/src/pages/GoalSetup.jsx:84-90 | opening a section appends its title and adds no task |
| TaskParser.LastHeader | Goal-Genie-main/frontend/src/pages/GoalSetup.jsx:83 | the index of the last header line, with no header after it, or none when there is no header line |
| TaskParser.GroupedSections | Goal-Genie-main/frontend/src/pages/GoalSetup.jsx:83-105 | the reference grouping: each header line with the tasks of the task lines after it up to the next header |
| TaskParser.GroupedSnoc | Goal-Genie-main/frontend/src/pages/GoalSetup.jsx:83-99 | a header line appends an empty section to the grouping; a task line appends its task to the last section; other lines change nothing |
| TaskParser.StepMeaning | Goal-Genie-main/frontend/src/pages/GoalSetup.jsx:82-101 | one loop iteration keeps the meaning of the loop state with respect to the lines read so far, including that the flushed state is the grouping `TaskParser.GroupedSections` |
| TaskParser.ScanMeaning | Goal-Genie-main/frontend/src/pages/GoalSetup.jsx:78-105 | after any lines the scan has thrown iff a task line precedes every header, and then on a task line; otherwise a section is open iff a header was seen, the titles are the header titles in order, the tasks are the task lines' tasks in order, and the flushed state groups each header with the task lines after it up to the next header |
| TaskParser.ParseMeaning | Goal-Genie-main/frontend/src/pages/GoalSetup.jsx:75-108 | empty text gives no sections; otherwise it fails iff some task line comes before every header; on success the result is exactly `TaskParser.GroupedSections`: one section per header line, titled by it, holding the tasks of the task lines up to the next header, in order |
| Completion.Toggled | Goal-Genie-main/frontend/src/pages/GoalSetup.jsx:110-120 | the toggled key holds the negation of its old truthiness; every other key is kept with its value and no key is removed |
| Completion.ToggleTwice | Goal-Genie-main/frontend/src/pages/GoalSetup.jsx:110-120 | two clicks restore every key's truthiness; a key absent before ends up false |
| Completion.KeyOf | Goal-Genie-main/frontend/src/pages/GoalSetup.jsx:113-115 | the key `day-s-t` of a task or `day-s-t-st` of a subtask; read back by `Completion.Toggled` |
| Completion.InitialChecks | Goal-Genie-main/frontend/src/pages/GoalSetup.jsx:61-65 | the initial map has exactly the record-index keys 0 … n-1 |
| Completion.SubtasksDone | Goal-Genie-main/frontend/src/pages/GoalSetup.jsx:137-142 | at most n subtasks of a task are counted completed |
| Completion.TaskDone | Goal-Genie-main/frontend/src/pages/GoalSetup.jsx:132-142 | a task contributes at most its own units (itself plus its subtasks) |
| Completion.TasksDone | Goal-Genie-main/frontend/src/pages/GoalSetup.jsx:132-143 | completed units of a section never exceed its units |
| Completion.SectionsDone | Goal-Genie-main/frontend/src/pages/GoalSetup.jsx:131-144 | completed units of a day never exceed its units |
| Completion.PlanDone | Goal-Genie-main/frontend/src/pages/GoalSetup.jsx:129-145 | completed units never exceed total units, so the ratio is at most one |
| Completion.SubtasksAllDone | Goal-Genie-main/frontend/src/pages/GoalSetup.jsx:137-142 | all subtasks count as done iff every subtask key is checked |
| Completion.TaskAllDone | Goal-Genie-main/frontend/src/pages/GoalSetup.jsx:132-142 | a task's units are all done iff its key and all its subtask keys are checked |
| Completion.TasksAllDone | Goal-Genie-main/frontend/src/pages/GoalSetup.jsx:132-143 | a section's units are all done iff every task in it is fully checked |
| Completion.SectionsAllDone | Goal-Genie-main/frontend/src/pages/GoalSetup.jsx:131-144 | a day's units are all done iff every section is fully checked |
| Completion.PlanAllDone | Goal-Genie-main/frontend/src/pages/GoalSetup.jsx:129-145 | all units done iff every task and subtask key of the plan is checked |
| Completion.PlanUnits | Goal-Genie-main/frontend/src/pages/GoalSetup.jsx:131-144 | one unit per task and one per subtask over all days; its range is `Completion.PlanDone` and `Completion.ProgressMeaning` |
| Completion.ParsePlan | Goal-Genie-main/frontend/src/pages/GoalSetup.jsx:129-130 | every record parsed in order, or the first parse error; see `Completion.FailureStays` |
| Completion.PlanCounts | Goal-Genie-main/frontend/src/pages/GoalSetup.jsx:129-145 | the two counters of the effect, or the parse error; computed by `Completion.CountPlan` |
| Completion.Percent | Goal-Genie-main/frontend/src/pages/GoalSetup.jsx:147 | completed over total times 100, or 0 without units; its range is `Completion.PercentRange` |
| Completion.PercentRange | Goal-Genie-main/frontend/src/pages/GoalSetup.jsx:147 | the figure lies in [0, 100] and is 100 iff there are units and all are completed |
| Completion.ProgressMeaning | Goal-Genie-main/frontend/src/pages/GoalSetup.jsx:123-148 | on a parsable plan the total is the plan's units, the figure is in [0, 100], and it is 100 iff the plan has units and all of them are checked |
| Completion.OnlyUnitKeysRead | Goal-Genie-main/frontend/src/pages/GoalSetup.jsx:134-139 | only task and subtask keys are read; maps agreeing on those give the same count |
| Completion.SectionsReadSame | Goal-Genie-main/frontend/src/pages/GoalSetup.jsx:131-144 | per day, only unit keys are read |
| Completion.TasksReadSame | Goal-Genie-main/frontend/src/pages/GoalSetup.jsx:132-143 | per section, only unit keys are read |
| Completion.SubtasksReadSame | Goal-Genie-main/frontend/src/pages/GoalSetup.jsx:137-142 | per task, only unit keys are read |
| Completion.InitialChecksUnread | Goal-Genie-main/frontend/src/pages/GoalSetup.jsx:61-66 | the truthy initial entries are keyed by record index, never read, so a fresh plan shows 0 completed and 0 % |
| Completion.NothingCheckedNothingDone | Goal-Genie-main/frontend/src/pages/GoalSetup.jsx:129-145 | an empty map counts no completed units |
| Completion.NoSectionDone | Goal-Genie-main/frontend/src/pages/GoalSetup.jsx:131-144 | an empty map counts nothing in a day |
| Completion.NoTaskDone | Goal-Genie-main/frontend/src/pages/GoalSetup.jsx:132-143 | an empty map counts nothing in a section |
| Completion.NoSubtaskDone | Goal-Genie-main/frontend/src/pages/GoalSetup.jsx:137-142 | an empty map counts no subtask |
| Completion.OneOfFour | Goal-Genie-main/frontend/src/pages/GoalSetup.jsx:126-147 | a task with three subtasks is four units; ticking only the main task gives 25 % |
| Completion.CountSubtasks | Goal-Genie-main/frontend/src/pages/GoalSetup.jsx:137-142 | the inner loop counts exactly the checked subtask keys |
| Completion.CountTasks | Goal-Genie-main/frontend/src/pages/GoalSetup.jsx:132-143 | the task loop counts a section's units and completed units |
| Completion.CountSections | Goal-Genie-main/frontend/src/pages/GoalSetup.jsx:131-144 | the section loop counts a day's units and completed units |
| Completion.CountPlan | Goal-Genie-main/frontend/src/pages/GoalSetup.jsx:126-145 | the day loop, parsing each record's text, gives the plan's counts or the first record's parse error |
| Completion.FailureStays | Goal-Genie-main/frontend/src/pages/GoalSetup.jsx:130 | once a record's parse throws, the later records do not matter |
| Completion.GoalPage.constructor | Goal-Genie-main/frontend/src/pages/GoalSetup.jsx:58-66 | the page starts with no plan, no checks and progress 0 |
| Completion.GoalPage.ReceivePlan | Goal-Genie-main/frontend/src/pages/GoalSetup.jsx:58-66 | a response with `dailyPlan` sets the plan and resets the map to one entry per record index; one without changes nothing |
| Completion.GoalPage.Toggle | Goal-Genie-main/frontend/src/pages/GoalSetup.jsx:110-120 | a click flips exactly the clicked key and leaves the plan and the figure |
| Completion.GoalPage.RefreshProgress | Goal-Genie-main/frontend/src/pages/GoalSetup.jsx:123-149 | without a plan nothing changes; otherwise progress becomes the percentage of checked units, with subtasks split on the separator as written, or the parse error is returned and progress kept; the figure stays in [0, 100] |
| Pipeline.SectionLineIsHeader | Goal-Genie-main/frontend/src/pages/GoalSetup.jsx:83-88 | a `**title**` line written by the splitter is a header line of the parser, titled by its trimmed inside |
| Pipeline.PlanLinesRecognised | Goal-Genie-main/backend/server/utils/aiPlanner.js:83-91 | every line of every generated record is empty, a header line or a task line of the parser |
| Pipeline.PlainLineHasNoSections | Goal-Genie-main/frontend/src/pages/GoalSetup.jsx:75-108 | a one-line text that is neither header nor task parses to no sections |
| Pipeline.PlainRecordHasNoUnits | Goal-Genie-main/frontend/src/pages/GoalSetup.jsx:126-147 | such a record is a day with no sections and contributes no units |
| Pipeline.ErrorTextIsPlain | Goal-Genie-main/backend/server/utils/aiPlanner.js:105 | the fallback text is one non-empty line that is neither header nor task |
| Pipeline.FallbackPlanHasNoUnits | Goal-Genie-main/backend/server/utils/aiPlanner.js:103-106 | the fallback plan shows one day with no sections, 0 units and 0 % progress |
| Pipeline.SectionBlockLines | Goal-Genie-main/backend/server/utils/aiPlanner.js:83-91 | a section block followed by a task line splits into an empty line, the section line, the task line and an empty line |
| Pipeline.ScanSectionBlock | Goal-Genie-main/frontend/src/pages/GoalSetup.jsx:79-107 | that four-line block parses to the one section holding the one task |
| Pipeline.SectionBlockParses | Goal-Genie-main/frontend/src/pages/GoalSetup.jsx:75-108 | the parser reads a section block and a task line back as one section, titled by the trimmed capture, holding that task |
| Pipeline.HeaderDay | Goal-Genie-main/backend/server/utils/aiPlanner.js:67-75 | a lone day header gives one record with that number and empty text |
| Pipeline.ExtendOnlyDay | Goal-Genie-main/backend/server/utils/aiPlanner.js:80-92 | a section or task line after the only day extends that day's text |
| Pipeline.HeaderSectionDays | Goal-Genie-main/backend/server/utils/aiPlanner.js:67-86 | a day header then a section line gives one record holding the section block |
| Pipeline.HeaderSectionTaskDays | Goal-Genie-main/backend/server/utils/aiPlanner.js:58-99 | a day header, a section line and a task line give one record with the section block and the trimmed task line |
| Pipeline.HeaderTaskDays | Goal-Genie-main/backend/server/utils/aiPlanner.js:58-99 | a day header then a task line give one record with just that task line |
| Pipeline.TaskText | Goal-Genie-main/backend/server/utils/aiPlanner.js:89-91 | a task line as written to a record starts with `*` and has no line break |
| Pipeline.SectionAndTaskText | Goal-Genie-main/backend/server/utils/aiPlanner.js:80-91 | the captured section title is non-empty, star-free and single-line |
| Pipeline.DayWithOneTask | Goal-Genie-main/frontend/src/pages/GoalSetup.jsx:75-108 | a day header, a section line and a task line go through both halves as one day with one section holding that task |
| Pipeline.TaskBlockThrows | Goal-Genie-main/frontend/src/pages/GoalSetup.jsx:96 | a record whose text is a lone task line makes the parser throw on that line |
| Pipeline.TaskRightAfterDayHeader | Goal-Genie-main/frontend/src/pages/GoalSetup.jsx:96 | a task line directly under a day header is stored by the splitter and makes the page's parser throw |
| Pipeline.PromptLineBody | Goal-Genie-main/backend/server/utils/aiPlanner.js:19 | a prompt-format task line starts with `*`, and its body is `main: a • b` |
| Pipeline.ColonParts | Goal-Genie-main/frontend/src/pages/GoalSetup.jsx:93 | `main: seg` splits on `:` into the main part and the segment |
| Pipeline.PromptLineParts | Goal-Genie-main/frontend/src/pages/GoalSetup.jsx:92-93 | a prompt-format line has two colon parts: the main task and `a • b` |
| Pipeline.SourceSeparatorKeepsBulletList | Goal-Genie-main/frontend/src/pages/GoalSetup.jsx:94 | with the separator as written, `* main: a • b` gives one subtask `a • b` |
| Pipeline.SourceSeparatorNeverSplits | Goal-Genie-main/frontend/src/pages/GoalSetup.jsx:94 | with the separator as written, a line without U+00E2 never yields more than one subtask |
| Pipeline.BulletSplitsSubtasks | Goal-Genie-main/frontend/src/pages/GoalSetup.jsx:94 | with the bullet as separator, `* main: a • b` gives the two subtasks `a` and `b` |
| Pipeline.NoSubtaskClicked | Goal-Genie-main/frontend/src/pages/GoalSetup.jsx:137-142 | with only a main task clicked, no subtask of it is counted |
| Pipeline.OneTaskDayCounts | Goal-Genie-main/frontend/src/pages/GoalSetup.jsx:126-145 | a day parsed to one section with one task, with only that task clicked, counts 1 completed of 1 + its subtasks |
| Pipeline.PromptDayParses | Goal-Genie-main/frontend/src/pages/GoalSetup.jsx:75-108 | a section line and a prompt-format task line parse to one section with that task |
| Pipeline.PageProgressAsWritten | Goal-Genie-main/frontend/src/pages/GoalSetup.jsx:123-147 | as written, clicking the main task of `* main: a • b` counts 1 of 2 units and shows 50 % |
| Pipeline.PageProgressCorrected | Goal-Genie-main/frontend/src/pages/GoalSetup.jsx:126-147 | splitting on the bullet, the same click counts 1 of 3 units and shows 100/3 % |
| Pipeline.StarLineMatchesNoHeader | Goal-Genie-main/backend/server/utils/aiPlanner.js:67-80 | neither header pattern of the splitter matches `***` |
| Pipeline.StarTextLines | Goal-Genie-main/frontend/src/pages/GoalSetup.jsx:79 | `***` plus a line break splits into `***` and an empty line |
| Pipeline.StarLineParses | Goal-Genie-main/frontend/src/pages/GoalSetup.jsx:83-90 | `parseTasks` reads `***` as a header and gives one empty section titled "" |
| Pipeline.StarLineReadAsSection | Goal-Genie-main/backend/server/utils/aiPlanner.js:89-91 | the splitter writes `***` to the open day as a task line, and the page reads it as a section titled "" |

## Left out

- The Gemini client, the prompt text and the API key are foreign I/O. The generated text, or the failure, is an input to `DaySplitter.Plan`, and the prompt is used only for the format of its task lines.
- The server plumbing is not part of this model: dotenv, the route, the controller and persistence.
- The page's rendering, loading flags, dates (`formatDate`, `getTaskDate`) and `ProgressTracker` are not part of this model.
- The asynchronous `handleSubmit` is reduced to `ReceivePlan` on the `dailyPlan` field of the response. A failed request changes nothing and is not modelled separately.
- Console logging is left out.
- React's effect scheduling is left out. `RefreshProgress` is the effect body, and a caller invokes it after a change.
- React's handling of a throw inside the effect is left out. The throw becomes a `Failure` result with progress left as it was.
- Completion.Percent: the figure is an exact real, not a JavaScript double, so rounding is not modelled.
- Strings.IsSpace: `trim()` and `\s` use a fixed ASCII whitespace set (space, tab, line feed, carriage return, vertical tab, form feed). Unicode spaces are not modelled.
- DaySplitter.DigitsValue: `parseInt` is modelled as an unbounded decimal value. Loss of precision for very long digit runs is not modelled.
- Completion.Key: checkbox keys are a datatype with one constructor per string shape. This treats the `day-s-t(-st)` and index strings as distinct, which holds for the decimal numbers involved.
- The `currentDay` and `currentSection` objects are mutated while already referenced. Both are modelled as values in the loop state, which is equivalent because each object is pushed after its last mutation.
- Completion.CountPlan: a record's `task` is always a string here, so the `|| ''` default for a missing task is not modelled.
- The parse result of the render path (`parseTasks` called while drawing each card) is not modelled separately. It is the same function as the effect's.

## Findings

| source | as written | input that shows it | evidently intended | confidence | as-written member | corrected member |
|---|---|---|---|---|---|---|
| Goal-Genie-main/frontend/src/pages/GoalSetup.jsx:94 | the subtask string is split on the three characters U+00E2 U+20AC U+00A2 (the bullet's UTF-8 bytes read as Windows-1252), which never occur in the prompt-format text | the task line `* Basics: A • B` gives one subtask `A • B` | split on the bullet U+2022 that aiPlanner.js:19 and :41 ask the model to use, giving the subtasks `A` and `B` | high, not executed | Pipeline.SourceSeparatorKeepsBulletList | Pipeline.BulletSplitsSubtasks |

`Pipeline.SourceSeparatorNeverSplits` shows the general form of the problem: with the separator as written, no line without U+00E2 ever has more than one subtask. The page model `Completion.GoalPage` follows the code as written and splits on `TaskParser.SourceSeparator`. `Pipeline.PageProgressAsWritten` shows the effect on the page: after one click on the main task of `* main: a • b` it shows 50 %. With the bullet the same click shows a third of 100 % (`Pipeline.PageProgressCorrected`). The parser and the counting functions take the separator as a parameter, and every lemma about them holds for any non-empty separator, the bullet included.
