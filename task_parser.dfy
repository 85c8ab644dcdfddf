/** `parseTasks` (frontend/src/pages/GoalSetup.jsx): turns one day's text
    block into sections, each with its tasks, each task with its subtasks.
    Lines are not trimmed here; a line that starts and ends with `**` opens a
    section, a line that starts with `*` is a task of the open section, and
    every other line is skipped. */
module TaskParser {
  import opened Results
  import opened Strings

  datatype Task = Task(mainTask: string, subtasks: seq<string>)

  datatype Section = Section(title: string, tasks: seq<Task>)

  /** The `TypeError` thrown when a task line comes before any section
      header (`currentSection` is still `null`). */
  datatype ParseError = TaskBeforeSection(line: string)

  /** The subtask separator literally written in `parseTasks`: the three
      characters U+00E2 U+20AC U+00A2, which is the UTF-8 encoding of the
      bullet read back as Windows-1252. */
  const SourceSeparator: string := "\U{00E2}\U{20AC}\U{00A2}"

  /** The bullet U+2022 that the generation prompt asks the model to put
      between subtasks. */
  const Bullet: string := "\U{2022}"

  /** `line.startsWith('**') && line.endsWith('**')`; note that `**` and
      `***` qualify. */
  predicate IsHeaderLine(l: string) {
    "**" <= l && EndsWith(l, "**")
  }

  /** A line the loop treats as a task: it starts with `*` but is no header. */
  predicate IsTaskLine(l: string) {
    !IsHeaderLine(l) && "*" <= l
  }

  /** `line.slice(2, -2).trim()`: empty when the line is shorter than four. */
  function HeaderTitle(l: string): string {
    Trim(if |l| >= 4 then l[2..|l| - 2] else "")
  }

  /** The text between the first and the second colon of s (or up to the
      end), or None when s has no colon. */
  function ColonSegment(s: string): Option<string> {
    var i := IndexOf(s, ':');
    if i == |s| then None
    else
      var rest := s[i + 1..];
      Some(rest[..IndexOf(rest, ':')])
  }

  /** One task line: `line.slice(1).trim()` split on every `:`, each part
      trimmed, the first part the main task and the second the subtask
      string, which is split on `sep` when it is not empty. */
  function ParseTaskLine(line: string, sep: string): Task
    requires |sep| > 0 && "*" <= line
  {
    var taskLine := Trim(line[1..]);
    var parts := Split(taskLine, ":");
    var mainTask := Trim(parts[0]);
    var subtasksStr := if |parts| > 1 then Trim(parts[1]) else "";
    var subtasks := if subtasksStr != "" then TrimAll(Split(subtasksStr, sep)) else [];
    Task(mainTask, subtasks)
  }

  /** What a task line turns into: the main task is the trimmed text before
      the first colon; the subtasks come from the text between the first and
      the second colon only (later parts are dropped), and there are none
      when there is no colon or that text is blank; otherwise they are the
      pieces of that text (trimmed) split on the separator, each trimmed: one
      more subtask than there are separators in it. */
  lemma TaskLineMeaning(line: string, sep: string)
    requires |sep| > 0 && "*" <= line
    ensures var task := ParseTaskLine(line, sep);
      var tl := Trim(line[1..]);
      && task.mainTask == Trim(tl[..IndexOf(tl, ':')])
      && ':' !in task.mainTask
      && (task.subtasks == [] <==> ColonSegment(tl).None? || Trim(ColonSegment(tl).value) == "")
      && (task.subtasks != [] ==>
            && task.subtasks == TrimAll(Split(Trim(ColonSegment(tl).value), sep))
            && |task.subtasks| == Occurrences(Trim(ColonSegment(tl).value), sep) + 1)
      && forall k :: 0 <= k < |task.subtasks| ==>
            IsTrimmed(task.subtasks[k]) && ':' !in task.subtasks[k]
  {
    var taskLine := Trim(line[1..]);
    var pieces := Split(taskLine, ":");
    var subtasksStr := if |pieces| > 1 then Trim(pieces[1]) else "";
    FirstPiece(taskLine);
    SecondPiece(taskLine);
    TrimKeepsOut(pieces[0], ':');
    SplitCount(subtasksStr, sep);
    SubtaskPieces(taskLine, sep);
  }

  /** The first piece of `split(':')` runs up to the first colon. */
  lemma FirstPiece(tl: string)
    ensures Split(tl, ":")[0] == tl[..IndexOf(tl, ':')]
    ensures ':' !in Split(tl, ":")[0]
  {
    SplitAtFirst(tl, ':');
  }

  /** There is a second piece exactly when there is a colon, and it is the
      text up to the next colon. */
  lemma SecondPiece(tl: string)
    ensures |Split(tl, ":")| > 1 <==> ColonSegment(tl).Some?
    ensures |Split(tl, ":")| > 1 ==> Split(tl, ":")[1] == ColonSegment(tl).value
  {
    var i := IndexOf(tl, ':');
    SplitAtFirst(tl, ':');
    if i < |tl| {
      SplitAtFirst(tl[i + 1..], ':');
    }
  }

  /** The trimmed subtasks carry no colon: the segment they come from has none. */
  lemma SubtaskPieces(tl: string, sep: string)
    requires |sep| > 0
    ensures |Split(tl, ":")| > 1 ==>
      var segment := Trim(Split(tl, ":")[1]);
      forall k :: 0 <= k < |TrimAll(Split(segment, sep))| ==>
        var p := TrimAll(Split(segment, sep))[k];
        IsTrimmed(p) && ':' !in p
  {
    if |Split(tl, ":")| > 1 {
      SplitPiecesFree(tl, ':');
      assert Split(tl, ":")[1] in Split(tl, ":");
      SegmentPieces(Split(tl, ":")[1], sep);
    }
  }

  lemma SegmentPieces(segment: string, sep: string)
    requires |sep| > 0 && ':' !in segment
    ensures forall k :: 0 <= k < |TrimAll(Split(Trim(segment), sep))| ==>
      var p := TrimAll(Split(Trim(segment), sep))[k];
      IsTrimmed(p) && ':' !in p
  {
    TrimKeepsOut(segment, ':');
    var pieces := Split(Trim(segment), sep);
    SplitKeepsOut(Trim(segment), sep, ':');
    forall k | 0 <= k < |pieces| ensures ':' !in Trim(pieces[k]) {
      assert pieces[k] in pieces;
      TrimKeepsOut(pieces[k], ':');
    }
  }

  /** The loop's variables, or the exception that ended it. */
  datatype Scan = Scanning(sections: seq<Section>, current: Option<Section>) | Crashed(line: string)

  const Fresh := Scanning([], None)

  /** `sections` after the final flush of `currentSection`. */
  function Flushed(sections: seq<Section>, current: Option<Section>): seq<Section> {
    sections + (if current.Some? then [current.value] else [])
  }

  /** One iteration of the loop. */
  function ScanStep(st: Scan, line: string, sep: string): Scan
    requires |sep| > 0
  {
    match st
    case Crashed(_) => st
    case Scanning(sections, current) =>
      if IsHeaderLine(line) then Scanning(Flushed(sections, current), Some(Section(HeaderTitle(line), [])))
      else if "*" <= line then
        match current
        case None => Crashed(line)
        case Some(sec) => Scanning(sections, Some(sec.(tasks := sec.tasks + [ParseTaskLine(line, sep)])))
      else st
  }

  lemma ScanStepUnfold(sections: seq<Section>, current: Option<Section>, line: string, sep: string)
    requires |sep| > 0
    ensures ScanStep(Scanning(sections, current), line, sep) ==
      if IsHeaderLine(line) then Scanning(Flushed(sections, current), Some(Section(HeaderTitle(line), [])))
      else if !("*" <= line) then Scanning(sections, current)
      else if current.None? then Crashed(line)
      else Scanning(sections, Some(current.value.(tasks := current.value.tasks + [ParseTaskLine(line, sep)])))
  {
  }

  function ScanLines(lines: seq<string>, sep: string): Scan
    requires |sep| > 0
  {
    if lines == [] then Fresh else ScanStep(ScanLines(lines[..|lines| - 1], sep), lines[|lines| - 1], sep)
  }

  /** The sections built from a sequence of lines, or the exception. */
  function SectionsOf(lines: seq<string>, sep: string): Result<seq<Section>, ParseError>
    requires |sep| > 0
  {
    match ScanLines(lines, sep)
    case Crashed(l) => Failure(TaskBeforeSection(l))
    case Scanning(sections, current) => Success(Flushed(sections, current))
  }

  /** What `parseTasks(taskString)` returns or throws. */
  function Parse(taskString: string, sep: string): Result<seq<Section>, ParseError>
    requires |sep| > 0
  {
    if taskString == "" then Success([]) else SectionsOf(Split(taskString, "\n"), sep)
  }

  lemma ScanPrefix(lines: seq<string>, i: nat, sep: string)
    requires |sep| > 0 && i < |lines|
    ensures ScanLines(lines[..i + 1], sep) == ScanStep(ScanLines(lines[..i], sep), lines[i], sep)
  {
    assert lines[..i + 1][..i] == lines[..i];
  }

  /** The loop step on a header line. */
  lemma HeaderStep(lines: seq<string>, i: nat, sep: string, sections: seq<Section>, current: Option<Section>)
    requires |sep| > 0 && i < |lines| && IsHeaderLine(lines[i])
    requires ScanLines(lines[..i], sep) == Scanning(sections, current)
    ensures ScanLines(lines[..i + 1], sep)
      == Scanning(Flushed(sections, current), Some(Section(HeaderTitle(lines[i]), [])))
  {
    ScanPrefix(lines, i, sep);
  }

  /** The loop step on a task line with a section open. */
  lemma TaskStep(lines: seq<string>, i: nat, sep: string, sections: seq<Section>, sec: Section)
    requires |sep| > 0 && i < |lines| && IsTaskLine(lines[i])
    requires ScanLines(lines[..i], sep) == Scanning(sections, Some(sec))
    ensures ScanLines(lines[..i + 1], sep)
      == Scanning(sections, Some(sec.(tasks := sec.tasks + [ParseTaskLine(lines[i], sep)])))
  {
    ScanPrefix(lines, i, sep);
  }

  /** The loop step on a task line with no section open: the exception. */
  lemma OrphanStep(lines: seq<string>, i: nat, sep: string, sections: seq<Section>)
    requires |sep| > 0 && i < |lines| && IsTaskLine(lines[i])
    requires ScanLines(lines[..i], sep) == Scanning(sections, None)
    ensures ScanLines(lines[..i + 1], sep) == Crashed(lines[i])
  {
    ScanPrefix(lines, i, sep);
  }

  /** The loop step on any other line. */
  lemma SkipStep(lines: seq<string>, i: nat, sep: string, st: Scan)
    requires |sep| > 0 && i < |lines| && !IsHeaderLine(lines[i]) && !("*" <= lines[i])
    requires ScanLines(lines[..i], sep) == st
    ensures ScanLines(lines[..i + 1], sep) == st
  {
    ScanPrefix(lines, i, sep);
  }

  /** Once the loop has thrown, later lines change nothing. */
  lemma {:induction false} CrashedStays(lines: seq<string>, k: nat, sep: string)
    requires |sep| > 0 && k <= |lines| && ScanLines(lines[..k], sep).Crashed?
    ensures ScanLines(lines, sep) == ScanLines(lines[..k], sep)
  {
    if k < |lines| {
      assert lines[..|lines| - 1][..k] == lines[..k];
      CrashedStays(lines[..|lines| - 1], k, sep);
    } else {
      assert lines[..k] == lines;
    }
  }

  /** The loop throwing on line i is what `Parse` gives. */
  lemma OrphanParse(taskString: string, sep: string, i: nat, sections: seq<Section>)
    requires |sep| > 0 && taskString != ""
    requires i < |Split(taskString, "\n")| && IsTaskLine(Split(taskString, "\n")[i])
    requires ScanLines(Split(taskString, "\n")[..i], sep) == Scanning(sections, None)
    ensures Parse(taskString, sep) == Failure(TaskBeforeSection(Split(taskString, "\n")[i]))
  {
    var lines := Split(taskString, "\n");
    OrphanStep(lines, i, sep, sections);
    CrashedStays(lines, i + 1, sep);
    assert lines[..|lines|] == lines;
  }

  /** The loop finishing over every line is what `Parse` gives, once flushed. */
  lemma FinishedParse(taskString: string, sep: string, sections: seq<Section>, current: Option<Section>)
    requires |sep| > 0 && taskString != ""
    requires ScanLines(Split(taskString, "\n")[..|Split(taskString, "\n")|], sep) == Scanning(sections, current)
    ensures Parse(taskString, sep) == Success(Flushed(sections, current))
  {
    var lines := Split(taskString, "\n");
    assert lines[..|lines|] == lines;
  }

  /** The loop of `parseTasks`. */
  method ParseTasks(taskString: string, sep: string) returns (r: Result<seq<Section>, ParseError>)
    requires |sep| > 0
    ensures r == Parse(taskString, sep)
  {
    if taskString == "" {
      return Success([]);
    }
    var sections: seq<Section> := [];
    var lines := Split(taskString, "\n");
    var currentSection: Option<Section> := None;
    for i := 0 to |lines|
      invariant ScanLines(lines[..i], sep) == Scanning(sections, currentSection)
    {
      var line := lines[i];
      if "**" <= line && EndsWith(line, "**") {
        HeaderStep(lines, i, sep, sections, currentSection);
        if currentSection.Some? {
          sections := sections + [currentSection.value];
        }
        currentSection := Some(Section(HeaderTitle(line), []));
      } else if "*" <= line {
        var task := ParseTaskLine(line, sep);
        if currentSection.None? {
          OrphanParse(taskString, sep, i, sections);
          return Failure(TaskBeforeSection(line));
        }
        TaskStep(lines, i, sep, sections, currentSection.value);
        currentSection := Some(currentSection.value.(tasks := currentSection.value.tasks + [task]));
      } else {
        SkipStep(lines, i, sep, Scanning(sections, currentSection));
      }
    }
    FinishedParse(taskString, sep, sections, currentSection);
    ghost var flushed := Flushed(sections, currentSection);
    if currentSection.Some? {
      sections := sections + [currentSection.value];
    }
    assert sections == flushed;
    return Success(sections);
  }

  /** A line that is neither a header nor a task line leaves the result alone. */
  lemma IgnoredLine(lines: seq<string>, l: string, sep: string)
    requires |sep| > 0 && !IsHeaderLine(l) && !("*" <= l)
    ensures SectionsOf(lines + [l], sep) == SectionsOf(lines, sep)
  {
    assert (lines + [l])[..|lines|] == lines;
  }

  // ---------------------------------------------------------------------------
  // What the scan computes, stated over the lines themselves.

  predicate HasHeader(lines: seq<string>) {
    exists k :: 0 <= k < |lines| && IsHeaderLine(lines[k])
  }

  /** Some task line comes before every header line. */
  predicate HasOrphan(lines: seq<string>) {
    exists k :: 0 <= k < |lines| && IsTaskLine(lines[k]) && !HasHeader(lines[..k])
  }

  /** The titles of the header lines, in order. */
  function HeaderTitles(lines: seq<string>): seq<string> {
    if lines == [] then []
    else
      var last := lines[|lines| - 1];
      HeaderTitles(lines[..|lines| - 1]) + (if IsHeaderLine(last) then [HeaderTitle(last)] else [])
  }

  /** The tasks of the task lines, in order. */
  function TaskLineTasks(lines: seq<string>, sep: string): seq<Task>
    requires |sep| > 0
  {
    if lines == [] then []
    else
      var last := lines[|lines| - 1];
      TaskLineTasks(lines[..|lines| - 1], sep) + (if IsTaskLine(last) then [ParseTaskLine(last, sep)] else [])
  }

  function Titles(sections: seq<Section>): (r: seq<string>)
    ensures |r| == |sections|
  {
    if sections == [] then [] else Titles(sections[..|sections| - 1]) + [sections[|sections| - 1].title]
  }

  /** All tasks of all sections, in order. */
  function AllTasks(sections: seq<Section>): seq<Task> {
    if sections == [] then [] else AllTasks(sections[..|sections| - 1]) + sections[|sections| - 1].tasks
  }

  lemma SnocHeader(lines: seq<string>, l: string)
    ensures HasHeader(lines + [l]) <==> HasHeader(lines) || IsHeaderLine(l)
  {
    var ls := lines + [l];
    if HasHeader(ls) && !IsHeaderLine(l) {
      var k :| 0 <= k < |ls| && IsHeaderLine(ls[k]);
      assert k < |lines| && lines[k] == ls[k];
    }
    if HasHeader(lines) {
      var k :| 0 <= k < |lines| && IsHeaderLine(lines[k]);
      assert ls[k] == lines[k];
    }
    if IsHeaderLine(l) {
      assert ls[|lines|] == l;
    }
  }

  lemma SnocOrphan(lines: seq<string>, l: string)
    ensures HasOrphan(lines + [l]) <==> HasOrphan(lines) || (IsTaskLine(l) && !HasHeader(lines))
  {
    var ls := lines + [l];
    if HasOrphan(ls) && !(IsTaskLine(l) && !HasHeader(lines)) {
      var k :| 0 <= k < |ls| && IsTaskLine(ls[k]) && !HasHeader(ls[..k]);
      if k < |lines| {
        assert lines[k] == ls[k] && lines[..k] == ls[..k];
      } else {
        assert false;
      }
    }
    if HasOrphan(lines) {
      var k :| 0 <= k < |lines| && IsTaskLine(lines[k]) && !HasHeader(lines[..k]);
      assert ls[k] == lines[k] && ls[..k] == lines[..k];
    }
    if IsTaskLine(l) && !HasHeader(lines) {
      assert ls[|lines|] == l && ls[..|lines|] == lines;
    }
  }

  lemma AllTasksSnoc(sections: seq<Section>, s: Section)
    ensures AllTasks(sections + [s]) == AllTasks(sections) + s.tasks
  {
    assert (sections + [s])[..|sections|] == sections;
  }

  lemma TitlesSnoc(sections: seq<Section>, s: Section)
    ensures Titles(sections + [s]) == Titles(sections) + [s.title]
  {
    assert (sections + [s])[..|sections|] == sections;
  }

  /** The index of the last header line, or None when there is none. */
  function LastHeader(lines: seq<string>): (r: Option<nat>)
    ensures r.Some? ==>
      && r.value < |lines| && IsHeaderLine(lines[r.value])
      && forall k :: r.value < k < |lines| ==> !IsHeaderLine(lines[k])
    ensures r.None? ==> !HasHeader(lines)
  {
    if lines == [] then None
    else if IsHeaderLine(lines[|lines| - 1]) then Some(|lines| - 1)
    else LastHeader(lines[..|lines| - 1])
  }

  /** The sections the header lines define, read off the lines directly: each
      header line opens a section, titled by `HeaderTitle`, that holds the
      tasks of the task lines after it up to the next header line. */
  function GroupedSections(lines: seq<string>, sep: string): seq<Section>
    requires |sep| > 0
    decreases |lines|
  {
    match LastHeader(lines)
    case None => []
    case Some(h) =>
      GroupedSections(lines[..h], sep) + [Section(HeaderTitle(lines[h]), TaskLineTasks(lines[h + 1..], sep))]
  }

  /** One more line: a header opens a new, empty section; any other line
      adds its task (if it is a task line) to the last section, if any. */
  lemma GroupedSnoc(lines: seq<string>, l: string, sep: string)
    requires |sep| > 0
    ensures IsHeaderLine(l) ==>
      GroupedSections(lines + [l], sep) == GroupedSections(lines, sep) + [Section(HeaderTitle(l), [])]
    ensures !IsHeaderLine(l) && GroupedSections(lines, sep) == [] ==> GroupedSections(lines + [l], sep) == []
    ensures !IsHeaderLine(l) && GroupedSections(lines, sep) != [] ==>
      var g := GroupedSections(lines, sep);
      var last := g[|g| - 1];
      GroupedSections(lines + [l], sep)
        == g[..|g| - 1] + [last.(tasks := last.tasks + (if IsTaskLine(l) then [ParseTaskLine(l, sep)] else []))]
  {
    var ls := lines + [l];
    assert ls[..|lines|] == lines;
    if IsHeaderLine(l) {
      assert LastHeader(ls) == Some(|lines|);
      assert ls[|lines| + 1..] == [];
    } else {
      assert LastHeader(ls) == LastHeader(lines);
      match LastHeader(lines)
      case None =>
      case Some(h) =>
        assert ls[..h] == lines[..h] && ls[h] == lines[h];
        assert ls[h + 1..] == lines[h + 1..] + [l];
        TaskLineTasksSnoc(lines[h + 1..], l, sep);
    }
  }

  /** The scan state st means what the lines say: it has thrown exactly when
      a task line came before every header, and then on a task line; otherwise
      a section is open exactly when a header has been seen, and the sections
      so far (with the open one flushed) carry the header titles in order and
      all tasks in order. */
  predicate Meaning(lines: seq<string>, st: Scan, sep: string)
    requires |sep| > 0
  {
    && (st.Crashed? <==> HasOrphan(lines))
    && (st.Crashed? ==> IsTaskLine(st.line))
    && (st.Scanning? ==>
      && (st.current.None? <==> !HasHeader(lines))
      && Titles(Flushed(st.sections, st.current)) == HeaderTitles(lines)
      && AllTasks(Flushed(st.sections, st.current)) == TaskLineTasks(lines, sep)
      && Flushed(st.sections, st.current) == GroupedSections(lines, sep))
  }

  lemma HeaderTitlesSnoc(lines: seq<string>, l: string)
    ensures HeaderTitles(lines + [l]) == HeaderTitles(lines) + (if IsHeaderLine(l) then [HeaderTitle(l)] else [])
  {
    assert (lines + [l])[..|lines|] == lines;
  }

  lemma TaskLineTasksSnoc(lines: seq<string>, l: string, sep: string)
    requires |sep| > 0
    ensures TaskLineTasks(lines + [l], sep)
      == TaskLineTasks(lines, sep) + (if IsTaskLine(l) then [ParseTaskLine(l, sep)] else [])
  {
    assert (lines + [l])[..|lines|] == lines;
  }

  /** Adding a task to the open section adds it at the end of all tasks and
      leaves the titles. */
  lemma AddTaskMeaning(sections: seq<Section>, sec: Section, t: Task)
    ensures var grown := sec.(tasks := sec.tasks + [t]);
      && Titles(Flushed(sections, Some(grown))) == Titles(Flushed(sections, Some(sec)))
      && AllTasks(Flushed(sections, Some(grown))) == AllTasks(Flushed(sections, Some(sec))) + [t]
  {
    var grown := sec.(tasks := sec.tasks + [t]);
    TitlesSnoc(sections, sec);
    TitlesSnoc(sections, grown);
    AllTasksSnoc(sections, sec);
    AllTasksSnoc(sections, grown);
    assert AllTasks(sections) + (sec.tasks + [t]) == (AllTasks(sections) + sec.tasks) + [t];
  }

  /** Opening a section adds its title at the end and no tasks. */
  lemma OpenSectionMeaning(sections: seq<Section>, newSection: Section)
    requires newSection.tasks == []
    ensures Titles(Flushed(sections, Some(newSection))) == Titles(sections) + [newSection.title]
    ensures AllTasks(Flushed(sections, Some(newSection))) == AllTasks(sections)
  {
    TitlesSnoc(sections, newSection);
    AllTasksSnoc(sections, newSection);
    assert AllTasks(sections) + [] == AllTasks(sections);
  }

  /** One loop iteration keeps the meaning of the scan state. */
  lemma StepMeaning(lines: seq<string>, l: string, st: Scan, sep: string)
    requires |sep| > 0 && Meaning(lines, st, sep)
    ensures Meaning(lines + [l], ScanStep(st, l, sep), sep)
  {
    SnocHeader(lines, l);
    SnocOrphan(lines, l);
    HeaderTitlesSnoc(lines, l);
    TaskLineTasksSnoc(lines, l, sep);
    GroupedSnoc(lines, l, sep);
    if st.Scanning? {
      var sections, current := st.sections, st.current;
      ScanStepUnfold(sections, current, l, sep);
      if IsHeaderLine(l) {
        OpenSectionMeaning(Flushed(sections, current), Section(HeaderTitle(l), []));
      } else if current.Some? {
        var g := Flushed(sections, current);
        assert g[..|g| - 1] == sections && g[|g| - 1] == current.value;
        if "*" <= l {
          AddTaskMeaning(sections, current.value, ParseTaskLine(l, sep));
        } else {
          assert current.value.(tasks := current.value.tasks + []) == current.value;
        }
      }
    }
  }

  /** The scan's invariant: the state after all lines means what they say. */
  lemma {:induction false} ScanMeaning(lines: seq<string>, sep: string)
    requires |sep| > 0
    ensures Meaning(lines, ScanLines(lines, sep), sep)
  {
    if lines == [] {
      assert !HasHeader(lines) && !HasOrphan(lines);
    } else {
      var init := lines[..|lines| - 1];
      var l := lines[|lines| - 1];
      ScanMeaning(init, sep);
      StepMeaning(init, l, ScanLines(init, sep), sep);
      assert lines == init + [l];
    }
  }

  /** What `parseTasks` promises: an empty text gives no sections; otherwise
      it throws exactly when a task line precedes every header, and when it
      returns, there is one section per header line, in order, titled as
      `HeaderTitle` says and holding the tasks of the task lines between that
      header and the next, in order. */
  lemma ParseMeaning(taskString: string, sep: string)
    requires |sep| > 0
    ensures taskString == "" ==> Parse(taskString, sep) == Success([])
    ensures taskString != "" ==>
      var lines := Split(taskString, "\n");
      var r := Parse(taskString, sep);
      && (r.Failure? <==> HasOrphan(lines))
      && (r.Failure? ==> IsTaskLine(r.error.line))
      && (r.Success? ==> Titles(r.value) == HeaderTitles(lines) && AllTasks(r.value) == TaskLineTasks(lines, sep))
      && (r.Success? ==> r.value == GroupedSections(lines, sep))
  {
    if taskString != "" {
      ScanMeaning(Split(taskString, "\n"), sep);
    }
  }
}
