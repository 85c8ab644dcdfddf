/** How the two parsers compose: the text blocks the day splitter writes on
    the server are exactly what `parseTasks` reads on the page. */
module Pipeline {
  import opened Results
  import opened Strings
  import opened DaySplitter
  import opened TaskParser
  import opened Completion

  /** A section line the splitter writes, `**X**`, is a header for
      `parseTasks`, titled by X trimmed. */
  lemma SectionLineIsHeader(l: string)
    requires IsSectionLine(l)
    ensures IsHeaderLine(l) && !IsTaskLine(l)
    ensures HeaderTitle(l) == Trim(l[2..|l| - 2])
  {
    assert l[..2] == "**";
  }

  /** Every line of every day's text block is either empty, which
      `parseTasks` skips, or one that `parseTasks` reads as a header or a
      task: nothing the splitter writes is silently dropped by the page. */
  lemma PlanLinesRecognised(g: Generation)
    requires g.Generated?
    ensures forall d, l :: d in Plan(g) && l in Split(d.task, "\n") ==>
      l == "" || IsHeaderLine(l) || IsTaskLine(l)
  {
    PlanTextsWellFormed(g);
    forall d, l | d in Plan(g) && l in Split(d.task, "\n")
      ensures l == "" || IsHeaderLine(l) || IsTaskLine(l)
    {
      assert IsDayTextLine(l);
      if IsSectionLine(l) {
        SectionLineIsHeader(l);
      }
    }
  }

  /** A one-line text that is neither a header nor a task has no sections. */
  lemma PlainLineHasNoSections(line: string, sep: string)
    requires |sep| > 0 && line != "" && '\n' !in line
    requires !IsHeaderLine(line) && !("*" <= line)
    ensures Parse(line, sep) == Success([])
  {
    SplitNoSeparator(line, '\n');
    var lines := Split(line, "\n");
    assert lines == [line];
    assert lines[..0] == [];
    assert ScanLines(lines, sep) == ScanStep(Fresh, line, sep);
    ScanStepUnfold([], None, line, sep);
    assert ScanLines(lines, sep) == Fresh;
    assert Flushed([], None) == [];
  }

  /** A plan of one record whose text is such a line has no unit. */
  lemma PlainRecordHasNoUnits(d: DayRecord, m: Checks, sep: string)
    requires |sep| > 0 && d.task != "" && '\n' !in d.task
    requires !IsHeaderLine(d.task) && !("*" <= d.task)
    ensures ParsePlan([d], sep) == Success([ParsedDay(d.day, [])])
    ensures PlanCounts([d], m, sep) == Success(Counts(0, 0))
  {
    PlainLineHasNoSections(d.task, sep);
    assert [d][..0] == [];
    assert ParsePlan([d][..0], sep) == Success([]);
    var days := [ParsedDay(d.day, [])];
    assert [] + days == days;
    assert days[..0] == [];
    assert PlanUnits(days) == 0;
    assert PlanDone(m, days) <= PlanUnits(days);
    assert ParsePlan([d], sep) == Success(days);
  }

  lemma ErrorTextIsPlain()
    ensures ErrorText != "" && '\n' !in ErrorText
    ensures !IsHeaderLine(ErrorText) && !("*" <= ErrorText)
  {
    assert ErrorText[0] == 'E';
  }

  /** The fallback record has no section and no task, so the page shows
      progress 0 whatever is checked. */
  lemma FallbackPlanHasNoUnits(m: Checks, sep: string)
    requires |sep| > 0
    ensures ParsePlan(Plan(GenerationFailed), sep) == Success([ParsedDay(1, [])])
    ensures PlanCounts(Plan(GenerationFailed), m, sep) == Success(Counts(0, 0))
    ensures Percent(PlanCounts(Plan(GenerationFailed), m, sep).value) == 0.0
  {
    assert Plan(GenerationFailed) == [DayRecord(1, ErrorText)];
    ErrorTextIsPlain();
    PlainRecordHasNoUnits(DayRecord(1, ErrorText), m, sep);
  }

  // ---------------------------------------------------------------------------
  // A day's block from the splitter, read back by the page.

  /** The lines of a block holding one section line and one task line. */
  lemma SectionBlockLines(x: string, t: string)
    requires '\n' !in x && '\n' !in t
    ensures Split(("\n**" + x + "**\n") + (t + "\n"), "\n") == ["", "**" + x + "**", t, ""]
  {
    var l := "**" + x + "**";
    assert '\n' !in l;
    assert ("\n**" + x + "**\n") + (t + "\n") == [] + ['\n'] + (l + ['\n'] + (t + ['\n'] + []));
    SplitAppend([], '\n', l + ['\n'] + (t + ['\n'] + []));
    SplitAppend(l, '\n', t + ['\n'] + []);
    SplitAppend(t, '\n', []);
    SplitNoSeparator(l, '\n');
    SplitNoSeparator(t, '\n');
  }

  /** The scan over an empty line, a header line, a task line and an empty line. */
  lemma ScanSectionBlock(lines: seq<string>, sep: string)
    requires |sep| > 0 && |lines| == 4 && lines[0] == "" && lines[3] == ""
    requires IsHeaderLine(lines[1]) && IsTaskLine(lines[2])
    ensures SectionsOf(lines, sep) == Success([Section(HeaderTitle(lines[1]), [ParseTaskLine(lines[2], sep)])])
  {
    var openSection := Section(HeaderTitle(lines[1]), []);
    var task := ParseTaskLine(lines[2], sep);
    var filled := Section(HeaderTitle(lines[1]), [task]);
    assert lines[..0] == [] && lines[..4] == lines;
    SkipStep(lines, 0, sep, Fresh);
    HeaderStep(lines, 1, sep, [], None);
    TaskStep(lines, 2, sep, [], openSection);
    assert [] + [task] == [task];
    SkipStep(lines, 3, sep, Scanning([], Some(filled)));
    assert Flushed([], Some(filled)) == [filled];
  }

  /** `parseTasks` on a block made of one section line and one task line
      gives that section, titled by the trimmed capture, holding that task. */
  lemma SectionBlockParses(x: string, t: string, sep: string)
    requires |sep| > 0 && |x| >= 1 && '*' !in x && '\n' !in x
    requires '\n' !in t && "*" <= t && !IsHeaderLine(t)
    ensures Parse(("\n**" + x + "**\n") + (t + "\n"), sep)
      == Success([Section(Trim(x), [ParseTaskLine(t, sep)])])
  {
    var l := "**" + x + "**";
    assert l[2..|l| - 2] == x;
    SectionLineIsHeader(l);
    SectionBlockLines(x, t);
    ScanSectionBlock(["", l, t, ""], sep);
  }

  /** The splitter on a lone day header line. */
  lemma HeaderDay(h: string)
    requires Classify(Trim(h)).DayHeader?
    ensures Days([h]) == [DayRecord(Classify(Trim(h)).day, "")]
  {
    assert Days([]) == [];
    DaysAppendLine([], h);
    assert [] + [h] == [h];
  }

  /** A section or task line after a single day extends that day's text. */
  lemma ExtendOnlyDay(lines: seq<string>, line: string, r: DayRecord)
    requires Days(lines) == [r]
    requires Classify(Trim(line)).SectionHeader? || Classify(Trim(line)).TaskLine?
    ensures Days(lines + [line]) == [r.(task := r.task + Appended(Trim(line), Classify(Trim(line))))]
  {
    DaysAppendLine(lines, line);
  }

  /** The splitter on a day header followed by a section line. */
  lemma HeaderSectionDays(h: string, s: string)
    requires Classify(Trim(h)).DayHeader? && Classify(Trim(s)).SectionHeader?
    ensures Days([h, s]) == [DayRecord(Classify(Trim(h)).day, "\n**" + Classify(Trim(s)).title + "**\n")]
  {
    HeaderDay(h);
    ExtendOnlyDay([h], s, DayRecord(Classify(Trim(h)).day, ""));
    assert [h] + [s] == [h, s];
    assert "" + ("\n**" + Classify(Trim(s)).title + "**\n") == "\n**" + Classify(Trim(s)).title + "**\n";
  }

  /** The splitter on a day header, a section line and a task line. */
  lemma HeaderSectionTaskDays(h: string, s: string, line: string)
    requires Classify(Trim(h)).DayHeader? && Classify(Trim(s)).SectionHeader? && Classify(Trim(line)).TaskLine?
    ensures Days([h, s, line]) == [DayRecord(Classify(Trim(h)).day,
      ("\n**" + Classify(Trim(s)).title + "**\n") + (Trim(line) + "\n"))]
  {
    HeaderSectionDays(h, s);
    ExtendOnlyDay([h, s], line, DayRecord(Classify(Trim(h)).day, "\n**" + Classify(Trim(s)).title + "**\n"));
    assert [h, s] + [line] == [h, s, line];
  }

  /** The splitter on a day header followed directly by a task line. */
  lemma HeaderTaskDays(h: string, line: string)
    requires Classify(Trim(h)).DayHeader? && Classify(Trim(line)).TaskLine?
    ensures Days([h, line]) == [DayRecord(Classify(Trim(h)).day, Trim(line) + "\n")]
  {
    var r := DayRecord(Classify(Trim(h)).day, "");
    var t := Trim(line);
    HeaderDay(h);
    ExtendOnlyDay([h], line, r);
    assert [h] + [line] == [h, line];
    assert Appended(t, Classify(t)) == t + "\n";
    assert r.task + (t + "\n") == t + "\n";
  }

  /** A task line of the splitter has its `*` and no line break once trimmed. */
  lemma TaskText(line: string)
    requires '\n' !in line && Classify(Trim(line)).TaskLine?
    ensures '\n' !in Trim(line) && "*" <= Trim(line)
  {
    ClassifyKinds(Trim(line));
    TrimKeepsOut(line, '\n');
  }

  /** The facts about the captured title and the task text the page needs. */
  lemma SectionAndTaskText(s: string, line: string)
    requires '\n' !in s && '\n' !in line
    requires Classify(Trim(s)).SectionHeader? && Classify(Trim(line)).TaskLine?
    ensures var x := Classify(Trim(s)).title;
      |x| >= 1 && '*' !in x && '\n' !in x && '\n' !in Trim(line) && "*" <= Trim(line)
  {
    var x := Classify(Trim(s)).title;
    ClassifyKinds(Trim(s));
    TaskText(line);
    TrimKeepsOut(s, '\n');
    InfixKeepsOut(Trim(s), FindSection(Trim(s)).value.at + 2, x, '\n');
  }

  /** A day header, a section line and a task line, as the prompt's format
      lays them out: the splitter writes one day whose block the page reads
      back as one section with that task. */
  lemma DayWithOneTask(h: string, s: string, line: string, sep: string)
    requires |sep| > 0 && '\n' !in s && '\n' !in line
    requires Classify(Trim(h)).DayHeader? && Classify(Trim(s)).SectionHeader?
    requires Classify(Trim(line)).TaskLine? && !IsHeaderLine(Trim(line))
    ensures var x := Classify(Trim(s)).title;
      var t := Trim(line);
      && Days([h, s, line]) == [DayRecord(Classify(Trim(h)).day, ("\n**" + x + "**\n") + (t + "\n"))]
      && Parse(Days([h, s, line])[0].task, sep) == Success([Section(Trim(x), [ParseTaskLine(t, sep)])])
  {
    HeaderSectionTaskDays(h, s, line);
    SectionAndTaskText(s, line);
    SectionBlockParses(Classify(Trim(s)).title, Trim(line), sep);
  }

  /** `parseTasks` throws on a block whose first line is a task line. */
  lemma TaskBlockThrows(t: string, sep: string)
    requires |sep| > 0 && '\n' !in t && IsTaskLine(t)
    ensures Parse(t + "\n", sep) == Failure(TaskBeforeSection(t))
  {
    assert t + "\n" == t + ['\n'] + [];
    SplitAppend(t, '\n', []);
    SplitNoSeparator(t, '\n');
    var lines := [t, ""];
    assert Split(t + "\n", "\n") == lines;
    assert lines[..0] == [];
    OrphanStep(lines, 0, sep, []);
    CrashedStays(lines, 1, sep);
  }

  /** A day whose first content line is a task line, with no section line
      before it, gets a block on which `parseTasks` throws. */
  lemma TaskRightAfterDayHeader(h: string, line: string, sep: string)
    requires |sep| > 0 && '\n' !in line
    requires Classify(Trim(h)).DayHeader? && Classify(Trim(line)).TaskLine? && !IsHeaderLine(Trim(line))
    ensures var t := Trim(line);
      && Days([h, line]) == [DayRecord(Classify(Trim(h)).day, t + "\n")]
      && Parse(Days([h, line])[0].task, sep) == Failure(TaskBeforeSection(t))
  {
    HeaderTaskDays(h, line);
    TaskText(line);
    TaskBlockThrows(Trim(line), sep);
  }

  // ---------------------------------------------------------------------------
  // The subtask separator: the prompt asks for the bullet U+2022 between
  // subtasks, while `parseTasks` splits on the three characters U+00E2 U+20AC
  // U+00A2 (the bullet's UTF-8 bytes read as Windows-1252).

  /** A main task or subtask as the prompt lays it out: non-empty, trimmed,
      on one line, and free of colons, bullets and U+00E2. */
  predicate IsItem(w: string) {
    w != "" && IsTrimmed(w) && ':' !in w && '\U{2022}' !in w && '\U{00E2}' !in w && '\n' !in w
  }

  /** `* main: a • b`, the task line format the prompt asks for. */
  function PromptTaskLine(main: string, a: string, b: string): string {
    "* " + main + ": " + a + " \U{2022} " + b
  }

  /** `line.slice(1).trim()` of a prompt-format task line. */
  lemma PromptLineBody(main: string, a: string, b: string)
    requires IsItem(main) && IsItem(a) && IsItem(b)
    ensures "*" <= PromptTaskLine(main, a, b)
    ensures Trim(PromptTaskLine(main, a, b)[1..]) == main + ": " + a + " \U{2022} " + b
  {
    var line := PromptTaskLine(main, a, b);
    var body := main + ": " + a + " \U{2022} " + b;
    assert line == "*" + (" " + body);
    assert line[1..] == " " + body;
    assert body[0] == main[0] && body[|body| - 1] == b[|b| - 1];
    TrimPadded(body);
  }

  /** The colon split of `main: seg` when neither part has a colon. */
  lemma ColonParts(main: string, seg: string)
    requires ':' !in main && ':' !in seg
    ensures Split(main + ": " + seg, ":") == [main, " " + seg]
  {
    var rest := " " + seg;
    assert main + ": " + seg == main + [':'] + rest;
    assert ':' !in rest;
    SplitAppend(main, ':', rest);
    SplitNoSeparator(main, ':');
    SplitNoSeparator(rest, ':');
  }

  /** The colon split of a prompt-format task line: the main task and the
      subtask string `a • b`. */
  lemma PromptLineParts(main: string, a: string, b: string)
    requires IsItem(main) && IsItem(a) && IsItem(b)
    ensures var line := PromptTaskLine(main, a, b);
      var parts := Split(Trim(line[1..]), ":");
      && "*" <= line && |parts| == 2
      && Trim(parts[0]) == main && Trim(parts[1]) == a + " \U{2022} " + b
  {
    var seg := a + " \U{2022} " + b;
    PromptLineBody(main, a, b);
    assert main + ": " + a + " \U{2022} " + b == main + ": " + seg;
    assert ':' !in seg;
    ColonParts(main, seg);
    TrimOfTrimmed(main);
    assert seg[0] == a[0] && seg[|seg| - 1] == b[|b| - 1];
    TrimPadded(seg);
  }

  /** As written: the page keeps a prompt-format subtask list `a • b` as one
      subtask, because the separator it splits on never occurs in it. */
  lemma SourceSeparatorKeepsBulletList(main: string, a: string, b: string)
    requires IsItem(main) && IsItem(a) && IsItem(b)
    ensures ParseTaskLine(PromptTaskLine(main, a, b), SourceSeparator) == Task(main, [a + " \U{2022} " + b])
  {
    PromptLineParts(main, a, b);
    var seg := a + " \U{2022} " + b;
    assert seg[0] == a[0] && seg[|seg| - 1] == b[|b| - 1];
    assert '\U{00E2}' !in seg;
    SplitWithoutSeparator(seg, SourceSeparator);
    TrimOfTrimmed(seg);
  }

  /** As written, in general: on a line without U+00E2 a task never has more
      than one subtask. */
  lemma SourceSeparatorNeverSplits(line: string)
    requires "*" <= line && '\U{00E2}' !in line
    ensures |ParseTaskLine(line, SourceSeparator).subtasks| <= 1
  {
    assert '\U{00E2}' !in line[1..];
    TrimKeepsOut(line[1..], '\U{00E2}');
    var taskLine := Trim(line[1..]);
    var parts := Split(taskLine, ":");
    SplitKeepsOut(taskLine, ":", '\U{00E2}');
    if |parts| > 1 {
      assert parts[1] in parts;
      TrimKeepsOut(parts[1], '\U{00E2}');
      SplitWithoutSeparator(Trim(parts[1]), SourceSeparator);
    }
  }

  /** Corrected: splitting on the bullet itself turns `a • b` into the two
      subtasks a and b. */
  lemma BulletSplitsSubtasks(main: string, a: string, b: string)
    requires IsItem(main) && IsItem(a) && IsItem(b)
    ensures ParseTaskLine(PromptTaskLine(main, a, b), Bullet) == Task(main, [a, b])
  {
    PromptLineParts(main, a, b);
    var seg := a + " \U{2022} " + b;
    assert seg == (a + " ") + ['\U{2022}'] + (" " + b);
    SplitAppend(a + " ", '\U{2022}', " " + b);
    assert '\U{2022}' !in a + " " && '\U{2022}' !in " " + b;
    SplitNoSeparator(a + " ", '\U{2022}');
    SplitNoSeparator(" " + b, '\U{2022}');
    TrimPadded(a);
    TrimPadded(b);
  }

  // ---------------------------------------------------------------------------
  // What the separator does to the progress figure the page shows.

  /** A day text holding one section line and one prompt-format task line. */
  function PromptDayText(x: string, main: string, a: string, b: string): string {
    ("\n**" + x + "**\n") + (PromptTaskLine(main, a, b) + "\n")
  }

  /** The map after a click on the main task of the first task of the first
      section of day d, and nothing else. */
  function MainTaskClicked(d: nat): Checks {
    map[TaskKey(d, 0, 0) := true]
  }

  lemma {:induction false} NoSubtaskClicked(d: nat, n: nat)
    ensures SubtasksDone(MainTaskClicked(d), d, 0, 0, n) == 0
  {
    if n > 0 {
      NoSubtaskClicked(d, n - 1);
    }
  }

  /** A day whose text parses to one section with one task: with only its
      main task clicked, one unit of 1 + (number of subtasks) is completed. */
  lemma OneTaskDayCounts(rec: DayRecord, title: string, task: Task, sep: string)
    requires |sep| > 0 && Parse(rec.task, sep) == Success([Section(title, [task])])
    ensures PlanCounts([rec], MainTaskClicked(rec.day), sep) == Success(Counts(1 + |task.subtasks|, 1))
  {
    var days := [ParsedDay(rec.day, [Section(title, [task])])];
    assert [rec][..0] == [] && [rec][0] == rec;
    assert ParsePlan([rec][..0], sep) == Success([]);
    assert [] + days == days;
    assert ParsePlan([rec], sep) == Success(days);
    var secs := [Section(title, [task])];
    assert days[..0] == [] && days[0].sections == secs;
    assert secs[..0] == [] && secs[0].tasks == [task] && [task][..0] == [];
    assert TasksUnits([task]) == TaskUnits(task);
    assert SectionsUnits(secs) == TaskUnits(task);
    assert PlanUnits(days) == 1 + |task.subtasks|;
    NoSubtaskClicked(rec.day, |task.subtasks|);
    assert TasksDone(MainTaskClicked(rec.day), rec.day, 0, [task]) == 1;
    assert SectionsDone(MainTaskClicked(rec.day), rec.day, secs) == 1;
    assert PlanDone(MainTaskClicked(rec.day), days) == 1;
  }

  /** The prompt-format day text parses to one section with the task line's task. */
  lemma PromptDayParses(x: string, main: string, a: string, b: string, sep: string)
    requires |sep| > 0 && |x| >= 1 && '*' !in x && '\n' !in x
    requires IsItem(main) && IsItem(a) && IsItem(b)
    ensures Parse(PromptDayText(x, main, a, b), sep)
      == Success([Section(Trim(x), [ParseTaskLine(PromptTaskLine(main, a, b), sep)])])
  {
    var t := PromptTaskLine(main, a, b);
    assert t == "* " + (main + ": " + a + " \U{2022} " + b);
    assert '\n' !in t && t[1] == ' ';
    PromptLineBody(main, a, b);
    SectionBlockParses(x, t, sep);
  }

  /** As written, on the page: with the main task of `* main: a • b` clicked,
      the page counts 1 of 2 units and shows 50 %. */
  lemma PageProgressAsWritten(d: nat, x: string, main: string, a: string, b: string)
    requires |x| >= 1 && '*' !in x && '\n' !in x
    requires IsItem(main) && IsItem(a) && IsItem(b)
    ensures var c := PlanCounts([DayRecord(d, PromptDayText(x, main, a, b))], MainTaskClicked(d), SourceSeparator);
      c == Success(Counts(2, 1)) && Percent(c.value) == 50.0
  {
    PromptDayParses(x, main, a, b, SourceSeparator);
    SourceSeparatorKeepsBulletList(main, a, b);
    OneTaskDayCounts(DayRecord(d, PromptDayText(x, main, a, b)), Trim(x), Task(main, [a + " \U{2022} " + b]), SourceSeparator);
  }

  /** Corrected, on the page: splitting on the bullet, the same click counts
      1 of 3 units and shows a third of 100 %. */
  lemma PageProgressCorrected(d: nat, x: string, main: string, a: string, b: string)
    requires |x| >= 1 && '*' !in x && '\n' !in x
    requires IsItem(main) && IsItem(a) && IsItem(b)
    ensures var c := PlanCounts([DayRecord(d, PromptDayText(x, main, a, b))], MainTaskClicked(d), Bullet);
      c == Success(Counts(3, 1)) && Percent(c.value) == 100.0 / 3.0
  {
    PromptDayParses(x, main, a, b, Bullet);
    BulletSplitsSubtasks(main, a, b);
    OneTaskDayCounts(DayRecord(d, PromptDayText(x, main, a, b)), Trim(x), Task(main, [a, b]), Bullet);
  }

  // ---------------------------------------------------------------------------
  // A task line of stars only is a task to the splitter and a header to the parser.

  /** Neither header pattern of the splitter matches `***`. */
  lemma StarLineMatchesNoHeader()
    ensures FindSection("***").None? && FindDay("***").None?
  {
    var l := "***";
    assert MatchSectionAt(l, 0).None? by {
      assert l[0..][2..] == "*" && NonStarRun("*") == 0;
    }
    assert MatchSectionAt(l, 1).None? by {
      assert l[1..][2..] == "" && NonStarRun("") == 0;
    }
    assert MatchSectionAt(l, 2).None? && MatchSectionAt(l, 3).None?;
    assert !("**Day" <= l[0..]) && !("**Day" <= l[1..]);
  }

  lemma StarTextLines()
    ensures Split("***\n", "\n") == ["***", ""]
  {
    assert "***\n" == "***" + ['\n'] + [];
    SplitAppend("***", '\n', []);
    SplitNoSeparator("***", '\n');
    SplitNoSeparator([], '\n');
  }

  /** `parseTasks` reads the text `***` plus a line break as one empty section. */
  lemma StarLineParses(sep: string)
    requires |sep| > 0
    ensures Parse("***\n", sep) == Success([Section("", [])])
  {
    var l := "***";
    var lines := [l, ""];
    StarTextLines();
    assert IsHeaderLine(l) && HeaderTitle(l) == "";
    assert lines[..0] == [] && lines[..2] == lines;
    HeaderStep(lines, 0, sep, [], None);
    SkipStep(lines, 1, sep, Scanning([], Some(Section("", []))));
    assert Flushed([], Some(Section("", []))) == [Section("", [])];
    assert SectionsOf(lines, sep) == Success([Section("", [])]);
  }

  /** `***` has no title between its stars, so the splitter files it as a task
      line of the open day; `parseTasks` then sees a line that starts and ends
      with `**` and opens a section titled "" for it. */
  lemma StarLineReadAsSection(sep: string)
    requires |sep| > 0
    ensures Trim("***") == "***" && Classify("***") == TaskLine
    ensures Appended("***", TaskLine) == "***\n"
    ensures IsHeaderLine("***") && HeaderTitle("***") == ""
    ensures Parse("***\n", sep) == Success([Section("", [])])
  {
    assert IsTrimmed("***");
    TrimOfTrimmed("***");
    StarLineMatchesNoHeader();
    StarLineParses(sep);
  }
}
