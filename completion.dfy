/** The completion tracker of the goal page (frontend/src/pages/GoalSetup.jsx):
    the `checkedTasks` map that the checkboxes flip, and the progress figure
    computed from it whenever the map or the plan changes.

    A checkbox key is the string `day-s-t` for a main task or `day-s-t-st`
    for a subtask, where `day` is the record's `day` number and s, t, st are
    the section, task and subtask indexes; the initialisation writes the keys
    `0`, `1`, ... (the indexes of the records) with an empty object, which is
    truthy. `Key` gives each of these string shapes its own constructor. */
module Completion {
  import opened Results
  import opened DaySplitter
  import opened TaskParser

  datatype Key =
    | TaskKey(day: nat, section: nat, task: nat)
    | SubtaskKey(day: nat, section: nat, task: nat, subtask: nat)
    | DayIndexKey(index: nat)

  /** `checkedTasks`; an initialisation entry (an empty object) is stored as true. */
  type Checks = map<Key, bool>

  /** The truthiness of `checkedTasks[key]`: an absent key reads as false. */
  predicate IsChecked(m: Checks, k: Key) {
    k in m && m[k]
  }

  /** The key a checkbox passes to `handleCheckboxChange`. */
  function KeyOf(day: nat, section: nat, task: nat, subtask: Option<nat>): Key {
    match subtask
    case None => TaskKey(day, section, task)
    case Some(st) => SubtaskKey(day, section, task, st)
  }

  /** `handleCheckboxChange`: a copy of the map in which one key holds the
      negation of its previous truthiness. */
  function Toggled(m: Checks, k: Key): (r: Checks)
    ensures k in r && r[k] == !IsChecked(m, k)
    ensures forall j :: j != k ==> (j in r <==> j in m)
    ensures forall j :: j != k && j in m ==> r[j] == m[j]
  {
    m[k := !IsChecked(m, k)]
  }

  /** Toggling a key twice gives every key its old truthiness back, though a
      key that was absent is now present with false. */
  lemma ToggleTwice(m: Checks, k: Key)
    ensures forall j :: IsChecked(Toggled(Toggled(m, k), k), j) == IsChecked(m, j)
    ensures k !in m ==> Toggled(Toggled(m, k), k) == m[k := false]
  {
    var once := Toggled(m, k);
    var twice := Toggled(once, k);
    forall j ensures IsChecked(twice, j) == IsChecked(m, j) {
      if j == k {
        assert IsChecked(once, k) == !IsChecked(m, k);
      }
    }
  }

  /** The map the page stores when a plan arrives: one entry per record,
      keyed by the record's index. */
  function InitialChecks(n: nat): (r: Checks)
    ensures forall k :: k in r <==> k.DayIndexKey? && k.index < n
  {
    if n == 0 then map[] else InitialChecks(n - 1)[DayIndexKey(n - 1) := true]
  }

  // ---------------------------------------------------------------------------
  // The progress counts, as specification functions. Each level of the nested
  // `forEach` loops has a total of units and a count of checked units.

  /** A record of the plan after `parseTasks` has run on its text. */
  datatype ParsedDay = ParsedDay(day: nat, sections: seq<Section>)

  /** The two counters of the progress effect. */
  datatype Counts = Counts(total: nat, completed: nat)

  /** One unit for the main task and one per subtask. */
  function TaskUnits(t: Task): nat {
    1 + |t.subtasks|
  }

  function TasksUnits(tasks: seq<Task>): nat {
    if tasks == [] then 0 else TasksUnits(tasks[..|tasks| - 1]) + TaskUnits(tasks[|tasks| - 1])
  }

  function SectionsUnits(sections: seq<Section>): nat {
    if sections == [] then 0
    else SectionsUnits(sections[..|sections| - 1]) + TasksUnits(sections[|sections| - 1].tasks)
  }

  function PlanUnits(days: seq<ParsedDay>): nat {
    if days == [] then 0 else PlanUnits(days[..|days| - 1]) + SectionsUnits(days[|days| - 1].sections)
  }

  function Bit(b: bool): nat {
    if b then 1 else 0
  }

  /** The checked subtasks among the first n of task t of section s of a day. */
  function SubtasksDone(m: Checks, day: nat, s: nat, t: nat, n: nat): (r: nat)
    ensures r <= n
  {
    if n == 0 then 0 else SubtasksDone(m, day, s, t, n - 1) + Bit(IsChecked(m, SubtaskKey(day, s, t, n - 1)))
  }

  function TaskDone(m: Checks, day: nat, s: nat, t: nat, task: Task): (r: nat)
    ensures r <= TaskUnits(task)
  {
    Bit(IsChecked(m, TaskKey(day, s, t))) + SubtasksDone(m, day, s, t, |task.subtasks|)
  }

  /** The checked units of the tasks of section s of a day; the task index is
      the position in `tasks`. */
  function TasksDone(m: Checks, day: nat, s: nat, tasks: seq<Task>): (r: nat)
    ensures r <= TasksUnits(tasks)
  {
    if tasks == [] then 0
    else TasksDone(m, day, s, tasks[..|tasks| - 1]) + TaskDone(m, day, s, |tasks| - 1, tasks[|tasks| - 1])
  }

  function SectionsDone(m: Checks, day: nat, sections: seq<Section>): (r: nat)
    ensures r <= SectionsUnits(sections)
  {
    if sections == [] then 0
    else
      SectionsDone(m, day, sections[..|sections| - 1])
        + TasksDone(m, day, |sections| - 1, sections[|sections| - 1].tasks)
  }

  /** The checked units of the whole plan: the completed count never exceeds the total. */
  function PlanDone(m: Checks, days: seq<ParsedDay>): (r: nat)
    ensures r <= PlanUnits(days)
  {
    if days == [] then 0
    else PlanDone(m, days[..|days| - 1]) + SectionsDone(m, days[|days| - 1].day, days[|days| - 1].sections)
  }

  /** `parseTasks(dayPlan.task || '')` for every record in order; the first
      record whose text throws ends the effect with that exception. */
  function ParsePlan(plan: seq<DayRecord>, sep: string): Result<seq<ParsedDay>, ParseError>
    requires |sep| > 0
  {
    if plan == [] then Success([])
    else
      match ParsePlan(plan[..|plan| - 1], sep)
      case Failure(e) => Failure(e)
      case Success(days) =>
        var d := plan[|plan| - 1];
        match Parse(d.task, sep)
        case Failure(e) => Failure(e)
        case Success(sections) => Success(days + [ParsedDay(d.day, sections)])
  }

  /** The counters the effect ends with, or the exception it throws. */
  function PlanCounts(plan: seq<DayRecord>, m: Checks, sep: string): Result<Counts, ParseError>
    requires |sep| > 0
  {
    match ParsePlan(plan, sep)
    case Failure(e) => Failure(e)
    case Success(days) => Success(Counts(PlanUnits(days), PlanDone(m, days)))
  }

  /** `totalTasks > 0 ? (completedTasks / totalTasks) * 100 : 0`, exactly. */
  function Percent(c: Counts): real {
    if c.total > 0 then (c.completed as real / c.total as real) * 100.0 else 0.0
  }

  // ---------------------------------------------------------------------------
  // Which keys a plan reads, and what the figure means.

  predicate TaskFullyChecked(m: Checks, day: nat, s: nat, t: nat, task: Task) {
    IsChecked(m, TaskKey(day, s, t))
      && forall st :: 0 <= st < |task.subtasks| ==> IsChecked(m, SubtaskKey(day, s, t, st))
  }

  predicate SectionFullyChecked(m: Checks, day: nat, s: nat, sec: Section) {
    forall t :: 0 <= t < |sec.tasks| ==> TaskFullyChecked(m, day, s, t, sec.tasks[t])
  }

  predicate DayFullyChecked(m: Checks, d: ParsedDay) {
    forall s :: 0 <= s < |d.sections| ==> SectionFullyChecked(m, d.day, s, d.sections[s])
  }

  /** Every unit key of the plan maps to true. */
  predicate PlanFullyChecked(m: Checks, days: seq<ParsedDay>) {
    forall i :: 0 <= i < |days| ==> DayFullyChecked(m, days[i])
  }

  lemma {:induction false} SubtasksAllDone(m: Checks, day: nat, s: nat, t: nat, n: nat)
    ensures SubtasksDone(m, day, s, t, n) == n
      <==> forall st :: 0 <= st < n ==> IsChecked(m, SubtaskKey(day, s, t, st))
  {
    if n > 0 {
      SubtasksAllDone(m, day, s, t, n - 1);
    }
  }

  lemma TaskAllDone(m: Checks, day: nat, s: nat, t: nat, task: Task)
    ensures TaskDone(m, day, s, t, task) == TaskUnits(task) <==> TaskFullyChecked(m, day, s, t, task)
  {
    SubtasksAllDone(m, day, s, t, |task.subtasks|);
  }

  lemma {:induction false} TasksAllDone(m: Checks, day: nat, s: nat, tasks: seq<Task>)
    ensures TasksDone(m, day, s, tasks) == TasksUnits(tasks) <==> SectionFullyChecked(m, day, s, Section("", tasks))
  {
    if tasks != [] {
      var init := tasks[..|tasks| - 1];
      var n := |tasks| - 1;
      TasksAllDone(m, day, s, init);
      TaskAllDone(m, day, s, n, tasks[n]);
      if SectionFullyChecked(m, day, s, Section("", tasks)) {
        forall t | 0 <= t < |init| ensures TaskFullyChecked(m, day, s, t, init[t]) {
          assert init[t] == tasks[t];
        }
      }
      if SectionFullyChecked(m, day, s, Section("", init)) && TaskFullyChecked(m, day, s, n, tasks[n]) {
        forall t | 0 <= t < |tasks| ensures TaskFullyChecked(m, day, s, t, tasks[t]) {
          if t < n {
            assert init[t] == tasks[t];
          }
        }
      }
    }
  }

  lemma {:induction false} SectionsAllDone(m: Checks, d: ParsedDay)
    ensures SectionsDone(m, d.day, d.sections) == SectionsUnits(d.sections) <==> DayFullyChecked(m, d)
    decreases |d.sections|
  {
    var sections := d.sections;
    if sections != [] {
      var init := sections[..|sections| - 1];
      var n := |sections| - 1;
      var sec := sections[n];
      SectionsAllDone(m, ParsedDay(d.day, init));
      TasksAllDone(m, d.day, n, sec.tasks);
      assert SectionFullyChecked(m, d.day, n, Section("", sec.tasks)) == SectionFullyChecked(m, d.day, n, sec);
      if DayFullyChecked(m, d) {
        forall s | 0 <= s < |init| ensures SectionFullyChecked(m, d.day, s, init[s]) {
          assert init[s] == sections[s];
        }
      }
      if DayFullyChecked(m, ParsedDay(d.day, init)) && SectionFullyChecked(m, d.day, n, sec) {
        forall s | 0 <= s < |sections| ensures SectionFullyChecked(m, d.day, s, sections[s]) {
          if s < n {
            assert init[s] == sections[s];
          }
        }
      }
    }
  }

  /** The completed count equals the total exactly when every unit key of the
      plan maps to true. */
  lemma {:induction false} PlanAllDone(m: Checks, days: seq<ParsedDay>)
    ensures PlanDone(m, days) == PlanUnits(days) <==> PlanFullyChecked(m, days)
  {
    if days != [] {
      var init := days[..|days| - 1];
      var n := |days| - 1;
      PlanAllDone(m, init);
      SectionsAllDone(m, days[n]);
      if PlanFullyChecked(m, days) {
        forall i | 0 <= i < |init| ensures DayFullyChecked(m, init[i]) {
          assert init[i] == days[i];
        }
      }
      if PlanFullyChecked(m, init) && DayFullyChecked(m, days[n]) {
        forall i | 0 <= i < |days| ensures DayFullyChecked(m, days[i]) {
          if i < n {
            assert init[i] == days[i];
          }
        }
      }
    }
  }

  /** The figure lies between 0 and 100 and is 100 exactly when there is at
      least one unit and all of them are completed. */
  lemma PercentRange(c: Counts)
    requires c.completed <= c.total
    ensures 0.0 <= Percent(c) <= 100.0
    ensures Percent(c) == 100.0 <==> c.total > 0 && c.completed == c.total
  {
    if c.total > 0 {
      var ratio := c.completed as real / c.total as real;
      assert ratio * c.total as real == c.completed as real;
      assert ratio <= 1.0;
    }
  }

  /** What the progress effect promises for a plan whose texts all parse: the
      figure is in [0, 100], and it is 100 exactly when the plan has a unit
      and every unit key is checked. */
  lemma ProgressMeaning(plan: seq<DayRecord>, m: Checks, sep: string)
    requires |sep| > 0 && ParsePlan(plan, sep).Success?
    ensures var c := PlanCounts(plan, m, sep).value;
      var days := ParsePlan(plan, sep).value;
      && c.total == PlanUnits(days)
      && 0.0 <= Percent(c) <= 100.0
      && (Percent(c) == 100.0 <==> PlanUnits(days) > 0 && PlanFullyChecked(m, days))
  {
    var days := ParsePlan(plan, sep).value;
    PercentRange(PlanCounts(plan, m, sep).value);
    PlanAllDone(m, days);
  }

  /** The two maps give every task and subtask key the same truthiness. */
  ghost predicate AgreeOnUnits(m1: Checks, m2: Checks) {
    forall k: Key :: !k.DayIndexKey? ==> IsChecked(m1, k) == IsChecked(m2, k)
  }

  /** Only task and subtask keys are read: two maps that agree on the
      truthiness of those give the same completed count. In particular the
      initialisation entries (keyed by record index) are never read. */
  lemma {:induction false} OnlyUnitKeysRead(m1: Checks, m2: Checks, days: seq<ParsedDay>)
    requires AgreeOnUnits(m1, m2)
    ensures PlanDone(m1, days) == PlanDone(m2, days)
  {
    if days != [] {
      OnlyUnitKeysRead(m1, m2, days[..|days| - 1]);
      var d := days[|days| - 1];
      SectionsReadSame(m1, m2, d.day, d.sections);
    }
  }

  lemma {:induction false} SectionsReadSame(m1: Checks, m2: Checks, day: nat, sections: seq<Section>)
    requires AgreeOnUnits(m1, m2)
    ensures SectionsDone(m1, day, sections) == SectionsDone(m2, day, sections)
  {
    if sections != [] {
      SectionsReadSame(m1, m2, day, sections[..|sections| - 1]);
      TasksReadSame(m1, m2, day, |sections| - 1, sections[|sections| - 1].tasks);
    }
  }

  lemma {:induction false} TasksReadSame(m1: Checks, m2: Checks, day: nat, s: nat, tasks: seq<Task>)
    requires AgreeOnUnits(m1, m2)
    ensures TasksDone(m1, day, s, tasks) == TasksDone(m2, day, s, tasks)
  {
    if tasks != [] {
      var t := |tasks| - 1;
      TasksReadSame(m1, m2, day, s, tasks[..t]);
      SubtasksReadSame(m1, m2, day, s, t, |tasks[t].subtasks|);
      assert IsChecked(m1, TaskKey(day, s, t)) == IsChecked(m2, TaskKey(day, s, t));
    }
  }

  lemma {:induction false} SubtasksReadSame(m1: Checks, m2: Checks, day: nat, s: nat, t: nat, n: nat)
    requires AgreeOnUnits(m1, m2)
    ensures SubtasksDone(m1, day, s, t, n) == SubtasksDone(m2, day, s, t, n)
  {
    if n > 0 {
      SubtasksReadSame(m1, m2, day, s, t, n - 1);
      assert IsChecked(m1, SubtaskKey(day, s, t, n - 1)) == IsChecked(m2, SubtaskKey(day, s, t, n - 1));
    }
  }

  /** Right after a plan arrives nothing is completed, so the figure is 0:
      the initial entries are keyed by record index and never read. */
  lemma InitialChecksUnread(n: nat, days: seq<ParsedDay>)
    ensures PlanDone(InitialChecks(n), days) == 0
    ensures Percent(Counts(PlanUnits(days), PlanDone(InitialChecks(n), days))) == 0.0
  {
    var m := InitialChecks(n);
    forall k: Key | !k.DayIndexKey? ensures IsChecked(m, k) == IsChecked(map[], k) {
      assert k !in m;
    }
    OnlyUnitKeysRead(m, map[], days);
    NothingCheckedNothingDone(days);
  }

  lemma {:induction false} NothingCheckedNothingDone(days: seq<ParsedDay>)
    ensures PlanDone(map[], days) == 0
  {
    if days != [] {
      NothingCheckedNothingDone(days[..|days| - 1]);
      var d := days[|days| - 1];
      assert SectionsDone(map[], d.day, d.sections) <= SectionsUnits(d.sections);
      NoSectionDone(d.day, d.sections);
    }
  }

  lemma {:induction false} NoSectionDone(day: nat, sections: seq<Section>)
    ensures SectionsDone(map[], day, sections) == 0
  {
    if sections != [] {
      NoSectionDone(day, sections[..|sections| - 1]);
      NoTaskDone(day, |sections| - 1, sections[|sections| - 1].tasks);
    }
  }

  lemma {:induction false} NoTaskDone(day: nat, s: nat, tasks: seq<Task>)
    ensures TasksDone(map[], day, s, tasks) == 0
  {
    if tasks != [] {
      NoTaskDone(day, s, tasks[..|tasks| - 1]);
      NoSubtaskDone(day, s, |tasks| - 1, |tasks[|tasks| - 1].subtasks|);
    }
  }

  lemma {:induction false} NoSubtaskDone(day: nat, s: nat, t: nat, n: nat)
    ensures SubtasksDone(map[], day, s, t, n) == 0
  {
    if n > 0 {
      NoSubtaskDone(day, s, t, n - 1);
    }
  }

  /** Checking only the main task of a task with three subtasks completes one
      unit of four: 25 percent. */
  lemma OneOfFour()
    ensures var task := Task("Learn", ["a", "b", "c"]);
      var days := [ParsedDay(1, [Section("Intro:", [task])])];
      var m := map[TaskKey(1, 0, 0) := true];
      PlanUnits(days) == 4 && PlanDone(m, days) == 1
        && Percent(Counts(PlanUnits(days), PlanDone(m, days))) == 25.0
  {
    var task := Task("Learn", ["a", "b", "c"]);
    var m := map[TaskKey(1, 0, 0) := true];
    assert SubtasksDone(m, 1, 0, 0, 3) == 0 by {
      assert !IsChecked(m, SubtaskKey(1, 0, 0, 0));
      assert !IsChecked(m, SubtaskKey(1, 0, 0, 1));
      assert !IsChecked(m, SubtaskKey(1, 0, 0, 2));
    }
    assert TaskDone(m, 1, 0, 0, task) == 1;
    var sec := Section("Intro:", [task]);
    assert [task][..0] == [];
    assert TasksUnits([task]) == 4 && TasksDone(m, 1, 0, [task]) == 1;
    assert [sec][..0] == [];
    assert SectionsUnits([sec]) == 4 && SectionsDone(m, 1, [sec]) == 1;
    var days := [ParsedDay(1, [sec])];
    assert days[..0] == [];
    assert PlanUnits(days) == 4 && PlanDone(m, days) == 1;
  }

  // ---------------------------------------------------------------------------
  // The nested loops of the progress effect.

  /** `task.subtasks.forEach(...)` for task t of section s. */
  method CountSubtasks(m: Checks, day: nat, s: nat, t: nat, n: nat) returns (completed: nat)
    ensures completed == SubtasksDone(m, day, s, t, n)
  {
    completed := 0;
    for st := 0 to n
      invariant completed == SubtasksDone(m, day, s, t, st)
    {
      var key := SubtaskKey(day, s, t, st);
      if key in m && m[key] {
        completed := completed + 1;
      }
    }
  }

  /** `section.tasks.forEach(...)` for section s of a day. */
  method CountTasks(m: Checks, day: nat, s: nat, tasks: seq<Task>) returns (c: Counts)
    ensures c == Counts(TasksUnits(tasks), TasksDone(m, day, s, tasks))
  {
    var total, completed := 0, 0;
    for t := 0 to |tasks|
      invariant total == TasksUnits(tasks[..t]) && completed == TasksDone(m, day, s, tasks[..t])
    {
      assert tasks[..t + 1][..t] == tasks[..t];
      total := total + 1;
      var key := TaskKey(day, s, t);
      if key in m && m[key] {
        completed := completed + 1;
      }
      var sub := CountSubtasks(m, day, s, t, |tasks[t].subtasks|);
      total := total + |tasks[t].subtasks|;
      completed := completed + sub;
    }
    assert tasks[..|tasks|] == tasks;
    return Counts(total, completed);
  }

  /** `sections.forEach(...)` for one day. */
  method CountSections(m: Checks, day: nat, sections: seq<Section>) returns (c: Counts)
    ensures c == Counts(SectionsUnits(sections), SectionsDone(m, day, sections))
  {
    var total, completed := 0, 0;
    for s := 0 to |sections|
      invariant total == SectionsUnits(sections[..s]) && completed == SectionsDone(m, day, sections[..s])
    {
      assert sections[..s + 1][..s] == sections[..s];
      var inner := CountTasks(m, day, s, sections[s].tasks);
      total := total + inner.total;
      completed := completed + inner.completed;
    }
    assert sections[..|sections|] == sections;
    return Counts(total, completed);
  }

  /** `plan.forEach(...)`: parses every record's text and counts its units;
      an exception from `parseTasks` ends the effect. */
  method CountPlan(plan: seq<DayRecord>, m: Checks, sep: string) returns (r: Result<Counts, ParseError>)
    requires |sep| > 0
    ensures r == PlanCounts(plan, m, sep)
  {
    var total, completed := 0, 0;
    ghost var days: seq<ParsedDay> := [];
    for i := 0 to |plan|
      invariant ParsePlan(plan[..i], sep) == Success(days)
      invariant total == PlanUnits(days) && completed == PlanDone(m, days)
    {
      assert plan[..i + 1][..i] == plan[..i];
      var parsed := ParseTasks(plan[i].task, sep);
      if parsed.Failure? {
        FailureStays(plan, i + 1, sep);
        return Failure(parsed.error);
      }
      var d := ParsedDay(plan[i].day, parsed.value);
      assert (days + [d])[..|days|] == days;
      var inner := CountSections(m, plan[i].day, parsed.value);
      total := total + inner.total;
      completed := completed + inner.completed;
      days := days + [d];
    }
    assert plan[..|plan|] == plan;
    return Success(Counts(total, completed));
  }

  /** Once a record's text has thrown, later records change nothing. */
  lemma {:induction false} FailureStays(plan: seq<DayRecord>, k: nat, sep: string)
    requires |sep| > 0 && k <= |plan| && ParsePlan(plan[..k], sep).Failure?
    ensures ParsePlan(plan, sep) == ParsePlan(plan[..k], sep)
  {
    if k < |plan| {
      assert plan[..|plan| - 1][..k] == plan[..k];
      FailureStays(plan[..|plan| - 1], k, sep);
    } else {
      assert plan[..k] == plan;
    }
  }

  // ---------------------------------------------------------------------------
  // The page's state.

  /** The part of the goal page's state that the tracker touches: `plan`,
      `checkedTasks` and `progress`. Subtask text is split on the separator
      the page is written with, `SourceSeparator`. */
  class GoalPage {
    var plan: Option<seq<DayRecord>>
    var checked: Checks
    var progress: real

    /** The progress figure is always a percentage. */
    predicate Valid()
      reads this
    {
      0.0 <= progress <= 100.0
    }

    /** The initial state: no plan, no checks, progress 0. */
    constructor ()
      ensures Valid()
      ensures plan == None && checked == map[] && progress == 0.0
    {
      plan := None;
      checked := map[];
      progress := 0.0;
    }

    /** A plan arriving from the server replaces the plan and the checkbox
        map (one initial entry per record); a response without `dailyPlan`
        changes nothing. */
    method ReceivePlan(dailyPlan: Option<seq<DayRecord>>)
      requires Valid()
      modifies this
      ensures Valid()
      ensures dailyPlan.None? ==> plan == old(plan) && checked == old(checked)
      ensures dailyPlan.Some? ==> plan == dailyPlan && checked == InitialChecks(|dailyPlan.value|)
      ensures progress == old(progress)
    {
      if dailyPlan.Some? {
        plan := dailyPlan;
        var initialChecks: Checks := map[];
        for i := 0 to |dailyPlan.value|
          invariant initialChecks == InitialChecks(i)
        {
          initialChecks := initialChecks[DayIndexKey(i) := true];
        }
        checked := initialChecks;
      }
    }

    /** A checkbox click: flips one key and leaves the plan and the figure. */
    method Toggle(day: nat, section: nat, task: nat, subtask: Option<nat>)
      requires Valid()
      modifies this
      ensures Valid()
      ensures checked == Toggled(old(checked), KeyOf(day, section, task, subtask))
      ensures plan == old(plan) && progress == old(progress)
    {
      var key := KeyOf(day, section, task, subtask);
      checked := checked[key := !(key in checked && checked[key])];
    }

    /** The progress effect: without a plan nothing happens; otherwise the
        figure becomes the percentage of checked units, unless a record's
        text throws, in which case the figure is left and the error returned. */
    method RefreshProgress() returns (r: Result<real, ParseError>)
      requires Valid()
      modifies this
      ensures Valid()
      ensures plan == old(plan) && checked == old(checked)
      ensures plan.None? ==> r == Success(progress) && progress == old(progress)
      ensures plan.Some? ==> match PlanCounts(plan.value, checked, SourceSeparator)
        case Failure(e) => r == Failure(e) && progress == old(progress)
        case Success(c) => r == Success(progress) && progress == Percent(c)
    {
      if plan.None? {
        return Success(progress);
      }
      var counts := CountPlan(plan.value, checked, SourceSeparator);
      if counts.Failure? {
        return Failure(counts.error);
      }
      ProgressMeaning(plan.value, checked, SourceSeparator);
      progress := if counts.value.total > 0
        then (counts.value.completed as real / counts.value.total as real) * 100.0
        else 0.0;
      return Success(progress);
    }
  }
}
