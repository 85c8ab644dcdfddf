/** The day splitter inside `generatePlanFromGoal`
    (backend/server/utils/aiPlanner.js): the text returned by the generation
    service is cut into lines, each line is trimmed and classified as a day
    header, a section header or a task line, and the day records are built
    in a single pass. The service itself is an input: either the generated
    text or a failure. */
module DaySplitter {
  import opened Results
  import opened Strings

  /** One plan day as persisted: `{ day, task }`, with `task` the raw text
      block of that day's sections and tasks. */
  datatype DayRecord = DayRecord(day: nat, task: string)

  /** What the generation collaborator hands back: the text, or a failure
      (an exception thrown by the client call). */
  datatype Generation = Generated(text: string) | GenerationFailed

  /** The single-day plan returned when the generation call throws. */
  const ErrorText: string := "Error generating plan"

  // ---------------------------------------------------------------------
  // The two regular expressions, as leftmost-match searches.
  // ---------------------------------------------------------------------

  predicate IsDigit(c: char) {
    '0' <= c <= '9'
  }

  predicate AllDigits(s: string) {
    forall i :: 0 <= i < |s| ==> IsDigit(s[i])
  }

  /** Length of the longest whitespace prefix of s (greedy `\s*`). */
  function SpaceRun(s: string): (n: nat)
    ensures n <= |s| && AllSpace(s[..n]) && (n < |s| ==> !IsSpace(s[n]))
  {
    if s != [] && IsSpace(s[0]) then
      var n := 1 + SpaceRun(s[1..]);
      assert s[..n] == [s[0]] + s[1..][..n - 1];
      n
    else 0
  }

  /** Length of the longest digit prefix of s (greedy `\d*`). */
  function DigitRun(s: string): (n: nat)
    ensures n <= |s| && AllDigits(s[..n]) && (n < |s| ==> !IsDigit(s[n]))
  {
    if s != [] && IsDigit(s[0]) then
      var n := 1 + DigitRun(s[1..]);
      assert s[..n] == [s[0]] + s[1..][..n - 1];
      n
    else 0
  }

  /** Length of the longest prefix of s without `*` (greedy `[^*]*`). */
  function NonStarRun(s: string): (n: nat)
    ensures n <= |s| && '*' !in s[..n] && (n < |s| ==> s[n] == '*')
  {
    if s != [] && s[0] != '*' then
      var n := 1 + NonStarRun(s[1..]);
      assert s[..n] == [s[0]] + s[1..][..n - 1];
      n
    else 0
  }

  /** `parseInt` of a string of decimal digits. */
  function DigitsValue(d: string): nat
    requires AllDigits(d)
  {
    if d == [] then 0
    else 10 * DigitsValue(d[..|d| - 1]) + (d[|d| - 1] as int - '0' as int)
  }

  /** t starts with a text matched by `\*\*Day\s+(\d+):\*\*`, whose
      whitespace part is w and whose captured digits are d. */
  predicate DayHeaderShape(t: string, w: string, d: string) {
    |w| >= 1 && AllSpace(w) && |d| >= 1 && AllDigits(d) && "**Day" + w + d + ":**" <= t
  }

  /** t starts with a text matched by `\*\*([^*]+)\*\*` whose capture is x. */
  predicate SectionShape(t: string, x: string) {
    |x| >= 1 && '*' !in x && "**" + x + "**" <= t
  }

  /** A match of the day pattern starting at position `at`. */
  datatype DayMatch = DayMatch(at: nat, spaces: string, digits: string)

  /** A match of the section pattern starting at position `at`, with its capture. */
  datatype SectionMatch = SectionMatch(at: nat, title: string)

  /** The day pattern tried at position i. Greedy `\s+` stops at the first
      non-blank, which must be a digit, and greedy `\d+` stops at the first
      non-digit, which must be `:`; so backtracking never finds another match. */
  function MatchDayAt(s: string, i: nat): (r: Option<DayMatch>)
    requires i <= |s|
    ensures r.Some? ==> r.value.at == i && DayHeaderShape(s[i..], r.value.spaces, r.value.digits)
  {
    var t := s[i..];
    if !("**Day" <= t) then None
    else
      var u := t[5..];
      var n := SpaceRun(u);
      if n == 0 then None
      else
        var v := u[n..];
        var m := DigitRun(v);
        if m == 0 || !(":**" <= v[m..]) then None
        else
          assert t == "**Day" + u[..n] + v[..m] + v[m..];
          Some(DayMatch(i, u[..n], v[..m]))
  }

  /** The section pattern tried at position i. Greedy `[^*]+` stops at the
      first `*`, which must open the closing `**`; backtracking to a shorter
      capture would need a `*` inside it, so it never finds another match. */
  function MatchSectionAt(s: string, i: nat): (r: Option<SectionMatch>)
    requires i <= |s|
    ensures r.Some? ==> r.value.at == i && SectionShape(s[i..], r.value.title)
  {
    var t := s[i..];
    if !("**" <= t) then None
    else
      var u := t[2..];
      var n := NonStarRun(u);
      if n == 0 || !("**" <= u[n..]) then None
      else
        assert t == "**" + u[..n] + u[n..];
        Some(SectionMatch(i, u[..n]))
  }

  /** Leftmost match of the day pattern at or after position i. */
  function FindDayFrom(s: string, i: nat): (r: Option<DayMatch>)
    requires i <= |s|
    ensures r.Some? ==> i <= r.value.at <= |s| && MatchDayAt(s, r.value.at) == r
    ensures forall k :: i <= k <= |s| && (r.None? || k < r.value.at) ==> MatchDayAt(s, k).None?
    decreases |s| - i
  {
    match MatchDayAt(s, i)
    case Some(m) => Some(m)
    case None => if i == |s| then None else FindDayFrom(s, i + 1)
  }

  /** Leftmost match of the section pattern at or after position i. */
  function FindSectionFrom(s: string, i: nat): (r: Option<SectionMatch>)
    requires i <= |s|
    ensures r.Some? ==> i <= r.value.at <= |s| && MatchSectionAt(s, r.value.at) == r
    ensures forall k :: i <= k <= |s| && (r.None? || k < r.value.at) ==> MatchSectionAt(s, k).None?
    decreases |s| - i
  {
    match MatchSectionAt(s, i)
    case Some(m) => Some(m)
    case None => if i == |s| then None else FindSectionFrom(s, i + 1)
  }

  /** `s.match` with the day pattern: its first (leftmost) match. */
  function FindDay(s: string): Option<DayMatch> {
    FindDayFrom(s, 0)
  }

  /** `s.match` with the section pattern: its first (leftmost) match. */
  function FindSection(s: string): Option<SectionMatch> {
    FindSectionFrom(s, 0)
  }

  /** The search at one position finds every text of the day-header shape,
      with exactly its whitespace and digits. */
  lemma DayMatchComplete(s: string, i: nat, w: string, d: string)
    requires i <= |s| && DayHeaderShape(s[i..], w, d)
    ensures MatchDayAt(s, i) == Some(DayMatch(i, w, d))
  {
    var t := s[i..];
    var u := t[5..];
    assert u[..|w|] == w;
    assert u[|w|] == d[0];
    var n := SpaceRun(u);
    assert n == |w|;
    var v := u[n..];
    assert v[..|d|] == d;
    assert v[|d|] == ':';
    var m := DigitRun(v);
    assert m == |d|;
    assert t[5 + |w| + |d|..][..3] == ":**";
    assert v[m..] == t[5 + |w| + |d|..];
  }

  /** The search at one position finds every text of the section shape,
      with exactly its capture. */
  lemma SectionMatchComplete(s: string, i: nat, x: string)
    requires i <= |s| && SectionShape(s[i..], x)
    ensures MatchSectionAt(s, i) == Some(SectionMatch(i, x))
  {
    var t := s[i..];
    var u := t[2..];
    assert u[..|x|] == x;
    assert u[|x|] == '*';
    var n := NonStarRun(u);
    assert n == |x|;
    assert u[n..][..2] == "**";
  }

  /** A line holding the day pattern anywhere is found, at that position or
      further left. */
  lemma DayHeaderFound(s: string, k: nat, w: string, d: string)
    requires k <= |s| && DayHeaderShape(s[k..], w, d)
    ensures FindDay(s).Some? && FindDay(s).value.at <= k
  {
    DayMatchComplete(s, k, w, d);
  }

  /** A line holding the section pattern anywhere is found, at that position
      or further left. */
  lemma SectionHeaderFound(s: string, k: nat, x: string)
    requires k <= |s| && SectionShape(s[k..], x)
    ensures FindSection(s).Some? && FindSection(s).value.at <= k
  {
    SectionMatchComplete(s, k, x);
  }

  /** Every day header also matches the section pattern (its capture is
      `Day`, the blanks, the digits and the colon); this is why the day
      test has to come first. */
  lemma {:induction false} DayHeaderIsAlsoSection(t: string, w: string, d: string)
    requires DayHeaderShape(t, w, d)
    ensures SectionShape(t, "Day" + w + d + ":")
    ensures FindSection(t).Some?
  {
    var x := "Day" + w + d + ":";
    assert "**Day" + w + d + ":**" == "**" + x + "**";
    assert t[0..] == t;
    SectionHeaderFound(t, 0, x);
  }

  // ---------------------------------------------------------------------
  // Line classification and the per-line step.
  // ---------------------------------------------------------------------

  /** How the loop treats a trimmed line, in the order it tests. */
  datatype LineKind = DayHeader(day: nat) | SectionHeader(title: string) | TaskLine | Ignored

  function Classify(t: string): LineKind {
    match FindDay(t)
    case Some(m) => DayHeader(DigitsValue(m.digits))
    case None =>
      match FindSection(t)
      case Some(m) => SectionHeader(m.title)
      case None => if "*" <= t then TaskLine else Ignored
  }

  /** The text a section or task line adds to the open day. */
  function Appended(t: string, kind: LineKind): string {
    match kind
    case SectionHeader(x) => "\n**" + x + "**\n"
    case TaskLine => t + "\n"
    case _ => ""
  }

  /** The loop's variables: the `days` pushed so far and `currentDay`. */
  datatype Splitter = Splitter(days: seq<DayRecord>, current: Option<DayRecord>)

  const Start := Splitter([], None)

  /** `days` after the final flush of `currentDay`. */
  function Closed(st: Splitter): seq<DayRecord> {
    st.days + (if st.current.Some? then [st.current.value] else [])
  }

  /** One iteration of the loop on an untrimmed line. */
  function Step(st: Splitter, line: string): Splitter {
    var t := Trim(line);
    var kind := Classify(t);
    match kind
    case DayHeader(n) => Splitter(Closed(st), Some(DayRecord(n, "")))
    case Ignored => st
    case _ =>
      match st.current
      case None => st
      case Some(cur) => Splitter(st.days, Some(cur.(task := cur.task + Appended(t, kind))))
  }

  lemma StepUnfold(st: Splitter, line: string)
    ensures var t := Trim(line);
      var kind := Classify(t);
      Step(st, line) ==
        if kind.DayHeader? then Splitter(Closed(st), Some(DayRecord(kind.day, "")))
        else if kind.Ignored? || st.current.None? then st
        else Splitter(st.days, Some(st.current.value.(task := st.current.value.task + Appended(t, kind))))
  {
  }

  /** The loop run over `lines` from state st. */
  function Run(st: Splitter, lines: seq<string>): Splitter {
    if lines == [] then st else Step(Run(st, lines[..|lines| - 1]), lines[|lines| - 1])
  }

  /** The day records built from a sequence of lines. */
  function Days(lines: seq<string>): seq<DayRecord> {
    Closed(Run(Start, lines))
  }

  /** The day numbers of the lines that hold a day header, in order. */
  function HeaderDays(lines: seq<string>): seq<nat> {
    if lines == [] then []
    else
      HeaderDays(lines[..|lines| - 1])
      + match Classify(Trim(lines[|lines| - 1])) { case DayHeader(n) => [n] case _ => [] }
  }

  function DayNumbers(days: seq<DayRecord>): seq<nat> {
    if days == [] then [] else DayNumbers(days[..|days| - 1]) + [days[|days| - 1].day]
  }

  /** What `generatePlanFromGoal` returns for a generation outcome. */
  function Plan(g: Generation): (r: seq<DayRecord>)
    ensures g.GenerationFailed? ==> |r| == 1 && r[0].day == 1 && r[0].task == ErrorText
    ensures g.Generated? ==> DayNumbers(r) == HeaderDays(Split(g.text, "\n"))
  {
    match g
    case GenerationFailed => [DayRecord(1, ErrorText)]
    case Generated(text) =>
      var lines := Split(text, "\n");
      DaysFollowHeaders(lines);
      Days(lines)
  }

  /** The loop of `generatePlanFromGoal` with its `catch` fallback. */
  method GeneratePlanFromGoal(g: Generation) returns (days: seq<DayRecord>)
    ensures days == Plan(g)
  {
    if g.GenerationFailed? {
      return [DayRecord(1, ErrorText)];
    }
    days := [];
    var currentDay: Option<DayRecord> := None;
    var lines := Split(g.text, "\n");
    for i := 0 to |lines|
      invariant Run(Start, lines[..i]) == Splitter(days, currentDay)
    {
      assert lines[..i + 1][..i] == lines[..i];
      ghost var before := Splitter(days, currentDay);
      assert Run(Start, lines[..i + 1]) == Step(before, lines[i]);
      var trimmedLine := Trim(lines[i]);
      StepUnfold(before, lines[i]);
      var dayMatch := FindDay(trimmedLine);
      if dayMatch.Some? {
        if currentDay.Some? {
          days := days + [currentDay.value];
        }
        currentDay := Some(DayRecord(DigitsValue(dayMatch.value.digits), ""));
        assert Classify(trimmedLine) == DayHeader(DigitsValue(dayMatch.value.digits));
        assert Splitter(days, currentDay) == Step(before, lines[i]);
        continue;
      }
      var sectionMatch := FindSection(trimmedLine);
      if sectionMatch.Some? {
        assert Classify(trimmedLine) == SectionHeader(sectionMatch.value.title);
        if currentDay.Some? {
          var cur := currentDay.value;
          currentDay := Some(cur.(task := cur.task + ("\n**" + sectionMatch.value.title + "**\n")));
        }
        assert Splitter(days, currentDay) == Step(before, lines[i]);
        continue;
      }
      assert Classify(trimmedLine) == if "*" <= trimmedLine then TaskLine else Ignored;
      if "*" <= trimmedLine {
        if currentDay.Some? {
          var cur := currentDay.value;
          currentDay := Some(cur.(task := cur.task + (trimmedLine + "\n")));
        }
      }
      assert Splitter(days, currentDay) == Step(before, lines[i]);
    }
    assert lines[..|lines|] == lines;
    if currentDay.Some? {
      days := days + [currentDay.value];
    }
  }

  // ---------------------------------------------------------------------
  // Properties of the splitter.
  // ---------------------------------------------------------------------

  /** A day header is recognised exactly when the trimmed line holds the day
      pattern somewhere, and then it wins over the other two kinds. */
  lemma ClassifyDayHeader(t: string, k: nat, w: string, d: string)
    requires k <= |t| && DayHeaderShape(t[k..], w, d)
    ensures Classify(t).DayHeader?
  {
    DayHeaderFound(t, k, w, d);
  }

  /** A line classified as a section header holds the section pattern and
      its title is the leftmost capture; a task line holds neither pattern. */
  lemma ClassifySound(t: string)
    ensures Classify(t).DayHeader? ==>
      exists k: nat, w, d :: k <= |t| && DayHeaderShape(t[k..], w, d)
    ensures Classify(t).SectionHeader? ==>
      var at := FindSection(t).value.at;
      at <= |t| && SectionShape(t[at..], Classify(t).title) && FindDay(t).None?
      && forall k :: 0 <= k < at ==> MatchSectionAt(t, k).None?
    ensures Classify(t).TaskLine? ==> "*" <= t && FindDay(t).None? && FindSection(t).None?
  {
    if Classify(t).DayHeader? {
      var m := FindDay(t).value;
      assert DayHeaderShape(t[m.at..], m.spaces, m.digits);
    }
  }

  /** What the step relies on about section and task lines. */
  lemma ClassifyKinds(t: string)
    ensures Classify(t).SectionHeader? ==>
      FindSection(t).value.at <= |t| && SectionShape(t[FindSection(t).value.at..], Classify(t).title)
    ensures Classify(t).TaskLine? ==> "*" <= t
  {
  }

  /** The state after a run never has days pushed without an open day. */
  lemma {:induction false} RunShape(lines: seq<string>)
    ensures Run(Start, lines).current.None? ==> Run(Start, lines).days == []
  {
    if lines != [] {
      RunShape(lines[..|lines| - 1]);
    }
  }

  lemma DayNumbersAppend(days: seq<DayRecord>, d: DayRecord)
    ensures DayNumbers(days + [d]) == DayNumbers(days) + [d.day]
  {
    assert (days + [d])[..|days|] == days;
  }

  /** The day numbers of the closed state follow the header lines. */
  lemma {:induction false} DaysFollowHeaders(lines: seq<string>)
    ensures DayNumbers(Days(lines)) == HeaderDays(lines)
  {
    if lines != [] {
      var init := lines[..|lines| - 1];
      var line := lines[|lines| - 1];
      DaysFollowHeaders(init);
      var st := Run(Start, init);
      match Classify(Trim(line))
      case DayHeader(n) =>
        DayNumbersAppend(Closed(st), DayRecord(n, ""));
      case Ignored =>
      case _ =>
        if st.current.Some? {
          DayNumbersAppend(st.days, st.current.value);
          var cur := st.current.value;
          DayNumbersAppend(st.days, cur.(task := cur.task + Appended(Trim(line), Classify(Trim(line)))));
        }
    }
  }

  /** Adding one more line to the text: a day header adds a fresh empty day;
      a section or task line extends the text of the last day, if there is
      one, by exactly its contribution; any other line changes nothing. */
  lemma DaysAppendLine(lines: seq<string>, line: string)
    ensures var t := Trim(line);
      var before := Days(lines);
      var kind := Classify(t);
      Days(lines + [line]) ==
        match kind
        case DayHeader(n) => before + [DayRecord(n, "")]
        case Ignored => before
        case _ =>
          if before == [] then before
          else before[..|before| - 1]
               + [before[|before| - 1].(task := before[|before| - 1].task + Appended(t, kind))]
  {
    assert (lines + [line])[..|lines|] == lines;
    RunShape(lines);
  }

  lemma {:induction false} RunAppend(st: Splitter, a: seq<string>, b: seq<string>)
    ensures Run(st, a + b) == Run(Run(st, a), b)
  {
    if b != [] {
      assert (a + b)[..|a + b| - 1] == a + b[..|b| - 1];
      RunAppend(st, a, b[..|b| - 1]);
    } else {
      assert a + b == a;
    }
  }

  /** Lines before the first day header run through without effect. */
  lemma {:induction false} PreambleRun(pre: seq<string>)
    requires forall l :: l in pre ==> !Classify(Trim(l)).DayHeader?
    ensures Run(Start, pre) == Start
  {
    if pre != [] {
      var init, l := pre[..|pre| - 1], pre[|pre| - 1];
      assert forall x :: x in init ==> x in pre;
      assert l in pre;
      PreambleRun(init);
      assert Run(Start, pre) == Step(Start, l);
    }
  }

  /** Text before the first day header never reaches any day. */
  lemma Preamble(pre: seq<string>, rest: seq<string>)
    requires forall l :: l in pre ==> !Classify(Trim(l)).DayHeader?
    ensures Days(pre + rest) == Days(rest)
  {
    RunAppend(Start, pre, rest);
    PreambleRun(pre);
  }

  /** Without any day header line the result is empty: there is no fallback
      for generated text that does not follow the format. */
  lemma NoHeaderNoDays(lines: seq<string>)
    requires forall l :: l in lines ==> !Classify(Trim(l)).DayHeader?
    ensures Days(lines) == []
  {
    Preamble(lines, []);
    assert lines + [] == lines;
  }

  // ---------------------------------------------------------------------
  // The line grammar of the text blocks the splitter writes.
  // ---------------------------------------------------------------------

  /** `**X**` with X non-empty and free of `*`. */
  predicate IsSectionLine(l: string) {
    |l| >= 5 && l[..2] == "**" && l[|l| - 2..] == "**" && '*' !in l[2..|l| - 2]
  }

  /** The lines a day's text block is made of: empty ones, section lines and
      lines starting with `*` (the task lines). A section line also starts
      with `*`; its disjunct is kept to name the two kinds the splitter
      writes, not because the predicate needs it. */
  predicate IsDayTextLine(l: string) {
    l == "" || IsSectionLine(l) || "*" <= l
  }

  /** A text block the splitter can have built: empty or ending in a line
      break, and every line of it of one of the three kinds. */
  predicate WellFormedText(task: string) {
    (task == "" || task[|task| - 1] == '\n')
    && forall l :: l in Split(task, "\n") ==> IsDayTextLine(l)
  }

  lemma InfixKeepsOut(t: string, i: nat, x: string, c: char)
    requires i <= |t| && x <= t[i..] && c !in t
    ensures c !in x
  {
    forall k | 0 <= k < |x| ensures x[k] != c {
      assert x[k] == t[i + k];
    }
  }

  /** Appending a section header keeps the block well formed. */
  lemma {:induction false} AppendSectionKeepsForm(task: string, x: string)
    requires WellFormedText(task) && |x| >= 1 && '*' !in x && '\n' !in x
    ensures WellFormedText(task + ("\n**" + x + "**\n"))
  {
    var l := "**" + x + "**";
    assert l[2..|l| - 2] == x;
    assert '\n' !in l;
    assert task + ("\n**" + x + "**\n") == task + ['\n'] + (l + ['\n'] + []);
    SplitAppend(task, '\n', l + ['\n'] + []);
    SplitAppend(l, '\n', []);
    SplitNoSeparator(l, '\n');
    assert Split(task + ("\n**" + x + "**\n"), "\n") == Split(task, "\n") + [l] + [""];
  }

  /** Appending a task line and its line break keeps the block well formed. */
  lemma {:induction false} AppendTaskKeepsForm(task: string, t: string)
    requires WellFormedText(task) && "*" <= t && '\n' !in t
    ensures WellFormedText(task + (t + "\n"))
  {
    SplitNoSeparator(t, '\n');
    SplitAppend(t, '\n', []);
    assert t + "\n" == t + ['\n'] + [];
    if task == "" {
      assert task + (t + "\n") == t + ['\n'] + [];
      assert Split(task + (t + "\n"), "\n") == [t] + [""];
    } else {
      var p := task[..|task| - 1];
      assert task == p + ['\n'] + [];
      SplitAppend(p, '\n', []);
      assert task + (t + "\n") == p + ['\n'] + (t + ['\n'] + []);
      SplitAppend(p, '\n', t + ['\n'] + []);
      assert Split(task + (t + "\n"), "\n") == Split(p, "\n") + [t] + [""];
      assert forall l :: l in Split(p, "\n") ==> l in Split(task, "\n");
    }
  }

  lemma ReplaceOpenKeepsForm(st: Splitter, cur: DayRecord)
    requires st.current.Some?
    requires forall d :: d in Closed(st) ==> WellFormedText(d.task)
    requires WellFormedText(cur.task)
    ensures forall d :: d in Closed(Splitter(st.days, Some(cur))) ==> WellFormedText(d.task)
  {
    assert forall d :: d in st.days ==> d in Closed(st);
  }

  /** The text a section or task line adds keeps the block well formed. */
  lemma AppendedKeepsForm(task: string, t: string)
    requires WellFormedText(task) && '\n' !in t
    requires Classify(t).SectionHeader? || Classify(t).TaskLine?
    ensures WellFormedText(task + Appended(t, Classify(t)))
  {
    ClassifyKinds(t);
    if Classify(t).SectionHeader? {
      InfixKeepsOut(t, FindSection(t).value.at + 2, Classify(t).title, '\n');
      AppendSectionKeepsForm(task, Classify(t).title);
    } else {
      AppendTaskKeepsForm(task, t);
    }
  }

  /** Opening a new, empty day keeps every block well formed. */
  lemma OpenDayKeepsForm(st: Splitter, n: nat)
    requires forall d :: d in Closed(st) ==> WellFormedText(d.task)
    ensures forall d :: d in Closed(Splitter(Closed(st), Some(DayRecord(n, "")))) ==> WellFormedText(d.task)
  {
    assert Split("", "\n") == [""];
    assert Closed(Splitter(Closed(st), Some(DayRecord(n, "")))) == Closed(st) + [DayRecord(n, "")];
  }

  /** One step keeps every day's block well formed, for a line without line breaks. */
  lemma StepKeepsForm(st: Splitter, line: string)
    requires '\n' !in line
    requires forall d :: d in Closed(st) ==> WellFormedText(d.task)
    ensures forall d :: d in Closed(Step(st, line)) ==> WellFormedText(d.task)
  {
    var t := Trim(line);
    TrimKeepsOut(line, '\n');
    StepUnfold(st, line);
    if Classify(t).DayHeader? {
      OpenDayKeepsForm(st, Classify(t).day);
    } else if !Classify(t).Ignored? && st.current.Some? {
      var cur := st.current.value;
      assert cur in Closed(st);
      AppendedKeepsForm(cur.task, t);
      ReplaceOpenKeepsForm(st, cur.(task := cur.task + Appended(t, Classify(t))));
    }
  }

  lemma {:induction false} RunKeepsForm(lines: seq<string>)
    requires forall l :: l in lines ==> '\n' !in l
    ensures forall d :: d in Days(lines) ==> WellFormedText(d.task)
  {
    if lines != [] {
      var init := lines[..|lines| - 1];
      assert forall l :: l in init ==> l in lines;
      RunKeepsForm(init);
      assert lines[|lines| - 1] in lines;
      StepKeepsForm(Run(Start, init), lines[|lines| - 1]);
    }
  }

  /** Every day's text block is made only of empty lines, `**X**` section
      lines and lines starting with `*`: the kinds the section/task parser
      recognises. */
  lemma PlanTextsWellFormed(g: Generation)
    requires g.Generated?
    ensures forall d :: d in Plan(g) ==> WellFormedText(d.task)
  {
    SplitPiecesFree(g.text, '\n');
    RunKeepsForm(Split(g.text, "\n"));
  }
}
