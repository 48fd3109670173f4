/**
 * The start-of-day script's core: the git sync decision (`sync_git`),
 * task recognition (`_parse_task`), date reading (`_parse_date`), the
 * five-bucket categoriser (`_categorize_task`) and the scan that feeds
 * it (`scan_tasks`).
 */
module Standup {
  import opened Options
  import opened Text
  import opened Dates
  import opened Yaml
  import opened FrontMatter
  import opened Git
  import opened Layout

  // ---------------------------------------------------------------- sync_git

  /** The `result` dict of `sync_git`. */
  datatype SyncResult = SyncResult(success: bool, branch: string, latestCommit: string, message: string)

  const Skipped: string := "Git sync skipped"
  const Dirty: string := "Uncommitted changes detected. Please stash or commit first."
  const Synced: string := "Sync completed"

  /** The message of the `except` clause that catches a failed command. */
  function FailureMessage(o: Outcome): string
    requires !o.Completed?
  {
    if o.TimedOut? then "Git operation timed out" else "Git error: " + o.error
  }

  /** `branch.stdout.strip() or "unknown"`, and "unknown" when the command raised. */
  function BranchOrUnknown(o: Outcome): string {
    if o.Completed? && Strip(o.stdout) != "" then Strip(o.stdout) else "unknown"
  }

  /** The stripped output of a command that ran. */
  function Output(o: Outcome): string {
    if o.Completed? then Strip(o.stdout) else ""
  }

  /** The commands a full sync issues, in order; `git pull` names the branch just read. */
  function SyncPlan(run: Runner): seq<Command> {
    [StatusPorcelain, FetchAll, ShowBranch, Pull(Output(run(ShowBranch))), LatestCommit]
  }

  /** A clean working tree, and every command of the full sync completes. */
  predicate CleanRun(run: Runner) {
    run(StatusPorcelain).Completed? && Blank(run(StatusPorcelain).stdout) && AllCompleted(run, SyncPlan(run))
  }

  /** Every command in `cmds` ran to completion. */
  predicate AllCompleted(run: Runner, cmds: seq<Command>) {
    forall k :: 0 <= k < |cmds| ==> run(cmds[k]).Completed?
  }

  /**
   * `sync_git`. With `skipSync` only the branch is read; otherwise the
   * full sequence of `FullSync` runs. `issued` lists the commands in the
   * order they were run.
   */
  method SyncGit(run: Runner, skipSync: bool) returns (r: SyncResult, issued: seq<Command>)
    ensures skipSync ==> issued == [ShowBranch]
    ensures skipSync ==> r == SyncResult(true, BranchOrUnknown(run(ShowBranch)), "", Skipped)
    ensures !skipSync ==> 1 <= |issued| <= 5 && forall k :: 0 <= k < |issued| ==> issued[k] == SyncPlan(run)[k]
    ensures !skipSync ==> AllCompleted(run, issued[..|issued| - 1])
    ensures !skipSync && run(StatusPorcelain).Completed? && !Blank(run(StatusPorcelain).stdout) ==>
      issued == [StatusPorcelain] && r == SyncResult(false, "unknown", "", Dirty)
    ensures FetchAll in issued ==> run(StatusPorcelain).Completed? && Blank(run(StatusPorcelain).stdout)
    ensures !skipSync && !run(issued[|issued| - 1]).Completed? ==>
      r == SyncResult(false, if |issued| >= 4 then Output(run(ShowBranch)) else "unknown", "",
                      FailureMessage(run(issued[|issued| - 1])))
    ensures r.success <==> skipSync || (|issued| == 5 && AllCompleted(run, issued))
    ensures !skipSync && r.success ==>
      r == SyncResult(true, Output(run(ShowBranch)), Output(run(LatestCommit)), Synced)
    ensures !skipSync && CleanRun(run) ==> r.success && |issued| == 5
    ensures !skipSync && |issued| < 5 ==>
      !run(issued[|issued| - 1]).Completed? || (issued == [StatusPorcelain] && !Blank(run(StatusPorcelain).stdout))
  {
    if skipSync {
      r := SyncResult(true, "unknown", "", Skipped);
      issued := [ShowBranch];
      var branch := run(ShowBranch);
      if branch.Completed? {
        r := r.(branch := if Strip(branch.stdout) != "" then Strip(branch.stdout) else "unknown");
      }
      return;
    }
    r, issued := FullSync(run);
    SyncFacts(run, r, issued);
  }

  /**
   * How many commands of `SyncPlan(run)` a sync issues: it stops after
   * the first command that fails, and after `git status` when the tree
   * is dirty.
   */
  function SyncLength(run: Runner): (n: nat)
    ensures 1 <= n <= 5
  {
    var status := run(StatusPorcelain);
    if !status.Completed? || !Blank(status.stdout) then 1
    else if !run(FetchAll).Completed? then 2
    else if !run(ShowBranch).Completed? then 3
    else if !run(Pull(Output(run(ShowBranch)))).Completed? then 4
    else 5
  }

  /** The `result` a sync reports, read off the last command it issued. */
  function SyncOutcome(run: Runner): SyncResult {
    var n := SyncLength(run);
    var last := run(SyncPlan(run)[n - 1]);
    if !last.Completed? then
      SyncResult(false, if n >= 4 then Output(run(ShowBranch)) else "unknown", "", FailureMessage(last))
    else if n == 1 then SyncResult(false, "unknown", "", Dirty)
    else SyncResult(true, Output(run(ShowBranch)), Output(run(LatestCommit)), Synced)
  }

  /** Step by step completion of the first `n - 1` commands gives the whole prefix. */
  lemma PrefixCompleted(run: Runner, plan: seq<Command>, n: nat)
    requires |plan| == 5 && 1 <= n <= 5
    requires n >= 2 ==> run(plan[0]).Completed?
    requires n >= 3 ==> run(plan[1]).Completed?
    requires n >= 4 ==> run(plan[2]).Completed?
    requires n >= 5 ==> run(plan[3]).Completed?
    ensures AllCompleted(run, plan[..n - 1])
  {
  }

  /** Every command before the last one a sync issues completed; the last decides a full run. */
  lemma PlanPrefixCompleted(run: Runner)
    ensures AllCompleted(run, SyncPlan(run)[..SyncLength(run) - 1])
    ensures SyncLength(run) == 5 ==> (AllCompleted(run, SyncPlan(run)) <==> run(LatestCommit).Completed?)
  {
    var plan := SyncPlan(run);
    var n := SyncLength(run);
    assert plan[0] == StatusPorcelain && plan[1] == FetchAll && plan[2] == ShowBranch;
    assert plan[3] == Pull(Output(run(ShowBranch))) && plan[4] == LatestCommit;
    PrefixCompleted(run, plan, n);
    if n == 5 {
      assert plan == plan[..4] + [LatestCommit];
    }
  }



  /** The commands a sync issues: a prefix of the plan, all but the last completed, `git fetch` only on a clean tree. */
  lemma SyncIssued(run: Runner, r: SyncResult, issued: seq<Command>)
    requires issued == SyncPlan(run)[..SyncLength(run)] && r == SyncOutcome(run)
    ensures 1 <= |issued| <= 5 && forall k :: 0 <= k < |issued| ==> issued[k] == SyncPlan(run)[k]
    ensures AllCompleted(run, issued[..|issued| - 1])
    ensures FetchAll in issued ==> run(StatusPorcelain).Completed? && Blank(run(StatusPorcelain).stdout)
  {
    PlanPrefixCompleted(run);
    assert issued[..|issued| - 1] == SyncPlan(run)[..SyncLength(run) - 1];
  }

  /** How a sync that stops early reports it: a dirty tree, or the failure of its last command. */
  lemma SyncStops(run: Runner, r: SyncResult, issued: seq<Command>)
    requires issued == SyncPlan(run)[..SyncLength(run)] && r == SyncOutcome(run)
    ensures run(StatusPorcelain).Completed? && !Blank(run(StatusPorcelain).stdout) ==>
      issued == [StatusPorcelain] && r == SyncResult(false, "unknown", "", Dirty)
    ensures !run(issued[|issued| - 1]).Completed? ==>
      r == SyncResult(false, if |issued| >= 4 then Output(run(ShowBranch)) else "unknown", "",
                      FailureMessage(run(issued[|issued| - 1])))
    ensures |issued| < 5 ==>
      !run(issued[|issued| - 1]).Completed? || (issued == [StatusPorcelain] && !Blank(run(StatusPorcelain).stdout))
  {
    var plan := SyncPlan(run);
    var n := SyncLength(run);
    assert issued[n - 1] == plan[n - 1];
    if n == 1 {
      assert issued == [StatusPorcelain];
    } else if n == 2 {
      assert plan[1] == FetchAll;
    } else if n == 3 {
      assert plan[2] == ShowBranch;
    } else if n == 4 {
      assert plan[3] == Pull(Output(run(ShowBranch)));
    }
  }

  /** A sync succeeds exactly when all five commands complete, and then reports the branch and the last commit. */
  lemma SyncSucceeds(run: Runner, r: SyncResult, issued: seq<Command>)
    requires issued == SyncPlan(run)[..SyncLength(run)] && r == SyncOutcome(run)
    ensures r.success <==> |issued| == 5 && AllCompleted(run, issued)
    ensures r.success ==> r == SyncResult(true, Output(run(ShowBranch)), Output(run(LatestCommit)), Synced)
    ensures CleanRun(run) ==> r.success && |issued| == 5
  {
    PlanPrefixCompleted(run);
    if |issued| == 5 {
      assert issued == SyncPlan(run);
    }
  }

  /** What a sync that issues `SyncLength(run)` commands and reports `SyncOutcome(run)` guarantees. */
  lemma SyncFacts(run: Runner, r: SyncResult, issued: seq<Command>)
    requires issued == SyncPlan(run)[..SyncLength(run)] && r == SyncOutcome(run)
    ensures 1 <= |issued| <= 5 && forall k :: 0 <= k < |issued| ==> issued[k] == SyncPlan(run)[k]
    ensures AllCompleted(run, issued[..|issued| - 1])
    ensures run(StatusPorcelain).Completed? && !Blank(run(StatusPorcelain).stdout) ==>
      issued == [StatusPorcelain] && r == SyncResult(false, "unknown", "", Dirty)
    ensures FetchAll in issued ==> run(StatusPorcelain).Completed? && Blank(run(StatusPorcelain).stdout)
    ensures !run(issued[|issued| - 1]).Completed? ==>
      r == SyncResult(false, if |issued| >= 4 then Output(run(ShowBranch)) else "unknown", "",
                      FailureMessage(run(issued[|issued| - 1])))
    ensures r.success <==> |issued| == 5 && AllCompleted(run, issued)
    ensures r.success ==> r == SyncResult(true, Output(run(ShowBranch)), Output(run(LatestCommit)), Synced)
    ensures CleanRun(run) ==> r.success && |issued| == 5
    ensures |issued| < 5 ==>
      !run(issued[|issued| - 1]).Completed? || (issued == [StatusPorcelain] && !Blank(run(StatusPorcelain).stdout))
  {
    SyncIssued(run, r, issued);
    SyncStops(run, r, issued);
    SyncSucceeds(run, r, issued);
  }



  /**
   * The `try` block of `sync_git`: a dirty working tree stops everything
   * before `git fetch` and `git pull`, a failed command stops the sequence
   * with its message, and a sequence that runs through reports success
   * whatever `git pull` printed. Each exit agrees with `SyncLength` and
   * `SyncOutcome`, whose consequences `SyncFacts` draws for `SyncGit`.
   */
  method FullSync(run: Runner) returns (r: SyncResult, issued: seq<Command>)
    ensures issued == SyncPlan(run)[..SyncLength(run)]
    ensures r == SyncOutcome(run)
  {
    var plan := SyncPlan(run);
    r := SyncResult(false, "unknown", "", "");
    issued := plan[..1];
    var status := run(StatusPorcelain);
    if !status.Completed? {
      r := r.(message := FailureMessage(status));
      return;
    }
    StripEmptyIff(status.stdout);
    if Strip(status.stdout) != "" {
      r := r.(message := Dirty, success := false);
      return;
    }
    issued := plan[..2];
    var fetch := run(FetchAll);
    if !fetch.Completed? {
      r := r.(message := FailureMessage(fetch));
      return;
    }
    issued := plan[..3];
    var branch := run(ShowBranch);
    if !branch.Completed? {
      r := r.(message := FailureMessage(branch));
      return;
    }
    r := r.(branch := Strip(branch.stdout));
    issued := plan[..4];
    var pull := run(Pull(r.branch));
    if !pull.Completed? {
      r := r.(message := FailureMessage(pull));
      return;
    }
    issued := plan;
    var log := run(LatestCommit);
    if !log.Completed? {
      r := r.(message := FailureMessage(log));
      return;
    }
    r := r.(latestCommit := Strip(log.stdout), success := true, message := Synced);
  }

  // ---------------------------------------------------------------- _parse_task

  /** The `_file` entry `_parse_task` adds: the file's path (a `Path` is always truthy). */
  function FileEntry(doc: Doc): Value {
    Opaque(doc.path, true)
  }

  /**
   * `_parse_task`: the front matter of a readable file whose non-empty
   * mapping has `type: task`, plus `_file`; None in every other case
   * (the `except Exception` turns read and load failures into None too).
   */
  function ParseTask(doc: Doc, load: Loader): (r: Option<Meta>)
    ensures r.Some? <==> DocMetadata(doc, load).Some? && Is(DocMetadata(doc, load).value, "type", "task")
    ensures r.Some? ==> r.value == DocMetadata(doc, load).value["_file" := FileEntry(doc)]
    ensures r.Some? ==> Is(r.value, "type", "task") && "_file" in r.value && r.value["_file"] == FileEntry(doc)
    ensures doc.content.None? ==> r.None?
    ensures doc.content.Some? && !StartsWith(doc.content.value, Fence) ==> r.None?
  {
    match DocMetadata(doc, load)
    case None => None
    case Some(m) => if Get(m, "type", Null) != Text("task") then None else Some(m["_file" := FileEntry(doc)])
  }

  /** A file is a task exactly when its text is a fenced block that loads to a task mapping. */
  lemma ParseTaskOfFile(path: string, y: string, rest: string, load: Loader, m: Meta)
    requires !Contains(y + "--", Fence) && load(y) == Some(m)
    ensures ParseTask(Doc("task.md", path, Some(Fence + y + Fence + rest)), load)
            == if m != map[] && Is(m, "type", "task") then Some(m["_file" := Opaque(path, true)]) else None
  {
    BlockComplete(y, rest);
  }

  // ---------------------------------------------------------------- _parse_date

  /**
   * `_parse_date`: None for a falsy value, the date of a timestamp, and
   * otherwise what `strptime(str(value), "%Y-%m-%d")` reads (None where it
   * raises). A YAML date comes back unchanged through its `str()`.
   */
  function ParseDate(v: Value): (r: Option<CalDate>)
    ensures !Truthy(v) ==> r.None?
    ensures v.Day? ==> r == Some(v.date)
    ensures v.Moment? ==> r == Some(v.date)
    ensures v.Text? && Truthy(v) ==> r == ParseIsoDate(v.s)
    ensures v.Integer? || v.Boolean? ==> r.None?
  {
    if !Truthy(v) then None
    else match v
      case Moment(d, _) => Some(d)
      case Day(d) => ParseFormatRoundTrip(d); ParseIsoDate(Show(v))
      case Integer(i) => NoDateInNumber(i); ParseIsoDate(Show(v))
      case Null => ParseIsoDate(Show(v))
      case Boolean(_) => ParseIsoDate(Show(v))
      case Text(_) => ParseIsoDate(Show(v))
      case Opaque(_, _) => ParseIsoDate(Show(v))
  }

  /** `str()` of an integer has no '-' at index 4, so `strptime` refuses it. */
  lemma NoDateInNumber(i: int)
    ensures ParseIsoDate(IntToString(i)).None?
  {
    var s := IntToString(i);
    if |s| >= 8 {
      if i < 0 {
        assert s[4] == NatToString(-i)[3];
      } else {
        assert s[4] == NatToString(i)[4];
      }
    }
  }

  // ---------------------------------------------------------------- _categorize_task

  /** The five lists of `scan_tasks`' `tasks` dict. */
  datatype Bucket = DueToday | InProgress | Overdue | Upcoming | LongTerm

  /**
   * `_categorize_task` as a decision: None for a done task, else the one
   * bucket it is appended to. Dates compare on day counts; `today +
   * timedelta(days=7)` is the day seven counts later.
   */
  function Classify(task: Meta, today: CalDate): Option<Bucket> {
    var status := Get(task, "status", Text("todo"));
    if status == Text("done") then None
    else if status == Text("in-progress") then Some(InProgress)
    else
      var due := ParseDate(Get(task, "due", Null));
      var expected := ParseDate(Get(task, "expected", Null));
      var horizon := Ordinal(today) + 7;
      if due == Some(today) then Some(DueToday)
      else if due.Some? && Ordinal(due.value) < Ordinal(today) then Some(Overdue)
      else if due.Some? && Ordinal(due.value) <= horizon then Some(Upcoming)
      else if expected.Some? && Ordinal(expected.value) <= horizon then Some(Upcoming)
      else Some(LongTerm)
  }

  /** The status alone decides done (no bucket) and in-progress (whatever the dates). */
  lemma ClassifyByStatus(task: Meta, today: CalDate)
    ensures Classify(task, today).None? <==> Is(task, "status", "done")
    ensures Is(task, "status", "in-progress") ==> Classify(task, today) == Some(InProgress)
  {
  }

  /** The number of days from `a` to `b`. */
  function DaysUntil(a: CalDate, b: CalDate): int {
    Ordinal(b) - Ordinal(a)
  }

  /**
   * For a pending task with a readable due date, Python's date comparisons
   * decide: due today, due before today (overdue), due later this week
   * (upcoming); a due date further out defers to the expected date.
   */
  lemma ClassifyByDueDate(task: Meta, today: CalDate, due: CalDate)
    requires !Is(task, "status", "done") && !Is(task, "status", "in-progress")
    requires ParseDate(Get(task, "due", Null)) == Some(due)
    ensures Classify(task, today) == Some(DueToday) <==> due == today
    ensures Classify(task, today) == Some(Overdue) <==> Before(due, today)
    ensures Before(today, due) && DaysUntil(today, due) <= 7 ==> Classify(task, today) == Some(Upcoming)
    ensures Before(today, due) && DaysUntil(today, due) > 7 ==>
      Classify(task, today) == (match ParseDate(Get(task, "expected", Null))
                                case Some(e) => if DaysUntil(today, e) <= 7 then Some(Upcoming) else Some(LongTerm)
                                case None => Some(LongTerm))
  {
    OrdinalOrder(due, today);
  }

  /**
   * Without a readable due date, the expected date alone decides: any
   * expected date up to a week ahead, past ones included, is upcoming.
   */
  lemma ClassifyByExpectedDate(task: Meta, today: CalDate)
    requires !Is(task, "status", "done") && !Is(task, "status", "in-progress")
    requires ParseDate(Get(task, "due", Null)).None?
    ensures Classify(task, today) == Some(Upcoming) <==>
      (match ParseDate(Get(task, "expected", Null))
       case Some(e) => DaysUntil(today, e) <= 7
       case None => false)
    ensures Classify(task, today) in {Some(Upcoming), Some(LongTerm)}
  {
  }

  /** The worked examples below take today to be 2024-06-10 (day 739047). */
  lemma June10()
    ensures Ordinal(Date(2024, 6, 10)) == 739047
  {
    assert DaysBeforeYear(2024) == 738885;
  }

  lemma ExampleDueToday()
    ensures Classify(map["due" := Day(Date(2024, 6, 10))], Date(2024, 6, 10)) == Some(DueToday)
  {
  }

  lemma ExampleOverdue()
    ensures Classify(map["due" := Day(Date(2024, 6, 5))], Date(2024, 6, 10)) == Some(Overdue)
  {
    June10();
  }

  lemma ExampleDueThisWeek()
    ensures Classify(map["due" := Day(Date(2024, 6, 15))], Date(2024, 6, 10)) == Some(Upcoming)
  {
    June10();
  }

  lemma ExampleExpectedThisWeek()
    ensures Classify(map["expected" := Day(Date(2024, 6, 16))], Date(2024, 6, 10)) == Some(Upcoming)
  {
    June10();
  }

  lemma ExampleExpectedLater()
    ensures Classify(map["expected" := Day(Date(2024, 6, 25))], Date(2024, 6, 10)) == Some(LongTerm)
  {
    June10();
  }

  /** The due date wins over an expected date that would have made the task upcoming. */
  lemma ExampleDueBeatsExpected()
    ensures Classify(map["due" := Day(Date(2024, 6, 5)), "expected" := Day(Date(2024, 6, 11))],
                     Date(2024, 6, 10)) == Some(Overdue)
  {
    June10();
  }

  /** The tasks of `tasks` that land in bucket `k`, in order. */
  function InBucket(tasks: seq<Meta>, k: Bucket, today: CalDate): seq<Meta> {
    if |tasks| == 0 then []
    else InBucket(tasks[..|tasks| - 1], k, today)
         + (if Classify(tasks[|tasks| - 1], today) == Some(k) then [tasks[|tasks| - 1]] else [])
  }

  /** The tasks of `tasks` that are not done, in order. */
  function Pending(tasks: seq<Meta>, today: CalDate): seq<Meta> {
    if |tasks| == 0 then []
    else Pending(tasks[..|tasks| - 1], today)
         + (if Classify(tasks[|tasks| - 1], today).Some? then [tasks[|tasks| - 1]] else [])
  }

  lemma {:induction false} InBucketAppend(a: seq<Meta>, b: seq<Meta>, k: Bucket, today: CalDate)
    ensures InBucket(a + b, k, today) == InBucket(a, k, today) + InBucket(b, k, today)
    decreases |b|
  {
    if |b| == 0 {
      assert a + b == a;
    } else {
      var init, t := b[..|b| - 1], b[|b| - 1];
      assert (a + b)[..|a + b| - 1] == a + init;
      assert (a + b)[|a + b| - 1] == t;
      InBucketAppend(a, init, k, today);
      var f := if Classify(t, today) == Some(k) then [t] else [];
      assert InBucket(a + b, k, today) == InBucket(a + init, k, today) + f;
      assert InBucket(b, k, today) == InBucket(init, k, today) + f;
    }
  }
  /** A bucket holding its share of `done` that then takes its share of `more` holds its share of `done + more`. */
  lemma BucketGrows(prev: seq<Meta>, done: seq<Meta>, more: seq<Meta>, k: Bucket, today: CalDate)
    ensures (prev + InBucket(done, k, today)) + InBucket(more, k, today) == prev + InBucket(done + more, k, today)
  {
    InBucketAppend(done, more, k, today);
  }


  function AllBuckets(tasks: seq<Meta>, today: CalDate): multiset<Meta> {
    multiset(InBucket(tasks, DueToday, today)) + multiset(InBucket(tasks, InProgress, today))
    + multiset(InBucket(tasks, Overdue, today)) + multiset(InBucket(tasks, Upcoming, today))
    + multiset(InBucket(tasks, LongTerm, today))
  }

  /** Every pending task lands in exactly one bucket: together the buckets hold the pending tasks, once each. */
  lemma {:induction false} BucketsPartitionPending(tasks: seq<Meta>, today: CalDate)
    ensures AllBuckets(tasks, today) == multiset(Pending(tasks, today))
    decreases |tasks|
  {
    if |tasks| > 0 {
      var init, t := tasks[..|tasks| - 1], tasks[|tasks| - 1];
      var c := Classify(t, today);
      BucketsPartitionPending(init, today);
      OneBucket(c, t);
      SplitBuckets(InBucket(init, DueToday, today), InBucket(init, InProgress, today), InBucket(init, Overdue, today),
                   InBucket(init, Upcoming, today), InBucket(init, LongTerm, today),
                   if c == Some(DueToday) then [t] else [], if c == Some(InProgress) then [t] else [],
                   if c == Some(Overdue) then [t] else [], if c == Some(Upcoming) then [t] else [],
                   if c == Some(LongTerm) then [t] else []);
    }
  }

  lemma SplitBuckets(a1: seq<Meta>, a2: seq<Meta>, a3: seq<Meta>, a4: seq<Meta>, a5: seq<Meta>,
                     b1: seq<Meta>, b2: seq<Meta>, b3: seq<Meta>, b4: seq<Meta>, b5: seq<Meta>)
    ensures multiset(a1 + b1) + multiset(a2 + b2) + multiset(a3 + b3) + multiset(a4 + b4) + multiset(a5 + b5)
         == (multiset(a1) + multiset(a2) + multiset(a3) + multiset(a4) + multiset(a5))
          + (multiset(b1) + multiset(b2) + multiset(b3) + multiset(b4) + multiset(b5))
  {
  }

  /** A single classified task goes to at most one bucket. */
  lemma OneBucket(c: Option<Bucket>, t: Meta)
    ensures multiset(if c == Some(DueToday) then [t] else []) + multiset(if c == Some(InProgress) then [t] else [])
          + multiset(if c == Some(Overdue) then [t] else []) + multiset(if c == Some(Upcoming) then [t] else [])
          + multiset(if c == Some(LongTerm) then [t] else [])
         == multiset(if c.Some? then [t] else [])
  {
    var empty: seq<Meta> := [];
    assert multiset(empty) == multiset{};
    match c
    case None =>
    case Some(k) =>
      assert multiset([t]) == multiset{t};
      match k
      case DueToday =>
      case InProgress =>
      case Overdue =>
      case Upcoming =>
      case LongTerm =>
  }

  // ---------------------------------------------------------------- the buckets

  /** The `tasks` dict of `scan_tasks`: five lists that `_categorize_task` appends to. */
  class Categories {
    var dueToday: seq<Meta>
    var upcoming: seq<Meta>
    var inProgress: seq<Meta>
    var overdue: seq<Meta>
    var longTerm: seq<Meta>

    function Get(k: Bucket): seq<Meta>
      reads this
    {
      match k
      case DueToday => dueToday
      case InProgress => inProgress
      case Overdue => overdue
      case Upcoming => upcoming
      case LongTerm => longTerm
    }

    constructor()
      ensures forall k :: Get(k) == []
    {
      dueToday, upcoming, inProgress, overdue, longTerm := [], [], [], [], [];
    }

    /** `tasks[k].append(task)`. */
    method Add(k: Bucket, task: Meta)
      modifies this
      ensures forall k' :: Get(k') == old(Get(k')) + (if k' == k then [task] else [])
    {
      match k
      case DueToday => dueToday := dueToday + [task];
      case InProgress => inProgress := inProgress + [task];
      case Overdue => overdue := overdue + [task];
      case Upcoming => upcoming := upcoming + [task];
      case LongTerm => longTerm := longTerm + [task];
    }

    /** `_categorize_task`: append `task` to its bucket, and to no other. */
    method Categorize(task: Meta, today: CalDate)
      modifies this
      ensures forall k :: Get(k) == old(Get(k)) + (if Classify(task, today) == Some(k) then [task] else [])
    {
      var status := Yaml.Get(task, "status", Text("todo"));
      if status == Text("done") {
        return;
      }
      if status == Text("in-progress") {
        Add(InProgress, task);
        return;
      }
      var due := ParseDate(Yaml.Get(task, "due", Null));
      var expected := ParseDate(Yaml.Get(task, "expected", Null));
      var horizon := Ordinal(today) + 7;
      if due == Some(today) {
        Add(DueToday, task);
      } else if due.Some? && Ordinal(due.value) < Ordinal(today) {
        Add(Overdue, task);
      } else if due.Some? && Ordinal(due.value) <= horizon {
        Add(Upcoming, task);
      } else if expected.Some? && Ordinal(expected.value) <= horizon {
        Add(Upcoming, task);
      } else {
        Add(LongTerm, task);
      }
    }
  }

  // ---------------------------------------------------------------- scan_tasks

  /** A directory listing: the `*.md` files under a path in `rglob` order, None when it does not exist. */
  type Listing = seq<string> -> Option<seq<Doc>>

  /** What one listed file contributes: its task, unless it is a `README.md` or not a task. */
  function Found(doc: Doc, load: Loader): seq<Meta> {
    if doc.name != "README.md" && ParseTask(doc, load).Some? then [ParseTask(doc, load).value] else []
  }

  /** The tasks `_parse_task` yields for `docs`, skipping `README.md`, in order. */
  function TasksIn(docs: seq<Doc>, load: Loader): seq<Meta> {
    if |docs| == 0 then [] else TasksIn(docs[..|docs| - 1], load) + Found(docs[|docs| - 1], load)
  }

  lemma TasksInStep(docs: seq<Doc>, j: nat, load: Loader)
    requires j < |docs|
    ensures TasksIn(docs[..j + 1], load) == TasksIn(docs[..j], load) + Found(docs[j], load)
  {
    assert docs[..j + 1][..j] == docs[..j];
  }

  lemma InBucketOne(t: Meta, k: Bucket, today: CalDate)
    ensures InBucket([t], k, today) == if Classify(t, today) == Some(k) then [t] else []
  {
    assert [t][..0] == [];
  }

  /** The tasks of one configured directory, in listing order; none when it does not exist. */
  function TasksOfDir(outputDir: string, dir: string, listing: Listing, load: Loader): seq<Meta> {
    match listing([outputDir, dir])
    case None => []
    case Some(docs) => TasksIn(docs, load)
  }

  /** The tasks found in the configured directories, in scan order; missing directories add none. */
  function ScannedTasks(outputDir: string, dirs: seq<string>, listing: Listing, load: Loader): seq<Meta> {
    if |dirs| == 0 then []
    else ScannedTasks(outputDir, dirs[..|dirs| - 1], listing, load) + TasksOfDir(outputDir, dirs[|dirs| - 1], listing, load)
  }

  lemma ScannedStep(outputDir: string, dirs: seq<string>, i: nat, listing: Listing, load: Loader)
    requires i < |dirs|
    ensures ScannedTasks(outputDir, dirs[..i + 1], listing, load)
            == ScannedTasks(outputDir, dirs[..i], listing, load) + TasksOfDir(outputDir, dirs[i], listing, load)
  {
    assert dirs[..i + 1][..i] == dirs[..i];
  }

  /** Everything the scan keeps is a task carrying its `_file`. */
  lemma {:induction false} TasksInAreTasks(docs: seq<Doc>, load: Loader)
    ensures forall t :: t in TasksIn(docs, load) ==> Is(t, "type", "task") && "_file" in t
    decreases |docs|
  {
    if |docs| > 0 {
      TasksInAreTasks(docs[..|docs| - 1], load);
    }
  }

  /** The inner loop of `scan_tasks`: parse and categorise the files of one directory, in order. */
  method ScanDocs(c: Categories, docs: seq<Doc>, load: Loader, today: CalDate)
    modifies c
    ensures forall k :: c.Get(k) == old(c.Get(k)) + InBucket(TasksIn(docs, load), k, today)
  {
    var j := 0;
    while j < |docs|
      invariant 0 <= j <= |docs|
      invariant forall k :: c.Get(k) == old(c.Get(k)) + InBucket(TasksIn(docs[..j], load), k, today)
    {
      ghost var done := TasksIn(docs[..j], load);
      ghost var more := Found(docs[j], load);
      TasksInStep(docs, j, load);
      ScanDoc(c, docs[j], load, today);
      forall k ensures c.Get(k) == old(c.Get(k)) + InBucket(done + more, k, today) {
        BucketGrows(old(c.Get(k)), done, more, k, today);
      }
      j := j + 1;
    }
    assert docs[..|docs|] == docs;
  }

  /** The body of that loop: a file other than `README.md` that parses as a task is categorised. */
  method ScanDoc(c: Categories, doc: Doc, load: Loader, today: CalDate)
    modifies c
    ensures forall k :: c.Get(k) == old(c.Get(k)) + InBucket(Found(doc, load), k, today)
  {
    if doc.name != "README.md" {
      var task := ParseTask(doc, load);
      if task.Some? {
        forall k ensures InBucket(Found(doc, load), k, today)
                         == if Classify(task.value, today) == Some(k) then [task.value] else [] {
          InBucketOne(task.value, k, today);
        }
        c.Categorize(task.value, today);
      } else {
        assert Found(doc, load) == [];
      }
    } else {
      assert Found(doc, load) == [];
    }
  }

  /** One pass of the outer loop of `scan_tasks`: a directory that exists has its files scanned. */
  method ScanDir(c: Categories, outputDir: string, dir: string, listing: Listing, load: Loader, today: CalDate)
    modifies c
    ensures forall k :: c.Get(k) == old(c.Get(k)) + InBucket(TasksOfDir(outputDir, dir, listing, load), k, today)
  {
    var found := listing([outputDir, dir]);
    if found.Some? {
      ScanDocs(c, found.value, load, today);
    }
  }

  /**
   * `scan_tasks`: every directory that exists is listed, every file but
   * `README.md` parsed, and every task categorised; each bucket then
   * holds its tasks in scan order.
   */
  method ScanTasks(cfg: Config, listing: Listing, load: Loader, today: CalDate) returns (c: Categories)
    ensures fresh(c)
    ensures forall k :: c.Get(k) == InBucket(ScannedTasks(cfg.outputDir, cfg.scanDirs, listing, load), k, today)
  {
    c := new Categories();
    var dirs := cfg.scanDirs;
    var i := 0;
    while i < |dirs|
      invariant 0 <= i <= |dirs|
      invariant forall k :: c.Get(k) == InBucket(ScannedTasks(cfg.outputDir, dirs[..i], listing, load), k, today)
    {
      ghost var before := ScannedTasks(cfg.outputDir, dirs[..i], listing, load);
      ghost var more := TasksOfDir(cfg.outputDir, dirs[i], listing, load);
      ScannedStep(cfg.outputDir, dirs, i, listing, load);
      label step:
      ScanDir(c, cfg.outputDir, dirs[i], listing, load, today);
      forall k ensures c.Get(k) == InBucket(before + more, k, today) {
        InBucketAppend(before, more, k, today);
        assert c.Get(k) == old@step(c.Get(k)) + InBucket(more, k, today);
      }
      i := i + 1;
    }
    assert dirs[..|dirs|] == dirs;
  }
}
