/**
 * `generate_worklog` of the end-of-day script: the day's work log built
 * from the repository state, the two task scans and the memos. The
 * weekday name (`strftime("%A")`) and the footer stamp
 * (`datetime.now()`) are parameters.
 */
module Worklog {
  import opened Text
  import opened Dates
  import opened Yaml
  import opened Markdown
  import opened Wrap

  const StatsHeading: string := "📊 Stats"
  const CommitsHeading: string := "📝 Commits"
  const CompletedHeading: string := "✅ Completed"
  const InProgressHeading: string := "🔄 In Progress"
  const NotesHeading: string := "📌 Notes"

  function Header(today: CalDate, weekday: string): seq<string> {
    ["# Work Log - " + FormatIso(today) + " " + weekday, ""]
  }

  /** The items of the Stats block, which is always present: commit count, files changed, lines added and removed. */
  function StatsItems(status: GitStatus): seq<string> {
    ["- Commits: " + NatToString(|status.todayCommits|),
     "- Files changed: " + NatToString(status.stats.files),
     "- Lines: +" + NatToString(status.stats.insertions) + " / -" + NatToString(status.stats.deletions)]
  }

  /** A task as the Completed section lists it: `task.get('id')` and `task.get('title')`, so a missing one prints "None". */
  function TaskEntry(task: Meta): string {
    "- [" + Show(Get(task, "id", Null)) + "] " + Show(Get(task, "title", Null))
  }

  /** A task as the In Progress section lists it: " (<progress>%)" follows only a truthy progress. */
  function ProgressEntry(task: Meta): string {
    TaskEntry(task) + ProgressNote(Get(task, "progress", Text("")))
  }

  /** `progress_str`. */
  function ProgressNote(progress: Value): string {
    if Truthy(progress) then " (" + Show(progress) + "%)" else ""
  }

  /** The lines of the work log. */
  function WorklogLines(status: GitStatus, completed: seq<Meta>, inProgress: seq<Meta>, memos: seq<string>,
                        today: CalDate, weekday: string, stamp: string): seq<string>
  {
    Header(today, weekday) + Section(StatsHeading, StatsItems(status))
    + Section(CommitsHeading, Bullets(status.todayCommits))
    + Section(CompletedHeading, Rendered(completed, TaskEntry))
    + Section(InProgressHeading, Rendered(inProgress, ProgressEntry))
    + Section(NotesHeading, Bullets(memos))
    + Footer(stamp)
  }

  /** `generate_worklog`: the lines are built in place, section after section, then joined with "\n". */
  method GenerateWorklog(status: GitStatus, completed: seq<Meta>, inProgress: seq<Meta>, memos: seq<string>,
                         today: CalDate, weekday: string, stamp: string) returns (content: string)
    ensures content == Join(WorklogLines(status, completed, inProgress, memos, today, weekday, stamp), "\n")
  {
    var lines := Header(today, weekday) + Section(StatsHeading, StatsItems(status));
    lines := AppendBullets(lines, CommitsHeading, status.todayCommits);
    lines := AppendTasks(lines, CompletedHeading, completed, TaskEntry);
    lines := AppendTasks(lines, InProgressHeading, inProgress, ProgressEntry);
    lines := AppendBullets(lines, NotesHeading, memos);
    lines := lines + Footer(stamp);
    content := Join(lines, "\n");
  }

  /** The commits and the notes: `"- " + item` per item, under `heading`, when there are any. */
  method AppendBullets(lines: seq<string>, heading: string, items: seq<string>) returns (out: seq<string>)
    ensures out == lines + Section(heading, Bullets(items))
  {
    out := lines;
    if |items| == 0 {
      Regroup(lines, [], []);
      return;
    }
    out := out + ["## " + heading, ""];
    ghost var started := out;
    var j := 0;
    Regroup(started, [], []);
    while j < |items|
      invariant 0 <= j <= |items|
      invariant out == started + Bullets(items[..j])
    {
      assert items[..j + 1][..j] == items[..j];
      Regroup(started, Bullets(items[..j]), ["- " + items[j]]);
      out := out + ["- " + items[j]];
      j := j + 1;
    }
    assert items[..j] == items;
    out := out + [""];
    SectionBuilt(lines, heading, Bullets(items));
  }

  /** The Completed and the In Progress sections: one `entry` line per task, under `heading`, when there are any. */
  method AppendTasks(lines: seq<string>, heading: string, tasks: seq<Meta>, entry: Meta -> string) returns (out: seq<string>)
    ensures out == lines + Section(heading, Rendered(tasks, entry))
  {
    out := lines;
    if |tasks| == 0 {
      Regroup(lines, [], []);
      return;
    }
    out := out + ["## " + heading, ""];
    ghost var started := out;
    var j := 0;
    Regroup(started, [], []);
    while j < |tasks|
      invariant 0 <= j <= |tasks|
      invariant out == started + Rendered(tasks[..j], entry)
    {
      RenderedStep(tasks, entry, j);
      Regroup(started, Rendered(tasks[..j], entry), [entry(tasks[j])]);
      out := out + [entry(tasks[j])];
      j := j + 1;
    }
    assert tasks[..j] == tasks;
    out := out + [""];
    SectionBuilt(lines, heading, Rendered(tasks, entry));
  }

  // ---------------------------------------------------------------- what the log shows

  /**
   * The log's headings: Stats always, then Commits, Completed, In
   * Progress and Notes in that order, each exactly when its list is
   * non-empty.
   */
  lemma WorklogHeadings(status: GitStatus, completed: seq<Meta>, inProgress: seq<Meta>, memos: seq<string>,
                        today: CalDate, weekday: string, stamp: string)
    ensures Headings(WorklogLines(status, completed, inProgress, memos, today, weekday, stamp)) ==
            [StatsHeading]
            + (if |status.todayCommits| > 0 then [CommitsHeading] else [])
            + (if |completed| > 0 then [CompletedHeading] else [])
            + (if |inProgress| > 0 then [InProgressHeading] else [])
            + (if |memos| > 0 then [NotesHeading] else [])
  {
    var top := Header(today, weekday) + Section(StatsHeading, StatsItems(status));
    var commits := Section(CommitsHeading, Bullets(status.todayCommits));
    var done := Section(CompletedHeading, Rendered(completed, TaskEntry));
    var going := Section(InProgressHeading, Rendered(inProgress, ProgressEntry));
    var notes := Section(NotesHeading, Bullets(memos));
    HeadingsOfParts(top, commits, done, going, notes);
    HeadingsAppend(top + commits + done + going + notes, Footer(stamp));
    FooterHasNoHeadings(stamp);
    TopHeadings(status, today, weekday);
    BulletsAreItems(status.todayCommits);
    BulletsAreItems(memos);
    RenderedAreItems(completed);
    RenderedAreItems(inProgress);
    SectionHeadings(CommitsHeading, Bullets(status.todayCommits));
    SectionHeadings(CompletedHeading, Rendered(completed, TaskEntry));
    SectionHeadings(InProgressHeading, Rendered(inProgress, ProgressEntry));
    SectionHeadings(NotesHeading, Bullets(memos));
    DropEmpty([StatsHeading], Headings(commits), Headings(done), Headings(going), Headings(notes));
  }

  lemma DropEmpty(a: seq<string>, b: seq<string>, c: seq<string>, d: seq<string>, e: seq<string>)
    ensures a + b + c + d + e + [] == a + b + c + d + e
  {
  }

  lemma TopHeadings(status: GitStatus, today: CalDate, weekday: string)
    ensures Headings(Header(today, weekday) + Section(StatsHeading, StatsItems(status))) == [StatsHeading]
  {
    var head := Header(today, weekday);
    forall k | 0 <= k < |head| ensures !IsHeading(head[k]) {
      assert head[k][..|head[k]|] == head[k];
      if k == 0 {
        assert head[k][1] == ' ';
      }
    }
    NoHeadings(head);
    var items := StatsItems(status);
    forall k | 0 <= k < |items| ensures IsItem(items[k]) {
      assert items[k][..2] == "- ";
    }
    SectionHeadings(StatsHeading, items);
    HeadingsAppend(head, Section(StatsHeading, items));
  }

  lemma BulletsAreItems(items: seq<string>)
    ensures forall k :: 0 <= k < |Bullets(items)| ==> IsItem(Bullets(items)[k])
  {
    forall k | 0 <= k < |Bullets(items)| ensures IsItem(Bullets(items)[k]) {
      assert Bullets(items)[k][..2] == "- ";
    }
  }

  lemma RenderedAreItems(tasks: seq<Meta>)
    ensures forall k :: 0 <= k < |tasks| ==> IsItem(Rendered(tasks, TaskEntry)[k])
    ensures forall k :: 0 <= k < |tasks| ==> IsItem(Rendered(tasks, ProgressEntry)[k])
  {
    forall k | 0 <= k < |tasks| ensures IsItem(Rendered(tasks, TaskEntry)[k]) && IsItem(Rendered(tasks, ProgressEntry)[k]) {
      assert TaskEntry(tasks[k])[..2] == "- ";
      assert ProgressEntry(tasks[k])[..2] == "- ";
    }
  }

  /** A quiet day (no commits, no tasks, no memos) logs only the header, the Stats block and the footer. */
  lemma QuietDay(status: GitStatus, today: CalDate, weekday: string, stamp: string)
    requires status.todayCommits == []
    ensures WorklogLines(status, [], [], [], today, weekday, stamp) ==
            ["# Work Log - " + FormatIso(today) + " " + weekday, "",
             "## " + StatsHeading, "",
             "- Commits: 0",
             "- Files changed: " + NatToString(status.stats.files),
             "- Lines: +" + NatToString(status.stats.insertions) + " / -" + NatToString(status.stats.deletions),
             "",
             "---", "*Generated: " + stamp + "*"]
  {
    var top := Header(today, weekday) + Section(StatsHeading, StatsItems(status));
    var empty: seq<string> := [];
    assert Bullets([]) == empty && Rendered([], TaskEntry) == empty && Rendered([], ProgressEntry) == empty;
    assert Section(CommitsHeading, empty) == empty && Section(CompletedHeading, empty) == empty;
    assert Section(InProgressHeading, empty) == empty && Section(NotesHeading, empty) == empty;
    assert WorklogLines(status, [], [], [], today, weekday, stamp) == top + empty + empty + empty + empty + Footer(stamp);
    OnlyEnds(top, Footer(stamp));
    assert NatToString(0) == "0";
    assert StatsItems(status)[0] == "- Commits: 0";
  }

  lemma OnlyEnds(top: seq<string>, foot: seq<string>)
    ensures top + [] + [] + [] + [] + foot == top + foot
  {
  }

  // ---------------------------------------------------------------- one task line

  /** A task without id or title is listed as "- [None] None". */
  lemma TaskEntryDefaults()
    ensures TaskEntry(map[]) == "- [None] None"
  {
  }

  /**
   * Progress only ever adds " (<progress>%)" to the in-progress line, and
   * only when it is truthy: a missing, empty or zero progress leaves the
   * line as the Completed section would show the task.
   */
  lemma ProgressSuffix(task: Meta, progress: Value)
    requires "progress" !in task
    ensures ProgressEntry(task) == TaskEntry(task)
    ensures Truthy(progress) ==> ProgressEntry(task["progress" := progress]) == TaskEntry(task) + " (" + Show(progress) + "%)"
    ensures !Truthy(progress) ==> ProgressEntry(task["progress" := progress]) == TaskEntry(task)
  {
    EntryIgnoresProgress(task, progress);
    assert ProgressNote(Get(task, "progress", Text(""))) == "";
  }

  lemma EntryIgnoresProgress(task: Meta, progress: Value)
    ensures TaskEntry(task["progress" := progress]) == TaskEntry(task)
  {
    var t := task["progress" := progress];
    assert Get(t, "id", Null) == Get(task, "id", Null);
    assert Get(t, "title", Null) == Get(task, "title", Null);
  }
}
