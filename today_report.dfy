/**
 * `generate_today_md` of the start-of-day script: the `today.md`
 * document built from the sync result and the five task buckets. The
 * weekday name (`strftime("%A")`) and the footer stamp
 * (`datetime.now()`) are parameters.
 */
module TodayReport {
  import opened Text
  import opened Dates
  import opened Yaml
  import opened Markdown
  import Standup

  /** One entry of `section_config`: title, bucket key and the icon of its task lines. */
  datatype SectionSpec = SectionSpec(title: string, key: Standup.Bucket, icon: string)

  /** `section_config`, in the order the sections appear. */
  const Sections: seq<SectionSpec> := [
    SectionSpec("🔴 Today", Standup.DueToday, "□"),
    SectionSpec("🟡 In Progress", Standup.InProgress, "◐"),
    SectionSpec("⚠️ Overdue", Standup.Overdue, "⚡"),
    SectionSpec("📅 This Week", Standup.Upcoming, "○"),
    SectionSpec("📋 Long-term", Standup.LongTerm, "○")
  ]

  const GitHeading: string := "📌 Git Status"

  /** The `tasks` dict handed to the renderer. */
  type Tasks = map<Standup.Bucket, seq<Meta>>

  /** `tasks.get(key, [])`. */
  function TaskList(tasks: Tasks, k: Standup.Bucket): seq<Meta> {
    if k in tasks then tasks[k] else []
  }

  function Header(today: CalDate, weekday: string): seq<string> {
    ["# Today - " + FormatIso(today) + " " + weekday, "", "## " + GitHeading, ""]
  }

  /** Branch and latest commit after a successful sync, the message otherwise. */
  function GitLines(git: Standup.SyncResult): seq<string> {
    if git.success then ["- Branch: `" + git.branch + "`", "- Latest: `" + git.latestCommit + "`"]
    else ["- ⚠️ " + git.message]
  }

  /** One task of a section, with the defaults "???", "Untitled" and "P2" and an "@assignee" only when it is truthy. */
  function TaskLine(icon: string, task: Meta): string {
    "- " + Described(icon, task) + AssigneeNote(Get(task, "assignee", Text("")))
  }

  /** The line's text after "- ", up to the priority. */
  function Described(icon: string, task: Meta): string {
    icon + " [" + Show(Get(task, "id", Text("???"))) + "] " + Show(Get(task, "title", Text("Untitled")))
    + " - " + Show(Get(task, "priority", Text("P2")))
  }

  /** `assignee_str`. */
  function AssigneeNote(assignee: Value): string {
    if Truthy(assignee) then " @" + Show(assignee) else ""
  }

  /** `TaskLine` with the section's icon. */
  function TaskLineWith(icon: string): Meta -> string {
    task => TaskLine(icon, task)
  }

  /** The heading of a section that lists `n` tasks. */
  function SectionHeading(s: SectionSpec, n: nat): string {
    s.title + " (" + NatToString(n) + ")"
  }

  function SectionOf(s: SectionSpec, tasks: Tasks): seq<string> {
    var list := TaskList(tasks, s.key);
    Section(SectionHeading(s, |list|), Rendered(list, TaskLineWith(s.icon)))
  }

  /** The sections of `specs`, one after another. */
  function SectionsOf(specs: seq<SectionSpec>, tasks: Tasks): seq<string> {
    if |specs| == 0 then [] else SectionsOf(specs[..|specs| - 1], tasks) + SectionOf(specs[|specs| - 1], tasks)
  }

  /** The lines of `today.md`. */
  function TodayLines(git: Standup.SyncResult, tasks: Tasks, today: CalDate, weekday: string, stamp: string): seq<string> {
    Header(today, weekday) + GitLines(git) + [""] + SectionsOf(Sections, tasks) + Footer(stamp)
  }

  /** `generate_today_md`: the lines are built in place, then joined with "\n". */
  method GenerateTodayMd(git: Standup.SyncResult, tasks: Tasks, today: CalDate, weekday: string, stamp: string)
    returns (content: string)
    ensures content == Join(TodayLines(git, tasks, today, weekday, stamp), "\n")
  {
    var lines := Header(today, weekday);
    if git.success {
      lines := lines + ["- Branch: `" + git.branch + "`", "- Latest: `" + git.latestCommit + "`"];
    } else {
      lines := lines + ["- ⚠️ " + git.message];
    }
    lines := lines + [""];
    ghost var top := lines;
    var i := 0;
    assert SectionsOf(Sections[..0], tasks) == [];
    Regroup(top, [], []);
    while i < |Sections|
      invariant 0 <= i <= |Sections|
      invariant lines == top + SectionsOf(Sections[..i], tasks)
    {
      lines := AppendSection(lines, Sections[i], tasks);
      SectionsOfStep(Sections, i, tasks);
      Regroup(top, SectionsOf(Sections[..i], tasks), SectionOf(Sections[i], tasks));
      i := i + 1;
    }
    assert Sections[..i] == Sections;
    lines := lines + Footer(stamp);
    content := Join(lines, "\n");
  }

  /** One turn of the `section_config` loop: the section of `s`, appended to `lines` when its list is non-empty. */
  method AppendSection(lines: seq<string>, s: SectionSpec, tasks: Tasks) returns (out: seq<string>)
    ensures out == lines + SectionOf(s, tasks)
  {
    out := lines;
    var list := TaskList(tasks, s.key);
    if |list| == 0 {
      Regroup(lines, [], []);
      return;
    }
    var heading := SectionHeading(s, |list|);
    out := out + ["## " + heading, ""];
    ghost var started := out;
    var j := 0;
    assert Rendered(list[..0], TaskLineWith(s.icon)) == [];
    Regroup(started, [], []);
    while j < |list|
      invariant 0 <= j <= |list|
      invariant out == started + Rendered(list[..j], TaskLineWith(s.icon))
    {
      RenderedStep(list, TaskLineWith(s.icon), j);
      Regroup(started, Rendered(list[..j], TaskLineWith(s.icon)), [TaskLine(s.icon, list[j])]);
      out := out + [TaskLine(s.icon, list[j])];
      j := j + 1;
    }
    assert list[..j] == list;
    out := out + [""];
    SectionBuilt(lines, heading, Rendered(list, TaskLineWith(s.icon)));
  }

  // ---------------------------------------------------------------- what the document shows

  /** The headings of the non-empty sections of `specs`, each with its task count. */
  function ShownHeadings(specs: seq<SectionSpec>, tasks: Tasks): seq<string> {
    if |specs| == 0 then []
    else
      var s := specs[|specs| - 1];
      var list := TaskList(tasks, s.key);
      ShownHeadings(specs[..|specs| - 1], tasks) + (if |list| == 0 then [] else [SectionHeading(s, |list|)])
  }

  /**
   * The document's headings are the Git Status heading and then, in the
   * fixed section order, the heading of each non-empty bucket with the
   * number of its tasks; an empty bucket gets no section at all.
   */
  lemma TodayHeadings(git: Standup.SyncResult, tasks: Tasks, today: CalDate, weekday: string, stamp: string)
    ensures Headings(TodayLines(git, tasks, today, weekday, stamp)) == [GitHeading] + ShownHeadings(Sections, tasks)
  {
    var head, gitLines, sections, foot := Header(today, weekday), GitLines(git), SectionsOf(Sections, tasks), Footer(stamp);
    HeadingsOfParts(head, gitLines, [""], sections, foot);
    FooterHasNoHeadings(stamp);
    HeaderHeadings(today, weekday);
    GitLinesHaveNoHeadings(git);
    assert Headings([""]) == [] by {
      assert !IsHeading("");
    }
    SectionsHeadings(Sections, tasks);
    DropEmpty([GitHeading], ShownHeadings(Sections, tasks));
  }

  lemma SectionsOfStep(specs: seq<SectionSpec>, i: nat, tasks: Tasks)
    requires i < |specs|
    ensures SectionsOf(specs[..i + 1], tasks) == SectionsOf(specs[..i], tasks) + SectionOf(specs[i], tasks)
  {
    assert specs[..i + 1][..i] == specs[..i];
  }

  lemma DropEmpty(a: seq<string>, b: seq<string>)
    ensures a + [] + [] + b + [] == a + b
  {
  }

  /** Every section title is non-empty and no two start with the same character (their emoji). */
  predicate DistinctInitials(specs: seq<SectionSpec>) {
    (forall k :: 0 <= k < |specs| ==> |specs[k].title| > 0) &&
    forall a, b :: 0 <= a < b < |specs| ==> specs[a].title[0] != specs[b].title[0]
  }

  lemma SectionsDistinct()
    ensures DistinctInitials(Sections)
    ensures forall k :: 0 <= k < |Sections| ==> Sections[k].title[0] != GitHeading[0]
  {
  }

  /** No shown heading starts with `c` when no title does. */
  lemma {:induction false} ShownAvoids(specs: seq<SectionSpec>, tasks: Tasks, c: char)
    requires forall k :: 0 <= k < |specs| ==> |specs[k].title| > 0 && specs[k].title[0] != c
    ensures forall h :: h in ShownHeadings(specs, tasks) ==> |h| > 0 && h[0] != c
    decreases |specs|
  {
    if |specs| > 0 {
      ShownAvoids(specs[..|specs| - 1], tasks, c);
    }
  }

  lemma {:induction false} ShownIff(specs: seq<SectionSpec>, tasks: Tasks, i: nat, n: nat)
    requires i < |specs| && DistinctInitials(specs)
    ensures SectionHeading(specs[i], n) in ShownHeadings(specs, tasks) <==>
            |TaskList(tasks, specs[i].key)| > 0 && n == |TaskList(tasks, specs[i].key)|
    decreases |specs|
  {
    var init, last := specs[..|specs| - 1], specs[|specs| - 1];
    var m := |TaskList(tasks, last.key)|;
    var h := SectionHeading(specs[i], n);
    assert h[0] == specs[i].title[0];
    if i == |specs| - 1 {
      ShownAvoids(init, tasks, last.title[0]);
      if h == SectionHeading(last, m) {
        SectionHeadingInjective(last, n, m);
      }
    } else {
      assert DistinctInitials(init);
      ShownIff(init, tasks, i, n);
      assert SectionHeading(last, m)[0] == last.title[0];
    }
  }

  /**
   * A bucket's section heading, with count `n`, is in `today.md` exactly
   * when the bucket has tasks and `n` is how many.
   */
  lemma TodaySection(git: Standup.SyncResult, tasks: Tasks, today: CalDate, weekday: string, stamp: string, i: nat, n: nat)
    requires i < |Sections|
    ensures SectionHeading(Sections[i], n) in Headings(TodayLines(git, tasks, today, weekday, stamp)) <==>
            |TaskList(tasks, Sections[i].key)| > 0 && n == |TaskList(tasks, Sections[i].key)|
  {
    TodayHeadings(git, tasks, today, weekday, stamp);
    SectionsDistinct();
    ShownIff(Sections, tasks, i, n);
    assert SectionHeading(Sections[i], n)[0] == Sections[i].title[0];
  }

  lemma HeaderHeadings(today: CalDate, weekday: string)
    ensures Headings(Header(today, weekday)) == [GitHeading]
  {
    var title := "# Today - " + FormatIso(today) + " " + weekday;
    assert title[1] == ' ';
    assert !IsHeading(title) by {
      assert title[..3][1] == ' ';
    }
    HeadingsAppend([title, ""], ["## " + GitHeading, ""]);
    HeadingsAppend([title], [""]);
    HeadingsAppend(["## " + GitHeading], [""]);
    assert [title] + [""] == [title, ""];
    assert ["## " + GitHeading] + [""] == ["## " + GitHeading, ""];
    assert [title, ""] + ["## " + GitHeading, ""] == Header(today, weekday);
    assert ("## " + GitHeading)[3..] == GitHeading;
    assert !IsHeading("");
  }

  lemma GitLinesHaveNoHeadings(git: Standup.SyncResult)
    ensures Headings(GitLines(git)) == []
  {
    var lines := GitLines(git);
    forall k | 0 <= k < |lines| ensures IsItem(lines[k]) {
      if git.success {
        assert lines[k][..2] == "- ";
      } else {
        assert lines[k][..2] == "- ";
      }
    }
    ItemsHaveNoHeadings(lines);
  }

  lemma TaskLinesAreItems(icon: string, tasks: seq<Meta>)
    ensures forall k :: 0 <= k < |Rendered(tasks, TaskLineWith(icon))| ==> IsItem(Rendered(tasks, TaskLineWith(icon))[k])
  {
    forall k | 0 <= k < |Rendered(tasks, TaskLineWith(icon))| ensures IsItem(Rendered(tasks, TaskLineWith(icon))[k]) {
      var t := tasks[k];
      ItemOf(Described(icon, t), AssigneeNote(Get(t, "assignee", Text(""))));
    }
  }

  lemma {:induction false} SectionsHeadings(specs: seq<SectionSpec>, tasks: Tasks)
    ensures Headings(SectionsOf(specs, tasks)) == ShownHeadings(specs, tasks)
    decreases |specs|
  {
    if |specs| > 0 {
      var s := specs[|specs| - 1];
      var list := TaskList(tasks, s.key);
      SectionsHeadings(specs[..|specs| - 1], tasks);
      HeadingsAppend(SectionsOf(specs[..|specs| - 1], tasks), SectionOf(s, tasks));
      TaskLinesAreItems(s.icon, list);
      SectionHeadings(SectionHeading(s, |list|), Rendered(list, TaskLineWith(s.icon)));
    }
  }

  /** A section's heading shows exactly the number of tasks it holds: no count is shown for two different sizes. */
  lemma SectionHeadingInjective(s: SectionSpec, m: nat, n: nat)
    requires SectionHeading(s, m) == SectionHeading(s, n)
    ensures m == n
  {
    var a, b := NatToString(m), NatToString(n);
    var p := s.title + " (";
    assert SectionHeading(s, m) == p + a + ")";
    assert SectionHeading(s, n) == p + b + ")";
    assert a == (p + a + ")")[|p|..|p| + |a|];
    assert b == (p + b + ")")[|p|..|p| + |b|];
    NatToStringInjective(m, n);
  }

  // ---------------------------------------------------------------- one task line

  /** A task that sets none of its fields is shown with the defaults. */
  lemma TaskLineDefaults(icon: string)
    ensures TaskLine(icon, map[]) == "- " + icon + " [???] Untitled - P2"
  {
  }

  /**
   * The assignee only ever adds " @<assignee>" at the end of the line, and
   * only when it is truthy; a falsy one (empty, 0, null) leaves the line as
   * if it were missing.
   */
  lemma TaskLineAssignee(icon: string, task: Meta, assignee: Value)
    requires "assignee" !in task
    ensures Truthy(assignee) ==> TaskLine(icon, task["assignee" := assignee]) == TaskLine(icon, task) + " @" + Show(assignee)
    ensures !Truthy(assignee) ==> TaskLine(icon, task["assignee" := assignee]) == TaskLine(icon, task)
  {
    DescribedIgnoresAssignee(icon, task, assignee);
    assert AssigneeNote(Get(task, "assignee", Text(""))) == "";
  }

  lemma DescribedIgnoresAssignee(icon: string, task: Meta, assignee: Value)
    ensures Described(icon, task["assignee" := assignee]) == Described(icon, task)
  {
    var t := task["assignee" := assignee];
    assert Get(t, "id", Text("???")) == Get(task, "id", Text("???"));
    assert Get(t, "title", Text("Untitled")) == Get(task, "title", Text("Untitled"));
    assert Get(t, "priority", Text("P2")) == Get(task, "priority", Text("P2"));
  }
}
