/**
 * Where the scripts read and write: the configured directory names with
 * their defaults, and the weekly folder `<isoyear>-W<ww>` that holds both
 * the start-of-day `today.md` and the end-of-day `MM-DD.md`. A path is
 * the list of its components below the workspace root.
 */
module Layout {
  import opened Text
  import opened Dates

  /** The `workflow` settings and the start-of-day scan directories. */
  datatype Config = Config(outputDir: string, tasksDir: string, worklogsDir: string,
                           memosDir: string, scanDirs: seq<string>)

  /** `section.get(key, default)` for a string setting. */
  function Setting(section: map<string, string>, key: string, default: string): string {
    if key in section then section[key] else default
  }

  /** The configuration both constructors read, from the `workflow` section and `skills.today.scan_dirs`. */
  function ConfigOf(workflow: map<string, string>, scanDirs: seq<string>): Config {
    Config(Setting(workflow, "output_dir", ".worklogs"), Setting(workflow, "tasks_dir", "tasks"),
           Setting(workflow, "worklogs_dir", "worklogs"), Setting(workflow, "memos_dir", "memos"), scanDirs)
  }

  /** With no configuration file, the documented defaults apply and nothing is scanned. */
  lemma DefaultConfig()
    ensures ConfigOf(map[], []) == Config(".worklogs", "tasks", "worklogs", "memos", [])
  {
  }

  /** Each setting decides its own directory and no other; keys the scripts do not read change nothing. */
  lemma SettingsIndependent(workflow: map<string, string>, scanDirs: seq<string>, key: string, v: string)
    ensures key == "output_dir" ==> ConfigOf(workflow[key := v], scanDirs) == ConfigOf(workflow, scanDirs).(outputDir := v)
    ensures key == "tasks_dir" ==> ConfigOf(workflow[key := v], scanDirs) == ConfigOf(workflow, scanDirs).(tasksDir := v)
    ensures key == "worklogs_dir" ==> ConfigOf(workflow[key := v], scanDirs) == ConfigOf(workflow, scanDirs).(worklogsDir := v)
    ensures key == "memos_dir" ==> ConfigOf(workflow[key := v], scanDirs) == ConfigOf(workflow, scanDirs).(memosDir := v)
    ensures key !in {"output_dir", "tasks_dir", "worklogs_dir", "memos_dir"} ==>
      ConfigOf(workflow[key := v], scanDirs) == ConfigOf(workflow, scanDirs)
  {
  }

  /** `f"{year}-W{week:02d}"`. */
  function WeekFolder(year: nat, week: nat): (r: string)
    requires week < 100
    ensures |r| == |NatToString(year)| + 4
  {
    NatToString(year) + "-W" + Pad2(week)
  }

  /** The folder name tells the ISO year and week apart. */
  lemma WeekFolderInjective(y1: nat, w1: nat, y2: nat, w2: nat)
    requires w1 < 100 && w2 < 100
    requires WeekFolder(y1, w1) == WeekFolder(y2, w2)
    ensures y1 == y2 && w1 == w2
  {
    var f := WeekFolder(y1, w1);
    assert NatToString(y1) == f[..|f| - 4] == NatToString(y2);
    NatToStringInjective(y1, y2);
    assert Pad2(w1) == f[|f| - 2..] == Pad2(w2);
  }

  /** The week folder of a day. */
  function WeekFolderOf(d: CalDate): string {
    var iso := IsoCalendar(d);
    IsoCalendarCorrect(d);
    WeekFolder(iso.year, iso.week)
  }

  /** `f"{month:02d}-{day:02d}.md"`. */
  function DayFileName(d: CalDate): string {
    Pad2(d.month) + "-" + Pad2(d.day) + ".md"
  }

  /** Start of day: `<output>/<worklogs>/<isoyear>-W<ww>/today.md`. */
  function TodayPath(c: Config, today: CalDate): seq<string> {
    [c.outputDir, c.worklogsDir, WeekFolderOf(today), "today.md"]
  }

  /** End of day: `<output>/<worklogs>/<isoyear>-W<ww>/<MM>-<DD>.md`. */
  function WorklogPath(c: Config, today: CalDate): seq<string> {
    [c.outputDir, c.worklogsDir, WeekFolderOf(today), DayFileName(today)]
  }

  /** The memo file read at end of day: `<output>/<memos>/<year>-<MM>/<DD>.md` (the year is not padded). */
  function MemoPath(c: Config, today: CalDate): seq<string> {
    [c.outputDir, c.memosDir, NatToString(today.year) + "-" + Pad2(today.month), Pad2(today.day) + ".md"]
  }

  /** Both end-of-day scans look in `<output>/<tasks>/active`. */
  function ActiveTasksPath(c: Config): seq<string> {
    [c.outputDir, c.tasksDir, "active"]
  }

  /** The two reports of a day go to the same folder, and never to the same file. */
  lemma ReportsShareFolder(c: Config, d: CalDate)
    ensures TodayPath(c, d)[..3] == WorklogPath(c, d)[..3]
    ensures TodayPath(c, d) != WorklogPath(c, d)
  {
    assert DayFileName(d)[0] != "today.md"[0];
  }

  /** A start-of-day report never overwrites the end-of-day log of any day. */
  lemma TodayNeverWorklog(c: Config, d1: CalDate, d2: CalDate)
    ensures TodayPath(c, d1) != WorklogPath(c, d2)
  {
    assert DayFileName(d2)[0] != "today.md"[0];
  }

  /** Two days with the same weekday in the same seven-day block are the same day. */
  lemma SameBlockSameWeekday(t1: int, t2: int, base: int)
    requires (t1 - base) / 7 == (t2 - base) / 7
    requires Weekday(t1) == Weekday(t2)
    ensures t1 == t2
  {
    var q := (t1 - base) / 7;
    assert 0 <= t1 - base - 7 * q < 7 && 0 <= t2 - base - 7 * q < 7;
    assert (t1 - t2) % 7 == 0;
  }

  /** Two days in the same ISO week of the same ISO year are less than a week apart. */
  lemma SameIsoWeekClose(o1: int, o2: int, a: IsoDate, b: IsoDate)
    requires IsIsoWeekDate(o1, a) && IsIsoWeekDate(o2, b)
    requires a.year == b.year && a.week == b.week
    ensures -6 <= o1 - o2 <= 6
  {
    var t1, t2 := o1 - a.weekday + 4, o2 - b.weekday + 4;
    var base := DaysBeforeYear(a.year) + 1;
    assert (t1 - base) / 7 == (t2 - base) / 7;
    ThursdayWeekday(o1, a.weekday);
    ThursdayWeekday(o2, b.weekday);
    SameBlockSameWeekday(t1, t2, base);
  }

  lemma ThursdayWeekday(o: int, weekday: int)
    requires 1 <= weekday <= 7 && Weekday(o) == weekday - 1
    ensures Weekday(o - weekday + 4) == 3
  {
  }

  /** The same month and day, `n` years later, is at least 364 * n days later. */
  lemma SameDayYearsApart(a: CalDate, b: CalDate)
    requires a.month == b.month && a.day == b.day && a.year <= b.year
    ensures Ordinal(b) - Ordinal(a) >= 364 * (b.year - a.year)
  {
    DaysBeforeYearGrows(a.year, b.year);
  }

  /** No two days share an end-of-day log file. */
  lemma WorklogPathInjective(c: Config, d1: CalDate, d2: CalDate)
    requires WorklogPath(c, d1) == WorklogPath(c, d2)
    ensures d1 == d2
  {
    assert WeekFolderOf(d1) == WorklogPath(c, d1)[2] == WeekFolderOf(d2);
    assert DayFileName(d1) == WorklogPath(c, d1)[3] == DayFileName(d2);
    SameDayFileName(d1, d2);
    SameWeekFolderClose(d1, d2);
    if d1.year <= d2.year {
      SameDayYearsApart(d1, d2);
    } else {
      SameDayYearsApart(d2, d1);
    }
  }

  /** Two days with the same week folder are less than a week apart. */
  lemma SameWeekFolderClose(d1: CalDate, d2: CalDate)
    requires WeekFolderOf(d1) == WeekFolderOf(d2)
    ensures -6 <= Ordinal(d1) - Ordinal(d2) <= 6
  {
    var i1, i2 := IsoCalendar(d1), IsoCalendar(d2);
    IsoCalendarCorrect(d1);
    IsoCalendarCorrect(d2);
    WeekFolderInjective(i1.year, i1.week, i2.year, i2.week);
    SameIsoWeekClose(Ordinal(d1), Ordinal(d2), i1, i2);
  }

  lemma SameDayFileName(d1: CalDate, d2: CalDate)
    requires DayFileName(d1) == DayFileName(d2)
    ensures d1.month == d2.month && d1.day == d2.day
  {
    var n := DayFileName(d1);
    assert Pad2(d1.month) == n[..2] == Pad2(d2.month);
    assert Pad2(d1.day) == n[3..5] == Pad2(d2.day);
  }
}
