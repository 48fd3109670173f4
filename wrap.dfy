/**
 * The end-of-day script's core: reading the repository state
 * (`check_git_status`), the commit-type heuristic
 * (`suggest_commit_message`), the memo lines of the day
 * (`collect_memos`) and the two task scans (`scan_completed_tasks`,
 * `scan_in_progress_tasks`).
 */
module Wrap {
  import opened Options
  import opened Text
  import opened Dates
  import opened Yaml
  import opened FrontMatter
  import opened Git
  import opened Layout
  import opened DiffStat
  import opened Markdown
  import Standup

  // ---------------------------------------------------------------- check_git_status

  /** The `result` dict of `check_git_status`. */
  datatype GitStatus = GitStatus(branch: string, uncommitted: seq<string>, unpushed: seq<string>,
                                 todayCommits: seq<string>, stats: Stats)

  /** The result before any command has run. */
  const Initial: GitStatus := GitStatus("unknown", [], [], [], NoStats)

  /** `out.strip().split("\n")` when the stripped output is not empty, and the empty list otherwise. */
  function LinesOf(out: string): seq<string> {
    if Strip(out) == "" then [] else SplitChar(Strip(out), '\n')
  }

  /** The lines are the stripped output split at each "\n" (none when it is blank): joined again, they give it back. */
  lemma LinesOfOutput(out: string)
    ensures LinesOf(out) == [] <==> Blank(out)
    ensures LinesOf(out) != [] ==> Join(LinesOf(out), "\n") == Strip(out)
    ensures forall k :: 0 <= k < |LinesOf(out)| ==> '\n' !in LinesOf(out)[k]
  {
    StripEmptyIff(out);
    if Strip(out) != "" {
      JoinSplit(Strip(out), '\n');
      assert "\n" == ['\n'];
    }
  }

  /** The lines a command listed, or none when it did not complete. */
  function ListedBy(o: Outcome): seq<string> {
    if o.Completed? then LinesOf(o.stdout) else []
  }

  /**
   * The `k`-th command `check_git_status` runs; the unpushed log names the
   * branch just read, the last two look back to midnight of `today`.
   */
  function StatusStep(run: Runner, today: CalDate, k: nat): Command
    requires k < 5
  {
    match k
    case 0 => ShowBranch
    case 1 => StatusPorcelain
    case 2 => Unpushed(Standup.Output(run(ShowBranch)))
    case 3 => CommitsSince(FormatIso(today))
    case 4 => DiffStatSince(FormatIso(today))
  }

  /**
   * `check_git_status`. The first `steps` commands of `StatusStep` run, in
   * order, until one raises (the `except` clause keeps what was read so
   * far); each list is the command's stripped output split at each "\n"
   * (no lines when it is blank), and the stats are what the `--stat`
   * output yields. The branch is "unknown" only when the first command
   * raised.
   */
  method CheckGitStatus(run: Runner, today: CalDate) returns (r: GitStatus, steps: nat)
    ensures 1 <= steps <= 5
    ensures forall k :: 0 <= k < steps - 1 ==> run(StatusStep(run, today, k)).Completed?
    ensures steps < 5 ==> !run(StatusStep(run, today, steps - 1)).Completed?
    ensures r.branch == if run(ShowBranch).Completed? then Strip(run(ShowBranch).stdout) else "unknown"
    ensures r.uncommitted == if steps >= 2 then ListedBy(run(StatusPorcelain)) else []
    ensures r.unpushed == if steps >= 3 then ListedBy(run(StatusStep(run, today, 2))) else []
    ensures r.todayCommits == if steps >= 4 then ListedBy(run(StatusStep(run, today, 3))) else []
    ensures r.stats == if steps == 5 && run(StatusStep(run, today, 4)).Completed?
                       then StatsOf(run(StatusStep(run, today, 4)).stdout) else NoStats
  {
    r := Initial;
    steps := 1;
    var branch := run(ShowBranch);
    if !branch.Completed? {
      return;
    }
    var name := Strip(branch.stdout);
    r := r.(branch := name);
    steps := 2;
    var status := run(StatusPorcelain);
    if !status.Completed? {
      return;
    }
    r := r.(uncommitted := ListedBy(status));
    var day := FormatIso(today);
    steps := 3;
    var unpushed := run(Unpushed(name));
    if !unpushed.Completed? {
      return;
    }
    r := r.(unpushed := ListedBy(unpushed));
    steps := 4;
    var commits := run(CommitsSince(day));
    if !commits.Completed? {
      return;
    }
    r := r.(todayCommits := ListedBy(commits));
    steps := 5;
    var diffStat := run(DiffStatSince(day));
    if !diffStat.Completed? {
      return;
    }
    var stats := ParseStats(diffStat.stdout);
    r := r.(stats := stats);
  }

  // ---------------------------------------------------------------- suggest_commit_message

  /** The commit type read from the lower-cased `--stat` text: the first keyword that occurs wins. */
  function CommitType(files: string): string {
    if Contains(files, "test") then "test: add/update tests"
    else if Contains(files, "readme") || Contains(files, "doc") then "docs: update documentation"
    else if Contains(files, "fix") then "fix: bug fixes"
    else "feat: implement changes"
  }

  /**
   * `suggest_commit_message`: the staged diff stat, or the unstaged one
   * when the staged one is blank; None when both are blank or a command
   * raised.
   */
  function SuggestCommitMessage(run: Runner): Option<string> {
    var staged := run(DiffCachedStat);
    if !staged.Completed? then None
    else
      var diff := if Strip(staged.stdout) == "" then run(DiffStat) else staged;
      if !diff.Completed? || Strip(diff.stdout) == "" then None
      else Some(CommitType(Lower(diff.stdout)))
  }

  /** When no suggestion comes, and which diff a suggestion is read from. */
  lemma SuggestionSource(run: Runner)
    ensures SuggestCommitMessage(run).None? <==>
      !run(DiffCachedStat).Completed?
      || (Blank(run(DiffCachedStat).stdout) && (!run(DiffStat).Completed? || Blank(run(DiffStat).stdout)))
  {
    var staged := run(DiffCachedStat);
    if staged.Completed? {
      StripEmptyIff(staged.stdout);
      if Blank(staged.stdout) && run(DiffStat).Completed? {
        StripEmptyIff(run(DiffStat).stdout);
      }
    }
  }

  /** A staged change is described from the staged diff, whatever the working tree holds. */
  lemma SuggestStagedFirst(run: Runner)
    requires run(DiffCachedStat).Completed? && !Blank(run(DiffCachedStat).stdout)
    ensures SuggestCommitMessage(run) == Some(CommitType(Lower(run(DiffCachedStat).stdout)))
  {
    StripEmptyIff(run(DiffCachedStat).stdout);
  }

  /** With nothing staged, the unstaged diff is described. */
  lemma SuggestUnstaged(run: Runner)
    requires run(DiffCachedStat).Completed? && Blank(run(DiffCachedStat).stdout)
    requires run(DiffStat).Completed? && !Blank(run(DiffStat).stdout)
    ensures SuggestCommitMessage(run) == Some(CommitType(Lower(run(DiffStat).stdout)))
  {
    StripEmptyIff(run(DiffCachedStat).stdout);
    StripEmptyIff(run(DiffStat).stdout);
  }

  /** The keywords in priority order: each message is chosen exactly when its keyword is the first present. */
  lemma CommitTypePriority(files: string)
    ensures CommitType(files) == "test: add/update tests" <==> Contains(files, "test")
    ensures CommitType(files) == "docs: update documentation" <==>
      !Contains(files, "test") && (Contains(files, "readme") || Contains(files, "doc"))
    ensures CommitType(files) == "fix: bug fixes" <==>
      !Contains(files, "test") && !Contains(files, "readme") && !Contains(files, "doc") && Contains(files, "fix")
    ensures CommitType(files) == "feat: implement changes" <==>
      !Contains(files, "test") && !Contains(files, "readme") && !Contains(files, "doc") && !Contains(files, "fix")
  {
  }

  /** The keywords match whatever their case in the diff stat ("Test", "README", "FIX"). */
  lemma KeywordAnyCase(s: string, w: string)
    requires Contains(s, w)
    ensures Contains(Lower(s), Lower(w))
  {
    ContainsIff(s, w);
    var k :| At(s, w, k);
    assert Lower(s)[k..k + |w|] == Lower(w) by {
      forall j | 0 <= j < |w| ensures Lower(s)[k..k + |w|][j] == Lower(w)[j] {
        assert s[k..k + |w|][j] == w[j];
      }
    }
    ContainsAt(Lower(s), Lower(w), k);
  }

  // ---------------------------------------------------------------- collect_memos

  /** The memo of each line that starts with "- ", without those two characters, in order. */
  function MemoEntries(lines: seq<string>): seq<string> {
    if |lines| == 0 then []
    else
      var line := lines[|lines| - 1];
      MemoEntries(lines[..|lines| - 1]) + (if StartsWith(line, "- ") then [line[2..]] else [])
  }

  /**
   * `collect_memos`: the memo file of the day is read through `read`
   * (None when it does not exist or cannot be read).
   */
  method CollectMemos(c: Config, today: CalDate, read: seq<string> -> Option<string>) returns (memos: seq<string>)
    ensures memos == match read(MemoPath(c, today))
                     case None => []
                     case Some(content) => MemoEntries(SplitChar(content, '\n'))
  {
    memos := [];
    var content := read(MemoPath(c, today));
    if content.None? {
      return;
    }
    var lines := SplitChar(content.value, '\n');
    var i := 0;
    while i < |lines|
      invariant 0 <= i <= |lines|
      invariant memos == MemoEntries(lines[..i])
    {
      assert lines[..i + 1][..i] == lines[..i];
      if StartsWith(lines[i], "- ") {
        memos := memos + [lines[i][2..]];
      }
      i := i + 1;
    }
    assert lines[..|lines|] == lines;
  }

  /** Writing memos as a bullet list, one per line, and collecting them gives them back. */
  lemma MemosRoundTrip(memos: seq<string>)
    requires forall k :: 0 <= k < |memos| ==> '\n' !in memos[k]
    ensures MemoEntries(SplitChar(Join(Bullets(memos), "\n"), '\n')) == memos
  {
    if |memos| == 0 {
      NoMemos();
    } else {
      SplitBullets(memos);
      BulletEntries(memos);
    }
  }

  lemma NoMemos()
    ensures MemoEntries(SplitChar(Join(Bullets([]), "\n"), '\n')) == []
  {
    assert SplitChar("", '\n') == [""];
    assert MemoEntries([""]) == [] by { assert [""][..0] == []; }
  }

  /** A bullet list of one-line memos splits back into its lines. */
  lemma SplitBullets(memos: seq<string>)
    requires |memos| > 0
    requires forall k :: 0 <= k < |memos| ==> '\n' !in memos[k]
    ensures SplitChar(Join(Bullets(memos), "\n"), '\n') == Bullets(memos)
  {
    var lines := Bullets(memos);
    forall k | 0 <= k < |lines| ensures '\n' !in lines[k] {
      assert lines[k] == "- " + memos[k];
    }
    SplitJoin(lines, '\n');
    assert "\n" == ['\n'];
  }

  lemma {:induction false} BulletEntries(memos: seq<string>)
    ensures MemoEntries(Bullets(memos)) == memos
    decreases |memos|
  {
    if |memos| > 0 {
      var init, last := memos[..|memos| - 1], memos[|memos| - 1];
      BulletEntries(init);
      var b := Bullets(memos);
      assert b[..|b| - 1] == Bullets(init);
      assert StartsWith(b[|b| - 1], "- ") && b[|b| - 1][2..] == last;
      assert init + [last] == memos;
    }
  }

  /** Every memo comes from a bullet line of the file. */
  lemma {:induction false} MemosFromBullets(lines: seq<string>)
    ensures |MemoEntries(lines)| <= |lines|
    ensures forall m :: m in MemoEntries(lines) ==> "- " + m in lines
    decreases |lines|
  {
    if |lines| > 0 {
      var init, line := lines[..|lines| - 1], lines[|lines| - 1];
      MemosFromBullets(init);
      assert lines == init + [line];
      if StartsWith(line, "- ") {
        assert line == "- " + line[2..];
      }
    }
  }

  // ---------------------------------------------------------------- the end-of-day scans

  /** The front matter of a listed file that is not a `README.md`. */
  function Fields(doc: Doc, load: Loader): Option<Meta> {
    if doc.name == "README.md" then None else DocMetadata(doc, load)
  }

  /**
   * The day a truthy `updated` value stands for: a date as it is, the date
   * of a timestamp, and what `strptime(value, "%Y-%m-%d")` reads from a
   * string (None where it raises, which drops the file). Any other value
   * never equals a date.
   */
  function UpdatedOn(v: Value): (r: Option<CalDate>)
    ensures r.Some? ==> v.Day? || v.Moment? || v.Text?
  {
    match v
    case Day(d) => Some(d)
    case Moment(d, _) => Some(d)
    case Text(s) => ParseIsoDate(s)
    case Null => None
    case Boolean(_) => None
    case Integer(_) => None
    case Opaque(_, _) => None
  }

  /** An `updated` written as `str(date)`, as a YAML date or as a timestamp resolves to that day. */
  lemma UpdatedOnIso(d: CalDate, clock: string)
    ensures UpdatedOn(Text(FormatIso(d))) == Some(d)
    ensures UpdatedOn(Day(d)) == Some(d) && UpdatedOn(Moment(d, clock)) == Some(d)
  {
    ParseFormatRoundTrip(d);
  }

  /** `updated` resolves the same way as the start-of-day `_parse_date`, except for the opaque values. */
  lemma UpdatedOnAgrees(v: Value)
    requires Truthy(v) && !v.Opaque?
    ensures UpdatedOn(v) == Standup.ParseDate(v)
  {
  }

  /** The test of `scan_completed_tasks`: done, and updated on `today`. */
  predicate CompletedOn(m: Meta, today: CalDate) {
    Is(m, "status", "done") && Truthy(Get(m, "updated", Null)) && UpdatedOn(Get(m, "updated", Null)) == Some(today)
  }

  /** The test of `scan_in_progress_tasks`. */
  predicate InProgress(m: Meta) {
    Is(m, "status", "in-progress")
  }

  /** The metadata of the listed files that were completed on `today`, in listing order. */
  function CompletedIn(docs: seq<Doc>, load: Loader, today: CalDate): seq<Meta> {
    if |docs| == 0 then []
    else
      var f := Fields(docs[|docs| - 1], load);
      CompletedIn(docs[..|docs| - 1], load, today) + (if f.Some? && CompletedOn(f.value, today) then [f.value] else [])
  }

  /** The metadata of the listed files that are in progress, in listing order. */
  function InProgressIn(docs: seq<Doc>, load: Loader): seq<Meta> {
    if |docs| == 0 then []
    else
      var f := Fields(docs[|docs| - 1], load);
      InProgressIn(docs[..|docs| - 1], load) + (if f.Some? && InProgress(f.value) then [f.value] else [])
  }

  /** `scan_completed_tasks` over `<output>/<tasks>/active`; nothing when that directory is missing. */
  method ScanCompleted(c: Config, listing: Standup.Listing, load: Loader, today: CalDate) returns (completed: seq<Meta>)
    ensures completed == match listing(ActiveTasksPath(c))
                         case None => []
                         case Some(docs) => CompletedIn(docs, load, today)
  {
    completed := [];
    var found := listing(ActiveTasksPath(c));
    if found.None? {
      return;
    }
    var docs := found.value;
    var i := 0;
    while i < |docs|
      invariant 0 <= i <= |docs|
      invariant completed == CompletedIn(docs[..i], load, today)
    {
      var doc := docs[i];
      assert docs[..i + 1][..i] == docs[..i];
      if doc.name != "README.md" {
        var metadata := DocMetadata(doc, load);
        if metadata.Some? && Is(metadata.value, "status", "done") {
          var updated := Get(metadata.value, "updated", Null);
          if Truthy(updated) && UpdatedOn(updated) == Some(today) {
            completed := completed + [metadata.value];
          }
        }
      }
      i := i + 1;
    }
    assert docs[..|docs|] == docs;
  }

  /** `scan_in_progress_tasks` over `<output>/<tasks>/active`; nothing when that directory is missing. */
  method ScanInProgress(c: Config, listing: Standup.Listing, load: Loader) returns (inProgress: seq<Meta>)
    ensures inProgress == match listing(ActiveTasksPath(c))
                          case None => []
                          case Some(docs) => InProgressIn(docs, load)
  {
    inProgress := [];
    var found := listing(ActiveTasksPath(c));
    if found.None? {
      return;
    }
    var docs := found.value;
    var i := 0;
    while i < |docs|
      invariant 0 <= i <= |docs|
      invariant inProgress == InProgressIn(docs[..i], load)
    {
      var doc := docs[i];
      assert docs[..i + 1][..i] == docs[..i];
      if doc.name != "README.md" {
        var metadata := DocMetadata(doc, load);
        if metadata.Some? && Is(metadata.value, "status", "in-progress") {
          inProgress := inProgress + [metadata.value];
        }
      }
      i := i + 1;
    }
    assert docs[..|docs|] == docs;
  }

  /** A mapping is reported as completed exactly when a listed file carries it and it passes the test. */
  lemma {:induction false} CompletedInIff(docs: seq<Doc>, load: Loader, today: CalDate, m: Meta)
    ensures m in CompletedIn(docs, load, today) <==>
      exists k :: 0 <= k < |docs| && Fields(docs[k], load) == Some(m) && CompletedOn(m, today)
    decreases |docs|
  {
    if |docs| > 0 {
      var init := docs[..|docs| - 1];
      CompletedInIff(init, load, today, m);
      if exists k :: 0 <= k < |docs| && Fields(docs[k], load) == Some(m) && CompletedOn(m, today) {
        var k :| 0 <= k < |docs| && Fields(docs[k], load) == Some(m) && CompletedOn(m, today);
        if k < |docs| - 1 {
          assert docs[k] == init[k];
        }
      }
      if exists k :: 0 <= k < |init| && Fields(init[k], load) == Some(m) && CompletedOn(m, today) {
        var k :| 0 <= k < |init| && Fields(init[k], load) == Some(m) && CompletedOn(m, today);
        assert docs[k] == init[k];
      }
    }
  }

  /** A mapping is reported as in progress exactly when a listed file carries it with that status. */
  lemma {:induction false} InProgressInIff(docs: seq<Doc>, load: Loader, m: Meta)
    ensures m in InProgressIn(docs, load) <==>
      exists k :: 0 <= k < |docs| && Fields(docs[k], load) == Some(m) && InProgress(m)
    decreases |docs|
  {
    if |docs| > 0 {
      var init := docs[..|docs| - 1];
      InProgressInIff(init, load, m);
      if exists k :: 0 <= k < |docs| && Fields(docs[k], load) == Some(m) && InProgress(m) {
        var k :| 0 <= k < |docs| && Fields(docs[k], load) == Some(m) && InProgress(m);
        if k < |docs| - 1 {
          assert docs[k] == init[k];
        }
      }
      if exists k :: 0 <= k < |init| && Fields(init[k], load) == Some(m) && InProgress(m) {
        var k :| 0 <= k < |init| && Fields(init[k], load) == Some(m) && InProgress(m);
        assert docs[k] == init[k];
      }
    }
  }

  /** No task is reported both as completed and as in progress. */
  lemma ScansDisjoint(docs: seq<Doc>, load: Loader, today: CalDate, m: Meta)
    requires m in CompletedIn(docs, load, today)
    ensures m !in InProgressIn(docs, load)
  {
    CompletedInIff(docs, load, today, m);
    InProgressInIff(docs, load, m);
  }

  /**
   * Unlike the start-of-day scan, the end-of-day scans do not look at
   * `type`: an in-progress file that is not a task is reported here and
   * ignored there.
   */
  lemma InProgressIgnoresType(doc: Doc, load: Loader, m: Meta)
    requires doc.name != "README.md" && DocMetadata(doc, load) == Some(m)
    requires InProgress(m) && !Is(m, "type", "task")
    ensures InProgressIn([doc], load) == [m]
    ensures Standup.TasksIn([doc], load) == []
  {
    assert [doc][..0] == [];
    Standup.TasksInStep([doc], 0, load);
  }
}
