# Daily work-log scripts, modelled in Dafny

The repository ships two scripts around a Markdown task workspace.

- `scripts/standup.py` runs at the start of the day. It syncs the git checkout, scans the configured task directories, and parses each task file's YAML front matter. It sorts every pending task into one of five buckets: due today, in progress, overdue, this week, long-term. Finally it renders `today.md` into the ISO week folder `<isoyear>-W<ww>`.
- `scripts/wrap.py` runs at the end of the day. It reads the repository state, which covers:
  - the branch;
  - uncommitted files;
  - unpushed commits;
  - today's commits;
  - the `git diff --stat` summary.

  It also proposes a commit type, collects the day's memo lines, and scans the active tasks for those completed today and those in progress. It then renders the work log `MM-DD.md` into the same week folder.

The model covers the decision logic of both scripts, the parsing and the renderers. Effects become parameters:

- git is a `Runner` that maps each command to its outcome: completed with its stdout, timed out, or raised;
- the YAML loader is a `Loader`;
- the directory listing is a `Listing`;
- the memo file read is a function;
- the weekday name and the footer stamp are strings.

The modules follow the scripts' structure:

- `Text`: the pieces of Python's `str` that the scripts use, with Python's semantics. These are `strip`, `split` with and without a limit, `join`, `in`, `startswith`, `lower`, `isdigit` and `str()` of integers.
- `Dates`: `datetime.date` for years 1 to 9999. This covers `toordinal`, comparison, `str()`, `strptime(s, "%Y-%m-%d")` and `isocalendar()`. `isocalendar()` is proved to compute the week date of section 4.1.4 of ISO 8601:2004.
- `Yaml`: what the loader can return. This covers `dict.get`, truthiness and `str()`.
- `FrontMatter`: the `---` fence test and `split("---", 2)`.
- `Git`: the commands and their outcomes.
- `Layout`: the configuration defaults and the paths of the reports, the memo file and the active tasks.
- `Standup`: the start-of-day core:
  - `sync_git`;
  - `_parse_task` and `_parse_date`;
  - `_categorize_task`, as the class `Categories` whose bucket lists grow in place;
  - `scan_tasks`.
- `TodayReport`: `generate_today_md`.
- `Wrap`: the end-of-day core:
  - `check_git_status`, with the stats parser in `DiffStat`;
  - `suggest_commit_message`;
  - `collect_memos`;
  - the two task scans.
- `Worklog`: `generate_worklog`.
- `Markdown`: the pieces the two renderers share. These are optional sections, bullet lists, the footer, and the `Headings` view that the structural lemmas use.

Methods mirror the scripts' loops and step-by-step updates. Each is proved against a specification function, and the lemmas state the scripts' promises about those functions.

Where the code and the written design disagree, the model follows the code:

- `_parse_date` has a branch that returns any value with a `date` attribute unchanged (`scripts/standup.py:230-231`). No value the YAML loader produces reaches it: a `datetime` is caught just before, and a `date` has no such attribute. So a YAML date goes through `strptime(str(d))`, and `Dates.ParseFormatRoundTrip` proves that this gives back `d`.

## Model

| member | source | states |
|---|---|---|
| Text.LStrip | scripts/standup.py:78 | the result is the suffix left after dropping only whitespace, and it does not start with whitespace |
| Text.RStrip | scripts/standup.py:78 | the result is the prefix left after dropping only trailing whitespace, and it does not end with whitespace |
| Text.StripEmptyIff | scripts/standup.py:92 | `s.strip()` is empty exactly when `s` is all whitespace, which is the test `if status.stdout.strip()` |
| Text.StripIsSlice | scripts/wrap.py:77 | the stripped output is a contiguous piece of the output |
| Text.IndexOf | scripts/wrap.py:119 | the result is the first occurrence, with no occurrence before it, and None exactly when there is none |
| Text.ContainsIff | scripts/wrap.py:119 | `pat in s` holds exactly when `pat` occurs at some position of `s` |
| Text.SplitChar | scripts/wrap.py:87 | `split("\n")` gives at least one piece, and no piece holds the separator |
| Text.JoinSplit | scripts/wrap.py:87 | joining the pieces of a split with the separator gives back the text |
| Text.SplitJoin | scripts/wrap.py:87 | splitting a join of separator-free pieces gives back the pieces |
| Text.SplitAtFirst | scripts/wrap.py:188 | a split cuts at the first separator and splits the rest |
| Text.SplitMax | scripts/standup.py:174 | `split("---", 2)` gives between one and three parts |
| Text.Lower | scripts/wrap.py:162 | `lower()` keeps the length, leaves no upper-case letter, keeps every other character and moves each upper-case letter to its lower-case partner |
| Text.LowerIdempotent | scripts/wrap.py:162 | lower-casing twice changes nothing more |
| Text.Digits | scripts/wrap.py:123-125 | `filter(str.isdigit, part)` keeps only digits and never lengthens the part |
| Text.DigitsAppend | scripts/wrap.py:123-125 | the digits of a concatenation are the digits of each piece, concatenated |
| Text.DigitsOfDigits | scripts/wrap.py:123-125 | a string of digits is its own digit filter |
| Text.NatToString | scripts/wrap.py:283-285 | `str(n)` is a non-empty string of digits |
| Text.NatToStringRoundTrip | scripts/wrap.py:283-285 | `int(str(n)) == n` |
| Text.NatToStringInjective | scripts/standup.py:275 | different counts print differently |
| Text.Pad2 | scripts/wrap.py:345 | `f"{n:02d}"` is two digits that read back as `n` |
| Text.Pad4 | scripts/standup.py:242 | `%Y` is four digits that read back as the year |
| Dates.OrdinalOrder | scripts/standup.py:210-218 | the day count orders dates as Python's date comparison does, and equal counts mean equal dates, so `today + timedelta(days=7)` is the count plus 7 |
| Dates.DaysBeforeYearGrows | scripts/standup.py:216 | every year adds at least 365 days to the count |
| Dates.DayOfYearBounds | scripts/standup.py:210-218 | a date's count lies within its year's span |
| Dates.ParseIsoDate | scripts/standup.py:233 | a string `strptime(s, "%Y-%m-%d")` accepts is at least eight characters long with '-' at index 4 |
| Dates.ParseSound | scripts/standup.py:232-235 | conversely to `ParseFields`, an accepted string is four digits, '-', a month field, '-' and a day field, and the date is the year, month and day they read; anything else gives None |
| Dates.ParseFields | scripts/standup.py:233 | `strptime` accepts any year, month field and day field that name an existing day |
| Dates.ParseFormatRoundTrip | scripts/standup.py:228-233 | `strptime(str(d), "%Y-%m-%d")` gives back `d` |
| Dates.ParseUnpadded | scripts/standup.py:233 | unpadded months and days are accepted ("2024-6-1") |
| Dates.ParseBlankDay | scripts/standup.py:233 | a blank before a one-digit day is accepted ("2024-06- 5") |
| Dates.ParseNoSuchDay | scripts/standup.py:233-235 | a day the month does not have is refused (None, not an exception) |
| Dates.Week1MondayAfter | scripts/standup.py:297 | the Monday of ISO week 1 is a Monday, at most 2 days before and 4 days after the year's start |
| Dates.IsoWeekDateUnique | scripts/standup.py:297 | a day has at most one ISO week date |
| Dates.IsoOfDayCorrect | scripts/standup.py:297 | Python's `isocalendar` steps put a day in the year and week of its Thursday |
| Dates.IsoCalendarCorrect | scripts/standup.py:297 | `isocalendar()` is the ISO 8601 week date, with week 1..53 and ISO year within one of the calendar year |
| Dates.WeekRange | scripts/wrap.py:341-342 | any ISO week date has a week number from 1 to 53, so `{week:02d}` is two digits |
| Dates.IsoYearEnd | scripts/wrap.py:341 | 2024-12-30 is in week 1 of ISO year 2025 |
| Dates.IsoYearStart | scripts/wrap.py:341 | 2021-01-03 is the Sunday of week 53 of ISO year 2020 |
| FrontMatter.Block | scripts/standup.py:171-176 | a block is found only in content that starts with `---` |
| FrontMatter.BlockSound | scripts/standup.py:174-178 | the block found is exactly the text between the opening fence and the next `---` |
| FrontMatter.BlockComplete | scripts/standup.py:171-178 | conversely, a block without `---` in it, framed by fences, is found whatever follows |
| FrontMatter.MetadataOfFile | scripts/wrap.py:210-219 | a file made of a fenced block `y` that holds no `---`, followed by anything, has the mapping the loader returns for `y` as its metadata when that mapping is non-empty, and none otherwise |
| FrontMatter.Metadata | scripts/standup.py:171-179 | the metadata is never an empty mapping (`if not metadata`), and a file that does not open with `---` has none |
| Layout.SettingsIndependent | scripts/wrap.py:31-34 | setting one of the four directory keys changes only its own field of the configuration, and any other key changes none |
| Layout.DefaultConfig | scripts/standup.py:31-33 | with no configuration the directories are `.worklogs`, `tasks`, `worklogs`, `memos`, and nothing is scanned |
| Layout.WeekFolder | scripts/standup.py:298 | `f"{year}-W{week:02d}"` is four characters longer than the year |
| Layout.WeekFolderInjective | scripts/standup.py:298 | the folder name determines the ISO year and week |
| Layout.ReportsShareFolder | scripts/standup.py:297-301 | a day's `today.md` and its `MM-DD.md` share the week folder and are different files |
| Layout.TodayNeverWorklog | scripts/wrap.py:341-346 | no start-of-day report path is ever the work log path of any day |
| Layout.WorklogPathInjective | scripts/wrap.py:341-346 | two different days never write the same work log |
| Layout.SameWeekFolderClose | scripts/wrap.py:341-342 | two days with the same week folder are less than a week apart |
| Layout.SameDayFileName | scripts/wrap.py:345-346 | days with the same file name share month and day |
| Standup.SyncGit | scripts/standup.py:59-139 | skipping issues only `git branch` and succeeds with "Git sync skipped" and the branch or "unknown". A dirty tree stops at the status command. A failed command stops the sequence with its message. Success means all five commands completed, reporting "Sync completed". A clean tree on which every command completes always succeeds, and a sync that stops early stops at a failed command or a dirty tree |
| Standup.FullSync | scripts/standup.py:83-137 | the commands issued are the first `SyncLength(run)` of the plan and the result is `SyncOutcome(run)`: the run stops after the first failed command or a dirty status |
| Standup.SyncIssued | scripts/standup.py:83-120 | commands follow the plan status, fetch, branch, pull of that branch, log; every command before the last completed; fetch is issued only on a clean tree |
| Standup.SyncStops | scripts/standup.py:84-137 | a dirty tree stops at the status command with the "uncommitted changes" message; a failed last command yields its timeout or error message; a sync that stops early stops at one of the two |
| Standup.SyncSucceeds | scripts/standup.py:114-137 | success holds exactly when all five commands completed, then reporting the stripped branch and latest commit; a clean tree on which every command completes succeeds |
| Standup.SyncFacts | scripts/standup.py:83-137 | the sync the two specification functions describe has all the properties above together |
| Standup.ParseTask | scripts/standup.py:167-186 | a task exactly when the file reads, has a fenced block, loads to a non-empty mapping and has `type == "task"`; the result is that mapping plus `_file`, so it has `type: task` and its `_file` is the path; an unreadable file or one not opening with `---` is never a task |
| Standup.ParseTaskOfFile | scripts/standup.py:170-183 | a fenced file whose block loads to `m` is a task exactly when `m` is non-empty with `type: task` |
| Standup.ParseDate | scripts/standup.py:224-235 | falsy values give None. Dates and timestamps give their day. Strings give what `strptime` reads. Numbers and booleans give None |
| Standup.NoDateInNumber | scripts/standup.py:232-235 | `str()` of an integer is never read as a date |
| Standup.ClassifyByStatus | scripts/standup.py:192-203 | a task gets no bucket exactly when its status is "done"; "in-progress" goes to In Progress whatever the dates |
| Standup.ClassifyByDueDate | scripts/standup.py:209-219 | with a due date: due today iff due == today; overdue iff due < today; upcoming when due is within 7 days; otherwise the expected date decides between upcoming and long-term |
| Standup.ClassifyByExpectedDate | scripts/standup.py:218-222 | without a due date a task is upcoming iff its expected date is at most 7 days ahead (past ones included), else long-term |
| Standup.ExampleDueToday | scripts/standup.py:210-211 | due on today's date goes to Today |
| Standup.ExampleOverdue | scripts/standup.py:213-214 | due five days ago is overdue |
| Standup.ExampleDueThisWeek | scripts/standup.py:216-217 | due in five days is upcoming |
| Standup.ExampleExpectedThisWeek | scripts/standup.py:218-219 | expected in six days is upcoming |
| Standup.ExampleExpectedLater | scripts/standup.py:218-222 | expected in fifteen days is long-term |
| Standup.ExampleDueBeatsExpected | scripts/standup.py:209-219 | an overdue due date wins over an expected date this week |
| Standup.InBucketAppend | scripts/standup.py:153-164 | a bucket's tasks from two successive runs are the first run's followed by the second's |
| Standup.BucketGrows | scripts/standup.py:153-164 | a bucket holding its share of the tasks seen so far that takes its share of the next ones holds its share of both |
| Standup.BucketsPartitionPending | scripts/standup.py:188-222 | the five buckets together hold every non-done task exactly once |
| Standup.Categories.constructor | scripts/standup.py:143-149 | all five buckets start empty |
| Standup.Categories.Add | scripts/standup.py:202 | appends the task to bucket `k` and leaves the other buckets unchanged |
| Standup.Categories.Categorize | scripts/standup.py:188-222 | appends the task to the bucket `Classify` chooses and to no other; a done task changes nothing |
| Standup.TasksInAreTasks | scripts/standup.py:179-183 | every task the scan keeps has `type: task` and a `_file` entry |
| Standup.ScanDocs | scripts/standup.py:158-164 | each bucket gains the directory's tasks of that bucket, in listing order |
| Standup.ScanDir | scripts/standup.py:154-164 | a missing directory changes no bucket; an existing one adds its tasks of each bucket, in listing order |
| Standup.ScanDoc | scripts/standup.py:159-164 | a `README.md` or a non-task file changes nothing; a task is categorised |
| Standup.ScanTasks | scripts/standup.py:141-165 | each bucket holds the tasks of that bucket from the existing configured directories, in scan order; missing directories add nothing |
| DiffStat.ParseStats | scripts/wrap.py:117-133 | the loop computes `StatsOf` of the output |
| DiffStat.DiffStatRoundTrip | scripts/wrap.py:118-133 | for `--stat` output of per-file lines followed by git's summary line, the parsed stats are the summarised counts, including the variants without insertions or deletions |
| DiffStat.LastSummaryCounts | scripts/wrap.py:119 | lines that do not say "changed" leave the stats alone; only the summary line counts |
| DiffStat.OnlySummariesCount | scripts/wrap.py:119 | a run of lines without "changed" leaves the stats unchanged |
| DiffStat.EmptyLineIgnored | scripts/wrap.py:119 | the empty line after the final newline changes nothing |
| DiffStat.SummaryCounts | scripts/wrap.py:120-133 | a summary line sets each of files, insertions and deletions from its own part, testing "file" before the others |
| DiffStat.PartCount | scripts/wrap.py:123-125 | a part's count is its number when its words hold no digit |
| DiffStat.NoDigits | scripts/wrap.py:124 | a part without digits contributes the empty string, so `int("" or 0)` is 0 |
| Wrap.LinesOfOutput | scripts/wrap.py:86-108 | the list is empty exactly when the output is blank; otherwise its lines joined by "\n" give the stripped output, one line per element |
| Wrap.CheckGitStatus | scripts/wrap.py:59-138 | the five commands run in order until one raises. The branch is "unknown" only if the first raised. Each list holds the lines of the command's stripped output (none when that is blank), or is empty if the command did not run. Stats are parsed from the `--stat` output |
| Wrap.SuggestionSource | scripts/wrap.py:142-159 | no suggestion exactly when the staged diff raised, or it is blank and the unstaged one raised or is blank |
| Wrap.SuggestStagedFirst | scripts/wrap.py:143-150 | a non-blank staged diff is the one described |
| Wrap.SuggestUnstaged | scripts/wrap.py:150-158 | with nothing staged, a non-blank unstaged diff is described |
| Wrap.CommitTypePriority | scripts/wrap.py:161-170 | each message is chosen exactly when its keyword is the first present in the order test, readme/doc, fix, else feat |
| Wrap.KeywordAnyCase | scripts/wrap.py:162 | a keyword in any case in the diff stat is found after lower-casing |
| Wrap.CollectMemos | scripts/wrap.py:175-194 | without a readable memo file no memos; otherwise the lines starting with "- ", without those two characters, in file order |
| Wrap.MemosRoundTrip | scripts/wrap.py:188-190 | memos written as a bullet list, one per line, are collected back unchanged |
| Wrap.BulletEntries | scripts/wrap.py:188-190 | the memo entries of bullet lines are the bullets' texts |
| Wrap.MemosFromBullets | scripts/wrap.py:188-190 | every memo comes from a "- " line of the file, and there are no more memos than lines |
| Wrap.UpdatedOn | scripts/wrap.py:222-229 | only a date, a timestamp or a string can name the day a file was updated |
| Wrap.UpdatedOnIso | scripts/wrap.py:222-229 | a date written `YYYY-MM-DD`, a YAML date and a timestamp of that day all give that day as `updated` |
| Wrap.UpdatedOnAgrees | scripts/wrap.py:222-227 | for truthy non-opaque values, `updated` resolves as the start-of-day `_parse_date` would |
| Wrap.ScanCompleted | scripts/wrap.py:196-235 | the loop returns the metadata of listed non-README files that are done and updated today, in order; nothing without the directory |
| Wrap.ScanInProgress | scripts/wrap.py:237-265 | the loop returns the metadata of listed non-README files whose status is "in-progress", in order; nothing without the directory |
| Wrap.CompletedInIff | scripts/wrap.py:204-230 | a mapping is reported as completed exactly when a listed file carries it and it is done and updated today |
| Wrap.InProgressInIff | scripts/wrap.py:245-260 | a mapping is reported as in progress exactly when a listed file carries it with that status |
| Wrap.ScansDisjoint | scripts/wrap.py:221-260 | no task is reported both completed and in progress |
| Wrap.InProgressIgnoresType | scripts/wrap.py:259-260 | the end-of-day scan reports an in-progress file that is not a task, which the start-of-day scan drops |
| Markdown.HeadingsAppend | scripts/standup.py:244-291 | the headings of a document are those of its parts, in order |
| Markdown.NoHeadings | scripts/wrap.py:330-335 | lines none of which is a heading contribute no heading |
| Markdown.SectionHeadings | scripts/wrap.py:290-297 | a section of list items shows its heading, and only it, exactly when it has items |
| Markdown.Bullets | scripts/wrap.py:295-296 | one line `"- " + item` per item, in order |
| Markdown.Rendered | scripts/standup.py:278-284 | one line per task, in order |
| TodayReport.GenerateTodayMd | scripts/standup.py:237-293 | the content is the `TodayLines` document joined with "\n" |
| TodayReport.AppendSection | scripts/standup.py:271-285 | one turn of the section loop appends the bucket's section, which is nothing for an empty bucket |
| TodayReport.TodayHeadings | scripts/standup.py:244-291 | the headings are Git Status, then each non-empty bucket's heading with its count, in the fixed section order |
| TodayReport.SectionsHeadings | scripts/standup.py:271-285 | the section loop's headings are those of the non-empty buckets |
| TodayReport.TodaySection | scripts/standup.py:272-277 | a bucket's heading with count `n` appears exactly when the bucket is non-empty and `n` is its length |
| TodayReport.ShownIff | scripts/standup.py:263-277 | with distinct section titles, a heading with count `n` is shown iff its bucket is non-empty with `n` tasks |
| TodayReport.ShownAvoids | scripts/standup.py:263-269 | no shown heading starts like the Git Status heading |
| TodayReport.SectionsDistinct | scripts/standup.py:263-269 | the five titles start with different emoji, none of them the Git Status one |
| TodayReport.HeaderHeadings | scripts/standup.py:244-249 | the header holds the Git Status heading only |
| TodayReport.GitLinesHaveNoHeadings | scripts/standup.py:252-258 | the branch/latest or warning lines hold no heading |
| TodayReport.TaskLinesAreItems | scripts/standup.py:284 | every task line is a list item |
| TodayReport.SectionHeadingInjective | scripts/standup.py:275 | a heading shows one count only |
| TodayReport.TaskLineDefaults | scripts/standup.py:279-284 | a task with no fields is `- <icon> [???] Untitled - P2` |
| TodayReport.TaskLineAssignee | scripts/standup.py:282-284 | a truthy assignee only appends " @<assignee>"; a falsy one leaves the line as if it were missing |
| Worklog.GenerateWorklog | scripts/wrap.py:267-337 | the content is the `WorklogLines` document joined with "\n" |
| Worklog.AppendBullets | scripts/wrap.py:289-297 | appends the Commits or Notes section, nothing when the list is empty |
| Worklog.AppendTasks | scripts/wrap.py:299-319 | appends the Completed or In Progress section, nothing when the list is empty |
| Worklog.WorklogHeadings | scripts/wrap.py:278-337 | the headings are Stats, then Commits, Completed, In Progress and Notes, in that order, each exactly when its list is non-empty |
| Worklog.TopHeadings | scripts/wrap.py:278-287 | the header and Stats block hold the Stats heading only |
| Worklog.QuietDay | scripts/wrap.py:278-337 | with no commits, tasks or memos the log is exactly the header, the Stats block with "Commits: 0", and the footer |
| Worklog.TaskEntryDefaults | scripts/wrap.py:306 | a task without id or title is listed as "- [None] None" |
| Worklog.ProgressSuffix | scripts/wrap.py:316-318 | a truthy progress only appends " (<progress>%)"; a missing or falsy one leaves the Completed-style line |

## Left out

- Console output, `argparse`, and the `run()` and `main` functions: they only print what the modelled functions return.
- `_load_config`: the probing of five locations and the file read are left out. Configuration is a map with the documented defaults, given to `Layout.ConfigOf`.
- `subprocess.run` and git itself: each command's outcome is given by a `Runner`.
  - Git's own output format is taken as given.
  - `DiffStat.DiffStatRoundTrip` assumes the usual `--stat` layout.
- `yaml.safe_load`: it is a `Loader` that returns a mapping or None. Floats, lists and nested mappings are opaque values with their `str()` text and truthiness.
- `rglob` and `read_text`: the listing is given as a sequence of documents in discovery order, and a failed read is a document without content.
- `mkdir` and the file writes of `save_today_md` and `save_worklog`: only the computed paths are modelled (`Layout.TodayPath`, `Layout.WorklogPath`). `Path` joining is a list of components.
- `datetime.now()` and `strftime("%A")`: the footer stamp and the weekday name are parameters, and `today` is an input.
- Unicode:
  - `str.isdigit`, `\d` in `strptime` and `str.lower` are modelled on ASCII (`str.isspace` covers the Unicode whitespace characters);
  - non-ASCII digits and case mappings are not covered.
- Text.SplitMax: states only the bound on the number of parts. `FrontMatter.BlockSound` and `FrontMatter.BlockComplete` state what the parts mean.
- Dates: `strftime("%Y")` for years before 1000 and the `OverflowError` of `today + timedelta(days=7)` near year 9999 are not modelled. Day counts are unbounded integers.
- Standup.ParseDate: the `hasattr(date_value, "date")` branch (`scripts/standup.py:230-231`) is unreachable for loader values and is not modelled.
- Wrap.CheckGitStatus: a timeout and any other exception are treated alike. Both end the `try` block there, and the printed warning is left out.
- TodayReport.TodayHeadings and Worklog.WorklogHeadings: they describe the lines `TodayLines` and `WorklogLines` build, before the join. A task `title` or `id` holding "\n" (a quoted YAML scalar can) would put further `## ` lines into the written file, as it would in the scripts. Commit lines and memos never hold "\n".
- Exceptions inside the two renderers are not modelled. The `result` dicts they receive always hold the keys they read.
