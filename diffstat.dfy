/**
 * The end-of-day stats: `check_git_status` reads the summary line of
 * `git diff --stat` (" 3 files changed, 10 insertions(+), 2 deletions(-)")
 * by looking at every line that mentions both "file" and "changed",
 * splitting it at commas and taking the digits of each part.
 */
module DiffStat {
  import opened Text

  /** `result["stats"]`. */
  datatype Stats = Stats(files: nat, insertions: nat, deletions: nat)

  /** The stats before any summary line is read. */
  const NoStats: Stats := Stats(0, 0, 0)

  /** `int("".join(filter(str.isdigit, part)) or 0)`. */
  function Count(part: string): nat {
    DigitsToNat(Digits(part))
  }

  /** One comma part: "file" is tested first, then "insertion", then "deletion". */
  function ApplyPart(s: Stats, part: string): Stats {
    if Contains(part, "file") then s.(files := Count(part))
    else if Contains(part, "insertion") then s.(insertions := Count(part))
    else if Contains(part, "deletion") then s.(deletions := Count(part))
    else s
  }

  /** The parts of a line, applied in order. */
  function ApplyParts(s: Stats, parts: seq<string>): Stats {
    if |parts| == 0 then s else ApplyPart(ApplyParts(s, parts[..|parts| - 1]), parts[|parts| - 1])
  }

  /** A line the parser looks at. */
  predicate IsSummary(line: string) {
    Contains(line, "file") && Contains(line, "changed")
  }

  function ApplyLine(s: Stats, line: string): Stats {
    if IsSummary(line) then ApplyParts(s, SplitChar(line, ',')) else s
  }

  function ApplyLines(s: Stats, lines: seq<string>): Stats {
    if |lines| == 0 then s else ApplyLine(ApplyLines(s, lines[..|lines| - 1]), lines[|lines| - 1])
  }

  /** The stats that `diff_stat.stdout` yields. */
  function StatsOf(out: string): Stats {
    ApplyLines(NoStats, SplitChar(out, '\n'))
  }

  /** The parsing loop of `check_git_status`, over `out.split("\n")` and each line's `split(",")`. */
  method ParseStats(out: string) returns (stats: Stats)
    ensures stats == StatsOf(out)
  {
    stats := NoStats;
    var lines := SplitChar(out, '\n');
    var i := 0;
    while i < |lines|
      invariant 0 <= i <= |lines|
      invariant stats == ApplyLines(NoStats, lines[..i])
    {
      var line := lines[i];
      assert lines[..i + 1][..i] == lines[..i];
      if Contains(line, "file") && Contains(line, "changed") {
        var parts := SplitChar(line, ',');
        ghost var before := stats;
        var j := 0;
        while j < |parts|
          invariant 0 <= j <= |parts|
          invariant stats == ApplyParts(before, parts[..j])
        {
          var part := parts[j];
          assert parts[..j + 1][..j] == parts[..j];
          if Contains(part, "file") {
            stats := stats.(files := Count(part));
          } else if Contains(part, "insertion") {
            stats := stats.(insertions := Count(part));
          } else if Contains(part, "deletion") {
            stats := stats.(deletions := Count(part));
          }
          j := j + 1;
        }
        assert parts[..|parts|] == parts;
      }
      i := i + 1;
    }
    assert lines[..|lines|] == lines;
  }

  // ---------------------------------------------------------------- git's summary line

  /**
   * The last line `git diff --stat` prints for a diff touching `f > 0`
   * files: the insertion count is left out when only deletions were made,
   * and the deletion count when only insertions were made. Git prints no
   * summary for an empty diff, so `f == 0` is never realised, though the
   * lemmas below hold for it too.
   */
  function SummaryLine(f: nat, i: nat, d: nat): string {
    Summary(f, i, d, FilesTail(f), InsertionsTail(i), DeletionsTail(d))
  }

  function Summary(f: nat, i: nat, d: nat, ft: string, it: string, dt: string): string {
    Part(f, ft)
    + (if i > 0 || d == 0 then "," + Part(i, it) else "")
    + (if d > 0 || i == 0 then "," + Part(d, dt) else "")
  }

  /** A count and the words after it. */
  function Part(n: nat, tail: string): string {
    " " + NatToString(n) + tail
  }

  function FilesTail(f: nat): string {
    if f == 1 then " file changed" else " files changed"
  }

  function InsertionsTail(i: nat): string {
    if i == 1 then " insertion(+)" else " insertions(+)"
  }

  function DeletionsTail(d: nat): string {
    if d == 1 then " deletion(-)" else " deletions(-)"
  }

  /**
   * Reading back the whole `--stat` output: per-file lines that do not say
   * "changed", then the summary line and the final newline, give exactly
   * the counts git summarised.
   */
  lemma DiffStatRoundTrip(fileLines: seq<string>, f: nat, i: nat, d: nat)
    requires forall k :: 0 <= k < |fileLines| ==> '\n' !in fileLines[k] && !Contains(fileLines[k], "changed")
    ensures StatsOf(Join(fileLines + [SummaryLine(f, i, d), ""], "\n")) == Stats(f, i, d)
  {
    FilesTailFacts(f);
    InsertionsTailFacts(i);
    DeletionsTailFacts(d);
    SummaryCounts(f, i, d, FilesTail(f), InsertionsTail(i), DeletionsTail(d));
    LastSummaryCounts(fileLines, SummaryLine(f, i, d));
  }

  /** Only the summary line of the output counts. */
  lemma LastSummaryCounts(fileLines: seq<string>, summary: string)
    requires forall k :: 0 <= k < |fileLines| ==> '\n' !in fileLines[k] && !Contains(fileLines[k], "changed")
    requires '\n' !in summary
    ensures StatsOf(Join(fileLines + [summary, ""], "\n")) == ApplyLine(NoStats, summary)
  {
    var init := fileLines + [summary];
    var lines := init + [""];
    assert lines == fileLines + [summary, ""];
    OneLineEach(fileLines, summary);
    SplitJoin(lines, '\n');
    assert "\n" == ['\n'];
    var out := Join(lines, "\n");
    assert SplitChar(out, '\n') == lines;
    ApplyLinesSnoc(NoStats, init, "");
    EmptyLineIgnored(ApplyLines(NoStats, init));
    assert StatsOf(out) == ApplyLines(NoStats, init);
    ApplyLinesSnoc(NoStats, fileLines, summary);
    OnlySummariesCount(NoStats, fileLines);
  }

  lemma OneLineEach(fileLines: seq<string>, summary: string)
    requires forall k :: 0 <= k < |fileLines| ==> '\n' !in fileLines[k]
    requires '\n' !in summary
    ensures forall k :: 0 <= k < |fileLines| + 2 ==> '\n' !in (fileLines + [summary] + [""])[k]
  {
    var lines := fileLines + [summary] + [""];
    forall k | 0 <= k < |lines| ensures '\n' !in lines[k] {
      if k < |fileLines| {
        assert lines[k] == fileLines[k];
      }
    }
  }

  lemma ApplyLinesSnoc(s: Stats, init: seq<string>, line: string)
    ensures ApplyLines(s, init + [line]) == ApplyLine(ApplyLines(s, init), line)
  {
    assert (init + [line])[..|init|] == init;
  }

  lemma EmptyLineIgnored(s: Stats)
    ensures ApplyLine(s, "") == s
  {
    NotContains("", "file", 0);
  }

  /** Lines that are not summaries leave the stats as they are. */
  lemma {:induction false} OnlySummariesCount(s: Stats, lines: seq<string>)
    requires forall k :: 0 <= k < |lines| ==> !Contains(lines[k], "changed")
    ensures ApplyLines(s, lines) == s
    decreases |lines|
  {
    if |lines| > 0 {
      OnlySummariesCount(s, lines[..|lines| - 1]);
    }
  }

  /** The words after a count: no digit, no comma, no line break. */
  predicate Words(t: string) {
    (forall c :: c in t ==> !IsDigit(c)) && ',' !in t && '\n' !in t
  }

  /** The comma parts of a summary line. */
  function SummaryParts(f: nat, i: nat, d: nat, ft: string, it: string, dt: string): seq<string> {
    [Part(f, ft)]
    + (if i > 0 || d == 0 then [Part(i, it)] else [])
    + (if d > 0 || i == 0 then [Part(d, dt)] else [])
  }

  /** A summary line is one line, and it alone sets all three counts. */
  lemma SummaryCounts(f: nat, i: nat, d: nat, ft: string, it: string, dt: string)
    requires Words(ft) && Words(it) && Words(dt)
    requires At(ft, "file", 1) && At(ft, "changed", |ft| - 7)
    requires At(it, "insertion", 1) && 'f' !in it
    requires At(dt, "deletion", 1) && 'f' !in dt && 'r' !in dt
    ensures '\n' !in Summary(f, i, d, ft, it, dt)
    ensures ApplyLine(NoStats, Summary(f, i, d, ft, it, dt)) == Stats(f, i, d)
  {
    var fp, line := Part(f, ft), Summary(f, i, d, ft, it, dt);
    PartWords(f, ft);
    PartWords(i, it);
    PartWords(d, dt);
    FilesPartCounts(f, ft);
    assert line == fp + line[|fp|..];
    ContainsInPrefix(fp, line[|fp|..], "file");
    ContainsInPrefix(fp, line[|fp|..], "changed");
    SplitSummary(f, i, d, ft, it, dt);
    ApplySummaryParts(f, i, d, ft, it, dt);
  }

  lemma SplitSummary(f: nat, i: nat, d: nat, ft: string, it: string, dt: string)
    requires ',' !in Part(f, ft) && ',' !in Part(i, it) && ',' !in Part(d, dt)
    ensures SplitChar(Summary(f, i, d, ft, it, dt), ',') == SummaryParts(f, i, d, ft, it, dt)
  {
    var fp, ip, dp := Part(f, ft), Part(i, it), Part(d, dt);
    var line := Summary(f, i, d, ft, it, dt);
    if i > 0 || d == 0 {
      if d > 0 || i == 0 {
        assert line == fp + [','] + (ip + [','] + dp);
        SplitAtFirst(fp, ',', ip + [','] + dp);
        SplitAtFirst(ip, ',', dp);
        SplitNoSeparator(dp, ',');
      } else {
        assert line == fp + [','] + ip;
        SplitAtFirst(fp, ',', ip);
        SplitNoSeparator(ip, ',');
      }
    } else {
      assert line == fp + [','] + dp;
      SplitAtFirst(fp, ',', dp);
      SplitNoSeparator(dp, ',');
    }
  }

  lemma ApplySummaryParts(f: nat, i: nat, d: nat, ft: string, it: string, dt: string)
    requires Words(ft) && Words(it) && Words(dt)
    requires At(ft, "file", 1) && At(ft, "changed", |ft| - 7)
    requires At(it, "insertion", 1) && 'f' !in it
    requires At(dt, "deletion", 1) && 'f' !in dt && 'r' !in dt
    ensures ApplyParts(NoStats, SummaryParts(f, i, d, ft, it, dt)) == Stats(f, i, d)
  {
    var fp, ip, dp := Part(f, ft), Part(i, it), Part(d, dt);
    FilesPartCounts(f, ft);
    InsertionsPartCounts(i, it);
    DeletionsPartCounts(d, dt);
    var s1 := ApplyPart(NoStats, fp);
    assert s1 == Stats(f, 0, 0);
    assert ApplyParts(NoStats, [fp]) == s1 by { assert [fp][..0] == []; }
    if i > 0 || d == 0 {
      var s2 := ApplyPart(s1, ip);
      assert s2 == Stats(f, i, 0);
      assert ApplyParts(NoStats, [fp, ip]) == s2 by { assert [fp, ip][..1] == [fp]; }
      if d > 0 || i == 0 {
        assert ApplyPart(s2, dp) == Stats(f, i, d);
        assert SummaryParts(f, i, d, ft, it, dt) == [fp, ip, dp];
        assert [fp, ip, dp][..2] == [fp, ip];
      } else {
        assert SummaryParts(f, i, d, ft, it, dt) == [fp, ip];
      }
    } else {
      assert ApplyPart(s1, dp) == Stats(f, i, d);
      assert SummaryParts(f, i, d, ft, it, dt) == [fp, dp];
      assert [fp, dp][..1] == [fp];
    }
  }

  lemma FilesPartCounts(f: nat, ft: string)
    requires Words(ft) && At(ft, "file", 1) && At(ft, "changed", |ft| - 7)
    ensures Contains(Part(f, ft), "file") && Contains(Part(f, ft), "changed") && Count(Part(f, ft)) == f
  {
    PartContains(f, ft, "file", 1);
    PartContains(f, ft, "changed", |ft| - 7);
    PartCount(f, ft);
  }

  lemma InsertionsPartCounts(i: nat, it: string)
    requires Words(it) && At(it, "insertion", 1) && 'f' !in it
    ensures !Contains(Part(i, it), "file") && Contains(Part(i, it), "insertion") && Count(Part(i, it)) == i
  {
    PartContains(i, it, "insertion", 1);
    PartWithout(i, it, 'f');
    NotContains(Part(i, it), "file", 0);
    PartCount(i, it);
  }

  lemma DeletionsPartCounts(d: nat, dt: string)
    requires Words(dt) && At(dt, "deletion", 1) && 'f' !in dt && 'r' !in dt
    ensures !Contains(Part(d, dt), "file") && !Contains(Part(d, dt), "insertion")
    ensures Contains(Part(d, dt), "deletion") && Count(Part(d, dt)) == d
  {
    PartContains(d, dt, "deletion", 1);
    PartWithout(d, dt, 'f');
    PartWithout(d, dt, 'r');
    NotContains(Part(d, dt), "file", 0);
    NotContains(Part(d, dt), "insertion", 4);
    PartCount(d, dt);
  }

  lemma FilesTailFacts(f: nat)
    ensures Words(FilesTail(f)) && At(FilesTail(f), "file", 1) && At(FilesTail(f), "changed", |FilesTail(f)| - 7)
  {
    var t := FilesTail(f);
    if f == 1 {
      LiteralWords(" file changed");
      assert t[1..5] == "file" && t[6..13] == "changed";
    } else {
      LiteralWords(" files changed");
      assert t[1..5] == "file" && t[7..14] == "changed";
    }
  }

  lemma InsertionsTailFacts(i: nat)
    ensures Words(InsertionsTail(i)) && At(InsertionsTail(i), "insertion", 1) && 'f' !in InsertionsTail(i)
  {
    var t := InsertionsTail(i);
    if i == 1 {
      LiteralWords(" insertion(+)");
    } else {
      LiteralWords(" insertions(+)");
    }
    assert t[1..10] == "insertion";
  }

  lemma DeletionsTailFacts(d: nat)
    ensures Words(DeletionsTail(d)) && At(DeletionsTail(d), "deletion", 1)
    ensures 'f' !in DeletionsTail(d) && 'r' !in DeletionsTail(d)
  {
    var t := DeletionsTail(d);
    if d == 1 {
      LiteralWords(" deletion(-)");
    } else {
      LiteralWords(" deletions(-)");
    }
    assert t[1..9] == "deletion";
  }

  /** Text made of letters, spaces and brackets is `Words`. */
  lemma LiteralWords(t: string)
    requires forall k :: 0 <= k < |t| ==> ('a' <= t[k] <= 'z' || t[k] in " ()+-")
    ensures Words(t)
  {
    forall c | c in t ensures !IsDigit(c) && c != ',' && c != '\n' {
      var k :| 0 <= k < |t| && t[k] == c;
    }
  }

  /** The part carries no comma or line break when its words do not. */
  lemma PartWords(n: nat, tail: string)
    requires Words(tail)
    ensures ',' !in Part(n, tail) && '\n' !in Part(n, tail)
  {
    PartWithout(n, tail, ',');
    PartWithout(n, tail, '\n');
  }

  /** A character that is not a digit, a space or in `tail` is not in the part. */
  lemma PartWithout(n: nat, tail: string, c: char)
    requires !IsDigit(c) && c != ' ' && c !in tail
    ensures c !in Part(n, tail)
  {
    var s := NatToString(n);
    forall k | 0 <= k < |s| ensures s[k] != c {
      assert IsDigit(s[k]);
    }
    assert Part(n, tail) == " " + s + tail;
  }

  /** `Count` reads the number of a part whose words carry no digit. */
  lemma PartCount(n: nat, tail: string)
    requires Words(tail)
    ensures Count(Part(n, tail)) == n
  {
    var s := NatToString(n);
    forall k | 0 <= k < |tail| ensures !IsDigit(tail[k]) {
      assert tail[k] in tail;
    }
    NoDigits(tail);
    assert Digits(" ") == "";
    DigitsAppend(" ", s);
    DigitsAppend(" " + s, tail);
    DigitsOfDigits(s);
    assert Digits(Part(n, tail)) == s;
    NatToStringRoundTrip(n);
  }

  lemma PartContains(n: nat, tail: string, pat: string, k: int)
    requires At(tail, pat, k)
    ensures Contains(Part(n, tail), pat)
  {
    var p := " " + NatToString(n);
    assert (p + tail)[|p| + k..|p| + k + |pat|] == tail[k..k + |pat|];
    assert Part(n, tail) == p + tail;
    ContainsAt(p + tail, pat, |p| + k);
  }

  lemma {:induction false} NoDigits(s: string)
    requires forall k :: 0 <= k < |s| ==> !IsDigit(s[k])
    ensures Digits(s) == ""
    decreases |s|
  {
    if |s| > 0 {
      NoDigits(s[..|s| - 1]);
    }
  }

  lemma ContainsAt(s: string, pat: string, i: int)
    requires At(s, pat, i)
    ensures Contains(s, pat)
  {
    ContainsIff(s, pat);
  }

  /** `pat` cannot occur in `s` when its character at `j` does not. */
  lemma NotContains(s: string, pat: string, j: nat)
    requires j < |pat| && pat[j] !in s
    ensures !Contains(s, pat)
  {
    forall k | 0 <= k && k + |pat| <= |s| ensures !At(s, pat, k) {
      assert s[k + j] in s;
      assert s[k..k + |pat|][j] != pat[j];
    }
    ContainsIff(s, pat);
  }

  lemma ContainsInPrefix(p: string, t: string, pat: string)
    requires Contains(p, pat)
    ensures Contains(p + t, pat)
  {
    ContainsIff(p, pat);
    var k :| At(p, pat, k);
    assert (p + t)[k..k + |pat|] == p[k..k + |pat|];
    ContainsAt(p + t, pat, k);
  }
}
