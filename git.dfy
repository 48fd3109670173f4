/**
 * The git commands the two scripts issue, and what `subprocess.run` can
 * come back with. Git itself is not modelled: a `Runner` gives the
 * outcome of each command.
 */
module Git {
  /** One `git` invocation (the argument vector is `Argv`). */
  datatype Command =
    | ShowBranch
    | StatusPorcelain
    | FetchAll
    | Pull(branch: string)
    | LatestCommit
    | Unpushed(branch: string)
    | CommitsSince(day: string)
    | DiffStatSince(day: string)
    | DiffCachedStat
    | DiffStat

  /**
   * `Completed` is a process that ran, whatever its exit status (no
   * `check=True` anywhere); `TimedOut` is `subprocess.TimeoutExpired`;
   * `Raised` is any other exception, with its `str()`.
   */
  datatype Outcome = Completed(stdout: string) | TimedOut | Raised(error: string)

  type Runner = Command -> Outcome

  function Argv(c: Command): seq<string> {
    match c
    case ShowBranch => ["git", "branch", "--show-current"]
    case StatusPorcelain => ["git", "status", "--porcelain"]
    case FetchAll => ["git", "fetch", "--all"]
    case Pull(b) => ["git", "pull", "origin", b]
    case LatestCommit => ["git", "log", "-1", "--pretty=format:%h %s"]
    case Unpushed(b) => ["git", "log", "origin/" + b + "..HEAD", "--oneline"]
    case CommitsSince(day) => ["git", "log", "--since=" + day + " 00:00", "--oneline"]
    case DiffStatSince(day) => ["git", "diff", "--stat", "--since=" + day + " 00:00", "HEAD"]
    case DiffCachedStat => ["git", "diff", "--cached", "--stat"]
    case DiffStat => ["git", "diff", "--stat"]
  }
}
