/** plugins/git-status.plugins.py: branch, working-tree changes, unpushed and
    unpulled commit counts and repository name of the Git repository around
    the working directory.

    The `[git-status]` section, the directories that contain `.git` and the
    outcomes of the `git` commands are inputs.
 */
module GitStatus {
  import opened Wrappers
  import opened PyStr
  import opened PyNum
  import Ansi

  /** The `[git-status]` settings, already converted by `getint`/`getboolean`.
      `autoFind` is read but never consulted. */
  datatype GitConfig = GitConfig(
    detailed: bool,
    maxDepth: int,
    autoFind: bool,
    showIcons: bool,
    colorClean: string,
    colorDirty: string,
    colorUnpushed: string,
    colorNoRepo: string)

  const DefaultConfig: GitConfig := GitConfig(true, 3, true, true, "green", "yellow", "red", "white")

  // ---------------------------------------------------------------------------
  // find_git_repo
  // ---------------------------------------------------------------------------

  /** An absolute directory as its components below `/`; `[]` is `/` itself. */
  type Path = seq<string>

  /** `Path.parent`: the parent of `/` is `/`. */
  function Parent(p: Path): (r: Path)
    ensures |p| > 0 ==> r == p[..|p| - 1]
    ensures |p| == 0 ==> r == p
  {
    if |p| == 0 then p else p[..|p| - 1]
  }

  /** The directory `d` levels above `p`, reached by taking `.parent` `d` times. */
  function Ancestor(p: Path, d: nat): (r: Path)
    ensures r == p[..if d <= |p| then |p| - d else 0]
  {
    if d == 0 then p else Parent(Ancestor(p, d - 1))
  }

  /** `Path.name`: the last component, empty for `/`. */
  function Name(p: Path): string {
    if |p| == 0 then "" else p[|p| - 1]
  }

  /** Some directory at most `maxDepth` levels up from `cwd` has `.git`. */
  predicate RepoWithin(cwd: Path, maxDepth: int, gitDirs: set<Path>) {
    exists d :: 0 <= d <= maxDepth && Ancestor(cwd, d) in gitDirs
  }

  /** The first directory with `.git` among those `from`, `from + 1`, …,
      `maxDepth` levels above `cwd`. */
  function FirstRepo(cwd: Path, from: nat, maxDepth: int, gitDirs: set<Path>): Option<Path>
    decreases if from <= maxDepth then maxDepth - from + 1 else 0
  {
    if from > maxDepth then None
    else if Ancestor(cwd, from) in gitDirs then Some(Ancestor(cwd, from))
    else FirstRepo(cwd, from + 1, maxDepth, gitDirs)
  }

  /** `find_git_repo()`: for depth 0, 1, …, `max_depth`, walks up that many
      parents from the working directory and returns the first directory that
      has a `.git` entry. `gitDirs` is the set of directories that do. */
  method FindGitRepo(cwd: Path, maxDepth: int, gitDirs: set<Path>) returns (repo: Option<Path>)
    ensures repo.Some? <==> RepoWithin(cwd, maxDepth, gitDirs)
    ensures repo.Some? ==> exists d :: (0 <= d <= maxDepth && repo.value == Ancestor(cwd, d) &&
      repo.value in gitDirs && (forall e :: 0 <= e < d ==> Ancestor(cwd, e) !in gitDirs))
    ensures repo == FirstRepo(cwd, 0, maxDepth, gitDirs)
  {
    var depth: nat := 0;
    while depth <= maxDepth
      invariant maxDepth >= 0 ==> depth <= maxDepth + 1
      invariant forall e :: 0 <= e < depth ==> Ancestor(cwd, e) !in gitDirs
      invariant FirstRepo(cwd, 0, maxDepth, gitDirs) == FirstRepo(cwd, depth, maxDepth, gitDirs)
    {
      var check := cwd;
      var j := 0;
      while j < depth
        invariant 0 <= j <= depth
        invariant check == Ancestor(cwd, j)
      {
        check := Parent(check);
        j := j + 1;
      }
      if check in gitDirs {
        return Some(check);
      }
      depth := depth + 1;
    }
    return None;
  }

  /** Among the directories checked, the one found is the deepest that has
      `.git`: every other checked directory with `.git` lies above it. */
  lemma {:induction false} NearestRepo(cwd: Path, maxDepth: int, gitDirs: set<Path>, d: nat)
    requires d <= maxDepth && Ancestor(cwd, d) in gitDirs
    requires forall e :: 0 <= e < d ==> Ancestor(cwd, e) !in gitDirs
    ensures forall e :: 0 <= e <= maxDepth && Ancestor(cwd, e) in gitDirs ==>
      Ancestor(cwd, e) <= Ancestor(cwd, d)
  {
    forall e | 0 <= e <= maxDepth && Ancestor(cwd, e) in gitDirs
      ensures Ancestor(cwd, e) <= Ancestor(cwd, d)
    {
      assert e >= d;
    }
  }

  // ---------------------------------------------------------------------------
  // git commands
  // ---------------------------------------------------------------------------

  /** One run of `git`: its exit code and standard output, or `Failed` when the
      call raised (no `git`, a timeout). */
  datatype Run = Ran(returnCode: int, stdout: string) | Failed

  /** `run_git_command`: the stripped output of a successful run, `None` otherwise. */
  function Output(run: Run): (r: Option<string>)
    ensures r.Some? <==> run.Ran? && run.returnCode == 0
    ensures r.Some? && |r.value| > 0 ==> !IsSpace(r.value[0]) && !IsSpace(r.value[|r.value| - 1])
  {
    if run.Ran? && run.returnCode == 0 then Some(Strip(run.stdout)) else None
  }

  /** Python truthiness of an optional string: present and non-empty. */
  predicate Truthy(o: Option<string>) {
    o.Some? && o.value != ""
  }

  /** The runs `format_git_output` makes inside a repository. */
  datatype GitRuns = GitRuns(
    showCurrent: Run,
    symbolicRef: Run,
    status: Run,
    pushCount: Run,
    pullCount: Run,
    remoteUrl: Run)

  /** `get_git_branch`: `branch --show-current`, or else `symbolic-ref --short
      HEAD`, or else the literal `detached`; never empty. */
  function GitBranch(showCurrent: Option<string>, symbolicRef: Option<string>): (branch: string)
    ensures branch != ""
    ensures Truthy(showCurrent) ==> branch == showCurrent.value
    ensures !Truthy(showCurrent) && Truthy(symbolicRef) ==> branch == symbolicRef.value
    ensures !Truthy(showCurrent) && !Truthy(symbolicRef) ==> branch == "detached"
  {
    if Truthy(showCurrent) then showCurrent.value
    else if Truthy(symbolicRef) then symbolicRef.value
    else "detached"
  }

  /** The exceptions `format_git_output` can raise. */
  datatype GitError =
    | InvalidLiteral(text: string)   // `int()` of a `rev-list --count` output that is not a number
    | NotSubscriptable               // subscripting the integer `get_unpushed_commits` returns for `detached`
    | ConfigError(message: string)   // `get_git_config` failing on a bad value

  /** `str(e)` for each exception. Python's `repr` of the offending text is
      approximated by single quotes. */
  function Message(e: GitError): string {
    match e
    case InvalidLiteral(t) => "invalid literal for int() with base 10: '" + t + "'"
    case NotSubscriptable => "'int' object is not subscriptable"
    case ConfigError(m) => m
  }

  /** What `get_unpushed_commits` returns: the integer 0 or a dict of counts. */
  datatype Unpushed = Scalar(n: int) | Counts(push: int, pull: int)

  /** `int(count) if count else 0` */
  function CountOf(count: Option<string>): (r: Result<int, GitError>)
    ensures !Truthy(count) ==> r == Ok(0)
    ensures Truthy(count) ==> (r.Ok? <==> ParseInt(count.value).Some?)
  {
    if Truthy(count) then
      match ParseInt(count.value)
      case Some(n) => Ok(n)
      case None => Err(InvalidLiteral(count.value))
    else Ok(0)
  }

  /** `get_unpushed_commits(repo_path, branch)` as written: the integer 0 for a
      detached head, otherwise the push and pull counts (the push count is
      converted first, so its error wins). */
  function UnpushedCommitsAsWritten(branch: string, push: Option<string>, pull: Option<string>): (r: Result<Unpushed, GitError>)
    ensures branch == "detached" ==> r == Ok(Scalar(0))
    ensures branch != "detached" && r.Ok? ==> r.value.Counts?
  {
    if branch == "detached" then Ok(Scalar(0))
    else UnpushedCounts(push, pull)
  }

  /** The dict branch of `get_unpushed_commits`. */
  function UnpushedCounts(push: Option<string>, pull: Option<string>): (r: Result<Unpushed, GitError>)
    ensures r.Ok? ==> r.value.Counts?
    ensures CountOf(push).Err? ==> r == Err(CountOf(push).error)
  {
    match CountOf(push)
    case Err(e) => Err(e)
    case Ok(p) =>
      match CountOf(pull)
      case Err(e) => Err(e)
      case Ok(q) => Ok(Counts(p, q))
  }

  /** Counts printed by `git rev-list --count` are read back exactly. */
  lemma {:induction false} UnpushedCountsOfNumbers(branch: string, n: int, m: int)
    requires branch != "detached"
    ensures UnpushedCommitsAsWritten(branch, Some(IntToString(n)), Some(IntToString(m))) == Ok(Counts(n, m))
    ensures UnpushedCommitsCorrected(branch, Some(IntToString(n)), Some(IntToString(m))) == Ok(Counts(n, m))
  {
    ParseIntOfString(n);
    ParseIntOfString(m);
  }

  /** `get_unpushed_commits` as evidently intended: a detached head has nothing
      to push or pull, so both counts are zero. */
  function UnpushedCommitsCorrected(branch: string, push: Option<string>, pull: Option<string>): (r: Result<Unpushed, GitError>)
    ensures r.Ok? ==> r.value.Counts?
    ensures branch == "detached" ==> r == Ok(Counts(0, 0))
  {
    if branch == "detached" then Ok(Counts(0, 0))
    else UnpushedCounts(push, pull)
  }

  // ---------------------------------------------------------------------------
  // get_remote_url
  // ---------------------------------------------------------------------------

  /** `get_remote_url`: the last `/`-separated piece of the `origin` URL without
      a trailing `.git`; `None` when there is no URL or it has no `/`. */
  function RemoteName(remote: Option<string>): (r: Option<string>)
    ensures r.Some? <==> Truthy(remote) && '/' in remote.value
    ensures r.Some? ==> '/' !in r.value
  {
    if Truthy(remote) && '/' in remote.value then
      var pieces := Split(remote.value, '/');
      SplitPieces(remote.value, '/');
      var last := pieces[|pieces| - 1];
      if EndsWith(last, ".git") then
        assert forall k :: 0 <= k < |last| - 4 ==> last[..|last| - 4][k] == last[k];
        Some(last[..|last| - 4])
      else Some(last)
    else None
  }

  /** A URL ending in `/<name>.git` names the repository `<name>`. */
  lemma {:induction false} RemoteNameOfGitUrl(prefix: string, name: string)
    requires '/' !in name
    ensures RemoteName(Some(prefix + "/" + name + ".git")) == Some(name)
  {
    var url := prefix + "/" + name + ".git";
    assert url == prefix + ['/'] + (name + ".git");
    assert url[|prefix|] == '/';
    SplitLast(prefix, name + ".git", '/');
    var last := name + ".git";
    assert last[|last| - 4..] == ".git";
    assert last[..|last| - 4] == name;
  }

  /** A URL ending in `/<name>` with no `.git` suffix names the repository `<name>`. */
  lemma {:induction false} RemoteNameOfPlainUrl(prefix: string, name: string)
    requires '/' !in name && !EndsWith(name, ".git")
    ensures RemoteName(Some(prefix + "/" + name)) == Some(name)
  {
    var url := prefix + "/" + name;
    assert url == prefix + ['/'] + name;
    assert url[|prefix|] == '/';
    SplitLast(prefix, name, '/');
  }

  /** `get_remote_url(repo_path) or repo_path.name` */
  function RepoName(remote: Option<string>, repo: Path): (name: string)
    ensures Truthy(RemoteName(remote)) ==> name == RemoteName(remote).value
    ensures !Truthy(RemoteName(remote)) ==> name == Name(repo)
  {
    var r := RemoteName(remote);
    if Truthy(r) then r.value else Name(repo)
  }

  // ---------------------------------------------------------------------------
  // The status line
  // ---------------------------------------------------------------------------

  /** `len(status.split('\n'))` */
  function ChangeCount(status: string): (n: nat)
    ensures n >= 1
  {
    |Split(status, '\n')|
  }

  /** The `±N` figure is one more than the number of line breaks. */
  lemma {:induction false} ChangeCountLines(status: string)
    ensures ChangeCount(status) == CountChar(status, '\n') + 1
  {
    SplitCount(status, '\n');
  }

  /** The push and pull pieces of the status line. */
  function CommitParts(push: int, pull: int, icons: bool): (parts: seq<string>)
    ensures |parts| == (if push > 0 then 1 else 0) + (if pull > 0 then 1 else 0)
    ensures push > 0 ==> parts[0] == (if icons then "🚀+" else "↑") + IntToString(push)
    ensures pull > 0 ==> parts[|parts| - 1] == (if icons then "📥+" else "↓") + IntToString(pull)
  {
    (if push > 0 then [if icons then "🚀+" + IntToString(push) else "↑" + IntToString(push)] else [])
    + (if pull > 0 then [if icons then "📥+" + IntToString(pull) else "↓" + IntToString(pull)] else [])
  }

  /** The pieces of `git_status`, in order: 🌿 when icons are on, the branch,
      `±N` for a dirty tree, then the push and pull pieces. */
  function StatusParts(branch: string, status: Option<string>, push: int, pull: int, icons: bool): (parts: seq<string>)
    ensures |parts| == (if icons then 1 else 0) + 1 + (if Truthy(status) then 1 else 0)
      + (if push > 0 then 1 else 0) + (if pull > 0 then 1 else 0)
    ensures icons ==> parts[0] == "🌿" && parts[1] == branch
    ensures !icons ==> parts[0] == branch
    ensures Truthy(status) ==> parts[if icons then 2 else 1] == "±" + IntToString(ChangeCount(status.value))
    ensures |parts| >= |CommitParts(push, pull, icons)|
      && parts[|parts| - |CommitParts(push, pull, icons)|..] == CommitParts(push, pull, icons)
  {
    (if icons then ["🌿"] else [])
    + [branch]
    + (if Truthy(status) then ["±" + IntToString(ChangeCount(status.value))] else [])
    + CommitParts(push, pull, icons)
  }

  /** The colour of `git_status`: unpushed commits outrank a dirty tree, which
      outranks a clean one. */
  function StatusColor(push: int, dirty: bool, cfg: GitConfig): (color: string)
    ensures push > 0 ==> color == cfg.colorUnpushed
    ensures push <= 0 && dirty ==> color == cfg.colorDirty
    ensures push <= 0 && !dirty ==> color == cfg.colorClean
  {
    if push > 0 then cfg.colorUnpushed else if dirty then cfg.colorDirty else cfg.colorClean
  }

  // ---------------------------------------------------------------------------
  // git_changes
  // ---------------------------------------------------------------------------

  /** The first character of the stripped two-character porcelain code of a
      line, if any. */
  function StatusCode(line: string): (c: Option<char>)
    ensures c.Some? ==> !IsSpace(c.value)
  {
    var code := Strip(CodeField(line));
    if |code| > 0 then Some(code[0]) else None
  }

  /** `line[:2]` */
  function CodeField(line: string): (head: string)
    ensures |head| <= 2 && |head| <= |line| && head == line[..|head|]
    ensures |line| > 0 ==> |head| > 0
  {
    line[..if |line| < 2 then |line| else 2]
  }

  /** A line whose first character is not blank is counted under that character. */
  lemma {:induction false} StatusCodeOfLine(line: string)
    requires |line| > 0 && !IsSpace(line[0])
    ensures StatusCode(line) == Some(line[0])
  {
    var head := CodeField(line);
    assert head[0] == line[0];
    StripFirst(head);
  }

  /** A string whose first character is not whitespace keeps it when stripped. */
  lemma {:induction false} StripFirst(s: string)
    ensures |s| > 0 && !IsSpace(s[0]) ==> |Strip(s)| > 0 && Strip(s)[0] == s[0]
  {
    if |s| > 0 && !IsSpace(s[0]) {
      var l := TrimLeft(s);
      assert l == s;
      var r := TrimRight(l);
      assert r == l[..|r|];
    }
  }

  /** The porcelain code of every line. */
  function Codes(lines: seq<string>): (codes: seq<Option<char>>)
    ensures |codes| == |lines|
    ensures forall k :: 0 <= k < |lines| ==> codes[k] == StatusCode(lines[k])
  {
    seq(|lines|, k requires 0 <= k < |lines| => StatusCode(lines[k]))
  }

  /** How many of the codes are `c`. */
  function CountCode(codes: seq<Option<char>>, c: char): nat {
    if |codes| == 0 then 0 else CountCode(codes[..|codes| - 1], c) + Tally(codes[|codes| - 1], c)
  }

  /** 1 when the code is `c`, else 0. */
  function Tally(code: Option<char>, c: char): nat {
    if code == Some(c) then 1 else 0
  }

  /** The `file_stats` dict. */
  datatype Stats = Stats(modified: nat, added: nat, deleted: nat, renamed: nat, untracked: nat)

  /** `file_stats` after counting every line of the status output. */
  function StatsOf(lines: seq<string>): Stats {
    Tallies(Codes(lines))
  }

  function Tallies(codes: seq<Option<char>>): Stats {
    Stats(CountCode(codes, 'M'), CountCode(codes, 'A'), CountCode(codes, 'D'), CountCode(codes, 'R'), CountCode(codes, '?'))
  }

  /** `file_stats[first_char] += 1` when the line's code is one of the five keys. */
  function Bump(stats: Stats, code: Option<char>): Stats {
    Stats(
      stats.modified + Tally(code, 'M'),
      stats.added + Tally(code, 'A'),
      stats.deleted + Tally(code, 'D'),
      stats.renamed + Tally(code, 'R'),
      stats.untracked + Tally(code, '?'))
  }

  /** Counting one more code bumps exactly its own counter. */
  lemma {:induction false} TalliesStep(codes: seq<Option<char>>, code: Option<char>)
    ensures Tallies(codes + [code]) == Bump(Tallies(codes), code)
  {
    var more := codes + [code];
    assert more[..|more| - 1] == codes;
  }

  /** The counting loop of `format_git_output`: one pass over the lines,
      bumping the counter of the line's code when it is one of `M A D R ?`. */
  method FileStats(lines: seq<string>) returns (stats: Stats)
    ensures stats == StatsOf(lines)
  {
    stats := CountCodes(Codes(lines));
  }

  /** The loop itself, over the lines' codes. */
  method CountCodes(codes: seq<Option<char>>) returns (stats: Stats)
    ensures stats == Tallies(codes)
  {
    stats := Stats(0, 0, 0, 0, 0);
    var i := 0;
    while i < |codes|
      invariant 0 <= i <= |codes|
      invariant stats == Tallies(codes[..i])
    {
      assert codes[..i + 1] == codes[..i] + [codes[i]];
      TalliesStep(codes[..i], codes[i]);
      stats := Bump(stats, codes[i]);
      i := i + 1;
    }
    assert codes[..i] == codes;
  }

  /** `file_stats[c]`: the counter a code bumps, 0 for a code it does not keep. */
  function CountFor(stats: Stats, c: char): nat {
    if c == 'M' then stats.modified
    else if c == 'A' then stats.added
    else if c == 'D' then stats.deleted
    else if c == 'R' then stats.renamed
    else if c == '?' then stats.untracked
    else 0
  }

  /** Where a shown code stands in the order `M`, `A`, `D`, `?`. */
  function ShownRank(c: char): nat {
    if c == 'M' then 0 else if c == 'A' then 1 else if c == 'D' then 2 else 3
  }

  /** `f"{c}:{n}"` */
  function CodePiece(c: char, n: nat): (p: string)
    ensures |p| > 2 && p[0] == c && p[1] == ':' && p[2..] == IntToString(n)
    ensures c != ' ' ==> ' ' !in p
  {
    var p := [c] + ":" + IntToString(n);
    assert p[2..] == IntToString(n);
    assert forall k :: 2 <= k < |p| ==> p[k] == IntToString(n)[k - 2];
    p
  }

  /** The codes `git_changes` shows, in order: those of `M`, `A`, `D` and `?`
      whose count is positive. */
  function ShownCodes(stats: Stats): (codes: string)
    ensures |codes| <= 4
    ensures forall i :: 0 <= i < |codes| ==> codes[i] in "MAD?" && CountFor(stats, codes[i]) > 0
    ensures forall i, j :: 0 <= i < j < |codes| ==> ShownRank(codes[i]) < ShownRank(codes[j])
    ensures forall c :: c in "MAD?" && CountFor(stats, c) > 0 ==> c in codes
  {
    (if stats.modified > 0 then "M" else "") + (if stats.added > 0 then "A" else "")
    + (if stats.deleted > 0 then "D" else "") + (if stats.untracked > 0 then "?" else "")
  }

  /** The non-zero counts as `M:n A:n D:n ?:n`, in that order; renames are
      counted but never shown. */
  function ChangeParts(stats: Stats): (parts: seq<string>)
    ensures |parts| <= 4
    ensures forall i :: 0 <= i < |parts| ==> |parts[i]| > 2 && parts[i][0] in "MAD?" && parts[i][1] == ':'
    ensures |parts| == 0 <==> stats.modified == 0 && stats.added == 0 && stats.deleted == 0 && stats.untracked == 0
  {
    var codes := ShownCodes(stats);
    assert |codes| == 0 <==> stats.modified == 0 && stats.added == 0 && stats.deleted == 0 && stats.untracked == 0 by {
      assert CountFor(stats, 'M') == stats.modified && CountFor(stats, 'A') == stats.added;
      assert CountFor(stats, 'D') == stats.deleted && CountFor(stats, '?') == stats.untracked;
    }
    seq(|codes|, i requires 0 <= i < |codes| => CodePiece(codes[i], CountFor(stats, codes[i])))
  }

  /** Each piece is a shown code with a positive count followed by that count,
      the codes run in the order `M`, `A`, `D`, `?`, and every shown code with a
      positive count has its piece. */
  lemma {:induction false} ChangePartsContents(stats: Stats)
    ensures var parts := ChangeParts(stats);
      && (forall i :: 0 <= i < |parts| ==>
            parts[i][0] in "MAD?" && CountFor(stats, parts[i][0]) > 0
            && parts[i] == CodePiece(parts[i][0], CountFor(stats, parts[i][0])))
      && (forall i, j :: 0 <= i < j < |parts| ==> ShownRank(parts[i][0]) < ShownRank(parts[j][0]))
      && (forall c :: c in "MAD?" && CountFor(stats, c) > 0 ==> exists i :: 0 <= i < |parts| && parts[i][0] == c)
  {
    var codes := ShownCodes(stats);
    var parts := ChangeParts(stats);
    assert forall i :: 0 <= i < |parts| ==> parts[i][0] == codes[i];
    forall c | c in "MAD?" && CountFor(stats, c) > 0
      ensures exists i :: 0 <= i < |parts| && parts[i][0] == c
    {
      var i :| 0 <= i < |codes| && codes[i] == c;
      assert parts[i][0] == c;
    }
  }

  /** A detailed `git_changes` splits on spaces into exactly its pieces, and
      each `X:n` reads back as the number of status lines with code `X`. */
  lemma {:induction false} ChangesReadBack(status: string)
    requires status != ""
    ensures var stats := StatsOf(Split(status, '\n'));
      var parts := ChangeParts(stats);
      var words := Split(Changes(Some(status), true), ' ');
      && (parts == [] ==> Changes(Some(status), true) == "")
      && (parts != [] ==> words == parts)
      && (parts != [] ==> forall i :: 0 <= i < |words| ==> ParseInt(words[i][2..]) == Some(CountFor(stats, words[i][0])))
  {
    var stats := StatsOf(Split(status, '\n'));
    var parts := ChangeParts(stats);
    if parts != [] {
      PartsReadBack(stats);
      SplitJoin(parts, ' ');
    }
  }

  /** Each `X:n` piece is free of spaces and its digits read back as the count. */
  lemma {:induction false} PartsReadBack(stats: Stats)
    ensures var parts := ChangeParts(stats);
      forall i :: 0 <= i < |parts| ==>
        ' ' !in parts[i] && ParseInt(parts[i][2..]) == Some(CountFor(stats, parts[i][0]))
  {
    var parts := ChangeParts(stats);
    ChangePartsContents(stats);
    forall i | 0 <= i < |parts|
      ensures ' ' !in parts[i]
      ensures ParseInt(parts[i][2..]) == Some(CountFor(stats, parts[i][0]))
    {
      ParseIntOfString(CountFor(stats, parts[i][0]));
    }
  }

  /** `git_changes`: `clean` for an empty or failed status, otherwise the
      per-code counts (detailed) or `±N` (not detailed). */
  function Changes(status: Option<string>, detailed: bool): (r: string)
    ensures !Truthy(status) ==> r == "clean"
    ensures Truthy(status) && !detailed ==> r == "±" + IntToString(ChangeCount(status.value))
  {
    if !Truthy(status) then "clean"
    else if detailed then Join(ChangeParts(StatsOf(Split(status.value, '\n'))), " ")
    else "±" + IntToString(ChangeCount(status.value))
  }

  /** `clean` means exactly that the status output was empty. */
  lemma {:induction false} CleanIffEmpty(status: Option<string>, detailed: bool)
    ensures Changes(status, detailed) == "clean" <==> !Truthy(status)
  {
    if Truthy(status) && detailed {
      var parts := ChangeParts(StatsOf(Split(status.value, '\n')));
      if |parts| > 0 {
        JoinHead(parts, " ");
        var j := Join(parts, " ");
        assert j[0] == parts[0][0];
        assert j[0] != 'c';
      } else {
        assert Join(parts, " ") == "";
      }
    } else if Truthy(status) {
      assert Changes(status, detailed)[0] == '±';
    }
  }

  /** A join starts with its first piece. */
  lemma {:induction false} JoinHead(parts: seq<string>, sep: string)
    requires |parts| > 0
    ensures StartsWith(Join(parts, sep), parts[0])
  {
  }

  /** A tree whose only changes are renames shows an empty `git_changes` in
      detailed mode, although it is not clean. */
  lemma {:induction false} OnlyRenamesShowNothing(codes: seq<Option<char>>, c: char)
    requires forall i :: 0 <= i < |codes| ==> codes[i] == Some('R')
    requires c != 'R'
    ensures CountCode(codes, c) == 0
  {
    if |codes| > 0 {
      OnlyRenamesShowNothing(codes[..|codes| - 1], c);
    }
  }

  /** So `git_changes` is empty for a non-empty status made only of renames. */
  lemma {:induction false} RenamesOnlyShowEmpty(status: string)
    requires status != ""
    requires forall i :: 0 <= i < |Split(status, '\n')| ==> StatusCode(Split(status, '\n')[i]) == Some('R')
    ensures Changes(Some(status), true) == ""
  {
    var codes := Codes(Split(status, '\n'));
    OnlyRenamesShowNothing(codes, 'M');
    OnlyRenamesShowNothing(codes, 'A');
    OnlyRenamesShowNothing(codes, 'D');
    OnlyRenamesShowNothing(codes, '?');
  }

  /** `git_commits`: `push+N` and `pull+M` for the non-zero counts, or `synced`. */
  function Commits(push: int, pull: int): (r: string)
    ensures r == "synced" <==> push <= 0 && pull <= 0
    ensures push > 0 ==> StartsWith(r, "push+" + IntToString(push))
    ensures push > 0 && pull > 0 ==> r == "push+" + IntToString(push) + " pull+" + IntToString(pull)
    ensures push > 0 && pull <= 0 ==> r == "push+" + IntToString(push)
    ensures push <= 0 && pull > 0 ==> r == "pull+" + IntToString(pull)
  {
    var parts := (if push > 0 then ["push+" + IntToString(push)] else [])
      + (if pull > 0 then ["pull+" + IntToString(pull)] else []);
    if |parts| > 0 then
      assert |parts| == 2 ==> Join(parts, " ") == parts[0] + " " + parts[1] by {
        if |parts| == 2 {
          assert Join(parts[1..], " ") == parts[1];
        }
      }
      JoinHead(parts, " ");
      assert parts[0][0] == 'p';
      assert Join(parts, " ")[0] == 'p';
      Join(parts, " ")
    else "synced"
  }

  /** With commits both ways, `git_commits` splits into a push and a pull word
      whose numbers read back as the two counts. */
  lemma {:induction false} CommitsReadBack(push: int, pull: int)
    requires push > 0 && pull > 0
    ensures var words := Split(Commits(push, pull), ' ');
      && |words| == 2 && StartsWith(words[0], "push+") && StartsWith(words[1], "pull+")
      && ParseInt(words[0][5..]) == Some(push) && ParseInt(words[1][5..]) == Some(pull)
  {
    var w0, w1 := "push+" + IntToString(push), "pull+" + IntToString(pull);
    assert w0[5..] == IntToString(push) && w1[5..] == IntToString(pull);
    assert forall k :: 5 <= k < |w0| ==> w0[k] == IntToString(push)[k - 5];
    assert forall k :: 5 <= k < |w1| ==> w1[k] == IntToString(pull)[k - 5];
    assert Join([w0, w1], " ") == Commits(push, pull);
    SplitJoin([w0, w1], ' ');
    ParseIntOfString(push);
    ParseIntOfString(pull);
  }

  // ---------------------------------------------------------------------------
  // format_git_output and register
  // ---------------------------------------------------------------------------

  /** The dict `register` returns: `git_status`, `git_branch`, `git_commits`,
      `git_changes` and `git_repo_name`. */
  datatype Placeholders = Placeholders(
    gitStatus: string,
    gitBranch: string,
    gitCommits: string,
    gitChanges: string,
    gitRepoName: string)

  /** Outside a repository: `No Git repo` (with ❌ when icons are on) in the
      no-repo colour, and empty strings elsewhere. */
  function NoRepo(cfg: GitConfig): (m: Placeholders)
    ensures m.gitBranch == "" && m.gitCommits == "" && m.gitChanges == "" && m.gitRepoName == ""
    ensures Ansi.Decolorize(m.gitStatus) ==
      Some((Ansi.ColorCode(cfg.colorNoRepo), if cfg.showIcons then "❌ No Git repo" else "No Git repo"))
  {
    var msg := if cfg.showIcons then "❌ No Git repo" else "No Git repo";
    Ansi.DecolorizeColorize(msg, cfg.colorNoRepo);
    Placeholders(Ansi.Colorize(msg, cfg.colorNoRepo), "", "", "", "")
  }

  /** The placeholders of a repository once the counts are known. */
  function RepoPlaceholders(repo: Path, cfg: GitConfig, runs: GitRuns, branch: string, push: int, pull: int): (m: Placeholders)
    ensures m.gitBranch == branch
    ensures m.gitCommits == Commits(push, pull)
    ensures m.gitChanges == Changes(Output(runs.status), cfg.detailed)
    ensures m.gitRepoName == RepoName(Output(runs.remoteUrl), repo)
    ensures Ansi.Decolorize(m.gitStatus) == Some((
      Ansi.ColorCode(StatusColor(push, Truthy(Output(runs.status)), cfg)),
      Join(StatusParts(branch, Output(runs.status), push, pull, cfg.showIcons), " ")))
  {
    var status := Output(runs.status);
    var line := Join(StatusParts(branch, status, push, pull, cfg.showIcons), " ");
    var color := StatusColor(push, Truthy(status), cfg);
    Ansi.DecolorizeColorize(line, color);
    Placeholders(Ansi.Colorize(line, color), branch, Commits(push, pull), Changes(status, cfg.detailed),
      RepoName(Output(runs.remoteUrl), repo))
  }

  /** `int(push_count) if push_count else 0` for a branch other than `detached`. */
  function PushCount(runs: GitRuns): Result<int, GitError> {
    CountOf(Output(runs.pushCount))
  }

  /** `int(pull_count) if pull_count else 0` for a branch other than `detached`. */
  function PullCount(runs: GitRuns): Result<int, GitError> {
    CountOf(Output(runs.pullCount))
  }

  /** The branch `format_git_output` reports. */
  function BranchOf(runs: GitRuns): string {
    GitBranch(Output(runs.showCurrent), Output(runs.symbolicRef))
  }

  /** `format_git_output(repo_path, config)` as written: `Err` with the
      exception it raises. */
  function FormatGitOutputAsWritten(repo: Option<Path>, cfg: GitConfig, runs: GitRuns): (r: Result<Placeholders, GitError>)
    ensures repo.None? ==> r == Ok(NoRepo(cfg))
    ensures repo.Some? && BranchOf(runs) == "detached" ==> r == Err(NotSubscriptable)
    ensures repo.Some? && BranchOf(runs) != "detached" && PushCount(runs).Ok? && PullCount(runs).Ok? ==>
      r == Ok(RepoPlaceholders(repo.value, cfg, runs, BranchOf(runs), PushCount(runs).value, PullCount(runs).value))
    ensures repo.Some? && BranchOf(runs) != "detached" && PushCount(runs).Err? ==> r == Err(PushCount(runs).error)
    ensures repo.Some? && BranchOf(runs) != "detached" && PushCount(runs).Ok? && PullCount(runs).Err? ==>
      r == Err(PullCount(runs).error)
  {
    match repo
    case None => Ok(NoRepo(cfg))
    case Some(path) =>
      var branch := BranchOf(runs);
      match UnpushedCommitsAsWritten(branch, Output(runs.pushCount), Output(runs.pullCount))
      case Err(e) => Err(e)
      case Ok(Scalar(_)) => Err(NotSubscriptable)
      case Ok(Counts(p, q)) => Ok(RepoPlaceholders(path, cfg, runs, branch, p, q))
  }

  /** `format_git_output` with the detached head counted as zero commits. */
  function FormatGitOutput(repo: Option<Path>, cfg: GitConfig, runs: GitRuns): (r: Result<Placeholders, GitError>)
    ensures repo.None? ==> r == Ok(NoRepo(cfg))
    ensures repo.Some? && BranchOf(runs) == "detached" ==> r == Ok(RepoPlaceholders(repo.value, cfg, runs, "detached", 0, 0))
    ensures repo.Some? && BranchOf(runs) != "detached" && PushCount(runs).Ok? && PullCount(runs).Ok? ==>
      r == Ok(RepoPlaceholders(repo.value, cfg, runs, BranchOf(runs), PushCount(runs).value, PullCount(runs).value))
    ensures repo.Some? && BranchOf(runs) != "detached" && PushCount(runs).Err? ==> r == Err(PushCount(runs).error)
    ensures repo.Some? && BranchOf(runs) != "detached" && PushCount(runs).Ok? && PullCount(runs).Err? ==>
      r == Err(PullCount(runs).error)
    ensures r.Err? ==> r.error.InvalidLiteral?
  {
    match repo
    case None => Ok(NoRepo(cfg))
    case Some(path) =>
      var branch := BranchOf(runs);
      match UnpushedCommitsCorrected(branch, Output(runs.pushCount), Output(runs.pullCount))
      case Err(e) => Err(e)
      case Ok(u) => Ok(RepoPlaceholders(path, cfg, runs, branch, u.push, u.pull))
  }

  /** The two versions differ only on a detached head. */
  lemma {:induction false} AsWrittenOffDetached(repo: Option<Path>, cfg: GitConfig, runs: GitRuns)
    requires repo.None? || BranchOf(runs) != "detached"
    ensures FormatGitOutputAsWritten(repo, cfg, runs) == FormatGitOutput(repo, cfg, runs)
  {
  }

  /** With the fallback settings and no repository: `❌ No Git repo` in white. */
  lemma {:induction false} NoRepoByDefault()
    ensures Ansi.Decolorize(NoRepo(DefaultConfig).gitStatus) == Some(("37", "❌ No Git repo"))
  {
    LowerOfLower("white");
  }

  /** The dict `register` returns when anything raised. */
  function ErrorPlaceholders(e: GitError): (m: Placeholders)
    ensures StartsWith(m.gitStatus, "Git error: ")
    ensures m.gitBranch == "error" && m.gitCommits == "error" && m.gitChanges == "error" && m.gitRepoName == "error"
  {
    Placeholders("Git error: " + Message(e), "error", "error", "error", "error")
  }

  /** `register()` around a given `format_git_output`: a configuration error or
      an exception becomes the error dict. */
  function Outcome(cfg: Result<GitConfig, string>, formatted: Result<Placeholders, GitError>): (m: Placeholders)
    ensures cfg.Err? ==> m == ErrorPlaceholders(ConfigError(cfg.error))
    ensures cfg.Ok? && formatted.Ok? ==> m == formatted.value
    ensures cfg.Ok? && formatted.Err? ==> m == ErrorPlaceholders(formatted.error)
  {
    if cfg.Err? then ErrorPlaceholders(ConfigError(cfg.error))
    else match formatted
      case Ok(out) => out
      case Err(e) => ErrorPlaceholders(e)
  }

  /** `register()` as written. `cfg` is `Err` with the message when reading the
      configuration raised. */
  method RegisterAsWritten(cfg: Result<GitConfig, string>, cwd: Path, gitDirs: set<Path>, runs: GitRuns)
    returns (m: Placeholders)
    ensures cfg.Err? ==> m == ErrorPlaceholders(ConfigError(cfg.error))
    ensures cfg.Ok? && BranchOf(runs) == "detached" && RepoWithin(cwd, cfg.value.maxDepth, gitDirs) ==>
      m == ErrorPlaceholders(NotSubscriptable) && m.gitStatus == "Git error: " + Message(NotSubscriptable)
    ensures cfg.Ok? && !RepoWithin(cwd, cfg.value.maxDepth, gitDirs) ==>
      m == NoRepo(cfg.value)
    ensures cfg.Ok? && RepoWithin(cwd, cfg.value.maxDepth, gitDirs) && BranchOf(runs) != "detached" ==>
      var repo := FirstRepo(cwd, 0, cfg.value.maxDepth, gitDirs);
      && repo.Some?
      && (PushCount(runs).Ok? && PullCount(runs).Ok? ==>
            m == RepoPlaceholders(repo.value, cfg.value, runs, BranchOf(runs), PushCount(runs).value, PullCount(runs).value))
      && (PushCount(runs).Err? ==> m == ErrorPlaceholders(PushCount(runs).error))
      && (PushCount(runs).Ok? && PullCount(runs).Err? ==> m == ErrorPlaceholders(PullCount(runs).error))
  {
    if cfg.Err? {
      return ErrorPlaceholders(ConfigError(cfg.error));
    }
    var repo := FindGitRepo(cwd, cfg.value.maxDepth, gitDirs);
    var formatted := FormatGitOutputAsWritten(repo, cfg.value, runs);
    m := Outcome(cfg, formatted);
    if repo.Some? && BranchOf(runs) == "detached" {
      assert formatted == Err(NotSubscriptable);
    }
  }

  /** `register()` with the detached head counted as zero commits. */
  method Register(cfg: Result<GitConfig, string>, cwd: Path, gitDirs: set<Path>, runs: GitRuns)
    returns (m: Placeholders)
    ensures cfg.Err? ==> m == ErrorPlaceholders(ConfigError(cfg.error))
    ensures cfg.Ok? && BranchOf(runs) == "detached" && RepoWithin(cwd, cfg.value.maxDepth, gitDirs) ==>
      m.gitBranch == "detached" && m.gitCommits == "synced"
    ensures cfg.Ok? && !RepoWithin(cwd, cfg.value.maxDepth, gitDirs) ==>
      m == NoRepo(cfg.value)
    ensures cfg.Ok? && RepoWithin(cwd, cfg.value.maxDepth, gitDirs) && BranchOf(runs) != "detached" ==>
      var repo := FirstRepo(cwd, 0, cfg.value.maxDepth, gitDirs);
      && repo.Some?
      && (PushCount(runs).Ok? && PullCount(runs).Ok? ==>
            m == RepoPlaceholders(repo.value, cfg.value, runs, BranchOf(runs), PushCount(runs).value, PullCount(runs).value))
      && (PushCount(runs).Err? ==> m == ErrorPlaceholders(PushCount(runs).error))
      && (PushCount(runs).Ok? && PullCount(runs).Err? ==> m == ErrorPlaceholders(PullCount(runs).error))
  {
    if cfg.Err? {
      return ErrorPlaceholders(ConfigError(cfg.error));
    }
    var repo := FindGitRepo(cwd, cfg.value.maxDepth, gitDirs);
    var formatted := FormatGitOutput(repo, cfg.value, runs);
    m := Outcome(cfg, formatted);
    if repo.Some? && BranchOf(runs) == "detached" {
      assert formatted == Ok(RepoPlaceholders(repo.value, cfg.value, runs, "detached", 0, 0));
      assert Commits(0, 0) == "synced";
    }
  }
}
