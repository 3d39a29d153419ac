/**
 * One poll cycle of a watch daemon (`watch_config_repo`): load the
 * descriptor, resolve owner and repository, ask the remote for the branch's
 * version token, and when it changed clone, build, deploy, clean up and
 * rewrite the descriptor with the new token.
 *
 * Every side effect is an `Effect` appended to the cycle's trace. Shell
 * commands (`execute_commande`) are answered by an oracle `Shell` that sees
 * the command line and every effect issued before it in the cycle, so any
 * deterministic behaviour of the machine and the network can be plugged in.
 *
 * `Cycle` is the reference definition of a cycle as a function;
 * `WatchConfigRepo` is the cycle as the source writes it, one statement after
 * another with its two loops, and is proved to produce the same outcome and
 * trace. The lemmas after it say what a cycle guarantees.
 */
module Watch {
  import opened Wrappers
  import opened Text
  import opened RepoInfo
  import opened Config

  /** What `execute_commande` returns: stdout on success, stderr otherwise. */
  datatype Reply = Ok(stdout: string) | Err(stderr: string)

  /** The shell commands a cycle issues, by role. `step` is the index of the build or deploy step. */
  datatype Cmd =
    | RmUrlTarget        // `cd <work> && rm -rf <repo url>` after a malformed locator
    | RmStale            // `rm -rf <work>/<folder>` before fetching the version
    | LsRemote           // `git ls-remote git@github.com:<owner>/<folder>.git "<branch>"`
    | Clone              // `cd <work> && git clone git@github.com:<owner>/<folder>.git`
    | Build(step: nat)   // `cd <work>/<folder> && <build command>`
    | Copy(step: nat)    // `cd <work>/<folder> && cp -r <from> <to>`
    | RmClone            // `cd <work> && rm -rf <folder>`
    | RmDest(step: nat)  // `rm -rf <to>` of the failing deploy step
    | RmConfig           // `rm <config path>`

  datatype Effect =
    | EnsureParent(path: string)                  // `check_dir_exist_or_create(path)`: creates path's parent
    | Exec(cmd: Cmd, line: string)                // `execute_commande(line)`
    | WriteConfig(path: string, config: ConfigFile) // `write_to_file_ut(path, pretty JSON of config)`

  /** The reply to a command line, given the effects issued earlier in the cycle. */
  type Shell = (seq<Effect>, string) -> Reply

  datatype Failure =
    | LoadFailed(message: string)
    | MalformedRepoUrl
    | LsRemoteFailed(stderr: string)
    | CloneFailed(stderr: string)
    | BuildFailed(step: nat, stderr: string)
    | CopyFailed(step: nat, stderr: string)
    | RmConfigFailed(stderr: string)

  datatype Outcome = UpToDate | Deployed(config: ConfigFile) | Failed(failure: Failure)

  datatype CycleResult = CycleResult(outcome: Outcome, trace: seq<Effect>)

  /** Everything a cycle's command lines are made of once the locator is resolved. */
  datatype Checkout = Checkout(workDir: string, configPath: string, owner: string, folder: string, branch: string)

  // ---------------------------------------------------------------------
  // Command lines, exactly as the cycle formats them
  // ---------------------------------------------------------------------

  function HexDigit(d: nat): char
    requires d < 16
  {
    if d < 10 then ('0' as int + d) as char else ('a' as int + d - 10) as char
  }

  /** Lower-case hexadecimal without leading zeros, for a code point below 256. */
  function Hex(n: nat): string
    requires n < 256
  {
    if n < 16 then [HexDigit(n)] else [HexDigit(n / 16), HexDigit(n % 16)]
  }

  /** A control character: below U+0020, or U+007F. */
  predicate IsControl(c: char) {
    (c as int) < 0x20 || (c as int) == 0x7F
  }

  /** The characters Rust's `{:?}` on a string writes as something other than themselves. */
  predicate NeedsEscape(c: char) {
    c == '\\' || c == '"' || IsControl(c)
  }

  /** The escape of one character is never empty and holds no control character. */
  function EscapeChar(c: char): (r: string)
    ensures |r| >= 1
    ensures forall i :: 0 <= i < |r| ==> !IsControl(r[i])
  {
    if c == '\0' then "\\0"
    else if c == '\t' then "\\t"
    else if c == '\r' then "\\r"
    else if c == '\n' then "\\n"
    else if c == '\\' then "\\\\"
    else if c == '"' then "\\\""
    else if IsControl(c) then "\\u{" + Hex(c as int) + "}"
    else [c]
  }

  /** The escaped text is at least as long as the text, and holds no control character. */
  function Escape(s: string): (r: string)
    ensures |r| >= |s|
    ensures forall i :: 0 <= i < |r| ==> !IsControl(r[i])
    decreases |s|
  {
    if s == [] then [] else EscapeChar(s[0]) + Escape(s[1..])
  }

  /**
   * `format!("{:?}", s)` for a string: double quotes around the escaped text.
   * No control character gets through, so a quoted branch adds no line
   * break to the command; `$` and backquotes are left as they are.
   */
  function DebugQuote(s: string): (r: string)
    ensures |r| >= |s| + 2 && r[0] == '"' && r[|r| - 1] == '"'
    ensures forall i :: 0 <= i < |r| ==> !IsControl(r[i])
  {
    "\"" + Escape(s) + "\""
  }

  /** A branch name with nothing to escape is simply put in double quotes. */
  lemma {:induction false} DebugQuotePlain(s: string)
    requires forall i :: 0 <= i < |s| ==> !NeedsEscape(s[i])
    ensures DebugQuote(s) == "\"" + s + "\""
  {
    EscapePlain(s);
  }

  lemma {:induction false} EscapePlain(s: string)
    requires forall i :: 0 <= i < |s| ==> !NeedsEscape(s[i])
    ensures Escape(s) == s
    decreases |s|
  {
    if s != [] {
      EscapePlain(s[1..]);
      assert [s[0]] + s[1..] == s;
    }
  }

  function RmUrlTargetLine(workDir: string, repo: string): string {
    "cd " + workDir + " && rm -rf " + repo
  }

  function RmStaleLine(c: Checkout): string {
    "rm -rf " + c.workDir + "/" + c.folder
  }

  function LsRemoteLine(c: Checkout): string {
    "git ls-remote git@github.com:" + c.owner + "/" + c.folder + ".git " + DebugQuote(c.branch)
  }

  function CloneLine(c: Checkout): string {
    "cd " + c.workDir + " && git clone git@github.com:" + c.owner + "/" + c.folder + ".git"
  }

  function BuildLine(c: Checkout, command: string): string {
    "cd " + c.workDir + "/" + c.folder + " && " + command
  }

  function CopyLine(c: Checkout, step: FromTo): string {
    "cd " + c.workDir + "/" + c.folder + " && cp -r " + step.from + " " + step.to
  }

  function RmCloneLine(c: Checkout): string {
    "cd " + c.workDir + " && rm -rf " + c.folder
  }

  function RmDestLine(step: FromTo): string {
    "rm -rf " + step.to
  }

  function RmConfigLine(c: Checkout): string {
    "rm " + c.configPath
  }

  /**
   * The version token of an `ls-remote` listing: the trimmed output up to
   * the first "refs". The separator before "refs" (a tab in git's listing)
   * stays part of the token.
   */
  function VersionToken(stdout: string): (token: string)
    ensures var t := Trim(stdout);
      && |token| <= |t| && token == t[..|token|]
      && (forall i :: 0 <= i < |token| ==> !OccursAt(t, "refs", i))
      && (|token| < |t| ==> OccursAt(t, "refs", |token|))
  {
    BeforeFirst(Trim(stdout), "refs")
  }

  // ---------------------------------------------------------------------
  // The reference definition of a cycle
  // ---------------------------------------------------------------------

  /** A stage either hands its trace on to the next stage or stops the cycle. */
  datatype Stage = Continue(trace: seq<Effect>) | Stop(failure: Failure, trace: seq<Effect>)

  /** The resolved names of a cycle over `config`, or None when its locator is malformed. */
  function CheckoutOf(workDir: string, configPath: string, config: ConfigFile): (r: Option<Checkout>)
    ensures r.Some? <==> ExtractRepoInfo(config.repo).Some?
    ensures r.Some? ==> '/' !in r.value.owner && '/' !in r.value.folder
    ensures r.Some? ==> r.value.branch == (if config.branch.Some? then config.branch.value else "main")
    ensures r.Some? ==> r.value.workDir == workDir && r.value.configPath == configPath
  {
    match ExtractRepoInfo(config.repo)
    case None => None
    case Some((owner, folder)) => Some(Checkout(workDir, configPath, owner, folder, config.branch.GetOr("main")))
  }

  /** The effects before the version query: work-directory creation, then removal of a stale clone. */
  function Preamble(c: Checkout): seq<Effect> {
    WorkDirCreated(c.workDir) + [Exec(RmStale, RmStaleLine(c))]
  }

  /** The first effect of every loaded cycle: creating the work directory (as the parent of a dummy path). */
  function WorkDirCreated(workDir: string): seq<Effect> {
    [EnsureParent(workDir + "/exmaple")]
  }

  function Fetched(c: Checkout): seq<Effect> {
    Preamble(c) + [Exec(LsRemote, LsRemoteLine(c))]
  }

  function Cloned(c: Checkout): seq<Effect> {
    Fetched(c) + [Exec(Clone, CloneLine(c))]
  }

  /** The build commands `i` up to (not including) `j`, as issued. */
  function BuildRun(c: Checkout, build: seq<string>, i: nat, j: nat): seq<Effect>
    requires i <= j <= |build|
    decreases j - i
  {
    if i == j then [] else [Exec(Build(i), BuildLine(c, build[i]))] + BuildRun(c, build, i + 1, j)
  }

  /** The deploy steps `i` up to (not including) `j`, each a directory creation then a copy. */
  function DeployRun(c: Checkout, mouve: seq<FromTo>, i: nat, j: nat): seq<Effect>
    requires i <= j <= |mouve|
    decreases j - i
  {
    if i == j then []
    else [EnsureParent(mouve[i].to + "/example"), Exec(Copy(i), CopyLine(c, mouve[i]))] + DeployRun(c, mouve, i + 1, j)
  }

  /** Build commands from step `i` on; the first failing one removes the clone and stops. */
  function Builds(c: Checkout, build: seq<string>, shell: Shell, i: nat, trace: seq<Effect>): Stage
    requires i <= |build|
    decreases |build| - i
  {
    if i == |build| then Continue(trace)
    else
      var line := BuildLine(c, build[i]);
      var reply := shell(trace, line);
      var after := trace + [Exec(Build(i), line)];
      if reply.Err? then Stop(BuildFailed(i, reply.stderr), after + [Exec(RmClone, RmCloneLine(c))])
      else Builds(c, build, shell, i + 1, after)
  }

  /** Deploy steps from step `i` on; the first failing one removes the clone and its own destination, and stops. */
  function Deploys(c: Checkout, mouve: seq<FromTo>, shell: Shell, i: nat, trace: seq<Effect>): Stage
    requires i <= |mouve|
    decreases |mouve| - i
  {
    if i == |mouve| then Continue(trace)
    else
      var step := mouve[i];
      var prepared := trace + [EnsureParent(step.to + "/example")];
      var line := CopyLine(c, step);
      var reply := shell(prepared, line);
      var after := prepared + [Exec(Copy(i), line)];
      if reply.Err? then
        Stop(CopyFailed(i, reply.stderr), after + [Exec(RmClone, RmCloneLine(c)), Exec(RmDest(i), RmDestLine(step))])
      else Deploys(c, mouve, shell, i + 1, after)
  }

  /** After every step: remove the clone, remove the descriptor, and only if that worked write the new one. */
  function Persist(c: Checkout, config: ConfigFile, shell: Shell, trace: seq<Effect>): CycleResult {
    var cleaned := trace + [Exec(RmClone, RmCloneLine(c))];
    var reply := shell(cleaned, RmConfigLine(c));
    var after := cleaned + [Exec(RmConfig, RmConfigLine(c))];
    if reply.Err? then CycleResult(Failed(RmConfigFailed(reply.stderr)), after)
    else CycleResult(Deployed(config), after + [WriteConfig(c.configPath, config)])
  }

  /** Clone, build, deploy and persist `config` (which already carries the new token). */
  function Rollout(c: Checkout, config: ConfigFile, shell: Shell, trace: seq<Effect>): CycleResult {
    var reply := shell(trace, CloneLine(c));
    var cloned := trace + [Exec(Clone, CloneLine(c))];
    if reply.Err? then CycleResult(Failed(CloneFailed(reply.stderr)), cloned)
    else
      match Builds(c, config.build, shell, 0, cloned)
      case Stop(f, t) => CycleResult(Failed(f), t)
      case Continue(built) =>
        match Deploys(c, config.mouve, shell, 0, built)
        case Stop(f, t) => CycleResult(Failed(f), t)
        case Continue(deployed) => Persist(c, config, shell, deployed)
  }

  function Cycle(workDir: string, configPath: string, loaded: Result<ConfigFile, string>, shell: Shell): CycleResult {
    match loaded
    case Failure(message) => CycleResult(Failed(LoadFailed(message)), [])
    case Success(config) =>
      match CheckoutOf(workDir, configPath, config)
      case None =>
        CycleResult(Failed(MalformedRepoUrl), WorkDirCreated(workDir) + [Exec(RmUrlTarget, RmUrlTargetLine(workDir, config.repo))])
      case Some(c) => Poll(c, config, shell, WorkDirCreated(workDir))
  }

  /**
   * A cycle once the locator is resolved, after the effects `start`: remove a
   * stale clone, query the remote, then stop or roll out the new token.
   */
  function Poll(c: Checkout, config: ConfigFile, shell: Shell, start: seq<Effect>): CycleResult {
    var cleaned := start + [Exec(RmStale, RmStaleLine(c))];
    var reply := shell(cleaned, LsRemoteLine(c));
    var fetched := cleaned + [Exec(LsRemote, LsRemoteLine(c))];
    if reply.Err? then CycleResult(Failed(LsRemoteFailed(reply.stderr)), fetched)
    else
      var token := VersionToken(reply.stdout);
      if config.version.GetOr("") == token then CycleResult(UpToDate, fetched)
      else Rollout(c, config.(version := Some(token), branch := Some(c.branch)), shell, fetched)
  }

  // ---------------------------------------------------------------------
  // The cycle as the source runs it
  // ---------------------------------------------------------------------

  method WatchConfigRepo(workDir: string, configPath: string, loaded: Result<ConfigFile, string>, shell: Shell)
    returns (outcome: Outcome, trace: seq<Effect>)
    ensures CycleResult(outcome, trace) == Cycle(workDir, configPath, loaded, shell)
  {
    trace := [];
    if loaded.Failure? {
      return Failed(LoadFailed(loaded.error)), trace;
    }
    var config := loaded.value;
    var repo := config.repo;
    var actualBranch := match config.branch case Some(b) => b case None => "main";

    trace := trace + [EnsureParent(workDir + "/exmaple")];
    assert trace == WorkDirCreated(workDir);

    var repoInfo := ExtractRepoInfo(repo);
    if repoInfo.None? {
      trace := trace + [Exec(RmUrlTarget, RmUrlTargetLine(workDir, repo))];
      return Failed(MalformedRepoUrl), trace;
    }
    var (username, folderName) := repoInfo.value;
    var c := Checkout(workDir, configPath, username, folderName, actualBranch);
    assert CheckoutOf(workDir, configPath, config) == Some(c);
    outcome, trace := FetchAndRollOut(c, config, shell, trace);
  }

  /**
   * From the resolved locator on: remove a stale clone, query the remote,
   * stop when the token is the recorded one, otherwise record the new token
   * and branch in the descriptor and roll out.
   */
  method FetchAndRollOut(c: Checkout, config: ConfigFile, shell: Shell, start: seq<Effect>)
    returns (outcome: Outcome, trace: seq<Effect>)
    ensures CycleResult(outcome, trace) == Poll(c, config, shell, start)
  {
    var currVersion := match config.version case Some(v) => v case None => "";
    trace := start + [Exec(RmStale, RmStaleLine(c))];
    var reply := shell(trace, LsRemoteLine(c));
    trace := trace + [Exec(LsRemote, LsRemoteLine(c))];
    if reply.Err? {
      return Failed(LsRemoteFailed(reply.stderr)), trace;
    }
    var fetchVersion := VersionToken(reply.stdout);

    if currVersion == fetchVersion {
      return UpToDate, trace;
    }

    var refreshed := config;
    refreshed := refreshed.(version := Some(fetchVersion));
    refreshed := refreshed.(branch := Some(c.branch));
    outcome, trace := RollOut(c, refreshed, shell, trace);
  }

  /**
   * The second half of a cycle, once a new version token has been seen:
   * clone, build, deploy, remove the clone and the descriptor, write back.
   */
  method RollOut(c: Checkout, config: ConfigFile, shell: Shell, fetched: seq<Effect>)
    returns (outcome: Outcome, trace: seq<Effect>)
    ensures CycleResult(outcome, trace) == Rollout(c, config, shell, fetched)
  {
    var reply := shell(fetched, CloneLine(c));
    trace := fetched + [Exec(Clone, CloneLine(c))];
    if reply.Err? {
      return Failed(CloneFailed(reply.stderr)), trace;
    }

    var built := RunBuildSteps(c, config.build, shell, trace);
    if built.Stop? {
      return Failed(built.failure), built.trace;
    }
    var deployed := RunDeploySteps(c, config.mouve, shell, built.trace);
    if deployed.Stop? {
      return Failed(deployed.failure), deployed.trace;
    }
    trace := deployed.trace;
    assert Rollout(c, config, shell, fetched) == Persist(c, config, shell, trace);
    trace := trace + [Exec(RmClone, RmCloneLine(c))];
    reply := shell(trace, RmConfigLine(c));
    trace := trace + [Exec(RmConfig, RmConfigLine(c))];
    if reply.Err? {
      return Failed(RmConfigFailed(reply.stderr)), trace;
    }
    trace := trace + [WriteConfig(c.configPath, config)];
    outcome := Deployed(config);
  }

  /** The build loop: each command in declared order, in the clone; the first failure removes the clone. */
  method RunBuildSteps(c: Checkout, build: seq<string>, shell: Shell, cloned: seq<Effect>) returns (stage: Stage)
    ensures stage == Builds(c, build, shell, 0, cloned)
  {
    var trace := cloned;
    for i := 0 to |build|
      invariant Builds(c, build, shell, 0, cloned) == Builds(c, build, shell, i, trace)
    {
      var line := BuildLine(c, build[i]);
      var reply := shell(trace, line);
      trace := trace + [Exec(Build(i), line)];
      if reply.Err? {
        trace := trace + [Exec(RmClone, RmCloneLine(c))];
        return Stop(BuildFailed(i, reply.stderr), trace);
      }
    }
    return Continue(trace);
  }

  /**
   * The deploy loop: each step creates the destination's parent and copies
   * inside the clone; the first failure removes the clone and that step's
   * destination only.
   */
  method RunDeploySteps(c: Checkout, mouve: seq<FromTo>, shell: Shell, built: seq<Effect>) returns (stage: Stage)
    ensures stage == Deploys(c, mouve, shell, 0, built)
  {
    var trace := built;
    for j := 0 to |mouve|
      invariant Deploys(c, mouve, shell, 0, built) == Deploys(c, mouve, shell, j, trace)
    {
      var step := mouve[j];
      trace := trace + [EnsureParent(step.to + "/example")];
      var line := CopyLine(c, step);
      var reply := shell(trace, line);
      trace := trace + [Exec(Copy(j), line)];
      if reply.Err? {
        trace := trace + [Exec(RmClone, RmCloneLine(c))];
        trace := trace + [Exec(RmDest(j), RmDestLine(step))];
        return Stop(CopyFailed(j, reply.stderr), trace);
      }
    }
    return Continue(trace);
  }
}
