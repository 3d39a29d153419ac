/**
 * What one poll cycle guarantees: which commands run, in which order, which
 * clean-up runs on each failure edge, and that the descriptor is rewritten
 * (with the fetched token and the resolved branch) only after every build
 * and deploy step has succeeded.
 */
module WatchProperties {
  import opened Wrappers
  import opened RepoInfo
  import opened Config
  import opened Watch

  // ---------------------------------------------------------------------
  // The runs of build and deploy steps
  // ---------------------------------------------------------------------

  lemma {:induction false} BuildRunAt(c: Checkout, build: seq<string>, i: nat, j: nat)
    requires i <= j <= |build|
    ensures |BuildRun(c, build, i, j)| == j - i
    ensures forall k :: 0 <= k < j - i ==> BuildRun(c, build, i, j)[k] == Exec(Build(i + k), BuildLine(c, build[i + k]))
    decreases j - i
  {
    if i < j {
      BuildRunAt(c, build, i + 1, j);
    }
  }

  lemma {:induction false} DeployRunAt(c: Checkout, mouve: seq<FromTo>, i: nat, j: nat)
    requires i <= j <= |mouve|
    ensures |DeployRun(c, mouve, i, j)| == 2 * (j - i)
    ensures forall k :: 0 <= k < j - i ==>
      && DeployRun(c, mouve, i, j)[2 * k] == EnsureParent(mouve[i + k].to + "/example")
      && DeployRun(c, mouve, i, j)[2 * k + 1] == Exec(Copy(i + k), CopyLine(c, mouve[i + k]))
    decreases j - i
  {
    if i < j {
      DeployRunAt(c, mouve, i + 1, j);
      var run := DeployRun(c, mouve, i, j);
      var rest := DeployRun(c, mouve, i + 1, j);
      forall k | 0 <= k < j - i
        ensures run[2 * k] == EnsureParent(mouve[i + k].to + "/example")
        ensures run[2 * k + 1] == Exec(Copy(i + k), CopyLine(c, mouve[i + k]))
      {
        if k > 0 {
          var m := k - 1;
          assert run[2 * k] == rest[2 * m] && run[2 * k + 1] == rest[2 * m + 1];
          assert i + 1 + m == i + k;
        }
      }
    }
  }

  /**
   * The build loop from step `i`: it issues the steps in declared order;
   * if every one succeeds it continues with exactly those commands added;
   * otherwise it stops at the first failing step, after which it issues only
   * the removal of the clone.
   */
  lemma {:induction false} BuildsShape(c: Checkout, build: seq<string>, shell: Shell, i: nat, trace: seq<Effect>)
    requires i <= |build|
    ensures var s := Builds(c, build, shell, i, trace);
      s.Continue? ==>
        && s.trace == trace + BuildRun(c, build, i, |build|)
        && forall k :: i <= k < |build| ==> shell(trace + BuildRun(c, build, i, k), BuildLine(c, build[k])).Ok?
    ensures var s := Builds(c, build, shell, i, trace);
      s.Stop? ==>
        && s.failure.BuildFailed?
        && i <= s.failure.step < |build|
        && s.trace == trace + BuildRun(c, build, i, s.failure.step + 1) + [Exec(RmClone, RmCloneLine(c))]
        && (forall k :: i <= k < s.failure.step ==> shell(trace + BuildRun(c, build, i, k), BuildLine(c, build[k])).Ok?)
        && shell(trace + BuildRun(c, build, i, s.failure.step), BuildLine(c, build[s.failure.step])) == Err(s.failure.stderr)
    decreases |build| - i
  {
    if i < |build| {
      var line := BuildLine(c, build[i]);
      var e := Exec(Build(i), line);
      var after := trace + [e];
      assert trace + BuildRun(c, build, i, i) == trace;
      if shell(trace, line).Ok? {
        BuildsShape(c, build, shell, i + 1, after);
        forall k | i + 1 <= k <= |build|
          ensures after + BuildRun(c, build, i + 1, k) == trace + BuildRun(c, build, i, k)
        {
          assert BuildRun(c, build, i, k) == [e] + BuildRun(c, build, i + 1, k);
        }
      } else {
        assert BuildRun(c, build, i, i + 1) == [e];
      }
    }
  }

  /**
   * The deploy loop from step `i`: each step first creates its destination's
   * parent, then copies; the first failing copy is followed only by the
   * removal of the clone and of that step's destination.
   */
  lemma {:induction false} DeploysShape(c: Checkout, mouve: seq<FromTo>, shell: Shell, i: nat, trace: seq<Effect>)
    requires i <= |mouve|
    ensures var s := Deploys(c, mouve, shell, i, trace);
      s.Continue? ==>
        && s.trace == trace + DeployRun(c, mouve, i, |mouve|)
        && forall k :: i <= k < |mouve| ==>
             shell(trace + DeployRun(c, mouve, i, k) + [EnsureParent(mouve[k].to + "/example")], CopyLine(c, mouve[k])).Ok?
    ensures var s := Deploys(c, mouve, shell, i, trace);
      s.Stop? ==>
        && s.failure.CopyFailed?
        && i <= s.failure.step < |mouve|
        && s.trace == trace + DeployRun(c, mouve, i, s.failure.step + 1)
                      + [Exec(RmClone, RmCloneLine(c)), Exec(RmDest(s.failure.step), RmDestLine(mouve[s.failure.step]))]
        && (forall k :: i <= k < s.failure.step ==>
             shell(trace + DeployRun(c, mouve, i, k) + [EnsureParent(mouve[k].to + "/example")], CopyLine(c, mouve[k])).Ok?)
        && shell(trace + DeployRun(c, mouve, i, s.failure.step) + [EnsureParent(mouve[s.failure.step].to + "/example")],
                 CopyLine(c, mouve[s.failure.step])) == Err(s.failure.stderr)
    decreases |mouve| - i
  {
    if i < |mouve| {
      var step := mouve[i];
      var pre := [EnsureParent(step.to + "/example"), Exec(Copy(i), CopyLine(c, step))];
      var prepared := trace + [pre[0]];
      var after := prepared + [pre[1]];
      assert after == trace + pre;
      assert trace + DeployRun(c, mouve, i, i) == trace;
      if shell(prepared, CopyLine(c, step)).Ok? {
        DeploysShape(c, mouve, shell, i + 1, after);
        DeployRunShift(c, mouve, i, trace);
      } else {
        assert DeployRun(c, mouve, i, i + 1) == pre;
      }
    }
  }

  /** After step `i`'s two effects, the runs from `i + 1` extend the runs from `i`. */
  lemma DeployRunShift(c: Checkout, mouve: seq<FromTo>, i: nat, trace: seq<Effect>)
    requires i < |mouve|
    ensures var after := trace + [EnsureParent(mouve[i].to + "/example"), Exec(Copy(i), CopyLine(c, mouve[i]))];
      forall k :: i + 1 <= k <= |mouve| ==> after + DeployRun(c, mouve, i + 1, k) == trace + DeployRun(c, mouve, i, k)
  {
    var pre := [EnsureParent(mouve[i].to + "/example"), Exec(Copy(i), CopyLine(c, mouve[i]))];
    forall k | i + 1 <= k <= |mouve|
      ensures trace + pre + DeployRun(c, mouve, i + 1, k) == trace + DeployRun(c, mouve, i, k)
    {
      assert DeployRun(c, mouve, i, k) == pre + DeployRun(c, mouve, i + 1, k);
    }
  }

  // ---------------------------------------------------------------------
  // Rollouts: clone, builds, deploys, persistence
  // ---------------------------------------------------------------------

  /** The effects after the clone and every build step. */
  function Built(cloned: seq<Effect>, c: Checkout, config: ConfigFile): seq<Effect> {
    cloned + BuildRun(c, config.build, 0, |config.build|)
  }

  /** The effects after the clone, every build step and every deploy step. */
  function AllStepsRun(cloned: seq<Effect>, c: Checkout, config: ConfigFile): seq<Effect> {
    Built(cloned, c, config) + DeployRun(c, config.mouve, 0, |config.mouve|)
  }

  /** The outcomes only a rollout can have. */
  predicate RolloutOutcome(o: Outcome) {
    || o.Deployed?
    || (o.Failed? && (o.failure.CloneFailed? || o.failure.BuildFailed? || o.failure.CopyFailed? || o.failure.RmConfigFailed?))
  }

  lemma RolloutOutcomes(c: Checkout, config: ConfigFile, shell: Shell, trace: seq<Effect>)
    ensures RolloutOutcome(Rollout(c, config, shell, trace).outcome)
  {
    var cloned := trace + [Exec(Clone, CloneLine(c))];
    if shell(trace, CloneLine(c)).Ok? {
      BuildsShape(c, config.build, shell, 0, cloned);
      if Builds(c, config.build, shell, 0, cloned).Continue? {
        DeploysShape(c, config.mouve, shell, 0, Builds(c, config.build, shell, 0, cloned).trace);
      }
    }
  }

  /** A failed clone ends the rollout right after the clone command. */
  lemma RolloutCloneFailure(c: Checkout, config: ConfigFile, shell: Shell, trace: seq<Effect>, stderr: string)
    requires Rollout(c, config, shell, trace).outcome == Failed(CloneFailed(stderr))
    ensures shell(trace, CloneLine(c)) == Err(stderr)
    ensures Rollout(c, config, shell, trace).trace == trace + [Exec(Clone, CloneLine(c))]
  {
    RolloutOutcomes(c, config, shell, trace);
    var cloned := trace + [Exec(Clone, CloneLine(c))];
    if shell(trace, CloneLine(c)).Ok? {
      BuildsShape(c, config.build, shell, 0, cloned);
      if Builds(c, config.build, shell, 0, cloned).Continue? {
        DeploysShape(c, config.mouve, shell, 0, Builds(c, config.build, shell, 0, cloned).trace);
      }
    }
  }

  /** A failing build step: the earlier ones succeeded in order, and only the clone removal follows. */
  lemma RolloutBuildFailure(c: Checkout, config: ConfigFile, shell: Shell, trace: seq<Effect>, step: nat, stderr: string)
    requires Rollout(c, config, shell, trace).outcome == Failed(BuildFailed(step, stderr))
    ensures shell(trace, CloneLine(c)).Ok?
    ensures step < |config.build|
    ensures var cloned := trace + [Exec(Clone, CloneLine(c))];
      && Rollout(c, config, shell, trace).trace == cloned + BuildRun(c, config.build, 0, step + 1) + [Exec(RmClone, RmCloneLine(c))]
      && (forall k :: 0 <= k < step ==> shell(cloned + BuildRun(c, config.build, 0, k), BuildLine(c, config.build[k])).Ok?)
      && shell(cloned + BuildRun(c, config.build, 0, step), BuildLine(c, config.build[step])) == Err(stderr)
  {
    var cloned := trace + [Exec(Clone, CloneLine(c))];
    BuildsShape(c, config.build, shell, 0, cloned);
    if Builds(c, config.build, shell, 0, cloned).Continue? {
      DeploysShape(c, config.mouve, shell, 0, Builds(c, config.build, shell, 0, cloned).trace);
    }
  }

  /**
   * A failing deploy step: every build and the earlier copies succeeded;
   * only the clone and this step's destination are removed after it.
   */
  lemma RolloutCopyFailure(c: Checkout, config: ConfigFile, shell: Shell, trace: seq<Effect>, step: nat, stderr: string)
    requires Rollout(c, config, shell, trace).outcome == Failed(CopyFailed(step, stderr))
    ensures shell(trace, CloneLine(c)).Ok?
    ensures var cloned := trace + [Exec(Clone, CloneLine(c))];
      forall k :: 0 <= k < |config.build| ==> shell(cloned + BuildRun(c, config.build, 0, k), BuildLine(c, config.build[k])).Ok?
    ensures step < |config.mouve|
    ensures var built := Built(trace + [Exec(Clone, CloneLine(c))], c, config);
      && Rollout(c, config, shell, trace).trace
         == built + DeployRun(c, config.mouve, 0, step + 1)
            + [Exec(RmClone, RmCloneLine(c)), Exec(RmDest(step), RmDestLine(config.mouve[step]))]
      && (forall k :: 0 <= k < step ==>
            shell(built + DeployRun(c, config.mouve, 0, k) + [EnsureParent(config.mouve[k].to + "/example")],
                  CopyLine(c, config.mouve[k])).Ok?)
      && shell(built + DeployRun(c, config.mouve, 0, step) + [EnsureParent(config.mouve[step].to + "/example")],
               CopyLine(c, config.mouve[step])) == Err(stderr)
  {
    var cloned := trace + [Exec(Clone, CloneLine(c))];
    BuildsShape(c, config.build, shell, 0, cloned);
    DeploysShape(c, config.mouve, shell, 0, Built(cloned, c, config));
  }

  /**
   * A rollout that reached persistence: the clone, every build step and every
   * deploy step succeeded in order, and what follows is `Persist`.
   */
  lemma RolloutPersists(c: Checkout, config: ConfigFile, shell: Shell, trace: seq<Effect>)
    requires var o := Rollout(c, config, shell, trace).outcome;
      o.Deployed? || (o.Failed? && o.failure.RmConfigFailed?)
    ensures shell(trace, CloneLine(c)).Ok?
    ensures var cloned := trace + [Exec(Clone, CloneLine(c))];
      forall k :: 0 <= k < |config.build| ==> shell(cloned + BuildRun(c, config.build, 0, k), BuildLine(c, config.build[k])).Ok?
    ensures var built := Built(trace + [Exec(Clone, CloneLine(c))], c, config);
      forall k :: 0 <= k < |config.mouve| ==>
        shell(built + DeployRun(c, config.mouve, 0, k) + [EnsureParent(config.mouve[k].to + "/example")],
              CopyLine(c, config.mouve[k])).Ok?
    ensures Rollout(c, config, shell, trace) == Persist(c, config, shell, AllStepsRun(trace + [Exec(Clone, CloneLine(c))], c, config))
  {
    var cloned := trace + [Exec(Clone, CloneLine(c))];
    BuildsShape(c, config.build, shell, 0, cloned);
    DeploysShape(c, config.mouve, shell, 0, Built(cloned, c, config));
  }

  // ---------------------------------------------------------------------
  // Whole cycles
  // ---------------------------------------------------------------------

  /** The version query succeeded and returned a token other than the recorded version. */
  predicate NewVersionFetched(config: ConfigFile, c: Checkout, shell: Shell) {
    var reply := shell(Preamble(c), LsRemoteLine(c));
    reply.Ok? && VersionToken(reply.stdout) != config.version.GetOr("")
  }

  /** The descriptor a rollout carries: the loaded one with the fetched token and the resolved branch. */
  function Refreshed(config: ConfigFile, c: Checkout, shell: Shell): ConfigFile
    requires shell(Preamble(c), LsRemoteLine(c)).Ok?
  {
    config.(version := Some(VersionToken(shell(Preamble(c), LsRemoteLine(c)).stdout)), branch := Some(c.branch))
  }

  /** The effects of a cycle up to the last build step. */
  function AllBuilt(c: Checkout, config: ConfigFile): seq<Effect> {
    Cloned(c) + BuildRun(c, config.build, 0, |config.build|)
  }

  /** The effects of a cycle up to the last deploy step. */
  function AllDeployed(c: Checkout, config: ConfigFile): seq<Effect> {
    AllBuilt(c, config) + DeployRun(c, config.mouve, 0, |config.mouve|)
  }

  predicate RunsStep(trace: seq<Effect>) {
    exists p :: 0 <= p < |trace| && trace[p].Exec? && (trace[p].cmd.Build? || trace[p].cmd.Copy?)
  }

  predicate RunsDeploy(trace: seq<Effect>) {
    exists p :: 0 <= p < |trace| && trace[p].Exec? && trace[p].cmd.Copy?
  }

  predicate RemovesConfig(trace: seq<Effect>) {
    exists p :: 0 <= p < |trace| && trace[p].Exec? && trace[p].cmd == RmConfig
  }

  predicate WritesConfig(trace: seq<Effect>) {
    exists p :: 0 <= p < |trace| && trace[p].WriteConfig?
  }

  /** How the version query decides the rest of a cycle whose locator resolved. */
  lemma FetchDecides(workDir: string, configPath: string, config: ConfigFile, shell: Shell, c: Checkout)
    requires CheckoutOf(workDir, configPath, config) == Some(c)
    ensures c.workDir == workDir && c.configPath == configPath && c.branch == config.branch.GetOr("main")
    ensures var r := Cycle(workDir, configPath, Success(config), shell);
      var reply := shell(Preamble(c), LsRemoteLine(c));
      && (reply.Err? ==> r == CycleResult(Failed(LsRemoteFailed(reply.stderr)), Fetched(c)))
      && (reply.Ok? && VersionToken(reply.stdout) == config.version.GetOr("") ==> r == CycleResult(UpToDate, Fetched(c)))
      && (NewVersionFetched(config, c, shell) ==> r == Rollout(c, Refreshed(config, c, shell), shell, Fetched(c)))
  {
  }

  /** A cycle with a rollout's outcome is the rollout of the refreshed descriptor after the query. */
  lemma CycleRollsOut(workDir: string, configPath: string, config: ConfigFile, shell: Shell, c: Checkout)
    requires CheckoutOf(workDir, configPath, config) == Some(c)
    requires RolloutOutcome(Cycle(workDir, configPath, Success(config), shell).outcome)
    ensures NewVersionFetched(config, c, shell)
    ensures Cycle(workDir, configPath, Success(config), shell) == Rollout(c, Refreshed(config, c, shell), shell, Fetched(c))
  {
    FetchDecides(workDir, configPath, config, shell, c);
  }

  /** A descriptor that cannot be loaded ends the cycle before any effect. */
  lemma LoadFailureDoesNothing(workDir: string, configPath: string, message: string, shell: Shell)
    ensures Cycle(workDir, configPath, Failure(message), shell) == CycleResult(Failed(LoadFailed(message)), [])
  {
  }

  /**
   * A malformed locator ends the cycle after creating the work directory and
   * issuing `cd <work> && rm -rf <locator>`, nothing else.
   */
  lemma MalformedUrlOnlyCleansUp(workDir: string, configPath: string, config: ConfigFile, shell: Shell)
    requires ExtractRepoInfo(config.repo) == None
    ensures Cycle(workDir, configPath, Success(config), shell)
      == CycleResult(Failed(MalformedRepoUrl),
                     [EnsureParent(workDir + "/exmaple"), Exec(RmUrlTarget, "cd " + workDir + " && rm -rf " + config.repo)])
  {
  }

  /**
   * Up to date exactly when the version query succeeds and its token equals
   * the recorded version (absent counts as ""); such a cycle has issued only
   * the stale-clone removal and the query.
   */
  lemma UpToDateIff(workDir: string, configPath: string, config: ConfigFile, shell: Shell, c: Checkout)
    requires CheckoutOf(workDir, configPath, config) == Some(c)
    ensures var r := Cycle(workDir, configPath, Success(config), shell);
      var reply := shell(Preamble(c), LsRemoteLine(c));
      r.outcome == UpToDate <==> reply.Ok? && VersionToken(reply.stdout) == config.version.GetOr("")
    ensures var r := Cycle(workDir, configPath, Success(config), shell);
      r.outcome == UpToDate ==> r.trace == Fetched(c)
  {
    FetchDecides(workDir, configPath, config, shell, c);
    if NewVersionFetched(config, c, shell) {
      RolloutOutcomes(c, Refreshed(config, c, shell), shell, Fetched(c));
    }
  }

  /** A failed clone ends the cycle right after the clone command. */
  lemma CloneFailureAborts(workDir: string, configPath: string, config: ConfigFile, shell: Shell, c: Checkout, stderr: string)
    requires CheckoutOf(workDir, configPath, config) == Some(c)
    requires Cycle(workDir, configPath, Success(config), shell).outcome == Failed(CloneFailed(stderr))
    ensures NewVersionFetched(config, c, shell)
    ensures shell(Fetched(c), CloneLine(c)) == Err(stderr)
    ensures Cycle(workDir, configPath, Success(config), shell).trace == Cloned(c)
  {
    CycleRollsOut(workDir, configPath, config, shell, c);
    RolloutCloneFailure(c, Refreshed(config, c, shell), shell, Fetched(c), stderr);
  }

  /**
   * A failing build step `step`: the steps before it ran in declared order
   * and succeeded, it failed, and the only command after it removes the
   * clone. No deploy step runs and the descriptor is not touched.
   */
  lemma BuildFailureAborts(workDir: string, configPath: string, config: ConfigFile, shell: Shell, c: Checkout,
                           step: nat, stderr: string)
    requires CheckoutOf(workDir, configPath, config) == Some(c)
    requires Cycle(workDir, configPath, Success(config), shell).outcome == Failed(BuildFailed(step, stderr))
    ensures NewVersionFetched(config, c, shell)
    ensures shell(Fetched(c), CloneLine(c)).Ok?
    ensures step < |config.build|
    ensures Cycle(workDir, configPath, Success(config), shell).trace
      == Cloned(c) + BuildRun(c, config.build, 0, step + 1) + [Exec(RmClone, RmCloneLine(c))]
    ensures forall k :: 0 <= k < step ==>
      shell(Cloned(c) + BuildRun(c, config.build, 0, k), BuildLine(c, config.build[k])).Ok?
    ensures shell(Cloned(c) + BuildRun(c, config.build, 0, step), BuildLine(c, config.build[step])) == Err(stderr)
  {
    CycleRollsOut(workDir, configPath, config, shell, c);
    RolloutBuildFailure(c, Refreshed(config, c, shell), shell, Fetched(c), step, stderr);
  }

  /**
   * A failing deploy step `step`: every build step and the deploy steps before
   * it succeeded; after it only the clone and this step's destination are
   * removed (earlier destinations stay), and the descriptor is not touched.
   */
  lemma CopyFailureAborts(workDir: string, configPath: string, config: ConfigFile, shell: Shell, c: Checkout,
                          step: nat, stderr: string)
    requires CheckoutOf(workDir, configPath, config) == Some(c)
    requires Cycle(workDir, configPath, Success(config), shell).outcome == Failed(CopyFailed(step, stderr))
    ensures NewVersionFetched(config, c, shell)
    ensures shell(Fetched(c), CloneLine(c)).Ok?
    ensures forall k :: 0 <= k < |config.build| ==>
      shell(Cloned(c) + BuildRun(c, config.build, 0, k), BuildLine(c, config.build[k])).Ok?
    ensures step < |config.mouve|
    ensures Cycle(workDir, configPath, Success(config), shell).trace
      == AllBuilt(c, config) + DeployRun(c, config.mouve, 0, step + 1)
         + [Exec(RmClone, RmCloneLine(c)), Exec(RmDest(step), RmDestLine(config.mouve[step]))]
    ensures forall k :: 0 <= k < step ==>
      shell(AllBuilt(c, config) + DeployRun(c, config.mouve, 0, k) + [EnsureParent(config.mouve[k].to + "/example")],
            CopyLine(c, config.mouve[k])).Ok?
    ensures shell(AllBuilt(c, config) + DeployRun(c, config.mouve, 0, step) + [EnsureParent(config.mouve[step].to + "/example")],
                  CopyLine(c, config.mouve[step])) == Err(stderr)
  {
    CycleRollsOut(workDir, configPath, config, shell, c);
    var cfg := Refreshed(config, c, shell);
    RolloutCopyFailure(c, cfg, shell, Fetched(c), step, stderr);
    assert Built(Cloned(c), c, cfg) == AllBuilt(c, config);
  }

  /**
   * When every step has succeeded the clone is removed, then the descriptor;
   * if that removal fails the cycle ends there and nothing is written.
   */
  lemma ConfigRemovalFailure(workDir: string, configPath: string, config: ConfigFile, shell: Shell, c: Checkout,
                             stderr: string)
    requires CheckoutOf(workDir, configPath, config) == Some(c)
    requires Cycle(workDir, configPath, Success(config), shell).outcome == Failed(RmConfigFailed(stderr))
    ensures NewVersionFetched(config, c, shell)
    ensures Cycle(workDir, configPath, Success(config), shell).trace
      == AllDeployed(c, config) + [Exec(RmClone, RmCloneLine(c)), Exec(RmConfig, RmConfigLine(c))]
    ensures shell(AllDeployed(c, config) + [Exec(RmClone, RmCloneLine(c))], RmConfigLine(c)) == Err(stderr)
  {
    CycleRollsOut(workDir, configPath, config, shell, c);
    var cfg := Refreshed(config, c, shell);
    RolloutPersists(c, cfg, shell, Fetched(c));
    assert AllStepsRun(Cloned(c), c, cfg) == AllDeployed(c, config);
  }

  /**
   * A deployed cycle: the fetched token differed from the recorded version;
   * the clone, every build step and every deploy step ran in declared order
   * and succeeded; the clone was removed, then the descriptor, and the
   * descriptor written back is the loaded one with `version` set to the
   * fetched token and `branch` to the resolved branch, all else unchanged.
   */
  lemma DeployedCycle(workDir: string, configPath: string, config: ConfigFile, shell: Shell, c: Checkout,
                      written: ConfigFile)
    requires CheckoutOf(workDir, configPath, config) == Some(c)
    requires Cycle(workDir, configPath, Success(config), shell).outcome == Deployed(written)
    ensures NewVersionFetched(config, c, shell)
    ensures written.version == Some(VersionToken(shell(Preamble(c), LsRemoteLine(c)).stdout))
    ensures written.branch == Some(config.branch.GetOr("main"))
    ensures written.repo == config.repo && written.build == config.build
    ensures written.mouve == config.mouve && written.entryPoint == config.entryPoint
    ensures shell(Fetched(c), CloneLine(c)).Ok?
    ensures forall k :: 0 <= k < |config.build| ==>
      shell(Cloned(c) + BuildRun(c, config.build, 0, k), BuildLine(c, config.build[k])).Ok?
    ensures forall k :: 0 <= k < |config.mouve| ==>
      shell(AllBuilt(c, config) + DeployRun(c, config.mouve, 0, k) + [EnsureParent(config.mouve[k].to + "/example")],
            CopyLine(c, config.mouve[k])).Ok?
    ensures shell(AllDeployed(c, config) + [Exec(RmClone, RmCloneLine(c))], RmConfigLine(c)).Ok?
    ensures Cycle(workDir, configPath, Success(config), shell).trace
      == AllDeployed(c, config) + [Exec(RmClone, RmCloneLine(c)), Exec(RmConfig, RmConfigLine(c)), WriteConfig(configPath, written)]
  {
    CycleRollsOut(workDir, configPath, config, shell, c);
    var cfg := Refreshed(config, c, shell);
    assert cfg.build == config.build && cfg.mouve == config.mouve;
    assert Built(Cloned(c), c, cfg) == AllBuilt(c, config);
    assert AllStepsRun(Cloned(c), c, cfg) == AllDeployed(c, config);
    RolloutPersists(c, cfg, shell, Fetched(c));
    PersistDeployed(c, cfg, shell, AllDeployed(c, config), written);
  }

  /** A persistence that deployed removed the clone and the descriptor, then wrote exactly the descriptor it was given. */
  lemma PersistDeployed(c: Checkout, config: ConfigFile, shell: Shell, trace: seq<Effect>, written: ConfigFile)
    requires Persist(c, config, shell, trace).outcome == Deployed(written)
    ensures written == config
    ensures shell(trace + [Exec(RmClone, RmCloneLine(c))], RmConfigLine(c)).Ok?
    ensures Persist(c, config, shell, trace).trace
      == trace + [Exec(RmClone, RmCloneLine(c)), Exec(RmConfig, RmConfigLine(c)), WriteConfig(c.configPath, config)]
  {
  }

  // ---------------------------------------------------------------------
  // The descriptor changes only after every step
  // ---------------------------------------------------------------------

  /** No build or deploy step, no descriptor removal and no descriptor write. */
  predicate Quiet(trace: seq<Effect>) {
    forall p :: 0 <= p < |trace| ==>
      && !trace[p].WriteConfig?
      && !(trace[p].Exec? && (trace[p].cmd.Build? || trace[p].cmd.Copy? || trace[p].cmd == RmConfig))
  }

  lemma ClonedIsQuiet(c: Checkout)
    ensures Quiet(Fetched(c)) && Quiet(Cloned(c))
  {
    assert Fetched(c) == [EnsureParent(c.workDir + "/exmaple"), Exec(RmStale, RmStaleLine(c)), Exec(LsRemote, LsRemoteLine(c))];
    assert Cloned(c) == Fetched(c) + [Exec(Clone, CloneLine(c))];
  }

  /**
   * A cycle that ends before or at the clone (unloadable descriptor,
   * malformed locator, failed version query, up to date, failed clone)
   * runs no build or deploy step and neither removes nor writes the descriptor.
   */
  lemma EarlyEndsTouchNothing(workDir: string, configPath: string, loaded: Result<ConfigFile, string>, shell: Shell)
    ensures var r := Cycle(workDir, configPath, loaded, shell);
      !RolloutOutcome(r.outcome) || (r.outcome.Failed? && r.outcome.failure.CloneFailed?) ==>
        !RunsStep(r.trace) && !RemovesConfig(r.trace) && !WritesConfig(r.trace)
  {
    var r := Cycle(workDir, configPath, loaded, shell);
    if !RolloutOutcome(r.outcome) || (r.outcome.Failed? && r.outcome.failure.CloneFailed?) {
      EarlyEndsAreQuiet(workDir, configPath, loaded, shell);
      QuietTouchesNothing(r.trace);
    }
  }

  lemma EarlyEndsAreQuiet(workDir: string, configPath: string, loaded: Result<ConfigFile, string>, shell: Shell)
    ensures var r := Cycle(workDir, configPath, loaded, shell);
      !RolloutOutcome(r.outcome) || (r.outcome.Failed? && r.outcome.failure.CloneFailed?) ==> Quiet(r.trace)
  {
    var r := Cycle(workDir, configPath, loaded, shell);
    if loaded.Success? && CheckoutOf(workDir, configPath, loaded.value).Some? {
      var config := loaded.value;
      var c := CheckoutOf(workDir, configPath, config).value;
      ClonedIsQuiet(c);
      FetchDecides(workDir, configPath, config, shell, c);
      if NewVersionFetched(config, c, shell) {
        var cfg := Refreshed(config, c, shell);
        RolloutOutcomes(c, cfg, shell, Fetched(c));
        if r.outcome.Failed? && r.outcome.failure.CloneFailed? {
          RolloutCloneFailure(c, cfg, shell, Fetched(c), r.outcome.failure.stderr);
        }
      }
    }
  }

  lemma QuietTouchesNothing(trace: seq<Effect>)
    requires Quiet(trace)
    ensures !RunsStep(trace) && !RemovesConfig(trace) && !WritesConfig(trace)
  {
  }

  /** No effect of a deploy run is a descriptor removal or write. */
  lemma DeployRunKinds(c: Checkout, mouve: seq<FromTo>, i: nat, j: nat)
    requires i <= j <= |mouve|
    ensures forall p :: 0 <= p < |DeployRun(c, mouve, i, j)| ==>
      DeployRun(c, mouve, i, j)[p].EnsureParent? || (DeployRun(c, mouve, i, j)[p].Exec? && DeployRun(c, mouve, i, j)[p].cmd.Copy?)
  {
    DeployRunAt(c, mouve, i, j);
    forall p | 0 <= p < |DeployRun(c, mouve, i, j)|
      ensures DeployRun(c, mouve, i, j)[p].EnsureParent? || (DeployRun(c, mouve, i, j)[p].Exec? && DeployRun(c, mouve, i, j)[p].cmd.Copy?)
    {
      var k := p / 2;
      assert p == 2 * k || p == 2 * k + 1;
    }
  }

  /** A trace made of pieces without descriptor writes has none. */
  lemma NoConfigEffects(a: seq<Effect>, b: seq<Effect>, tail: seq<Effect>)
    requires forall p :: 0 <= p < |a| ==> !a[p].WriteConfig? && !(a[p].Exec? && a[p].cmd == RmConfig)
    requires forall p :: 0 <= p < |b| ==> !b[p].WriteConfig? && !(b[p].Exec? && b[p].cmd == RmConfig)
    requires forall p :: 0 <= p < |tail| ==> !tail[p].WriteConfig?
    ensures !WritesConfig(a + b + tail)
    ensures RemovesConfig(a + b + tail) ==> exists p :: 0 <= p < |tail| && tail[p].Exec? && tail[p].cmd == RmConfig
  {
    var t := a + b + tail;
    forall p | 0 <= p < |t|
      ensures !t[p].WriteConfig?
      ensures t[p].Exec? && t[p].cmd == RmConfig ==> tail[p - |a| - |b|].Exec? && tail[p - |a| - |b|].cmd == RmConfig
    {
      if p < |a| { assert t[p] == a[p]; }
      else if p < |a| + |b| { assert t[p] == b[p - |a|]; }
      else { assert t[p] == tail[p - |a| - |b|]; }
    }
  }

  /** The effects of a cycle stopped by build step `step`: no copy and no descriptor change. */
  lemma BuildFailureTraceKeepsDescriptor(c: Checkout, build: seq<string>, step: nat)
    requires step < |build|
    ensures var t := Cloned(c) + BuildRun(c, build, 0, step + 1) + [Exec(RmClone, RmCloneLine(c))];
      !RunsDeploy(t) && !RemovesConfig(t) && !WritesConfig(t)
  {
    var run := BuildRun(c, build, 0, step + 1);
    BuildRunAt(c, build, 0, step + 1);
    ClonedIsQuiet(c);
    var t := Cloned(c) + run + [Exec(RmClone, RmCloneLine(c))];
    forall p | 0 <= p < |t|
      ensures !(t[p].Exec? && t[p].cmd.Copy?) && !(t[p].Exec? && t[p].cmd == RmConfig) && !t[p].WriteConfig?
    {
      if p < |Cloned(c)| { assert t[p] == Cloned(c)[p]; }
      else if p < |Cloned(c)| + |run| { assert t[p] == run[p - |Cloned(c)|]; }
    }
  }

  /** A failed build step leaves the descriptor alone and runs no deploy step. */
  lemma BuildFailureKeepsDescriptor(workDir: string, configPath: string, config: ConfigFile, shell: Shell, c: Checkout,
                                    step: nat, stderr: string)
    requires CheckoutOf(workDir, configPath, config) == Some(c)
    requires Cycle(workDir, configPath, Success(config), shell).outcome == Failed(BuildFailed(step, stderr))
    ensures var t := Cycle(workDir, configPath, Success(config), shell).trace;
      !RunsDeploy(t) && !RemovesConfig(t) && !WritesConfig(t)
  {
    BuildFailureAborts(workDir, configPath, config, shell, c, step, stderr);
    BuildFailureTraceKeepsDescriptor(c, config.build, step);
  }

  /** The effects up to the last build step hold no descriptor change. */
  lemma AllBuiltKeepsDescriptor(c: Checkout, config: ConfigFile)
    ensures forall p :: 0 <= p < |AllBuilt(c, config)| ==>
      !AllBuilt(c, config)[p].WriteConfig? && !(AllBuilt(c, config)[p].Exec? && AllBuilt(c, config)[p].cmd == RmConfig)
  {
    var run := BuildRun(c, config.build, 0, |config.build|);
    BuildRunAt(c, config.build, 0, |config.build|);
    ClonedIsQuiet(c);
    var t := AllBuilt(c, config);
    forall p | 0 <= p < |t|
      ensures !t[p].WriteConfig? && !(t[p].Exec? && t[p].cmd == RmConfig)
    {
      if p < |Cloned(c)| { assert t[p] == Cloned(c)[p]; }
      else { assert t[p] == run[p - |Cloned(c)|]; }
    }
  }

  /** The effects of a cycle stopped by deploy step `step`: no descriptor change. */
  lemma CopyFailureTraceKeepsDescriptor(c: Checkout, config: ConfigFile, step: nat)
    requires step < |config.mouve|
    ensures var t := AllBuilt(c, config) + DeployRun(c, config.mouve, 0, step + 1)
                     + [Exec(RmClone, RmCloneLine(c)), Exec(RmDest(step), RmDestLine(config.mouve[step]))];
      !RemovesConfig(t) && !WritesConfig(t)
  {
    AllBuiltKeepsDescriptor(c, config);
    DeployRunKinds(c, config.mouve, 0, step + 1);
    NoConfigEffects(AllBuilt(c, config), DeployRun(c, config.mouve, 0, step + 1),
                    [Exec(RmClone, RmCloneLine(c)), Exec(RmDest(step), RmDestLine(config.mouve[step]))]);
  }

  /** A failed deploy step leaves the descriptor alone. */
  lemma CopyFailureKeepsDescriptor(workDir: string, configPath: string, config: ConfigFile, shell: Shell, c: Checkout,
                                   step: nat, stderr: string)
    requires CheckoutOf(workDir, configPath, config) == Some(c)
    requires Cycle(workDir, configPath, Success(config), shell).outcome == Failed(CopyFailed(step, stderr))
    ensures var t := Cycle(workDir, configPath, Success(config), shell).trace;
      !RemovesConfig(t) && !WritesConfig(t)
  {
    var t := Cycle(workDir, configPath, Success(config), shell).trace;
    assert step < |config.mouve| && t == AllBuilt(c, config) + DeployRun(c, config.mouve, 0, step + 1)
                     + [Exec(RmClone, RmCloneLine(c)), Exec(RmDest(step), RmDestLine(config.mouve[step]))] by {
      CopyFailureAborts(workDir, configPath, config, shell, c, step, stderr);
    }
    CopyFailureTraceKeepsDescriptor(c, config, step);
  }

  /** The effects of a cycle that failed to remove the descriptor: no descriptor write. */
  lemma ConfigRemovalTraceWritesNothing(c: Checkout, config: ConfigFile)
    ensures !WritesConfig(AllDeployed(c, config) + [Exec(RmClone, RmCloneLine(c)), Exec(RmConfig, RmConfigLine(c))])
  {
    AllBuiltKeepsDescriptor(c, config);
    DeployRunKinds(c, config.mouve, 0, |config.mouve|);
    NoConfigEffects(AllBuilt(c, config), DeployRun(c, config.mouve, 0, |config.mouve|),
                    [Exec(RmClone, RmCloneLine(c)), Exec(RmConfig, RmConfigLine(c))]);
  }

  /** When removing the descriptor fails, nothing is written. */
  lemma ConfigRemovalFailureWritesNothing(workDir: string, configPath: string, config: ConfigFile, shell: Shell, c: Checkout,
                                          stderr: string)
    requires CheckoutOf(workDir, configPath, config) == Some(c)
    requires Cycle(workDir, configPath, Success(config), shell).outcome == Failed(RmConfigFailed(stderr))
    ensures !WritesConfig(Cycle(workDir, configPath, Success(config), shell).trace)
  {
    var t := Cycle(workDir, configPath, Success(config), shell).trace;
    assert t == AllDeployed(c, config) + [Exec(RmClone, RmCloneLine(c)), Exec(RmConfig, RmConfigLine(c))] by {
      ConfigRemovalFailure(workDir, configPath, config, shell, c, stderr);
    }
    ConfigRemovalTraceWritesNothing(c, config);
  }

  /**
   * The descriptor is written back exactly when the cycle deployed, and it is
   * even removed only once every build and deploy step has succeeded, so the
   * recorded version never advances on a failed or up-to-date cycle.
   */
  lemma DescriptorTouchedOnlyAfterAllSteps(workDir: string, configPath: string, loaded: Result<ConfigFile, string>, shell: Shell)
    ensures var r := Cycle(workDir, configPath, loaded, shell);
      WritesConfig(r.trace) <==> r.outcome.Deployed?
    ensures var r := Cycle(workDir, configPath, loaded, shell);
      RemovesConfig(r.trace) ==> r.outcome.Deployed? || (r.outcome.Failed? && r.outcome.failure.RmConfigFailed?)
  {
    var r := Cycle(workDir, configPath, loaded, shell);
    EarlyEndsTouchNothing(workDir, configPath, loaded, shell);
    if loaded.Success? && CheckoutOf(workDir, configPath, loaded.value).Some? {
      var config := loaded.value;
      var c := CheckoutOf(workDir, configPath, config).value;
      match r.outcome
      case UpToDate =>
      case Deployed(written) =>
        DeployedCycle(workDir, configPath, config, shell, c, written);
        assert r.trace[|r.trace| - 1].WriteConfig?;
      case Failed(f) =>
        match f
        case BuildFailed(step, e) =>
          BuildFailureKeepsDescriptor(workDir, configPath, config, shell, c, step, e);
        case CopyFailed(step, e) =>
          CopyFailureKeepsDescriptor(workDir, configPath, config, shell, c, step, e);
        case RmConfigFailed(e) =>
          ConfigRemovalFailureWritesNothing(workDir, configPath, config, shell, c, e);
        case _ =>
    }
  }
}
