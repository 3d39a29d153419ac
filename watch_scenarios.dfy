/**
 * Concrete cycles over the descriptor
 * `{repo: "git@host:acme/widget.git", branch: "main", build: ["make"],
 *   mouve: [{from: "dist", to: "/srv/widget"}]}`
 * with a remote that answers every command successfully.
 */
module WatchScenarios {
  import opened Wrappers
  import opened Text
  import opened RepoInfo
  import opened Config
  import opened Watch
  import opened WatchProperties

  function Widget(version: Option<string>): ConfigFile {
    ConfigFile("git@host:acme/widget.git", ["make"], [FromTo("dist", "/srv/widget")], version, Some("main"), None)
  }

  /** A shell on which every command succeeds and prints `out`. */
  function Always(out: string): Shell {
    (trace: seq<Effect>, line: string) => Ok(out)
  }

  function WidgetCheckout(workDir: string, configPath: string): Checkout {
    Checkout(workDir, configPath, "git@host:acme", "widget", "main")
  }

  lemma WidgetResolves(workDir: string, configPath: string, version: Option<string>)
    ensures CheckoutOf(workDir, configPath, Widget(version)) == Some(WidgetCheckout(workDir, configPath))
  {
    ExtractRepoInfoComplete([], "git@host:acme", "widget");
    assert [] + "git@host:acme" + "/" + "widget" + ".git" == "git@host:acme/widget.git";
  }

  /** A commit hash as git lists it: non-empty, hexadecimal digits in practice; here no `r` and no whitespace. */
  predicate PlainHash(hash: string) {
    |hash| > 0 && forall i :: 0 <= i < |hash| ==> hash[i] != 'r' && !IsWhitespace(hash[i])
  }

  /** `git ls-remote` output for one branch: the hash, a tab, the ref name, a newline. */
  function Listing(hash: string): string {
    hash + "\trefs/heads/main\n"
  }

  /**
   * The token of a git listing line keeps the tab that separates the hash
   * from the ref name.
   */
  lemma ListingToken(hash: string)
    requires PlainHash(hash)
    ensures VersionToken(Listing(hash)) == hash + "\t"
  {
    ListingTrimmed(hash);
    TokenBeforeRefs(hash);
  }

  /** Trimming a listing line drops only its final newline. */
  lemma ListingTrimmed(hash: string)
    requires PlainHash(hash)
    ensures Trim(Listing(hash)) == hash + "\trefs/heads/main"
  {
    var s := Listing(hash);
    var t := s[..|s| - 1];
    assert t == hash + "\trefs/heads/main";
    assert TrimStart(s) == s;
    assert TrimEnd(t) == t;
    assert TrimEnd(s) == t;
  }

  /** The first `refs` of the trimmed line comes right after the hash and its tab. */
  lemma TokenBeforeRefs(hash: string)
    requires PlainHash(hash)
    ensures BeforeFirst(hash + "\trefs/heads/main", "refs") == hash + "\t"
  {
    var t := hash + "\trefs/heads/main";
    var k := |hash| + 1;
    assert t[|hash|] == '\t' && t[k..k + 4] == "refs";
    forall i | 0 <= i < k
      ensures !OccursAt(t, "refs", i)
    {
      assert t[i] != 'r';
    }
    BeforeFirstAt(t, "refs", k);
    assert t[..k] == hash + "\t";
  }

  /** On a shell where every command succeeds, a rollout deploys. */
  lemma {:induction false} RolloutOnHealthyShell(c: Checkout, config: ConfigFile, shell: Shell, trace: seq<Effect>)
    requires forall t, line :: shell(t, line).Ok?
    ensures Rollout(c, config, shell, trace).outcome == Deployed(config)
  {
    var cloned := trace + [Exec(Clone, CloneLine(c))];
    BuildsShape(c, config.build, shell, 0, cloned);
    if Builds(c, config.build, shell, 0, cloned).Continue? {
      DeploysShape(c, config.mouve, shell, 0, Builds(c, config.build, shell, 0, cloned).trace);
    }
  }

  /** The hash recorded without its tab never matches the token, so the cycle redeploys. */
  lemma BareHashIsNotUpToDate(workDir: string, configPath: string, hash: string)
    requires PlainHash(hash)
    ensures Cycle(workDir, configPath, Success(Widget(Some(hash))), Always(Listing(hash))).outcome.Deployed?
  {
    var config := Widget(Some(hash));
    var c := WidgetCheckout(workDir, configPath);
    var shell := Always(Listing(hash));
    WidgetResolves(workDir, configPath, Some(hash));
    ListingToken(hash);
    FetchDecides(workDir, configPath, config, shell, c);
    RolloutOnHealthyShell(c, config.(version := Some(hash + "\t"), branch := Some("main")), shell, Fetched(c));
  }

  /**
   * With the token as a previous cycle recorded it, the cycle is up to date:
   * it creates the work directory and issues only the stale-clone removal and the query.
   */
  lemma RecordedTokenIsUpToDate(workDir: string, configPath: string, hash: string)
    requires PlainHash(hash)
    ensures var r := Cycle(workDir, configPath, Success(Widget(Some(hash + "\t"))), Always(Listing(hash)));
      r.outcome == UpToDate && r.trace == Fetched(WidgetCheckout(workDir, configPath))
  {
    var config := Widget(Some(hash + "\t"));
    var c := WidgetCheckout(workDir, configPath);
    var shell := Always(Listing(hash));
    WidgetResolves(workDir, configPath, Some(hash + "\t"));
    ListingToken(hash);
    FetchDecides(workDir, configPath, config, shell, c);
  }

  /**
   * A descriptor never synchronised, against a remote whose listing is empty
   * (no such branch), counts as up to date: both sides are "".
   */
  lemma EmptyListingOnFreshDescriptor(workDir: string, configPath: string)
    ensures Cycle(workDir, configPath, Success(Widget(None)), Always("")).outcome == UpToDate
  {
    var c := WidgetCheckout(workDir, configPath);
    WidgetResolves(workDir, configPath, None);
    assert VersionToken("") == "" by { assert Trim("") == ""; }
    FetchDecides(workDir, configPath, Widget(None), Always(""), c);
  }

  /** A new hash: the rollout deploys the descriptor with the new token recorded. */
  lemma NewTokenDeploys(workDir: string, configPath: string, recorded: string, hash: string)
    requires PlainHash(hash) && recorded != hash + "\t"
    ensures Cycle(workDir, configPath, Success(Widget(Some(recorded))), Always(Listing(hash))).outcome
      == Deployed(Widget(Some(hash + "\t")))
  {
    var config := Widget(Some(recorded));
    var c := WidgetCheckout(workDir, configPath);
    var shell := Always(Listing(hash));
    WidgetResolves(workDir, configPath, Some(recorded));
    ListingToken(hash);
    FetchDecides(workDir, configPath, config, shell, c);
    var cfg := Widget(Some(hash + "\t"));
    assert config.(version := Some(hash + "\t"), branch := Some("main")) == cfg;
    RolloutOnHealthyShell(c, cfg, shell, Fetched(c));
  }

  /**
   * The commands of that deploying cycle: the clone, `make` in the clone
   * root, the copy of `dist` to `/srv/widget`, the clean-up, and the rewrite.
   */
  lemma NewTokenTrace(workDir: string, configPath: string, recorded: string, hash: string)
    requires PlainHash(hash) && recorded != hash + "\t"
    ensures var c := WidgetCheckout(workDir, configPath);
      Cycle(workDir, configPath, Success(Widget(Some(recorded))), Always(Listing(hash))).trace
      == Cloned(c)
         + [Exec(Build(0), BuildLine(c, "make"))]
         + [EnsureParent("/srv/widget" + "/example"), Exec(Copy(0), CopyLine(c, FromTo("dist", "/srv/widget")))]
         + [Exec(RmClone, RmCloneLine(c)), Exec(RmConfig, RmConfigLine(c)), WriteConfig(configPath, Widget(Some(hash + "\t")))]
  {
    var config := Widget(Some(recorded));
    var c := WidgetCheckout(workDir, configPath);
    var shell := Always(Listing(hash));
    var cfg := Widget(Some(hash + "\t"));
    var b := Exec(Build(0), BuildLine(c, "make"));
    var e := EnsureParent("/srv/widget" + "/example");
    var d := Exec(Copy(0), CopyLine(c, FromTo("dist", "/srv/widget")));
    var tail := [Exec(RmClone, RmCloneLine(c)), Exec(RmConfig, RmConfigLine(c)), WriteConfig(configPath, cfg)];
    var cloned := Cloned(c);
    assert Cycle(workDir, configPath, Success(config), shell).trace == cloned + [b] + [e, d] + tail by {
      WidgetResolves(workDir, configPath, Some(recorded));
      NewTokenDeploys(workDir, configPath, recorded, hash);
      DeployedCycle(workDir, configPath, config, shell, c, cfg);
      assert BuildRun(c, config.build, 0, 1) == [b];
      assert DeployRun(c, config.mouve, 0, 1) == [e, d];
      assert AllDeployed(c, config) == cloned + [b] + [e, d];
    }
  }

  /**
   * A descriptor whose locator is `/` is malformed, and the clean-up of the
   * malformed locator then runs `rm -rf /` from the work directory.
   */
  lemma RootLocatorRemovesRoot(workDir: string, configPath: string, config: ConfigFile, shell: Shell)
    requires config.repo == "/"
    ensures Cycle(workDir, configPath, Success(config), shell)
      == CycleResult(Failed(MalformedRepoUrl), [EnsureParent(workDir + "/exmaple"), Exec(RmUrlTarget, "cd " + workDir + " && rm -rf /")])
  {
    TrailingSlashIsRejected(config.repo);
    MalformedUrlOnlyCleansUp(workDir, configPath, config, shell);
    var cd := "cd " + workDir;
    assert cd + " && rm -rf " + config.repo == cd + " && rm -rf /";
  }

  /**
   * An SSH locator `git@github.com:<owner>/<name>.git` resolves with the host
   * kept in the owner part.
   */
  lemma SshLocatorKeepsHost(workDir: string, configPath: string, config: ConfigFile, owner: string, name: string)
    requires config.repo == "git@github.com:" + owner + "/" + name + ".git"
    requires '/' !in owner && '/' !in name
    ensures CheckoutOf(workDir, configPath, config)
      == Some(Checkout(workDir, configPath, "git@github.com:" + owner, name, config.branch.GetOr("main")))
  {
    var host := "git@github.com:";
    assert config.repo == [] + (host + owner) + "/" + name + ".git";
    ExtractRepoInfoComplete([], host + owner, name);
  }

  /** With such an owner part, the version query names the remote with `git@github.com:` written twice. */
  lemma QueryDoublesHost(c: Checkout, owner: string)
    requires c.owner == "git@github.com:" + owner
    ensures LsRemoteLine(c) == "git ls-remote git@github.com:git@github.com:" + owner + "/" + c.folder + ".git " + DebugQuote(c.branch)
  {
    var query := "git ls-remote git@github.com:";
    var doubled := "git ls-remote git@github.com:git@github.com:";
    assert query + "git@github.com:" == doubled;
    assert query + ("git@github.com:" + owner) == doubled + owner;
  }

  /** The clone names the remote the same way. */
  lemma CloneDoublesHost(c: Checkout, owner: string)
    requires c.owner == "git@github.com:" + owner
    ensures CloneLine(c) == "cd " + c.workDir + " && git clone git@github.com:git@github.com:" + owner + "/" + c.folder + ".git"
  {
    var clone := " && git clone git@github.com:";
    var doubled := " && git clone git@github.com:git@github.com:";
    assert clone + "git@github.com:" == doubled;
    var cd := "cd " + c.workDir;
    assert cd + clone + ("git@github.com:" + owner) == cd + doubled + owner;
  }
}
