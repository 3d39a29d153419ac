# fast_flow utilities — a Dafny model

fast_flow watches a git repository described by a JSON descriptor. On every
poll cycle it asks the remote for the tracked branch's current commit. When
that commit differs from the one recorded in the descriptor, it clones the
repository, runs the build commands, copies the build outputs to their
destinations, removes the clone and rewrites the descriptor with the new
token. This project models the pure and sequential core of
`src/utils/utils.rs`:

- `extract_repo_info` splits a remote locator into owner and repository (module `RepoInfo`).
- `watch_config_repo` is one poll cycle (modules `Watch`, `WatchProperties`, `WatchScenarios`).
- `load_env_file` parses a `.env` file once it has been read (module `EnvFile`).
- `get_process_runner` and `check_existing_runner` pick the interpreter for an entry point (module `Runner`).
- The descriptor record `ConfigFile` is module `Config`.
- The Rust `str` operations these need are module `Text`: `split`, `trim` over Unicode White_Space, `split(pat).next()`, `strip_suffix`, and the first index of a character. `lines()` (`EnvFile.Lines`) and `splitn(2, _)` (`EnvFile.SplitOnce`) are in module `EnvFile`.

How a cycle is modelled:

- Every side effect is an `Effect` appended to the cycle's trace:
  - `EnsureParent(path)` is `check_dir_exist_or_create`;
  - `Exec(kind, line)` is `execute_commande` with the exact command line;
  - `WriteConfig(path, config)` is the descriptor write.
- `execute_commande` is an oracle `Shell`. It answers `Ok(stdout)` or `Err(stderr)` for a command line, given every effect issued earlier in the cycle.
- The loaded descriptor is an input `Result<ConfigFile, string>`.
- `Watch.Cycle` is the reference definition of a cycle.
- `Watch.WatchConfigRepo` is the cycle as the source writes it: statement by statement, with its two `for` loops and the in-place update of `version` and `branch`. It is proved to give exactly `Cycle`'s outcome and trace.
- The lemmas in `WatchProperties` state what a cycle guarantees.

Behaviour of the code that the model keeps:

- After a malformed locator the cycle still runs a destructive command, `cd <work> && rm -rf <locator>`. For the locator `/` that command is `rm -rf /`, run from the work directory (`WatchScenarios.RootLocatorRemovesRoot`). A locator without the `.git` ending is malformed too, so an absolute path such as `/home/user` is handed to `rm -rf` the same way (`WatchProperties.MalformedUrlOnlyCleansUp`).
- The descriptor is rewritten by removing it and then writing it. There is no write-then-rename step.
- Before each copy the cycle creates the parent of `<to>/example`, which is the destination `<to>` itself, not its parent.

Further details:

- The version token is the trimmed `ls-remote` output up to the first `refs`. The tab that git prints between hash and ref name stays part of it: `abc123\trefs/heads/main\n` gives `abc123\t`.
  - A descriptor recording `abc123` is therefore never up to date against that remote (`WatchScenarios.BareHashIsNotUpToDate`).
  - After one deploy the token `abc123\t` is recorded, and later cycles agree with it (`WatchScenarios.RecordedTokenIsUpToDate`).
- `rm -rf <work>/<folder>` is issued before the version query, so it runs even on a cycle that turns out to be up to date.
- An empty `ls-remote` listing gives the token `""`. A never-synchronised descriptor also counts its missing version as `""`, so such a cycle is "up to date" and never deploys (`WatchScenarios.EmptyListingOnFreshDescriptor`).
- The locator is cut at every `/`, and its last two pieces are taken as they are, even when empty.
  - `a/.git` gives repository `""`.
  - In the SSH form `git@host:acme/widget.git` the owner is `git@host:acme`.
  - The version query and the clone then put `git@github.com:` in front of that owner. For `git@github.com:acme/widget.git` they name the remote `git@github.com:git@github.com:acme/widget.git` (`WatchScenarios.QueryDoublesHost`, `WatchScenarios.CloneDoublesHost`).
- In `load_env_file` a line starting with `#` is skipped only when it has no `=`. Lines without `=` are skipped anyway, so `#KEY=v` defines the key `#KEY`.

## Model

| member | source | states |
|---|---|---|
| `Text.Split` | src/utils/utils.rs:110 | `split(c)`: at least one piece, and no piece holds the separator |
| `Text.JoinSplit` | src/utils/utils.rs:110 | joining the pieces of `split(c)` with `c` gives the text back |
| `Text.SplitJoin` | src/utils/utils.rs:110 | splitting a join of separator-free pieces gives those pieces back |
| `Text.SplitAround` | src/utils/utils.rs:110 | the pieces of `a + sep + b` are the pieces of `a` followed by those of `b` |
| `Text.SplitWithoutSeparator` | src/utils/utils.rs:110 | a text without the separator is a single piece |
| `Text.JoinSnoc` | src/utils/utils.rs:110 | joining one more piece appends the separator and that piece |
| `Text.TrimStart` | src/utils/utils.rs:257 | drops exactly the leading White_Space characters |
| `Text.TrimEnd` | src/utils/utils.rs:257 | drops exactly the trailing White_Space characters |
| `Text.Trim` | src/utils/utils.rs:257 | the result is a slice of the input, everything around it is whitespace, and it neither starts nor ends with whitespace |
| `Text.TrimOfTrimmed` | src/utils/utils.rs:529 | a text with no whitespace at either end is its own trim |
| `Text.TrimKeepsFirst` | src/utils/utils.rs:529 | trimming keeps a non-whitespace first character |
| `Text.BeforeFirst` | src/utils/utils.rs:257 | `split(pat).next()`: a prefix with no occurrence of the pattern before its end, and an occurrence right after it unless it is the whole text |
| `Text.BeforeFirstAt` | src/utils/utils.rs:257 | those conditions determine the cut uniquely |
| `Text.StripSuffix` | src/utils/utils.rs:118 | succeeds exactly when the text ends with the suffix, and gives back what precedes it |
| `Text.IndexOf` | src/utils/utils.rs:527 | the position of the first occurrence of a character |
| `Text.IndexOfAt` | src/utils/utils.rs:527 | an occurrence with none before it is the first |
| `RepoInfo.ExtractRepoInfo` | src/utils/utils.rs:109-125 | a result has no `/` in the owner or the repository; `ExtractRepoInfoSound` and `ExtractRepoInfoComplete` give the exact shape of the locators that yield a result |
| `RepoInfo.ExtractRepoInfoSound` | src/utils/utils.rs:109-125 | a result `(owner, repo)` has no `/` in either part, and the locator is `<prefix><owner>/<repo>.git` with the prefix empty or ending in `/` |
| `RepoInfo.ExtractRepoInfoComplete` | src/utils/utils.rs:109-125 | every locator of that shape gives exactly that owner and repository (with the lemma above: a result comes out iff the locator has the shape) |
| `RepoInfo.SplitOwnerAndName` | src/utils/utils.rs:110-122 | the last two pieces of `<prefix><owner>/<name>` are the owner and the name |
| `RepoInfo.TrailingSlashIsRejected` | src/utils/utils.rs:118 | a locator ending in `/` gives None |
| `RepoInfo.NoSlashIsRejected` | src/utils/utils.rs:113-115 | a locator without `/` gives None |
| `RepoInfo.NotAUrlIsRejected` | src/utils/utils.rs:113-115 | `not-a-url` gives None |
| `RepoInfo.TrailingSlashExample` | src/utils/utils.rs:118 | `https://github.com/acme/widget/` gives None |
| `RepoInfo.MissingSuffixExample` | src/utils/utils.rs:118 | a locator without `.git` gives None |
| `RepoInfo.HttpsFormExample` | src/utils/utils.rs:109-125 | the HTTPS form gives `("acme", "widget")` |
| `RepoInfo.SshFormExample` | src/utils/utils.rs:109-125 | the SSH form gives owner `git@github.com:acme` |
| `Watch.Escape` | src/utils/utils.rs:254 | `{:?}` escaping: the result is at least as long as the text and holds no control character |
| `Watch.DebugQuote` | src/utils/utils.rs:254 | the quoted branch starts and ends with `"` and holds no control character, so a branch cannot add a line break to the command |
| `Watch.LsRemoteLine` | src/utils/utils.rs:253-256 | `git ls-remote git@github.com:<owner>/<folder>.git <{:?} branch>`; `WatchScenarios.QueryDoublesHost` shows it for an SSH owner |
| `Watch.CloneLine` | src/utils/utils.rs:275-278 | `cd <work> && git clone git@github.com:<owner>/<folder>.git`; `WatchScenarios.CloneDoublesHost` shows it for an SSH owner |
| `Watch.RmUrlTargetLine` | src/utils/utils.rs:241 | `cd <work> && rm -rf <locator>`, issued only after a malformed locator (`WatchProperties.MalformedUrlOnlyCleansUp`) |
| `Watch.RmStaleLine` | src/utils/utils.rs:250 | `rm -rf <work>/<folder>`, issued before every version query (`WatchProperties.UpToDateIff`) |
| `Watch.BuildLine` | src/utils/utils.rs:291-294 | `cd <work>/<folder> && <cmd>` for each build command (`WatchProperties.BuildRunAt`) |
| `Watch.CopyLine` | src/utils/utils.rs:312-315 | `cd <work>/<folder> && cp -r <from> <to>` for each deploy step (`WatchProperties.DeployRunAt`) |
| `Watch.RmCloneLine` | src/utils/utils.rs:300 | `cd <work> && rm -rf <folder>` after a failing step and after all steps (`WatchProperties.BuildsShape`, `WatchProperties.DeploysShape`, `WatchProperties.ConfigRemovalFailure`) |
| `Watch.RmDestLine` | src/utils/utils.rs:319 | `rm -rf <to>` for the failing deploy step only (`WatchProperties.CopyFailureAborts`) |
| `Watch.RmConfigLine` | src/utils/utils.rs:329 | `rm <descriptor>`, issued only after every step succeeded (`WatchProperties.DescriptorTouchedOnlyAfterAllSteps`) |
| `Watch.CheckoutOf` | src/utils/utils.rs:223-247 | names resolve iff the locator does; owner and folder hold no `/`, and the branch is the descriptor's or `main` |
| `Watch.Cycle` | src/utils/utils.rs:198-343 | the reference cycle; `WatchConfigRepo` is proved equal to it, and the `WatchProperties` lemmas below state its outcomes and traces |
| `Watch.Poll` | src/utils/utils.rs:249-272 | the cycle after the locator is resolved; `FetchAndRollOut` is proved equal to it, and `WatchProperties.FetchDecides` states its three cases |
| `Watch.Rollout` | src/utils/utils.rs:274-340 | clone, builds, deploys, persistence; `RollOut` is proved equal to it, and `WatchProperties.RolloutOutcomes` and the `Rollout*` lemmas state its outcomes |
| `Watch.Builds` | src/utils/utils.rs:290-305 | the build loop; `RunBuildSteps` is proved equal to it, and `WatchProperties.BuildsShape` states its two endings |
| `Watch.Deploys` | src/utils/utils.rs:309-324 | the deploy loop; `RunDeploySteps` is proved equal to it, and `WatchProperties.DeploysShape` states its two endings |
| `Watch.Persist` | src/utils/utils.rs:325-340 | clone removal, descriptor removal, then the write only if the removal worked (`WatchProperties.PersistDeployed`, `WatchProperties.ConfigRemovalFailure`) |
| `Watch.DebugQuotePlain` | src/utils/utils.rs:253-256 | `{:?}` of a branch with nothing to escape is the branch in double quotes |
| `Watch.EscapePlain` | src/utils/utils.rs:253-256 | escaping leaves such a text unchanged |
| `Watch.VersionToken` | src/utils/utils.rs:257 | the token is a prefix of the trimmed output, with no `refs` before its end and `refs` right after it unless it is all of it |
| `Watch.WatchConfigRepo` | src/utils/utils.rs:198-343 | the imperative cycle gives exactly the outcome and trace of the reference cycle `Cycle` |
| `Watch.FetchAndRollOut` | src/utils/utils.rs:249-272 | once the locator is resolved, after any earlier effects, the stale-clone removal, the query, the up-to-date test and the refresh of `version` and `branch` give exactly the outcome and trace of `Poll` |
| `Watch.RollOut` | src/utils/utils.rs:274-340 | clone, build loop, deploy loop, clone removal, descriptor removal and write give exactly the outcome and trace of `Rollout` |
| `Watch.RunBuildSteps` | src/utils/utils.rs:290-305 | the build loop gives exactly the stage `Builds` defines |
| `Watch.RunDeploySteps` | src/utils/utils.rs:309-324 | the deploy loop gives exactly the stage `Deploys` defines |
| `WatchProperties.BuildRunAt` | src/utils/utils.rs:290-294 | the issued build commands are `cd <work>/<folder> && <cmd>`, one per step, in declared order |
| `WatchProperties.DeployRunAt` | src/utils/utils.rs:309-315 | each deploy step is the creation of `<to>`'s directory, then `cd <work>/<folder> && cp -r <from> <to>`, in declared order |
| `WatchProperties.BuildsShape` | src/utils/utils.rs:290-305 | the build loop either runs every step successfully, or stops at the first failing one, after which only the clone is removed |
| `WatchProperties.DeploysShape` | src/utils/utils.rs:309-324 | the deploy loop either runs every step successfully, or stops at the first failing copy, after which only the clone and that step's destination are removed |
| `WatchProperties.RolloutOutcomes` | src/utils/utils.rs:274-340 | a rollout ends deployed, or failed at the clone, a build step, a copy or the descriptor removal |
| `WatchProperties.RolloutCloneFailure` | src/utils/utils.rs:275-284 | a rollout failing at the clone issued only the clone command |
| `WatchProperties.RolloutBuildFailure` | src/utils/utils.rs:290-305 | a rollout failing at build step `step`: the clone and earlier steps succeeded in order, and only the clone removal follows |
| `WatchProperties.RolloutCopyFailure` | src/utils/utils.rs:309-324 | a rollout failing at deploy step `step`: every build and earlier copy succeeded; only the clone and that step's destination are removed |
| `WatchProperties.RolloutPersists` | src/utils/utils.rs:325-340 | a rollout reaching the descriptor removal ran every step successfully in order |
| `WatchProperties.PersistDeployed` | src/utils/utils.rs:325-335 | a successful persistence removes the clone, then the descriptor, then writes exactly the refreshed descriptor |
| `WatchProperties.CycleRollsOut` | src/utils/utils.rs:264-272 | a cycle with a rollout outcome fetched a new token and is the rollout of the refreshed descriptor |
| `WatchProperties.FetchDecides` | src/utils/utils.rs:218-268 | with version defaulting to `""` and branch to `main`: a failed query ends the cycle, an equal token means up to date, and otherwise the rollout runs with the new token and resolved branch |
| `WatchProperties.LoadFailureDoesNothing` | src/utils/utils.rs:201-207 | an unloadable descriptor ends the cycle with no effect |
| `WatchProperties.MalformedUrlOnlyCleansUp` | src/utils/utils.rs:229-243 | a malformed locator gives only the work directory creation and `cd <work> && rm -rf <locator>` |
| `WatchProperties.UpToDateIff` | src/utils/utils.rs:264-268 | up to date iff the query succeeds and its token equals the recorded version; such a cycle issued only the stale-clone removal and the query |
| `WatchProperties.CloneFailureAborts` | src/utils/utils.rs:275-284 | a failed clone ends the cycle right after the clone command |
| `WatchProperties.BuildFailureAborts` | src/utils/utils.rs:290-305 | a failing build step: earlier steps succeeded in order, and only the clone removal follows |
| `WatchProperties.CopyFailureAborts` | src/utils/utils.rs:309-324 | a failing deploy step: all builds and earlier copies succeeded, and only the clone and this step's destination are removed, while earlier destinations stay |
| `WatchProperties.ConfigRemovalFailure` | src/utils/utils.rs:325-340 | after all steps the clone is removed, then the descriptor; if that removal fails nothing more happens |
| `WatchProperties.DeployedCycle` | src/utils/utils.rs:270-340 | a deployed cycle ran every step successfully in order, and wrote back the descriptor with the new token and the resolved branch, everything else unchanged |
| `WatchProperties.DescriptorTouchedOnlyAfterAllSteps` | src/utils/utils.rs:264-340 | the descriptor is written iff the cycle deployed, and removed only after every step succeeded |
| `WatchProperties.EarlyEndsTouchNothing` | src/utils/utils.rs:201-284 | a cycle ending with a load, locator, query or clone failure, or up to date, runs no build or deploy step and neither removes nor writes the descriptor |
| `WatchProperties.ClonedIsQuiet` | src/utils/utils.rs:229-284 | the effects up to the clone hold no step and no descriptor change |
| `WatchProperties.BuildFailureKeepsDescriptor` | src/utils/utils.rs:299-303 | after a failing build step no copy runs and the descriptor is neither removed nor written |
| `WatchProperties.CopyFailureKeepsDescriptor` | src/utils/utils.rs:317-322 | after a failing copy the descriptor is neither removed nor written |
| `WatchProperties.ConfigRemovalFailureWritesNothing` | src/utils/utils.rs:336-339 | when the descriptor removal fails, nothing is written |
| `WatchProperties.DeployRunKinds` | src/utils/utils.rs:309-315 | a deploy run is made only of directory creations and copies |
| `WatchProperties.NoConfigEffects` | src/utils/utils.rs:325-340 | a trace whose pieces hold no descriptor change holds none |
| `WatchScenarios.WidgetResolves` | src/utils/utils.rs:237-247 | `git@host:acme/widget.git` resolves to owner `git@host:acme`, folder `widget` |
| `WatchScenarios.ListingToken` | src/utils/utils.rs:257 | the token of `<hash>\trefs/heads/main\n` is `<hash>\t` |
| `WatchScenarios.RolloutOnHealthyShell` | src/utils/utils.rs:275-340 | when every command succeeds, a rollout deploys |
| `WatchScenarios.BareHashIsNotUpToDate` | src/utils/utils.rs:257-268 | a recorded bare hash never matches the listing's token, so the cycle deploys |
| `WatchScenarios.RecordedTokenIsUpToDate` | src/utils/utils.rs:264-268 | the token as recorded by a previous cycle is up to date, the cycle creates the work directory and issues only the stale-clone removal and the query |
| `WatchScenarios.EmptyListingOnFreshDescriptor` | src/utils/utils.rs:218-221 | a never-synchronised descriptor against an empty listing is up to date |
| `WatchScenarios.NewTokenDeploys` | src/utils/utils.rs:270-272 | a new hash deploys the descriptor with the new token and branch `main` |
| `WatchScenarios.RootLocatorRemovesRoot` | src/utils/utils.rs:237-243 | the locator `/` is malformed, and the cycle then issues `cd <work> && rm -rf /` |
| `WatchScenarios.SshLocatorKeepsHost` | src/utils/utils.rs:237-247 | `git@github.com:<owner>/<name>.git` resolves with owner `git@github.com:<owner>` |
| `WatchScenarios.QueryDoublesHost` | src/utils/utils.rs:253-256 | with such an owner the query names `git@github.com:git@github.com:<owner>/<folder>.git` |
| `WatchScenarios.CloneDoublesHost` | src/utils/utils.rs:275-278 | with such an owner the clone names `git@github.com:git@github.com:<owner>/<folder>.git` |
| `WatchScenarios.NewTokenTrace` | src/utils/utils.rs:275-340 | that cycle issues the clone, `make`, the copy of `dist` to `/srv/widget`, the clone removal, the descriptor removal and the write, in this order |
| `EnvFile.Lines` | src/utils/utils.rs:523 | `lines()`: no line holds `\n` |
| `EnvFile.LinesOfTerminated` | src/utils/utils.rs:523 | lines each written followed by `\n` come back as they were |
| `EnvFile.LinesOfCrlfTerminated` | src/utils/utils.rs:523 | lines each written followed by `\r\n` come back as they were |
| `EnvFile.LinesOfUnterminated` | src/utils/utils.rs:523 | lines joined by `\n` with a non-empty last line come back as they were, when no line but the last ends in `\r` |
| `EnvFile.LinesExamples` | src/utils/utils.rs:523 | `a\r\nb` gives `a`, `b`; a lone final `a\r` keeps its `\r` |
| `EnvFile.LinesOfEmpty` | src/utils/utils.rs:523 | an empty file has no lines |
| `EnvFile.SplitOnce` | src/utils/utils.rs:527 | `splitn(2, '=')`: two parts iff the line holds `=`, the first `=`-free, and they rebuild the line around that `=` |
| `EnvFile.EntryIff` | src/utils/utils.rs:524-528 | a line defines an entry iff it holds `=`, comments included |
| `EnvFile.EntryOf` | src/utils/utils.rs:527-529 | `key=value` gives the trimmed key before the first `=` and the trimmed rest, further `=` included |
| `EnvFile.CommentedEntryStillDefines` | src/utils/utils.rs:524-529 | `#KEY=value` defines a key starting with `#` |
| `EnvFile.InsertAt` | src/utils/utils.rs:529 | inserting an entry adds its key with its value and leaves other keys as they were |
| `EnvFile.FoldKeys` | src/utils/utils.rs:523-531 | a key is in the map iff some entry has it |
| `EnvFile.FoldLastWins` | src/utils/utils.rs:523-531 | a key's value is that of the last entry with it |
| `EnvFile.Entry` | src/utils/utils.rs:524-529 | the entry of one line; `EnvFile.EntryIff` and `EnvFile.EntryOf` state when there is one and what it is |
| `EnvFile.EnvVars` | src/utils/utils.rs:523-531 | the parsed map; `EnvFile.EnvVarsKeys` and `EnvFile.EnvVarsLastWins` state its keys and values, and `LoadEnvFile` is proved to give it |
| `EnvFile.EnvVarsKeys` | src/utils/utils.rs:523-531 | a key is in the parsed map iff some line defines it |
| `EnvFile.EnvVarsLastWins` | src/utils/utils.rs:523-531 | its value is the one on the last line defining it |
| `EnvFile.LoadEnvFile` | src/utils/utils.rs:513-534 | a read error is passed on; otherwise the loop gives exactly the map `EnvVars` of the lines |
| `Runner.Runners` | src/utils/utils.rs:349-362 | the ten extensions and their interpreters with version-probe arguments, used by `CheckExistingRunner` |
| `Runner.InstallHint` | src/utils/utils.rs:381-384 | the message when the interpreter cannot be started (`Runner.MissingInterpreter`) |
| `Runner.ProbeFailedHint` | src/utils/utils.rs:386-391 | the message when the version probe exits unsuccessfully (`Runner.CheckExistingRunner`) |
| `Runner.Extension` | src/utils/utils.rs:401-403 | the text after the last `.`, with no `.` in it (`Runner.ExtensionAfterLastDot`, `Runner.ExtensionOf`) |
| `Runner.CheckExistingRunner` | src/utils/utils.rs:345-394 | success iff the extension is in the ten-entry table and its interpreter's version probe exits successfully, giving that interpreter; an unknown extension, a spawn failure and an unsuccessful exit each give their own error |
| `Runner.GetProcessRunner` | src/utils/utils.rs:396-411 | `bash` without a `.`; otherwise success iff the extension after the last `.` is known and its probe succeeds, giving the table's interpreter |
| `Runner.ExtensionAfterLastDot` | src/utils/utils.rs:401-403 | the extension is the `.`-free tail after the last `.` |
| `Runner.ExtensionOf` | src/utils/utils.rs:401-403 | any `.`-free text after a `.` is the extension found |
| `Runner.DoubleExtensionExample` | src/utils/utils.rs:364 | `<stem>.tar.gz` asks for `gz`, which is unknown |
| `Runner.KnownInterpreter` | src/utils/utils.rs:396-406 | an entry point `<stem>.<ext>` with a known extension whose probe succeeds runs under the table's interpreter |
| `Runner.PythonExample` | src/utils/utils.rs:352 | `main.py` runs with `python3` once its probe succeeds |
| `Runner.MissingInterpreter` | src/utils/utils.rs:372-384 | a known extension whose interpreter cannot start gives the install hint naming it |
| `Runner.NoDotExample` | src/utils/utils.rs:397-399 | `start` runs with `bash` |
| `Config.ConfigFile` | src/utils/utils.rs:209-216 | the descriptor: repository locator, build commands, deploy steps, optional version and branch, optional entry point |

## Left out

- Shell semantics and the file system are not modelled. `execute_commande`, `check_dir_exist_or_create` and `write_to_file_ut` are effects in a trace, and command replies come from the `Shell` oracle. What `rm`, `cp -r` or `git` do to the disk is not modelled.
- JSON decoding and encoding (`load_file_parsed`, `to_string_pretty`) are serde library calls. The descriptor enters as an already-decoded `Result<ConfigFile, string>`, and is written as the record itself.
- Logging (`info!`, `error!`, `eprintln!`) has no effect on behaviour and is left out.
- The interpreter probe `Command::new(cmd).args(args).status()` starts a process. It is a parameter `Prober` of `Runner`.
- Reading the env file (`fs::read_to_string`) is I/O. Its outcome is the parameter of `EnvFile.LoadEnvFile`.
- `get_sys_info` uses the sysinfo library and floating-point statistics.
- `prompt_user` and `check_or_create_entry_point` are interactive stdin loops.
- `run_binary` is empty.
- `list_dir_contents` and `is_directory` query the file system.
- Process control is not part of this model: src/utils/daemon.rs (fork, PID kill, sleep loop) and src/utils/files.rs (a demo counter daemon).
- src/utils/subcommands.rs is not part of this model. Its `watch_config_repo` is a stale variant of the one in utils.rs.
- src/utils/structs.rs (CLI types, a stale `ConfigFile`), src/utils/table.rs, src/main.rs and src/utils/content.rs are not part of this model. They are CLI and terminal output.
- The `{:?}` quoting of the branch is modelled for ASCII only, meaning `\0 \t \r \n \\ \"` and control characters as `\u{..}`. Rust also escapes some non-ASCII characters (grapheme extenders, unprintable code points), and the model does not.
- `write_to_file_ut`'s own open mode is not modelled. The cycle removes the file before writing, so the write yields exactly the new descriptor.
- A panic inside `to_string_pretty(..).unwrap()` cannot happen for this record and is not modelled.
- Watch.DebugQuote: promises only that no control character, and so no line break, gets into the command. Shell expansion is not modelled: `{:?}` leaves `$`, `$(…)` and backquotes unescaped, the shell still expands them inside double quotes, and so a hostile branch name can still run a command.
