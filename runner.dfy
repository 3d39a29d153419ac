/**
 * Choosing the interpreter for an application's entry point
 * (`get_process_runner` and `check_existing_runner`): no `.` in the entry
 * point means a shell script run by `bash`; otherwise the text after the last
 * `.` is looked up in a fixed table of ten extensions, and the interpreter
 * found there is probed with its version flag before it is accepted.
 */
module Runner {
  import opened Wrappers
  import opened Text

  /** How the version probe of an interpreter ended. */
  datatype Probe = Exited(success: bool) | SpawnFailed

  /** Runs `command args` and reports how it ended; the machine's state is not modelled. */
  type Prober = (string, seq<string>) -> Probe

  datatype RunnerError =
    | UnknownExtension(extension: string)  // the table lookup panics in the source
    | NotInstalled(message: string)

  /** Extension, then the interpreter and the arguments that make it print its version. */
  const Runners: map<string, (string, seq<string>)> := map[
    "js" := ("node", ["--version"]),
    "ts" := ("ts-node", ["--version"]),
    "py" := ("python3", ["--version"]),
    "sh" := ("bash", ["--version"]),
    "rb" := ("ruby", ["--version"]),
    "pl" := ("perl", ["-v"]),
    "php" := ("php", ["--version"]),
    "lua" := ("lua", ["-v"]),
    "go" := ("go", ["version"]),
    "java" := ("java", ["-version"])
  ]

  /** The message when the interpreter cannot be started. */
  function InstallHint(command: string, extension: string): string {
    "Please install `" + command + "` to be able to run ." + extension + " file"
  }

  /** The message when the interpreter's version probe exits unsuccessfully. */
  function ProbeFailedHint(command: string, extension: string): string {
    "\U{2716} [" + command + "] (for ." + extension + ") not found or returned error \n Please install ["
    + command + "] to be able to run ." + extension + " file"
  }

  /**
   * The interpreter for `extension` when the table knows it and its probe
   * exits successfully; otherwise why not.
   */
  function CheckExistingRunner(extension: string, probe: Prober): (r: Result<string, RunnerError>)
    ensures r.Success? <==> extension in Runners && probe(Runners[extension].0, Runners[extension].1) == Exited(true)
    ensures r.Success? ==> r.value == Runners[extension].0
    ensures extension !in Runners <==> r == Failure(UnknownExtension(extension))
    ensures extension in Runners && probe(Runners[extension].0, Runners[extension].1).SpawnFailed? ==>
      r == Failure(NotInstalled(InstallHint(Runners[extension].0, extension)))
    ensures extension in Runners && probe(Runners[extension].0, Runners[extension].1) == Exited(false) ==>
      r == Failure(NotInstalled(ProbeFailedHint(Runners[extension].0, extension)))
  {
    if extension !in Runners then Failure(UnknownExtension(extension))
    else
      var (command, args) := Runners[extension];
      match probe(command, args)
      case Exited(true) => Success(command)
      case SpawnFailed => Failure(NotInstalled(InstallHint(command, extension)))
      case Exited(false) => Failure(NotInstalled(ProbeFailedHint(command, extension)))
  }

  /** The text after the last `.` (`split(".").last()`). */
  function Extension(entryPoint: string): (ext: string)
    ensures '.' !in ext
  {
    var parts := Split(entryPoint, '.');
    parts[|parts| - 1]
  }

  /**
   * `bash` for an entry point without `.`; otherwise the interpreter the
   * table gives for its extension, provided its probe succeeds.
   */
  function GetProcessRunner(entryPoint: string, probe: Prober): (r: Result<string, RunnerError>)
    ensures '.' !in entryPoint ==> r == Success("bash")
    ensures '.' in entryPoint ==>
      var ext := Extension(entryPoint);
      && (r.Success? <==> ext in Runners && probe(Runners[ext].0, Runners[ext].1) == Exited(true))
      && (r.Success? ==> r.value == Runners[ext].0)
      && (ext !in Runners ==> r == Failure(UnknownExtension(ext)))
  {
    if '.' !in entryPoint then Success("bash")
    else CheckExistingRunner(Extension(entryPoint), probe)
  }

  /**
   * With a `.` present, the extension is the `.`-free tail of the entry
   * point that follows its last `.`.
   */
  lemma ExtensionAfterLastDot(entryPoint: string)
    requires '.' in entryPoint
    ensures var e := Extension(entryPoint);
      && |e| < |entryPoint|
      && entryPoint[|entryPoint| - |e|..] == e
      && entryPoint[|entryPoint| - |e| - 1] == '.'
      && '.' !in e
  {
    JoinSplit(entryPoint, '.');
    var parts := Split(entryPoint, '.');
    var n := |parts|;
    var e := parts[n - 1];
    assert parts == parts[..n - 1] + [e];
    JoinSnoc(parts[..n - 1], e, '.');
    var stem := Join(parts[..n - 1], '.');
    assert entryPoint == stem + ['.'] + e;
    assert entryPoint[|entryPoint| - |e|..] == e;
  }

  /** Conversely any `.`-free text after a `.` is the extension found. */
  lemma ExtensionOf(stem: string, ext: string)
    requires '.' !in ext
    ensures Extension(stem + "." + ext) == ext
  {
    assert stem + "." + ext == stem + ['.'] + ext;
    SplitAround(stem, ext, '.');
    SplitWithoutSeparator(ext, '.');
  }

  /** Only the last extension counts: `<stem>.tar.gz` asks for `gz`, which the table does not know. */
  lemma DoubleExtensionExample(stem: string, probe: Prober)
    ensures GetProcessRunner(stem + ".tar.gz", probe) == Failure(UnknownExtension("gz"))
  {
    assert stem + ".tar.gz" == (stem + ".tar") + "." + "gz";
    ExtensionOf(stem + ".tar", "gz");
    assert (stem + ".tar.gz")[|stem|] == '.';
  }

  /** An entry point with a known extension whose probe succeeds runs under that interpreter. */
  lemma KnownInterpreter(stem: string, ext: string, probe: Prober)
    requires '.' !in ext && ext in Runners
    requires probe(Runners[ext].0, Runners[ext].1) == Exited(true)
    ensures GetProcessRunner(stem + "." + ext, probe) == Success(Runners[ext].0)
  {
    ExtensionOf(stem, ext);
    assert (stem + "." + ext)[|stem|] == '.';
  }

  lemma PythonExample(stem: string, probe: Prober)
    requires probe("python3", ["--version"]) == Exited(true)
    ensures GetProcessRunner(stem + ".py", probe) == Success("python3")
  {
    assert Runners["py"] == ("python3", ["--version"]);
    KnownInterpreter(stem, "py", probe);
    assert stem + "." + "py" == stem + ".py";
  }

  /**
   * An entry point with a known extension whose interpreter cannot be
   * started: the error asks for that interpreter (for `.js`, `node`).
   */
  lemma MissingInterpreter(stem: string, ext: string, probe: Prober)
    requires '.' !in ext && ext in Runners
    requires probe(Runners[ext].0, Runners[ext].1) == SpawnFailed
    ensures GetProcessRunner(stem + "." + ext, probe) == Failure(NotInstalled(InstallHint(Runners[ext].0, ext)))
  {
    ExtensionOf(stem, ext);
    assert (stem + "." + ext)[|stem|] == '.';
  }

  lemma NoDotExample(probe: Prober)
    ensures GetProcessRunner("start", probe) == Success("bash")
  {
  }
}
