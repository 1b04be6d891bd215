/** The execution engine every tool shares (`CommandExecutor.ExecuteAsync`): resolve the
    executable, run the pre-flight hook, format the arguments, build the start descriptor,
    let the tool adjust its environment, run the process and hand the result to the
    post-execution hook. Each of the first two steps can end the run early with a result
    that carries only an error message, and so can an exception while starting or waiting
    for the process.

    The child process is an input (`ProcessOutcome`), the file system and the current
    directory and environment are a `World` value, and the virtual methods a tool overrides
    are the fields of a `Hooks` value. */
module CommandExecutor {
  import opened Wrappers
  import opened Text
  import opened Files
  import opened Settings
  import opened Results

  /** The steps of `ExecuteAsync`, in the order it takes them. */
  datatype Step = Resolve | PreFlight | Format | BuildStartInfo | Modify | Launch | PostExecute

  const AllSteps: seq<Step> := [Resolve, PreFlight, Format, BuildStartInfo, Modify, Launch, PostExecute]

  /** The settings of a `ProcessStartInfo` that matter to the run. */
  datatype StartDescriptor = StartDescriptor(
    fileName: string,
    arguments: string,
    workingDirectory: string,
    redirectStandardOutput: bool,
    redirectStandardError: bool,
    useShellExecute: bool,
    createNoWindow: bool,
    environment: map<string, string>)

  /** What the child process does: it exits with a code, or outlives the timeout, having
      sent these lines on its two streams (`None` is the null that marks the end of a
      stream); or starting or waiting for it throws an exception with this message. */
  datatype ProcessOutcome =
    | Exited(exitCode: int, outLines: seq<Option<string>>, errLines: seq<Option<string>>)
    | TimedOut(outLines: seq<Option<string>>, errLines: seq<Option<string>>)
    | Threw(message: string)

  /** Everything outside the engine that a run observes. */
  datatype World = World(
    fs: FileSystem,
    currentDirectory: string,
    environment: map<string, string>,
    outcome: ProcessOutcome)

  /** The virtual members of `CommandExecutor` that a tool may override. `environmentUpdates`
      holds the entries `ModifyProcessStartInfo` writes into the start descriptor's
      environment. Each hook is built from the tool's fields as they stand when the run starts. */
  datatype Hooks = Hooks(
    toolName: string,
    getExecutablePath: (FileSystem, CodingSettings, ToolConfig) -> Option<string>,
    preExecute: (FileSystem, string, Option<string>, CodingSettings, ToolConfig) -> Option<string>,
    formatArguments: string -> string,
    environmentUpdates: map<string, string>,
    postExecute: ExecutionResult -> ExecutionResult)

  /** The base `GetExecutablePath`: with no configured directory the executable is looked up
      on PATH by its name; otherwise the configured full path, provided that file exists. */
  function DefaultExecutablePath(fs: FileSystem, config: ToolConfig): (r: Option<string>)
    ensures IsBlank(config.path) ==> r == Some(config.executableName)
    ensures !IsBlank(config.path) ==> (r.Some? <==> FileExists(fs, FullPath(config)))
    ensures !IsBlank(config.path) && r.Some? ==> r.value == FullPath(config) && FileExists(fs, r.value)
    ensures r.Some? ==> EndsWith(r.value, config.executableName)
  {
    if IsBlank(config.path) then Some(config.executableName)
    else if FileExists(fs, FullPath(config)) then Some(FullPath(config))
    else None
  }

  /** The hooks of a tool that overrides nothing but its name: the PATH-or-configured
      executable, no pre-flight error, the command as it is, no environment change, and a
      post-execution step that leaves the result alone. */
  function DefaultHooks(toolName: string): Hooks {
    Hooks(
      toolName,
      (fs, settings, config) => DefaultExecutablePath(fs, config),
      (fs, command, workingDirectory, settings, config) => None,
      command => command,
      map[],
      result => result)
  }

  /** The message of a run whose executable could not be resolved. */
  function NotFoundMessage(toolName: string, config: ToolConfig): string {
    toolName + " executable not found at " + FullPath(config) + ". "
    + "Please update config.json with the correct path or leave path empty to use PATH."
  }

  /** The message of a run that outlived its timeout; whole seconds print as an integer. */
  function TimeoutMessage(seconds: int): string {
    "Command execution timed out after " + IntToString(seconds) + " seconds."
  }

  /** The text a stream handler accumulates: each line that is not null, followed by a line
      break. */
  function Captured(lines: seq<Option<string>>): string {
    if lines == [] then ""
    else
      Captured(lines[..|lines| - 1])
      + (match lines[|lines| - 1] case Some(line) => line + NewLine case None => "")
  }

  /** Capturing two stretches of a stream one after the other gives the two texts joined. */
  lemma {:induction false} CapturedAppend(a: seq<Option<string>>, b: seq<Option<string>>)
    ensures Captured(a + b) == Captured(a) + Captured(b)
    decreases |b|
  {
    if b != [] {
      assert (a + b)[..|a + b| - 1] == a + b[..|b| - 1];
      CapturedAppend(a, b[..|b| - 1]);
    } else {
      assert a + b == a;
    }
  }

  /** The captured text is blank exactly when every line received was blank: the line
      breaks themselves are white space. So the report shows a stream's block exactly when
      some line on it had a visible character. */
  lemma {:induction false} CapturedBlankIff(lines: seq<Option<string>>)
    ensures IsBlank(Captured(lines)) <==> forall i :: 0 <= i < |lines| && lines[i].Some? ==> IsBlank(lines[i].value)
  {
    if lines != [] {
      var init := lines[..|lines| - 1];
      var last := match lines[|lines| - 1] case Some(line) => line + NewLine case None => "";
      CapturedBlankIff(init);
      BlankConcat(Captured(init), last);
      if lines[|lines| - 1].Some? {
        BlankConcat(lines[|lines| - 1].value, NewLine);
      }
      assert forall i :: 0 <= i < |init| ==> init[i] == lines[i];
    }
  }

  /** Two texts joined are blank exactly when both are. */
  lemma BlankConcat(a: string, b: string)
    ensures IsBlank(a + b) <==> IsBlank(a) && IsBlank(b)
  {
    if IsBlank(a + b) {
      assert forall i :: 0 <= i < |a| ==> a[i] == (a + b)[i];
      assert forall i :: 0 <= i < |b| ==> b[i] == (a + b)[|a| + i];
    }
    if IsBlank(a) && IsBlank(b) {
      forall i | 0 <= i < |a + b|
        ensures IsWhiteSpace((a + b)[i])
      {
        if i < |a| {
          assert (a + b)[i] == a[i];
        } else {
          assert (a + b)[i] == b[i - |a|];
        }
      }
    }
  }

  /** Null lines leave no trace: the text of a stream that sent only nulls is empty. */
  lemma {:induction false} CapturedDropsNull(lines: seq<Option<string>>)
    requires forall i :: 0 <= i < |lines| ==> lines[i].None?
    ensures Captured(lines) == ""
  {
    if lines != [] {
      CapturedDropsNull(lines[..|lines| - 1]);
    }
  }

  /** A stream handler at work: each line event appends the line and a line break to the
      builder unless its data is null. */
  method CaptureLines(lines: seq<Option<string>>) returns (text: string)
    ensures text == Captured(lines)
  {
    text := "";
    var i := 0;
    while i < |lines|
      invariant 0 <= i <= |lines|
      invariant text == Captured(lines[..i])
    {
      assert lines[..i + 1][..i] == lines[..i];
      if lines[i].Some? {
        text := text + lines[i].value + NewLine;
      }
      i := i + 1;
    }
    assert lines[..|lines|] == lines;
  }

  /** The result `ExecuteProcessAsync` builds from the process outcome, or the message of
      the exception it lets through. A timed-out result keeps the text captured so far,
      leaves the exit code at its default and carries the timeout message. */
  function ProcessResult(timeoutSeconds: int, outcome: ProcessOutcome): (r: Result<ExecutionResult, string>)
    ensures r.Err? <==> outcome.Threw?
    ensures r.Err? ==> r.error == outcome.message
    ensures r.Ok? ==> r.value.output == Captured(outcome.outLines) && r.value.error == Captured(outcome.errLines)
    ensures r.Ok? ==> (r.value.timedOut <==> outcome.TimedOut?) && (r.value.errorMessage.Some? <==> outcome.TimedOut?)
    ensures outcome.Exited? ==> r.Ok? && r.value.exitCode == outcome.exitCode
    ensures outcome.TimedOut? ==> r.Ok? && r.value.exitCode == 0 && r.value.errorMessage == Some(TimeoutMessage(timeoutSeconds))
  {
    match outcome
    case Exited(code, outLines, errLines) =>
      Ok(ExecutionResult(code, Captured(outLines), Captured(errLines), false, None))
    case TimedOut(outLines, errLines) =>
      Ok(ExecutionResult(0, Captured(outLines), Captured(errLines), true, Some(TimeoutMessage(timeoutSeconds))))
    case Threw(message) =>
      Err(message)
  }

  /** `ExecuteProcessAsync`: captures both streams and builds the result. */
  method ExecuteProcess(settings: CodingSettings, outcome: ProcessOutcome) returns (r: Result<ExecutionResult, string>)
    ensures r == ProcessResult(settings.features.defaultTimeout, outcome)
  {
    if outcome.Threw? {
      return Err(outcome.message);
    }
    var output := CaptureLines(outcome.outLines);
    var error := CaptureLines(outcome.errLines);
    if outcome.TimedOut? {
      var timeout := settings.features.defaultTimeout;
      r := Ok(ExecutionResult(0, output, error, true, Some(TimeoutMessage(timeout))));
    } else {
      r := Ok(ExecutionResult(outcome.exitCode, output, error, false, None));
    }
  }

  /** The descriptor `CreateProcessStartInfo` builds: both streams redirected, no shell, no
      window, and the environment the new process would inherit. */
  function StartDescriptorFor(executable: string, arguments: string, workingDirectory: string,
                              environment: map<string, string>): (d: StartDescriptor)
    ensures d.redirectStandardOutput && d.redirectStandardError && !d.useShellExecute && d.createNoWindow
    ensures d.fileName == executable && d.arguments == arguments && d.workingDirectory == workingDirectory
    ensures d.environment == environment
  {
    StartDescriptor(executable, arguments, workingDirectory, true, true, false, true, environment)
  }

  /** `System.Diagnostics.ProcessStartInfo`, the object the engine builds and lets the tool
      adjust in place before starting the process. */
  class ProcessStartInfo {
    var fileName: string
    var arguments: string
    var workingDirectory: string
    var redirectStandardOutput: bool
    var redirectStandardError: bool
    var useShellExecute: bool
    var createNoWindow: bool
    /** `EnvironmentVariables`: a copy of the current process's environment until changed. */
    var environment: map<string, string>

    /** A start descriptor with the defaults of a fresh `ProcessStartInfo`. */
    constructor (inherited: map<string, string>)
      ensures Descriptor() == StartDescriptor("", "", "", false, false, false, false, inherited)
    {
      fileName := "";
      arguments := "";
      workingDirectory := "";
      redirectStandardOutput := false;
      redirectStandardError := false;
      useShellExecute := false;
      createNoWindow := false;
      environment := inherited;
    }

    function Descriptor(): StartDescriptor
      reads this
    {
      StartDescriptor(fileName, arguments, workingDirectory, redirectStandardOutput,
                      redirectStandardError, useShellExecute, createNoWindow, environment)
    }

    /** Writes the given entries into `EnvironmentVariables`, replacing those already there. */
    method SetVariables(updates: map<string, string>)
      modifies this
      ensures Descriptor() == old(Descriptor()).(environment := old(environment) + updates)
      ensures forall name :: name in updates ==> environment[name] == updates[name]
      ensures forall name :: name !in updates && name in old(environment) ==> name in environment && environment[name] == old(environment)[name]
    {
      environment := environment + updates;
    }
  }

  /** `CreateProcessStartInfo`: a new start descriptor for the executable, with the common
      settings of every tool. */
  method CreateProcessStartInfo(executable: string, arguments: string, workingDirectory: string,
                                inherited: map<string, string>)
    returns (startInfo: ProcessStartInfo)
    ensures fresh(startInfo)
    ensures startInfo.Descriptor() == StartDescriptorFor(executable, arguments, workingDirectory, inherited)
  {
    startInfo := new ProcessStartInfo(inherited);
    startInfo.fileName := executable;
    startInfo.arguments := arguments;
    startInfo.workingDirectory := workingDirectory;
    startInfo.redirectStandardOutput := true;
    startInfo.redirectStandardError := true;
    startInfo.useShellExecute := false;
    startInfo.createNoWindow := true;
  }

  /** The trace of one run: its result, the steps it took, and the descriptor of the process
      it tried to start, if it got that far. */
  datatype Run = Run(result: ExecutionResult, steps: seq<Step>, launched: Option<StartDescriptor>)

  /** `ExecuteAsync` as a function of the hooks, the settings snapshot, the command, the
      requested working directory and the world. */
  function Pipeline(hooks: Hooks, settings: CodingSettings, config: ToolConfig, command: string,
                    workingDirectory: Option<string>, world: World): (run: Run)
    ensures 1 <= |run.steps| <= |AllSteps| && run.steps == AllSteps[..|run.steps|]
    ensures run.launched.Some? <==> Launch in run.steps
    ensures run.launched.None? ==> run.result.errorMessage.Some?
    ensures hooks.getExecutablePath(world.fs, settings, config).None? ==>
      run == Run(Fatal(NotFoundMessage(hooks.toolName, config)), [Resolve], None)
    ensures hooks.getExecutablePath(world.fs, settings, config).Some? &&
            !IsNullOrWhiteSpace(hooks.preExecute(world.fs, command, workingDirectory, settings, config)) ==>
      run == Run(Fatal(hooks.preExecute(world.fs, command, workingDirectory, settings, config).value), [Resolve, PreFlight], None)
  {
    match hooks.getExecutablePath(world.fs, settings, config)
    case None =>
      Run(Fatal(NotFoundMessage(hooks.toolName, config)), [Resolve], None)
    case Some(executable) =>
      var preflight := hooks.preExecute(world.fs, command, workingDirectory, settings, config);
      if !IsNullOrWhiteSpace(preflight) then
        Run(Fatal(preflight.value), [Resolve, PreFlight], None)
      else
        var descriptor := StartDescriptorFor(executable, hooks.formatArguments(command),
          workingDirectory.GetOr(world.currentDirectory), world.environment + hooks.environmentUpdates);
        match ProcessResult(settings.features.defaultTimeout, world.outcome)
        case Err(message) =>
          Run(Fatal(message), [Resolve, PreFlight, Format, BuildStartInfo, Modify, Launch], Some(descriptor))
        case Ok(result) =>
          Run(hooks.postExecute(result), AllSteps, Some(descriptor))
  }

  /** `ExecuteAsync`: the steps in order, each early return turning into a result that
      carries only an error message, and an exception from the process into one that
      carries its message. */
  method ExecuteAsync(hooks: Hooks, settings: CodingSettings, config: ToolConfig, command: string,
                      workingDirectory: Option<string>, world: World)
    returns (result: ExecutionResult, ghost steps: seq<Step>, ghost launched: Option<StartDescriptor>)
    ensures Run(result, steps, launched) == Pipeline(hooks, settings, config, command, workingDirectory, world)
  {
    steps := [Resolve];
    launched := None;
    var executablePath := hooks.getExecutablePath(world.fs, settings, config);
    if executablePath.None? {
      result := Fatal(NotFoundMessage(hooks.toolName, config));
      return;
    }

    steps := steps + [PreFlight];
    var preExecuteResult := hooks.preExecute(world.fs, command, workingDirectory, settings, config);
    if !IsNullOrWhiteSpace(preExecuteResult) {
      result := Fatal(preExecuteResult.value);
      return;
    }

    steps := steps + [Format];
    var arguments := hooks.formatArguments(command);

    steps := steps + [BuildStartInfo];
    var startInfo := CreateProcessStartInfo(executablePath.value, arguments,
      workingDirectory.GetOr(world.currentDirectory), world.environment);

    steps := steps + [Modify];
    startInfo.SetVariables(hooks.environmentUpdates);

    steps := steps + [Launch];
    launched := Some(startInfo.Descriptor());
    assert launched == Some(StartDescriptorFor(executablePath.value, arguments,
      workingDirectory.GetOr(world.currentDirectory), world.environment + hooks.environmentUpdates));
    assert steps == [Resolve, PreFlight, Format, BuildStartInfo, Modify, Launch];
    var processed := ExecuteProcess(settings, world.outcome);
    if processed.Err? {
      result := Fatal(processed.error);
      return;
    }

    steps := steps + [PostExecute];
    assert steps == AllSteps;
    result := hooks.postExecute(processed.value);
  }

  // ---------------------------------------------------------------------------------------
  // Properties of a run.

  /** A run whose executable resolves goes on to the pre-flight check. */
  lemma ResolvedReachesPreFlight(hooks: Hooks, settings: CodingSettings, config: ToolConfig, command: string,
                                 workingDirectory: Option<string>, world: World)
    requires hooks.getExecutablePath(world.fs, settings, config).Some?
    ensures var run := Pipeline(hooks, settings, config, command, workingDirectory, world);
      |run.steps| >= 2 && run.steps[1] == PreFlight
  {
  }

  /** A pre-flight message that is not blank stops the run before any process starts, unless
      the executable was already missing. */
  lemma PreFlightStops(hooks: Hooks, settings: CodingSettings, config: ToolConfig, command: string,
                       workingDirectory: Option<string>, world: World, message: string)
    requires hooks.preExecute(world.fs, command, workingDirectory, settings, config) == Some(message)
    requires !IsBlank(message)
    ensures var run := Pipeline(hooks, settings, config, command, workingDirectory, world);
      run.launched.None?
      && run.result == if hooks.getExecutablePath(world.fs, settings, config).None?
                        then Fatal(NotFoundMessage(hooks.toolName, config)) else Fatal(message)
  {
  }

  /** A tool that keeps the command and the environment as they are starts the resolved
      executable on the command itself, with exactly the inherited environment. */
  lemma LaunchedAsInherited(hooks: Hooks, settings: CodingSettings, config: ToolConfig, command: string,
                            workingDirectory: Option<string>, world: World)
    requires hooks.getExecutablePath(world.fs, settings, config).Some?
    requires hooks.preExecute(world.fs, command, workingDirectory, settings, config) == None
    requires hooks.formatArguments(command) == command && hooks.environmentUpdates == map[]
    ensures var run := Pipeline(hooks, settings, config, command, workingDirectory, world);
      run.launched.Some?
      && run.launched.value.fileName == hooks.getExecutablePath(world.fs, settings, config).value
      && run.launched.value.arguments == command
      && run.launched.value.workingDirectory == workingDirectory.GetOr(world.currentDirectory)
      && run.launched.value.environment == world.environment
  {
    assert world.environment + map[] == world.environment;
  }

  /** A process that was started runs the executable the tool resolved, with the formatted
      arguments, in the requested directory (the current one when none was requested), with
      the inherited environment updated by the tool's entries. */
  lemma LaunchedDescriptor(hooks: Hooks, settings: CodingSettings, config: ToolConfig, command: string,
                           workingDirectory: Option<string>, world: World)
    requires hooks.getExecutablePath(world.fs, settings, config).Some?
    requires IsNullOrWhiteSpace(hooks.preExecute(world.fs, command, workingDirectory, settings, config))
    ensures var run := Pipeline(hooks, settings, config, command, workingDirectory, world);
      run.launched == Some(StartDescriptor(
        hooks.getExecutablePath(world.fs, settings, config).value,
        hooks.formatArguments(command),
        if workingDirectory.Some? then workingDirectory.value else world.currentDirectory,
        true, true, false, true,
        world.environment + hooks.environmentUpdates))
  {
  }

  /** With the default hooks, the process gets the command as its arguments and exactly the
      inherited environment. */
  lemma DefaultHooksLaunch(toolName: string, settings: CodingSettings, config: ToolConfig, command: string,
                           workingDirectory: Option<string>, world: World)
    requires DefaultExecutablePath(world.fs, config).Some?
    ensures var run := Pipeline(DefaultHooks(toolName), settings, config, command, workingDirectory, world);
      run.launched.Some? && run.launched.value.arguments == command
      && run.launched.value.environment == world.environment
      && run.launched.value.fileName == DefaultExecutablePath(world.fs, config).value
  {
    assert world.environment + map[] == world.environment;
  }

  /** With no configured directory the default hooks never report a missing executable. */
  lemma DefaultHooksFindPathExecutable(toolName: string, settings: CodingSettings, config: ToolConfig,
                                       command: string, workingDirectory: Option<string>, world: World)
    requires IsBlank(config.path)
    ensures var run := Pipeline(DefaultHooks(toolName), settings, config, command, workingDirectory, world);
      run.launched.Some? && run.launched.value.fileName == config.executableName
  {
  }

  /** An exception while starting or waiting for the process becomes a result carrying the
      exception's message; `ExecuteAsync` itself never throws. */
  lemma ThrownBecomesError(hooks: Hooks, settings: CodingSettings, config: ToolConfig, command: string,
                           workingDirectory: Option<string>, world: World)
    requires world.outcome.Threw?
    ensures var run := Pipeline(hooks, settings, config, command, workingDirectory, world);
      run.launched.Some? ==> run.result == Fatal(world.outcome.message) && PostExecute !in run.steps
  {
  }

  /** A process that exits normally gives, before the post-execution hook, its exit code and
      the text captured from both streams, and no error message. */
  lemma ExitedResult(hooks: Hooks, settings: CodingSettings, config: ToolConfig, command: string,
                     workingDirectory: Option<string>, world: World)
    requires forall r :: hooks.postExecute(r) == r
    requires world.outcome.Exited?
    ensures var run := Pipeline(hooks, settings, config, command, workingDirectory, world);
      run.launched.Some? ==>
        run.steps == AllSteps
        && run.result == ExecutionResult(world.outcome.exitCode, Captured(world.outcome.outLines),
                                         Captured(world.outcome.errLines), false, None)
  {
  }

  /** A run that outlives its timeout renders as the timeout's error line alone: the output
      captured until then never reaches the report, and neither does the banner. */
  lemma EngineTimeoutRendersOnlyError(hooks: Hooks, settings: CodingSettings, config: ToolConfig, command: string,
                                      workingDirectory: Option<string>, world: World)
    requires forall r :: hooks.postExecute(r) == r
    requires world.outcome.TimedOut?
    ensures var run := Pipeline(hooks, settings, config, command, workingDirectory, world);
      run.launched.Some? ==>
        run.result.timedOut
        && Render(run.result) == ErrorPrefix + TimeoutMessage(settings.features.defaultTimeout) + NewLine
  {
    var message := TimeoutMessage(settings.features.defaultTimeout);
    NotBlankAt(message, 0);
  }

  /** As written, `Success` holds of every result the engine builds without a normal exit:
      a missing executable, a failed pre-flight check, a timeout and an exception all leave
      the exit code at zero. */
  lemma EngineFailuresReportSuccess(hooks: Hooks, settings: CodingSettings, config: ToolConfig, command: string,
                                    workingDirectory: Option<string>, world: World)
    requires forall r :: hooks.postExecute(r) == r
    ensures var run := Pipeline(hooks, settings, config, command, workingDirectory, world);
      run.launched.None? || !world.outcome.Exited? ==> Success(run.result) && run.result.errorMessage.Some?
  {
  }

  /** Strict success (no error message, no timeout, exit code zero) holds exactly of a run
      that started the process and saw it exit with code zero. */
  lemma SucceededIffCleanExit(hooks: Hooks, settings: CodingSettings, config: ToolConfig, command: string,
                              workingDirectory: Option<string>, world: World)
    requires forall r :: hooks.postExecute(r) == r
    ensures var run := Pipeline(hooks, settings, config, command, workingDirectory, world);
      Succeeded(run.result) <==> run.launched.Some? && world.outcome.Exited? && world.outcome.exitCode == 0
  {
  }

  /** An exception whose message is blank renders like a clean exit: the report shows
      `Exit Code: 0` and nothing else. */
  lemma BlankExceptionRendersAsCleanExit(hooks: Hooks, settings: CodingSettings, config: ToolConfig, command: string,
                                         workingDirectory: Option<string>, world: World)
    requires world.outcome == Threw("")
    requires hooks.getExecutablePath(world.fs, settings, config).Some?
    requires IsNullOrWhiteSpace(hooks.preExecute(world.fs, command, workingDirectory, settings, config))
    ensures Render(Pipeline(hooks, settings, config, command, workingDirectory, world).result) == "Exit Code: 0\r\n"
  {
    assert IntToString(0) == "0";
  }
}
