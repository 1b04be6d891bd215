# CodingMCP executors in Dafny

CodingMCP is an MCP server that lets a client run developer tools: `dotnet`, `cargo`,
`python`, MSBuild, MSBuild for Delphi projects and the Delphi command-line compiler
(`dcc32`/`dcc64`). Every tool goes through one execution engine, `CommandExecutor.ExecuteAsync`.
The engine resolves the executable and runs the tool's pre-flight check. It then formats the
arguments, builds the process start descriptor and lets the tool adjust the environment.
Finally it runs the process under a timeout, captures both streams and hands the result to a
post-execution hook. The result is an `ExecutionResult`, rendered as a text report.

This project models that engine and the three build tools around it:

- `MSBuildExecutor` records the project and builds `options "project"` in the project's
  directory.
- `MSBuildDelphiExecutor` additionally reads the `.dproj` `ProjectVersion`. It resolves the
  matching Delphi installation with `DelphiPathResolver` and passes it as `BDS`.
- `DccDelphiExecutor` looks for the compiler of the requested architecture. It tries the
  resolved installation, then the configured directory, then PATH.

Files by module:

- `wrappers.dfy`: `Option` and `Result`.
- `text.dfy`: the .NET string helpers used (`IsNullOrWhiteSpace`, `AppendLine`'s `\r\n`, integer
  formatting, ordinal ignore-case comparison).
- `files.dfy`: the file system, as a value, and the Windows `System.IO.Path` functions.
- `xml.dfy`: the parts of `XDocument` the project-version lookup reads.
- `settings.dfy`: `CodingSettings`.
- `execution_result.dfy`: `ExecutionResult` and its `ToString`.
- `delphi_path_resolver.dfy`: installation matching and scanning.
- `command_executor.dfy`: the engine.
- `msbuild.dfy`, `msbuild_delphi.dfy`, `dcc_delphi.dfy`: the three tools.

How the model is built:

- The C# template-method hooks become a `Hooks` value of functions. Each tool builds its hooks
  from its own fields as they stand when the run starts.
- The engine is specified by the function `Pipeline`. It returns the result, the steps taken
  and the start descriptor of the process, if one was started.
- `ExecuteAsync` is proved equal to `Pipeline`. It allocates and updates a `ProcessStartInfo`
  object and captures the stream lines in a loop.
- The child process, the file system, the current directory and the inherited environment are
  inputs (`ProcessOutcome`, `World`).

Points where the code behaves differently from what its names suggest:

- `Success` is `ExitCode == 0` only. See "## Findings".
- The MSBuild executor's directory is `Path.GetDirectoryName(p) ?? CurrentDirectory`. For a bare
  file name this is the empty string, not the current directory
  (`MSBuild.BareProjectNameBuildsInEmptyDirectory`).

## Model

| member | source | states |
|---|---|---|
| Results.FatalReportsSuccess | Executors/ExecutionResult.cs:10 | A result that carries only an error message satisfies `Success`, because its exit code stays 0. It does not satisfy strict success: no error message, no timeout and exit code 0. |
| Results.Render | Executors/ExecutionResult.cs:14-44 | A non-blank error message renders as the single line `Error: <message>`. Otherwise the full report is rendered. |
| Results.ToText | Executors/ExecutionResult.cs:14-44 | The builder version, with its early return, produces exactly `Render`. |
| Results.AppendBlock | Executors/ExecutionResult.cs:31-41 | A titled block is appended as header, body and line break, and only when the body is not blank. |
| Results.RenderErrorIff | Executors/ExecutionResult.cs:18-24 | The report starts with `Error: ` exactly when the error message is not blank. |
| Results.TimeoutBannerIff | Executors/ExecutionResult.cs:24-29 | Right after the exit-code line, the report shows the timeout banner exactly when the result timed out. |
| Results.RenderKeepsExitCodeAndTimeout | Executors/ExecutionResult.cs:24-29 | Two non-error results with the same report have the same exit code and timeout flag. |
| Results.BlankOutputOmitted | Executors/ExecutionResult.cs:31-35 | Blank output renders exactly like no output. |
| Results.OutputBlockShown | Executors/ExecutionResult.cs:31-35 | Non-blank output appears under its header, after the banner and before the errors block. |
| Results.ErrorsBlockLast | Executors/ExecutionResult.cs:37-41 | A non-blank error stream closes the report under its header. A blank one adds nothing. |
| Results.RenderOkExample | Executors/ExecutionResult.cs:14-44 | A clean run that printed `ok` renders as `Exit Code: 0`, an output block and no errors block. |
| Settings.FullPath | Configuration/CodingSettings.cs:22 | An empty directory gives the executable name itself. The result ends with the executable name. A relative name is placed under the configured directory. |
| Settings.DefaultFullPath | Configuration/CodingSettings.cs:19-22 | A fresh configuration has an empty path and name, and an empty full path. |
| Files.DirectoryOrCurrent | Executors/MSBuildExecutor.cs:34 | The current directory when `GetDirectoryName` gives null. Otherwise a proper prefix of the path. |
| Xml.ProjectVersion | Executors/MSBuildDelphiExecutor.cs:100-130 | The result is null when the document failed to load or has no root. It is also null when the root has no `PropertyGroup`, or its first one has no `ProjectVersion` child. |
| Xml.ProjectVersionFound | Executors/MSBuildDelphiExecutor.cs:100-130 | A root whose first `PropertyGroup` holds a `ProjectVersion` element yields that element's text. Both names are looked up in the root's namespace. |
| Xml.OnlyFirstGroupConsulted | Executors/MSBuildDelphiExecutor.cs:110-119 | Only the first `PropertyGroup` is read. If it has no `ProjectVersion`, the result is null whatever later groups hold. |
| DelphiPathResolver.ParseVersion | Executors/DelphiPathResolver.cs:158-179 | Null or blank text gives null. A parsed version has both parts within `int` range. |
| DelphiPathResolver.ParseDecoratedVersion | Executors/DelphiPathResolver.cs:163-176 | `major.minor` with a digit-free prefix and a non-digit suffix reads back as `major.minor`. It reads as null when a part overflows `int`. |
| DelphiPathResolver.DecoratedMatch | Executors/DelphiPathResolver.cs:155-176 | Take a digit-free prefix, digits `a`, a dot, digits `b` and a suffix that does not start with a digit. The leftmost match is `a.b`, and the version read is that of `a` and `b`. |
| DelphiPathResolver.ParseVersionExamples | Executors/DelphiPathResolver.cs:155-176 | `22.0` reads as version 22.0. |
| DelphiPathResolver.DecoratedNameExample | Executors/DelphiPathResolver.cs:155-176 | `Studio 22.0` reads as version 22.0: the text before the first digit is skipped. |
| DelphiPathResolver.DecoratedTwoDigit | Executors/DelphiPathResolver.cs:163-176 | A digit-free prefix before `n.0` still reads as version n.0. |
| DelphiPathResolver.NoDotNoVersion | Executors/DelphiPathResolver.cs:164-178 | A text without a dot reads as no version. |
| DelphiPathResolver.Survivors | Executors/DelphiPathResolver.cs:90 | A path is a candidate exactly when it is one of the given paths, is not blank and is an existing directory. There are no more candidates than paths. |
| DelphiPathResolver.SurvivingPositions | Executors/DelphiPathResolver.cs:90 | The positions of the surviving paths, strictly increasing. Every surviving position is among them, and no other. |
| DelphiPathResolver.SurvivorsAtPositions | Executors/DelphiPathResolver.cs:90 | The filter keeps input order: the k-th candidate is the path at the k-th surviving position. |
| DelphiPathResolver.SurvivorsSplit | Executors/DelphiPathResolver.cs:90 | Filtering a list split at any position gives the candidates of the front, followed by the candidates of the rest. |
| DelphiPathResolver.FirstSurvivor | Executors/DelphiPathResolver.cs:94-102 | The first candidate is the first path that survives the filter. |
| DelphiPathResolver.BestIndex | Executors/DelphiPathResolver.cs:125-152 | The stable order-then-`FirstOrDefault` of a strategy picks an eligible version of maximal rank, the first of that rank. It finds none exactly when no version is eligible. |
| DelphiPathResolver.FindBestMatch | Executors/DelphiPathResolver.cs:88-153 | The result is null exactly when no path is a non-blank existing directory. A result is one of the given paths and passes that filter. |
| DelphiPathResolver.ChooseFirstWithoutVersions | Executors/DelphiPathResolver.cs:98-122 | With no target version, or when no candidate's name carries a version, the first candidate is chosen. |
| DelphiPathResolver.ChooseExact | Executors/DelphiPathResolver.cs:125-129 | When some candidate has the target's major and minor, the first such candidate is chosen. |
| DelphiPathResolver.ExactMatchInInputOrder | Executors/DelphiPathResolver.cs:88-129 | When the target version parses and `paths[i]` is the earliest surviving input path whose name carries it, the result is `paths[i]`. |
| DelphiPathResolver.ChooseSameMajor | Executors/DelphiPathResolver.cs:132-137 | Otherwise, the candidate with the target's major and the highest minor is chosen, the first of those. |
| DelphiPathResolver.ChooseNextMajor | Executors/DelphiPathResolver.cs:140-146 | Otherwise, the lowest higher major is chosen, with its highest minor, the first of those. |
| DelphiPathResolver.ChooseHighest | Executors/DelphiPathResolver.cs:149-152 | Otherwise, the highest version is chosen, the first of that version. |
| DelphiPathResolver.NextMajorExample | Executors/DelphiPathResolver.cs:140-146 | With installations 21.0 and 23.0, a project at 22.0 resolves to 23.0. |
| DelphiPathResolver.NextMajorBetween | Executors/DelphiPathResolver.cs:140-146 | Between two-digit installations `lower.0` and `upper.0`, a project at a major in between resolves to `upper.0`. |
| DelphiPathResolver.TwoDigitParse | Executors/DelphiPathResolver.cs:163-165 | The text `n.0` reads as version n.0. |
| DelphiPathResolver.InstallsInMembership | Executors/DelphiPathResolver.cs:60-74 | A listed subdirectory becomes an installation exactly when its name carries a version and it holds a valid installation. The recorded version string is the directory name. |
| DelphiPathResolver.ScannedMembership | Executors/DelphiPathResolver.cs:48-83 | The scan finds an installation exactly when a standard root lists its directory, the name carries its version and the directory holds a valid installation. |
| DelphiPathResolver.ScanStandardLocations | Executors/DelphiPathResolver.cs:48-83 | The nested loop over roots and subdirectories collects exactly `ScannedInstalls`, in order. Missing or unlistable roots are skipped. |
| DelphiPathResolver.CollectInstalls | Executors/DelphiPathResolver.cs:59-74 | The inner loop appends, in listing order, one installation per subdirectory whose name reads as a version and which holds a valid installation. |
| DelphiPathResolver.InstallPathFor | Executors/DelphiPathResolver.cs:22-43 | A configured match wins. The result is null exactly when no configured path survives and the scan finds nothing, or finds several none of which survive. Any result is a surviving configured path or a scanned installation. |
| DelphiPathResolver.ResolveInstallPath | Executors/DelphiPathResolver.cs:22-43 | The method's early returns compute `InstallPathFor` over the scanned installations. |
| CommandExecutor.DefaultExecutablePath | Executors/CommandExecutor.cs:88-104 | A blank path gives the bare executable name, to be found on PATH. Otherwise the result is the full path when that file exists, and null when it does not. |
| CommandExecutor.CapturedAppend | Executors/CommandExecutor.cs:132-146 | Capturing two stretches of a stream gives the two captured texts joined. |
| CommandExecutor.CapturedBlankIff | Executors/CommandExecutor.cs:132-146 | The captured text is blank exactly when every received line is blank. |
| CommandExecutor.CapturedDropsNull | Executors/CommandExecutor.cs:134-137 | Null data events add nothing. |
| CommandExecutor.CaptureLines | Executors/CommandExecutor.cs:132-146 | The handler loop appends each non-null line and a line break, giving `Captured`. |
| CommandExecutor.ProcessResult | Executors/CommandExecutor.cs:126-173 | An exception propagates with its message. A timeout keeps the captured text, leaves exit code 0, sets `TimedOut` and the timeout message. A normal exit keeps its code and has no error message. |
| CommandExecutor.ExecuteProcess | Executors/CommandExecutor.cs:126-173 | The method computes `ProcessResult` with the configured timeout. |
| CommandExecutor.StartDescriptorFor | Executors/CommandExecutor.cs:109-121 | Both streams are redirected, with no shell and no window, and the given executable, arguments and directory. |
| CommandExecutor.ProcessStartInfo.constructor | Executors/CommandExecutor.cs:111 | A fresh start info has default settings and the inherited environment. |
| CommandExecutor.ProcessStartInfo.SetVariables | Executors/CommandExecutor.cs:202-205 | The given entries are written in, other variables are kept, and nothing else changes. |
| CommandExecutor.CreateProcessStartInfo | Executors/CommandExecutor.cs:109-121 | A fresh object whose settings are `StartDescriptorFor`. |
| CommandExecutor.Pipeline | Executors/CommandExecutor.cs:28-83 | The steps are a prefix of the fixed order. A process start is attempted exactly when the launch step is reached, and a run that starts none carries an error message. A missing executable stops after resolution with the not-found message. A non-blank pre-flight message stops after the pre-flight step with that message. |
| CommandExecutor.ExecuteAsync | Executors/CommandExecutor.cs:28-83 | The method's result, steps and started process equal `Pipeline`'s. |
| CommandExecutor.ResolvedReachesPreFlight | Executors/CommandExecutor.cs:39-55 | A run whose executable resolves goes on to the pre-flight check. |
| CommandExecutor.PreFlightStops | Executors/CommandExecutor.cs:39-55 | A non-blank pre-flight message starts no process. The run ends with that message, or with the not-found message when the executable was missing. |
| CommandExecutor.LaunchedAsInherited | Executors/CommandExecutor.cs:57-71 | A tool that keeps the command and the environment starts the resolved executable on the command itself, in the requested directory, with exactly the inherited environment. |
| CommandExecutor.LaunchedDescriptor | Executors/CommandExecutor.cs:57-71 | A started process runs the resolved executable with the formatted arguments. It runs in the requested directory, or the current one, with the inherited environment updated by the tool. |
| CommandExecutor.DefaultHooksLaunch | Executors/CommandExecutor.cs:185-205 | With the base hooks the process gets the command unchanged and exactly the inherited environment. |
| CommandExecutor.DefaultHooksFindPathExecutable | Executors/CommandExecutor.cs:90-95 | With no configured directory the base hooks never report a missing executable. |
| CommandExecutor.ThrownBecomesError | Executors/CommandExecutor.cs:78-82 | An exception from the process becomes a result carrying its message, and the post-execution hook is skipped. |
| CommandExecutor.ExitedResult | Executors/CommandExecutor.cs:167-172 | A normal exit gives its code and both captured streams, with no error message. |
| CommandExecutor.EngineTimeoutRendersOnlyError | Executors/CommandExecutor.cs:155-165 | A timed-out run renders as the timeout error line alone. |
| CommandExecutor.EngineFailuresReportSuccess | Executors/CommandExecutor.cs:41-82 | As written, every run that did not exit normally reports `Success` while carrying an error message. |
| CommandExecutor.SucceededIffCleanExit | Executors/CommandExecutor.cs:28-83 | Strict success (no error message, no timeout, exit code 0) holds exactly of a run that started the process and saw it exit with code 0. |
| CommandExecutor.BlankExceptionRendersAsCleanExit | Executors/CommandExecutor.cs:78-82 | An exception with a blank message renders as `Exit Code: 0` alone. |
| MSBuild.BuildCommand | Executors/MSBuildExecutor.cs:26-31 | The quoted project path, preceded by the options and a space when the options are not blank. |
| MSBuild.ProjectPreflight | Executors/MSBuildExecutor.cs:39-48 | The pre-flight fails exactly when a project path is recorded and no such file exists, with `Project file not found at <path>`. |
| MSBuild.MSBuildHooksFields | Executors/MSBuildExecutor.cs:16-48 | MSBuild overrides only its name and the pre-flight check. The executable lookup, the arguments, the environment and the post-processing are the base ones. |
| MSBuild.MSBuildExecutor.constructor | Executors/MSBuildExecutor.cs:9-13 | No project is recorded before the first build. |
| MSBuild.MSBuildExecutor.BuildProjectAsync | Executors/MSBuildExecutor.cs:21-37 | The project is recorded, and the engine runs with the MSBuild configuration, the build command and the project's directory. |
| MSBuild.MissingProjectNotLaunched | Executors/MSBuildExecutor.cs:42-45 | A missing project file starts nothing and reports the not-found or missing-project message. |
| MSBuild.ExistingProjectLaunched | Executors/MSBuildExecutor.cs:21-37 | An existing project, once MSBuild is found, starts it with the build command in the project's directory and the inherited environment. |
| MSBuild.ProjectDirectoryIsWorkingDirectory | Executors/MSBuildExecutor.cs:34 | A project given as a directory joined with a file name builds in that directory. |
| MSBuild.BareProjectNameBuildsInEmptyDirectory | Executors/MSBuildExecutor.cs:34 | A bare file name gives the empty directory, not the fallback. |
| MSBuildDelphi.GetProjectVersion | Executors/MSBuildDelphiExecutor.cs:90-137 | A missing file gives null. Otherwise the result is the project file's `ProjectVersion`. |
| MSBuildDelphi.ProjectVersionOfProjectFile | Executors/MSBuildDelphiExecutor.cs:100-130 | An existing project file in the usual layout yields the version it holds. |
| MSBuildDelphi.BdsUpdate | Executors/MSBuildDelphiExecutor.cs:45-51 | Exactly `BDS` is written: the resolved installation, or the empty string. |
| MSBuildDelphi.MSBuildDelphiHooksFields | Executors/MSBuildDelphiExecutor.cs:22-51 | On top of MSBuild's hooks, the tool has its own name and the `BDS` entry, and keeps MSBuild's project check. |
| MSBuildDelphi.MSBuildDelphiExecutor.constructor | Executors/MSBuildDelphiExecutor.cs:13-20 | No project, version or installation is recorded before the first build. |
| MSBuildDelphi.MSBuildDelphiExecutor.ResolveBdsPath | Executors/MSBuildDelphiExecutor.cs:53-85 | The resolver's answer for the version and the configured Delphi installations. |
| MSBuildDelphi.MSBuildDelphiExecutor.BuildProjectAsync | Executors/MSBuildDelphiExecutor.cs:27-43 | The project, its version and its installation are recorded, then the project is built as MSBuild does with this tool's hooks. |
| MSBuildDelphi.MSBuildDelphiExecutor.BaseBuildProjectAsync | Executors/MSBuildDelphiExecutor.cs:42 | The base build records the project, leaves the Delphi fields alone and runs the engine with the Delphi hooks. |
| MSBuildDelphi.BdsAlwaysSet | Executors/MSBuildDelphiExecutor.cs:45-51 | A started MSBuild sees `BDS` set to the installation, or empty, and every other variable as inherited. |
| MSBuildDelphi.MissingDelphiProjectNotLaunched | Executors/MSBuildDelphiExecutor.cs:27-43 | A missing project starts nothing, reports a not-found message and has no version. |
| MSBuildDelphi.ConfiguredInstallationPreferred | Executors/MSBuildDelphiExecutor.cs:59-62 | A configured installation that matches wins over the scan. |
| DccDelphi.NormalizeArchitecture | Executors/DccDelphiExecutor.cs:28 | A null or blank architecture becomes `Win32`. Any other is kept. |
| DccDelphi.ExeName | Executors/DccDelphiExecutor.cs:46-49 | The result is `dcc64.exe` exactly for `Win64` or `x64`, ignoring case, and `dcc32.exe` otherwise. |
| DccDelphi.ArchitectureExamples | Executors/DccDelphiExecutor.cs:28-49 | Absent, blank and `Win32` pick `dcc32.exe`. |
| DccDelphi.Win64Examples | Executors/DccDelphiExecutor.cs:46-49 | `x64` and `WIN64` pick `dcc64.exe`. |
| DccDelphi.ExtractProjectVersion | Executors/DccDelphiExecutor.cs:101-120 | A file that fails to load gives null. |
| DccDelphi.ProjectVersionFor | Executors/DccDelphiExecutor.cs:51-60 | There is no version when no `.dpr` path is recorded or the sibling `.dproj` does not exist. |
| DccDelphi.ProjectVersionFromSibling | Executors/DccDelphiExecutor.cs:55-58 | The version of `stem.dpr` is read from `stem.dproj`. |
| DccDelphi.FirstExisting | Executors/DccDelphiExecutor.cs:66-98 | The first existing candidate is returned, or the fallback when none exists. |
| DccDelphi.SearchOrder | Executors/DccDelphiExecutor.cs:66-98 | The order is `install\bin`, then `install\bin\win32`, then the configured directory, then the bare name. |
| DccDelphi.ExecutablePathName | Executors/DccDelphiExecutor.cs:66-98 | Every candidate and the fallback end with the compiler's name. |
| DccDelphi.ExecutableFileName | Executors/DccDelphiExecutor.cs:66-98 | For a plain compiler name, `Path.GetFileName` of the path found is that name, whichever candidate is found or when the bare name is the fallback. |
| DccDelphi.CompilerNameKept | Executors/DccDelphiExecutor.cs:40-99 | Whichever installation is resolved, the program run is the architecture's compiler. The path ends with its name, and `Path.GetFileName` of the path is that name. |
| DccDelphi.DprPreflight | Executors/DccDelphiExecutor.cs:122-134 | The pre-flight fails exactly when no `.dpr` path is recorded or the file is missing, with the fixed message. |
| DccDelphi.DccHooksFields | Executors/DccDelphiExecutor.cs:20-134 | The tool overrides its name, the compiler search and the `.dpr` check. The arguments and the environment are the base ones. |
| DccDelphi.DccDelphiExecutor.constructor | Executors/DccDelphiExecutor.cs:12-13 | No `.dpr` is recorded at first, and the architecture is `Win32`. |
| DccDelphi.DccDelphiExecutor.CompileDprAsync | Executors/DccDelphiExecutor.cs:25-38 | The path and the normalized architecture are recorded. The engine runs with the Delphi configuration, on the quoted path, in the `.dpr`'s directory. |
| DccDelphi.DccDelphiExecutor.GetExecutablePath | Executors/DccDelphiExecutor.cs:40-99 | The early-return chain computes the specified compiler path from the recorded fields. |
| DccDelphi.NeverNotFound | Executors/DccDelphiExecutor.cs:96-98 | This tool never reports a missing executable: every run reaches the pre-flight check. |
| DccDelphi.MissingDprNotLaunched | Executors/DccDelphiExecutor.cs:128-131 | A missing or absent `.dpr` starts nothing and reports the fixed message. |
| DccDelphi.ExistingDprLaunched | Executors/DccDelphiExecutor.cs:25-38 | An existing `.dpr` starts the compiler the search finds, on the quoted path, with the inherited environment. |

## Left out

- Logging, the `ILogger` calls and `EnableLogging` are not modelled. They do not affect results.
- The child process, its threads and the asynchronous stream events are not modelled. A run is
  a given `ProcessOutcome`: exit code or timeout, the lines each stream delivered, or an
  exception. `async`/`await` is sequential.
- `Process.Kill` is not modelled: it is the input's `TimedOut` case.
- Exceptions are modelled only where the process is started or awaited (`Threw`). Also modelled
  are `Directory.GetDirectories` and `XDocument.Load` failing. Other exceptions are not modelled:
  from `GetExecutablePath`, from the hooks, and from `(int)timeout.TotalMilliseconds` overflowing
  or going negative.
- `CommandExecutor.TimeoutMessage` prints the timeout as an integer. The source formats a
  `double` with the current culture, which is the same text for whole seconds.
- `MaxOutputSize` is declared but never enforced by the source. The model keeps it as a field.
- `ConfigurationLoader`, `Program.cs` and the MCP tool classes under `Tools/` are not part of
  this model.
- The executors that override only the tool name (dotnet, cargo, python) are not modelled
  separately. They are `CommandExecutor.DefaultHooks` with their name.
- `ExecutionResult` is a datatype, not an object. The source only builds it with initialisers.
  `PostExecuteAsync` is a function from result to result.
- The virtual members become a `Hooks` value that each tool builds from its fields when a run
  starts. `ModifyProcessStartInfo` becomes a map of environment entries written into the start
  info.
- Environment variable names are compared exactly. Windows compares them ignoring case.
- The platform is fixed to Windows, where the Delphi tools run. `Environment.NewLine`, and so
  every line `AppendLine` writes, is `"\r\n"`. `Path` uses `\` as its separator and Windows
  rooting rules. The dotnet, cargo and python executors and the engine also run on Linux and
  macOS. There the report, the captured output and any joined path (such as the one in the
  not-found message) use `"\n"` and `/` instead, and the model does not describe those texts.
- `StringComparison.OrdinalIgnoreCase` (`Text.EqualsIgnoreCase`, used for the architecture
  names) folds only ASCII letters in the model. .NET folds with invariant-culture upper-casing,
  which also equates some non-ASCII letters.
- `int.ToString()` (`Text.IntToString`, the exit-code line) is modelled with invariant-culture
  digits and a leading `-`. A culture with a different negative sign is not modelled.
- Paths:
  - `System.IO.Path` is modelled for drive-rooted and separator-rooted Windows paths.
  - UNC and device paths are not modelled.
  - Alternate separators are not normalised.
  - `File.Exists` and `Directory.Exists` look up exact strings, with no normalisation or case
    folding.
- `DelphiPathResolver.ParseVersion` is modelled as the regular-expression route: the first
  `digits.digits`, with both parts within `int`. On texts of digits and dots, `Version.TryParse`
  gives the same major and minor whenever it succeeds. Texts it accepts with signs or spaces
  inside a component, such as `+22.+0`, are not modelled. Digits outside ASCII are not modelled
  either; `\d` accepts them and `int.TryParse` then rejects them.
- `DelphiPathResolver.ScanStandardLocations`: a root whose listing throws contributes nothing.
  Failures while checking a single subdirectory are not modelled; the file-system lookups used
  never throw.
- `MSBuildDelphi.MSBuildDelphiExecutor.ResolveBdsPath`: the `catch` that returns null is not
  modelled, because no modelled step throws.
- Source that does not compile as given is modelled by its evident intent:
  - `ToolsSettings` has no `MSBuildDelphi` entry and `ToolConfig` has no `DelphiInstallPaths`.
    Both are modelled as fields, the list as nullable.
  - `MSBuildExecutor` declares a two-parameter `PreExecuteAsync` override. It is modelled as
    overriding the engine's pre-flight hook.
  - The constructors pass a settings value where a settings monitor is expected.
  - Because `MSBuildDelphiExecutor` goes through `MSBuildExecutor`'s constructor, its engine
    uses the MSBuild tool configuration.
- Null `ToolConfig` fields, a null project path and a null settings section are not modelled.
  The configuration types use empty strings as defaults.
- The settings snapshot the Delphi compiler reads in `GetExecutablePath` is the same one the
  engine read at the start of the run.

## Findings

| source | as written | input that shows it | evidently intended | confidence | as-written member | corrected member |
|---|---|---|---|---|---|---|
| Executors/ExecutionResult.cs:10 | `Success` is `ExitCode == 0` only. The engine's error results (missing executable, failed pre-flight, timeout, exception) keep the default exit code 0. | A run whose executable is not found: its result has only `ErrorMessage` set, and `Success` is true. | Success means no error message, no timeout and exit code 0. | not executed | CommandExecutor.EngineFailuresReportSuccess | CommandExecutor.SucceededIffCleanExit |
