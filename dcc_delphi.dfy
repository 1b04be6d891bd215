/** `DccDelphiExecutor`: compiles a Delphi `.dpr` file with the command-line compiler, `dcc32.exe`
    or `dcc64.exe` by architecture. The compiler is looked for in the Delphi installation
    resolved for the project's version, then in the configured tool directory, and is
    otherwise left to PATH, so this tool never reports a missing executable. It refuses to
    start when the `.dpr` file is missing. */
module DccDelphi {
  import opened Wrappers
  import opened Text
  import opened Files
  import opened Settings
  import opened Results
  import opened CommandExecutor
  import opened DelphiPathResolver
  import Xml

  const ToolName: string := "DCC Delphi"
  const DefaultArchitecture: string := "Win32"
  const DprMissingMessage: string := "DPR file not found or path not provided."

  /** A blank or absent architecture means `Win32`. */
  function NormalizeArchitecture(architecture: Option<string>): (a: string)
    ensures IsNullOrWhiteSpace(architecture) ==> a == DefaultArchitecture
    ensures !IsNullOrWhiteSpace(architecture) ==> a == architecture.value
    ensures !IsBlank(a)
  {
    if IsNullOrWhiteSpace(architecture) then NotBlankAt(DefaultArchitecture, 0); DefaultArchitecture
    else architecture.value
  }

  /** The compiler of an architecture: the 64-bit one exactly for `Win64` or `x64`, in any case. */
  function ExeName(architecture: string): (name: string)
    ensures name == "dcc64.exe" || name == "dcc32.exe"
    ensures name == "dcc64.exe" <==> EqualsIgnoreCase(architecture, "Win64") || EqualsIgnoreCase(architecture, "x64")
  {
    if EqualsIgnoreCase(architecture, "Win64") || EqualsIgnoreCase(architecture, "x64") then "dcc64.exe"
    else "dcc32.exe"
  }

  /** A blank or absent architecture, and `Win32`, pick the 32-bit compiler. */
  lemma ArchitectureExamples()
    ensures ExeName(NormalizeArchitecture(None)) == "dcc32.exe"
    ensures ExeName(NormalizeArchitecture(Some(" "))) == "dcc32.exe"
    ensures ExeName(NormalizeArchitecture(Some("Win32"))) == "dcc32.exe"
  {
    NotBlankAt("Win32", 0);
    assert !EqualsIgnoreCase("Win32", "Win64") by { assert ToUpperAscii("Win32"[3]) != ToUpperAscii("Win64"[3]); }
  }

  /** `x64` and `Win64`, in any case, pick the 64-bit compiler. */
  lemma Win64Examples()
    ensures ExeName(NormalizeArchitecture(Some("x64"))) == "dcc64.exe"
    ensures ExeName(NormalizeArchitecture(Some("WIN64"))) == "dcc64.exe"
  {
    NotBlankAt("x64", 0);
    NotBlankAt("WIN64", 0);
  }

  /** `ExtractProjectVersion`: the `ProjectVersion` of a project file; nothing when loading
      throws or a piece is missing. */
  function ExtractProjectVersion(fs: FileSystem, dprojPath: string): (version: Option<string>)
    ensures Load(fs, dprojPath).None? ==> version.None?
  {
    Xml.ProjectVersion(Load(fs, dprojPath))
  }

  /** The project version the compiler search starts from: read from the `.dproj` next to the
      `.dpr`, and only when a `.dpr` path is recorded and that file exists. */
  function ProjectVersionFor(fs: FileSystem, dprPath: Option<string>): (version: Option<string>)
    ensures IsNullOrWhiteSpace(dprPath) ==> version.None?
    ensures !IsNullOrWhiteSpace(dprPath) && !FileExists(fs, ChangeExtension(dprPath.value, ".dproj")) ==> version.None?
  {
    if IsNullOrWhiteSpace(dprPath) then None
    else
      var dprojPath := ChangeExtension(dprPath.value, ".dproj");
      if FileExists(fs, dprojPath) then ExtractProjectVersion(fs, dprojPath) else None
  }

  /** The version comes from the sibling project file: the `.dpr`'s path with its extension
      replaced by `.dproj`. */
  lemma ProjectVersionFromSibling(fs: FileSystem, stem: string)
    requires FileExists(fs, stem + ".dproj")
    ensures ProjectVersionFor(fs, Some(stem + ".dpr")) == Xml.ProjectVersion(Load(fs, stem + ".dproj"))
  {
    ChangeDprExtension(stem, ".dproj");
    var p := stem + ".dpr";
    assert p[|p| - 1] == 'r';
    NotBlankAt(p, |p| - 1);
  }

  /** `<install>\bin\<exe>`. */
  function BinCandidate(install: string, exeName: string): string {
    Combine(Combine(install, "bin"), exeName)
  }

  /** `<install>\bin\win32\<exe>`, the layout of some older versions. */
  function Win32BinCandidate(install: string, exeName: string): string {
    Combine(Combine(Combine(install, "bin"), "win32"), exeName)
  }

  /** The places the compiler is looked for, in order: the two locations in the resolved
      installation, then the configured tool directory when one is configured. */
  function Candidates(install: Option<string>, config: ToolConfig, exeName: string): seq<string> {
    (if install.Some? then [BinCandidate(install.value, exeName), Win32BinCandidate(install.value, exeName)] else [])
    + (if !IsBlank(config.path) then [Combine(config.path, exeName)] else [])
  }

  /** The first of the candidates that exists, or the fallback when none does. */
  function FirstExisting(fs: FileSystem, candidates: seq<string>, fallback: string): (path: string)
    ensures (exists i :: 0 <= i < |candidates| && path == candidates[i] && FileExists(fs, path)
               && forall j :: 0 <= j < i ==> !FileExists(fs, candidates[j]))
            || (path == fallback && forall j :: 0 <= j < |candidates| ==> !FileExists(fs, candidates[j]))
  {
    if candidates == [] then fallback
    else if FileExists(fs, candidates[0]) then
      candidates[0]
    else
      var path := FirstExisting(fs, candidates[1..], fallback);
      assert forall j :: 1 <= j < |candidates| ==> candidates[j] == candidates[1..][j - 1];
      path
  }

  /** The compiler to run: the first candidate that exists, or the bare compiler name to be
      found on PATH when none does. */
  function ExecutablePath(fs: FileSystem, config: ToolConfig, exeName: string, install: Option<string>): string {
    FirstExisting(fs, Candidates(install, config, exeName), exeName)
  }

  /** The search as the source writes it, a chain of existence checks, finds the first
      existing candidate. */
  lemma SearchOrder(fs: FileSystem, config: ToolConfig, exeName: string, install: Option<string>)
    ensures ExecutablePath(fs, config, exeName, install) ==
      if install.Some? && FileExists(fs, BinCandidate(install.value, exeName)) then BinCandidate(install.value, exeName)
      else if install.Some? && FileExists(fs, Win32BinCandidate(install.value, exeName)) then Win32BinCandidate(install.value, exeName)
      else if !IsBlank(config.path) && FileExists(fs, Combine(config.path, exeName)) then Combine(config.path, exeName)
      else exeName
  {
    var tail := if !IsBlank(config.path) then [Combine(config.path, exeName)] else [];
    FirstExistingStep(fs, tail, exeName);
    if install.Some? {
      var b, w := BinCandidate(install.value, exeName), Win32BinCandidate(install.value, exeName);
      assert Candidates(install, config, exeName) == [b, w] + tail;
      FirstExistingStep(fs, [b, w] + tail, exeName);
      assert ([b, w] + tail)[1..] == [w] + tail;
      FirstExistingStep(fs, [w] + tail, exeName);
      assert ([w] + tail)[1..] == tail;
    } else {
      assert Candidates(install, config, exeName) == tail;
    }
  }

  /** One step of the search. */
  lemma FirstExistingStep(fs: FileSystem, candidates: seq<string>, fallback: string)
    ensures FirstExisting(fs, candidates, fallback) ==
      if candidates == [] then fallback
      else if FileExists(fs, candidates[0]) then candidates[0]
      else FirstExisting(fs, candidates[1..], fallback)
  {
  }

  /** The path of the compiler for the recorded `.dpr` and architecture. */
  function DccExecutablePath(fs: FileSystem, settings: CodingSettings, config: ToolConfig,
                             dprPath: Option<string>, architecture: string): string {
    ExecutablePath(fs, config, ExeName(architecture),
      InstallPathFor(ProjectVersionFor(fs, dprPath), settings.tools.msBuildDelphi.delphiInstallPaths, fs,
                     ScannedInstalls(fs, StandardBasePaths)))
  }

  /** Wherever it is found, the program run is the compiler looked for: every candidate
      location, and the bare name, end with the compiler's name. */
  lemma ExecutablePathName(fs: FileSystem, config: ToolConfig, exeName: string, install: Option<string>)
    ensures EndsWith(ExecutablePath(fs, config, exeName, install), exeName)
  {
    SearchOrder(fs, config, exeName, install);
    assert exeName[|exeName| - |exeName|..] == exeName;
  }

  /** For a plain compiler name, `Path.GetFileName` of the path found is that name: every
      candidate joins a non-empty directory and the name, and the fallback is the name. */
  lemma ExecutableFileName(fs: FileSystem, config: ToolConfig, exeName: string, install: Option<string>)
    requires exeName != "" && !IsDriveRooted(exeName)
    requires forall j :: 0 <= j < |exeName| ==> !IsSeparator(exeName[j])
    ensures GetFileName(ExecutablePath(fs, config, exeName, install)) == exeName
  {
    SearchOrder(fs, config, exeName, install);
    if install.Some? {
      FileNameOfCombine(Combine(install.value, "bin"), exeName);
      FileNameOfCombine(Combine(Combine(install.value, "bin"), "win32"), exeName);
    }
    if !IsBlank(config.path) {
      FileNameOfCombine(config.path, exeName);
    }
    FileNameOfPlainName(exeName);
  }

  /** The program run is the compiler of the architecture, whichever installation the
      resolver picks: the path ends with the compiler's name, and that name is its file name. */
  lemma CompilerNameKept(fs: FileSystem, settings: CodingSettings, config: ToolConfig,
                         dprPath: Option<string>, architecture: string)
    ensures EndsWith(DccExecutablePath(fs, settings, config, dprPath, architecture), ExeName(architecture))
    ensures GetFileName(DccExecutablePath(fs, settings, config, dprPath, architecture)) == ExeName(architecture)
  {
    var exe := ExeName(architecture);
    var install := InstallPathFor(ProjectVersionFor(fs, dprPath),
      settings.tools.msBuildDelphi.delphiInstallPaths, fs, ScannedInstalls(fs, StandardBasePaths));
    assert forall j :: 0 <= j < |exe| ==> !IsSeparator(exe[j]);
    ExecutablePathName(fs, config, exe, install);
    ExecutableFileName(fs, config, exe, install);
  }

  /** The pre-flight check: an error when no `.dpr` path is recorded or the file is missing. */
  function DprPreflight(fs: FileSystem, dprPath: Option<string>): (message: Option<string>)
    ensures message.Some? <==> IsNullOrWhiteSpace(dprPath) || !FileExists(fs, dprPath.value)
    ensures message.Some? ==> message.value == DprMissingMessage
  {
    if IsNullOrWhiteSpace(dprPath) || !FileExists(fs, dprPath.value) then Some(DprMissingMessage) else None
  }

  /** The hooks of `DccDelphiExecutor` with the given recorded `.dpr` path and architecture. */
  function DccHooks(dprPath: Option<string>, architecture: string): Hooks {
    DefaultHooks(ToolName).(
      getExecutablePath := (fs, settings, config) => Some(DccExecutablePath(fs, settings, config, dprPath, architecture)),
      preExecute := (fs, command, workingDirectory, settings, config) => DprPreflight(fs, dprPath))
  }

  /** The overrides of `DccDelphiExecutor`: the compiler search and the `.dpr` check; the rest
      is inherited. */
  lemma DccHooksFields(dprPath: Option<string>, architecture: string)
    ensures DccHooks(dprPath, architecture).toolName == ToolName
    ensures DccHooks(dprPath, architecture).environmentUpdates == map[]
    ensures forall command :: DccHooks(dprPath, architecture).formatArguments(command) == command
    ensures forall fs, settings, config ::
      DccHooks(dprPath, architecture).getExecutablePath(fs, settings, config)
      == Some(DccExecutablePath(fs, settings, config, dprPath, architecture))
    ensures forall fs, command, workingDirectory, settings, config ::
      DccHooks(dprPath, architecture).preExecute(fs, command, workingDirectory, settings, config) == DprPreflight(fs, dprPath)
  {
  }

  class DccDelphiExecutor {
    var dprPath: Option<string>
    var architecture: string

    constructor ()
      ensures dprPath == None && architecture == DefaultArchitecture
    {
      dprPath := None;
      architecture := DefaultArchitecture;
    }

    /** `CompileDprAsync`: records the `.dpr` path and the architecture, then runs the
        compiler on the quoted path in the `.dpr`'s directory, with the Delphi configuration. */
    method CompileDprAsync(settings: CodingSettings, dprPath: string, architecture: Option<string>, world: World)
      returns (result: ExecutionResult)
      modifies this
      ensures this.dprPath == Some(dprPath) && this.architecture == NormalizeArchitecture(architecture)
      ensures result == Pipeline(DccHooks(Some(dprPath), NormalizeArchitecture(architecture)), settings,
        settings.tools.msBuildDelphi, Quote(dprPath), Some(DirectoryOrCurrent(dprPath, world.currentDirectory)), world).result
    {
      this.dprPath := Some(dprPath);
      this.architecture := if IsNullOrWhiteSpace(architecture) then DefaultArchitecture else architecture.value;

      var command := "";
      command := command + Quote(dprPath);

      var workingDirectory := DirectoryOrCurrent(dprPath, world.currentDirectory);
      ghost var steps, launched;
      result, steps, launched := ExecuteAsync(DccHooks(this.dprPath, this.architecture), settings,
        settings.tools.msBuildDelphi, command, Some(workingDirectory), world);
    }

    /** `GetExecutablePath`: the chain of existence checks, from the recorded fields. */
    method GetExecutablePath(settings: CodingSettings, config: ToolConfig, fs: FileSystem) returns (path: string)
      ensures path == DccExecutablePath(fs, settings, config, dprPath, architecture)
    {
      var exeName := if EqualsIgnoreCase(architecture, "Win64") || EqualsIgnoreCase(architecture, "x64")
        then "dcc64.exe" else "dcc32.exe";

      var projectVersion: Option<string> := None;
      if !IsNullOrWhiteSpace(dprPath) {
        var dprojPath := ChangeExtension(dprPath.value, ".dproj");
        if FileExists(fs, dprojPath) {
          projectVersion := ExtractProjectVersion(fs, dprojPath);
        }
      }

      var configuredPaths := settings.tools.msBuildDelphi.delphiInstallPaths;
      var installPath := ResolveInstallPath(projectVersion, configuredPaths, fs);
      assert exeName == ExeName(architecture) && projectVersion == ProjectVersionFor(fs, dprPath);
      SearchOrder(fs, config, exeName, installPath);

      if installPath.Some? {
        var candidate := Combine(Combine(installPath.value, "bin"), exeName);
        if FileExists(fs, candidate) {
          return candidate;
        }
        var candidate2 := Combine(Combine(Combine(installPath.value, "bin"), "win32"), exeName);
        if FileExists(fs, candidate2) {
          return candidate2;
        }
      }

      if !IsBlank(config.path) {
        var candidate := Combine(config.path, exeName);
        if FileExists(fs, candidate) {
          return candidate;
        }
      }

      return exeName;
    }
  }

  /** The compiler search never fails, so a run of this tool never ends with the
      missing-executable message: it always reaches the pre-flight check. */
  lemma NeverNotFound(settings: CodingSettings, dprPath: Option<string>, architecture: string, command: string,
                      workingDirectory: Option<string>, world: World)
    ensures var run := Pipeline(DccHooks(dprPath, architecture), settings, settings.tools.msBuildDelphi,
        command, workingDirectory, world);
      |run.steps| >= 2 && run.steps[1] == PreFlight
  {
    DccHooksFields(dprPath, architecture);
    ResolvedReachesPreFlight(DccHooks(dprPath, architecture), settings, settings.tools.msBuildDelphi,
      command, workingDirectory, world);
  }

  /** A missing or absent `.dpr` starts no compiler and reports the pre-flight message. */
  lemma MissingDprNotLaunched(settings: CodingSettings, dprPath: Option<string>, architecture: string, command: string,
                              workingDirectory: Option<string>, world: World)
    requires IsNullOrWhiteSpace(dprPath) || !FileExists(world.fs, dprPath.value)
    ensures var run := Pipeline(DccHooks(dprPath, architecture), settings, settings.tools.msBuildDelphi,
        command, workingDirectory, world);
      run.launched.None? && run.result == Fatal(DprMissingMessage)
  {
    DccHooksFields(dprPath, architecture);
    NotBlankAt(DprMissingMessage, 0);
    PreFlightStops(DccHooks(dprPath, architecture), settings, settings.tools.msBuildDelphi,
      command, workingDirectory, world, DprMissingMessage);
  }

  /** An existing `.dpr` starts the compiler found by the search, on the quoted path, with
      the inherited environment. */
  lemma ExistingDprLaunched(settings: CodingSettings, dprPath: string, architecture: string,
                            workingDirectory: Option<string>, world: World)
    requires !IsBlank(dprPath) && FileExists(world.fs, dprPath)
    ensures var run := Pipeline(DccHooks(Some(dprPath), architecture), settings, settings.tools.msBuildDelphi,
        Quote(dprPath), workingDirectory, world);
      run.launched.Some?
      && run.launched.value.fileName == DccExecutablePath(world.fs, settings, settings.tools.msBuildDelphi, Some(dprPath), architecture)
      && run.launched.value.arguments == Quote(dprPath)
      && run.launched.value.environment == world.environment
  {
    var hooks := DccHooks(Some(dprPath), architecture);
    DccHooksFields(Some(dprPath), architecture);
    LaunchedAsInherited(hooks, settings, settings.tools.msBuildDelphi, Quote(dprPath), workingDirectory, world);
  }
}
