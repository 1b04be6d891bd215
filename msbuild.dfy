/** `MSBuildExecutor`: builds a project file with MSBuild. It remembers the project path,
    passes the build options and the quoted project path as the command, runs in the
    project's directory, and refuses to start when the recorded project file is missing. */
module MSBuild {
  import opened Wrappers
  import opened Text
  import opened Files
  import opened Settings
  import opened Results
  import opened CommandExecutor

  const ToolName: string := "MSBuild"

  /** The command line: the build options and a space when they are not blank, then the
      project path in double quotes. */
  function BuildCommand(projectPath: string, buildOptions: Option<string>): (command: string)
    ensures EndsWith(command, Quote(projectPath))
    ensures IsNullOrWhiteSpace(buildOptions) ==> command == Quote(projectPath)
    ensures !IsNullOrWhiteSpace(buildOptions) ==>
      |command| == |buildOptions.value| + 1 + |Quote(projectPath)|
      && command[..|buildOptions.value|] == buildOptions.value && command[|buildOptions.value|] == ' '
  {
    if !IsNullOrWhiteSpace(buildOptions) then buildOptions.value + " " + Quote(projectPath)
    else Quote(projectPath)
  }

  /** The pre-flight check: an error when a project path was recorded and no such file exists. */
  function ProjectPreflight(fs: FileSystem, projectPath: Option<string>): (message: Option<string>)
    ensures message.Some? <==> projectPath.Some? && !FileExists(fs, projectPath.value)
    ensures message.Some? ==> message.value == "Project file not found at " + projectPath.value
  {
    if projectPath.Some? && !FileExists(fs, projectPath.value) then Some("Project file not found at " + projectPath.value)
    else None
  }

  /** The hooks of `MSBuildExecutor` with the given recorded project path. */
  function MSBuildHooks(projectPath: Option<string>): Hooks {
    DefaultHooks(ToolName).(preExecute := (fs, command, workingDirectory, settings, config) => ProjectPreflight(fs, projectPath))
  }

  /** The override of `MSBuildExecutor`: the project check; the rest is inherited. */
  lemma MSBuildHooksFields(projectPath: Option<string>)
    ensures MSBuildHooks(projectPath).toolName == ToolName
    ensures MSBuildHooks(projectPath).environmentUpdates == map[]
    ensures forall command :: MSBuildHooks(projectPath).formatArguments(command) == command
    ensures forall fs, settings, config ::
      MSBuildHooks(projectPath).getExecutablePath(fs, settings, config) == DefaultExecutablePath(fs, config)
    ensures forall fs, command, workingDirectory, settings, config ::
      MSBuildHooks(projectPath).preExecute(fs, command, workingDirectory, settings, config) == ProjectPreflight(fs, projectPath)
    ensures forall result :: MSBuildHooks(projectPath).postExecute(result) == result
  {
  }

  class MSBuildExecutor {
    /** `_projectPath`: the project of the latest build request, null before the first. */
    var projectPath: Option<string>

    constructor ()
      ensures projectPath == None
    {
      projectPath := None;
    }

    /** `BuildProjectAsync`: records the project path, then builds the command and runs the
      engine with the MSBuild configuration in the project's directory. */
    method BuildProjectAsync(settings: CodingSettings, projectPath: string, buildOptions: Option<string>, world: World)
      returns (result: ExecutionResult)
      modifies this
      ensures this.projectPath == Some(projectPath)
      ensures result == Pipeline(MSBuildHooks(Some(projectPath)), settings, settings.tools.msBuild,
        BuildCommand(projectPath, buildOptions), Some(DirectoryOrCurrent(projectPath, world.currentDirectory)), world).result
    {
      this.projectPath := Some(projectPath);

      var command := "";
      if !IsNullOrWhiteSpace(buildOptions) {
        command := command + (buildOptions.value + " ");
      }
      command := command + Quote(projectPath);

      var workingDirectory := DirectoryOrCurrent(projectPath, world.currentDirectory);
      ghost var steps, launched;
      result, steps, launched := ExecuteAsync(MSBuildHooks(this.projectPath), settings, settings.tools.msBuild,
        command, Some(workingDirectory), world);
    }
  }

  /** A build request for a project file that does not exist starts no process: the run
      ends with the missing-executable or the missing-project message. */
  lemma MissingProjectNotLaunched(settings: CodingSettings, projectPath: string, buildOptions: Option<string>, world: World)
    requires !FileExists(world.fs, projectPath)
    ensures var run := Pipeline(MSBuildHooks(Some(projectPath)), settings, settings.tools.msBuild,
        BuildCommand(projectPath, buildOptions), Some(DirectoryOrCurrent(projectPath, world.currentDirectory)), world);
      run.launched.None?
      && (run.result == Fatal(NotFoundMessage(ToolName, settings.tools.msBuild))
          || run.result == Fatal("Project file not found at " + projectPath))
  {
    var message := "Project file not found at " + projectPath;
    NotBlankAt(message, 0);
    MSBuildHooksFields(Some(projectPath));
    PreFlightStops(MSBuildHooks(Some(projectPath)), settings, settings.tools.msBuild, BuildCommand(projectPath, buildOptions),
      Some(DirectoryOrCurrent(projectPath, world.currentDirectory)), world, message);
  }

  /** A build request for an existing project starts MSBuild, once the executable is found,
      with the build command, in the project's directory. */
  lemma ExistingProjectLaunched(settings: CodingSettings, projectPath: string, buildOptions: Option<string>, world: World)
    requires FileExists(world.fs, projectPath)
    requires DefaultExecutablePath(world.fs, settings.tools.msBuild).Some?
    ensures var run := Pipeline(MSBuildHooks(Some(projectPath)), settings, settings.tools.msBuild,
        BuildCommand(projectPath, buildOptions), Some(DirectoryOrCurrent(projectPath, world.currentDirectory)), world);
      run.launched.Some?
      && run.launched.value.fileName == DefaultExecutablePath(world.fs, settings.tools.msBuild).value
      && run.launched.value.arguments == BuildCommand(projectPath, buildOptions)
      && run.launched.value.workingDirectory == DirectoryOrCurrent(projectPath, world.currentDirectory)
      && run.launched.value.environment == world.environment
  {
    var hooks := MSBuildHooks(Some(projectPath));
    var command := BuildCommand(projectPath, buildOptions);
    var workingDirectory := Some(DirectoryOrCurrent(projectPath, world.currentDirectory));
    MSBuildHooksFields(Some(projectPath));
    LaunchedAsInherited(hooks, settings, settings.tools.msBuild, command, workingDirectory, world);
  }

  /** A project given as a directory joined with a file name builds in that directory. */
  lemma ProjectDirectoryIsWorkingDirectory(directory: string, name: string, currentDirectory: string)
    requires |directory| > RootLength(directory) && !IsSeparator(directory[|directory| - 1])
    requires name != "" && !IsDriveRooted(name)
    requires forall j :: 0 <= j < |name| ==> !IsSeparator(name[j])
    ensures DirectoryOrCurrent(Combine(directory, name), currentDirectory) == directory
  {
    DirectoryNameOfCombine(directory, name);
  }

  /** A bare project file name builds in the empty directory (the process's own current
      directory), not in the fallback: `GetDirectoryName` gives the empty string, not null. */
  lemma BareProjectNameBuildsInEmptyDirectory(name: string, currentDirectory: string)
    requires exists j :: 0 <= j < |name| && name[j] != ' '
    requires !IsDriveRooted(name)
    requires forall j :: 0 <= j < |name| ==> !IsSeparator(name[j])
    ensures DirectoryOrCurrent(name, currentDirectory) == ""
  {
    assert LastSeparator(name).None?;
  }
}
