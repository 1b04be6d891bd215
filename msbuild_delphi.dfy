/** `MSBuildDelphiExecutor`: an MSBuild build of a Delphi project. Before building it reads
    the project's `ProjectVersion`, resolves the Delphi installation for it, and hands the
    installation to MSBuild through the `BDS` environment variable. */
module MSBuildDelphi {
  import opened Wrappers
  import opened Text
  import opened Files
  import opened Settings
  import opened Results
  import opened CommandExecutor
  import opened DelphiPathResolver
  import Xml
  import MSBuild

  const ToolName: string := "MSBuild (Delphi)"

  /** `GetProjectVersion`: nothing for a missing file, otherwise the `ProjectVersion` of the
      loaded project file (nothing when loading throws or a piece is missing). */
  function GetProjectVersion(fs: FileSystem, projectPath: string): (version: Option<string>)
    ensures !FileExists(fs, projectPath) ==> version.None?
    ensures FileExists(fs, projectPath) ==> version == Xml.ProjectVersion(Load(fs, projectPath))
  {
    if !FileExists(fs, projectPath) then None
    else Xml.ProjectVersion(Load(fs, projectPath))
  }

  /** An existing project file in the layout MSBuild writes gives the version it holds. */
  lemma ProjectVersionOfProjectFile(fs: FileSystem, projectPath: string, ns: string, group: seq<Xml.XNode>, v: string)
    requires FileExists(fs, projectPath)
    requires forall i :: 0 <= i < |group| ==> !(group[i].XChild? && group[i].element.name == Xml.XName(ns, "ProjectVersion"))
    requires Load(fs, projectPath) == Some(Xml.XDocument(Some(Xml.XElement(Xml.XName(ns, "Project"), [
      Xml.XChild(Xml.XElement(Xml.XName(ns, "PropertyGroup"),
        group + [Xml.XChild(Xml.XElement(Xml.XName(ns, "ProjectVersion"), [Xml.XText(v)]))]))]))))
    ensures GetProjectVersion(fs, projectPath) == Some(v)
  {
    Xml.ProjectVersionFound(ns, "Project", [], [], group, [], v);
    assert [] + [Xml.XChild(Xml.XElement(Xml.XName(ns, "PropertyGroup"),
        group + [Xml.XChild(Xml.XElement(Xml.XName(ns, "ProjectVersion"), [Xml.XText(v)]))]))] + []
      == [Xml.XChild(Xml.XElement(Xml.XName(ns, "PropertyGroup"),
        group + [Xml.XChild(Xml.XElement(Xml.XName(ns, "ProjectVersion"), [Xml.XText(v)]))]))];
    assert group + [Xml.XChild(Xml.XElement(Xml.XName(ns, "ProjectVersion"), [Xml.XText(v)]))] + []
      == group + [Xml.XChild(Xml.XElement(Xml.XName(ns, "ProjectVersion"), [Xml.XText(v)]))];
  }

  /** The entry `ModifyProcessStartInfo` writes: `BDS` is the resolved installation, or the
      empty string when none was resolved. */
  function BdsUpdate(bdsPath: Option<string>): (updates: map<string, string>)
    ensures updates.Keys == {"BDS"}
    ensures updates["BDS"] == if bdsPath.Some? then bdsPath.value else ""
  {
    map["BDS" := bdsPath.GetOr("")]
  }

  /** The hooks of `MSBuildDelphiExecutor`: those of `MSBuildExecutor` with its own name and
      the `BDS` entry. */
  function MSBuildDelphiHooks(projectPath: string, bdsPath: Option<string>): Hooks {
    MSBuild.MSBuildHooks(Some(projectPath)).(toolName := ToolName, environmentUpdates := BdsUpdate(bdsPath))
  }

  /** The installation `ResolveBdsPath` resolves, given the installations the scan of the
      standard locations finds. */
  function BdsPathFor(settings: CodingSettings, projectVersion: Option<string>, fs: FileSystem): Option<string> {
    InstallPathFor(projectVersion, settings.tools.msBuildDelphi.delphiInstallPaths, fs, ScannedInstalls(fs, StandardBasePaths))
  }

  /** The overrides of `MSBuildDelphiExecutor` on top of `MSBuildExecutor`: its name and the
      `BDS` entry. */
  lemma MSBuildDelphiHooksFields(projectPath: string, bdsPath: Option<string>)
    ensures MSBuildDelphiHooks(projectPath, bdsPath).toolName == ToolName
    ensures MSBuildDelphiHooks(projectPath, bdsPath).environmentUpdates == BdsUpdate(bdsPath)
    ensures forall fs, command, workingDirectory, settings, config ::
      MSBuildDelphiHooks(projectPath, bdsPath).preExecute(fs, command, workingDirectory, settings, config)
      == MSBuild.ProjectPreflight(fs, Some(projectPath))
  {
    MSBuild.MSBuildHooksFields(Some(projectPath));
  }

  /** The result of an MSBuild build of a Delphi project with the given installation. */
  function BuildResult(settings: CodingSettings, projectPath: string, buildOptions: Option<string>,
                       bdsPath: Option<string>, world: World): ExecutionResult {
    Pipeline(MSBuildDelphiHooks(projectPath, bdsPath), settings, settings.tools.msBuild,
      MSBuild.BuildCommand(projectPath, buildOptions), Some(DirectoryOrCurrent(projectPath, world.currentDirectory)), world).result
  }

  class MSBuildDelphiExecutor {
    /** `_projectPath` of the base `MSBuildExecutor`. */
    var projectPath: Option<string>
    var delphiProjectPath: Option<string>
    var projectVersion: Option<string>
    var bdsPath: Option<string>

    constructor ()
      ensures projectPath == None && delphiProjectPath == None && projectVersion == None && bdsPath == None
    {
      projectPath := None;
      delphiProjectPath := None;
      projectVersion := None;
      bdsPath := None;
    }

    /** `ResolveBdsPath`: the resolver's answer for the project version and the configured
        Delphi installations. */
    method ResolveBdsPath(settings: CodingSettings, projectVersion: Option<string>, fs: FileSystem)
      returns (r: Option<string>)
      ensures r == BdsPathFor(settings, projectVersion, fs)
    {
      var configuredPaths := settings.tools.msBuildDelphi.delphiInstallPaths;
      r := ResolveInstallPath(projectVersion, configuredPaths, fs);
    }

    /** `BuildProjectAsync`: records the project, its version and its installation, then
        builds it as `MSBuildExecutor` does, with this tool's hooks. */
    method BuildProjectAsync(settings: CodingSettings, projectPath: string, buildOptions: Option<string>, world: World)
      returns (result: ExecutionResult)
      modifies this
      ensures delphiProjectPath == Some(projectPath) && this.projectPath == Some(projectPath)
      ensures projectVersion == GetProjectVersion(world.fs, projectPath)
      ensures bdsPath == BdsPathFor(settings, projectVersion, world.fs)
      ensures result == BuildResult(settings, projectPath, buildOptions, bdsPath, world)
    {
      delphiProjectPath := Some(projectPath);
      var version := GetProjectVersion(world.fs, projectPath);
      projectVersion := version;
      var bds := ResolveBdsPath(settings, version, world.fs);
      bdsPath := bds;
      assert delphiProjectPath == Some(projectPath) && projectVersion == version;
      result := BaseBuildProjectAsync(settings, projectPath, buildOptions, world);
    }

    /** `MSBuildExecutor.BuildProjectAsync` as this tool runs it: the same command and
        working directory, with the hooks of this tool and its resolved installation. */
    method BaseBuildProjectAsync(settings: CodingSettings, projectPath: string, buildOptions: Option<string>, world: World)
      returns (result: ExecutionResult)
      modifies this`projectPath
      ensures this.projectPath == Some(projectPath)
      ensures unchanged(this`delphiProjectPath, this`projectVersion, this`bdsPath)
      ensures result == BuildResult(settings, projectPath, buildOptions, bdsPath, world)
    {
      this.projectPath := Some(projectPath);
      var command := MSBuild.BuildCommand(projectPath, buildOptions);
      var workingDirectory := DirectoryOrCurrent(projectPath, world.currentDirectory);
      ghost var steps, launched;
      result, steps, launched := ExecuteAsync(MSBuildDelphiHooks(projectPath, bdsPath), settings, settings.tools.msBuild,
        command, Some(workingDirectory), world);
    }
  }

  /** A started MSBuild sees `BDS` set to the resolved installation (empty when there is none),
      and every other variable as the engine inherited it. */
  lemma BdsAlwaysSet(settings: CodingSettings, projectPath: string, bdsPath: Option<string>, command: string,
                     workingDirectory: Option<string>, world: World)
    ensures var run := Pipeline(MSBuildDelphiHooks(projectPath, bdsPath), settings, settings.tools.msBuild,
        command, workingDirectory, world);
      run.launched.Some? ==>
        "BDS" in run.launched.value.environment
        && run.launched.value.environment["BDS"] == (if bdsPath.Some? then bdsPath.value else "")
        && (forall name :: name != "BDS" ==>
              (name in run.launched.value.environment <==> name in world.environment)
              && (name in world.environment ==> run.launched.value.environment[name] == world.environment[name]))
  {
    var hooks := MSBuildDelphiHooks(projectPath, bdsPath);
    var run := Pipeline(hooks, settings, settings.tools.msBuild, command, workingDirectory, world);
    if run.launched.Some? {
      LaunchedDescriptor(hooks, settings, settings.tools.msBuild, command, workingDirectory, world);
    }
  }

  /** A missing project file starts nothing and reports itself under this tool's name. */
  lemma MissingDelphiProjectNotLaunched(settings: CodingSettings, projectPath: string, bdsPath: Option<string>,
                                        command: string, workingDirectory: Option<string>, world: World)
    requires !FileExists(world.fs, projectPath)
    ensures var run := Pipeline(MSBuildDelphiHooks(projectPath, bdsPath), settings, settings.tools.msBuild,
        command, workingDirectory, world);
      run.launched.None?
      && (run.result == Fatal(NotFoundMessage(ToolName, settings.tools.msBuild))
          || run.result == Fatal("Project file not found at " + projectPath))
      && GetProjectVersion(world.fs, projectPath).None?
  {
    var message := "Project file not found at " + projectPath;
    NotBlankAt(message, 0);
    MSBuildDelphiHooksFields(projectPath, bdsPath);
    PreFlightStops(MSBuildDelphiHooks(projectPath, bdsPath), settings, settings.tools.msBuild, command,
      workingDirectory, world, message);
  }

  /** A configured installation that matches the project version wins over the scan. */
  lemma ConfiguredInstallationPreferred(settings: CodingSettings, projectVersion: Option<string>, fs: FileSystem)
    requires settings.tools.msBuildDelphi.delphiInstallPaths.Some?
    requires FindBestMatch(projectVersion, settings.tools.msBuildDelphi.delphiInstallPaths.value, fs).Some?
    ensures BdsPathFor(settings, projectVersion, fs)
      == FindBestMatch(projectVersion, settings.tools.msBuildDelphi.delphiInstallPaths.value, fs)
  {
  }
}
