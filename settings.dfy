/** The configuration snapshot the executors read: one `ToolConfig` per tool and the
    process-wide feature switches, with the defaults a fresh configuration has. */
module Settings {
  import opened Wrappers
  import opened Text
  import opened Files

  /** Where a tool's executable lives. An empty `path` means "look it up on PATH".
      `delphiInstallPaths` is the list of configured Delphi installation directories that
      the Delphi executors read from the Delphi tool's configuration. */
  datatype ToolConfig = ToolConfig(path: string, executableName: string, delphiInstallPaths: Option<seq<string>>)

  /** A fresh `ToolConfig`: empty path and executable name, no configured installations. */
  const DefaultToolConfig: ToolConfig := ToolConfig("", "", None)

  /** `ToolConfig.FullPath`: the configured directory joined with the executable name. */
  function FullPath(config: ToolConfig): (r: string)
    ensures config.path == "" ==> r == config.executableName
    ensures EndsWith(r, config.executableName)
    ensures config.path != "" && config.executableName != "" && !IsPathRooted(config.executableName) ==>
      |r| > |config.path| && r[..|config.path|] == config.path
  {
    Combine(config.path, config.executableName)
  }

  /** The executable name of a default configuration is found on PATH as it is. */
  lemma DefaultFullPath()
    ensures DefaultToolConfig.path == "" && DefaultToolConfig.executableName == ""
    ensures FullPath(DefaultToolConfig) == ""
  {
  }

  datatype ToolsSettings = ToolsSettings(
    dotnet: ToolConfig, rust: ToolConfig, python: ToolConfig, msBuild: ToolConfig, msBuildDelphi: ToolConfig)

  /** `defaultTimeout` is in seconds; `maxOutputSize` is declared but never enforced. */
  datatype FeaturesSettings = FeaturesSettings(enableLogging: bool, defaultTimeout: int, maxOutputSize: int)

  const DefaultFeatures: FeaturesSettings := FeaturesSettings(true, 30, 10485760)

  datatype CodingSettings = CodingSettings(tools: ToolsSettings, features: FeaturesSettings)

  const DefaultSettings: CodingSettings := CodingSettings(
    ToolsSettings(DefaultToolConfig, DefaultToolConfig, DefaultToolConfig, DefaultToolConfig, DefaultToolConfig),
    DefaultFeatures)
}
