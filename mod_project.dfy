/** `DevTools.ModProject`: a mod project loaded from its descriptor. */
module ModProjects {
  import opened Wrappers
  import opened Paths
  import opened Models
  import opened Disk
  import opened Commands

  /** Name of the descriptor file in a project's solution directory. */
  const ConfigFileName: string := "TweaksLauncher.ModConfig.json"

  /** The build configuration used when a descriptor names none. */
  const DefaultConfiguration: string := "Debug"

  /**
   * The properties of a `ModProject` are set once by its constructor and never reassigned,
   * so a project is a value.
   */
  datatype ModProject = ModProject(name: string, solutionDirectory: Path, csprojPath: Path, config: ModConfig)

  /**
   * The private constructor: it keeps its three arguments, and the name is the last component of
   * the solution directory, the part after its last separator.
   */
  function NewModProject(solutionDirectory: Path, csprojPath: Path, config: ModConfig): (r: ModProject)
    ensures r.solutionDirectory == solutionDirectory && r.csprojPath == csprojPath && r.config == config
    ensures Sep !in r.name && |r.name| <= |solutionDirectory|
    ensures solutionDirectory == solutionDirectory[..|solutionDirectory| - |r.name|] + r.name
    ensures |r.name| < |solutionDirectory| ==> solutionDirectory[|solutionDirectory| - |r.name| - 1] == Sep
  {
    ModProject(FileName(solutionDirectory), solutionDirectory, csprojPath, config)
  }

  /** `JsonSerializer.Deserialize<ModConfig>`: only a serialised descriptor yields a record. */
  function Deserialize(data: FileData): Option<ModConfig>
  {
    if data.SerializedConfig? then Some(data.config) else None
  }

  /** The directory `TryGet` inspects: the parent when given a file, else the path itself. */
  function InspectedDirectory(fs: FileSystem, directory: Path): Option<Path>
  {
    if FileExists(fs, directory) then DirectoryName(directory) else Some(directory)
  }

  /** `ModProject.TryGet(directory)`. */
  function TryGet(fs: FileSystem, directory: Path): (r: Option<ModProject>)
    ensures r.Some? ==>
      var p := r.value;
      && p.config.modCsprojPath.Some?
      && p.csprojPath == Combine(p.solutionDirectory, p.config.modCsprojPath.value)
      && p.name == FileName(p.solutionDirectory)
  {
    var dir := InspectedDirectory(fs, directory);
    if dir.None? || !DirectoryExists(fs, dir.value) then None
    else
      var full := FullPath(fs.cwd, dir.value);
      var configPath := Combine(full, ConfigFileName);
      if !FileExists(fs, configPath) then None
      else
        var config := Deserialize(ReadAllText(fs, configPath));
        if config.None? || config.value.modCsprojPath.None? then None
        else
          Some(NewModProject(full, Combine(full, config.value.modCsprojPath.value), config.value))
  }

  /** `Config.DefaultBuildConfig ?? "Debug"`: the descriptor's configuration when it names one, else `Debug`. */
  function BuildConfiguration(config: ModConfig): (r: string)
    ensures config.defaultBuildConfig == Some(r) || (config.defaultBuildConfig.None? && r == DefaultConfiguration)
  {
    if config.defaultBuildConfig.Some? then config.defaultBuildConfig.value else DefaultConfiguration
  }

  /** The command `TryBuild(outputDir)` runs. */
  function BuildInvocation(mod: ModProject, outputDir: Path): Invocation
  {
    BuildCommand(mod.csprojPath, BuildConfiguration(mod.config), outputDir)
  }

  /** The descriptor stored directly in `dir` (a full path), when it deserialises. */
  function DescriptorAt(fs: FileSystem, dir: Path): Option<ModConfig>
  {
    var configPath := Combine(dir, ConfigFileName);
    if IsFileAt(fs, configPath) then Deserialize(fs.entries[configPath].data) else None
  }

  /**
   * `TryGet` yields null exactly when the path names a file without a parent, the directory does
   * not exist, the descriptor file is absent, it does not deserialise, or it has no csproj path.
   */
  lemma TryGetFailsIff(fs: FileSystem, directory: Path)
    ensures TryGet(fs, directory).None? <==>
      var dir := InspectedDirectory(fs, directory);
      || dir.None?
      || !DirectoryExists(fs, dir.value)
      || var configPath := Combine(FullPath(fs.cwd, dir.value), ConfigFileName);
         || !FileExists(fs, configPath)
         || Deserialize(ReadAllText(fs, configPath)).None?
         || Deserialize(ReadAllText(fs, configPath)).value.modCsprojPath.None?
  {
  }

  /** Given a file, `TryGet` loads the project of the directory that holds it. */
  lemma TryGetOfFile(fs: FileSystem, file: Path, parent: Path)
    requires FileExists(fs, file) && DirectoryName(file) == Some(parent)
    requires !FileExists(fs, parent)
    ensures TryGet(fs, file) == TryGet(fs, parent)
  {
  }

  lemma ConfigFileNameIsComponent()
    ensures IsComponent(ConfigFileName)
  {
    assert forall i :: 0 <= i < |ConfigFileName| ==> ConfigFileName[i] != Sep;
  }

  /**
   * Loading an existing directory given by its rooted path: the project is there exactly when the
   * descriptor deserialises and names a csproj; its name is the directory's leaf and its csproj
   * path is the directory combined with the descriptor's relative path.
   */
  lemma TryGetOfDirectory(fs: FileSystem, dir: Path)
    requires IsRooted(dir) && IsDirectoryAt(fs, dir)
    ensures TryGet(fs, dir) ==
      var c := DescriptorAt(fs, dir);
      if c.Some? && c.value.modCsprojPath.Some? then
        Some(ModProject(FileName(dir), dir, Combine(dir, c.value.modCsprojPath.value), c.value))
      else None
  {
    ConfigFileNameIsComponent();
    CombineRooted(dir, ConfigFileName);
    assert !FileExists(fs, dir);
    assert FullPath(fs.cwd, dir) == dir;
    var configPath := Combine(dir, ConfigFileName);
    assert Resolve(fs, configPath) == configPath;
  }
}
