/**
 * What the dev tools read from and act on outside their own code: the filesystem, the console,
 * the `dotnet` tool, the game detection and proxy generation of the launcher, and platform constants.
 */
module Environment {
  import opened Wrappers
  import opened Paths
  import opened Models
  import opened Disk
  import opened Commands

  datatype Env = Env(
    /** `DevTools.devDir`: the `Dev` directory beside the launcher. */
    devDir: Path,
    /** `ModHandler.GlobalModsDirectory`. */
    globalModsDirectory: Path,
    /** `Path.GetInvalidFileNameChars()` of the platform. */
    invalidFileNameChars: set<char>,
    /** `Environment.NewLine`, which `StringBuilder.AppendLine` appends. */
    newLine: string,
    /** The embedded resources `Resources.Project_csproj` and `Resources.Main_cs`. */
    projectTemplate: string,
    mainTemplate: string,
    /** `Program.InitContext(path)`: the game found at a path, if any. */
    initContext: string -> Option<GameContext>,
    /** `ProxyGenerator.Generate()`: the filesystem after generating the proxies, or failure. */
    generateProxies: (FileSystem, GameContext) -> Option<FileSystem>,
    /** Whether `dotnet` exits with code 0, given the filesystem and the commands run so far. */
    dotnet: (FileSystem, seq<Invocation>, Invocation) -> bool)

  /**
   * Facts of the platform the launcher runs on: the dev directory is an absolute path without a
   * trailing separator, and the separator is not allowed in a file name.
   */
  predicate WellFormed(env: Env)
  {
    IsRooted(env.devDir) && !EndsWithSep(env.devDir) && Sep in env.invalidFileNameChars
  }

  /** The part of the world the dev tools change: files, unread console lines, commands run. */
  datatype World = World(fs: FileSystem, console: seq<string>, log: seq<Invocation>)

  /** `Console.ReadLine()`: the next line, or null at the end of input. */
  function NextLine(console: seq<string>): (Option<string>, seq<string>)
  {
    if console == [] then (None, []) else (Some(console[0]), console[1..])
  }
}
