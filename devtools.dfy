/**
 * The static class `DevTools` with the state it works on: the filesystem, the console it reads
 * lines from and the `dotnet` commands it has run. Each method is proved against the function
 * that specifies it.
 */
module Tools {
  import opened Wrappers
  import opened Strings
  import opened Paths
  import opened Models
  import opened Disk
  import opened Commands
  import opened ModProjects
  import opened Discovery
  import opened Build
  import opened Environment
  import opened Creation
  import opened CreationProperties

  class DevTools {
    const env: Env
    var fs: FileSystem
    var console: seq<string>
    var log: seq<Invocation>

    function State(): World
      reads this
    {
      World(fs, console, log)
    }

    constructor(env: Env, w: World)
      ensures this.env == env && State() == w
    {
      this.env := env;
      fs := w.fs;
      console := w.console;
      log := w.log;
    }

    /** `Console.ReadLine()`. */
    method ReadLine() returns (line: Option<string>)
      modifies this
      ensures (line, console) == NextLine(old(console))
      ensures fs == old(fs) && log == old(log)
    {
      if console == [] {
        line := None;
      } else {
        line := Some(console[0]);
        console := console[1..];
      }
    }

    /** `Dotnet(silent, arguments)`: runs one command and reports whether it exited with 0. */
    method Dotnet(silent: bool, arguments: seq<string>) returns (ok: bool)
      modifies this
      ensures log == old(log) + [Invocation(silent, arguments)]
      ensures ok == env.dotnet(fs, old(log), Invocation(silent, arguments))
      ensures fs == old(fs) && console == old(console)
    {
      ok := env.dotnet(fs, log, Invocation(silent, arguments));
      log := log + [Invocation(silent, arguments)];
    }

    /** `GetProjectsForGame(gameName)`: the projects of the dev directory the game sees, in enumeration order. */
    method GetProjectsForGame(gameName: string) returns (result: seq<ModProject>)
      ensures result == Discover(fs, env.devDir, gameName)
    {
      result := [];
      if !DirectoryExists(fs, env.devDir) {
        return;
      }
      var dirs := EnumerateDirectories(fs, env.devDir);
      for i := 0 to |dirs|
        invariant result == Kept(gameName, Loaded(fs, dirs[..i]))
      {
        KeptLoadedStep(fs, gameName, dirs, i);
        var mod := TryGet(fs, dirs[i]);
        if mod.None? || (!IsGlobal(mod.value.config) && !EqualsIgnoreCase(gameName, mod.value.config.gameName.value)) {
          assert !(mod.Some? && Keeps(gameName, mod.value));
          continue;
        }
        assert mod.Some? && Keeps(gameName, mod.value);
        result := result + [mod.value];
      }
      assert dirs[..|dirs|] == dirs;
    }

    /** `ModProject.TryBuild(outputDir)`: builds one project into `outputDir`. */
    method TryBuild(mod: ModProject, outputDir: Path) returns (ok: bool)
      modifies this
      ensures log == old(log) + [BuildInvocation(mod, outputDir)]
      ensures ok == env.dotnet(fs, old(log), BuildInvocation(mod, outputDir))
      ensures fs == old(fs) && console == old(console)
    {
      var buildConfig := if mod.config.defaultBuildConfig.Some? then mod.config.defaultBuildConfig.value else "Debug";
      ok := Dotnet(false, ["build", mod.csprojPath, "-v", "q", "-c", buildConfig, "-o", outputDir]);
    }

    /** The loop of `BuildProjectsForCurrentGame`: builds each of `mods` in order. */
    method BuildEach(context: GameContext, mods: seq<ModProject>)
      modifies this
      ensures log == old(log) + BuildsFor(env.globalModsDirectory, context, mods)
      ensures fs == old(fs) && console == old(console)
    {
      for i := 0 to |mods|
        invariant log == old(log) + BuildsFor(env.globalModsDirectory, context, mods[..i])
        invariant fs == old(fs) && console == old(console)
      {
        BuildsForStep(env.globalModsDirectory, context, mods, i);
        var mod := mods[i];
        var outputDir := Combine(if IsGlobal(mod.config) then env.globalModsDirectory else context.modsDirectory, mod.name);
        assert outputDir == OutputDirectory(env.globalModsDirectory, context, mod);
        var _ := TryBuild(mod, outputDir);
      }
      assert mods[..|mods|] == mods;
    }

    /**
     * `BuildProjectsForCurrentGame()` for the current game `context`: builds every project the game
     * sees, then shuts the build server down when there was one.
     */
    method BuildProjectsForCurrentGame(context: GameContext)
      modifies this
      ensures log == old(log) + BatchCommands(env.globalModsDirectory, context, Discover(old(fs), env.devDir, context.gameName))
      ensures fs == old(fs) && console == old(console)
    {
      var mods := GetProjectsForGame(context.gameName);
      BuildEach(context, mods);
      ghost var builds := BuildsFor(env.globalModsDirectory, context, mods);
      if |mods| != 0 {
        var _ := Dotnet(true, ["build-server", "shutdown"]);
        assert log == old(log) + (builds + [ShutdownCommand]);
      } else {
        assert builds + [] == builds;
      }
    }

    /** The name prompt: reads lines until one passes the name test, or input ends. */
    method ReadProjectName() returns (name: Option<string>)
      modifies this
      ensures (name, console) == PromptName(old(console), env.invalidFileNameChars)
      ensures fs == old(fs) && log == old(log)
    {
      while true
        invariant PromptName(console, env.invalidFileNameChars) == PromptName(old(console), env.invalidFileNameChars)
        invariant fs == old(fs) && log == old(log)
        decreases |console|
      {
        var possibleName := ReadLine();
        if possibleName.None? {
          return None;
        }
        if !IsValidNameAsWritten(possibleName.value, env.invalidFileNameChars) {
          continue;
        }
        return possibleName;
      }
    }

    /** The `<Reference>` lines for the proxy assemblies, as the `StringBuilder` collects them. */
    method ProxyReferenceLines(proxiesDirectory: Path, projectDir: Path) returns (text: string)
      ensures text == RenderReferences(ProxyReferences(fs.cwd, projectDir, DllFiles(fs, proxiesDirectory)), env.newLine)
    {
      var assemblies := DllFiles(fs, proxiesDirectory);
      text := "";
      for i := 0 to |assemblies|
        invariant text == RenderReferences(ProxyReferences(fs.cwd, projectDir, assemblies[..i]), env.newLine)
      {
        ReferenceLinesStep(fs.cwd, projectDir, assemblies, i, env.newLine);
        var asmName := FileNameWithoutExtension(assemblies[i]);
        if StartsWith(asmName, '_') {
          continue;
        }
        var relPath := RelativePath(fs.cwd, projectDir, assemblies[i]);
        text := text + ReferenceLine(Reference(asmName, relPath), env.newLine);
      }
      assert assemblies[..|assemblies|] == assemblies;
    }

    /** `CreateMod()`: the prompts, the collision check, the skeleton, the solution and the descriptor. */
    method CreateMod() returns (ok: bool)
      modifies this
      ensures (ok, State()) == CreateModSpec(env, old(State()))
    {
      var line := ReadLine();
      var path := if line.Some? then Trim(line.value, PathTrimChars) else "";
      var isGlobal := path == "";
      var scope := Global;
      if !isGlobal {
        var context := env.initContext(path);
        if context.None? {
          return false;
        }
        var generated := env.generateProxies(fs, context.value);
        if generated.None? {
          return false;
        }
        fs := generated.value;
        scope := Scoped(context.value);
      }
      var possibleName := ReadProjectName();
      if possibleName.None? {
        return false;
      }
      var name := possibleName.value;
      assert Prepare(env, old(State())) == Proceed(scope, name, State());
      ok := CreateProject(scope, name);
    }

    /** The part of `CreateMod()` after the prompts, for the chosen scope and name. */
    method CreateProject(scope: Scope, name: string) returns (ok: bool)
      modifies this
      ensures (ok, State()) == Scaffold(env, scope, name, old(State()))
    {
      var solutionDir := Combine(env.devDir, name);
      var solutionPath := Combine(solutionDir, name + ".sln");
      if DirectoryExists(fs, solutionDir) && AnyFileUnder(fs, solutionDir) {
        return false;
      }
      var projPath := Combine(solutionDir, name);
      fs := CreateDirectory(fs, projPath);
      var csprojReferences := "";
      if scope.Scoped? {
        csprojReferences := ProxyReferenceLines(scope.context.proxiesDirectory, projPath);
      }
      var csprojPath := Combine(projPath, name + ".csproj");
      var classPath := Combine(projPath, "Main.cs");
      var csprojContent := ReplaceAll(env.projectTemplate, ReferencesPlaceholder, csprojReferences);
      var classContent := ReplaceAll(env.mainTemplate, NamespacePlaceholder, "namespace " + name + ";");
      fs := WriteAllText(fs, csprojPath, Text(csprojContent));
      fs := WriteAllText(fs, classPath, Text(classContent));
      var registered := Dotnet(false, ["new", "sln", "-o", solutionDir]);
      if registered {
        registered := Dotnet(false, ["sln", solutionPath, "add", csprojPath]);
      }
      if !registered {
        fs := DeleteTree(fs, solutionDir);
        return false;
      }
      var config := ModConfig(
        if scope.Global? then None else Some(scope.context.gameName),
        Some("Debug"),
        Some(RelativePath(fs.cwd, solutionDir, csprojPath)));
      fs := WriteAllText(fs, Combine(solutionDir, ConfigFileName), SerializedConfig(config));
      ok := true;
    }
  }
}
