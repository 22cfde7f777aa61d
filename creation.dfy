/** `DevTools.CreateMod`: the interactive creation of a mod project, as a function of the world. */
module Creation {
  import opened Wrappers
  import opened Strings
  import opened Paths
  import opened Models
  import opened Disk
  import opened Commands
  import opened ModProjects
  import opened Environment

  /** The characters trimmed from both ends of the game path typed by the user. */
  const PathTrimChars: set<char> := {' ', '"'}

  /** The line of the project template that the proxy references replace. */
  const ReferencesPlaceholder: string := "        <!--proxyReferences-->"

  /** The marker of the source template that the namespace declaration replaces. */
  const NamespacePlaceholder: string := "//namespace"

  /**
   * The name test of the source: no space and no character invalid in a file name. It lets the
   * empty name through.
   */
  predicate IsValidNameAsWritten(name: string, invalid: set<char>)
    ensures name == [] ==> IsValidNameAsWritten(name, invalid)
  {
    forall i :: 0 <= i < |name| ==> name[i] != ' ' && name[i] !in invalid
  }

  /** With the separator among the invalid characters, a name the test accepts is empty or one component. */
  lemma ValidNamesAreComponents(name: string, invalid: set<char>)
    requires Sep in invalid && IsValidNameAsWritten(name, invalid)
    ensures name == [] || IsComponent(name)
  {
  }

  /**
   * The corrected name test: the source's test, and the name is not empty and not one of the
   * names `.` and `..` that denote a directory that already exists.
   */
  predicate IsProjectName(name: string, invalid: set<char>)
  {
    name != [] && name != "." && name != ".." && IsValidNameAsWritten(name, invalid)
  }

  /**
   * The name prompt: lines are read until one passes the source's name test, which is the name;
   * the lines after it stay unread. At the end of input there is no name and nothing is left.
   */
  function PromptName(lines: seq<string>, invalid: set<char>): (r: (Option<string>, seq<string>))
    ensures |r.1| <= |lines| && r.1 == lines[|lines| - |r.1|..]
    ensures r.0.None? ==> r.1 == [] && forall i :: 0 <= i < |lines| ==> !IsValidNameAsWritten(lines[i], invalid)
    ensures r.0.Some? ==>
      var k := |lines| - |r.1| - 1;
      && 0 <= k && lines[k] == r.0.value && IsValidNameAsWritten(r.0.value, invalid)
      && forall i :: 0 <= i < k ==> !IsValidNameAsWritten(lines[i], invalid)
    decreases |lines|
  {
    if lines == [] then (None, [])
    else if IsValidNameAsWritten(lines[0], invalid) then (Some(lines[0]), lines[1..])
    else PromptName(lines[1..], invalid)
  }

  /** A mod for every game, or for the game found at the path the user typed. */
  datatype Scope = Global | Scoped(context: GameContext)

  /** The outcome of the prompts: give up with `false`, or go on with a scope and a name. */
  datatype Prepared = Abort(world: World) | Proceed(scope: Scope, name: string, world: World)

  function ChooseName(env: Env, scope: Scope, w: World): (r: Prepared)
    ensures r.world.log == w.log && r.world.fs == w.fs
    ensures r.Proceed? ==> r.scope == scope && IsValidNameAsWritten(r.name, env.invalidFileNameChars)
  {
    var (name, rest) := PromptName(w.console, env.invalidFileNameChars);
    if name.None? then Abort(w.(console := rest)) else Proceed(scope, name.value, w.(console := rest))
  }

  /** The game path prompt, the game check, proxy generation and the name prompt. */
  function Prepare(env: Env, w: World): (r: Prepared)
    ensures r.world.log == w.log
    ensures r.Proceed? ==> IsValidNameAsWritten(r.name, env.invalidFileNameChars)
    ensures r.Proceed? && r.scope.Global? ==> r.world.fs == w.fs
  {
    var (line, rest) := NextLine(w.console);
    var w1 := w.(console := rest);
    if line.Some? && Trim(line.value, PathTrimChars) != [] then
      var context := env.initContext(Trim(line.value, PathTrimChars));
      if context.None? then Abort(w1)
      else
        var generated := env.generateProxies(w1.fs, context.value);
        if generated.None? then Abort(w1)
        else ChooseName(env, Scoped(context.value), w1.(fs := generated.value))
    else ChooseName(env, Global, w1)
  }

  function SolutionDirectory(env: Env, name: string): Path
  {
    Combine(env.devDir, name)
  }

  function SolutionPath(env: Env, name: string): Path
  {
    Combine(SolutionDirectory(env, name), name + ".sln")
  }

  function ProjectDirectory(env: Env, name: string): Path
  {
    Combine(SolutionDirectory(env, name), name)
  }

  function CsprojPath(env: Env, name: string): Path
  {
    Combine(ProjectDirectory(env, name), name + ".csproj")
  }

  function MainPath(env: Env, name: string): Path
  {
    Combine(ProjectDirectory(env, name), "Main.cs")
  }

  function ConfigPath(env: Env, name: string): Path
  {
    Combine(SolutionDirectory(env, name), ConfigFileName)
  }

  /** One `<Reference>` of the generated project file. */
  datatype Reference = Reference(assemblyName: string, hintPath: Path)

  /** The search pattern `*.dll`, matched ignoring case. */
  predicate IsDll(p: Path)
  {
    EndsWithIgnoreCase(FileName(p), ".dll")
  }

  function Dlls(ps: seq<Path>): seq<Path>
  {
    if ps == [] then []
    else Dlls(ps[..|ps| - 1]) + (if IsDll(ps[|ps| - 1]) then [ps[|ps| - 1]] else [])
  }

  /** `Directory.EnumerateFiles(dir, "*.dll")`. */
  function DllFiles(fs: FileSystem, dir: Path): seq<Path>
  {
    Dlls(EnumerateFiles(fs, dir))
  }

  /** The reference of one proxy assembly, or none for a name starting with `_`. */
  function ReferenceOf(cwd: Path, projectDir: Path, assembly: Path): seq<Reference>
  {
    var name := FileNameWithoutExtension(assembly);
    if StartsWith(name, '_') then [] else [Reference(name, RelativePath(cwd, projectDir, assembly))]
  }

  /** The references of the proxy assemblies, in enumeration order. */
  function ProxyReferences(cwd: Path, projectDir: Path, assemblies: seq<Path>): seq<Reference>
  {
    if assemblies == [] then []
    else
      ProxyReferences(cwd, projectDir, assemblies[..|assemblies| - 1])
        + ReferenceOf(cwd, projectDir, assemblies[|assemblies| - 1])
  }

  /** The line `AppendLine` adds for one reference. */
  function ReferenceLine(r: Reference, newLine: string): string
  {
    "        <Reference Include=\"" + r.assemblyName + "\" HintPath=\"" + r.hintPath
      + "\" Private=\"False\" />" + newLine
  }

  function RenderReferences(refs: seq<Reference>, newLine: string): string
  {
    if refs == [] then ""
    else RenderReferences(refs[..|refs| - 1], newLine) + ReferenceLine(refs[|refs| - 1], newLine)
  }

  /** The text of the `StringBuilder`: empty for a global mod. */
  function ReferenceBlock(env: Env, scope: Scope, fs: FileSystem, projectDir: Path): string
  {
    match scope
    case Global => ""
    case Scoped(context) =>
      RenderReferences(ProxyReferences(fs.cwd, projectDir, DllFiles(fs, context.proxiesDirectory)), env.newLine)
  }

  function ProjectFileContent(env: Env, block: string): string
  {
    ReplaceAll(env.projectTemplate, ReferencesPlaceholder, block)
  }

  function MainFileContent(env: Env, name: string): string
  {
    ReplaceAll(env.mainTemplate, NamespacePlaceholder, "namespace " + name + ";")
  }

  /**
   * The descriptor written for a new project: it is global exactly when the mod is (or the game
   * has an empty name), builds `Debug` and always names the project file.
   */
  function Descriptor(env: Env, scope: Scope, cwd: Path, name: string): (r: ModConfig)
    ensures IsGlobal(r) <==> scope.Global? || scope.context.gameName == []
    ensures r.defaultBuildConfig == Some(DefaultConfiguration) && BuildConfiguration(r) == DefaultConfiguration
    ensures r.modCsprojPath.Some?
  {
    ModConfig(
      if scope.Global? then None else Some(scope.context.gameName),
      Some(DefaultConfiguration),
      Some(RelativePath(cwd, SolutionDirectory(env, name), CsprojPath(env, name))))
  }

  /**
   * The project directory, the project file and the source file on disk: nothing is removed, the
   * current directory stays, and the source file holds the template with the namespace.
   */
  function Skeleton(env: Env, scope: Scope, name: string, fs: FileSystem): (r: FileSystem)
    ensures r.cwd == fs.cwd && fs.entries.Keys <= r.entries.Keys && (Valid(fs) ==> Valid(r))
    ensures Resolve(fs, MainPath(env, name)) in r.entries
    ensures r.entries[Resolve(fs, MainPath(env, name))] == File(Text(MainFileContent(env, name)))
  {
    var projectDir := ProjectDirectory(env, name);
    var fs1 := CreateDirectory(fs, projectDir);
    var block := ReferenceBlock(env, scope, fs1, projectDir);
    var fs2 := WriteAllText(fs1, CsprojPath(env, name), Text(ProjectFileContent(env, block)));
    WriteAllText(fs2, MainPath(env, name), Text(MainFileContent(env, name)))
  }

  /** The collision test: the solution directory exists and holds a file somewhere below it. */
  predicate Occupied(env: Env, name: string, fs: FileSystem)
  {
    DirectoryExists(fs, SolutionDirectory(env, name)) && AnyFileUnder(fs, SolutionDirectory(env, name))
  }

  /**
   * Everything after the prompts: the collision check, the skeleton, the solution, the descriptor.
   * Success comes exactly when the name is free and both `dotnet` commands succeed; the second
   * runs only after the first succeeded; an occupied name changes nothing; the console is not read.
   */
  function Scaffold(env: Env, scope: Scope, name: string, w: World): (r: (bool, World))
    ensures var sk := Skeleton(env, scope, name, w.fs);
      var first := NewSolutionCommand(SolutionDirectory(env, name));
      var second := AddToSolutionCommand(SolutionPath(env, name), CsprojPath(env, name));
      && r.1.console == w.console
      && (Occupied(env, name, w.fs) ==> r.1 == w)
      && (r.0 <==> !Occupied(env, name, w.fs) && env.dotnet(sk, w.log, first) && env.dotnet(sk, w.log + [first], second))
      && (!Occupied(env, name, w.fs) ==>
            r.1.log == w.log + [first] + (if env.dotnet(sk, w.log, first) then [second] else []))
  {
    var solutionDir := SolutionDirectory(env, name);
    if Occupied(env, name, w.fs) then (false, w)
    else
      var fs := Skeleton(env, scope, name, w.fs);
      var newSolution := NewSolutionCommand(solutionDir);
      var log1 := w.log + [newSolution];
      if !env.dotnet(fs, w.log, newSolution) then
        (false, World(DeleteTree(fs, solutionDir), w.console, log1))
      else
        var add := AddToSolutionCommand(SolutionPath(env, name), CsprojPath(env, name));
        var log2 := log1 + [add];
        if !env.dotnet(fs, log1, add) then
          (false, World(DeleteTree(fs, solutionDir), w.console, log2))
        else
          var descriptor := Descriptor(env, scope, fs.cwd, name);
          (true, World(WriteAllText(fs, ConfigPath(env, name), SerializedConfig(descriptor)), w.console, log2))
  }

  /**
   * `CreateMod()`: its result and the world afterwards. It runs at most two commands, both after
   * the prompts, and succeeds only when both ran.
   */
  function CreateModSpec(env: Env, w: World): (r: (bool, World))
    ensures |w.log| <= |r.1.log| <= |w.log| + 2 && r.1.log[..|w.log|] == w.log
    ensures r.0 ==> Prepare(env, w).Proceed? && |r.1.log| == |w.log| + 2
    ensures Prepare(env, w).Abort? ==> !r.0 && r.1.log == w.log
  {
    match Prepare(env, w)
    case Abort(w1) => (false, w1)
    case Proceed(scope, name, w1) =>
      ScaffoldLog(env, scope, name, w1);
      Scaffold(env, scope, name, w1)
  }

  /** The scaffolding appends at most two commands to the log, and two when it succeeds. */
  lemma ScaffoldLog(env: Env, scope: Scope, name: string, w: World)
    ensures var r := Scaffold(env, scope, name, w);
      && |w.log| <= |r.1.log| <= |w.log| + 2 && r.1.log[..|w.log|] == w.log
      && (r.0 ==> |r.1.log| == |w.log| + 2)
  {
  }
}
