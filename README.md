# TweaksLauncher dev tools, modelled in Dafny

This project models `DevTools`, the developer tooling of TweaksLauncher. It manages mod projects
under the `Dev` directory next to the launcher:

- **Discovery.** `GetProjectsForGame` loads every subdirectory of `Dev` that holds a valid
  `TweaksLauncher.ModConfig.json` descriptor. It keeps the projects that are global or scoped to the
  game.
- **Batch build.** `BuildProjectsForCurrentGame` builds each kept project with `dotnet build`, into
  the global mods directory or the game's mods directory. After a non-empty batch it shuts the
  build server down.
- **Creation.** `CreateMod` asks for a game path and a project name. It refuses an occupied name,
  then writes a project skeleton whose references point at the game's proxy assemblies. It
  registers a solution with `dotnet`, rolling back on failure, and writes the descriptor.
- **Loading.** `ModProject.TryGet` decides whether a directory (or the directory of a file) is a
  mod project.

The world the tools act on is explicit:

- **Filesystem.** `Disk.FileSystem` maps full paths to directories and files. It keeps the order
  in which directories are enumerated and the current directory. A descriptor file holds the
  `ModConfig` record it deserialises to. Any other content is opaque text.
- **Console.** The console is the sequence of lines still to be read.
- **`dotnet`.** An oracle in `Environment.Env` decides each exit status, given the filesystem and
  the commands run so far. Every command is appended to a log as `(silent, arguments)`.
- **Launcher calls.** `Program.InitContext` and `ProxyGenerator.Generate` are oracles in
  `Environment.Env`, and so are the platform constants and the two embedded templates.

Each imperative member of `DevTools` is a method of the class `Tools.DevTools`. The fields are
`fs`, `console` and `log`. Each method is proved equal to a function of the old state:

- `Discovery.Discover`;
- `Build.BatchCommands`;
- `Creation.PromptName`;
- `Creation.CreateModSpec`, which is `Creation.Prepare` then `Creation.Scaffold`.

The lemmas about those functions carry the properties.

`Paths` gives `System.IO.Path` its .NET meaning over the single separator `\`. This covers
`Combine`, `GetFileName`, `GetDirectoryName`, `GetFileNameWithoutExtension`, `GetFullPath` and
`GetRelativePath`. `Disk` gives `Directory.CreateDirectory`, `File.WriteAllText` and
`Directory.Delete(d, true)` their effect on the map. `Environment.WellFormed` states the platform
facts some lemmas need:

- the dev directory is absolute, without a trailing separator;
- the separator is an invalid file-name character.

## Model

| member | source | states |
|---|---|---|
| ModProjects.NewModProject | TweaksLauncher/DevTools.cs:192-198 | The constructor keeps its three arguments. The name is the part of the solution directory after its last separator. |
| ModProjects.TryGet | TweaksLauncher/DevTools.cs:213-248 | A loaded project names a csproj. Its csproj path is its directory combined with the descriptor's `ModCsprojPath`. Its name is the leaf of its directory. |
| ModProjects.TryGetFailsIff | TweaksLauncher/DevTools.cs:213-243 | `TryGet` yields nothing exactly when one of these holds: the path is a file without a parent, the directory is missing, the descriptor is absent, it does not deserialise, or it has no `ModCsprojPath`. |
| ModProjects.TryGetOfFile | TweaksLauncher/DevTools.cs:215-222 | Given an existing file, `TryGet` loads the directory that holds it. |
| ModProjects.TryGetOfDirectory | TweaksLauncher/DevTools.cs:223-247 | For an existing rooted directory, the project is there exactly when its descriptor deserialises with a csproj path. It is then `(leaf, directory, directory + csproj path, descriptor)`. |
| ModProjects.BuildConfiguration | TweaksLauncher/DevTools.cs:202 | A project builds the descriptor's configuration when it names one, and `Debug` otherwise. |
| Discovery.Keeps | TweaksLauncher/DevTools.cs:26 | A global project is kept for every game. A scoped project is kept exactly when its game name and the target have the same upper-case form. |
| Discovery.Kept | TweaksLauncher/DevTools.cs:25-29 | Only loaded projects that the game keeps are returned. |
| Discovery.Discover | TweaksLauncher/DevTools.cs:16-33 | Every discovered project is kept by the game and names a csproj. |
| Discovery.LoadedAreNamed | TweaksLauncher/DevTools.cs:23-25 | Every project loaded from the enumerated directories names a csproj, and its name is the leaf of its directory. |
| Discovery.LoadedMembership | TweaksLauncher/DevTools.cs:23-29 | A project is loaded from a list of directories exactly when one of them loads as it. |
| Discovery.KeptMembership | TweaksLauncher/DevTools.cs:26-29 | A project is kept exactly when it is loaded and is global or scoped to the game. |
| Discovery.DiscoverMembership | TweaksLauncher/DevTools.cs:16-33 | A project is discovered exactly when the dev directory exists, one of its subdirectories loads as that project, and the project is global or its game name equals the target ignoring case. So a missing dev directory yields nothing. |
| Discovery.DiscoveredProjectsAreValid | TweaksLauncher/DevTools.cs:16-33 | Every discovered project names a csproj. Its csproj path is its directory combined with that name, which is below the directory unless the name is rooted. Its directory is an existing immediate subdirectory of the dev directory, named after the project. It is global or scoped to the game. |
| Discovery.KeptIgnoresCase | TweaksLauncher/DevTools.cs:26 | Game names that are equal ignoring case keep the same projects. |
| Discovery.DiscoverIgnoresCase | TweaksLauncher/DevTools.cs:16-33 | Game names that are equal ignoring case discover the same list. |
| Discovery.KeptCount | TweaksLauncher/DevTools.cs:26 | The kept projects are the global ones plus the ones scoped to the game, with none counted twice. |
| Discovery.KeptWithoutScoped | TweaksLauncher/DevTools.cs:26 | A game that no project is scoped to keeps exactly the global projects, in order. |
| Discovery.DiscoverCount | TweaksLauncher/DevTools.cs:16-33 | A game discovers its global projects plus its scoped ones. A game with no scoped project discovers exactly the global ones. |
| Discovery.DiscoverHasNoDuplicates | TweaksLauncher/DevTools.cs:23-29 | When enumeration lists each directory once, no project is discovered twice. |
| Build.OutputDirectoryPlacement | TweaksLauncher/DevTools.cs:41 | A project builds into a directory named after the project. That directory sits directly inside the global mods directory for a global project, and inside the game's mods directory otherwise. |
| Build.BatchCommands | TweaksLauncher/DevTools.cs:37-46 | A batch issues one command per project, plus one more when there was a project. That last command is the build-server shutdown. |
| Build.BuildsForShape | TweaksLauncher/DevTools.cs:39-43 | One build command per project, in order, each with its own output directory, whatever the earlier builds returned. |
| Build.BuildsHaveNoShutdown | TweaksLauncher/DevTools.cs:39-43 | The build loop never shuts the build server down. |
| Build.BatchShape | TweaksLauncher/DevTools.cs:37-46 | A batch issues one non-silent `build <csproj> -v q -c <configuration or Debug> -o <output>` per project. A silent `build-server shutdown` comes last and exactly once when there was a project, and never otherwise. |
| Strings.EqualsIgnoreCaseIsEquivalence | TweaksLauncher/DevTools.cs:26 | Comparing game names ignoring case is reflexive, symmetric and transitive. |
| Strings.EqualsIgnoreCaseIsUpperEquality | TweaksLauncher/DevTools.cs:26 | Two game names are equal ignoring case exactly when their upper-case forms are equal. |
| Strings.TrimEmptyIff | TweaksLauncher/DevTools.cs:53-54 | The game path counts as empty exactly when every character typed is a space or a double quote. |
| Strings.ReplaceSinglePlaceholder | TweaksLauncher/DevTools.cs:121-122 | A template with one placeholder gets the replacement in its place and keeps the rest. |
| Paths.FileNameOfCombine | TweaksLauncher/DevTools.cs:194 | The leaf of a directory combined with a name is that name. |
| Paths.DirectoryNameOfCombine | TweaksLauncher/DevTools.cs:217 | The parent of a directory combined with a name is that directory. |
| Paths.CombineNested | TweaksLauncher/DevTools.cs:245 | Combining with `n\m` is combining with `n`, then with `m`. |
| Paths.RelativePathOfDescendant | TweaksLauncher/DevTools.cs:143 | The path of `s\n\m` relative to `s` is `n\m`. |
| Paths.LineageIsAncestry | TweaksLauncher/DevTools.cs:100 | Every directory that creating a path makes sure of is that path or a directory above it. |
| Disk.Children | TweaksLauncher/DevTools.cs:23 | Enumerating a directory lists exactly its immediate subdirectories (or files), each once when the filesystem lists each path once. |
| Disk.MakeDirectories | TweaksLauncher/DevTools.cs:100 | Creating a directory makes it and every directory above it. Only those entries can change: every other entry keeps its value. Nothing is removed. |
| Disk.CreateDirectoryFrame | TweaksLauncher/DevTools.cs:100 | Creating a rooted directory changes only the directory and the directories above it. |
| Disk.WriteAllText | TweaksLauncher/DevTools.cs:124-125 | Writing a file sets that one entry and changes nothing else. |
| Disk.DeleteTree | TweaksLauncher/DevTools.cs:129 | A recursive delete removes the directory and everything below it, and nothing else. |
| Creation.IsValidNameAsWritten | TweaksLauncher/DevTools.cs:80 | The name test as written accepts the empty name. |
| Creation.ValidNamesAreComponents | TweaksLauncher/DevTools.cs:79-80 | With the separator among the invalid characters, a name the test accepts is empty or a single path component. |
| Creation.PromptName | TweaksLauncher/DevTools.cs:71-88 | The name is the first line that passes the test as written, the empty line included. The later lines stay unread. Every line before it failed the test. At the end of input there is no name. |
| Creation.ChooseName | TweaksLauncher/DevTools.cs:71-88 | The name prompt changes neither the files nor the log. A name that comes out passes the test as written and keeps the chosen scope. |
| Creation.Prepare | TweaksLauncher/DevTools.cs:53-88 | The prompts run no command. A name that comes out passes the test as written, so it may be empty. A global mod leaves the filesystem as it was. |
| Creation.Descriptor | TweaksLauncher/DevTools.cs:139-144 | The descriptor is global exactly when the mod is global or the game's name is empty. It builds `Debug` and always names the project file. |
| Creation.Skeleton | TweaksLauncher/DevTools.cs:99-125 | The skeleton keeps the current directory and every existing path, keeps the filesystem well formed, and writes the source file as the template with the namespace. |
| Creation.Scaffold | TweaksLauncher/DevTools.cs:90-154 | An occupied name changes nothing. Creation succeeds exactly when the name is free and both `dotnet` commands succeed. The second command runs only after the first succeeded. The console is not read. |
| Creation.ScaffoldLog | TweaksLauncher/DevTools.cs:127 | The steps after the prompts append at most two commands to the log, and two when they succeed. |
| Creation.CreateModSpec | TweaksLauncher/DevTools.cs:49-155 | `CreateMod` appends at most two commands to the log. It succeeds only when the prompts went through and both commands ran. When the prompts give up, no command runs. |
| CreationProperties.PromptedScope | TweaksLauncher/DevTools.cs:53-88 | A blank or quote-only first line makes a global mod. Any other first line is a game path, and the mod takes its context and generated proxies. The name comes from the lines that follow. |
| CreationProperties.ProjectDirectoryLineage | TweaksLauncher/DevTools.cs:99-100 | For a name the corrected test accepts: creating the project directory makes the project directory, the solution directory, the dev directory and those above it. |
| CreationProperties.ProjectDirectoryMade | TweaksLauncher/DevTools.cs:100 | For a name the corrected test accepts: after creating the project directory, the project, solution and dev directories and every directory above them exist. |
| CreationProperties.ProjectDirectoryFrame | TweaksLauncher/DevTools.cs:100 | For a name the corrected test accepts: creating the project directory changes nothing outside the solution directory except the dev directory and those above it. |
| CreationProperties.SkeletonContents | TweaksLauncher/DevTools.cs:99-125 | For a name the corrected test accepts: the dev, solution and project directories exist. The project file holds the template with the references, and the source file the template with the namespace. |
| CreationProperties.SkeletonFrame | TweaksLauncher/DevTools.cs:99-125 | For a name the corrected test accepts: the directories above the dev directory exist. Every other entry outside the solution directory keeps its value. |
| CreationProperties.SkeletonEffects | TweaksLauncher/DevTools.cs:99-125 | For a name the corrected test accepts: the dev, solution and project directories exist, and the two source files are written. Outside the solution directory, only the dev directory and the directories above it may change, and they become directories. Every other entry keeps its value. |
| CreationProperties.FailedRegistrationRollsBack | TweaksLauncher/DevTools.cs:127-131 | For a name the corrected test accepts: after a failed registration nothing is left at or below the solution directory. Outside it, only the dev directory and the directories above it may be new or changed, and they are directories. Every other entry is there exactly as before. |
| CreationProperties.SuccessfulState | TweaksLauncher/DevTools.cs:127-147 | After a successful creation the filesystem is the skeleton with the descriptor written, and both commands are logged. |
| CreationProperties.SuccessfulCreation | TweaksLauncher/DevTools.cs:118-147 | For a name the corrected test accepts: both commands are logged. The project and source files hold the instantiated templates. The descriptor names the game (none for a global mod), `Debug` and `<name>\<name>.csproj`. |
| CreationProperties.CreatedProjectLoads | TweaksLauncher/DevTools.cs:137-147 | For a name the corrected test accepts: the new solution directory loads as the new project, with the created csproj. |
| CreationProperties.CreatedProjectIsDiscovered | TweaksLauncher/DevTools.cs:49-155 | After a successful creation with a name the corrected test accepts, discovery finds the new project for every game it is for. |
| CreationProperties.DescriptorCsprojPath | TweaksLauncher/DevTools.cs:143 | For a name the corrected test accepts: the descriptor's project path is `<name>\<name>.csproj`. |
| CreationProperties.DescriptorIsNew | TweaksLauncher/DevTools.cs:137 | For a name the corrected test accepts: the descriptor overwrites neither generated source file, and no directory unless the project has the descriptor's own name. |
| CreationProperties.ProxyReferencesMembership | TweaksLauncher/DevTools.cs:106-115 | A proxy assembly yields a reference exactly when its name does not start with `_`. The reference is its name and its path relative to the project directory. |
| CreationProperties.ProxyReferencesAppend | TweaksLauncher/DevTools.cs:106-115 | References follow the enumeration order of the assemblies. |
| CreationProperties.ReferenceBlockAppend | TweaksLauncher/DevTools.cs:106-115 | The rendered block for `a + b` is the block for `a` followed by the block for `b`. |
| CreationProperties.ReferenceLinesStep | TweaksLauncher/DevTools.cs:106-115 | Each assembly adds one reference line, or none for a name starting with `_`. |
| CreationProperties.ProjectFileSplicesReferences | TweaksLauncher/DevTools.cs:121 | The project file is the template with the references where the placeholder was. |
| CreationProperties.MainFileDeclaresNamespace | TweaksLauncher/DevTools.cs:122 | The source file is the template with `namespace <name>;` where the marker was. |
| CreationProperties.EmptyNameIsNeverDiscovered | TweaksLauncher/DevTools.cs:80-91 | The test as written accepts the empty name. Its solution directory is the dev directory itself, and discovery never yields a project there. |
| CreationProperties.EmptyNameRollbackDeletesDevDirectory | TweaksLauncher/DevTools.cs:127-131 | With the empty name, which the test as written accepts, the solution directory is the dev directory. A failed registration then leaves nothing at or below the dev directory, including earlier projects whose directories held no file. |
| CreationProperties.EmptyLinesMakeEmptyName | TweaksLauncher/DevTools.cs:53-88 | Two empty lines make a global mod named by the empty string, and the remaining lines stay unread. |
| CreationProperties.ProjectNamesAreComponents | TweaksLauncher/DevTools.cs:80-90 | The corrected test refuses the empty name, `.` and `..`. The test as written accepts `.` and `..` when `.` is a valid file-name character. Every name the corrected test accepts gives a solution directory strictly below the dev directory. |
| Tools.DevTools.ReadLine | TweaksLauncher/DevTools.cs:75 | Reads the next line, or nothing at the end of input. |
| Tools.DevTools.Dotnet | TweaksLauncher/DevTools.cs:157-183 | Logs the command. The result is the oracle's exit status for it. |
| Tools.DevTools.GetProjectsForGame | TweaksLauncher/DevTools.cs:16-33 | The loop returns `Discover` of the filesystem. |
| Tools.DevTools.TryBuild | TweaksLauncher/DevTools.cs:200-211 | Runs the build command with the configuration or `Debug` and returns whether it succeeded. |
| Tools.DevTools.BuildEach | TweaksLauncher/DevTools.cs:39-43 | The loop logs one build per project, in order, into its output directory. Files and console are untouched. |
| Tools.DevTools.BuildProjectsForCurrentGame | TweaksLauncher/DevTools.cs:35-47 | Logs exactly `BatchCommands` of the discovered projects. Files and console are untouched. |
| Tools.DevTools.ReadProjectName | TweaksLauncher/DevTools.cs:71-88 | The retry loop reads exactly as `PromptName` says, with the test as written, so an empty line is taken as the name. |
| Tools.DevTools.ProxyReferenceLines | TweaksLauncher/DevTools.cs:102-116 | The `StringBuilder` loop yields the rendered references of the proxy `.dll` files. |
| Tools.DevTools.CreateProject | TweaksLauncher/DevTools.cs:90-154 | The steps after the prompts leave the result and world that `Scaffold` gives. |
| Tools.DevTools.CreateMod | TweaksLauncher/DevTools.cs:49-155 | The result and the new world are those of `CreateModSpec`, whose name prompt uses the test as written. |

## Left out

- `Dotnet`: process start, stream redirection and the logger's echo of the output are not modelled. Only the command and its exit status are. What `dotnet build` writes to its output directory, and what `dotnet new sln` and `dotnet sln add` write to disk, are not modelled: the filesystem passed to later steps is the one before the call.
- JSON: a descriptor file holds the record it deserialises to, or opaque text that fails to deserialise. Serialisation and `WriteIndented` formatting are not modelled.
- Console prompts, coloured log messages and the `explorer /select,` call produce no output in the model.
- Exceptions are not modelled. These include creating a directory where a file exists, enumerating a missing proxies directory, writing a file onto a directory, and `Directory.Delete` failing. In the model, creating a directory turns a file into a directory, and a write replaces whatever entry was there.
- CreationProperties.SuccessfulCreation: for a project named `TweaksLauncher.ModConfig.json`, the project directory is exactly the descriptor path. The source's final write then throws, while the model overwrites the directory, so the lemma claims the project directory only for other names.
- CreationProperties.ProjectDirectoryLineage: holds only for names the corrected test accepts, not for `""`, `.` or `..`, which the test as written lets through. With the empty name, the project and solution directories are both the dev directory itself; the lemma does not cover that case.
- CreationProperties.ProjectDirectoryMade: holds only for names the corrected test accepts, not for `""`, `.` or `..`, which the test as written lets through. With the empty name, the project and solution directories are the dev directory itself; the lemma does not cover that case.
- CreationProperties.ProjectDirectoryFrame: holds only for names the corrected test accepts, not for `""`, `.` or `..`, which the test as written lets through. With the empty name, the solution directory is the dev directory, so the frame would cover the whole dev directory; the lemma does not cover that case.
- CreationProperties.SkeletonContents: holds only for names the corrected test accepts, not for `""`, `.` or `..`, which the test as written lets through. With the empty name, the skeleton is written directly into the dev directory; the lemma does not cover that case.
- CreationProperties.SkeletonFrame: holds only for names the corrected test accepts, not for `""`, `.` or `..`, which the test as written lets through. With the empty name, the solution directory is the dev directory; the lemma does not cover that case.
- CreationProperties.SkeletonEffects: holds only for names the corrected test accepts, not for `""`, `.` or `..`, which the test as written lets through. With the empty name, the skeleton is written directly into the dev directory; the lemma does not cover that case.
- CreationProperties.FailedRegistrationRollsBack: holds only for names the corrected test accepts, not for `""`, `.` or `..`, which the test as written lets through. With the empty name, the rollback deletes the dev directory itself and everything in it; that case is stated by CreationProperties.EmptyNameRollbackDeletesDevDirectory (see Findings).
- CreationProperties.SuccessfulCreation: holds only for names the corrected test accepts, not for `""`, `.` or `..`, which the test as written lets through. With the empty name, the descriptor's project path is `.csproj`, not `<name>\<name>.csproj`.
- CreationProperties.CreatedProjectLoads: holds only for names the corrected test accepts, not for `""`, `.` or `..`, which the test as written lets through. With the empty name, the dev directory loads as a project named after its own leaf (`Dev`), not as the empty name.
- CreationProperties.DescriptorCsprojPath: holds only for names the corrected test accepts, not for `""`, `.` or `..`, which the test as written lets through. With the empty name, the relative path is `.csproj`.
- CreationProperties.DescriptorIsNew: holds only for names the corrected test accepts, not for `""`, `.` or `..`, which the test as written lets through. With the empty name, the descriptor is written inside the dev directory itself; the lemma does not cover that case.
- CreationProperties.CreatedProjectIsDiscovered: it holds for names the corrected test accepts. The empty name, which the test as written lets through, is never discovered (see Findings).
- Path semantics cover a single separator and rooted paths. There are no drive letters, no alternative separator and no UNC paths.
- The model's paths do not resolve `.` and `..`: `Dev\.` and `Dev\..` are distinct keys from `Dev` and its parent. The corrected name test refuses both names, so the lemmas about created projects do not depend on this.
- Filesystem keys are compared case-sensitively, while Windows resolves paths ignoring case. So `Directory.Exists(Dev\MyMod)` (line 93) and the descriptor lookup (line 229) find a directory created as `Dev\mymod` on Windows, but not in the model. The collision check therefore sees only the exact spelling.
- Case-insensitive comparison of game names folds ASCII letters only. Full ordinal ignore-case folding is not modelled.
- The `*.dll` search pattern is matched as a case-insensitive `.dll` suffix. The .NET quirk where a three-letter extension pattern also matches longer extensions is not modelled.
- `Program.InitContext` and `ProxyGenerator.Generate` are oracles: a context (or none) and the filesystem after generation (or failure). Their setting of the global `Program.Context` is modelled by passing the context along.
- `ModuleLogger`, `ModHandler` and the `ModConfig` declaration are not part of this model. Their relevant parts are a directory, a game context record and a three-field record.
- `ModProject` has private setters that are never called after construction, so it is a value: `ModProjects.ModProject`, built by `ModProjects.NewModProject`. `TryBuild` runs a command, so it is `Tools.DevTools.TryBuild`, taking the project as a parameter.
- Il2CppLauncher/Program.cs is not part of this model. It is the launcher's bootstrap: argument handling, process-identity lookup, module spoofing and the native entry point.

## Findings

| source | as written | input that shows it | evidently intended | confidence | as-written member | corrected member |
|---|---|---|---|---|---|---|
| TweaksLauncher/DevTools.cs:80 | The name test only rejects spaces and invalid file-name characters. So an empty line is accepted as a project name, and so are `.` and `..`. | An empty line at the name prompt: `Path.Combine(devDir, "")` is the dev directory itself. The descriptor is written at `Dev\TweaksLauncher.ModConfig.json`, where discovery, which only loads subdirectories of `Dev`, never finds it. When registration then fails, the recursive delete at line 129 removes the whole `Dev` directory, including earlier projects whose directories held no file. `.` and `..` likewise name the dev directory and its parent. | An empty name, `.` and `..` are refused and prompted for again, like any other invalid name. | medium, not executed | Creation.IsValidNameAsWritten, Creation.PromptName, CreationProperties.EmptyLinesMakeEmptyName, CreationProperties.EmptyNameRollbackDeletesDevDirectory, CreationProperties.EmptyNameIsNeverDiscovered | Creation.IsProjectName, CreationProperties.ProjectNamesAreComponents, CreationProperties.CreatedProjectIsDiscovered |
