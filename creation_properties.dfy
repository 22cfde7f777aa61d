/** What `CreateMod` guarantees: the prompts, the collision check, rollback, and the project it leaves. */
module CreationProperties {
  import opened Wrappers
  import opened Strings
  import opened Paths
  import opened Models
  import opened Disk
  import opened Commands
  import opened ModProjects
  import opened Discovery
  import opened Environment
  import opened Creation

  lemma SuffixIsComponent(name: string, suffix: string)
    requires IsComponent(name) && Sep !in suffix
    ensures IsComponent(name + suffix)
  {
    assert forall i :: 0 <= i < |name + suffix| ==> (name + suffix)[i] != Sep by {
      forall i | 0 <= i < |name + suffix| ensures (name + suffix)[i] != Sep {
        if i < |name| { assert (name + suffix)[i] == name[i]; }
        else { assert (name + suffix)[i] == suffix[i - |name|]; }
      }
    }
  }

  lemma ProjectNameIsComponent(env: Env, name: string)
    requires WellFormed(env) && IsProjectName(name, env.invalidFileNameChars)
    ensures IsComponent(name) && IsComponent(name + ".csproj") && IsComponent(name + ".sln")
  {
    assert forall i :: 0 <= i < |name| ==> name[i] != Sep;
    assert Sep !in ".csproj" && Sep !in ".sln";
    SuffixIsComponent(name, ".csproj");
    SuffixIsComponent(name, ".sln");
  }

  lemma MainFileNameIsComponent()
    ensures IsComponent("Main.cs")
  {
    assert forall i :: 0 <= i < |"Main.cs"| ==> "Main.cs"[i] != Sep;
  }

  /** A child of a rooted directory without a trailing separator: rooted, below it, its parent is `d`. */
  lemma ChildOfRooted(d: Path, n: string)
    requires IsRooted(d) && !EndsWithSep(d) && IsComponent(n)
    ensures Combine(d, n) == d + [Sep] + n
    ensures IsRooted(Combine(d, n)) && !EndsWithSep(Combine(d, n))
    ensures Under(d, Combine(d, n)) && IsChild(d, Combine(d, n)) && FileName(Combine(d, n)) == n
    ensures DirectoryName(Combine(d, n)) == Some(d)
  {
    CombineRooted(d, n);
    FileNameOfCombine(d, n);
    DirectoryNameOfCombine(d, n);
  }

  /** `Dev\<name>` is a rooted child of the dev directory, named after the project. */
  lemma SolutionLayout(env: Env, name: string)
    requires WellFormed(env) && IsProjectName(name, env.invalidFileNameChars)
    ensures var solutionDir := SolutionDirectory(env, name);
      && solutionDir == env.devDir + [Sep] + name
      && IsRooted(solutionDir) && !EndsWithSep(solutionDir)
      && IsChild(env.devDir, solutionDir) && FileName(solutionDir) == name
      && DirectoryName(solutionDir) == Some(env.devDir)
  {
    ProjectNameIsComponent(env, name);
    ChildOfRooted(env.devDir, name);
  }

  /** `Dev\<name>\<name>` holds the project, and the descriptor sits beside it. */
  lemma ProjectLayout(env: Env, name: string)
    requires WellFormed(env) && IsProjectName(name, env.invalidFileNameChars)
    ensures var solutionDir := SolutionDirectory(env, name);
      var projectDir := ProjectDirectory(env, name);
      && projectDir == solutionDir + [Sep] + name
      && IsRooted(projectDir) && !EndsWithSep(projectDir) && Under(solutionDir, projectDir)
      && DirectoryName(projectDir) == Some(solutionDir)
      && ConfigPath(env, name) == solutionDir + [Sep] + ConfigFileName
      && IsRooted(ConfigPath(env, name)) && Under(solutionDir, ConfigPath(env, name))
  {
    SolutionLayout(env, name);
    ProjectNameIsComponent(env, name);
    ConfigFileNameIsComponent();
    ChildOfRooted(SolutionDirectory(env, name), name);
    ChildOfRooted(SolutionDirectory(env, name), ConfigFileName);
  }

  /** The project and source files lie in the project directory, hence below the solution directory. */
  lemma SourceLayout(env: Env, name: string)
    requires WellFormed(env) && IsProjectName(name, env.invalidFileNameChars)
    ensures var solutionDir := SolutionDirectory(env, name);
      var projectDir := ProjectDirectory(env, name);
      && CsprojPath(env, name) == projectDir + [Sep] + name + ".csproj"
      && MainPath(env, name) == projectDir + [Sep] + "Main.cs"
      && IsRooted(CsprojPath(env, name)) && Under(solutionDir, CsprojPath(env, name))
      && IsRooted(MainPath(env, name)) && Under(solutionDir, MainPath(env, name))
  {
    var solutionDir := SolutionDirectory(env, name);
    var projectDir := ProjectDirectory(env, name);
    var csproj := CsprojPath(env, name);
    var main := MainPath(env, name);
    assert IsRooted(projectDir) && !EndsWithSep(projectDir) && Under(solutionDir, projectDir) by {
      ProjectLayout(env, name);
    }
    assert csproj == projectDir + [Sep] + name + ".csproj" && IsRooted(csproj) && Under(projectDir, csproj) by {
      ProjectNameIsComponent(env, name);
      ChildOfRooted(projectDir, name + ".csproj");
    }
    assert main == projectDir + [Sep] + "Main.cs" && IsRooted(main) && Under(projectDir, main) by {
      MainFileNameIsComponent();
      ChildOfRooted(projectDir, "Main.cs");
    }
    UnderTransitive(solutionDir, projectDir, csproj);
    UnderTransitive(solutionDir, projectDir, main);
  }

  /** A child of `d` and a grandchild of `d` are different paths. */
  lemma ChildIsNotGrandchild(d: Path, a: string, b: string, c: string)
    requires Sep !in a
    ensures d + [Sep] + a != d + [Sep] + b + [Sep] + c
  {
    var k := |d| + 1;
    var p := d + [Sep] + a;
    var q := d + [Sep] + b + [Sep] + c;
    assert p[k..] == a;
    assert q[k..][|b|] == Sep;
    assert p[k..] != q[k..];
  }

  /** The descriptor is neither of the two generated source files. */
  lemma DescriptorIsSeparate(env: Env, name: string)
    requires WellFormed(env) && IsProjectName(name, env.invalidFileNameChars)
    ensures ConfigPath(env, name) != CsprojPath(env, name) && ConfigPath(env, name) != MainPath(env, name)
  {
    ProjectLayout(env, name);
    SourceLayout(env, name);
    ConfigFileNameIsComponent();
    var solutionDir := SolutionDirectory(env, name);
    ChildIsNotGrandchild(solutionDir, ConfigFileName, name, name + ".csproj");
    ChildIsNotGrandchild(solutionDir, ConfigFileName, name, "Main.cs");
  }

  /** The descriptor's project path, relative to the solution directory, is `<name>\<name>.csproj`. */
  lemma DescriptorCsprojPath(env: Env, name: string, cwd: Path)
    requires WellFormed(env) && IsProjectName(name, env.invalidFileNameChars)
    ensures RelativePath(cwd, SolutionDirectory(env, name), CsprojPath(env, name)) == Combine(name, name + ".csproj")
    ensures Combine(name, name + ".csproj") == name + [Sep] + name + ".csproj"
    ensures Combine(SolutionDirectory(env, name), Combine(name, name + ".csproj")) == CsprojPath(env, name)
  {
    SolutionLayout(env, name);
    ProjectNameIsComponent(env, name);
    RelativePathOfDescendant(cwd, SolutionDirectory(env, name), name, name + ".csproj");
    CombineNested(SolutionDirectory(env, name), name, name + ".csproj");
    assert name + [Sep] + name + ".csproj" == name + [Sep] + (name + ".csproj");
  }

  /** The lineage of the project directory: itself, the solution directory, then the dev directory's. */
  lemma ProjectDirectoryLineage(env: Env, name: string)
    requires WellFormed(env) && IsProjectName(name, env.invalidFileNameChars)
    ensures Lineage(ProjectDirectory(env, name))
      == {ProjectDirectory(env, name), SolutionDirectory(env, name)} + Lineage(env.devDir)
    ensures forall p :: p in Lineage(env.devDir) ==> |p| <= |env.devDir|
    ensures env.devDir in Lineage(env.devDir)
  {
    SolutionLayout(env, name);
    ProjectLayout(env, name);
  }

  /** The dev directory and those above it lie outside the solution directory. */
  lemma LineageAboveSolution(env: Env, name: string)
    requires WellFormed(env) && IsProjectName(name, env.invalidFileNameChars)
    ensures forall p :: p in Lineage(env.devDir) ==> !AtOrUnder(SolutionDirectory(env, name), p)
  {
    ProjectDirectoryLineage(env, name);
    SolutionLayout(env, name);
  }

  /** Creating the project directory also creates the solution directory, the dev directory and those above it. */
  lemma ProjectDirectoryMade(env: Env, name: string, fs: FileSystem)
    requires WellFormed(env) && IsProjectName(name, env.invalidFileNameChars)
    ensures var fs1 := CreateDirectory(fs, ProjectDirectory(env, name));
      && (forall p :: p in Lineage(env.devDir) ==> IsDirectoryAt(fs1, p))
      && IsDirectoryAt(fs1, env.devDir)
      && IsDirectoryAt(fs1, SolutionDirectory(env, name))
      && IsDirectoryAt(fs1, ProjectDirectory(env, name))
  {
    ProjectLayout(env, name);
    ProjectDirectoryLineage(env, name);
    assert Resolve(fs, ProjectDirectory(env, name)) == ProjectDirectory(env, name);
  }

  /** Creating the project directory touches nothing outside the solution directory but the dev directory's lineage. */
  lemma ProjectDirectoryFrame(env: Env, name: string, fs: FileSystem)
    requires WellFormed(env) && IsProjectName(name, env.invalidFileNameChars)
    ensures var fs1 := CreateDirectory(fs, ProjectDirectory(env, name));
      forall p :: p in fs1.entries && !AtOrUnder(SolutionDirectory(env, name), p) && p !in Lineage(env.devDir) ==>
        p in fs.entries && fs1.entries[p] == fs.entries[p]
  {
    var projectDir := ProjectDirectory(env, name);
    var solutionDir := SolutionDirectory(env, name);
    assert Under(solutionDir, projectDir) && IsRooted(projectDir) by {
      ProjectLayout(env, name);
    }
    CreateDirectoryFrame(fs, projectDir);
    assert Lineage(projectDir) == {solutionDir, projectDir} + Lineage(env.devDir) by {
      ProjectDirectoryLineage(env, name);
    }
    NarrowFrame(fs, CreateDirectory(fs, projectDir), Lineage(projectDir), solutionDir, projectDir, Lineage(env.devDir));
  }

  /** A change confined to `{a, b} + rest`, with `a` and `b` at or below `d`, is confined to `d` and `rest`. */
  lemma NarrowFrame(fs: FileSystem, fs1: FileSystem, touched: set<Path>, d: Path, a: Path, rest: set<Path>)
    requires forall p :: p in fs1.entries && p !in touched ==> p in fs.entries && fs1.entries[p] == fs.entries[p]
    requires touched == {d, a} + rest && Under(d, a)
    ensures forall p :: p in fs1.entries && !AtOrUnder(d, p) && p !in rest ==>
      p in fs.entries && fs1.entries[p] == fs.entries[p]
  {
  }

  /** Both of the above. */
  lemma ProjectDirectoryCreation(env: Env, name: string, fs: FileSystem)
    requires WellFormed(env) && IsProjectName(name, env.invalidFileNameChars)
    ensures var fs1 := CreateDirectory(fs, ProjectDirectory(env, name));
      && (forall p :: p in Lineage(env.devDir) ==> IsDirectoryAt(fs1, p))
      && IsDirectoryAt(fs1, env.devDir)
      && IsDirectoryAt(fs1, SolutionDirectory(env, name))
      && IsDirectoryAt(fs1, ProjectDirectory(env, name))
      && forall p :: p in fs1.entries && !AtOrUnder(SolutionDirectory(env, name), p) && p !in Lineage(env.devDir) ==>
           p in fs.entries && fs1.entries[p] == fs.entries[p]
  {
    ProjectDirectoryMade(env, name, fs);
    ProjectDirectoryFrame(env, name, fs);
  }

  /** Writing a file below `d` by its rooted path touches that one entry, below `d`. */
  lemma WriteBelow(fs: FileSystem, d: Path, path: Path, data: FileData)
    requires IsRooted(path) && Under(d, path)
    ensures var after := WriteAllText(fs, path, data);
      && after.cwd == fs.cwd && fs.entries.Keys <= after.entries.Keys && (Valid(fs) ==> Valid(after))
      && path in after.entries && after.entries[path] == File(data)
      && (forall q :: q in fs.entries && q != path ==> after.entries[q] == fs.entries[q])
      && (forall q :: q in after.entries ==> AtOrUnder(d, q) || (q in fs.entries && after.entries[q] == fs.entries[q]))
  {
    assert Resolve(fs, path) == path;
  }

  /** The two source files are written strictly below the project directory, and are two files. */
  lemma SourceWrites(env: Env, name: string, fs1: FileSystem, csprojText: string, mainText: string)
    requires WellFormed(env) && IsProjectName(name, env.invalidFileNameChars)
    requires IsDirectoryAt(fs1, env.devDir) && IsDirectoryAt(fs1, SolutionDirectory(env, name))
    requires IsDirectoryAt(fs1, ProjectDirectory(env, name))
    ensures var fs3 := WriteAllText(WriteAllText(fs1, CsprojPath(env, name), Text(csprojText)), MainPath(env, name), Text(mainText));
      && fs3.cwd == fs1.cwd && fs1.entries.Keys <= fs3.entries.Keys && (Valid(fs1) ==> Valid(fs3))
      && IsDirectoryAt(fs3, env.devDir)
      && IsDirectoryAt(fs3, SolutionDirectory(env, name))
      && IsDirectoryAt(fs3, ProjectDirectory(env, name))
      && CsprojPath(env, name) in fs3.entries && fs3.entries[CsprojPath(env, name)] == File(Text(csprojText))
      && MainPath(env, name) in fs3.entries && fs3.entries[MainPath(env, name)] == File(Text(mainText))
      && forall p :: p in fs3.entries ==>
           AtOrUnder(SolutionDirectory(env, name), p) || (p in fs1.entries && fs3.entries[p] == fs1.entries[p])
  {
    SolutionLayout(env, name);
    ProjectLayout(env, name);
    SourceLayout(env, name);
    var solutionDir := SolutionDirectory(env, name);
    var projectDir := ProjectDirectory(env, name);
    var csproj := CsprojPath(env, name);
    var main := MainPath(env, name);
    var fs2 := WriteAllText(fs1, csproj, Text(csprojText));
    WriteBelow(fs1, solutionDir, csproj, Text(csprojText));
    WriteBelow(fs2, solutionDir, main, Text(mainText));
    // the two files are strictly below the three directories, so none of them is overwritten
    assert |env.devDir| < |solutionDir| < |projectDir| < |csproj| && |projectDir| < |main|;
    assert csproj != main by {
      assert csproj[|projectDir| + 1..] == name + ".csproj";
      assert main[|projectDir| + 1..] == "Main.cs";
      assert |name + ".csproj"| > |"Main.cs"|;
    }
  }

  /** The skeleton's directories and source files, and what it keeps of the filesystem. */
  lemma SkeletonContents(env: Env, scope: Scope, name: string, fs: FileSystem)
    requires WellFormed(env) && IsProjectName(name, env.invalidFileNameChars)
    ensures var sk := Skeleton(env, scope, name, fs);
      var projectDir := ProjectDirectory(env, name);
      && sk.cwd == fs.cwd && fs.entries.Keys <= sk.entries.Keys && (Valid(fs) ==> Valid(sk))
      && IsDirectoryAt(sk, env.devDir)
      && IsDirectoryAt(sk, SolutionDirectory(env, name))
      && IsDirectoryAt(sk, projectDir)
      && CsprojPath(env, name) in sk.entries
      && sk.entries[CsprojPath(env, name)]
         == File(Text(ProjectFileContent(env, ReferenceBlock(env, scope, CreateDirectory(fs, projectDir), projectDir))))
      && MainPath(env, name) in sk.entries
      && sk.entries[MainPath(env, name)] == File(Text(MainFileContent(env, name)))
  {
    var projectDir := ProjectDirectory(env, name);
    var fs1 := CreateDirectory(fs, projectDir);
    ProjectDirectoryCreation(env, name, fs);
    SourceWrites(env, name, fs1,
      ProjectFileContent(env, ReferenceBlock(env, scope, fs1, projectDir)), MainFileContent(env, name));
  }

  /**
   * What the skeleton may touch: the directories above the dev directory end up directories, and
   * any other entry outside the solution directory keeps its value.
   */
  lemma SkeletonFrame(env: Env, scope: Scope, name: string, fs: FileSystem)
    requires WellFormed(env) && IsProjectName(name, env.invalidFileNameChars)
    ensures var sk := Skeleton(env, scope, name, fs);
      && (forall p :: p in Lineage(env.devDir) ==> IsDirectoryAt(sk, p))
      && forall p :: p in sk.entries && !AtOrUnder(SolutionDirectory(env, name), p) && p !in Lineage(env.devDir) ==>
           p in fs.entries && sk.entries[p] == fs.entries[p]
  {
    var projectDir := ProjectDirectory(env, name);
    var solutionDir := SolutionDirectory(env, name);
    var fs1 := CreateDirectory(fs, projectDir);
    ProjectDirectoryCreation(env, name, fs);
    LineageAboveSolution(env, name);
    SourceWrites(env, name, fs1,
      ProjectFileContent(env, ReferenceBlock(env, scope, fs1, projectDir)), MainFileContent(env, name));
    FramesCompose(fs, fs1, Skeleton(env, scope, name, fs), solutionDir, Lineage(env.devDir));
  }

  /** Creating directories in `lineage`, then writing only at or below `d`, keeps everything else. */
  lemma FramesCompose(fs: FileSystem, fs1: FileSystem, fs2: FileSystem, d: Path, lineage: set<Path>)
    requires forall p :: p in lineage ==> IsDirectoryAt(fs1, p) && !AtOrUnder(d, p)
    requires forall p :: p in fs1.entries && !AtOrUnder(d, p) && p !in lineage ==>
      p in fs.entries && fs1.entries[p] == fs.entries[p]
    requires fs1.entries.Keys <= fs2.entries.Keys
    requires forall p :: p in fs2.entries ==> AtOrUnder(d, p) || (p in fs1.entries && fs2.entries[p] == fs1.entries[p])
    ensures forall p :: p in lineage ==> IsDirectoryAt(fs2, p)
    ensures forall p :: p in fs2.entries && !AtOrUnder(d, p) && p !in lineage ==>
      p in fs.entries && fs2.entries[p] == fs.entries[p]
  {
  }

  /**
   * The skeleton: the dev, solution and project directories exist, and so does every directory
   * above the dev directory; the project file holds the template with the references spliced in
   * and the source file the template with the namespace; every entry that is neither at or below
   * the solution directory nor in the lineage of the dev directory keeps its value.
   */
  lemma SkeletonEffects(env: Env, scope: Scope, name: string, fs: FileSystem)
    requires WellFormed(env) && IsProjectName(name, env.invalidFileNameChars)
    ensures var sk := Skeleton(env, scope, name, fs);
      var projectDir := ProjectDirectory(env, name);
      && sk.cwd == fs.cwd && fs.entries.Keys <= sk.entries.Keys && (Valid(fs) ==> Valid(sk))
      && (forall p :: p in Lineage(env.devDir) ==> IsDirectoryAt(sk, p))
      && IsDirectoryAt(sk, env.devDir)
      && IsDirectoryAt(sk, SolutionDirectory(env, name))
      && IsDirectoryAt(sk, projectDir)
      && CsprojPath(env, name) in sk.entries
      && sk.entries[CsprojPath(env, name)]
         == File(Text(ProjectFileContent(env, ReferenceBlock(env, scope, CreateDirectory(fs, projectDir), projectDir))))
      && MainPath(env, name) in sk.entries
      && sk.entries[MainPath(env, name)] == File(Text(MainFileContent(env, name)))
      && forall p :: p in sk.entries && !AtOrUnder(SolutionDirectory(env, name), p) && p !in Lineage(env.devDir) ==>
           p in fs.entries && sk.entries[p] == fs.entries[p]
  {
    SkeletonContents(env, scope, name, fs);
    SkeletonFrame(env, scope, name, fs);
  }

  /**
   * A failed registration rolls back: nothing is left at or below the solution directory; every
   * other entry that is not in the lineage of the dev directory is there exactly as before; the
   * only entries that may be new or changed are the dev directory and those above it, which are
   * directories.
   */
  lemma FailedRegistrationRollsBack(env: Env, scope: Scope, name: string, w: World)
    requires WellFormed(env) && IsProjectName(name, env.invalidFileNameChars)
    requires !Occupied(env, name, w.fs) && !Scaffold(env, scope, name, w).0
    ensures var after := Scaffold(env, scope, name, w).1.fs;
      var solutionDir := SolutionDirectory(env, name);
      && (forall p :: p in after.entries ==> !AtOrUnder(solutionDir, p))
      && (forall p :: p in w.fs.entries && !AtOrUnder(solutionDir, p) && p !in Lineage(env.devDir) ==>
            p in after.entries && after.entries[p] == w.fs.entries[p])
      && (forall p :: p in after.entries ==>
            p in Lineage(env.devDir) || (p in w.fs.entries && after.entries[p] == w.fs.entries[p]))
      && (forall p :: p in Lineage(env.devDir) ==> IsDirectoryAt(after, p))
  {
    SolutionLayout(env, name);
    SkeletonFrame(env, scope, name, w.fs);
    SkeletonContents(env, scope, name, w.fs);
    LineageAboveSolution(env, name);
    var sk := Skeleton(env, scope, name, w.fs);
    var solutionDir := SolutionDirectory(env, name);
    assert Resolve(sk, solutionDir) == solutionDir;
    assert Scaffold(env, scope, name, w).1.fs == DeleteTree(sk, solutionDir);
  }

  /** The descriptor path is none of the paths the skeleton creates, but for a project named like it. */
  lemma DescriptorIsNew(env: Env, name: string)
    requires WellFormed(env) && IsProjectName(name, env.invalidFileNameChars)
    ensures var config := ConfigPath(env, name);
      && config != env.devDir && config != SolutionDirectory(env, name)
      && config != CsprojPath(env, name) && config != MainPath(env, name)
      && (name != ConfigFileName ==> config != ProjectDirectory(env, name))
  {
    SolutionLayout(env, name);
    ProjectLayout(env, name);
    DescriptorIsSeparate(env, name);
    if name != ConfigFileName {
      var k := |SolutionDirectory(env, name)| + 1;
      assert ConfigPath(env, name)[k..] == ConfigFileName;
      assert ProjectDirectory(env, name)[k..] == name;
    }
  }

  /** After a successful creation the world is the skeleton with the descriptor written, and both commands logged. */
  lemma SuccessfulState(env: Env, scope: Scope, name: string, w: World)
    requires Scaffold(env, scope, name, w).0
    ensures var sk := Skeleton(env, scope, name, w.fs);
      Scaffold(env, scope, name, w).1 == World(
        WriteAllText(sk, ConfigPath(env, name), SerializedConfig(Descriptor(env, scope, sk.cwd, name))),
        w.console,
        w.log + [NewSolutionCommand(SolutionDirectory(env, name)),
                 AddToSolutionCommand(SolutionPath(env, name), CsprojPath(env, name))])
  {
    var sk := Skeleton(env, scope, name, w.fs);
    var first := NewSolutionCommand(SolutionDirectory(env, name));
    var second := AddToSolutionCommand(SolutionPath(env, name), CsprojPath(env, name));
    assert !Occupied(env, name, w.fs) && env.dotnet(sk, w.log, first) && env.dotnet(sk, w.log + [first], second);
    SuccessBranch(env, scope, name, w);
    AppendTwo(w.log, first, second);
  }

  lemma AppendTwo<T>(s: seq<T>, a: T, b: T)
    ensures s + [a] + [b] == s + [a, b]
  {
  }

  /** The branch of the scaffolding where the name is free and both commands succeed. */
  lemma SuccessBranch(env: Env, scope: Scope, name: string, w: World)
    requires var sk := Skeleton(env, scope, name, w.fs);
      var first := NewSolutionCommand(SolutionDirectory(env, name));
      && !Occupied(env, name, w.fs) && env.dotnet(sk, w.log, first)
      && env.dotnet(sk, w.log + [first], AddToSolutionCommand(SolutionPath(env, name), CsprojPath(env, name)))
    ensures var sk := Skeleton(env, scope, name, w.fs);
      Scaffold(env, scope, name, w) == (true, World(
        WriteAllText(sk, ConfigPath(env, name), SerializedConfig(Descriptor(env, scope, sk.cwd, name))),
        w.console,
        w.log + [NewSolutionCommand(SolutionDirectory(env, name))]
          + [AddToSolutionCommand(SolutionPath(env, name), CsprojPath(env, name))]))
  {
  }

  /** Writing the descriptor adds one file and keeps the directories and source files of the skeleton. */
  lemma DescriptorWrite(env: Env, name: string, sk: FileSystem, data: FileData)
    requires WellFormed(env) && IsProjectName(name, env.invalidFileNameChars)
    ensures var after := WriteAllText(sk, ConfigPath(env, name), data);
      && after.cwd == sk.cwd && (Valid(sk) ==> Valid(after))
      && ConfigPath(env, name) in after.entries && after.entries[ConfigPath(env, name)] == File(data)
      && forall p :: p in sk.entries && p != ConfigPath(env, name) ==> p in after.entries && after.entries[p] == sk.entries[p]
  {
    ProjectLayout(env, name);
    assert Resolve(sk, ConfigPath(env, name)) == ConfigPath(env, name);
  }

  /**
   * A successful creation: both commands were logged, the project and source files are in place,
   * and the descriptor names the game (none for a global mod), the `Debug` configuration and the
   * project file as `<name>\<name>.csproj`.
   */
  lemma SuccessfulCreation(env: Env, scope: Scope, name: string, w: World)
    requires WellFormed(env) && IsProjectName(name, env.invalidFileNameChars)
    requires Scaffold(env, scope, name, w).0
    ensures var w' := Scaffold(env, scope, name, w).1;
      var projectDir := ProjectDirectory(env, name);
      && w'.log == w.log + [NewSolutionCommand(SolutionDirectory(env, name)),
                            AddToSolutionCommand(SolutionPath(env, name), CsprojPath(env, name))]
      && IsDirectoryAt(w'.fs, env.devDir)
      && IsDirectoryAt(w'.fs, SolutionDirectory(env, name))
      && (name != ConfigFileName ==> IsDirectoryAt(w'.fs, projectDir))
      && ConfigPath(env, name) in w'.fs.entries
      && w'.fs.entries[ConfigPath(env, name)] == File(SerializedConfig(ModConfig(
           if scope.Global? then None else Some(scope.context.gameName),
           Some("Debug"),
           Some(name + [Sep] + name + ".csproj"))))
      && CsprojPath(env, name) in w'.fs.entries
      && w'.fs.entries[CsprojPath(env, name)]
         == File(Text(ProjectFileContent(env, ReferenceBlock(env, scope, CreateDirectory(w.fs, projectDir), projectDir))))
      && MainPath(env, name) in w'.fs.entries
      && w'.fs.entries[MainPath(env, name)] == File(Text(MainFileContent(env, name)))
  {
    var sk := Skeleton(env, scope, name, w.fs);
    var data := SerializedConfig(Descriptor(env, scope, sk.cwd, name));
    SuccessfulState(env, scope, name, w);
    SkeletonEffects(env, scope, name, w.fs);
    DescriptorIsNew(env, name);
    DescriptorWrite(env, name, sk, data);
    DescriptorCsprojPath(env, name, sk.cwd);
  }

  /** A rooted directory holding a descriptor that names a csproj loads as a project. */
  lemma TryGetOfDescriptor(fs: FileSystem, dir: Path, c: ModConfig)
    requires IsRooted(dir) && IsDirectoryAt(fs, dir) && c.modCsprojPath.Some?
    requires Combine(dir, ConfigFileName) in fs.entries
    requires fs.entries[Combine(dir, ConfigFileName)] == File(SerializedConfig(c))
    ensures TryGet(fs, dir) == Some(ModProject(FileName(dir), dir, Combine(dir, c.modCsprojPath.value), c))
  {
    TryGetOfDirectory(fs, dir);
  }

  /** The descriptor's project path leads back from the solution directory to the project file. */
  lemma DescriptorLeadsToCsproj(env: Env, scope: Scope, name: string, cwd: Path)
    requires WellFormed(env) && IsProjectName(name, env.invalidFileNameChars)
    ensures var c := Descriptor(env, scope, cwd, name);
      && c.modCsprojPath.Some?
      && Combine(SolutionDirectory(env, name), c.modCsprojPath.value) == CsprojPath(env, name)
  {
    DescriptorCsprojPath(env, name, cwd);
  }

  /** A solution directory holding the descriptor written for `name` loads as that project. */
  lemma DescriptorLoads(env: Env, scope: Scope, name: string, fs: FileSystem)
    requires WellFormed(env) && IsProjectName(name, env.invalidFileNameChars)
    requires IsDirectoryAt(fs, SolutionDirectory(env, name)) && ConfigPath(env, name) in fs.entries
    requires fs.entries[ConfigPath(env, name)] == File(SerializedConfig(Descriptor(env, scope, fs.cwd, name)))
    ensures TryGet(fs, SolutionDirectory(env, name))
      == Some(ModProject(name, SolutionDirectory(env, name), CsprojPath(env, name), Descriptor(env, scope, fs.cwd, name)))
  {
    SolutionLayout(env, name);
    DescriptorLeadsToCsproj(env, scope, name, fs.cwd);
    TryGetOfDescriptor(fs, SolutionDirectory(env, name), Descriptor(env, scope, fs.cwd, name));
  }

  /** The new solution directory loads as the new project. */
  lemma CreatedProjectLoads(env: Env, scope: Scope, name: string, w: World)
    requires WellFormed(env) && IsProjectName(name, env.invalidFileNameChars)
    requires Scaffold(env, scope, name, w).0
    ensures var after := Scaffold(env, scope, name, w).1.fs;
      var solutionDir := SolutionDirectory(env, name);
      TryGet(after, solutionDir)
        == Some(ModProject(name, solutionDir, CsprojPath(env, name), Descriptor(env, scope, after.cwd, name)))
  {
    var after := Scaffold(env, scope, name, w).1.fs;
    SuccessfulCreation(env, scope, name, w);
    SkeletonEffects(env, scope, name, w.fs);
    SuccessfulState(env, scope, name, w);
    assert after.cwd == w.fs.cwd;
    DescriptorCsprojPath(env, name, after.cwd);
    DescriptorLoads(env, scope, name, after);
  }

  /**
   * End to end: after `CreateMod` succeeds with a name the corrected test accepts,
   * `GetProjectsForGame` finds the new project for every game the project is for (any game, for a
   * global mod), loaded from its solution directory.
   */
  lemma CreatedProjectIsDiscovered(env: Env, w: World, gameName: string)
    requires WellFormed(env) && CreateModSpec(env, w).0
    requires var prepared := Prepare(env, w);
      && prepared.Proceed? && IsProjectName(prepared.name, env.invalidFileNameChars) && Valid(prepared.world.fs)
      && (prepared.scope.Global? || EqualsIgnoreCase(gameName, prepared.scope.context.gameName))
    ensures var prepared := Prepare(env, w);
      var after := CreateModSpec(env, w).1.fs;
      var solutionDir := SolutionDirectory(env, prepared.name);
      var mod := ModProject(prepared.name, solutionDir, CsprojPath(env, prepared.name),
                            Descriptor(env, prepared.scope, after.cwd, prepared.name));
      && TryGet(after, solutionDir) == Some(mod)
      && mod in Discover(after, env.devDir, gameName)
  {
    var prepared := Prepare(env, w);
    var scope, name, w1 := prepared.scope, prepared.name, prepared.world;
    var after := CreateModSpec(env, w).1.fs;
    assert after == Scaffold(env, scope, name, w1).1.fs;
    SolutionLayout(env, name);
    CreatedProjectLoads(env, scope, name, w1);
    SuccessfulCreation(env, scope, name, w1);
    SkeletonEffects(env, scope, name, w1.fs);
    SuccessfulState(env, scope, name, w1);
    var solutionDir := SolutionDirectory(env, name);
    var mod := ModProject(name, solutionDir, CsprojPath(env, name), Descriptor(env, scope, after.cwd, name));
    assert Valid(after);
    assert Resolve(after, env.devDir) == env.devDir;
    assert solutionDir in EnumerateDirectories(after, env.devDir);
    DiscoverMembership(after, env.devDir, gameName, mod);
  }

  /**
   * The prompts: a first line that trims to nothing makes a global mod, anything else is a game
   * path whose context and proxies the scoped mod uses; the name is the first acceptable line after
   * it, and the lines after the name stay unread.
   */
  lemma PromptedScope(env: Env, w: World)
    requires Prepare(env, w).Proceed?
    ensures var prepared := Prepare(env, w);
      && |w.console| >= 2
      && (prepared.scope.Global? <==> forall i :: 0 <= i < |w.console[0]| ==> w.console[0][i] in PathTrimChars)
      && (prepared.scope.Scoped? ==>
            && env.initContext(Trim(w.console[0], PathTrimChars)) == Some(prepared.scope.context)
            && env.generateProxies(w.fs, prepared.scope.context) == Some(prepared.world.fs))
      && PromptName(w.console[1..], env.invalidFileNameChars) == (Some(prepared.name), prepared.world.console)
  {
    if w.console != [] {
      TrimEmptyIff(w.console[0], PathTrimChars);
    }
  }

  /** The concatenation of `f` over `xs`, in order. */
  function Collect<T, U>(f: T -> seq<U>, xs: seq<T>): seq<U>
  {
    if xs == [] then [] else Collect(f, xs[..|xs| - 1]) + f(xs[|xs| - 1])
  }

  lemma {:induction false} CollectMembership<T, U>(f: T -> seq<U>, xs: seq<T>, u: U)
    ensures u in Collect(f, xs) <==> exists x :: x in xs && u in f(x)
  {
    if xs != [] {
      var init := xs[..|xs| - 1];
      CollectMembership(f, init, u);
      assert xs == init + [xs[|xs| - 1]];
    }
  }

  lemma {:induction false} CollectAppend<T, U>(f: T -> seq<U>, xs: seq<T>, ys: seq<T>)
    ensures Collect(f, xs + ys) == Collect(f, xs) + Collect(f, ys)
    decreases |ys|
  {
    if ys == [] {
      assert xs + ys == xs;
    } else {
      var init := ys[..|ys| - 1];
      assert (xs + ys)[..|xs + ys| - 1] == xs + init;
      assert (xs + ys)[|xs + ys| - 1] == ys[|ys| - 1];
      CollectAppend(f, xs, init);
    }
  }

  lemma {:induction false} ProxyReferencesCollect(cwd: Path, projectDir: Path, assemblies: seq<Path>)
    ensures ProxyReferences(cwd, projectDir, assemblies) == Collect(a => ReferenceOf(cwd, projectDir, a), assemblies)
  {
    if assemblies != [] {
      ProxyReferencesCollect(cwd, projectDir, assemblies[..|assemblies| - 1]);
    }
  }

  lemma ProxyReferencesAppend(cwd: Path, projectDir: Path, a: seq<Path>, b: seq<Path>)
    ensures ProxyReferences(cwd, projectDir, a + b)
      == ProxyReferences(cwd, projectDir, a) + ProxyReferences(cwd, projectDir, b)
  {
    ProxyReferencesCollect(cwd, projectDir, a + b);
    ProxyReferencesCollect(cwd, projectDir, a);
    ProxyReferencesCollect(cwd, projectDir, b);
    CollectAppend(asm => ReferenceOf(cwd, projectDir, asm), a, b);
  }


  /**
   * A proxy assembly contributes a reference exactly when its name does not start with `_`; the
   * reference names the assembly and its path relative to the project directory.
   */
  lemma ProxyReferencesMembership(cwd: Path, projectDir: Path, assemblies: seq<Path>, r: Reference)
    ensures r in ProxyReferences(cwd, projectDir, assemblies) <==>
      exists a :: a in assemblies
        && !StartsWith(FileNameWithoutExtension(a), '_')
        && r == Reference(FileNameWithoutExtension(a), RelativePath(cwd, projectDir, a))
  {
    ProxyReferencesCollect(cwd, projectDir, assemblies);
    CollectMembership(a => ReferenceOf(cwd, projectDir, a), assemblies, r);
    forall a ensures r in ReferenceOf(cwd, projectDir, a) <==>
      !StartsWith(FileNameWithoutExtension(a), '_')
      && r == Reference(FileNameWithoutExtension(a), RelativePath(cwd, projectDir, a))
    {
    }
  }

  lemma {:induction false} RenderReferencesAppend(a: seq<Reference>, b: seq<Reference>, newLine: string)
    ensures RenderReferences(a + b, newLine) == RenderReferences(a, newLine) + RenderReferences(b, newLine)
    decreases |b|
  {
    if b != [] {
      var init := b[..|b| - 1];
      assert (a + b)[..|a + b| - 1] == a + init;
      assert (a + b)[|a + b| - 1] == b[|b| - 1];
      RenderReferencesAppend(a, init, newLine);
    } else {
      assert a + b == a;
    }
  }

  /**
   * The references are rendered one line each, in the order of the assemblies: the block of
   * `a + b` is the block of `a` followed by the block of `b`.
   */
  lemma ReferenceBlockAppend(cwd: Path, projectDir: Path, a: seq<Path>, b: seq<Path>, newLine: string)
    ensures RenderReferences(ProxyReferences(cwd, projectDir, a + b), newLine)
      == RenderReferences(ProxyReferences(cwd, projectDir, a), newLine)
         + RenderReferences(ProxyReferences(cwd, projectDir, b), newLine)
  {
    ProxyReferencesAppend(cwd, projectDir, a, b);
    RenderReferencesAppend(ProxyReferences(cwd, projectDir, a), ProxyReferences(cwd, projectDir, b), newLine);
  }

  /** One more proxy assembly adds its reference line, unless its name starts with `_`. */
  lemma ReferenceLinesStep(cwd: Path, projectDir: Path, assemblies: seq<Path>, i: nat, newLine: string)
    requires i < |assemblies|
    ensures var name := FileNameWithoutExtension(assemblies[i]);
      RenderReferences(ProxyReferences(cwd, projectDir, assemblies[..i + 1]), newLine)
        == RenderReferences(ProxyReferences(cwd, projectDir, assemblies[..i]), newLine)
           + (if StartsWith(name, '_') then ""
              else ReferenceLine(Reference(name, RelativePath(cwd, projectDir, assemblies[i])), newLine))
  {
    assert assemblies[..i + 1][..i] == assemblies[..i];
    var refs := ProxyReferences(cwd, projectDir, assemblies[..i]);
    var added := ReferenceOf(cwd, projectDir, assemblies[i]);
    assert ProxyReferences(cwd, projectDir, assemblies[..i + 1]) == refs + added;
    RenderReferencesAppend(refs, added, newLine);
    if added != [] {
      assert added[..0] == [];
    }
  }

  /** A template with the placeholder once, and nowhere else, gets the block in its place. */
  lemma ProjectFileSplicesReferences(env: Env, before: string, after: string, block: string)
    requires env.projectTemplate == before + ReferencesPlaceholder + after
    requires forall i: nat :: i < |before| ==> !OccursAt(env.projectTemplate, ReferencesPlaceholder, i)
    requires forall i: nat :: !OccursAt(after, ReferencesPlaceholder, i)
    ensures ProjectFileContent(env, block) == before + block + after
  {
    ReplaceSinglePlaceholder(before, ReferencesPlaceholder, after, block);
  }

  /** A source template with the marker once, and nowhere else, gets `namespace <name>;` in its place. */
  lemma MainFileDeclaresNamespace(env: Env, name: string, before: string, after: string)
    requires env.mainTemplate == before + NamespacePlaceholder + after
    requires forall i: nat :: i < |before| ==> !OccursAt(env.mainTemplate, NamespacePlaceholder, i)
    requires forall i: nat :: !OccursAt(after, NamespacePlaceholder, i)
    ensures MainFileContent(env, name) == before + "namespace " + name + ";" + after
  {
    ReplaceSinglePlaceholder(before, NamespacePlaceholder, after, "namespace " + name + ";");
    assert before + ("namespace " + name + ";") + after == before + "namespace " + name + ";" + after;
  }

  /**
   * With the empty name, which the test as written lets through, a failed registration rolls back
   * the dev directory itself: the recursive delete removes `Dev` and everything below it,
   * including projects whose directories held no file and so passed the collision test.
   */
  lemma EmptyNameRollbackDeletesDevDirectory(env: Env, scope: Scope, w: World)
    requires WellFormed(env)
    requires !Occupied(env, "", w.fs) && !Scaffold(env, scope, "", w).0
    ensures SolutionDirectory(env, "") == env.devDir
    ensures forall p :: p in Scaffold(env, scope, "", w).1.fs.entries ==> !AtOrUnder(env.devDir, p)
  {
    var sk := Skeleton(env, scope, "", w.fs);
    assert SolutionDirectory(env, "") == env.devDir;
    assert Resolve(sk, env.devDir) == env.devDir;
    assert Scaffold(env, scope, "", w).1.fs == DeleteTree(sk, env.devDir);
  }

  /**
   * The name test as written lets the empty name through: its solution directory is the dev
   * directory itself and its descriptor lands there, yet no project is ever discovered at the dev
   * directory, so the project would be created and never found.
   */
  lemma EmptyNameIsNeverDiscovered(env: Env, fs: FileSystem, gameName: string, m: ModProject)
    requires WellFormed(env)
    ensures IsValidNameAsWritten("", env.invalidFileNameChars)
    ensures SolutionDirectory(env, "") == env.devDir
    ensures ConfigPath(env, "") == Combine(env.devDir, ConfigFileName)
    ensures m in Discover(fs, env.devDir, gameName) ==> m.solutionDirectory != SolutionDirectory(env, "")
  {
    if m in Discover(fs, env.devDir, gameName) {
      DiscoveredProjectsAreValid(fs, env.devDir, gameName, m);
      CombineRooted(env.devDir, m.name);
    }
  }

  /**
   * As written, an empty first line and an empty second line make a global mod whose name is
   * the empty string, with the rest of the input unread.
   */
  lemma EmptyLinesMakeEmptyName(env: Env, fs: FileSystem, rest: seq<string>, log: seq<Invocation>)
    ensures Prepare(env, World(fs, ["", ""] + rest, log)) == Proceed(Global, "", World(fs, rest, log))
  {
    var console := ["", ""] + rest;
    var w1 := World(fs, [""] + rest, log);
    assert console[1..] == [""] + rest;
    assert NextLine(console) == (Some(""), [""] + rest);
    assert Trim("", PathTrimChars) == [];
    assert ([""] + rest)[1..] == rest;
    assert PromptName([""] + rest, env.invalidFileNameChars) == (Some(""), rest);
    assert ChooseName(env, Global, w1) == Proceed(Global, "", World(fs, rest, log));
  }

  /**
   * The corrected test refuses the empty name and the names `.` and `..`, which the test as
   * written lets through when `.` is a valid file-name character; every name it accepts is a path
   * component whose solution directory lies strictly below the dev directory.
   */
  lemma ProjectNamesAreComponents(env: Env, name: string)
    requires WellFormed(env)
    ensures !IsProjectName("", env.invalidFileNameChars)
    ensures !IsProjectName(".", env.invalidFileNameChars) && !IsProjectName("..", env.invalidFileNameChars)
    ensures '.' !in env.invalidFileNameChars ==>
      IsValidNameAsWritten(".", env.invalidFileNameChars) && IsValidNameAsWritten("..", env.invalidFileNameChars)
    ensures IsProjectName(name, env.invalidFileNameChars) ==>
      IsComponent(name) && Under(env.devDir, SolutionDirectory(env, name))
  {
    if IsProjectName(name, env.invalidFileNameChars) {
      SolutionLayout(env, name);
      ChildOfRooted(env.devDir, name);
    }
  }
}
