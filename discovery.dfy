/** `DevTools.GetProjectsForGame`: which projects under the dev directory a game sees. */
module Discovery {
  import opened Wrappers
  import opened Strings
  import opened Paths
  import opened Models
  import opened Disk
  import opened ModProjects

  /**
   * A loaded project is kept when it is global, or when its game name matches, ignoring case:
   * the two names have the same upper-case form.
   */
  predicate Keeps(gameName: string, mod: ModProject)
    ensures IsGlobal(mod.config) ==> Keeps(gameName, mod)
    ensures !IsGlobal(mod.config) ==>
      (Keeps(gameName, mod) <==> UpperAscii(gameName) == UpperAscii(mod.config.gameName.value))
  {
    IsGlobal(mod.config)
      || (EqualsIgnoreCaseIsUpperEquality(gameName, mod.config.gameName.value);
          EqualsIgnoreCase(gameName, mod.config.gameName.value))
  }

  /** The projects that load from `dirs`, in order. */
  function Loaded(fs: FileSystem, dirs: seq<Path>): seq<ModProject>
  {
    if dirs == [] then []
    else
      var m := TryGet(fs, dirs[|dirs| - 1]);
      Loaded(fs, dirs[..|dirs| - 1]) + (if m.Some? then [m.value] else [])
  }

  /** The projects of `mods` a game keeps, in order. */
  function Kept(gameName: string, mods: seq<ModProject>): (r: seq<ModProject>)
    ensures forall m :: m in r ==> m in mods && Keeps(gameName, m)
  {
    if mods == [] then []
    else
      var m := mods[|mods| - 1];
      Kept(gameName, mods[..|mods| - 1]) + (if Keeps(gameName, m) then [m] else [])
  }

  /** The global projects of `mods`, in order. */
  function Globals(mods: seq<ModProject>): seq<ModProject>
  {
    if mods == [] then []
    else
      var m := mods[|mods| - 1];
      Globals(mods[..|mods| - 1]) + (if IsGlobal(m.config) then [m] else [])
  }

  /** The projects of `mods` scoped to `gameName` (ignoring case), in order. */
  function ScopedTo(gameName: string, mods: seq<ModProject>): seq<ModProject>
  {
    if mods == [] then []
    else
      var m := mods[|mods| - 1];
      ScopedTo(gameName, mods[..|mods| - 1])
        + (if !IsGlobal(m.config) && EqualsIgnoreCase(gameName, m.config.gameName.value) then [m] else [])
  }

  /** What `GetProjectsForGame(gameName)` returns for the dev directory `devDir`. */
  function Discover(fs: FileSystem, devDir: Path, gameName: string): (r: seq<ModProject>)
    ensures forall m :: m in r ==> Keeps(gameName, m) && m.config.modCsprojPath.Some?
  {
    if !DirectoryExists(fs, devDir) then []
    else
      var dirs := EnumerateDirectories(fs, devDir);
      LoadedAreNamed(fs, dirs);
      Kept(gameName, Loaded(fs, dirs))
  }

  /** Every loaded project names a csproj and is named after the leaf of its directory. */
  lemma {:induction false} LoadedAreNamed(fs: FileSystem, dirs: seq<Path>)
    ensures forall m :: m in Loaded(fs, dirs) ==> m.config.modCsprojPath.Some? && m.name == FileName(m.solutionDirectory)
  {
    if dirs != [] {
      LoadedAreNamed(fs, dirs[..|dirs| - 1]);
    }
  }

  /** One more enumerated directory: its project is appended when it loads and the game keeps it. */
  lemma KeptLoadedStep(fs: FileSystem, gameName: string, dirs: seq<Path>, i: nat)
    requires i < |dirs|
    ensures var m := TryGet(fs, dirs[i]);
      Kept(gameName, Loaded(fs, dirs[..i + 1]))
        == Kept(gameName, Loaded(fs, dirs[..i])) + (if m.Some? && Keeps(gameName, m.value) then [m.value] else [])
  {
    assert dirs[..i + 1][..i] == dirs[..i];
    var before := Loaded(fs, dirs[..i]);
    var m := TryGet(fs, dirs[i]);
    if m.Some? {
      var loaded := before + [m.value];
      assert loaded[..|loaded| - 1] == before;
    } else {
      assert before + [] == before;
    }
  }

  lemma {:induction false} LoadedMembership(fs: FileSystem, dirs: seq<Path>, m: ModProject)
    ensures m in Loaded(fs, dirs) <==> exists d :: d in dirs && TryGet(fs, d) == Some(m)
  {
    if dirs != [] {
      var init := dirs[..|dirs| - 1];
      LoadedMembership(fs, init, m);
      assert dirs == init + [dirs[|dirs| - 1]];
      assert forall d :: d in dirs <==> d in init || d == dirs[|dirs| - 1];
    }
  }

  lemma {:induction false} KeptMembership(gameName: string, mods: seq<ModProject>, m: ModProject)
    ensures m in Kept(gameName, mods) <==> m in mods && Keeps(gameName, m)
  {
    if mods != [] {
      var init := mods[..|mods| - 1];
      KeptMembership(gameName, init, m);
      assert mods == init + [mods[|mods| - 1]];
    }
  }

  /**
   * A project is discovered exactly when the dev directory exists and one of its subdirectories
   * loads as that project, and the project is global or scoped to the game (ignoring case).
   */
  lemma DiscoverMembership(fs: FileSystem, devDir: Path, gameName: string, m: ModProject)
    ensures m in Discover(fs, devDir, gameName) <==>
      && DirectoryExists(fs, devDir)
      && (exists d :: d in EnumerateDirectories(fs, devDir) && TryGet(fs, d) == Some(m))
      && Keeps(gameName, m)
  {
    if DirectoryExists(fs, devDir) {
      var dirs := EnumerateDirectories(fs, devDir);
      KeptMembership(gameName, Loaded(fs, dirs), m);
      LoadedMembership(fs, dirs, m);
    }
  }

  /**
   * Every discovered project is a valid one: its descriptor names a csproj, its csproj path is
   * its directory combined with that, and (for a rooted dev directory) its directory is an
   * immediate subdirectory of the dev directory whose leaf is the project's name.
   */
  lemma DiscoveredProjectsAreValid(fs: FileSystem, devDir: Path, gameName: string, m: ModProject)
    requires IsRooted(devDir)
    requires m in Discover(fs, devDir, gameName)
    ensures m.config.modCsprojPath.Some?
    ensures m.csprojPath == Combine(m.solutionDirectory, m.config.modCsprojPath.value)
    ensures IsComponent(m.name) && m.solutionDirectory == Combine(devDir, m.name)
    ensures IsDirectoryAt(fs, m.solutionDirectory)
    ensures IsGlobal(m.config) || EqualsIgnoreCase(gameName, m.config.gameName.value)
  {
    DiscoverMembership(fs, devDir, gameName, m);
    var d :| d in EnumerateDirectories(fs, devDir) && TryGet(fs, d) == Some(m);
    assert Resolve(fs, devDir) == devDir;
    assert IsChild(devDir, d) && IsDirectoryAt(fs, d);
    CombineRooted(devDir, FileName(d));
    TryGetOfDirectory(fs, d);
  }

  /** The game name is compared ignoring case: names equal up to case see the same projects. */
  lemma {:induction false} KeptIgnoresCase(a: string, b: string, mods: seq<ModProject>)
    requires EqualsIgnoreCase(a, b)
    ensures Kept(a, mods) == Kept(b, mods)
  {
    if mods != [] {
      var m := mods[|mods| - 1];
      KeptIgnoresCase(a, b, mods[..|mods| - 1]);
      if !IsGlobal(m.config) {
        EqualsIgnoreCaseIsEquivalence(a, b, m.config.gameName.value);
        EqualsIgnoreCaseIsEquivalence(b, a, m.config.gameName.value);
      }
    }
  }

  lemma DiscoverIgnoresCase(fs: FileSystem, devDir: Path, a: string, b: string)
    requires EqualsIgnoreCase(a, b)
    ensures Discover(fs, devDir, a) == Discover(fs, devDir, b)
  {
    if DirectoryExists(fs, devDir) {
      KeptIgnoresCase(a, b, Loaded(fs, EnumerateDirectories(fs, devDir)));
    }
  }

  /** Each kept project is either global or scoped to the game, never both. */
  lemma {:induction false} KeptCount(gameName: string, mods: seq<ModProject>)
    ensures |Kept(gameName, mods)| == |Globals(mods)| + |ScopedTo(gameName, mods)|
  {
    if mods != [] {
      KeptCount(gameName, mods[..|mods| - 1]);
    }
  }

  /** A game that no project is scoped to sees exactly the global projects, in order. */
  lemma {:induction false} KeptWithoutScoped(gameName: string, mods: seq<ModProject>)
    requires ScopedTo(gameName, mods) == []
    ensures Kept(gameName, mods) == Globals(mods)
  {
    if mods != [] {
      var init := mods[..|mods| - 1];
      assert ScopedTo(gameName, init) == [] by {
        assert |ScopedTo(gameName, mods)| >= |ScopedTo(gameName, init)|;
      }
      KeptWithoutScoped(gameName, init);
    }
  }

  /**
   * With N loadable global projects and M loadable projects scoped to a game, that game
   * discovers N + M projects, and a game no project is scoped to discovers the N global ones.
   */
  lemma DiscoverCount(fs: FileSystem, devDir: Path, gameName: string, other: string)
    requires DirectoryExists(fs, devDir)
    ensures var mods := Loaded(fs, EnumerateDirectories(fs, devDir));
      && |Discover(fs, devDir, gameName)| == |Globals(mods)| + |ScopedTo(gameName, mods)|
      && (ScopedTo(other, mods) == [] ==> Discover(fs, devDir, other) == Globals(mods))
  {
    var mods := Loaded(fs, EnumerateDirectories(fs, devDir));
    KeptCount(gameName, mods);
    if ScopedTo(other, mods) == [] {
      KeptWithoutScoped(other, mods);
    }
  }

  lemma AppendKeepsNoDuplicates<T>(s: seq<T>, x: T)
    requires NoDuplicates(s) && x !in s
    ensures NoDuplicates(s + [x])
  {
  }

  /**
   * Loading distinct rooted directories gives distinct projects, each from one of the
   * directories: a project remembers the directory it was loaded from.
   */
  lemma {:induction false} LoadedNoDuplicates(fs: FileSystem, dirs: seq<Path>)
    requires NoDuplicates(dirs)
    requires forall d :: d in dirs ==> IsRooted(d) && IsDirectoryAt(fs, d)
    ensures NoDuplicates(Loaded(fs, dirs))
    ensures forall m :: m in Loaded(fs, dirs) ==> m.solutionDirectory in dirs
  {
    if dirs != [] {
      var init := dirs[..|dirs| - 1];
      var last := dirs[|dirs| - 1];
      assert forall d :: d in init ==> d in dirs;
      LoadedNoDuplicates(fs, init);
      var before := Loaded(fs, init);
      var m := TryGet(fs, last);
      if m.Some? {
        TryGetOfDirectory(fs, last);
        assert last !in init by {
          forall i | 0 <= i < |init| ensures init[i] != last {
            assert init[i] == dirs[i];
          }
        }
        assert m.value !in before;
        AppendKeepsNoDuplicates(before, m.value);
        assert Loaded(fs, dirs) == before + [m.value];
      } else {
        assert Loaded(fs, dirs) == before + [];
      }
    }
  }

  lemma {:induction false} KeptNoDuplicates(gameName: string, mods: seq<ModProject>)
    requires NoDuplicates(mods)
    ensures NoDuplicates(Kept(gameName, mods))
  {
    if mods != [] {
      var init := mods[..|mods| - 1];
      var last := mods[|mods| - 1];
      KeptNoDuplicates(gameName, init);
      assert last !in init by {
        forall i | 0 <= i < |init| ensures init[i] != last {
          assert init[i] == mods[i];
        }
      }
      if Keeps(gameName, last) {
        AppendKeepsNoDuplicates(Kept(gameName, init), last);
      } else {
        assert Kept(gameName, init) + [] == Kept(gameName, init);
      }
    }
  }

  /** Enumeration lists each directory once, so no project is discovered twice. */
  lemma DiscoverHasNoDuplicates(fs: FileSystem, devDir: Path, gameName: string)
    requires Valid(fs) && IsRooted(devDir)
    ensures NoDuplicates(Discover(fs, devDir, gameName))
  {
    if DirectoryExists(fs, devDir) {
      var dirs := EnumerateDirectories(fs, devDir);
      assert Resolve(fs, devDir) == devDir;
      forall d | d in dirs ensures IsRooted(d) && IsDirectoryAt(fs, d) {
        CombineRooted(devDir, FileName(d));
      }
      LoadedNoDuplicates(fs, dirs);
      KeptNoDuplicates(gameName, Loaded(fs, dirs));
    }
  }
}
