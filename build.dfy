/** `DevTools.BuildProjectsForCurrentGame` and `ModProject.TryBuild`: the commands a batch build issues. */
module Build {
  import opened Wrappers
  import opened Paths
  import opened Models
  import opened Commands
  import opened ModProjects

  /**
   * Where a project's build output goes: a directory named after the project, directly inside the
   * global mods directory for a global project and inside the game's mods directory otherwise.
   */
  function OutputDirectory(globalModsDirectory: Path, context: GameContext, mod: ModProject): Path
  {
    Combine(if IsGlobal(mod.config) then globalModsDirectory else context.modsDirectory, mod.name)
  }

  /**
   * For a project whose name is one path component, the output directory is named after the
   * project and sits directly inside the mods directory it was combined with.
   */
  lemma OutputDirectoryPlacement(globalModsDirectory: Path, context: GameContext, mod: ModProject)
    requires IsComponent(mod.name)
    ensures FileName(OutputDirectory(globalModsDirectory, context, mod)) == mod.name
    ensures IsGlobal(mod.config) && globalModsDirectory != [] && !EndsWithSep(globalModsDirectory)
      ==> DirectoryName(OutputDirectory(globalModsDirectory, context, mod)) == Some(globalModsDirectory)
    ensures !IsGlobal(mod.config) && context.modsDirectory != [] && !EndsWithSep(context.modsDirectory)
      ==> DirectoryName(OutputDirectory(globalModsDirectory, context, mod)) == Some(context.modsDirectory)
  {
    var modsDirectory := if IsGlobal(mod.config) then globalModsDirectory else context.modsDirectory;
    FileNameOfCombine(modsDirectory, mod.name);
    if modsDirectory != [] && !EndsWithSep(modsDirectory) {
      DirectoryNameOfCombine(modsDirectory, mod.name);
    }
  }

  /** One build command per project, in order. */
  function BuildsFor(globalModsDirectory: Path, context: GameContext, mods: seq<ModProject>): seq<Invocation>
  {
    if mods == [] then []
    else
      var m := mods[|mods| - 1];
      BuildsFor(globalModsDirectory, context, mods[..|mods| - 1])
        + [BuildInvocation(m, OutputDirectory(globalModsDirectory, context, m))]
  }

  /** The commands of one batch: every build, then one silent shutdown when there was any project. */
  function BatchCommands(globalModsDirectory: Path, context: GameContext, mods: seq<ModProject>): (r: seq<Invocation>)
    ensures |r| == |mods| + (if mods == [] then 0 else 1)
    ensures mods != [] ==> r[|r| - 1] == ShutdownCommand
  {
    BuildsForShape(globalModsDirectory, context, mods);
    BuildsFor(globalModsDirectory, context, mods) + (if |mods| != 0 then [ShutdownCommand] else [])
  }

  function CountShutdowns(cmds: seq<Invocation>): nat
  {
    if cmds == [] then 0
    else CountShutdowns(cmds[..|cmds| - 1]) + (if cmds[|cmds| - 1] == ShutdownCommand then 1 else 0)
  }

  lemma BuildsForStep(globalModsDirectory: Path, context: GameContext, mods: seq<ModProject>, i: nat)
    requires i < |mods|
    ensures BuildsFor(globalModsDirectory, context, mods[..i + 1])
      == BuildsFor(globalModsDirectory, context, mods[..i])
         + [BuildInvocation(mods[i], OutputDirectory(globalModsDirectory, context, mods[i]))]
  {
    assert mods[..i + 1][..i] == mods[..i];
  }

  lemma {:induction false} BuildsForShape(globalModsDirectory: Path, context: GameContext, mods: seq<ModProject>)
    ensures var cmds := BuildsFor(globalModsDirectory, context, mods);
      && |cmds| == |mods|
      && forall i :: 0 <= i < |mods| ==>
           cmds[i] == BuildInvocation(mods[i], OutputDirectory(globalModsDirectory, context, mods[i]))
  {
    if mods != [] {
      BuildsForShape(globalModsDirectory, context, mods[..|mods| - 1]);
    }
  }

  lemma {:induction false} BuildsHaveNoShutdown(globalModsDirectory: Path, context: GameContext, mods: seq<ModProject>)
    ensures CountShutdowns(BuildsFor(globalModsDirectory, context, mods)) == 0
  {
    if mods != [] {
      var init := mods[..|mods| - 1];
      BuildsHaveNoShutdown(globalModsDirectory, context, init);
      var cmds := BuildsFor(globalModsDirectory, context, mods);
      assert cmds[..|cmds| - 1] == BuildsFor(globalModsDirectory, context, init);
    }
  }

  /**
   * A batch issues exactly one build per project, in discovery order, each
   * `build <csproj> -v q -c <configuration or Debug> -o <output directory>` with its output shown;
   * the silent `build-server shutdown` comes once, last, and only after a non-empty batch.
   */
  lemma BatchShape(globalModsDirectory: Path, context: GameContext, mods: seq<ModProject>)
    ensures var cmds := BatchCommands(globalModsDirectory, context, mods);
      && |cmds| == |mods| + (if mods == [] then 0 else 1)
      && (forall i :: 0 <= i < |mods| ==>
            && !cmds[i].silent
            && cmds[i].args == ["build", mods[i].csprojPath, "-v", "q", "-c",
                                BuildConfiguration(mods[i].config), "-o",
                                OutputDirectory(globalModsDirectory, context, mods[i])])
      && (mods != [] ==> cmds[|cmds| - 1] == Invocation(true, ["build-server", "shutdown"]))
      && CountShutdowns(cmds) == (if mods == [] then 0 else 1)
  {
    BuildsForShape(globalModsDirectory, context, mods);
    BuildsHaveNoShutdown(globalModsDirectory, context, mods);
    var cmds := BatchCommands(globalModsDirectory, context, mods);
    if mods != [] {
      assert cmds[..|cmds| - 1] == BuildsFor(globalModsDirectory, context, mods);
    } else {
      assert cmds == [];
    }
  }
}
