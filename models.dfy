/** The descriptor record `ModConfig`, read off its uses in TweaksLauncher/DevTools.cs. */
module Models {
  import opened Wrappers

  /** Every property is a nullable string in the source. */
  datatype ModConfig = ModConfig(
    gameName: Option<string>,
    defaultBuildConfig: Option<string>,
    modCsprojPath: Option<string>)

  /** A descriptor without a game name (null or empty) belongs to every game. */
  predicate IsGlobal(c: ModConfig)
  {
    c.gameName.None? || c.gameName.value == ""
  }

  /**
   * The game the launcher is working for (`Program.Context`): its name, the directory its mods
   * are loaded from and the directory its proxy assemblies are generated in.
   */
  datatype GameContext = GameContext(gameName: string, modsDirectory: string, proxiesDirectory: string)
}
