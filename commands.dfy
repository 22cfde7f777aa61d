/** The `dotnet` command lines the dev tools issue, each with whether its output is shown. */
module Commands {
  import opened Paths

  /** One call of `Dotnet(silent, arguments)`. */
  datatype Invocation = Invocation(silent: bool, args: seq<string>)

  /** `dotnet build <csproj> -v q -c <configuration> -o <outputDir>`, output shown. */
  function BuildCommand(csproj: Path, configuration: string, outputDir: Path): Invocation
  {
    Invocation(false, ["build", csproj, "-v", "q", "-c", configuration, "-o", outputDir])
  }

  /** `dotnet build-server shutdown`, silent. */
  const ShutdownCommand: Invocation := Invocation(true, ["build-server", "shutdown"])

  /** `dotnet new sln -o <dir>`, output shown. */
  function NewSolutionCommand(dir: Path): Invocation
  {
    Invocation(false, ["new", "sln", "-o", dir])
  }

  /** `dotnet sln <solution> add <csproj>`, output shown. */
  function AddToSolutionCommand(solution: Path, csproj: Path): Invocation
  {
    Invocation(false, ["sln", solution, "add", csproj])
  }
}
