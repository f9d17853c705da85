/** Command-line handling of the binary: two positional paths after the program name. */
module CommandLine {
  import opened Wrappers

  datatype Config = Config(dbPath: string, opmlPath: string)

  const NOT_ENOUGH_ARGUMENTS := "Not enough arguments; db path and opml import path expected"

  /** `args[0]` is the program; the database path and the OPML path follow. */
  function ParseConfig(args: seq<string>): (r: Result<Config, string>)
    ensures r.Failure? <==> |args| < 3
    ensures r.Failure? ==> r.error == NOT_ENOUGH_ARGUMENTS
    ensures r.Success? ==> r.value.dbPath == args[1] && r.value.opmlPath == args[2]
  {
    if |args| < 3 then Failure(NOT_ENOUGH_ARGUMENTS)
    else Success(Config(args[1], args[2]))
  }

  /** The program name and every argument after the second path are ignored. */
  lemma ParseConfigIgnoresOthers(args: seq<string>, other: seq<string>)
    requires |args| >= 3 && |other| >= 3
    requires args[1] == other[1] && args[2] == other[2]
    ensures ParseConfig(args) == ParseConfig(other)
  {
  }

  /** Any configuration is recovered from the command line that spells it out. */
  lemma ParseConfigRoundTrip(program: string, config: Config, extra: seq<string>)
    ensures ParseConfig([program, config.dbPath, config.opmlPath] + extra) == Success(config)
  {
  }
}
