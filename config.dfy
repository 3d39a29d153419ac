/**
 * The tracked-repository descriptor as it stands once the JSON document has
 * been decoded (`ConfigFile` as `watch_config_repo` destructures it).
 */
module Config {
  import opened Wrappers

  /** One deploy step: copy `from` (inside the clone) to `to`. */
  datatype FromTo = FromTo(from: string, to: string)

  datatype ConfigFile = ConfigFile(
    repo: string,                             // git remote locator
    build: seq<string>,                       // build commands, run in declared order
    mouve: seq<FromTo>,                       // deploy steps, run in declared order
    version: Option<string>,                  // last version token seen, absent = never synced
    branch: Option<string>,                   // tracked branch, absent = "main"
    entryPoint: Option<seq<Option<string>>>   // one entry per deployed application
  )
}
