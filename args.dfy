/** The command-line options the program is started with. */
module Args {
  import opened Wrappers

  /** How `feh` scales the wallpaper. */
  datatype Modes = Center | Fill | Max | Scale | Tile

  datatype Arguments = Arguments(
    silent: bool,                          // no desktop notification
    mode: Modes,                           // defaults to Fill
    customCommand: Option<seq<string>>,    // shell commands run instead of feh
    backupDir: Option<string>,             // where dated copies are kept
    market: Option<string>,                // requested market, unvalidated
    resolution: Option<string>)            // requested resolution, unvalidated
}
