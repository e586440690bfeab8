# Bismuth: the daily wallpaper run, modelled in Dafny

Bismuth downloads the image of the day from Bing's image archive and sets
it as the desktop wallpaper. Each run reads the metadata cache
(`.wallpaper.json`). It stops at once when the cached record is still
current and was fetched with the same `--resolution` and `--market`
options. Otherwise it asks the archive API for today's record, stamps the
record with the run's options and writes it back to the cache. It then
saves the image, either under a dated name in a backup directory or as the
fixed file `.wallpaper.jpg`. An image that is already on disk is kept. Only
when a new file was written does the run start the custom commands (every
`%` replaced by the image path) or `feh` with the mode flag, and show a
notification unless `--silent` is given.

The project has these modules:

- `Wrappers` (wrappers.dfy): Rust's `Option` and `Result`.
- `Text` (text.dfy): the standard-library string and path operations the
  code relies on. These are `starts_with`, `replace` (left to right,
  non-overlapping), `rsplit_once`, the last `/`-segment and Unix
  `PathBuf::push`.
- `Args` (args.dfy): the command-line options and the `Modes` enum, as plain
  data.
- `Naming` (naming.dfy): the allow-lists, the file name
  (`get_save_filename`), the download and API addresses, and the `feh`
  flag (`mode`). It also holds the lemmas about them.
- `Pipeline` (pipeline.dfy): one run as a pure function from a `Machine` to
  an outcome and the next `Machine`. A `Machine` holds the cache slot, the
  regular files at image paths (the cache file is the separate cache
  slot), the API and image requests made, the files
  created, the processes spawned and the notifications shown. The outside
  world is an `Env` parameter.
- `PipelineProperties` (pipeline_properties.dfy): the lemmas about runs.
- `Host` (host.dfy): class `Desktop`, whose fields are the machine.
  `Run`, `SaveImage` and `PostActions` perform the run step by step: they
  reassign the fields, and `PostActions` spawns the commands in a loop.
  Each method is proved to leave `State()` equal to the matching
  `Pipeline` function applied to `old(State())`.

Time is counted in whole minutes. The comparison `now < start + 24h`
(src/main.rs:195-203) has a whole-minute right-hand side, so truncating
`now` to minutes does not change its result.

Behaviour of the program that is easy to miss, and that the model keeps:

- An unparsable `fullstartdate` in the cache ends the run with an error
  (`?` at src/main.rs:189). It is not treated as a cache miss
  (`UnparsableStartIsFatal`).
- Saving the cache record fails the run only when the base directories
  are missing or `.wallpaper.json` cannot be created (`?` at
  src/main.rs:259). `write_all` on the tokio file (src/main.rs:360) only
  hands the bytes to a background write that nothing flushes. A failure of
  that write is never reported, and the run goes on with an unreadable
  cache.
- An empty or absent image list panics through `unwrap`
  (src/main.rs:252-253). This happens before the cache is written
  (`MissingImagesPanicBeforePersist`).
- The image request is made before the existence check, so saving an image
  that is already there still issues a request (`SaveImageTwice`).
- The image is always downloaded at `UHD` (src/main.rs:301). The file name
  uses the requested resolution, which is not validated
  (`ImageRequestedAtDefaultResolution`, `SaveFilenameSlashes`).
- The cache is written before the download. After a download that fails,
  when the record was stored,
  a rerun with the same options inside the 24-hour window is a cache hit,
  so the download is not retried until the record expires
  (`RerunAfterDownloadAttemptIsUpToDate`).
- Without a backup directory the path is always the same default file.
  Once that file exists, no later run replaces it or runs post-actions
  (`DefaultWallpaperSticks`).
- The custom commands are spawned one at a time. When one fails to spawn,
  the run fails and the commands before it stay started
  (`SpawnFailureKeepsEarlierCommands`).

## Model

| member | source | states |
|---|---|---|
| `Text.Replace` | src/main.rs:124 | the left-to-right `str::replace`; a string without the pattern is returned unchanged, and every character of the result comes from the input or the replacement (what a match becomes is `ReplaceFirstMatch`) |
| `Text.ReplaceFirstMatch` | src/main.rs:124 | the first occurrence of the pattern becomes the replacement: for `a + pat + b` where no occurrence starts inside `a`, the result is `a`, the replacement, then `b` replaced the same way |
| `Text.ReplaceClearsDoubleDot` | src/main.rs:124 | after `replace("..", "_")` no `..` is left |
| `Text.ReplaceCharRemovesAll` | src/main.rs:270-272 | replacing a character (`%`, `~`) by text free of it leaves none behind |
| `Text.RSplitOnce` | src/main.rs:121 | `rsplit_once('/')` fails exactly when there is no `/`; otherwise the string is head + `/` + tail, and tail is the last segment |
| `Text.LastSegment` | src/main.rs:121 | the text after the last `/` is a suffix without `/`, preceded by a `/` when shorter than the string |
| `Text.PathPush` | src/main.rs:313-326 | `PathBuf::push`: an absolute name replaces the base; otherwise the result is the base and the name joined by at most one inserted `/`, so it starts with the base and ends with the name |
| `Text.PathPushLastSegment` | src/main.rs:318-319 | a pushed file name without `/` is the last segment of the path |
| `Naming.OrDefault` | src/main.rs:142-150 | an allow-listed value: always a member of the list; equal to the input exactly when the input is listed, otherwise the default |
| `Naming.CleanSegment` | src/main.rs:122-124 | the segment after the marker has no `..` and no `/` the segment did not have |
| `Naming.SaveFilename` | src/main.rs:118-139 | succeeds iff `urlbase` has a `/` and its last segment starts with `th?id=OHR.`; the name is `startdate-cleaned_res.jpg` with `res` the requested resolution or `UHD`; the error names `urlbase` |
| `Naming.SaveFilenameBySegment` | src/main.rs:121-132 | for `urlbase` = head + `/` + segment (segment without `/`): a name exists iff the segment starts with the marker, and it is built from the segment with `..` replaced |
| `Naming.SaveFilenameNeedsSlash` | src/main.rs:135-138 | a `urlbase` without `/` is an error naming it |
| `Naming.SaveFilenameSlashes` | src/main.rs:125-132 | a file name holds a `/` exactly when the start date or the requested resolution does |
| `Naming.SaveFilenameDeterministic` | src/main.rs:118-132 | the name depends only on `startdate`, `urlbase` and `resolution` |
| `Naming.SaveFilenamePlainName` | src/main.rs:119-132 | `urlbase` `/th?id=OHR.<name>` with a name free of `.` and `/` gives `<startdate>-<name>_<res>.jpg` (so `ViesteItaly_EN-US0948108910`, `20231013`, `1920x1080` give `20231013-ViesteItaly_EN-US0948108910_1920x1080.jpg`) |
| `Naming.CleanSegmentReplacesDots` | src/main.rs:122-124 | for a segment marker + `x` + `..` + `y` with `x` free of `.`, the cleaned text is `x` + `_` + `y` with its own `..` replaced |
| `Naming.ReplaceWithoutDots` | src/main.rs:124 | text without `.` is unchanged by `replace("..", "_")` |
| `Naming.DownloadUrl` | src/main.rs:141-152 | the image address is `https://bing.com` + `urlbase` + `_` + r + `.jpg` with r always a listed resolution |
| `Naming.DownloadUrlFallback` | src/main.rs:142-151 | a listed resolution is used as given; any other gives the same address as `UHD` |
| `Naming.DownloadUrlInjective` | src/main.rs:151 | two listed resolutions give the same address only if they are equal |
| `Naming.ValidMarket` | src/main.rs:156-164 | the market sent: always a listed one, the given one when listed, `en-US` otherwise |
| `Naming.ApiUrl` | src/main.rs:155-169 | the API address is the fixed endpoint followed by a listed market |
| `Naming.ApiUrlFallback` | src/main.rs:156-164 | a listed market appears as given; an unlisted one asks exactly what `en-US` asks |
| `Naming.ApiUrlSameIff` | src/main.rs:155-169 | two markets give the same address iff they validate to the same market |
| `Naming.RequestedApiUrl` | src/main.rs:224-229 | the address a run asks: the endpoint followed by the requested market when it is set and listed, and by `en-US` otherwise (an unset market is `en-US` before validation) |
| `Naming.UnsetMarketIsDefault` | src/main.rs:224-229 | an unset market asks the `en-US` address |
| `Naming.FehFlag` | src/main.rs:399-407 | every mode maps to a `--bg-` flag |
| `Naming.FehFlagInjective` | src/main.rs:399-407 | different modes give different flags |
| `Pipeline.StillFresh` | src/main.rs:195-210 | a cached record serves exactly when `now < start + 24h` and stamping it with this run's options changes nothing, so it was fetched with the same resolution and market; both directions are in `UpToDateExactlyWhenFresh` |
| `Pipeline.ReadCache` | src/main.rs:365-381 | `get_cached_api_data`: a record reads back exactly when the base directories exist and the cache file holds a readable record, and it is that record |
| `Pipeline.CheckCache` | src/main.rs:180-222 | no record: fetch; a start date that does not parse: error, whatever the options; reuse exactly when the parsed record is still fresh |
| `Pipeline.Stamp` | src/main.rs:257-258 | the stored record carries the run's resolution and market, stamping again changes nothing, and restoring the two fields gives back the fetched image |
| `Pipeline.Persist` | src/main.rs:349-363 | `save_cached_api_data` touches only the cache slot; it fails, changing nothing, exactly when the base directories are missing or the file cannot be created; otherwise the run goes on, and the cache holds the image, or reads back as unreadable when the unflushed background write failed unseen |
| `Pipeline.SavePath` | src/main.rs:305-327 | the path fails exactly when a backup directory is given and the home directory is not UTF-8 or the file name cannot be built; otherwise it ends with the file name, or it is `.wallpaper.jpg` under the local data directory (more in `SavePathShape`) |
| `Pipeline.SaveImage` | src/main.rs:298-347 | `save_image` touches only the files, the created list and the image requests; it asks for the `UHD` image exactly when the base directories exist; it never removes a file and creates at most one; a reported path is new and created; "no new file" changes no file (more in `SaveImageSkipsExisting`, `SaveImageTwice`) |
| `Pipeline.NotificationFor` | src/main.rs:286-292 | the notification has the application name `Bismuth` as summary, a body of `Wallpaper successfully Set.` and `Title: ` followed by the image title, the `image-jpeg` icon, and the saved image's path |
| `Pipeline.Launched` | src/main.rs:269-284 | the processes post-actions start: one per custom command, or the single `feh` process |
| `Pipeline.PostActions` | src/main.rs:267-293 | post-actions touch only the spawned processes and notifications; what they started is always a prefix of `Launched`, all of it on success; after a failed shell spawn the model's failure label is the first command not started (the program's `io::Error` does not carry the command); a notification is shown only on success, and then exactly one unless silent |
| `Pipeline.Notify` | src/main.rs:286-293 | the notification touches only the shown list; the run succeeds exactly when silent or the notification can be shown, and then one notification is shown unless silent: `NotificationFor` of the image and the saved path |
| `Pipeline.Fetch` | src/main.rs:224-261 | past the cache check the run asks the API exactly once, for `RequestedApiUrl`, never reports "up to date", asks the image at most once and never removes a file |
| `Pipeline.Download` | src/main.rs:261-293 | saving and post-actions leave the cache and API requests alone and ask for the `UHD` image exactly when the base directories exist, and never remove a file |
| `Pipeline.Run` | src/main.rs:171-296 | `main`: reusing the cache leaves the machine as it was; a run asks the API at most once and the image at most once, and never removes a file; the cache-hit condition is `UpToDateExactlyWhenFresh` |
| `PipelineProperties.UpToDateExactlyWhenFresh` | src/main.rs:180-222 | the run stops with nothing done exactly when the cache reads, its start parses, `now < start + 24h` and both options equal the cached ones as `Option`s |
| `PipelineProperties.PersistedRecordReadsBack` | src/main.rs:349-381 | a cache write that completed is what the next read returns; one that failed unseen reads back as nothing |
| `PipelineProperties.UnreadableCacheFetches` | src/main.rs:180-229 | a cache that cannot be read always leads to one API request, for the requested market or `en-US` |
| `PipelineProperties.UnparsableStartIsFatal` | src/main.rs:187-189 | an unparsable cached start date ends the run with an error and fetches nothing |
| `PipelineProperties.MissingImagesPanicBeforePersist` | src/main.rs:252-259 | an absent or empty image list panics after the API request and before the cache write |
| `PipelineProperties.CacheWrittenBeforeDownload` | src/main.rs:252-261 | any run that requested the image or ended with the file in place got past creating the cache file; the cache then holds the first image, stamped with the run's resolution and market, or is unreadable when the unreported write failed |
| `PipelineProperties.RerunAfterDownloadAttemptIsUpToDate` | src/main.rs:203-259 | after such a run, rerunning with the same options before the record's start + 24h does nothing, even if the download failed |
| `PipelineProperties.ImageRequestedAtDefaultResolution` | src/main.rs:301-303 | a run makes at most one image request, for the `UHD` address, and creates a file only after it |
| `PipelineProperties.SaveImageSkipsExisting` | src/main.rs:331-346 | `save_image` reports no new file exactly when the resolved path is already a file, and writes nothing then; otherwise it reports the path it created, or fails |
| `PipelineProperties.SaveImageTwice` | src/main.rs:301-336 | saving the same image again requests it again, creates nothing and reports no new file, or fails if the server is unreachable |
| `PipelineProperties.SavePathShape` | src/main.rs:305-327 | the path is the backup directory with `~` expanded, pushed with the file name, which is its last segment when the name has no `/`; without a backup directory it is `data_local_dir/.wallpaper.jpg`; home and file-name errors are reported |
| `PipelineProperties.AbsoluteFileNameLeavesBackupDir` | src/main.rs:125-132 | a start date beginning with `/` gives an absolute file name, and the image path is then that bare name, outside the backup directory |
| `PipelineProperties.DefaultWallpaperSticks` | src/main.rs:321-336 | without a backup directory, once the default file exists no run replaces it or runs post-actions |
| `PipelineProperties.SubstitutedPlaceholders` | src/main.rs:270-272 | each command gets every `%` replaced by the path: text before the first `%` is kept, that `%` becomes the path, and the rest is substituted the same way; a command without `%` is kept, and with a `%`-free path no `%` is left |
| `PipelineProperties.NotificationNamesTitleAndPath` | src/main.rs:286-292 | two notifications are equal exactly when the image titles and the paths are |
| `PipelineProperties.PostActionsOnlyAfterNewFile` | src/main.rs:261-293 | post-actions follow a newly created file only; on success the commands were spawned in list order (or `feh` with the mode flag), plus one notification unless silent |
| `PipelineProperties.SpawnFailureKeepsEarlierCommands` | src/main.rs:278-281 | when custom command k cannot be spawned, the run fails, commands 1..k-1 stay started and nothing is shown; the model's failure label is command k with `%` substituted, which the program's `io::Error` does not carry |
| `Host.Desktop.Run` | src/main.rs:171-296 | the imperative run leaves the machine as `Pipeline.Run` of the old one |
| `Host.Desktop.SaveImage` | src/main.rs:298-347 | the imperative `save_image` leaves the machine and result as `Pipeline.SaveImage` says |
| `Host.Desktop.PostActions` | src/main.rs:267-293 | spawns the commands one by one in a loop and stops at the first that fails, then notifies, as `Pipeline.PostActions` says |

## Left out

- HTTP through reqwest, the streamed copy of the body and the async
  runtime. The network's answers are `Env` fields. A download is the path
  joining the file set. A copy that fails after the file was created leaves
  the file in place, which the model records.
- JSON encoding and decoding of the response and of the cache file. The
  cache is an optional record: `None` means missing or unreadable. A cache
  write that fails after creating the file leaves an unreadable cache, and
  the run is not told.
- chrono's parsing of `%Y%m%d%H%M` and the local-time conversion are a
  parameter, `parseStart`. It gives minutes on the same absolute timeline
  as `now`, or `None`, so the 24 hours are real hours even across a
  daylight-saving change. The panic of
  `from_local_datetime(...).unwrap()` on a nonexistent or ambiguous local
  time (a daylight-saving change) is not modelled.
- `create_dir_all` for the backup directory is assumed to succeed. A path
  that exists as a directory counts as absent; the `File::create` that then
  fails is the `CreateFails` case.
- The `println!`/log warnings for unlisted resolutions and markets, and
  env_logger. The unused `actual_date` is left out too.
- Spawning `sh` and `feh` and showing the notification: the model records
  what would be started or shown. `Env.shellStarts` counts how many `sh`
  spawns succeed before one fails. Two flags say whether `feh` starts and
  whether the notification can be shown. Exit status is never observed, as
  in the program.
- The `ImageObject` fields the core never reads (`url`, `copyright`,
  `copyrightlink`, `quiz`, `wp`, `hsh`, `drk`, `top`, `bot`, `hs`,
  `file_hash`) are not modelled.
- src/errors.rs is not part of this model, so the error variants carry
  names of their own. The payloads of `ShellSpawn`, `FileCreate` and
  `FileCopy` (the command or path) are the model's labels. The program's
  `io::Error` values from src/main.rs:280, 338 and 344 do not carry them. Cargo.toml is not part of it either, so the
  notification summary assumes the package name `bismuth`.
- Paths are strings. `to_string_lossy` and `to_str().unwrap()` on the
  destination never fail here.
- Two runs at the same time on the same cache or file are not modelled.
