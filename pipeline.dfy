/**
 * One run of the program as a function of the machine it runs on: the
 * metadata cache slot, the files on disk, and what was asked of the
 * network, spawned or shown. The environment (clock, date parsing, base
 * directories, network replies, whether file writes and process spawns
 * succeed) is a parameter.
 */
module Pipeline {
  import opened Wrappers
  import opened Text
  import opened Args
  import opened Naming

  const MinutesPerDay: int := 24 * 60
  /** Pascal-cased package name used as notification summary. */
  const AppName: string := "Bismuth"
  const Icon: string := "image-jpeg"
  /** File name of the wallpaper when no backup directory is given. */
  const DefaultWallpaper: string := ".wallpaper.jpg"

  /** A process started and not waited for. */
  datatype Process = Process(program: string, argv: seq<string>)

  datatype Notification = Notification(summary: string, body: string, icon: string, imagePath: string)

  /** What the outside world holds between and during runs. */
  datatype Machine = Machine(
    cache: Option<ImageObject>,    // `.wallpaper.json` as it reads back; None: missing or unreadable
    files: set<string>,            // regular files at image paths; the cache file is the `cache` slot
    apiRequests: seq<string>,      // archive API addresses requested, in order
    imageRequests: seq<string>,    // image addresses requested, in order
    created: seq<string>,          // image files created, in order
    spawned: seq<Process>,
    shown: seq<Notification>)

  /** `BaseDirs`: the home directory (None when not valid UTF-8) and the local data directory. */
  datatype Dirs = Dirs(home: Option<string>, dataLocalDir: string)

  /** The decoded API response: its optional list of images. */
  datatype Response = Response(images: Option<seq<ImageObject>>)

  /** What the archive API request yields; `Body(None)`: a body that is not a response. */
  datatype ApiReply = SendFails | TextFails | Body(response: Option<Response>)

  /** How creating a file and writing it goes. */
  datatype FileWrite = CreateFails | WriteFails | Completes

  datatype Env = Env(
    now: int,                               // the current instant, in minutes on one absolute timeline
    parseStart: string -> Option<int>,      // `fullstartdate` read as local time and converted to that timeline; None if unparsable
    dirs: Option<Dirs>,                     // None: `BaseDirs::new()` fails
    api: ApiReply,
    imageReachable: bool,                   // the image request succeeds
    cacheWrite: FileWrite,                  // WriteFails: the deferred write of the record fails unseen
    imageWrite: FileWrite,
    shellStarts: nat,                       // how many `sh` spawns succeed before one fails
    fehStarts: bool,                        // `feh` can be spawned
    notifies: bool)                         // the notification can be shown

  datatype RunError =
    | StartDateUnparsable(fullstartdate: string)
    | ApiSend(url: string)
    | ApiText(url: string)
    | ResponseUnparsable
    | NoBaseDirs
    | CacheCreate
    | ImageRequest(url: string)
    | HomeNotUtf8
    | BadUrlbase(message: string)
    | FileCreate(path: string)
    | FileCopy(path: string)
    | ShellSpawn(command: string)
    | FehSpawn
    | NotificationFailed

  datatype Outcome =
    | UpToDate            // the cached record still serves: nothing done
    | AlreadyOnDisk       // fetched, but the image file exists already
    | Applied(path: string)
    | Failed(error: RunError)
    | Panicked            // `unwrap` on a missing or empty image list

  datatype RunResult = RunResult(outcome: Outcome, state: Machine)

  /** A step that may fail, with the machine after it. */
  datatype Step = Step(state: Machine, error: Option<RunError>)

  /** What `save_image` reports, with the machine after it. */
  datatype Saved = Saved(state: Machine, result: Result<Option<string>, RunError>)

  // ---------------------------------------------------------------------
  // Cache check

  /**
   * A cached record still serves when its day has not passed and it is
   * already what this run would store: stamping it with the run's options
   * changes nothing.
   */
  predicate StillFresh(cached: ImageObject, start: int, args: Arguments, now: int)
    ensures StillFresh(cached, start, args, now) <==> now < start + MinutesPerDay && Stamp(cached, args) == cached
  {
    now < start + MinutesPerDay && args.resolution == cached.resolution && args.market == cached.market
  }

  /** Reading the metadata cache fails without base directories or without a readable record. */
  function ReadCache(m: Machine, env: Env): (cached: Option<ImageObject>)
    ensures cached.Some? <==> env.dirs.Some? && m.cache.Some?
    ensures cached.Some? ==> cached == m.cache
  {
    if env.dirs.None? then None else m.cache
  }

  datatype CacheVerdict = Reuse | Refetch | StartUnparsable(fullstartdate: string)

  /**
   * The cache check of `main`: a missing record means fetching, a start
   * date that does not parse is an error whatever the options, and a
   * parsed record is reused exactly when it is still fresh.
   */
  function CheckCache(cached: Option<ImageObject>, args: Arguments, env: Env): (verdict: CacheVerdict)
    ensures cached.None? ==> verdict == Refetch
    ensures verdict.StartUnparsable? <==> cached.Some? && env.parseStart(cached.value.fullstartdate).None?
    ensures verdict.StartUnparsable? ==> verdict.fullstartdate == cached.value.fullstartdate
    ensures verdict == Reuse ==> cached.Some? && Stamp(cached.value, args) == cached.value
    ensures verdict == Reuse <==>
      cached.Some? && env.parseStart(cached.value.fullstartdate).Some? &&
      env.now < env.parseStart(cached.value.fullstartdate).value + MinutesPerDay &&
      Stamp(cached.value, args) == cached.value
  {
    match cached
    case None => Refetch
    case Some(image) =>
      match env.parseStart(image.fullstartdate)
      case None => StartUnparsable(image.fullstartdate)
      case Some(start) => if StillFresh(image, start, args, env.now) then Reuse else Refetch
  }

  // ---------------------------------------------------------------------
  // Persisting the fetched record

  /** The fetched record, stamped with the options of this run. */
  function Stamp(image: ImageObject, args: Arguments): (stamped: ImageObject)
    ensures stamped.resolution == args.resolution && stamped.market == args.market
    ensures stamped.(resolution := args.resolution, market := args.market) == stamped
    ensures stamped.(resolution := image.resolution, market := image.market) == image
  {
    image.(resolution := args.resolution, market := args.market)
  }

  /**
   * `save_cached_api_data`: only missing base directories and a failed
   * `File::create` are reported. `write_all` on a tokio file hands the
   * bytes to a background write that nothing flushes, so a failure there
   * is dropped: the run carries on with an unreadable cache.
   */
  function Persist(m: Machine, image: ImageObject, env: Env): (step: Step)
    ensures step.state == m.(cache := step.state.cache)
    ensures step.error.None? <==> env.dirs.Some? && env.cacheWrite != CreateFails
    ensures step.error.Some? ==> step.state == m
    ensures step.error.None? && env.cacheWrite == Completes ==> step.state.cache == Some(image)
    ensures step.error.None? && env.cacheWrite == WriteFails ==> step.state.cache == None
  {
    if env.dirs.None? then Step(m, Some(NoBaseDirs))
    else match env.cacheWrite
      case CreateFails => Step(m, Some(CacheCreate))
      case WriteFails => Step(m.(cache := None), None)
      case Completes => Step(m.(cache := Some(image)), None)
  }

  // ---------------------------------------------------------------------
  // Saving the image

  /** Where the image goes: the backup directory with `~` expanded, or the fixed default file. */
  function SavePath(image: ImageObject, backupDir: Option<string>, dirs: Dirs): (path: Result<string, RunError>)
    ensures path.Err? <==> backupDir.Some? && (dirs.home.None? || SaveFilename(image).Err?)
    ensures path.Ok? && backupDir.None? ==> EndsWith(path.value, DefaultWallpaper) && StartsWith(path.value, dirs.dataLocalDir)
    ensures path.Ok? && backupDir.Some? ==> EndsWith(path.value, SaveFilename(image).value)
  {
    match backupDir
    case None =>
      assert DefaultWallpaper[..1] == ".";
      Ok(PathPush(dirs.dataLocalDir, DefaultWallpaper))
    case Some(dir) =>
      match dirs.home
      case None => Err(HomeNotUtf8)
      case Some(home) =>
        match SaveFilename(image)
        case Err(message) => Err(BadUrlbase(message))
        case Ok(name) => Ok(PathPush(Replace(dir, "~", home), name))
  }

  function CreateFile(m: Machine, path: string): Machine {
    m.(files := m.files + {path}, created := m.created + [path])
  }

  /**
   * `save_image`: the image is requested at the default resolution before
   * anything else; an existing regular file at the path is kept.
   */
  function SaveImage(m: Machine, image: ImageObject, backupDir: Option<string>, env: Env): (saved: Saved)
    ensures saved.state == m.(files := saved.state.files, created := saved.state.created, imageRequests := saved.state.imageRequests)
    ensures env.dirs.None? ==> saved.state == m
    ensures env.dirs.Some? ==> saved.state.imageRequests == m.imageRequests + [DownloadUrl(image, DefaultResolution)]
    ensures m.files <= saved.state.files && |saved.state.created| <= |m.created| + 1
    ensures saved.result.Ok? && saved.result.value.Some? ==>
      && saved.result.value.value !in m.files
      && saved.state.files == m.files + {saved.result.value.value}
      && saved.state.created == m.created + [saved.result.value.value]
    ensures saved.result == Ok(None) ==> saved.state.files == m.files && saved.state.created == m.created
  {
    match env.dirs
    case None => Saved(m, Err(NoBaseDirs))
    case Some(dirs) =>
      var url := DownloadUrl(image, DefaultResolution);
      var m1 := m.(imageRequests := m.imageRequests + [url]);
      if !env.imageReachable then Saved(m1, Err(ImageRequest(url)))
      else match SavePath(image, backupDir, dirs)
        case Err(e) => Saved(m1, Err(e))
        case Ok(path) =>
          if path in m1.files then Saved(m1, Ok(None))
          else match env.imageWrite
            case CreateFails => Saved(m1, Err(FileCreate(path)))
            case WriteFails => Saved(CreateFile(m1, path), Err(FileCopy(path)))
            case Completes => Saved(CreateFile(m1, path), Ok(Some(path)))
  }

  // ---------------------------------------------------------------------
  // Post-actions

  /** Every custom command with each `%` replaced by the image path. */
  function Substituted(commands: seq<string>, path: string): seq<string> {
    seq(|commands|, i requires 0 <= i < |commands| => Replace(commands[i], "%", path))
  }

  function Shell(command: string): Process {
    Process("sh", ["-c", command])
  }

  function ShellProcesses(commands: seq<string>): seq<Process> {
    seq(|commands|, i requires 0 <= i < |commands| => Shell(commands[i]))
  }

  function Feh(mode: Modes, path: string): Process {
    Process("feh", [FehFlag(mode), path])
  }

  /** The fixed text the notification body opens with, before the title. */
  const NotificationLead: string := "Wallpaper successfully Set.\nTitle: "

  /**
   * The notification for a newly set image: the application name as
   * summary, a body naming the image's title, the fixed icon, and the
   * image file itself.
   */
  function NotificationFor(image: ImageObject, path: string): (n: Notification)
    ensures n.summary == AppName && n.icon == Icon && n.imagePath == path
    ensures StartsWith(n.body, NotificationLead) && n.body[|NotificationLead|..] == image.title
  {
    Notification(AppName, NotificationLead + image.title, Icon, path)
  }

  /** The processes post-actions start for an image at `path`, in order. */
  function Launched(args: Arguments, path: string): (processes: seq<Process>)
    ensures args.customCommand.Some? ==> |processes| == |args.customCommand.value|
    ensures args.customCommand.None? ==> processes == [Feh(args.mode, path)]
  {
    match args.customCommand
    case Some(commands) => ShellProcesses(Substituted(commands, path))
    case None => [Feh(args.mode, path)]
  }

  /**
   * The custom commands in order, or `feh`; then the notification unless
   * silent. A spawn that fails ends the run with the processes started
   * before it left running: what was started is always a prefix of
   * `Launched`, and all of it on success.
   */
  function PostActions(m: Machine, args: Arguments, image: ImageObject, path: string, env: Env): (r: RunResult)
    ensures r.state == m.(spawned := r.state.spawned, shown := r.state.shown)
    ensures r.outcome.Applied? || r.outcome.Failed?
    ensures |m.spawned| <= |r.state.spawned| <= |m.spawned| + |Launched(args, path)|
    ensures r.state.spawned == m.spawned + Launched(args, path)[..|r.state.spawned| - |m.spawned|]
    ensures r.state.shown != m.shown ==> r.outcome.Applied?
    ensures r.outcome.Applied? ==>
      && r.outcome.path == path
      && r.state.spawned == m.spawned + Launched(args, path)
      && r.state.shown == m.shown + (if args.silent then [] else [NotificationFor(image, path)])
    ensures r.outcome.Failed? && r.outcome.error.ShellSpawn? ==>
      && |r.state.spawned| - |m.spawned| < |Launched(args, path)|
      && Launched(args, path)[|r.state.spawned| - |m.spawned|] == Shell(r.outcome.error.command)
  {
    match args.customCommand
    case Some(commands) =>
      var all := Substituted(commands, path);
      if env.shellStarts < |commands| then
        var k := env.shellStarts;
        assert ShellProcesses(all)[..k] == ShellProcesses(all[..k]);
        RunResult(Failed(ShellSpawn(all[k])), m.(spawned := m.spawned + ShellProcesses(all[..k])))
      else
        assert ShellProcesses(all)[..|commands|] == ShellProcesses(all);
        Notify(m.(spawned := m.spawned + ShellProcesses(all)), args, image, path, env)
    case None =>
      if !env.fehStarts then RunResult(Failed(FehSpawn), m)
      else Notify(m.(spawned := m.spawned + [Feh(args.mode, path)]), args, image, path, env)
  }

  /** The notification, unless silent; failing to show it fails the run. */
  function Notify(m: Machine, args: Arguments, image: ImageObject, path: string, env: Env): (r: RunResult)
    ensures r.state == m.(shown := r.state.shown)
    ensures r.outcome.Applied? <==> args.silent || env.notifies
    ensures r.outcome.Applied? ==> r.outcome == Applied(path)
    ensures r.state.shown == m.shown + (if r.outcome.Applied? && !args.silent then [NotificationFor(image, path)] else [])
  {
    if args.silent then RunResult(Applied(path), m)
    else if !env.notifies then RunResult(Failed(NotificationFailed), m)
    else RunResult(Applied(path), m.(shown := m.shown + [NotificationFor(image, path)]))
  }

  // ---------------------------------------------------------------------
  // The run

  /** After the cache check: fetch, stamp and persist, save, post-actions. */
  function Fetch(m: Machine, args: Arguments, env: Env): (r: RunResult)
    ensures r.outcome != UpToDate
    ensures r.state.apiRequests == m.apiRequests + [RequestedApiUrl(args.market)]
    ensures m.files <= r.state.files && |r.state.imageRequests| <= |m.imageRequests| + 1
  {
    var url := RequestedApiUrl(args.market);
    var m1 := m.(apiRequests := m.apiRequests + [url]);
    match env.api
    case SendFails => RunResult(Failed(ApiSend(url)), m1)
    case TextFails => RunResult(Failed(ApiText(url)), m1)
    case Body(None) => RunResult(Failed(ResponseUnparsable), m1)
    case Body(Some(response)) =>
      if response.images.None? || response.images.value == [] then RunResult(Panicked, m1)
      else
        var image := Stamp(response.images.value[0], args);
        var persisted := Persist(m1, image, env);
        match persisted.error
        case Some(e) => RunResult(Failed(e), persisted.state)
        case None => Download(persisted.state, args, image, env)
  }

  /** `save_image` and, for a new file, the post-actions: the cache and API requests are left alone. */
  function Download(m: Machine, args: Arguments, image: ImageObject, env: Env): (r: RunResult)
    ensures r.outcome != UpToDate
    ensures r.state.cache == m.cache && r.state.apiRequests == m.apiRequests
    ensures r.state.imageRequests == m.imageRequests + (if env.dirs.Some? then [DownloadUrl(image, DefaultResolution)] else [])
    ensures m.files <= r.state.files
  {
    var saved := SaveImage(m, image, args.backupDir, env);
    match saved.result
    case Err(e) => RunResult(Failed(e), saved.state)
    case Ok(None) => RunResult(AlreadyOnDisk, saved.state)
    case Ok(Some(path)) => PostActions(saved.state, args, image, path, env)
  }

  /**
   * `main`: the whole run. Reusing the cache leaves everything as it was;
   * otherwise a run asks the API once and the image at most once, and it
   * never removes a file.
   */
  function Run(m: Machine, args: Arguments, env: Env): (r: RunResult)
    ensures r.outcome == UpToDate ==> r.state == m
    ensures m.files <= r.state.files
    ensures |r.state.apiRequests| <= |m.apiRequests| + 1
    ensures |r.state.imageRequests| <= |m.imageRequests| + 1
  {
    match CheckCache(ReadCache(m, env), args, env)
    case Reuse => RunResult(UpToDate, m)
    case StartUnparsable(text) => RunResult(Failed(StartDateUnparsable(text)), m)
    case Refetch => Fetch(m, args, env)
  }
}
