/**
 * The run as the program performs it, step by step, on a machine whose
 * cache slot, files and logs are fields updated in place. Each method is
 * proved to leave the machine as the matching function of module Pipeline
 * says.
 */
module Host {
  import opened Wrappers
  import opened Text
  import opened Args
  import opened Naming
  import opened Pipeline

  class Desktop {
    var cache: Option<ImageObject>
    var files: set<string>
    var apiRequests: seq<string>
    var imageRequests: seq<string>
    var created: seq<string>
    var spawned: seq<Process>
    var shown: seq<Notification>

    /** The machine the fields make up. */
    function State(): Machine
      reads this
    {
      Machine(cache, files, apiRequests, imageRequests, created, spawned, shown)
    }

    constructor (m: Machine)
      ensures State() == m
    {
      cache, files := m.cache, m.files;
      apiRequests, imageRequests := m.apiRequests, m.imageRequests;
      created, spawned, shown := m.created, m.spawned, m.shown;
    }

    /** `main`: cache check, fetch, stamp and persist, save, post-actions. */
    method Run(args: Arguments, env: Env) returns (outcome: Outcome)
      modifies this
      ensures RunResult(outcome, State()) == Pipeline.Run(old(State()), args, env)
    {
      // get_cached_api_data
      var cached := if env.dirs.Some? then cache else None;
      if cached.Some? {
        var image := cached.value;
        var start := env.parseStart(image.fullstartdate);
        if start.None? {
          return Failed(StartDateUnparsable(image.fullstartdate));
        }
        if StillFresh(image, start.value, args, env.now) {
          return UpToDate;
        }
      }

      var apiUrl := RequestedApiUrl(args.market);
      apiRequests := apiRequests + [apiUrl];
      var response: Response;
      match env.api {
        case SendFails => return Failed(ApiSend(apiUrl));
        case TextFails => return Failed(ApiText(apiUrl));
        case Body(body) =>
          if body.None? {
            return Failed(ResponseUnparsable);
          }
          response := body.value;
      }
      if response.images.None? || response.images.value == [] {
        return Panicked;
      }
      var image := response.images.value[0];
      image := image.(resolution := args.resolution);
      image := image.(market := args.market);

      // save_cached_api_data
      if env.dirs.None? {
        return Failed(NoBaseDirs);
      }
      match env.cacheWrite {
        case CreateFails => return Failed(CacheCreate);
        case WriteFails =>
          cache := None;
        case Completes =>
          cache := Some(image);
      }

      var saved := SaveImage(image, args.backupDir, env);
      match saved {
        case Err(e) => return Failed(e);
        case Ok(None) => return AlreadyOnDisk;
        case Ok(Some(destination)) =>
          outcome := PostActions(args, image, destination, env);
      }
    }

    /** `save_image`: request the image, resolve the path, keep an existing file or write a new one. */
    method SaveImage(image: ImageObject, backupDir: Option<string>, env: Env)
        returns (saved: Result<Option<string>, RunError>)
      modifies this
      ensures Saved(State(), saved) == Pipeline.SaveImage(old(State()), image, backupDir, env)
    {
      if env.dirs.None? {
        return Err(NoBaseDirs);
      }
      var dirs := env.dirs.value;
      var imageUrl := DownloadUrl(image, DefaultResolution);
      imageRequests := imageRequests + [imageUrl];
      if !env.imageReachable {
        return Err(ImageRequest(imageUrl));
      }

      var savePath: string;
      match backupDir {
        case Some(dir) =>
          if dirs.home.None? {
            return Err(HomeNotUtf8);
          }
          var fullPath := Replace(dir, "~", dirs.home.value);
          var fileName := SaveFilename(image);
          if fileName.Err? {
            return Err(BadUrlbase(fileName.error));
          }
          fullPath := PathPush(fullPath, fileName.value);
          savePath := fullPath;
        case None =>
          var fullPath := dirs.dataLocalDir;
          fullPath := PathPush(fullPath, DefaultWallpaper);
          savePath := fullPath;
      }

      if savePath in files {
        return Ok(None);
      }
      match env.imageWrite {
        case CreateFails => return Err(FileCreate(savePath));
        case WriteFails =>
          files := files + {savePath};
          created := created + [savePath];
          return Err(FileCopy(savePath));
        case Completes =>
          files := files + {savePath};
          created := created + [savePath];
          return Ok(Some(savePath));
      }
    }

    /** Spawn the custom commands in order, or `feh`; then notify unless silent. */
    method PostActions(args: Arguments, image: ImageObject, destination: string, env: Env)
        returns (outcome: Outcome)
      modifies this
      ensures RunResult(outcome, State()) == Pipeline.PostActions(old(State()), args, image, destination, env)
    {
      match args.customCommand {
        case Some(commands) =>
          ghost var all := Substituted(commands, destination);
          var i := 0;
          while i < |commands|
            invariant 0 <= i <= |commands| && i <= env.shellStarts
            invariant State() == old(State()).(spawned := old(spawned) + ShellProcesses(all[..i]))
          {
            var command := Replace(commands[i], "%", destination);
            if i == env.shellStarts {
              return Failed(ShellSpawn(command));
            }
            spawned := spawned + [Shell(command)];
            assert ShellProcesses(all[..i + 1]) == ShellProcesses(all[..i]) + [Shell(command)];
            i := i + 1;
          }
          assert all[..i] == all;
        case None =>
          if !env.fehStarts {
            return Failed(FehSpawn);
          }
          spawned := spawned + [Feh(args.mode, destination)];
      }

      if !args.silent {
        if !env.notifies {
          return Failed(NotificationFailed);
        }
        shown := shown + [NotificationFor(image, destination)];
      }
      return Applied(destination);
    }
  }
}
