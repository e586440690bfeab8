/** What a run promises, stated over the functions of module Pipeline. */
module PipelineProperties {
  import opened Wrappers
  import opened Text
  import opened Args
  import opened Naming
  import opened Pipeline

  /**
   * A completed cache write is what the next read returns; a write that
   * failed unseen leaves a record that does not read back.
   */
  lemma PersistedRecordReadsBack(m: Machine, image: ImageObject, env: Env)
    requires Persist(m, image, env).error.None?
    ensures ReadCache(Persist(m, image, env).state, env) ==
      (if env.cacheWrite == Completes then Some(image) else None)
  {
  }

  /** Two notifications are the same exactly when the titles and the paths are. */
  lemma NotificationNamesTitleAndPath(a: ImageObject, pathA: string, b: ImageObject, pathB: string)
    ensures NotificationFor(a, pathA) == NotificationFor(b, pathB) <==> a.title == b.title && pathA == pathB
  {
  }

  /**
   * The run ends early, with nothing fetched, downloaded, spawned or shown,
   * exactly when the cache reads back, its start parses, its day has not
   * passed and its resolution and market options equal this run's.
   */
  lemma UpToDateExactlyWhenFresh(m: Machine, args: Arguments, env: Env)
    ensures Run(m, args, env).outcome == UpToDate <==>
      && env.dirs.Some? && m.cache.Some?
      && env.parseStart(m.cache.value.fullstartdate).Some?
      && env.now < env.parseStart(m.cache.value.fullstartdate).value + MinutesPerDay
      && args.resolution == m.cache.value.resolution
      && args.market == m.cache.value.market
    ensures Run(m, args, env).outcome == UpToDate ==> Run(m, args, env).state == m
  {
  }

  /** A cache that cannot be read always leads to exactly one API request. */
  lemma UnreadableCacheFetches(m: Machine, args: Arguments, env: Env)
    requires env.dirs.None? || m.cache.None?
    ensures Run(m, args, env).state.apiRequests == m.apiRequests + [RequestedApiUrl(args.market)]
  {
  }

  /**
   * A start date that does not parse ends the run with an error even when
   * the options changed; nothing is fetched.
   */
  lemma UnparsableStartIsFatal(m: Machine, args: Arguments, env: Env)
    requires env.dirs.Some? && m.cache.Some?
    requires env.parseStart(m.cache.value.fullstartdate).None?
    ensures Run(m, args, env) == RunResult(Failed(StartDateUnparsable(m.cache.value.fullstartdate)), m)
  {
  }

  /**
   * Without images in the response the run panics after asking the API and
   * before anything is written: cache, files and post-actions untouched.
   */
  lemma MissingImagesPanicBeforePersist(m: Machine, args: Arguments, env: Env)
    requires CheckCache(ReadCache(m, env), args, env) == Refetch
    requires env.api.Body? && env.api.response.Some?
    requires env.api.response.value.images.None? || env.api.response.value.images.value == []
    ensures Run(m, args, env) == RunResult(Panicked, m.(apiRequests := m.apiRequests + [RequestedApiUrl(args.market)]))
  {
  }

  /**
   * The cache is written before any download: a run that requested the
   * image, or that ended with the file in place, left the first image of
   * the response, stamped with its options, in the cache, unless the
   * unreported write failed, which leaves the cache unreadable.
   */
  lemma CacheWrittenBeforeDownload(m: Machine, args: Arguments, env: Env)
    ensures var r := Run(m, args, env);
      |r.state.imageRequests| > |m.imageRequests| || r.outcome == AlreadyOnDisk || r.outcome.Applied? ==>
        && env.api.Body? && env.api.response.Some? && env.api.response.value.images.Some?
        && env.api.response.value.images.value != []
        && env.cacheWrite != CreateFails
        && r.state.cache == (if env.cacheWrite == Completes then Some(Stamp(env.api.response.value.images.value[0], args)) else None)
  {
    var r := Run(m, args, env);
    if CheckCache(ReadCache(m, env), args, env) == Refetch {
      var url := RequestedApiUrl(args.market);
      var m1 := m.(apiRequests := m.apiRequests + [url]);
      if env.api.Body? && env.api.response.Some? {
        var images := env.api.response.value.images;
        if images.Some? && images.value != [] {
          var image := Stamp(images.value[0], args);
          var p := Persist(m1, image, env);
          if p.error.None? {
            assert p.state.cache == (if env.cacheWrite == Completes then Some(image) else None);
          }
        }
      }
    }
  }

  /**
   * Once a run got as far as requesting the image, running again with the
   * same options before the fetched record's day has passed does nothing at
   * all, even when the download failed: a failed download is not retried
   * until the record expires.
   */
  lemma RerunAfterDownloadAttemptIsUpToDate(m: Machine, args: Arguments, env: Env, env2: Env, start: int)
    requires |Run(m, args, env).state.imageRequests| > |m.imageRequests|
    requires env2.dirs.Some?
    requires Run(m, args, env).state.cache.Some?
    requires env2.parseStart(Run(m, args, env).state.cache.value.fullstartdate) == Some(start)
    requires env2.now < start + MinutesPerDay
    ensures Run(Run(m, args, env).state, args, env2) == RunResult(UpToDate, Run(m, args, env).state)
  {
    CacheWrittenBeforeDownload(m, args, env);
  }

  /**
   * An image file is created only after the image was requested, and the
   * one request of a run is always for the default resolution, whatever
   * resolution was asked for.
   */
  lemma ImageRequestedAtDefaultResolution(m: Machine, args: Arguments, env: Env)
    ensures var r := Run(m, args, env);
      && (r.state.imageRequests == m.imageRequests || |r.state.imageRequests| == |m.imageRequests| + 1)
      && r.state.imageRequests[..|m.imageRequests|] == m.imageRequests
      && (|r.state.imageRequests| > |m.imageRequests| ==>
            EndsWith(r.state.imageRequests[|m.imageRequests|], "_" + DefaultResolution + ".jpg"))
      && (r.state.created != m.created ==> |r.state.imageRequests| > |m.imageRequests|)
  {
    var r := Run(m, args, env);
    if CheckCache(ReadCache(m, env), args, env) == Refetch {
      var url := RequestedApiUrl(args.market);
      var m1 := m.(apiRequests := m.apiRequests + [url]);
      if env.api.Body? && env.api.response.Some? {
        var images := env.api.response.value.images;
        if images.Some? && images.value != [] {
          var image := Stamp(images.value[0], args);
          var p := Persist(m1, image, env);
          if p.error.None? {
            DownloadRequestsAtDefault(p.state, args, image, env);
          }
        }
      }
    }
  }

  lemma DownloadRequestsAtDefault(m: Machine, args: Arguments, image: ImageObject, env: Env)
    ensures var r := Download(m, args, image, env);
      && (r.state.imageRequests == m.imageRequests || r.state.imageRequests == m.imageRequests + [DownloadUrl(image, DefaultResolution)])
      && (r.state.created != m.created ==> r.state.imageRequests != m.imageRequests)
      && EndsWith(DownloadUrl(image, DefaultResolution), "_" + DefaultResolution + ".jpg")
  {
    DefaultDownloadUrl(image);
  }

  /** The download address at the default resolution ends in `_UHD.jpg`. */
  lemma DefaultDownloadUrl(image: ImageObject)
    ensures EndsWith(DownloadUrl(image, DefaultResolution), "_" + DefaultResolution + ".jpg")
  {
    DownloadUrlFallback(image, DefaultResolution);
    assert DefaultResolution in Resolutions by { assert Resolutions[1] == DefaultResolution; }
    var url := ImageHost + image.urlbase + "_" + DefaultResolution + ".jpg";
    assert url == (ImageHost + image.urlbase) + ("_" + DefaultResolution + ".jpg");
  }

  /**
   * `save_image` keeps an existing regular file: it reports no new file
   * exactly when the resolved path is already a file, and otherwise the
   * path it reports is the one it created.
   */
  lemma SaveImageSkipsExisting(m: Machine, image: ImageObject, backupDir: Option<string>, env: Env)
    ensures var s := SaveImage(m, image, backupDir, env);
      s.result == Ok(None) <==>
        && env.dirs.Some? && env.imageReachable
        && SavePath(image, backupDir, env.dirs.value).Ok?
        && SavePath(image, backupDir, env.dirs.value).value in m.files
    ensures var s := SaveImage(m, image, backupDir, env);
      s.result == Ok(None) ==> s.state.files == m.files && s.state.created == m.created
    ensures var s := SaveImage(m, image, backupDir, env);
      s.result.Ok? && s.result.value.Some? ==>
        && env.dirs.Some? && s.result.value == Some(SavePath(image, backupDir, env.dirs.value).value)
        && s.result.value.value !in m.files
        && s.state.files == m.files + {s.result.value.value}
        && s.state.created == m.created + [s.result.value.value]
  {
    if env.dirs.Some? && env.imageReachable {
      var url := DownloadUrl(image, DefaultResolution);
      var m1 := m.(imageRequests := m.imageRequests + [url]);
      var path := SavePath(image, backupDir, env.dirs.value);
      var s := SaveImage(m, image, backupDir, env);
      if path.Err? {
        assert s == Saved(m1, Err(path.error));
      } else if path.value in m.files {
        assert s == Saved(m1, Ok(None));
      } else if env.imageWrite == Completes {
        assert s == Saved(CreateFile(m1, path.value), Ok(Some(path.value)));
      } else {
        assert s.result.Err?;
      }
    }
  }

  /**
   * Saving the same image twice: the second call requests the image again
   * (the request comes before the existence check) and then creates
   * nothing and reports no new file; with the server unreachable it fails
   * even though the file is there.
   */
  lemma SaveImageTwice(m: Machine, image: ImageObject, backupDir: Option<string>, env: Env, env2: Env)
    requires SaveImage(m, image, backupDir, env).result.Ok?
    requires SaveImage(m, image, backupDir, env).result.value.Some?
    requires env2.dirs == env.dirs
    ensures var first := SaveImage(m, image, backupDir, env).state;
            var second := SaveImage(first, image, backupDir, env2);
      && second.state.files == first.files
      && second.state.created == first.created
      && second.state.imageRequests == first.imageRequests + [DownloadUrl(image, DefaultResolution)]
      && (env2.imageReachable ==> second.result == Ok(None))
      && (!env2.imageReachable ==> second.result == Err(ImageRequest(DownloadUrl(image, DefaultResolution))))
  {
    var dirs := env.dirs.value;
    SaveImageSkipsExisting(m, image, backupDir, env);
    var first := SaveImage(m, image, backupDir, env);
    assert SavePath(image, backupDir, dirs).value in first.state.files;
    SaveImageToExisting(first.state, image, backupDir, env2);
  }

  /** `save_image` on a path that is already a file: the image is requested, then nothing is written. */
  lemma SaveImageToExisting(s: Machine, image: ImageObject, backupDir: Option<string>, env: Env)
    requires env.dirs.Some? && SavePath(image, backupDir, env.dirs.value).Ok?
    requires SavePath(image, backupDir, env.dirs.value).value in s.files
    ensures var url := DownloadUrl(image, DefaultResolution);
      SaveImage(s, image, backupDir, env) ==
        Saved(s.(imageRequests := s.imageRequests + [url]), if env.imageReachable then Ok(None) else Err(ImageRequest(url)))
  {
  }

  /**
   * Where a dated copy goes: the backup directory, with every `~` expanded
   * when the home directory has none, and the file name as its last
   * segment; without a backup directory, always the same default file.
   */
  lemma SavePathShape(image: ImageObject, backupDir: Option<string>, dirs: Dirs)
    ensures backupDir.None? ==> SavePath(image, backupDir, dirs) == Ok(PathPush(dirs.dataLocalDir, DefaultWallpaper))
    ensures backupDir.None? ==> LastSegment(SavePath(image, backupDir, dirs).value, '/') == DefaultWallpaper
    ensures backupDir.Some? && dirs.home.None? ==> SavePath(image, backupDir, dirs) == Err(HomeNotUtf8)
    ensures backupDir.Some? && dirs.home.Some? && SaveFilename(image).Err? ==>
      SavePath(image, backupDir, dirs) == Err(BadUrlbase(SaveFilename(image).error))
    ensures backupDir.Some? && dirs.home.Some? && SaveFilename(image).Ok? ==>
      var dir := Replace(backupDir.value, "~", dirs.home.value);
      && SavePath(image, backupDir, dirs) == Ok(PathPush(dir, SaveFilename(image).value))
      && ('~' !in dirs.home.value ==> '~' !in dir)
      && ('/' !in SaveFilename(image).value ==> LastSegment(SavePath(image, backupDir, dirs).value, '/') == SaveFilename(image).value)
  {
    if backupDir.None? {
      PathPushLastSegment(dirs.dataLocalDir, DefaultWallpaper);
    } else if dirs.home.Some? && SaveFilename(image).Ok? {
      var home := dirs.home.value;
      var dir := Replace(backupDir.value, "~", home);
      if '~' !in home {
        ReplaceCharRemovesAll(backupDir.value, '~', home);
      }
      if '/' !in SaveFilename(image).value {
        PathPushLastSegment(dir, SaveFilename(image).value);
      }
    }
  }

  /**
   * A start date that begins with `/` makes the file name absolute, and
   * pushing an absolute name discards the backup directory: the image is
   * written at the bare file name, outside that directory.
   */
  lemma AbsoluteFileNameLeavesBackupDir(image: ImageObject, backupDir: Option<string>, dirs: Dirs)
    requires backupDir.Some? && dirs.home.Some? && SaveFilename(image).Ok?
    requires StartsWith(image.startdate, "/")
    ensures StartsWith(SaveFilename(image).value, "/")
    ensures SavePath(image, backupDir, dirs) == Ok(SaveFilename(image).value)
  {
    var name := SaveFilename(image).value;
    assert name[..|image.startdate|] == image.startdate;
    assert name[..1] == image.startdate[..1];
  }

  /**
   * Without a backup directory the image always goes to the same default
   * file; once that file exists, no later run replaces it or runs
   * post-actions.
   */
  lemma DefaultWallpaperSticks(m: Machine, args: Arguments, env: Env)
    requires args.backupDir.None? && env.dirs.Some?
    requires PathPush(env.dirs.value.dataLocalDir, DefaultWallpaper) in m.files
    ensures var r := Run(m, args, env);
      && !r.outcome.Applied?
      && r.state.files == m.files && r.state.created == m.created
      && r.state.spawned == m.spawned && r.state.shown == m.shown
  {
    if CheckCache(ReadCache(m, env), args, env) == Refetch {
      var url := RequestedApiUrl(args.market);
      var m1 := m.(apiRequests := m.apiRequests + [url]);
      if env.api.Body? && env.api.response.Some? {
        var images := env.api.response.value.images;
        if images.Some? && images.value != [] {
          var image := Stamp(images.value[0], args);
          var p := Persist(m1, image, env);
          if p.error.None? {
            DownloadToExistingDefault(p.state, args, image, env);
          }
        }
      }
    }
  }

  /** The download step when the default file already exists: no new file, nothing started or shown. */
  lemma DownloadToExistingDefault(s: Machine, args: Arguments, image: ImageObject, env: Env)
    requires args.backupDir.None? && env.dirs.Some?
    requires PathPush(env.dirs.value.dataLocalDir, DefaultWallpaper) in s.files
    ensures var r := Download(s, args, image, env);
      && !r.outcome.Applied?
      && r.state.files == s.files && r.state.created == s.created
      && r.state.spawned == s.spawned && r.state.shown == s.shown
  {
    var url := DownloadUrl(image, DefaultResolution);
    var s1 := s.(imageRequests := s.imageRequests + [url]);
    assert SavePath(image, args.backupDir, env.dirs.value) == Ok(PathPush(env.dirs.value.dataLocalDir, DefaultWallpaper));
    if env.imageReachable {
      assert SaveImage(s, image, args.backupDir, env) == Saved(s1, Ok(None));
    } else {
      assert SaveImage(s, image, args.backupDir, env) == Saved(s1, Err(ImageRequest(url)));
    }
  }

  /**
   * Every `%` of each custom command replaced by the path: the text before
   * the first `%` is kept, that `%` becomes the path, and so on through the
   * rest; a command without `%` is kept.
   */
  lemma SubstitutedPlaceholders(commands: seq<string>, path: string, i: int, before: string, after: string)
    requires 0 <= i < |commands|
    ensures |Substituted(commands, path)| == |commands|
    ensures '%' !in path ==> '%' !in Substituted(commands, path)[i]
    ensures '%' !in commands[i] ==> Substituted(commands, path)[i] == commands[i]
    ensures commands[i] == before + "%" + after && '%' !in before ==>
      Substituted(commands, path)[i] == before + path + Replace(after, "%", path)
  {
    if '%' !in path {
      ReplaceCharRemovesAll(commands[i], '%', path);
    }
    ContainsChar(commands[i], '%');
    if commands[i] == before + "%" + after && '%' !in before {
      ContainsChar(before, '%');
      assert before + "%"[..0] == before;
      ReplaceFirstMatch(before, "%", after, path);
    }
  }

  /**
   * Post-actions follow a new file only: a run that spawned or showed
   * anything created exactly one file, which it reports on success, and it
   * spawned the custom commands in list order with `%` substituted, or
   * `feh` with the mode flag, and showed one notification unless silent.
   */
  lemma PostActionsOnlyAfterNewFile(m: Machine, args: Arguments, env: Env)
    ensures var r := Run(m, args, env);
      r.state.spawned != m.spawned || r.state.shown != m.shown ==>
        |r.state.created| == |m.created| + 1 && r.state.created[|m.created|] in r.state.files
    ensures var r := Run(m, args, env);
      r.outcome.Applied? ==>
        && r.state.created == m.created + [r.outcome.path]
        && r.outcome.path !in m.files && r.outcome.path in r.state.files
        && r.state.spawned == m.spawned + Launched(args, r.outcome.path)
        && |r.state.shown| == |m.shown| + (if args.silent then 0 else 1)
  {
    var r := Run(m, args, env);
    if CheckCache(ReadCache(m, env), args, env) == Refetch {
      var url := RequestedApiUrl(args.market);
      var m1 := m.(apiRequests := m.apiRequests + [url]);
      if env.api.Body? && env.api.response.Some? {
        var images := env.api.response.value.images;
        if images.Some? && images.value != [] {
          var image := Stamp(images.value[0], args);
          var p := Persist(m1, image, env);
          if p.error.None? {
            DownloadEffects(p.state, args, image, env);
          }
        }
      }
    }
  }

  lemma DownloadEffects(m: Machine, args: Arguments, image: ImageObject, env: Env)
    ensures var r := Download(m, args, image, env);
      r.state.spawned != m.spawned || r.state.shown != m.shown ==>
        |r.state.created| == |m.created| + 1 && r.state.created[|m.created|] in r.state.files
    ensures var r := Download(m, args, image, env);
      r.outcome.Applied? ==>
        && r.state.created == m.created + [r.outcome.path]
        && r.outcome.path !in m.files && r.outcome.path in r.state.files
        && r.state.spawned == m.spawned + Launched(args, r.outcome.path)
        && |r.state.shown| == |m.shown| + (if args.silent then 0 else 1)
  {
    SaveImageSkipsExisting(m, image, args.backupDir, env);
  }

  /**
   * A custom command that cannot be spawned ends the run after the ones
   * before it were started: those processes stay started, the failure
   * names the failing command with `%` substituted, and nothing is shown.
   */
  lemma SpawnFailureKeepsEarlierCommands(m: Machine, args: Arguments, image: ImageObject, path: string, env: Env)
    requires args.customCommand.Some? && env.shellStarts < |args.customCommand.value|
    ensures var commands := args.customCommand.value;
            var r := PostActions(m, args, image, path, env);
      && r.outcome == Failed(ShellSpawn(Replace(commands[env.shellStarts], "%", path)))
      && r.state.spawned == m.spawned + ShellProcesses(Substituted(commands[..env.shellStarts], path))
      && r.state.shown == m.shown
  {
    var commands := args.customCommand.value;
    var k := env.shellStarts;
    assert Substituted(commands, path)[..k] == Substituted(commands[..k], path);
  }
}
