/**
 * Naming of the image of the day: the archive API address for a market,
 * the download address for a resolution, the file name a dated copy is
 * saved under, and the `feh` flag for a display mode.
 */
module Naming {
  import opened Wrappers
  import opened Text
  import opened Args

  const DefaultResolution: string := "UHD"
  const DefaultMarket: string := "en-US"

  /** The resolutions the image server offers. */
  const Resolutions: seq<string> := [
    "auto", "UHD", "1920x1200", "1920x1080", "1366x768", "1280x720", "1024x768", "800x600"
  ]

  /** The markets the archive API serves. */
  const Markets: seq<string> := [
    "auto", "ar-XA", "da-DK", "de-AT", "de-CH", "de-DE", "en-AU", "en-CA", "en-GB", "en-ID",
    "en-IE", "en-IN", "en-MY", "en-NZ", "en-PH", "en-SG", "en-US", "en-WW", "en-XA", "en-ZA",
    "es-AR", "es-CL", "es-ES", "es-MX", "es-US", "es-XL", "et-EE", "fi-FI", "fr-BE", "fr-CA",
    "fr-CH", "fr-FR", "he-IL", "hr-HR", "hu-HU", "it-IT", "ja-JP", "ko-KR", "lt-LT", "lv-LV",
    "nb-NO", "nl-BE", "nl-NL", "pl-PL", "pt-BR", "pt-PT", "ro-RO", "ru-RU", "sk-SK", "sl-SL",
    "sv-SE", "th-TH", "tr-TR", "uk-UA", "zh-CN", "zh-HK", "zh-TW"
  ]

  /** The marker every image's last URL segment starts with. */
  const UrlbaseMarker: string := "th?id=OHR."
  const ImageHost: string := "https://bing.com"
  const ArchiveEndpoint: string := "https://www.bing.com/HPImageArchive.aspx?format=js&idx=0&n=1&mbl=1&mkt="

  /**
   * One image record of the archive API, also the record kept in the
   * metadata cache. `resolution` and `market` are not sent by the API: the
   * program stamps them with the options of the run that fetched the record.
   */
  datatype ImageObject = ImageObject(
    startdate: string,        // e.g. 20231013
    fullstartdate: string,    // e.g. 202310131500
    enddate: string,
    urlbase: string,          // e.g. /th?id=OHR.RailwayDay2023_JA-JP6915793143
    title: string,
    resolution: Option<string>,
    market: Option<string>)

  /** An allow-listed value: `value` when listed, otherwise `default`. */
  function OrDefault(value: string, allowed: seq<string>, default: string): (r: string)
    requires default in allowed
    ensures r in allowed
    ensures r == value <==> value in allowed
    ensures value !in allowed ==> r == default
  {
    if value in allowed then value else default
  }

  /**
   * The last URL segment without its marker, each `..` turned into `_`:
   * it can hold neither a `..` nor a `/` the segment did not have.
   */
  function CleanSegment(segment: string): (cleaned: string)
    requires StartsWith(segment, UrlbaseMarker)
    ensures !Contains(cleaned, "..")
    ensures '/' in cleaned ==> '/' in segment
  {
    var rest := segment[|UrlbaseMarker|..];
    ReplaceClearsDoubleDot(rest);
    var cleaned := Replace(rest, "..", "_");
    assert '/' in cleaned ==> '/' in rest;
    assert '/' in rest ==> '/' in segment by {
      if '/' in rest {
        var k :| 0 <= k < |rest| && rest[k] == '/';
        assert segment[|UrlbaseMarker| + k] == '/';
      }
    }
    cleaned
  }

  /**
   * `ImageObject::get_save_filename`: the name a dated copy is saved under,
   * `<startdate>-<cleaned segment>_<resolution>.jpg`. The resolution is the
   * requested one, not checked against `Resolutions`.
   */
  function SaveFilename(image: ImageObject): (r: Result<string, string>)
    ensures r.Ok? <==> '/' in image.urlbase && StartsWith(LastSegment(image.urlbase, '/'), UrlbaseMarker)
    ensures r.Ok? ==> r.value == image.startdate + "-" + CleanSegment(LastSegment(image.urlbase, '/'))
                                 + "_" + image.resolution.GetOr(DefaultResolution) + ".jpg"
    ensures r.Err? ==> r.error == "can not parse urlbase " + image.urlbase + "  to filename"
  {
    match RSplitOnce(image.urlbase, '/')
    case Some((_, segment)) =>
      if StartsWith(segment, UrlbaseMarker) then
        Ok(image.startdate + "-" + CleanSegment(segment) + "_" + image.resolution.GetOr(DefaultResolution) + ".jpg")
      else
        Err("can not parse urlbase " + image.urlbase + "  to filename")
    case None =>
      Err("can not parse urlbase " + image.urlbase + "  to filename")
  }

  /**
   * `ImageObject::get_download_url`: the image address for a resolution;
   * an unlisted resolution is replaced by the default one.
   */
  function DownloadUrl(image: ImageObject, resolution: string): (url: string)
    ensures StartsWith(url, ImageHost + image.urlbase + "_") && EndsWith(url, ".jpg")
    ensures |ImageHost + image.urlbase + "_"| + 4 <= |url|
    ensures url[|ImageHost + image.urlbase + "_"|..|url| - 4] in Resolutions
  {
    var r := OrDefault(resolution, Resolutions, DefaultResolution);
    var url := ImageHost + image.urlbase + "_" + r + ".jpg";
    assert url[|ImageHost + image.urlbase + "_"|..|url| - 4] == r;
    url
  }

  /** The market `get_api_url` sends: the given one when listed, otherwise `en-US`. */
  function ValidMarket(market: string): (valid: string)
    ensures valid in Markets
    ensures market in Markets ==> valid == market
    ensures market !in Markets ==> valid == DefaultMarket
  {
    assert Markets[16] == DefaultMarket;
    OrDefault(market, Markets, DefaultMarket)
  }

  /** `get_api_url`: the archive API address; an unlisted market becomes `en-US`. */
  function ApiUrl(market: string): (url: string)
    ensures StartsWith(url, ArchiveEndpoint)
    ensures url[|ArchiveEndpoint|..] in Markets
  {
    var m := ValidMarket(market);
    assert (ArchiveEndpoint + m)[|ArchiveEndpoint|..] == m;
    ArchiveEndpoint + m
  }

  /**
   * The API address a run asks: an unset market is `en-US` before
   * validation, so the market sent is the requested one when it is set and
   * listed, and `en-US` otherwise.
   */
  function RequestedApiUrl(market: Option<string>): (url: string)
    ensures StartsWith(url, ArchiveEndpoint)
    ensures url[|ArchiveEndpoint|..] == if market.Some? && market.value in Markets then market.value else DefaultMarket
  {
    var chosen := market.GetOr(DefaultMarket);
    assert Markets[16] == DefaultMarket;
    assert (ArchiveEndpoint + ValidMarket(chosen))[|ArchiveEndpoint|..] == ValidMarket(chosen);
    ApiUrl(chosen)
  }

  /** `mode`: the `feh` flag for a display mode. */
  function FehFlag(mode: Modes): (flag: string)
    ensures StartsWith(flag, "--bg-")
  {
    match mode
    case Center => "--bg-center"
    case Fill => "--bg-fill"
    case Max => "--bg-max"
    case Scale => "--bg-scale"
    case Tile => "--bg-tile"
  }

  // ---------------------------------------------------------------------
  // Properties

  /**
   * The file name is decided by the last segment of `urlbase` alone: with
   * `urlbase` split at its last `/`, the name exists exactly when the part
   * after it starts with the marker, and is made of that part.
   */
  lemma SaveFilenameBySegment(image: ImageObject, head: string, segment: string)
    requires image.urlbase == head + "/" + segment && '/' !in segment
    ensures SaveFilename(image).Ok? <==> StartsWith(segment, UrlbaseMarker)
    ensures SaveFilename(image).Ok? ==>
      SaveFilename(image).value == image.startdate + "-" + Replace(segment[|UrlbaseMarker|..], "..", "_")
                                   + "_" + image.resolution.GetOr(DefaultResolution) + ".jpg"
  {
    assert image.urlbase == (head + "/") + segment;
    LastSegmentAfterSeparator(head + "/", segment, '/');
    assert '/' in image.urlbase by { assert image.urlbase[|head|] == '/'; }
  }

  /** Without a `/` in `urlbase` there is no file name. */
  lemma SaveFilenameNeedsSlash(image: ImageObject)
    requires '/' !in image.urlbase
    ensures SaveFilename(image) == Err("can not parse urlbase " + image.urlbase + "  to filename")
  {
  }

  /**
   * A file name holds a `/` only if the start date or the requested
   * resolution does: nothing taken from `urlbase` can add one.
   */
  lemma SaveFilenameSlashes(image: ImageObject)
    requires SaveFilename(image).Ok?
    ensures '/' in SaveFilename(image).value <==>
            '/' in image.startdate || '/' in image.resolution.GetOr(DefaultResolution)
  {
    var seg := LastSegment(image.urlbase, '/');
    var cleaned := CleanSegment(seg);
    assert '/' !in cleaned;
    var name := image.startdate + "-" + cleaned + "_" + image.resolution.GetOr(DefaultResolution) + ".jpg";
    assert SaveFilename(image).value == name;
  }

  /** The name depends on `startdate`, `urlbase` and `resolution` only. */
  lemma SaveFilenameDeterministic(a: ImageObject, b: ImageObject)
    requires a.startdate == b.startdate && a.urlbase == b.urlbase && a.resolution == b.resolution
    ensures SaveFilename(a) == SaveFilename(b)
  {
  }

  /**
   * A listed resolution is the one in the address; any other gives the
   * address of the default resolution.
   */
  lemma DownloadUrlFallback(image: ImageObject, resolution: string)
    ensures resolution in Resolutions ==>
      DownloadUrl(image, resolution) == ImageHost + image.urlbase + "_" + resolution + ".jpg"
    ensures resolution !in Resolutions ==>
      DownloadUrl(image, resolution) == DownloadUrl(image, DefaultResolution)
  {
  }

  /** Two listed resolutions give the same address only if they are equal. */
  lemma DownloadUrlInjective(image: ImageObject, r1: string, r2: string)
    requires r1 in Resolutions && r2 in Resolutions
    requires DownloadUrl(image, r1) == DownloadUrl(image, r2)
    ensures r1 == r2
  {
    var p := ImageHost + image.urlbase + "_";
    var u1, u2 := DownloadUrl(image, r1), DownloadUrl(image, r2);
    assert u1 == p + r1 + ".jpg" && u1[|p|..|u1| - 4] == r1;
    assert u2 == p + r2 + ".jpg" && u2[|p|..|u2| - 4] == r2;
  }

  /**
   * The market in the API address is the requested one when listed, and an
   * unlisted market asks exactly what `en-US` asks.
   */
  lemma ApiUrlFallback(market: string)
    ensures market in Markets ==> ApiUrl(market)[|ArchiveEndpoint|..] == market
    ensures market !in Markets ==> ApiUrl(market) == ApiUrl(DefaultMarket)
  {
    var a := ValidMarket(market);
    assert (ArchiveEndpoint + a)[|ArchiveEndpoint|..] == a;
    if market !in Markets {
      assert ValidMarket(DefaultMarket) == DefaultMarket;
    }
  }

  /** Two markets ask the same address exactly when they validate alike. */
  lemma ApiUrlSameIff(m1: string, m2: string)
    ensures ApiUrl(m1) == ApiUrl(m2) <==> ValidMarket(m1) == ValidMarket(m2)
  {
    var a, b := ValidMarket(m1), ValidMarket(m2);
    assert (ArchiveEndpoint + a)[|ArchiveEndpoint|..] == a;
    assert (ArchiveEndpoint + b)[|ArchiveEndpoint|..] == b;
  }

  /** An unset market asks the `en-US` address. */
  lemma UnsetMarketIsDefault()
    ensures RequestedApiUrl(None) == RequestedApiUrl(Some(DefaultMarket))
    ensures RequestedApiUrl(None) == ArchiveEndpoint + "en-US"
  {
    assert DefaultMarket in Markets by { assert Markets[16] == DefaultMarket; }
  }

  /** Different modes give different `feh` flags. */
  lemma FehFlagInjective(a: Modes, b: Modes)
    requires FehFlag(a) == FehFlag(b)
    ensures a == b
  {
  }

  /**
   * An image whose `urlbase` is `/`, the marker and a name free of `.` and
   * `/` is saved under that name unchanged.
   */
  lemma SaveFilenamePlainName(image: ImageObject, name: string)
    requires image.urlbase == "/" + UrlbaseMarker + name
    requires '.' !in name && '/' !in name
    ensures SaveFilename(image) == Ok(image.startdate + "-" + name + "_" + image.resolution.GetOr(DefaultResolution) + ".jpg")
  {
    var segment := UrlbaseMarker + name;
    assert '/' !in segment;
    assert image.urlbase == "" + "/" + segment;
    assert segment[|UrlbaseMarker|..] == name;
    SaveFilenameBySegment(image, "", segment);
    ReplaceWithoutDots(name);
  }

  /**
   * The first `..` after the marker becomes `_` and the text before it is
   * kept; the rest is cleaned the same way.
   */
  lemma CleanSegmentReplacesDots(kept: string, rest: string)
    requires '.' !in kept
    ensures CleanSegment(UrlbaseMarker + kept + ".." + rest) == kept + "_" + Replace(rest, "..", "_")
  {
    var segment := UrlbaseMarker + kept + ".." + rest;
    assert segment[|UrlbaseMarker|..] == kept + ".." + rest;
    DotlessThenDot(kept);
    assert ".."[..1] == ".";
    ReplaceFirstMatch(kept, "..", rest, "_");
  }

  /** A string without `.` followed by one `.` contains no `..`. */
  lemma {:induction false} DotlessThenDot(s: string)
    requires '.' !in s
    ensures !Contains(s + ".", "..")
    decreases |s|
  {
    if s != [] {
      DotlessThenDot(s[1..]);
      assert (s + ".")[1..] == s[1..] + ".";
      assert (s + ".")[..2][0] == s[0];
    }
  }

  /** A string without `.` is left as it is by `replace("..", "_")`. */
  lemma ReplaceWithoutDots(s: string)
    requires '.' !in s
    ensures Replace(s, "..", "_") == s
  {
    ContainsNoDots(s);
  }

  /** A string without `.` contains no `..`. */
  lemma {:induction false} ContainsNoDots(s: string)
    requires '.' !in s
    ensures !Contains(s, "..")
    decreases |s|
  {
    if s != [] {
      ContainsNoDots(s[1..]);
      assert |s| >= 2 ==> s[..2][0] == s[0];
    }
  }
}
