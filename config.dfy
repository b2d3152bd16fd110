/** The fleet configuration (`loadConfig`) and the browser lookup
    (`findChromePath`). The file system is abstract: `loadConfig` is given what
    reading and parsing the config file produced, and `findChromePath` the set of
    paths that are accessible. */
module Config {
  import opened Wrappers
  import opened JsString
  import opened Encoder

  /** One streaming platform: its name, the RTMP prefix of its stream keys and
      its signup page. */
  datatype Platform = Platform(name: string, rtmpTemplate: string, accountCreationUrl: string)

  datatype Config = Config(
    databasePath: string,
    databaseEngine: string,
    staticBackgroundPath: string,
    logLevel: string,
    platforms: seq<Platform>,
    ffmpegOptions: FfmpegOptions,
    interactionDelayMs: nat)

  const DefaultPlatforms: seq<Platform> := [
    Platform("tiktok", "rtmp://live.tiktok.com/live/", "https://www.tiktok.com/signup"),
    Platform("youtube", "rtmp://a.rtmp.youtube.com/live2/", "https://accounts.google.com/signup/v2/webcreateaccount"),
    Platform("xcom", "rtmp://live.x.com/live/", "https://x.com/i/flow/signup")
  ]

  const DefaultFfmpegOptions: FfmpegOptions := FfmpegOptions(
    "-re -loop 1 -i",
    "-f s16le -ar 44100 -ac 2 -i pipe:0",
    "-c:v libx264 -preset veryfast -tune stillimage -b:v 500k",
    "-c:a aac -b:a 128k -ar 44100",
    "-pix_fmt yuv420p -f flv")

  /** The configuration written on first run, with its files under the
      application's user-data directory. */
  function DefaultConfig(userData: string): Config {
    Config(
      userData + "/bots.sqlite",
      "better-sqlite3",
      userData + "/static_background.png",
      "info",
      DefaultPlatforms,
      DefaultFfmpegOptions,
      3000)
  }

  /** `loadConfig`: a configuration handed in by the caller wins; otherwise the
      parsed config file; otherwise (no file, or a file that does not parse) the
      default, which is then written back (`created`). A missing file is never
      an error. */
  function LoadConfig(provided: Option<Config>, fromFile: Option<Config>, userData: string): (r: (Config, bool))
    ensures r.1 <==> provided.None? && fromFile.None?
    ensures r.1 ==> r.0 == DefaultConfig(userData)
    ensures r.1 ==> (r.0.platforms == DefaultPlatforms && r.0.databaseEngine == "better-sqlite3"
      && r.0.interactionDelayMs == 3000)
    ensures provided.Some? ==> r.0 == provided.value
    ensures provided.None? && fromFile.Some? ==> r.0 == fromFile.value
  {
    if provided.Some? then (provided.value, false)
    else if fromFile.Some? then (fromFile.value, false)
    else (DefaultConfig(userData), true)
  }

  /** The browser executables looked for on each operating system, in order. */
  function ChromePaths(osPlatform: string): (r: seq<string>)
    ensures r == [] <==> !(osPlatform == "win32" || osPlatform == "darwin" || osPlatform == "linux")
  {
    if osPlatform == "win32" then [
      "C:\\Program Files\\Google\\Chrome\\Application\\chrome.exe",
      "C:\\Program Files (x86)\\Google\\Chrome\\Application\\chrome.exe",
      "C:\\Program Files\\Microsoft\\Edge\\Application\\msedge.exe"]
    else if osPlatform == "darwin" then [
      "/Applications/Google Chrome.app/Contents/MacOS/Google Chrome",
      "/Applications/Microsoft Edge.app/Contents/MacOS/Microsoft Edge"]
    else if osPlatform == "linux" then [
      "/usr/bin/google-chrome",
      "/usr/bin/chromium",
      "/usr/bin/chromium-browser",
      "/snap/bin/chromium"]
    else []
  }

  const ChromeNotFound: string :=
    "Could not find Chrome or Chromium installation. Please install Chrome or specify the path manually."

  /** The first of `paths` that is accessible, if any. */
  function FirstAccessible(paths: seq<string>, accessible: set<string>): (r: Option<nat>)
    ensures r.Some? ==> (r.value < |paths| && paths[r.value] in accessible
      && forall j :: 0 <= j < r.value ==> paths[j] !in accessible)
    ensures r.None? <==> forall j :: 0 <= j < |paths| ==> paths[j] !in accessible
  {
    if paths == [] then None
    else if paths[0] in accessible then Some(0)
    else match FirstAccessible(paths[1..], accessible)
      case None => None
      case Some(i) => Some(i + 1)
  }

  /** The search loop of `findChromePath`: try the paths in order and return the
      first one that can be accessed; fail when none can. */
  method FirstAccessiblePath(paths: seq<string>, accessible: set<string>) returns (r: Result<string, string>)
    ensures match FirstAccessible(paths, accessible)
      case Some(i) => r == Ok(paths[i])
      case None => r == Err(ChromeNotFound)
  {
    for i := 0 to |paths|
      invariant forall j :: 0 <= j < i ==> paths[j] !in accessible
    {
      if paths[i] in accessible {
        return Ok(paths[i]);
      }
    }
    return Err(ChromeNotFound);
  }

  /** `findChromePath`: the search over the paths known for the operating system
      (none on an unknown one). */
  method FindChromePath(osPlatform: string, accessible: set<string>) returns (r: Result<string, string>)
    ensures var paths := ChromePaths(osPlatform);
      match FirstAccessible(paths, accessible)
      case Some(i) => r == Ok(paths[i])
      case None => r == Err(ChromeNotFound)
  {
    var paths := ChromePaths(osPlatform);
    r := FirstAccessiblePath(paths, accessible);
  }
}
