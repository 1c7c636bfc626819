/**
 * The desktop shell's build script: which Ollama binary the build host needs,
 * where that binary is cached inside the crate, where it is downloaded from,
 * and the download-if-absent step whose failure only turns into a cargo
 * warning before the framework's own build step runs.
 *
 * The host's operating system and architecture, the outcome of every
 * fallible I/O step and the existence of the cached file are inputs.
 */
module Build {
  import opened Common

  // ---------------------------------------------------------------------------
  // Platform table
  // ---------------------------------------------------------------------------

  /** The (os, arch) pairs that have a platform-specific binary of their own. */
  const NativePlatforms: set<(string, string)> :=
    {("macos", "aarch64"), ("macos", "x86_64"), ("linux", "aarch64"), ("linux", "x86_64")}

  /** A platform the build script knows: a native pair, or Windows with any architecture. */
  predicate Supported(os: string, arch: string) {
    (os, arch) in NativePlatforms || os == "windows"
  }

  /** The four strings `get_platform_info` produces for a platform. */
  datatype PlatformInfo = PlatformInfo(osName: string, archName: string, filename: string, downloadFilename: string)

  /**
   * The lookup table of the build script: a supported platform gets its
   * release names, every other platform the error "Unsupported platform".
   */
  function GetPlatformInfo(os: string, arch: string): (r: Result<PlatformInfo>)
    ensures r.Ok? <==> Supported(os, arch)
    ensures r.Err? ==> r.msg == "Unsupported platform"
    ensures r.Ok? ==> r.value.archName == arch
    ensures r.Ok? ==> r.value.osName == (if os == "macos" then "darwin" else os)
    ensures os == "windows" ==> r == Ok(PlatformInfo("windows", arch, "ollama.exe", "ollama.exe"))
  {
    if os == "macos" && arch == "aarch64" then
      Ok(PlatformInfo("darwin", "aarch64", "ollama-aarch64-apple-darwin", "ollama-darwin-aarch64"))
    else if os == "macos" && arch == "x86_64" then
      Ok(PlatformInfo("darwin", "x86_64", "ollama-x86_64-apple-darwin", "ollama-darwin-amd64"))
    else if os == "linux" && arch == "aarch64" then
      Ok(PlatformInfo("linux", "aarch64", "ollama-aarch64-unknown-linux", "ollama-linux-arm64"))
    else if os == "linux" && arch == "x86_64" then
      Ok(PlatformInfo("linux", "x86_64", "ollama-x86_64-unknown-linux", "ollama-linux-amd64"))
    else if os == "windows" then
      Ok(PlatformInfo("windows", arch, "ollama.exe", "ollama.exe"))
    else
      Err("Unsupported platform")
  }

  /**
   * Every build caches exactly its own binary: two supported platforms that
   * map to the same cached file name are the same operating system, and the
   * same architecture unless that system is Windows (whose single binary
   * serves every architecture). The same holds of the release asset names.
   */
  lemma CachedBinaryIdentifiesPlatform(os1: string, arch1: string, os2: string, arch2: string)
    requires GetPlatformInfo(os1, arch1).Ok? && GetPlatformInfo(os2, arch2).Ok?
    requires GetPlatformInfo(os1, arch1).value.filename == GetPlatformInfo(os2, arch2).value.filename
             || GetPlatformInfo(os1, arch1).value.downloadFilename == GetPlatformInfo(os2, arch2).value.downloadFilename
    ensures os1 == os2
    ensures os1 != "windows" ==> arch1 == arch2
  {
    var f1, f2 := GetPlatformInfo(os1, arch1).value, GetPlatformInfo(os2, arch2).value;
    // The names differ in one of their first characters, or in their length.
    assert f1.filename == f2.filename ==>
      (|f1.filename| == |f2.filename| && f1.filename[7] == f2.filename[7]
       && f1.filename[|f1.filename| - 1] == f2.filename[|f2.filename| - 1]);
    assert f1.downloadFilename == f2.downloadFilename ==>
      (|f1.downloadFilename| == |f2.downloadFilename| && f1.downloadFilename[7] == f2.downloadFilename[7]
       && f1.downloadFilename[|f1.downloadFilename| - 1] == f2.downloadFilename[|f2.downloadFilename| - 1]);
  }

  // ---------------------------------------------------------------------------
  // Paths and the release URL
  // ---------------------------------------------------------------------------

  /**
   * `Path::join` on a Unix host: an absolute `name` replaces `dir`; otherwise
   * `name` is appended after exactly one `/` (none is added when `dir` is empty
   * or already ends in `/`).
   */
  function Join(dir: string, name: string): (p: string)
    ensures |name| <= |p|
    ensures name != [] && name[0] == '/' ==> p == name
  {
    if name != [] && name[0] == '/' then name
    else if dir == [] || dir[|dir| - 1] == '/' then dir + name
    else dir + "/" + name
  }

  /**
   * A joined path ends in the joined name; a relative name keeps the
   * directory as the path's prefix, separated by a `/` unless the directory
   * is empty or already ends in one; an absolute name is the whole path.
   */
  lemma JoinParts(dir: string, name: string)
    ensures var p := Join(dir, name);
            && |name| <= |p| && p[|p| - |name|..] == name
            && (name != [] && name[0] == '/' ==> p == name)
            && ((name == [] || name[0] != '/') ==>
                  && |dir| <= |p| && p[..|dir|] == dir
                  && (dir == [] || dir[|dir| - 1] == '/' || (|dir| < |p| && p[|dir|] == '/')))
  {
    var p := Join(dir, name);
    if !(name != [] && name[0] == '/') {
      assert p[..|dir|] == dir;
      assert p[|p| - |name|..] == name;
    }
  }

  /** The `binaries` directory of the crate. */
  function BinaryDir(manifestDir: string): string {
    Join(manifestDir, "binaries")
  }

  /** Where the platform's binary is cached: the `binaries` directory joined with its file name. */
  function TargetPath(manifestDir: string, filename: string): string {
    Join(BinaryDir(manifestDir), filename)
  }

  const ReleaseDownloadBase := "https://github.com/ollama/ollama/releases/latest/download/"

  /** The release asset a URL under the latest-release download location names, if it is one. */
  function ReleaseAsset(url: string): (asset: Option<string>)
    ensures asset.Some? <==> ReleaseDownloadBase <= url
    ensures asset.Some? ==> ReleaseDownloadBase + asset.value == url
  {
    if ReleaseDownloadBase <= url then Some(url[|ReleaseDownloadBase|..]) else None
  }

  /** The URL of a release asset: reading the asset name back out of it gives the same name. */
  function DownloadUrl(downloadFilename: string): (url: string)
    ensures ReleaseAsset(url) == Some(downloadFilename)
  {
    var url := ReleaseDownloadBase + downloadFilename;
    assert url[..|ReleaseDownloadBase|] == ReleaseDownloadBase;
    assert url[|ReleaseDownloadBase|..] == downloadFilename;
    url
  }

  // ---------------------------------------------------------------------------
  // The download step
  // ---------------------------------------------------------------------------

  /** How one fallible I/O step of the build host turns out. */
  datatype StepOutcome = Done | Failed(msg: string)

  /** Everything the download step learns from its host, in the order it asks. */
  datatype BuildHost = BuildHost(
    os: string,
    arch: string,
    runtime: StepOutcome,          // creating the async runtime
    manifestDir: Result<string>,   // reading CARGO_MANIFEST_DIR
    createDir: StepOutcome,        // creating the binaries directory
    targetExists: bool,            // whether the cached binary is already there
    fetch: HttpOutcome,            // the GET of the release asset
    readBody: StepOutcome,         // reading the response body
    createFile: StepOutcome,       // creating the target file
    writeFile: StepOutcome,        // writing the body into it
    metadata: StepOutcome,         // reading its permissions (Unix hosts only)
    setPermissions: StepOutcome)   // making it executable (Unix hosts only)

  /** The file-system and network actions the download step attempts, in order. */
  datatype FsAction =
    | CreateDirAll(path: string)
    | HttpGet(url: string)
    | CreateFile(path: string)
    | WriteAll(path: string)
    | SetMode(path: string, mode: nat)

  /** Permission bits 0o755: owner may write, everybody may read and execute. */
  const ExecutableMode: nat := 0x1ED

  /** The permission change is compiled in on Unix hosts only; every supported host except Windows is one. */
  predicate IsUnix(os: string) {
    os != "windows"
  }
  /** The steps before the first path is built all succeed, so the cached path and the URL are known. */
  predicate KnowsTarget(h: BuildHost) {
    h.runtime.Done? && GetPlatformInfo(h.os, h.arch).Ok? && h.manifestDir.Ok?
  }

  /** The steps before the existence check all succeed. */
  predicate ReachesExistenceCheck(h: BuildHost) {
    KnowsTarget(h) && h.createDir.Done?
  }

  function HostBinaryDir(h: BuildHost): string
    requires KnowsTarget(h)
  {
    BinaryDir(h.manifestDir.value)
  }

  function HostTarget(h: BuildHost): string
    requires KnowsTarget(h)
  {
    TargetPath(h.manifestDir.value, GetPlatformInfo(h.os, h.arch).value.filename)
  }

  function HostUrl(h: BuildHost): string
    requires KnowsTarget(h)
  {
    DownloadUrl(GetPlatformInfo(h.os, h.arch).value.downloadFilename)
  }

  /**
   * The actions of the branch taken when the cached binary is absent: fetch
   * the release asset, store it at the cached path and, on a Unix host, make
   * it executable.
   */
  function FetchPlan(target: string, url: string, unix: bool): (plan: seq<FsAction>)
    ensures |plan| == (if unix then 4 else 3)
    ensures plan[0] == HttpGet(url) && plan[1] == CreateFile(target) && plan[2] == WriteAll(target)
    ensures unix ==> plan[3] == SetMode(target, ExecutableMode)
    ensures forall a | a in plan && a.HttpGet? :: a.url == url && a == plan[0]
    ensures forall a | a in plan && (a.CreateFile? || a.WriteAll? || a.SetMode?) :: a.path == target
    ensures WriteAll(target) in plan
    ensures SetMode(target, ExecutableMode) in plan <==> unix
    ensures forall a | a in plan && a.SetMode? :: a.mode == ExecutableMode
  {
    [HttpGet(url), CreateFile(target), WriteAll(target)] + (if unix then [SetMode(target, ExecutableMode)] else [])
  }

  /**
   * Every action the download step takes when nothing fails: create the
   * `binaries` directory and then, only when the cached binary is absent,
   * the fetch branch.
   */
  function DownloadPlan(binaryDir: string, target: string, url: string, targetExists: bool, unix: bool): (plan: seq<FsAction>)
    ensures |plan| >= 1 && plan[0] == CreateDirAll(binaryDir)
    ensures HttpGet(url) in plan <==> !targetExists
    ensures targetExists ==> plan == [CreateDirAll(binaryDir)]
    ensures forall a | a in plan && (a.CreateFile? || a.WriteAll? || a.SetMode?) :: !targetExists && a.path == target
  {
    [CreateDirAll(binaryDir)] + (if targetExists then [] else FetchPlan(target, url, unix))
  }

  /** The download plan of a host whose cached path and URL are known. */
  function HostPlan(h: BuildHost): seq<FsAction>
    requires KnowsTarget(h)
  {
    DownloadPlan(HostBinaryDir(h), HostTarget(h), HostUrl(h), h.targetExists, IsUnix(h.os))
  }

  /**
   * The steps of an actual download all succeed. Any HTTP response counts:
   * the status code is never inspected, so an error page is stored too.
   */
  predicate DownloadStepsSucceed(h: BuildHost) {
    && h.fetch.Responded?
    && h.readBody.Done?
    && h.createFile.Done?
    && h.writeFile.Done?
    && (IsUnix(h.os) ==> h.metadata.Done? && h.setPermissions.Done?)
  }

  predicate DownloadSucceeds(h: BuildHost) {
    ReachesExistenceCheck(h) && (h.targetExists || DownloadStepsSucceed(h))
  }

  /** The message of the first step of an actual download that fails, if one does. */
  function FetchError(h: BuildHost): (m: Option<string>)
    ensures m.None? <==> DownloadStepsSucceed(h)
  {
    if h.fetch.RequestFailed? then Some(h.fetch.error)
    else if h.readBody.Failed? then Some(h.readBody.msg)
    else if h.createFile.Failed? then Some(h.createFile.msg)
    else if h.writeFile.Failed? then Some(h.writeFile.msg)
    else if IsUnix(h.os) && h.metadata.Failed? then Some(h.metadata.msg)
    else if IsUnix(h.os) && h.setPermissions.Failed? then Some(h.setPermissions.msg)
    else None
  }

  /**
   * The message `download_ollama` fails with: that of its first failing
   * step, and none when the binary is cached or the download succeeds.
   */
  function DownloadError(h: BuildHost): (m: Option<string>)
    ensures m.None? <==> DownloadSucceeds(h)
    ensures h.runtime.Done? && GetPlatformInfo(h.os, h.arch).Err? ==> m == Some("Unsupported platform")
    ensures ReachesExistenceCheck(h) && !h.targetExists ==> m == FetchError(h)
  {
    if h.runtime.Failed? then Some(h.runtime.msg)
    else if GetPlatformInfo(h.os, h.arch).Err? then Some(GetPlatformInfo(h.os, h.arch).msg)
    else if h.manifestDir.Err? then Some(h.manifestDir.msg)
    else if h.createDir.Failed? then Some(h.createDir.msg)
    else if h.targetExists then None
    else FetchError(h)
  }

  /**
   * `download_ollama`: look up the platform, make sure the `binaries`
   * directory exists, and fetch the release asset into the cached path only
   * when that path does not exist yet. The first failing step ends the
   * sequence with its error; the actions attempted so far are a prefix of
   * the plan, and all of it when the step succeeds.
   */
  method DownloadOllama(h: BuildHost) returns (r: Result<()>, actions: seq<FsAction>)
    ensures r.Ok? <==> DownloadSucceeds(h)
    ensures r == (if DownloadError(h).Some? then Err(DownloadError(h).value) else Ok(()))
    ensures h.runtime.Done? && GetPlatformInfo(h.os, h.arch).Err? ==> r == Err("Unsupported platform")
    ensures !KnowsTarget(h) ==> actions == []
    ensures KnowsTarget(h) ==> actions <= HostPlan(h)
    ensures r.Ok? ==> actions == HostPlan(h)
    ensures ReachesExistenceCheck(h) && !h.targetExists ==> HttpGet(HostUrl(h)) in actions
    ensures KnowsTarget(h) && h.createDir.Failed? ==> actions == [CreateDirAll(HostBinaryDir(h))]
    ensures ReachesExistenceCheck(h) && !h.targetExists ==>
              (CreateFile(HostTarget(h)) in actions <==> h.fetch.Responded? && h.readBody.Done?)
  {
    actions := [];
    if h.runtime.Failed? {
      return Err(h.runtime.msg), actions;
    }
    var info := GetPlatformInfo(h.os, h.arch);
    if info.Err? {
      return Err(info.msg), actions;
    }
    if h.manifestDir.Err? {
      return Err(h.manifestDir.msg), actions;
    }
    var binaryDir := BinaryDir(h.manifestDir.value);
    actions := actions + [CreateDirAll(binaryDir)];
    if h.createDir.Failed? {
      assert actions == [CreateDirAll(HostBinaryDir(h))];
      return Err(h.createDir.msg), actions;
    }
    var target := Join(binaryDir, info.value.filename);
    if h.targetExists {
      // Already cached: nothing more to do.
      return Ok(()), actions;
    }
    var url := DownloadUrl(info.value.downloadFilename);
    var fetched;
    r, fetched := FetchAndStore(h, target, url);
    assert target == HostTarget(h);
    assert CreateFile(target) in actions + fetched <==> CreateFile(target) in fetched;
    actions := actions + fetched;
  }

  /**
   * The branch of `download_ollama` taken when the cached binary is absent.
   * The HTTP status is never inspected: any response body is stored.
   */
  method FetchAndStore(h: BuildHost, target: string, url: string) returns (r: Result<()>, actions: seq<FsAction>)
    ensures r.Ok? <==> DownloadStepsSucceed(h)
    ensures r == (if FetchError(h).Some? then Err(FetchError(h).value) else Ok(()))
    ensures actions <= FetchPlan(target, url, IsUnix(h.os))
    ensures r.Ok? ==> actions == FetchPlan(target, url, IsUnix(h.os))
    ensures |actions| >= 1
    ensures CreateFile(target) in actions <==> h.fetch.Responded? && h.readBody.Done?
    ensures WriteAll(target) in actions <==> h.fetch.Responded? && h.readBody.Done? && h.createFile.Done?
    ensures SetMode(target, ExecutableMode) in actions <==>
              IsUnix(h.os) && h.fetch.Responded? && h.readBody.Done? && h.createFile.Done? && h.writeFile.Done? && h.metadata.Done?
  {
    actions := [HttpGet(url)];
    if h.fetch.RequestFailed? {
      return Err(h.fetch.error), actions;
    }
    if h.readBody.Failed? {
      return Err(h.readBody.msg), actions;
    }
    actions := actions + [CreateFile(target)];
    if h.createFile.Failed? {
      return Err(h.createFile.msg), actions;
    }
    actions := actions + [WriteAll(target)];
    if h.writeFile.Failed? {
      return Err(h.writeFile.msg), actions;
    }
    if IsUnix(h.os) {
      if h.metadata.Failed? {
        return Err(h.metadata.msg), actions;
      }
      actions := actions + [SetMode(target, ExecutableMode)];
      if h.setPermissions.Failed? {
        return Err(h.setPermissions.msg), actions;
      }
    }
    r := Ok(());
  }

  const WarningPrefix := "cargo:warning=Failed to download Ollama: "

  /**
   * The build script's `main`: a failed download becomes one cargo warning
   * line, and the framework's build step runs in every case.
   */
  method BuildMain(h: BuildHost) returns (warnings: seq<string>, actions: seq<FsAction>, ranTauriBuild: bool)
    ensures ranTauriBuild
    ensures warnings == [] <==> DownloadSucceeds(h)
    ensures warnings == (if DownloadError(h).Some? then [WarningPrefix + DownloadError(h).value] else [])
    ensures !KnowsTarget(h) ==> actions == []
    ensures KnowsTarget(h) ==> actions <= HostPlan(h)
    ensures KnowsTarget(h) && h.createDir.Failed? ==> actions == [CreateDirAll(HostBinaryDir(h))]
    ensures |warnings| <= 1 && forall w | w in warnings :: WarningPrefix <= w
    ensures h.runtime.Done? && GetPlatformInfo(h.os, h.arch).Err? ==>
              warnings == [WarningPrefix + "Unsupported platform"] && actions == []
  {
    var r;
    r, actions := DownloadOllama(h);
    warnings := if r.Err? then [WarningPrefix + r.msg] else [];
    ranTauriBuild := true;
  }
}
