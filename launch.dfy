/**
 * The pieces of the desktop shell's entry point that decide what to launch
 * and how to read a health check: the bundled Ollama binary for the running
 * platform, the two launch commands, and the mapping from an HTTP outcome to
 * "alive".
 */
module Launch {
  import opened Common

  // ---------------------------------------------------------------------------
  // The bundled binary
  // ---------------------------------------------------------------------------

  /** The directory, relative to the working directory, that holds the bundled binaries. */
  const BinariesDir := "binaries/"

  /**
   * `get_ollama_path`: the bundled Ollama binary for the running platform,
   * relative to the working directory. `Err` stands for the panic
   * "Unsupported platform" on every other platform.
   */
  function OllamaPath(os: string, arch: string): (r: Result<string>)
    ensures r.Ok? <==> ((os == "macos" || os == "linux") && (arch == "aarch64" || arch == "x86_64")) || os == "windows"
    ensures r.Ok? ==> BinariesDir <= r.value && |r.value| > |BinariesDir|
    ensures r.Err? ==> r.msg == "Unsupported platform"
    ensures os == "windows" ==> r == Ok(BinariesDir + "ollama.exe")
  {
    if os == "macos" && arch == "aarch64" then Ok(BinariesDir + "ollama-aarch64-apple-darwin")
    else if os == "macos" && arch == "x86_64" then Ok(BinariesDir + "ollama-x86_64-apple-darwin")
    else if os == "linux" && arch == "aarch64" then Ok(BinariesDir + "ollama-aarch64-unknown-linux")
    else if os == "linux" && arch == "x86_64" then Ok(BinariesDir + "ollama-x86_64-unknown-linux")
    else if os == "windows" then Ok(BinariesDir + "ollama.exe")
    else Err("Unsupported platform")
  }

  // ---------------------------------------------------------------------------
  // Launch commands
  // ---------------------------------------------------------------------------

  /** A child process to spawn: program, arguments, environment overrides and working directory. */
  datatype Command = Command(program: string, args: seq<string>, env: seq<(string, string)>, cwd: Option<string>)

  /** The value a child sees for an environment variable among the overrides; a later override wins. */
  function EnvOverride(env: seq<(string, string)>, key: string): (v: Option<string>)
    ensures v.Some? <==> exists i :: 0 <= i < |env| && env[i].0 == key
    ensures v.Some? ==> exists i :: && 0 <= i < |env| && env[i] == (key, v.value)
                                    && forall j :: i < j < |env| ==> env[j].0 != key
    decreases |env|
  {
    if env == [] then None
    else if env[|env| - 1].0 == key then Some(env[|env| - 1].1)
    else
      var init := env[..|env| - 1];
      var v := EnvOverride(init, key);
      assert forall i :: 0 <= i < |init| ==> init[i] == env[i];
      v
  }

  /** `start_ollama` runs the bundled binary with no arguments, inheriting everything else. */
  function OllamaCommand(path: string): (c: Command)
    ensures c.program == path && c.args == [] && c.cwd == None
    ensures forall key :: EnvOverride(c.env, key) == None
  {
    Command(path, [], [], None)
  }

  /** Where the Ollama daemon listens. */
  const OllamaBaseUrl := "http://localhost:11434"
  /** The endpoint the Ollama health check asks. */
  const OllamaHealthUrl := "http://localhost:11434/api/version"
  /** The endpoint the backend health check asks. */
  const BackendHealthUrl := "http://localhost:8080/api/health"

  /**
   * `start_backend`: the Python backend module, run from the parent
   * directory, told through `OLLAMA_BASE_URL` where the daemon is; that base
   * URL is the one the Ollama health check probes.
   */
  function BackendCommand(): (c: Command)
    ensures EnvOverride(c.env, "OLLAMA_BASE_URL") == Some(OllamaBaseUrl)
    ensures OllamaBaseUrl + "/api/version" == OllamaHealthUrl
  {
    Command("python3", ["-m", "backend.app"], [("OLLAMA_BASE_URL", OllamaBaseUrl)], Some("../"))
  }

  // ---------------------------------------------------------------------------
  // Health checks
  // ---------------------------------------------------------------------------

  /** The two supervised services. */
  datatype Service = Ollama | Backend

  /** The endpoint each service's health check asks. */
  function HealthUrl(s: Service): string {
    match s
    case Ollama => OllamaHealthUrl
    case Backend => BackendHealthUrl
  }

  /** `StatusCode::is_success`: the 2xx range. */
  predicate IsSuccess(status: nat) {
    200 <= status <= 299
  }

  /**
   * `check_ollama_status` / `check_backend_status`: a failed request is an
   * error carrying its message; a response is `Ok`, true exactly for a 2xx
   * status.
   */
  function CheckStatus(o: HttpOutcome): (r: Result<bool>)
    ensures r.Err? <==> o.RequestFailed?
    ensures r.Err? ==> r.msg == o.error
    ensures r.Ok? ==> (r.value <==> IsSuccess(o.status))
  {
    match o
    case RequestFailed(e) => Err(e)
    case Responded(status) => Ok(IsSuccess(status))
  }

  /**
   * What the startup sequence makes of a health check, `unwrap_or(false)`:
   * the service counts as up only when a response arrived with a 2xx status;
   * a request error and any other status both read as "not yet".
   */
  function ProbeAlive(o: HttpOutcome): (alive: bool)
    ensures alive <==> o.Responded? && 200 <= o.status < 300
  {
    match CheckStatus(o)
    case Ok(b) => b
    case Err(_) => false
  }
}
