# Desktop shell supervisor — a verified model

The application is a Tauri desktop shell around two local services. One is
an Ollama model-serving daemon, bundled as a platform-specific binary. The
other is a Python backend. This project models the shell's logic in Dafny
and proves what that logic promises:

- **Build script** (`Build`): the build script's platform table, the
  release URL, and the cached-binary path inside the crate. It also models
  the download-if-absent step, whose failure only becomes a
  `cargo:warning` line before the framework build runs.
- **Platform lookup and probes** (`Launch`): the shell's own lookup of
  the bundled binary, the two launch commands, and the mapping from an HTTP
  outcome to "alive".
- **Startup sequence** (`Sequencer`): the 30-check poll loop and the
  startup task's events. The startup task launches Ollama, stores its handle and
  polls it. Then it launches the backend, stores that handle and polls it,
  and finally shows the window. Both state and UI effects are stated as an
  event sequence folded into an application state (`Run`).
- **UI handlers** (`Ui`): the tray menu and the window close handler, as
  event sequences, with lemmas over any sequence of UI events.
- **Running shell** (`Shell.App`): a class whose fields are the two
  process slots of `AppState`, the window's visibility, the requested exit
  code and the seconds slept. Its methods update those fields in place and
  are proved to leave exactly the state the event specification gives.
- **Cross-file agreement** (`Consistency`): the build script and the
  shell use two separate platform tables, and this module proves they
  agree.

Inputs stand in for the outside world:

- the host's operating system and architecture;
- each spawn outcome (a handle or an error);
- each service's health-check answers, in order, as HTTP outcomes;
- the outcome of every build-time I/O step, and whether the cached binary
  exists.

On these points the code's behaviour is kept as written:

- Tray "quit" only requests exit code 0. It does not terminate the child
  processes, so both slots keep their handles.
- A health check counts as alive only for a 2xx status, through
  `is_success`. A failed request, or any other status, reads as "not yet".
- A failed Ollama launch requests exit code 1, just as a failed backend
  launch does.
- Storing a handle overwrites the slot; nothing is terminated first. Each
  slot is written at most once per startup.
- An unsupported platform panics inside the background task before
  anything is launched. The model records that panic and stops the startup task
  there: no exit code, and the window stays hidden.
- The build script stores the response body whatever the HTTP status is.
  The model keeps that, so any response counts as a completed download.

## Model

| member | source | states |
|---|---|---|
| Build.GetPlatformInfo | src-tauri/build.rs:6-52 | Succeeds exactly for the four macOS/Linux pairs and for Windows on any architecture; otherwise the error is "Unsupported platform". On success `arch_name` is the input architecture, and `os_name` is "darwin" on macOS and the OS name otherwise. Windows yields `("windows", arch, "ollama.exe", "ollama.exe")`. |
| Build.CachedBinaryIdentifiesPlatform | src-tauri/build.rs:12-44 | Two supported platforms that share a cached file name, or a release asset name, are the same OS. Unless that OS is Windows, they are also the same architecture. |
| Build.JoinParts | src-tauri/build.rs:59-62 | A joined path ends with the joined name. A relative name keeps the directory as the path's prefix, with a `/` between them unless the directory is empty or already ends in one. An absolute name replaces the directory. |
| Build.ReleaseAsset | src-tauri/build.rs:68-71 | A URL names a release asset exactly when it starts with the latest-release download prefix, and prefix + asset gives the URL back. |
| Build.DownloadUrl | src-tauri/build.rs:68-71 | The URL is the prefix followed by the asset name: parsing it back returns exactly `download_filename`. |
| Build.FetchPlan | src-tauri/build.rs:74-87 | The fetch branch has three steps, plus a fourth on Unix, in this order: one GET of the release URL, creating the target file, writing it, and on a Unix host only, setting mode 0o755 on it. Nothing else is done. |
| Build.Join | src-tauri/build.rs:59-62 | A joined path is at least as long as the name, and an absolute name replaces the directory. The full shape is stated in `Build.JoinParts`. |
| Build.DownloadPlan | src-tauri/build.rs:59-92 | The `binaries` directory is created first. A download happens if and only if the target does not exist; an existing target is a no-op. |
| Build.FetchError | src-tauri/build.rs:74-87 | The fetch branch has a failure message exactly when one of its steps fails, and it is the message of the first failing step in program order. |
| Build.DownloadError | src-tauri/build.rs:54-96 | `download_ollama` has a failure message exactly when it fails. An unsupported platform gives "Unsupported platform", and once the directory exists with no cached file, the message is the fetch branch's. |
| Build.DownloadOllama | src-tauri/build.rs:54-96 | Succeeds exactly when every step up to the existence check succeeds and either the target exists or every fetch step succeeds. On failure the error is the first failing step's message, and an unsupported platform fails with "Unsupported platform" before touching anything. The actions taken are a prefix of the plan, and the whole plan on success. A failed directory creation is the only action when it fails. An absent target is always requested from the release URL once the directory exists, and the target file is created only after a response arrived and its body was read. |
| Build.FetchAndStore | src-tauri/build.rs:64-89 | The fetch branch succeeds exactly when the request, the body read, the file creation, the write and, on Unix, the permission change all succeed. On failure the error is the first failing step's message. Its actions are a prefix of the fetch plan, and the whole plan on success. The target file is created exactly when a response arrived and its body was read, so a failed request leaves no file behind. It is written exactly when the creation also succeeded, and its mode is set exactly on Unix once the write and the metadata read succeeded. |
| Build.BuildMain | src-tauri/build.rs:98-105 | The framework build always runs. There is no warning exactly when the download step succeeds; otherwise there is a single `cargo:warning=Failed to download Ollama: …` line carrying the first failing step's message. An unsupported platform gives that line with "Unsupported platform" and no action. No action happens before the target is known, and the actions are a prefix of the download plan; a failed directory creation is the only action when it fails. |
| Launch.OllamaPath | src-tauri/src/main.rs:35-47 | Succeeds exactly for the four macOS/Linux pairs and for Windows on any architecture, with a path under `binaries/`. Windows gets `binaries/ollama.exe`; every other platform fails with "Unsupported platform". |
| Launch.OllamaCommand | src-tauri/src/main.rs:53-54 | Ollama is started from the resolved path, with no arguments, no working directory and no environment override: it inherits the shell's environment. |
| Launch.EnvOverride | src-tauri/src/main.rs:68 | A child sees an overridden value for a variable exactly when some override names it, and the value is that of the last override for that key. |
| Launch.BackendCommand | src-tauri/src/main.rs:63-77 | The backend sees `OLLAMA_BASE_URL=http://localhost:11434`, and that base URL followed by `/api/version` is the endpoint the Ollama health check probes. |
| Launch.CheckStatus | src-tauri/src/main.rs:19-33 | A failed request is an error carrying its message; a response is `Ok`, true exactly for a 2xx status. |
| Launch.ProbeAlive | src-tauri/src/main.rs:118 | With `unwrap_or(false)`, a check is alive if and only if a response arrived with a status in 200..299. |
| Sequencer.Step | src-tauri/src/main.rs:92-159 | Each event changes only its own part of the state and is appended to the log. Storing a handle fills that service's slot, a poll loop adds its sleeps to the clock, show and hide set the window's visibility, and an exit request sets the exit code. |
| Sequencer.PollFrom | src-tauri/src/main.rs:117-122 | From check i on, the loop sends at most 30 - i checks. On success it stops right after the first successful check, having slept once after each earlier check, none of which succeeded. Otherwise it uses the whole budget and sleeps after every check. |
| Sequencer.Poll | src-tauri/src/main.rs:117-122 | The loop reports the service up if and only if one of the first 30 checks succeeds, and it sends between 1 and 30 checks. |
| Sequencer.PollLoop | src-tauri/src/main.rs:117-122 | The loop as written, with a break at the first success and a sleep after each other check, sends exactly the checks, takes exactly the sleeps, and reaches exactly the verdict `Poll` gives. |
| Sequencer.PollStopsAtFirstSuccess | src-tauri/src/main.rs:117-122 | When the first success is the (k+1)-th check, the loop sends k+1 checks and sleeps k times. |
| Sequencer.PollExhausted | src-tauri/src/main.rs:117-122 | When no check succeeds, the loop sends 30 checks and sleeps 30 times. |
| Sequencer.StartupTrace | src-tauri/src/main.rs:109-153 | The startup task ends in one of three ways. It panics exactly on an unsupported platform. It requests exit code 1 exactly when the platform is supported and a launch fails. It shows the window exactly when both launches succeed. On a supported platform it first launches Ollama from the resolved path. |
| Sequencer.AfterOllamaLaunch | src-tauri/src/main.rs:111-151 | After the Ollama launch, the startup task ends with an exit-code-1 request exactly when either launch failed. It ends with the window shown exactly when both succeeded. |
| Sequencer.AfterBackendLaunch | src-tauri/src/main.rs:125-146 | After the backend launch, the startup task ends with an exit-code-1 request exactly when that launch failed. It ends with the window shown exactly when it succeeded. |
| Sequencer.RunOllamaStarted | src-tauri/src/main.rs:113-125 | After a successful Ollama launch, the startup task fills the Ollama slot, adds the poll loop's sleeps and launches the backend. It changes nothing else. |
| Sequencer.RunBackendStarted | src-tauri/src/main.rs:126-140 | After a successful backend launch, the startup task fills the backend slot, adds the poll loop's sleeps and shows the window. It changes nothing else. |
| Sequencer.StartupOnUnsupportedPlatform | src-tauri/src/main.rs:109-111 | On an unsupported platform the startup task panics before any launch. The only change is the recorded panic: no slot, no exit code and no window change. |
| Sequencer.StartupOllamaLaunchFails | src-tauri/src/main.rs:148-151 | A failed Ollama launch requests exit code 1. Both slots, the window and the clock stay as they were, so from the initial state both slots stay empty. The backend is never launched and the window is never shown. |
| Sequencer.StartupBackendLaunchFails | src-tauri/src/main.rs:142-145 | A failed backend launch requests exit code 1. The Ollama slot holds its handle and the backend slot is unchanged. The window is never shown, and the Ollama loop's sleeps have been taken. |
| Sequencer.StartupBothLaunched | src-tauri/src/main.rs:125-140 | With both launches successful, whatever the checks answered: both slots hold their handles, no exit code is requested, the window is visible, and the clock advanced by both loops' sleeps. |
| Sequencer.StartupShowsWindowLast | src-tauri/src/main.rs:137-140 | With both launches successful, the startup task has seven steps. The window is shown exactly once, as the last step, right after the backend poll loop. |
| Sequencer.BackendLaunchOrder | src-tauri/src/main.rs:111-127 | The backend is launched if and only if the Ollama launch succeeded, whatever the Ollama checks found. Every backend launch uses the backend command and comes after the Ollama handle was stored, right after the Ollama poll loop on the Ollama health URL. |
| Sequencer.NeverHealthyStillShowsWindow | src-tauri/src/main.rs:117-140 | If neither service ever answers, startup costs 60 one-second sleeps, requests no exit, and still shows the window. |
| Sequencer.UpOnSecondCheck | src-tauri/src/main.rs:117-122 | A refused first check followed by a 2xx answer means two checks and one sleep. |
| Ui.TrayTrace | src-tauri/src/main.rs:89-101 | "quit" yields exactly an exit-code-0 request, and "open" exactly a window show. Every other menu id and every icon click does nothing. |
| Ui.WindowTrace | src-tauri/src/main.rs:157-162 | A close request yields exactly a window hide; any other window event does nothing. |
| Ui.HandlerEffect | src-tauri/src/main.rs:89-101 | One UI event never touches either process slot or the clock, and it requests no exit code other than 0. "quit" leaves exit code 0 requested, "open" leaves the window visible, and a close request leaves it hidden. |
| Ui.UiEventsKeepChildren | src-tauri/src/main.rs:89-101 | After any sequence of tray and window events, both process slots and the clock are unchanged, and the only exit code requested is 0. A "quit" anywhere leaves exit code 0 requested. A final close request leaves the window hidden, and a final "open" leaves it visible. |
| Shell.App.constructor | src-tauri/src/main.rs:102-105 | The managed state starts with both slots empty, the window hidden and no exit requested. |
| Shell.App.WaitForHealth | src-tauri/src/main.rs:116-122 | Returns the loop's verdict and adds exactly its sleeps to the clock. No other field changes. |
| Shell.App.Startup | src-tauri/src/main.rs:109-153 | The fields after the startup task are exactly the state the startup event sequence gives, so every `Sequencer.Startup*` lemma holds of them. |
| Shell.App.ContinueAfterOllamaLaunch | src-tauri/src/main.rs:111-151 | After the Ollama launch: a failure requests exit code 1. Otherwise the startup task stores the handle, runs the poll loop and goes on to the backend, exactly as the event sequence says. |
| Shell.App.ContinueAfterBackendLaunch | src-tauri/src/main.rs:125-146 | After the backend launch: a failure requests exit code 1. Otherwise the startup task stores the handle, runs the poll loop and shows the window, exactly as the event sequence says. |
| Shell.App.OnTrayEvent | src-tauri/src/main.rs:89-101 | The fields after a tray event are exactly those the tray handler's events give. |
| Shell.App.OnWindowEvent | src-tauri/src/main.rs:157-162 | The close is prevented if and only if it was a close request. The fields are exactly those the window handler's events give. |
| Consistency.RuntimePathIsBundledTarget | src-tauri/build.rs:12-44 | The shell's path lookup fails exactly where the build table fails. Where both succeed, the shell's path is `binaries/` followed by the build table's file name. |
| Consistency.SamePlatforms | src-tauri/src/main.rs:39-46 | The two platform tables accept exactly the same platforms. |
| Consistency.SameFile | src-tauri/build.rs:12-42 | On every supported platform, the shell's path is `binaries/` followed by the build table's (non-empty, relative) file name. |
| Consistency.RuntimePathResolvesToTarget | src-tauri/build.rs:59-62 | Resolved against the crate directory, the shell's relative path is exactly the file the build script caches. |
| Consistency.JoinBinaries | src-tauri/build.rs:59-62 | Joining `binaries/f` in one step equals joining `binaries` and then the relative name `f`. |
| Consistency.JoinTwice | src-tauri/build.rs:59-62 | For relative `d` (not ending in `/`) and relative `f`, joining `d/f` equals joining `d` and then `f`. |

## Left out

- Process spawning: each spawn is an input outcome (a handle or an error message). The program path, arguments, environment and working directory are kept in the `Launch.Command` value.
- HTTP requests: each health check and the build-time download is an input outcome, either a request error or a response with a status. Response bodies are not modelled.
- Health checks beyond the answers supplied count as failed requests.
- Sleep durations: each one-second sleep is one unit added to a counter.
- `Arc<Mutex<…>>` and the background task running beside the UI event loop: the slots are plain fields, and startup and UI events are modelled as one sequence of events, with no locking or interleaving inside a step.
- After an exit request the process ends in reality; the model only records the requested exit code and does not stop later events.
- Tauri window, tray and menu APIs: reduced to a visibility flag and an exit code. The main window is taken to exist (`get_window("main")` always finds it) and to start hidden, since its initial visibility comes from a configuration file that is not part of this model.
- A panic in the startup task is taken to unwind and end only that task; a panic-abort build profile is not modelled.
- Logging (`println!`, `eprintln!`) and the `windows_subsystem` attribute.
- File-system effects of the build script: directory creation, file creation and writing, and the permission change are recorded as actions, and each step's success is an input; file contents are not modelled.
- `CARGO_MANIFEST_DIR` is an input that may be missing.
- Creating the async runtime is an input step that may fail.
- `tauri_build::build()` is reduced to a flag saying it ran.
- Build.Join: paths are joined with Unix `Path::join` rules (`/` separator); Windows separators and prefixes are not modelled.
- Consistency: the build script reads the platform of the build host and the shell reads the platform it was compiled for; the lemmas give both tables the same `(os, arch)`, so they cover only builds without cross-compilation.
- The working directory the shell runs in is not modelled. `Consistency.RuntimePathResolvesToTarget` resolves the shell's relative path against the crate directory, as in a development run.
