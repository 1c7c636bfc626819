/**
 * The running desktop shell: the managed application state (the two child
 * process slots) together with the window's visibility, the requested exit
 * code and the time the poll loops slept, updated in place by the startup
 * task and the UI handlers. Every method is proved to leave the state the
 * specification in `Sequencer` and `Ui` describes.
 */
module Shell {
  import opened Common
  import opened Launch
  import opened Sequencer
  import opened Ui

  class App {
    /** `AppState::ollama_process`: the Ollama child, once launched. */
    var ollamaProcess: Option<Handle>
    /** `AppState::backend_process`: the backend child, once launched. */
    var backendProcess: Option<Handle>
    /** Whether the main window is on screen. */
    var windowVisible: bool
    /** The exit code requested from the event loop, if any. */
    var exitCode: Option<int>
    /** Seconds the poll loops have slept so far. */
    var slept: nat
    /** Everything that happened so far. */
    ghost var log: seq<Event>

    /** The state as a value. */
    ghost function View(): AppView
      reads this
    {
      AppView(ollamaProcess, backendProcess, windowVisible, exitCode, slept, log)
    }

    /** The state `tauri::Builder::manage` installs: both slots empty; the main window starts hidden. */
    constructor()
      ensures View() == Initial
    {
      ollamaProcess := None;
      backendProcess := None;
      windowVisible := false;
      exitCode := None;
      slept := 0;
      log := [];
    }

    /** One health-poll loop, with its sleeps added to the clock. */
    method WaitForHealth(s: Service, answers: seq<HttpOutcome>) returns (up: bool)
      modifies this
      ensures up == Poll(answers).up
      ensures View() == Step(old(View()), Polled(s, HealthUrl(s), Poll(answers)))
    {
      var _, sleeps, alive := PollLoop(answers);
      up := alive;
      slept := slept + sleeps;
      log := log + [Polled(s, HealthUrl(s), Poll(answers))];
    }

    /**
     * The startup task: resolve the bundled binary and launch Ollama; an
     * unsupported platform panics before anything is launched.
     */
    method Startup(inp: StartupInputs)
      modifies this
      ensures View() == Run(old(View()), StartupTrace(inp))
    {
      ghost var v0 := View();
      var path := OllamaPath(inp.os, inp.arch);
      if path.Err? {
        log := log + [TaskPanicked(path.msg)];
        RunOne(v0, TaskPanicked(path.msg));
        return;
      }
      ghost var launch := Launched(Ollama, OllamaCommand(path.value));
      log := log + [launch];
      RunOne(v0, launch);
      ContinueAfterOllamaLaunch(inp);
      RunConcat(v0, [launch], AfterOllamaLaunch(inp));
    }

    /**
     * After the Ollama launch: a failed launch requests exit code 1;
     * otherwise store the handle, wait for the daemon and launch the
     * backend, whatever the health checks found.
     */
    method ContinueAfterOllamaLaunch(inp: StartupInputs)
      modifies this
      ensures View() == Run(old(View()), AfterOllamaLaunch(inp))
    {
      ghost var v0 := View();
      match inp.ollamaSpawn {
        case SpawnFailed(_) =>
          exitCode := Some(1);
          log := log + [ExitRequested(1)];
          RunOne(v0, ExitRequested(1));
        case Spawned(h) =>
          ollamaProcess := Some(h);
          log := log + [Stored(Ollama, h)];
          var _ := WaitForHealth(Ollama, inp.ollamaAnswers);
          ghost var v2 := View();
          log := log + [Launched(Backend, BackendCommand())];
          assert View() == Step(v2, Launched(Backend, BackendCommand()));
          RunThree(v0, Stored(Ollama, h), Polled(Ollama, OllamaHealthUrl, Poll(inp.ollamaAnswers)), Launched(Backend, BackendCommand()));
          ContinueAfterBackendLaunch(inp);
          RunConcat(v0, OllamaStarted(h, Poll(inp.ollamaAnswers)), AfterBackendLaunch(inp));
      }
    }

    /**
     * After the backend launch: a failed launch requests exit code 1;
     * otherwise store the handle, wait for the backend and show the window,
     * whatever the health checks found.
     */
    method ContinueAfterBackendLaunch(inp: StartupInputs)
      modifies this
      ensures View() == Run(old(View()), AfterBackendLaunch(inp))
    {
      ghost var v0 := View();
      match inp.backendSpawn {
        case SpawnFailed(_) =>
          exitCode := Some(1);
          log := log + [ExitRequested(1)];
          RunOne(v0, ExitRequested(1));
        case Spawned(b) =>
          backendProcess := Some(b);
          log := log + [Stored(Backend, b)];
          var _ := WaitForHealth(Backend, inp.backendAnswers);
          ghost var v2 := View();
          windowVisible := true;
          log := log + [WindowShown];
          assert View() == Step(v2, WindowShown);
          RunThree(v0, Stored(Backend, b), Polled(Backend, BackendHealthUrl, Poll(inp.backendAnswers)), WindowShown);
      }
    }

    /** The tray handler: "quit" requests exit code 0, "open" shows the window, anything else is ignored. */
    method OnTrayEvent(e: TrayEvent)
      modifies this
      ensures View() == Run(old(View()), TrayTrace(e))
    {
      ghost var v0 := View();
      if e.MenuItemClick? && e.id == QuitId {
        exitCode := Some(0);
        log := log + [ExitRequested(0)];
        RunOne(v0, ExitRequested(0));
      } else if e.MenuItemClick? && e.id == OpenId {
        windowVisible := true;
        log := log + [WindowShown];
        RunOne(v0, WindowShown);
      }
    }

    /** The window handler: a close request hides the window and prevents the close; anything else is ignored. */
    method OnWindowEvent(e: WindowEvent) returns (preventClose: bool)
      modifies this
      ensures preventClose <==> e == CloseRequested
      ensures View() == Run(old(View()), WindowTrace(e))
    {
      ghost var v0 := View();
      preventClose := false;
      if e == CloseRequested {
        windowVisible := false;
        log := log + [WindowHidden];
        RunOne(v0, WindowHidden);
        preventClose := true;
      }
    }
  }
}
