/**
 * The startup sequence of the desktop shell, as a specification: the bounded
 * health-poll loop, the events the sequence and the UI handlers cause, the
 * application state those events build up, and the properties of the
 * sequence for every combination of launch outcomes and probe answers.
 *
 * The process launches and the health checks are inputs: a launch either
 * yields a child handle or fails, and each service's health checks are
 * answered, in order, by a sequence of HTTP outcomes.
 */
module Sequencer {
  import opened Common
  import opened Launch

  // ---------------------------------------------------------------------------
  // The poll loop
  // ---------------------------------------------------------------------------

  /** How many health checks each poll loop makes at most; a failed check is followed by a one-second sleep. */
  const MaxProbes: nat := 30

  /** A child process handle, identified by its process id. */
  type Handle = nat

  /** What spawning a child process gives back. */
  datatype SpawnOutcome = Spawned(handle: Handle) | SpawnFailed(msg: string)

  /** The answer to the `i`-th health check; a check beyond the supplied answers gets no answer at all. */
  function AnswerAt(answers: seq<HttpOutcome>, i: nat): HttpOutcome {
    if i < |answers| then answers[i] else RequestFailed("no answer")
  }

  /** The `i`-th health check finds the service up. */
  predicate UpAt(answers: seq<HttpOutcome>, i: nat) {
    ProbeAlive(AnswerAt(answers, i))
  }

  /** What one poll loop did: health checks sent, sleeps taken, and whether a check succeeded. */
  datatype PollResult = PollResult(probes: nat, sleeps: nat, up: bool)

  /**
   * The poll loop from its `i`-th iteration on: it stops at the first check
   * that finds the service up (without sleeping after it) and otherwise
   * sleeps after every check until the budget is spent.
   */
  function PollFrom(answers: seq<HttpOutcome>, i: nat): (r: PollResult)
    requires i <= MaxProbes
    ensures r.probes <= MaxProbes - i
    ensures r.up ==> r.probes >= 1 && r.sleeps == r.probes - 1 && UpAt(answers, i + r.sleeps)
    ensures !r.up ==> r.probes == MaxProbes - i && r.sleeps == r.probes
    ensures forall j :: i <= j < i + r.sleeps ==> !UpAt(answers, j)
    decreases MaxProbes - i
  {
    if i == MaxProbes then PollResult(0, 0, false)
    else if UpAt(answers, i) then PollResult(1, 0, true)
    else
      var rest := PollFrom(answers, i + 1);
      PollResult(rest.probes + 1, rest.sleeps + 1, rest.up)
  }

  /** A whole poll loop: it reports the service up exactly when some check within the budget succeeds. */
  function Poll(answers: seq<HttpOutcome>): (r: PollResult)
    ensures r.up <==> exists k :: 0 <= k < MaxProbes && UpAt(answers, k)
    ensures 1 <= r.probes <= MaxProbes
  {
    var r := PollFrom(answers, 0);
    assert r.up ==> UpAt(answers, r.sleeps);
    r
  }

  /**
   * The poll loop as the program runs it: check, stop at the first check
   * that finds the service up, otherwise sleep a second and check again, 30
   * checks at most. It counts the checks sent and the sleeps taken, and
   * does exactly what `Poll` describes.
   */
  method PollLoop(answers: seq<HttpOutcome>) returns (probes: nat, sleeps: nat, up: bool)
    ensures PollResult(probes, sleeps, up) == Poll(answers)
  {
    var i := 0;
    probes, sleeps, up := 0, 0, false;
    while i < MaxProbes
      invariant 0 <= i <= MaxProbes && !up && probes == i && sleeps == i
      invariant forall j :: 0 <= j < i ==> !UpAt(answers, j)
      decreases MaxProbes - i
    {
      probes := probes + 1;
      if ProbeAlive(AnswerAt(answers, i)) {
        up := true;
        break;
      }
      sleeps := sleeps + 1;
      i := i + 1;
    }
    if up {
      PollStopsAtFirstSuccess(answers, i);
    } else {
      PollExhausted(answers);
    }
  }

  /** When the first successful check is the `k`-th (counting from 0), the loop sends k + 1 checks and sleeps k times. */
  lemma PollStopsAtFirstSuccess(answers: seq<HttpOutcome>, k: nat)
    requires k < MaxProbes && UpAt(answers, k)
    requires forall j :: 0 <= j < k ==> !UpAt(answers, j)
    ensures Poll(answers) == PollResult(k + 1, k, true)
  {
  }

  /** When no check within the budget succeeds, the loop sends all 30 checks and sleeps after each of them. */
  lemma PollExhausted(answers: seq<HttpOutcome>)
    requires forall j :: 0 <= j < MaxProbes ==> !UpAt(answers, j)
    ensures Poll(answers) == PollResult(MaxProbes, MaxProbes, false)
  {
  }

  // ---------------------------------------------------------------------------
  // Events and the application state they build
  // ---------------------------------------------------------------------------

  /** Everything the startup sequence and the UI handlers do that the rest of the application can observe. */
  datatype Event =
    | Launched(service: Service, command: Command)        // a spawn was attempted
    | Stored(service: Service, handle: Handle)            // a handle was put into its slot
    | Polled(service: Service, url: string, result: PollResult)
    | WindowShown
    | WindowHidden
    | ExitRequested(code: int)
    | TaskPanicked(msg: string)                           // the startup task ended in a panic

  /**
   * The application state: the two process slots, whether the main window
   * is visible, the exit code once an exit was requested, the seconds slept
   * by the poll loops, and the log of events so far.
   */
  datatype AppView = AppView(
    ollama: Option<Handle>,
    backend: Option<Handle>,
    visible: bool,
    exit: Option<int>,
    sleeps: nat,
    log: seq<Event>)

  /** Both slots empty, the window hidden until startup shows it, no exit requested. */
  const Initial := AppView(None, None, false, None, 0, [])

  /** The effect of one event on the state. */
  function Step(v: AppView, e: Event): (r: AppView)
    ensures r.log == v.log + [e]
    ensures r.ollama == (if e.Stored? && e.service == Ollama then Some(e.handle) else v.ollama)
    ensures r.backend == (if e.Stored? && e.service == Backend then Some(e.handle) else v.backend)
    ensures r.sleeps == v.sleeps + (if e.Polled? then e.result.sleeps else 0)
    ensures r.visible == (if e.WindowShown? then true else if e.WindowHidden? then false else v.visible)
    ensures r.exit == (if e.ExitRequested? then Some(e.code) else v.exit)
  {
    var w := v.(log := v.log + [e]);
    match e
    case Stored(Ollama, h) => w.(ollama := Some(h))
    case Stored(Backend, h) => w.(backend := Some(h))
    case Polled(_, _, p) => w.(sleeps := v.sleeps + p.sleeps)
    case WindowShown => w.(visible := true)
    case WindowHidden => w.(visible := false)
    case ExitRequested(code) => w.(exit := Some(code))
    case _ => w
  }

  /** The effect of a sequence of events, in order: afterwards the log has grown by exactly those events. */
  function Run(v: AppView, t: seq<Event>): (r: AppView)
    ensures r.log == v.log + t
    decreases |t|
  {
    if t == [] then v
    else
      assert t == [t[0]] + t[1..];
      Run(Step(v, t[0]), t[1..])
  }

  /** Running two sequences one after the other is running their concatenation. */
  lemma {:induction false} RunConcat(v: AppView, t1: seq<Event>, t2: seq<Event>)
    ensures Run(v, t1 + t2) == Run(Run(v, t1), t2)
    decreases |t1|
  {
    if t1 == [] {
      assert t1 + t2 == t2;
    } else {
      assert (t1 + t2)[0] == t1[0];
      assert (t1 + t2)[1..] == t1[1..] + t2;
      RunConcat(Step(v, t1[0]), t1[1..], t2);
    }
  }

  /** Running one more event is one more step. */
  lemma RunSnoc(v: AppView, t: seq<Event>, e: Event)
    ensures Run(v, t + [e]) == Step(Run(v, t), e)
  {
    RunConcat(v, t, [e]);
    assert [e][1..] == [];
  }

  /** Some event of the sequence is a launch of the service. */
  predicate Launches(t: seq<Event>, s: Service) {
    exists e | e in t :: e.Launched? && e.service == s
  }

  // ---------------------------------------------------------------------------
  // The startup sequence
  // ---------------------------------------------------------------------------

  /** What the outside world answers during one startup: the platform, the two spawns and the two services' health checks. */
  datatype StartupInputs = StartupInputs(
    os: string,
    arch: string,
    ollamaSpawn: SpawnOutcome,
    ollamaAnswers: seq<HttpOutcome>,
    backendSpawn: SpawnOutcome,
    backendAnswers: seq<HttpOutcome>)

  /** After a successful Ollama launch: store the handle, run the poll loop, launch the backend. */
  function OllamaStarted(h: Handle, p: PollResult): seq<Event> {
    [Stored(Ollama, h), Polled(Ollama, OllamaHealthUrl, p), Launched(Backend, BackendCommand())]
  }

  /** After a successful backend launch: store the handle, run the poll loop, show the window. */
  function BackendStarted(b: Handle, p: PollResult): seq<Event> {
    [Stored(Backend, b), Polled(Backend, BackendHealthUrl, p), WindowShown]
  }

  /**
   * The events of the startup task, in order: resolve and launch Ollama,
   * store its handle, poll it, launch the backend, store its handle, poll
   * it, show the window. A failed launch requests exit code 1 and ends the
   * task; an unsupported platform panics inside the startup task before any launch.
   */
  function StartupTrace(inp: StartupInputs): (t: seq<Event>)
    ensures |t| >= 1
    ensures t[|t| - 1].TaskPanicked? <==> OllamaPath(inp.os, inp.arch).Err?
    ensures t[|t| - 1] == ExitRequested(1) <==>
              OllamaPath(inp.os, inp.arch).Ok? && (inp.ollamaSpawn.SpawnFailed? || inp.backendSpawn.SpawnFailed?)
    ensures t[|t| - 1] == WindowShown <==>
              OllamaPath(inp.os, inp.arch).Ok? && inp.ollamaSpawn.Spawned? && inp.backendSpawn.Spawned?
    ensures OllamaPath(inp.os, inp.arch).Ok? ==> t[0] == Launched(Ollama, OllamaCommand(OllamaPath(inp.os, inp.arch).value))
  {
    match OllamaPath(inp.os, inp.arch)
    case Err(msg) => [TaskPanicked(msg)]
    case Ok(path) => [Launched(Ollama, OllamaCommand(path))] + AfterOllamaLaunch(inp)
  }

  /** What follows the Ollama launch: exit code 1 if it failed, otherwise its phase and then the backend's. */
  function AfterOllamaLaunch(inp: StartupInputs): (t: seq<Event>)
    ensures |t| >= 1
    ensures t[|t| - 1] == ExitRequested(1) <==> inp.ollamaSpawn.SpawnFailed? || inp.backendSpawn.SpawnFailed?
    ensures t[|t| - 1] == WindowShown <==> inp.ollamaSpawn.Spawned? && inp.backendSpawn.Spawned?
  {
    match inp.ollamaSpawn
    case SpawnFailed(_) => [ExitRequested(1)]
    case Spawned(h) => OllamaStarted(h, Poll(inp.ollamaAnswers)) + AfterBackendLaunch(inp)
  }

  /** What follows the backend launch: exit code 1 if it failed, otherwise its phase. */
  function AfterBackendLaunch(inp: StartupInputs): (t: seq<Event>)
    ensures |t| >= 1
    ensures t[|t| - 1] == ExitRequested(1) <==> inp.backendSpawn.SpawnFailed?
    ensures t[|t| - 1] == WindowShown <==> inp.backendSpawn.Spawned?
  {
    match inp.backendSpawn
    case SpawnFailed(_) => [ExitRequested(1)]
    case Spawned(b) => BackendStarted(b, Poll(inp.backendAnswers))
  }

  /** Running a single event is one step. */
  lemma RunOne(v: AppView, e: Event)
    ensures Run(v, [e]) == Step(v, e)
  {
    RunSnoc(v, [], e);
    assert [] + [e] == [e];
  }

  /** Running three events is three steps. */
  lemma RunThree(v: AppView, a: Event, b: Event, c: Event)
    ensures Run(v, [a, b, c]) == Step(Step(Step(v, a), b), c)
  {
    RunOne(v, a);
    RunSnoc(v, [a], b);
    assert [a] + [b] == [a, b];
    RunSnoc(v, [a, b], c);
    assert [a, b] + [c] == [a, b, c];
  }

  /** Once Ollama is launched, its part of the sequence fills the Ollama slot and adds its poll loop's sleeps, and nothing else. */
  lemma RunOllamaStarted(v: AppView, h: Handle, p: PollResult)
    ensures Run(v, OllamaStarted(h, p)) == v.(ollama := Some(h), sleeps := v.sleeps + p.sleeps, log := v.log + OllamaStarted(h, p))
  {
    var t := OllamaStarted(h, p);
    RunOne(v, t[0]);
    assert t[..1] + [t[1]] == t[..2];
    RunSnoc(v, t[..1], t[1]);
    assert t[..1] == [t[0]];
    RunSnoc(v, t[..2], t[2]);
    assert t[..2] + [t[2]] == t;
  }

  /** Once the backend is launched, its part of the sequence fills the backend slot, adds its sleeps and shows the window. */
  lemma RunBackendStarted(v: AppView, b: Handle, p: PollResult)
    ensures Run(v, BackendStarted(b, p)) == v.(backend := Some(b), sleeps := v.sleeps + p.sleeps, visible := true, log := v.log + BackendStarted(b, p))
  {
    var t := BackendStarted(b, p);
    RunOne(v, t[0]);
    assert t[..1] + [t[1]] == t[..2];
    RunSnoc(v, t[..1], t[1]);
    assert t[..1] == [t[0]];
    RunSnoc(v, t[..2], t[2]);
    assert t[..2] + [t[2]] == t;
  }

  /**
   * On a platform without a bundled binary the lookup panics inside the
   * startup task: nothing is launched, no exit is requested and the window
   * stays as it was.
   */
  lemma StartupOnUnsupportedPlatform(v: AppView, inp: StartupInputs)
    requires OllamaPath(inp.os, inp.arch).Err?
    ensures Run(v, StartupTrace(inp)) == v.(log := v.log + [TaskPanicked("Unsupported platform")])
  {
    RunOne(v, TaskPanicked("Unsupported platform"));
  }

  /**
   * A failed Ollama launch requests exit code 1: the backend is never
   * launched, neither slot changes (both stay empty from the initial state)
   * and the window is never shown.
   */
  lemma StartupOllamaLaunchFails(v: AppView, inp: StartupInputs)
    requires OllamaPath(inp.os, inp.arch).Ok? && inp.ollamaSpawn.SpawnFailed?
    ensures var r := Run(v, StartupTrace(inp));
            && r.exit == Some(1)
            && r.ollama == v.ollama && r.backend == v.backend
            && r.visible == v.visible && r.sleeps == v.sleeps
    ensures !Launches(StartupTrace(inp), Backend) && WindowShown !in StartupTrace(inp)
  {
    var e1 := Launched(Ollama, OllamaCommand(OllamaPath(inp.os, inp.arch).value));
    RunConcat(v, [e1], [ExitRequested(1)]);
    RunOne(v, e1);
    RunOne(Step(v, e1), ExitRequested(1));
  }

  /**
   * A failed backend launch requests exit code 1 and never shows the window;
   * the Ollama slot keeps its handle and the backend slot does not change.
   * The Ollama poll loop ran to its end first, whatever it found.
   */
  lemma StartupBackendLaunchFails(v: AppView, inp: StartupInputs)
    requires OllamaPath(inp.os, inp.arch).Ok? && inp.ollamaSpawn.Spawned? && inp.backendSpawn.SpawnFailed?
    ensures var r := Run(v, StartupTrace(inp));
            && r.exit == Some(1)
            && r.ollama == Some(inp.ollamaSpawn.handle) && r.backend == v.backend
            && r.visible == v.visible
            && r.sleeps == v.sleeps + Poll(inp.ollamaAnswers).sleeps
    ensures WindowShown !in StartupTrace(inp)
  {
    var e1 := Launched(Ollama, OllamaCommand(OllamaPath(inp.os, inp.arch).value));
    var mid := OllamaStarted(inp.ollamaSpawn.handle, Poll(inp.ollamaAnswers));
    assert StartupTrace(inp) == [e1] + (mid + [ExitRequested(1)]);
    RunConcat(v, [e1], mid + [ExitRequested(1)]);
    RunOne(v, e1);
    RunSnoc(Step(v, e1), mid, ExitRequested(1));
    RunOllamaStarted(Step(v, e1), inp.ollamaSpawn.handle, Poll(inp.ollamaAnswers));
  }

  /**
   * When both launches succeed, whatever the health checks answered: both
   * slots hold their handles, no exit is requested, the poll loops' sleeps
   * are added to the clock and the window is visible.
   */
  lemma StartupBothLaunched(v: AppView, inp: StartupInputs)
    requires OllamaPath(inp.os, inp.arch).Ok? && inp.ollamaSpawn.Spawned? && inp.backendSpawn.Spawned?
    ensures var r := Run(v, StartupTrace(inp));
            && r.ollama == Some(inp.ollamaSpawn.handle) && r.backend == Some(inp.backendSpawn.handle)
            && r.visible && r.exit == v.exit
            && r.sleeps == v.sleeps + Poll(inp.ollamaAnswers).sleeps + Poll(inp.backendAnswers).sleeps
  {
    var e1 := Launched(Ollama, OllamaCommand(OllamaPath(inp.os, inp.arch).value));
    var mid := OllamaStarted(inp.ollamaSpawn.handle, Poll(inp.ollamaAnswers));
    var last := BackendStarted(inp.backendSpawn.handle, Poll(inp.backendAnswers));
    assert StartupTrace(inp) == [e1] + (mid + last);
    RunConcat(v, [e1], mid + last);
    RunOne(v, e1);
    RunConcat(Step(v, e1), mid, last);
    RunOllamaStarted(Step(v, e1), inp.ollamaSpawn.handle, Poll(inp.ollamaAnswers));
    RunBackendStarted(Run(Step(v, e1), mid), inp.backendSpawn.handle, Poll(inp.backendAnswers));
  }

  /**
   * When both launches succeed the startup task takes seven steps, and the window is
   * shown exactly once, as the last step, right after the backend poll loop.
   */
  lemma StartupShowsWindowLast(inp: StartupInputs)
    requires OllamaPath(inp.os, inp.arch).Ok? && inp.ollamaSpawn.Spawned? && inp.backendSpawn.Spawned?
    ensures var t := StartupTrace(inp);
            && |t| == 7 && multiset(t)[WindowShown] == 1 && t[6] == WindowShown
            && t[5] == Polled(Backend, BackendHealthUrl, Poll(inp.backendAnswers))
  {
    var e1 := Launched(Ollama, OllamaCommand(OllamaPath(inp.os, inp.arch).value));
    var before := [e1] + OllamaStarted(inp.ollamaSpawn.handle, Poll(inp.ollamaAnswers))
                  + [Stored(Backend, inp.backendSpawn.handle), Polled(Backend, BackendHealthUrl, Poll(inp.backendAnswers))];
    assert StartupTrace(inp) == before + [WindowShown];
    ShownOnlyAtEnd(before, Polled(Backend, BackendHealthUrl, Poll(inp.backendAnswers)));
  }

  /** A sequence of steps without a window show, followed by one, shows the window once, at the end. */
  lemma ShownOnlyAtEnd(before: seq<Event>, p: Event)
    requires |before| >= 1 && before[|before| - 1] == p && WindowShown !in before
    ensures var t := before + [WindowShown];
            multiset(t)[WindowShown] == 1 && t[|before|] == WindowShown && t[|before| - 1] == p
  {
    assert multiset(before + [WindowShown]) == multiset(before) + multiset{WindowShown};
  }

  /**
   * The backend is launched exactly when the Ollama launch succeeded,
   * whatever the Ollama health checks answered (an exhausted budget is not
   * fatal); and it is launched only after the Ollama handle was stored and
   * the Ollama poll loop, aimed at the base URL the backend is given, ended.
   */
  lemma BackendLaunchOrder(inp: StartupInputs)
    ensures Launches(StartupTrace(inp), Backend) <==> OllamaPath(inp.os, inp.arch).Ok? && inp.ollamaSpawn.Spawned?
    ensures var t := StartupTrace(inp);
            forall i | 0 <= i < |t| && t[i].Launched? && t[i].service == Backend ::
              && t[i].command == BackendCommand()
              && (exists j :: 0 <= j < i && t[j].Stored? && t[j].service == Ollama)
              && i > 0 && t[i - 1].Polled? && t[i - 1].service == Ollama && t[i - 1].url == OllamaHealthUrl
  {
    var t := StartupTrace(inp);
    if OllamaPath(inp.os, inp.arch).Ok? && inp.ollamaSpawn.Spawned? {
      assert t[1].Stored? && t[1].service == Ollama;
      assert t[3].Launched? && t[3].service == Backend && t[3] in t;
      forall i | 0 <= i < |t| && t[i].Launched? && t[i].service == Backend
        ensures i == 3
      {
      }
    } else {
      forall e | e in t
        ensures !(e.Launched? && e.service == Backend)
      {
      }
    }
  }

  /**
   * A daemon that never answers its health checks costs the full budget,
   * thirty one-second sleeps, and then the backend is still launched; a
   * backend that never answers either costs thirty more, and the window is
   * still shown.
   */
  lemma NeverHealthyStillShowsWindow(os: string, arch: string, h: Handle, b: Handle)
    requires OllamaPath(os, arch).Ok?
    ensures var r := Run(Initial, StartupTrace(StartupInputs(os, arch, Spawned(h), [], Spawned(b), [])));
            r.visible && r.exit == None && r.sleeps == 2 * MaxProbes
  {
    PollExhausted([]);
    StartupBothLaunched(Initial, StartupInputs(os, arch, Spawned(h), [], Spawned(b), []));
  }

  /** A daemon that first answers on its second health check is waited for with exactly one sleep. */
  lemma UpOnSecondCheck(refused: string, status: nat)
    requires 200 <= status < 300
    ensures Poll([RequestFailed(refused), Responded(status)]) == PollResult(2, 1, true)
  {
    PollStopsAtFirstSuccess([RequestFailed(refused), Responded(status)], 1);
  }
}
