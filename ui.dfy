/**
 * The desktop shell's two UI handlers: the system tray menu ("Open" shows
 * the main window, "Quit" exits with code 0) and the main window's close
 * button, which hides the window instead of closing it.
 */
module Ui {
  import opened Common
  import opened Sequencer

  /** What the system tray reports: a click on a menu item, identified by its id, or a click on the icon itself. */
  datatype TrayEvent = MenuItemClick(id: string) | LeftClick | RightClick | DoubleClick

  /** What the main window reports: a request to close it, or anything else (focus, resize, move, ...). */
  datatype WindowEvent = CloseRequested | OtherWindowEvent

  /** Any UI event, in the order the event loop delivers them. */
  datatype UiEvent = Tray(tray: TrayEvent) | Window(window: WindowEvent)

  /** The ids of the tray menu's two items. */
  const QuitId := "quit"
  const OpenId := "open"

  /**
   * The tray handler: "quit" requests exit code 0 and nothing else (the
   * child processes are not stopped), "open" shows the main window, and
   * every other item and every click on the icon does nothing.
   */
  function TrayTrace(e: TrayEvent): (r: seq<Event>)
    ensures r == [ExitRequested(0)] <==> e == MenuItemClick(QuitId)
    ensures r == [WindowShown] <==> e == MenuItemClick(OpenId)
    ensures r == [] <==> !(e.MenuItemClick? && (e.id == QuitId || e.id == OpenId))
  {
    match e
    case MenuItemClick(id) =>
      if id == QuitId then [ExitRequested(0)]
      else if id == OpenId then [WindowShown]
      else []
    case _ => []
  }

  /** The window handler: a close request hides the window (and the close itself is prevented); nothing else is handled. */
  function WindowTrace(e: WindowEvent): (r: seq<Event>)
    ensures r == [WindowHidden] <==> e == CloseRequested
    ensures r == [] <==> e != CloseRequested
  {
    match e
    case CloseRequested => [WindowHidden]
    case OtherWindowEvent => []
  }

  /** The handler for one UI event. */
  function HandlerTrace(u: UiEvent): seq<Event> {
    match u
    case Tray(e) => TrayTrace(e)
    case Window(e) => WindowTrace(e)
  }

  /** The events a sequence of UI events causes, in order. */
  function UiTrace(us: seq<UiEvent>): seq<Event>
    decreases |us|
  {
    if us == [] then [] else UiTrace(us[..|us| - 1]) + HandlerTrace(us[|us| - 1])
  }

  /** One UI event changes at most the window's visibility and the exit code, and it requests no exit code but 0. */
  lemma HandlerEffect(v: AppView, u: UiEvent)
    ensures var r := Run(v, HandlerTrace(u));
            && r.ollama == v.ollama && r.backend == v.backend && r.sleeps == v.sleeps
            && (r.exit == v.exit || r.exit == Some(0))
            && (u == Tray(MenuItemClick(QuitId)) ==> r.exit == Some(0))
            && (u == Tray(MenuItemClick(OpenId)) ==> r.visible)
            && (u == Window(CloseRequested) ==> !r.visible)
            && (HandlerTrace(u) == [] ==> r == v)
  {
    var t := HandlerTrace(u);
    if t != [] {
      assert |t| == 1;
      assert t == [t[0]];
      RunOne(v, t[0]);
    }
  }

  /**
   * Whatever the user does with the tray and the window: neither child
   * process slot changes (quitting leaves both children as they were), no
   * time passes, the only exit code ever requested is 0, a "quit" anywhere
   * in the sequence leaves an exit requested, and when the last event is a
   * close request the window ends up hidden, when it is "open", visible.
   */
  lemma {:induction false} UiEventsKeepChildren(v: AppView, us: seq<UiEvent>)
    ensures var r := Run(v, UiTrace(us));
            && r.ollama == v.ollama && r.backend == v.backend && r.sleeps == v.sleeps
            && (r.exit == v.exit || r.exit == Some(0))
            && (Tray(MenuItemClick(QuitId)) in us ==> r.exit == Some(0))
            && (|us| > 0 && us[|us| - 1] == Window(CloseRequested) ==> !r.visible)
            && (|us| > 0 && us[|us| - 1] == Tray(MenuItemClick(OpenId)) ==> r.visible)
    decreases |us|
  {
    if us != [] {
      var init := us[..|us| - 1];
      var u := us[|us| - 1];
      assert us == init + [u];
      UiEventsKeepChildren(v, init);
      RunConcat(v, UiTrace(init), HandlerTrace(u));
      HandlerEffect(Run(v, UiTrace(init)), u);
      var mid := Run(v, UiTrace(init));
      var r := Run(mid, HandlerTrace(u));
      if Tray(MenuItemClick(QuitId)) in us && u != Tray(MenuItemClick(QuitId)) {
        assert Tray(MenuItemClick(QuitId)) in init;
        assert mid.exit == Some(0);
        assert r.exit == Some(0) || r.exit == mid.exit;
      }
    }
  }
}
