/**
 * ViewServer: the window registry, the start/stop life cycle and the one-line request
 * protocol of a connection. Sockets, the accept loop, the thread pool, locks and
 * listeners are outside the model; their outcomes arrive as parameters.
 */
module Server {
  import opened Wrappers
  import opened Text
  import opened Views
  import opened JsonPrinter

  const COMMAND_PRINT_HIERARCHY := "print"

  // ---------------------------------------------------------------------------
  // The request line

  /** A request line cut into its command and its parameters. */
  datatype Request = Request(command: string, parameters: string)

  /** Cuts the line at its first space; with no space the whole line is the command. */
  function SplitRequest(line: string): (r: Request)
    ensures ' ' !in line ==> r == Request(line, "")
    ensures ' ' in line ==> line == r.command + " " + r.parameters && ' ' !in r.command
  {
    var index := IndexOf(line, ' ');
    if index == -1 then Request(line, "")
    else
      assert line == line[..index] + " " + line[index + 1..];
      Request(line[..index], line[index + 1..])
  }

  /** A command without spaces and any parameters come back out of the line they make. */
  lemma SplitRequestRoundTrip(command: string, parameters: string)
    requires ' ' !in command
    ensures SplitRequest(command + " " + parameters) == Request(command, parameters)
  {
    var line := command + " " + parameters;
    assert line[|command|] == ' ';
    assert ' ' in line;
    var r := SplitRequest(line);
    var index := IndexOf(line, ' ');
    assert line[..|command|] == command;
    assert line[index + 1..] == parameters;
  }

  /** The object grammar is asked for: the parameters are `json` in any case. */
  predicate WantsJson(parameters: string) {
    EqualsIgnoreCase(parameters, "json")
  }

  /** The command is `print` in any case. */
  predicate IsPrintCommand(command: string) {
    EqualsIgnoreCase(COMMAND_PRINT_HIERARCHY, command)
  }

  /**
   * Which strings count as `json`: four characters, each the letter or its other case;
   * the long s (U+017F) upper-cases to `S` and is accepted for the `s`.
   */
  lemma WantsJsonExactly(p: string)
    ensures WantsJson(p) <==>
      |p| == 4 && p[0] in "jJ" && p[1] in "sS\U{017F}" && p[2] in "oO" && p[3] in "nN"
  {
    if |p| == 4 {
      assert CharEqualsIgnoreCase(p[0], 'j') <==> p[0] in "jJ";
      assert CharEqualsIgnoreCase(p[1], 's') <==> p[1] in "sS\U{017F}";
      assert CharEqualsIgnoreCase(p[2], 'o') <==> p[2] in "oO";
      assert CharEqualsIgnoreCase(p[3], 'n') <==> p[3] in "nN";
    }
  }

  /**
   * Which commands count as `print`: five characters, each the letter or its other case;
   * for the `i`, the dotless i (U+0131) and the dotted capital I (U+0130) match too.
   */
  lemma IsPrintCommandExactly(c: string)
    ensures IsPrintCommand(c) <==>
      |c| == 5 && c[0] in "pP" && c[1] in "rR" && c[2] in "iI\U{0131}\U{0130}"
      && c[3] in "nN" && c[4] in "tT"
  {
    if |c| == 5 {
      assert CharEqualsIgnoreCase('p', c[0]) <==> c[0] in "pP";
      assert CharEqualsIgnoreCase('r', c[1]) <==> c[1] in "rR";
      assert CharEqualsIgnoreCase('i', c[2]) <==> c[2] in "iI\U{0131}\U{0130}";
      assert CharEqualsIgnoreCase('n', c[3]) <==> c[3] in "nN";
      assert CharEqualsIgnoreCase('t', c[4]) <==> c[4] in "tT";
    }
  }

  /** What a connection does with its request line. */
  datatype Action = Ignored | PrintJson(root: View) | PrintXml(root: View)

  /**
   * ViewServerWorker.run, up to the printer call: a missing line (end of stream) or a
   * missing focused window ends in a caught exception; only `print` reaches a printer,
   * and only while the output is open; `json` chooses the object grammar.
   */
  function Dispatch(request: Option<string>, outputShutdown: bool, focused: Option<View>): (a: Action)
    ensures a != Ignored <==>
      request.Some? && IsPrintCommand(SplitRequest(request.value).command)
      && !outputShutdown && focused.Some?
    ensures a.PrintJson? <==> a != Ignored && WantsJson(SplitRequest(request.value).parameters)
    ensures a != Ignored ==> a.root == focused.value
  {
    if request.None? then Ignored
    else
      var r := SplitRequest(request.value);
      if !IsPrintCommand(r.command) || outputShutdown || focused.None? then Ignored
      else if WantsJson(r.parameters) then PrintJson(focused.value)
      else PrintXml(focused.value)
  }

  /** Any command other than `print` is ignored, whatever follows it. */
  lemma OtherCommandsIgnored(command: string, parameters: string, outputShutdown: bool, focused: Option<View>)
    requires ' ' !in command && !IsPrintCommand(command)
    ensures Dispatch(Some(command + " " + parameters), outputShutdown, focused) == Ignored
  {
    SplitRequestRoundTrip(command, parameters);
  }

  // ---------------------------------------------------------------------------
  // Activities

  /** The parts of an Activity the server reads. */
  datatype Activity = Activity(title: string, canonicalName: string, identityHash: int32, decorView: View)

  /**
   * addWindow(Activity)'s name: `canonicalName/0x<hash>` for an empty title, the hash
   * written in decimal despite the prefix; `title(canonicalName)` otherwise.
   */
  function ActivityName(a: Activity): string {
    if a.title == "" then a.canonicalName + "/0x" + IntToString(a.identityHash)
    else a.title + "(" + a.canonicalName + ")"
  }

  /** An untitled activity's name ends in `/0x` and the decimal digits of its hash. */
  lemma UntitledActivityName(a: Activity)
    requires a.title == ""
    ensures var n := ActivityName(a);
      && n[..|a.canonicalName|] == a.canonicalName
      && n[|a.canonicalName|..|a.canonicalName| + 3] == "/0x"
      && ParseInt(n[|a.canonicalName| + 3..]) == Some(a.identityHash as int)
  {
    var n := ActivityName(a);
    var digits := IntToString(a.identityHash);
    assert n == a.canonicalName + "/0x" + digits;
    assert n[|a.canonicalName| + 3..] == digits;
    IntToStringRoundTrip(a.identityHash);
  }

  /** A titled activity's name is its title with the class name in parentheses. */
  lemma TitledActivityName(a: Activity)
    requires a.title != ""
    ensures var n := ActivityName(a);
      && n[..|a.title|] == a.title && n[|n| - 1] == ')'
      && n[|a.title|..|n| - 1] == "(" + a.canonicalName
  {
    var n := ActivityName(a);
    assert n == a.title + ("(" + a.canonicalName) + ")";
  }

  /** How setFocusedWindow(Activity) ends: with the new focus, or with an exception. */
  datatype FocusOutcome = Focused(focus: Option<View>) | FocusThrewNullPointer

  /**
   * setFocusedWindow(Activity) as written: the activity is dereferenced for its window,
   * so the null that is meant to remove focus throws instead.
   */
  function FocusActivityAsWritten(rootOf: View -> View, a: Option<Activity>): FocusOutcome {
    if a.None? then FocusThrewNullPointer else Focused(Some(rootOf(a.value.decorView)))
  }

  /** Passing null to remove focus throws and leaves the focus as it was. */
  lemma NullActivityThrows(rootOf: View -> View)
    ensures FocusActivityAsWritten(rootOf, None) == FocusThrewNullPointer
  {}

  /**
   * setFocusedWindow(Activity) as its documentation promises: null removes the focus,
   * as setFocusedWindow(View) does; any other activity focuses its decor view's root.
   */
  function FocusActivity(rootOf: View -> View, a: Option<Activity>): (r: Option<View>)
    ensures r.None? <==> a.None?
    ensures a.Some? ==> FocusActivityAsWritten(rootOf, a) == Focused(r)
    ensures r.Some? ==> r.value == rootOf(a.value.decorView)
  {
    if a.None? then None else Some(rootOf(a.value.decorView))
  }

  // ---------------------------------------------------------------------------
  // Life cycle

  /** The fields of a ViewServer: which of mThread, mThreadPool and mServer are set. */
  datatype State = State(thread: bool, pool: bool, socket: bool,
                         windows: map<View, string>, focused: Option<View>)

  /** start(): refuses when a thread exists, otherwise creates the thread and the pool. */
  function StartResult(s: State): (r: (bool, State))
    ensures r.0 <==> !s.thread
    ensures !r.0 ==> r.1 == s
    ensures r.0 ==> r.1 == s.(thread := true, pool := true)
  {
    if s.thread then (false, s) else (true, s.(thread := true, pool := true))
  }

  /** How stop() ends: with a result, or with an exception thrown to the caller. */
  datatype StopOutcome = Returned(stopped: bool) | ThrewNullPointer

  /**
   * stop() as written: `mServer.close()` is reached whenever a thread exists, and a
   * server socket that was never bound is null there.
   */
  function StopAsWritten(s: State, closeFails: bool): (StopOutcome, State) {
    if s.thread then
      var stopped := s.(thread := false, pool := false);
      if !s.socket then (ThrewNullPointer, stopped)
      else if !closeFails then (Returned(true), stopped.(socket := false))
      else (Returned(false), stopped.(windows := map[], focused := None))
    else (Returned(false), s.(windows := map[], focused := None))
  }

  /**
   * A server started and stopped before its thread bound the socket (or after binding
   * failed) throws from stop() instead of stopping.
   */
  lemma StopBeforeBindThrows(s: State, closeFails: bool)
    requires !s.thread && !s.socket
    ensures StopAsWritten(StartResult(s).1, closeFails).0 == ThrewNullPointer
  {}

  /**
   * stop() with the close guarded: a null server socket has nothing to close. Whenever a
   * socket exists it has the three outcomes of stop() as written (`StopAsWritten`); it
   * never throws, always leaves no thread, and no pool if it stopped a thread.
   */
  function StopResult(s: State, closeFails: bool): (r: (bool, State))
    ensures !r.1.thread && r.1.pool == (s.pool && !s.thread)
    ensures r.0 <==> s.thread && (!s.socket || !closeFails)
    ensures r.0 ==> r.1.windows == s.windows && r.1.focused == s.focused && !r.1.socket
    ensures !r.0 ==> r.1.windows == map[] && r.1.focused == None && r.1.socket == s.socket
    ensures s.socket ==> StopAsWritten(s, closeFails) == (Returned(r.0), r.1)
  {
    if s.thread then
      var stopped := s.(thread := false, pool := false);
      if !s.socket || !closeFails then (true, stopped.(socket := false))
      else (false, stopped.(windows := map[], focused := None))
    else (false, s.(windows := map[], focused := None))
  }

  /** A second start() is refused and changes nothing. */
  lemma StartTwice(s: State)
    ensures var first := StartResult(s).1;
      !StartResult(first).0 && StartResult(first).1 == first
  {}

  /** Stopping a started server makes it startable again, with the same registry if the stop succeeded. */
  lemma StopThenStart(s: State, closeFails: bool)
    requires s.thread
    ensures var (stopped, after) := StopResult(s, closeFails);
      StartResult(after).0 && (stopped ==> StartResult(after).1.windows == s.windows)
  {}

  /** The server socket that run() binds on the server thread; binding may fail. */
  function BindResult(s: State, bindOk: bool): (r: State)
    ensures r.socket <==> s.socket || bindOk
    ensures r.(socket := s.socket) == s
  {
    if bindOk then s.(socket := true) else s
  }

  // ---------------------------------------------------------------------------
  // The server

  class ViewServer {
    const port: int
    /** View.getRootView. */
    const rootOf: View -> View
    var thread: bool
    var pool: bool
    var socket: bool
    var windows: map<View, string>
    var focused: Option<View>

    function Snapshot(): State
      reads this
    {
      State(thread, pool, socket, windows, focused)
    }

    constructor (port: int, rootOf: View -> View)
      ensures this.port == port && this.rootOf == rootOf
      ensures Snapshot() == State(false, false, false, map[], None)
    {
      this.port := port;
      this.rootOf := rootOf;
      thread, pool, socket := false, false, false;
      windows, focused := map[], None;
    }

    method Start() returns (started: bool)
      modifies this
      ensures (started, Snapshot()) == StartResult(old(Snapshot()))
    {
      if thread {
        return false;
      }
      thread := true;
      pool := true;
      started := true;
    }

    /** The corrected stop(); `closeFails` is whether closing the server socket throws. */
    method Stop(closeFails: bool) returns (stopped: bool)
      modifies this
      ensures (stopped, Snapshot()) == StopResult(old(Snapshot()), closeFails)
    {
      if thread {
        pool := false;
        thread := false;
        if !socket || !closeFails {
          socket := false;
          return true;
        }
      }
      windows := map[];
      focused := None;
      stopped := false;
    }

    /** The binding step at the top of run(). */
    method Bind(bindOk: bool)
      modifies this
      ensures Snapshot() == BindResult(old(Snapshot()), bindOk)
    {
      if bindOk {
        socket := true;
      }
    }

    /** isRunning(): `threadAlive` is Thread.isAlive of the server thread. */
    method IsRunning(threadAlive: bool) returns (running: bool)
      ensures running <==> thread && threadAlive
    {
      running := thread && threadAlive;
    }

    /** Registers the window of `view` under `name`, replacing any earlier name. */
    method AddWindow(view: View, name: string)
      modifies this
      ensures windows == old(windows)[rootOf(view) := name]
      ensures Snapshot() == old(Snapshot()).(windows := windows)
    {
      windows := windows[rootOf(view) := name];
    }

    /** Unregisters the window of `view`; nothing happens when it is not registered. */
    method RemoveWindow(view: View)
      modifies this
      ensures windows == old(windows) - {rootOf(view)}
      ensures Snapshot() == old(Snapshot()).(windows := windows)
    {
      windows := windows - {rootOf(view)};
    }

    /** Focus moves to the window of `view`, or is cleared for null. */
    method SetFocusedWindow(view: Option<View>)
      modifies this
      ensures focused == if view.None? then None else Some(rootOf(view.value))
      ensures Snapshot() == old(Snapshot()).(focused := focused)
    {
      focused := if view.None? then None else Some(rootOf(view.value));
    }

    method AddActivity(a: Activity)
      modifies this
      ensures windows == old(windows)[rootOf(a.decorView) := ActivityName(a)]
      ensures Snapshot() == old(Snapshot()).(windows := windows)
    {
      AddWindow(a.decorView, ActivityName(a));
    }

    method RemoveActivity(a: Activity)
      modifies this
      ensures windows == old(windows) - {rootOf(a.decorView)}
      ensures Snapshot() == old(Snapshot()).(windows := windows)
    {
      RemoveWindow(a.decorView);
    }

    /** The corrected setFocusedWindow(Activity): null removes the focus. */
    method SetFocusedActivity(a: Option<Activity>)
      modifies this
      ensures focused == FocusActivity(rootOf, a)
      ensures Snapshot() == old(Snapshot()).(focused := focused)
    {
      SetFocusedWindow(if a.None? then None else Some(a.value.decorView));
    }

    /**
     * One connection: read the request line, then print the focused window in the
     * grammar the line asks for. The object grammar's text is appended to `out`.
     */
    method Serve(out: Writer, request: Option<string>, outputShutdown: bool) returns (a: Action)
      modifies out
      ensures a == Dispatch(request, outputShutdown, focused)
      ensures out.text == old(out.text) + (if a.PrintJson? then Output(Print(a.root)) else "")
    {
      a := Dispatch(request, outputShutdown, focused);
      if a.PrintJson? {
        var _ := PrintHierarchy(out, a.root);
      }
    }
  }

  /** Adding a window and removing it again leaves the other windows as they were. */
  lemma AddThenRemove(windows: map<View, string>, root: View, name: string)
    ensures windows[root := name] - {root} == windows - {root}
    ensures (windows[root := name] - {root}) + (if root in windows then map[root := windows[root]] else map[]) == windows
  {}

  /** Adding twice under the same root keeps only the later name. */
  lemma AddTwice(windows: map<View, string>, root: View, first: string, second: string)
    ensures windows[root := first][root := second] == windows[root := second]
  {}

  /** Removing a window that is not registered changes nothing. */
  lemma RemoveAbsent(windows: map<View, string>, root: View)
    requires root !in windows
    ensures windows - {root} == windows
  {}

  /** NoopViewServer: the same interface, which does nothing and reports false. */
  class NoopViewServer {
    constructor () {}

    method Start() returns (started: bool)
      ensures !started
    {
      started := false;
    }

    method Stop() returns (stopped: bool)
      ensures !stopped
    {
      stopped := false;
    }

    method IsRunning() returns (running: bool)
      ensures !running
    {
      running := false;
    }

    method AddWindow(view: View, name: string) {}
    method RemoveWindow(view: View) {}
    method SetFocusedWindow(view: Option<View>) {}
    method AddActivity(a: Activity) {}
    method RemoveActivity(a: Activity) {}
    method SetFocusedActivity(a: Option<Activity>) {}
  }
}
