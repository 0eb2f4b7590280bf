/** The Selenium server side (lib/selenium.ts): the Java environment check and
    the start sequence (port, argument list, optional install, start, and the
    output log that is replayed at info level when a step fails).

    The collaborators `which`, `freeport` and selenium-standalone's `install`
    and `start` are not run: their outcomes are parameters. */
module Selenium {
  import opened Wrappers
  import opened Lists

  datatype Level = Debug | Info | Error

  /** One `wct.emit('log:<level>', message)`. */
  datatype LogEntry = LogEntry(level: Level, message: string)

  /** The host's log channel (the `emit` of the WCT context). */
  class Wct {
    var emitted: seq<LogEntry>

    constructor ()
      ensures emitted == []
    {
      emitted := [];
    }

    method Emit(e: LogEntry)
      modifies this
      ensures emitted == old(emitted) + [e]
    {
      emitted := emitted + [e];
    }
  }

  // ---------------------------------------------------------------------------
  // checkSeleniumEnvironment

  /** The facts `checkSeleniumEnvironment` consults: whether `which` finds java
      and apt-get, and `process.platform`. */
  datatype HostFacts = HostFacts(javaFound: bool, platform: string, aptGetFound: bool)

  const JavaMissing := "java is not present on your PATH."
  const WindowsHint := "\n\n  Please install it: https://java.com/download/\n\n"
  const AptHint := "\n\n  sudo apt-get install default-jre\n\n"

  /** The error `checkSeleniumEnvironment` passes to its callback: none when
      java is found, otherwise the base message, with a download hint on
      Windows and a package hint on Linux when apt-get exists. */
  function CheckSeleniumEnvironment(host: HostFacts): (r: Option<string>)
    ensures r.None? <==> host.javaFound
    ensures r.Some? ==> JavaMissing <= r.value
    ensures r.Some? ==> (r.value == JavaMissing + WindowsHint <==> host.platform == "win32")
    ensures r.Some? ==> (r.value == JavaMissing + AptHint <==> host.platform == "linux" && host.aptGetFound)
    ensures r.Some? ==> (r.value == JavaMissing <==>
                           host.platform != "win32" && !(host.platform == "linux" && host.aptGetFound))
  {
    if host.javaFound then None
    else if host.platform == "win32" then Some(JavaMissing + WindowsHint)
    else if host.platform == "linux" && host.aptGetFound then Some(JavaMissing + AptHint)
    else Some(JavaMissing)
  }

  // ---------------------------------------------------------------------------
  // seleniumStart

  /** What an install or start step of selenium-standalone does: the output
      chunks it produces before calling back, and the error it calls back with. */
  datatype StepOutcome = StepOutcome(output: seq<string>, error: Option<string>)

  /** The collaborator calls of a start sequence, in the order they are made. */
  datatype Call = FreePort | Install | Start(seleniumArgs: seq<string>)

  /** `['-port', port.toString()].concat(args)`. */
  function ServerArgs(port: nat, args: seq<string>): (r: seq<string>)
    ensures |r| == |args| + 2 && r[0] == "-port" && r[2..] == args
    ensures AllDigits(r[1]) && DecimalValue(r[1]) == port
    ensures |r[1]| > 1 ==> r[1][0] != '0'
  {
    ["-port", NatToString(port)] + args
  }

  /** The lines, each as an entry at `level`, in order. */
  function AtLevel(level: Level, lines: seq<string>): (r: seq<LogEntry>)
    ensures |r| == |lines|
  {
    if lines == [] then [] else AtLevel(level, lines[..|lines| - 1]) + [LogEntry(level, lines[|lines| - 1])]
  }

  lemma {:induction false} AtLevelAt(level: Level, lines: seq<string>, i: nat)
    requires i < |lines|
    ensures AtLevel(level, lines)[i] == LogEntry(level, lines[i])
  {
    if i < |lines| - 1 {
      AtLevelAt(level, lines[..|lines| - 1], i);
    }
  }

  lemma {:induction false} AtLevelAppend(level: Level, a: seq<string>, b: seq<string>)
    ensures AtLevel(level, a + b) == AtLevel(level, a) + AtLevel(level, b)
  {
    if b == [] {
      assert a + b == a;
    } else {
      assert (a + b)[..|a + b| - 1] == a + b[..|b| - 1];
      AtLevelAppend(level, a, b[..|b| - 1]);
    }
  }

  function SuccessLine(port: nat): LogEntry {
    LogEntry(Info, "Selenium server running on port " + NatToString(port))
  }

  /** The whole observable effect of one start sequence. */
  datatype Run = Run(result: Result<nat, string>, calls: seq<Call>, emitted: seq<LogEntry>)

  /** The reference sequence of `seleniumStart`: an environment error stops
      everything; otherwise a port is requested; with `install`, install runs
      first and start only after it succeeds; each output chunk is logged at
      debug level as it arrives; a failing step replays every chunk seen so far
      at info level and reports its error; success reports the port. */
  function StartRun(args: seq<string>, install: bool, envError: Option<string>,
                    freeport: Result<nat, string>, installStep: StepOutcome, startStep: StepOutcome): (r: Run)
    ensures r.calls == [] <==> envError.Some?
    ensures r.result.Ok? ==> envError.None? && freeport == Ok(r.result.value)
  {
    if envError.Some? then Run(Err(envError.value), [], [])
    else if freeport.Err? then Run(Err(freeport.error), [FreePort], [])
    else
      var run := RunOnPort(freeport.value, args, install, installStep, startStep);
      Run(run.result, [FreePort] + run.calls, run.emitted)
  }

  /** The part of `StartRun` after the port has been allocated. */
  function RunOnPort(port: nat, args: seq<string>, install: bool,
                     installStep: StepOutcome, startStep: StepOutcome): (r: Run)
    ensures r.result.Ok? <==> (!install || installStep.error.None?) && startStep.error.None?
    ensures r.result.Ok? ==> r.result.value == port
    ensures r.calls != [] && (install <==> r.calls[0] == Install)
  {
    var before := if install then installStep.output else [];
    if install && installStep.error.Some? then
      Run(Err(installStep.error.value), [Install], AtLevel(Debug, before) + AtLevel(Info, before))
    else
      var calls := (if install then [Install] else []) + [Start(ServerArgs(port, args))];
      var all := before + startStep.output;
      if startStep.error.Some? then
        Run(Err(startStep.error.value), calls, AtLevel(Debug, all) + AtLevel(Info, all))
      else
        Run(Ok(port), calls, AtLevel(Debug, all) + [SuccessLine(port)])
  }

  /** An environment error is reported unchanged, and no port is requested. */
  lemma EnvErrorStopsStart(args: seq<string>, install: bool, envError: Option<string>,
                           freeport: Result<nat, string>, installStep: StepOutcome, startStep: StepOutcome)
    requires envError.Some?
    ensures var run := StartRun(args, install, envError, freeport, installStep, startStep);
            run.result == Err(envError.value) && FreePort !in run.calls && run.emitted == []
  {
  }

  /** Without install only start runs; with install, install runs first and
      start runs exactly when install succeeded. Start always gets `-port`, the
      allocated port and then the caller's arguments. */
  lemma StartOrdering(args: seq<string>, install: bool, freeport: Result<nat, string>,
                      installStep: StepOutcome, startStep: StepOutcome)
    requires freeport.Ok?
    ensures var run := StartRun(args, install, None, freeport, installStep, startStep);
            && run.calls[0] == FreePort
            && (Install in run.calls <==> install)
            && (install ==> run.calls[1] == Install)
            && ((exists a :: Start(a) in run.calls) <==> !install || installStep.error.None?)
            && (forall a :: Start(a) in run.calls ==> a == ServerArgs(freeport.value, args) && run.calls[|run.calls| - 1] == Start(a))
  {
    var run := StartRun(args, install, None, freeport, installStep, startStep);
    if !install || installStep.error.None? {
      assert Start(ServerArgs(freeport.value, args)) in run.calls;
    }
  }

  /** A failed install or start reports that step's error, after every output
      chunk seen so far has been logged once at debug level on arrival and then
      once more at info level, in arrival order. */
  lemma FailureFlushesLog(args: seq<string>, install: bool, freeport: Result<nat, string>,
                          installStep: StepOutcome, startStep: StepOutcome)
    requires freeport.Ok?
    requires (install && installStep.error.Some?) || startStep.error.Some?
    ensures var run := StartRun(args, install, None, freeport, installStep, startStep);
            var failedInstall := install && installStep.error.Some?;
            var seen := if failedInstall then installStep.output
                        else (if install then installStep.output else []) + startStep.output;
            && run.result == Err(if failedInstall then installStep.error.value else startStep.error.value)
            && |run.emitted| == 2 * |seen|
            && forall i :: 0 <= i < |seen| ==>
                 run.emitted[i] == LogEntry(Debug, seen[i]) && run.emitted[|seen| + i] == LogEntry(Info, seen[i])
  {
    var failedInstall := install && installStep.error.Some?;
    var seen := if failedInstall then installStep.output
                else (if install then installStep.output else []) + startStep.output;
    forall i | 0 <= i < |seen|
      ensures AtLevel(Debug, seen)[i] == LogEntry(Debug, seen[i])
      ensures AtLevel(Info, seen)[i] == LogEntry(Info, seen[i])
    {
      AtLevelAt(Debug, seen, i);
      AtLevelAt(Info, seen, i);
    }
  }

  /** On success the allocated port is reported, nothing is replayed at info
      level, and the last line announces the port. */
  lemma SuccessReportsPort(args: seq<string>, install: bool, freeport: Result<nat, string>,
                           installStep: StepOutcome, startStep: StepOutcome)
    requires freeport.Ok? && startStep.error.None? && (install ==> installStep.error.None?)
    ensures var run := StartRun(args, install, None, freeport, installStep, startStep);
            && run.result == Ok(freeport.value)
            && run.emitted[|run.emitted| - 1] == SuccessLine(freeport.value)
            && forall i :: 0 <= i < |run.emitted| - 1 ==> run.emitted[i].level == Debug
  {
    var all := (if install then installStep.output else []) + startStep.output;
    forall i | 0 <= i < |all| ensures AtLevel(Debug, all)[i].level == Debug {
      AtLevelAt(Debug, all, i);
    }
  }

  /** The `log` array of `seleniumStart` with its `onOutput` callback. */
  class OutputCapture {
    var log: seq<string>
    const wct: Wct

    constructor (wct: Wct)
      ensures this.wct == wct && log == []
    {
      this.wct := wct;
      log := [];
    }

    /** `onOutput(data)`: remember the chunk and emit it at debug level. */
    method OnOutput(chunk: string)
      modifies this, wct
      ensures log == old(log) + [chunk]
      ensures wct.emitted == old(wct.emitted) + [LogEntry(Debug, chunk)]
    {
      log := log + [chunk];
      wct.Emit(LogEntry(Debug, chunk));
    }

    /** Feed the chunks of one step to `onOutput`, in arrival order. */
    method Receive(chunks: seq<string>)
      modifies this, wct
      ensures log == old(log) + chunks
      ensures wct.emitted == old(wct.emitted) + AtLevel(Debug, chunks)
    {
      for i := 0 to |chunks|
        invariant log == old(log) + chunks[..i]
        invariant wct.emitted == old(wct.emitted) + AtLevel(Debug, chunks[..i])
      {
        assert chunks[..i + 1][..i] == chunks[..i];
        OnOutput(chunks[i]);
      }
      assert chunks[..|chunks|] == chunks;
    }

    /** `log.forEach((line) => wct.emit('log:info', line))`. */
    method Flush()
      modifies wct
      ensures wct.emitted == old(wct.emitted) + AtLevel(Info, log)
    {
      for i := 0 to |log|
        invariant wct.emitted == old(wct.emitted) + AtLevel(Info, log[..i])
      {
        assert log[..i + 1][..i] == log[..i];
        wct.Emit(LogEntry(Info, log[i]));
      }
      assert log[..|log|] == log;
    }
  }

  /** `seleniumStart(wct, {args, install}, done)` applied to the result of the
      environment check: its callback's arguments are `result`, and `calls`
      lists the collaborator calls it made. */
  method SeleniumStart(wct: Wct, args: seq<string>, install: bool, envError: Option<string>,
                       freeport: Result<nat, string>, installStep: StepOutcome, startStep: StepOutcome)
    returns (result: Result<nat, string>, calls: seq<Call>)
    modifies wct
    ensures var run := StartRun(args, install, envError, freeport, installStep, startStep);
            && result == run.result && calls == run.calls
            && wct.emitted == old(wct.emitted) + run.emitted
  {
    if envError.Some? {
      return Err(envError.value), [];
    }
    if freeport.Err? {
      return Err(freeport.error), [FreePort];
    }
    var rest;
    result, rest := RunOnFreePort(wct, freeport.value, args, install, installStep, startStep);
    calls := [FreePort] + rest;
  }

  /** The body of the `freeport` callback. */
  method RunOnFreePort(wct: Wct, port: nat, args: seq<string>, install: bool,
                       installStep: StepOutcome, startStep: StepOutcome)
    returns (result: Result<nat, string>, calls: seq<Call>)
    modifies wct
    ensures var run := RunOnPort(port, args, install, installStep, startStep);
            && result == run.result && calls == run.calls
            && wct.emitted == old(wct.emitted) + run.emitted
  {
    ghost var start := wct.emitted;
    var capture := new OutputCapture(wct);
    ghost var before: seq<string> := [];
    calls := [];
    if install {
      var failed := InstallStep(capture, installStep);
      calls := [Install];
      before := installStep.output;
      assert capture.wct == wct && capture.log == before;
      if failed {
        assert wct.emitted == start + AtLevel(Debug, before) + AtLevel(Info, before);
        Associate(start, AtLevel(Debug, before), AtLevel(Info, before));
        return Err(installStep.error.value), calls;
      }
    } else {
      assert start + AtLevel(Debug, before) == start;
    }
    assert wct.emitted == start + AtLevel(Debug, before) && capture.log == before;
    calls := calls + [Start(ServerArgs(port, args))];
    StartStep(capture, port, startStep);
    ghost var all := before + startStep.output;
    AtLevelAppend(Debug, before, startStep.output);
    Associate(start, AtLevel(Debug, before), AtLevel(Debug, startStep.output));
    if startStep.error.Some? {
      Associate(start, AtLevel(Debug, all), AtLevel(Info, all));
      return Err(startStep.error.value), calls;
    }
    Associate(start, AtLevel(Debug, all), [SuccessLine(port)]);
    result := Ok(port);
  }

  /** `install()`: the installer's output reaches `onOutput`; on failure the log
      is replayed at info level. */
  method InstallStep(capture: OutputCapture, installStep: StepOutcome) returns (failed: bool)
    modifies capture, capture.wct
    ensures failed <==> installStep.error.Some?
    ensures capture.log == old(capture.log) + installStep.output
    ensures failed ==>
              capture.wct.emitted == old(capture.wct.emitted) + AtLevel(Debug, installStep.output)
                                       + AtLevel(Info, old(capture.log) + installStep.output)
    ensures !failed ==>
              capture.wct.emitted == old(capture.wct.emitted) + AtLevel(Debug, installStep.output)
  {
    capture.Receive(installStep.output);
    failed := installStep.error.Some?;
    if failed {
      capture.Flush();
    }
  }

  /** `start()`: the server's output reaches `onOutput`; on failure the log is
      replayed at info level, on success the port is announced. */
  method StartStep(capture: OutputCapture, port: nat, startStep: StepOutcome)
    modifies capture, capture.wct
    ensures capture.log == old(capture.log) + startStep.output
    ensures startStep.error.Some? ==>
              capture.wct.emitted == old(capture.wct.emitted) + AtLevel(Debug, startStep.output)
                                       + AtLevel(Info, capture.log)
    ensures startStep.error.None? ==>
              capture.wct.emitted == old(capture.wct.emitted) + AtLevel(Debug, startStep.output) + [SuccessLine(port)]
  {
    capture.Receive(startStep.output);
    if startStep.error.Some? {
      capture.Flush();
    } else {
      capture.wct.Emit(SuccessLine(port));
    }
  }

  /** `startSeleniumServer` (install = false) and
      `installAndStartSeleniumServer` (install = true): announce, check the
      environment, then run the start sequence. */
  method LaunchServer(wct: Wct, args: seq<string>, install: bool, host: HostFacts,
                      freeport: Result<nat, string>, installStep: StepOutcome, startStep: StepOutcome)
    returns (result: Result<nat, string>, calls: seq<Call>)
    modifies wct
    ensures var run := StartRun(args, install, CheckSeleniumEnvironment(host), freeport, installStep, startStep);
            && result == run.result && calls == run.calls
            && wct.emitted == old(wct.emitted) + [Announcement(install)] + run.emitted
  {
    wct.Emit(Announcement(install));
    result, calls := SeleniumStart(wct, args, install, CheckSeleniumEnvironment(host), freeport, installStep, startStep);
  }

  function Announcement(install: bool): (e: LogEntry)
    ensures e.level == Info
  {
    if install then LogEntry(Info, "Installing and starting Selenium server for local browsers now ok yes.")
    else LogEntry(Info, "Starting Selenium server for local browsers now ok.")
  }
}
