/** The session coordinator of src/main.rs: it decodes the handler URL,
    gathers what the player needs from the media server, starts the player,
    reports the start, the progress and the end of playback, and polls the
    player for its position while it runs.

    src/main.rs does not compile against the modules it calls (it
    destructures a `Result`, passes an API key where a header map is due,
    and leaves out arguments). The model follows its evident intent: every
    fallible step before the player starts is unwrapped, so its failure ends
    the run before anything is spawned or reported; the headers come from
    `construct_headers` with the API key and the user id of the session
    lookup; the status reports are sent and their results ignored. */
module Coordinator {
  import opened Wrappers
  import opened Text
  import opened Paths
  import opened Config
  import opened Request
  import opened Extractor

  /** `std::process::Command`: the program to start and its arguments. */
  class Command {
    var program: string
    var args: seq<string>

    constructor (program: string)
      ensures this.program == program && args == []
    {
      this.program := program;
      args := [];
    }

    /** `Command::arg`. */
    method Arg(a: string)
      modifies this
      ensures program == old(program) && args == old(args) + [a]
    {
      args := args + [a];
    }
  }

  const TicksPerSecond: nat := 10000000

  /** The IPC endpoint the player is told to open, where the position
      queries are sent. */
  function IpcArg(os: Os): string {
    if os == Windows then "--input-ipc-server=\\\\.\\pipe\\mpvsocket" else "--input-ipc-server=/tmp/mpvsocket"
  }

  function StartArg(startTicks: nat): string {
    "--start=" + NatToString(startTicks / TicksPerSecond)
  }

  /** The arguments after the media address and the optional subtitle, in
      the order they are added. */
  function FixedArgs(ua: string, os: Os, title: string, startTicks: nat, proxy: string): seq<string> {
    ["--user-agent=" + ua, "--volume=85", IpcArg(os), "--msg-level=all=error",
     "--force-window=immediate", "--force-media-title=" + title, StartArg(startTicks),
     "--http-proxy=" + proxy]
  }

  /** The player's argument list. */
  function PlayerArgs(video: string, subfile: string, ua: string, os: Os, title: string,
                      startTicks: nat, proxy: string): seq<string> {
    [video] + (if subfile == "" then [] else ["--sub-file=" + subfile])
      + FixedArgs(ua, os, title, startTicks, proxy)
  }

  /** The chained `.arg` calls of the two branches of src/main.rs. */
  method AddPlayerArgs(mpv: Command, video: string, subfile: string, ua: string, os: Os,
                       title: string, startTicks: nat, proxy: string)
    modifies mpv
    ensures mpv.program == old(mpv.program)
    ensures mpv.args == old(mpv.args) + PlayerArgs(video, subfile, ua, os, title, startTicks, proxy)
  {
    ghost var before := mpv.args;
    ghost var head := [video] + (if subfile == "" then [] else ["--sub-file=" + subfile]);
    if subfile != "" {
      mpv.Arg(video);
      mpv.Arg("--sub-file=" + subfile);
    } else {
      mpv.Arg(video);
    }
    assert mpv.args == before + head;
    AddFixedArgs(mpv, ua, os, title, startTicks, proxy);
    assert before + head + FixedArgs(ua, os, title, startTicks, proxy)
        == before + PlayerArgs(video, subfile, ua, os, title, startTicks, proxy);
  }

  /** The eight arguments both branches add after the media address and
      the subtitle. */
  method AddFixedArgs(mpv: Command, ua: string, os: Os, title: string, startTicks: nat, proxy: string)
    modifies mpv
    ensures mpv.program == old(mpv.program)
    ensures mpv.args == old(mpv.args) + FixedArgs(ua, os, title, startTicks, proxy)
  {
    var uaArg, volArg, ipcServer, msgLevel := "--user-agent=" + ua, "--volume=85", IpcArg(os), "--msg-level=all=error";
    var forceWindow, titleArg, startArg, proxyArg := "--force-window=immediate", "--force-media-title=" + title,
      StartArg(startTicks), "--http-proxy=" + proxy;
    ghost var before := mpv.args;
    AddFour(mpv, uaArg, volArg, ipcServer, msgLevel);
    AddFour(mpv, forceWindow, titleArg, startArg, proxyArg);
    assert FixedArgs(ua, os, title, startTicks, proxy)
        == [uaArg, volArg, ipcServer, msgLevel] + [forceWindow, titleArg, startArg, proxyArg];
  }

  /** Four chained `.arg` calls. */
  method AddFour(mpv: Command, a: string, b: string, c: string, d: string)
    modifies mpv
    ensures mpv.program == old(mpv.program)
    ensures mpv.args == old(mpv.args) + [a, b, c, d]
  {
    mpv.Arg(a);
    mpv.Arg(b);
    mpv.Arg(c);
    mpv.Arg(d);
  }

  /** The argument list starts with the media address; `--sub-file=` comes
      right after it exactly when there is a subtitle; the eight fixed
      arguments follow in their fixed order, and `--start=` carries the
      whole seconds of the resume position. */
  lemma PlayerArgsShape(video: string, subfile: string, ua: string, os: Os, title: string,
                        startTicks: nat, proxy: string)
    ensures var args := PlayerArgs(video, subfile, ua, os, title, startTicks, proxy);
      && args[0] == video
      && |args| == (if subfile == "" then 9 else 10)
      && (subfile != "" ==> args[1] == "--sub-file=" + subfile)
      && args[|args| - 8..] == FixedArgs(ua, os, title, startTicks, proxy)
      && args[|args| - 2] == "--start=" + NatToString(startTicks / TicksPerSecond)
  {
    var args := PlayerArgs(video, subfile, ua, os, title, startTicks, proxy);
    var head := [video] + (if subfile == "" then [] else ["--sub-file=" + subfile]);
    assert args == head + FixedArgs(ua, os, title, startTicks, proxy);
    assert args[|head|..] == FixedArgs(ua, os, title, startTicks, proxy);
  }

  /** The number after `--start=` is the resume position in whole seconds:
      ticks divided by 10,000,000, rounded down. */
  lemma StartArgSeconds(startTicks: nat)
    ensures var digits := StartArg(startTicks)[|"--start="|..];
      && (forall i :: 0 <= i < |digits| ==> IsDigit(digits[i]))
      && DigitsValue(digits) == startTicks / TicksPerSecond
  {
    var digits := StartArg(startTicks)[|"--start="|..];
    assert digits == NatToString(startTicks / TicksPerSecond);
    NatToStringValue(startTicks / TicksPerSecond);
  }

  // ---- watching the player ----

  /** What `try_wait` answers. */
  datatype TryWait = StillRunning | Exited(code: int) | WaitFailed

  /** `is_process_running`: only an answer that the player has not exited
      counts as running; a failed query counts as exited. */
  predicate IsProcessRunning(w: TryWait) {
    w == StillRunning
  }

  /** The outcome of one position query: whole seconds (the fractional part
      of the reported position is dropped), a failed query, or a reply whose
      value is not a number (the handler panics on it). */
  datatype Poll = Position(seconds: nat) | PollFailed | Unparsable

  /** One round of the loop: the liveness answer, the clock (milliseconds)
      when the time since the last report is checked, and the position
      query's outcome should a query be made. */
  datatype Step = Step(wait: TryWait, clock: int, poll: Poll)

  const ProgressInterval: int := 10000

  /** A progress report: when it was made and the position it carried. */
  datatype Emission = Emission(at: int, ticks: nat)

  datatype Watch = Watch(progress: seq<Emission>, ticks: nat, crashed: bool)

  /** The polling loop as a function of the rounds still to come: the
      progress reports it makes, the position it ends with, and whether it
      ends in a panic. A trace that runs out counts as the player having
      exited. */
  function Watching(trace: seq<Step>, ticks: nat, lastReport: int): Watch
    decreases |trace|
  {
    if |trace| == 0 || !IsProcessRunning(trace[0].wait) then Watch([], ticks, false)
    else
      var step := trace[0];
      if step.clock - lastReport < ProgressInterval then Watching(trace[1..], ticks, lastReport)
      else
        match step.poll
        case PollFailed => Watching(trace[1..], ticks, lastReport)
        case Unparsable => Watch([], ticks, true)
        case Position(seconds) =>
          var now := seconds * TicksPerSecond;
          var rest := Watching(trace[1..], now, step.clock);
          Watch([Emission(step.clock, now)] + rest.progress, rest.ticks, rest.crashed)
  }

  /** The loop `while is_process_running(&mut child)` with its mutable
      `ticks` and `last_print`. */
  method Supervise(startTicks: nat, started: int, trace: seq<Step>)
    returns (progress: seq<Emission>, ticks: nat, crashed: bool)
    ensures Watch(progress, ticks, crashed) == Watching(trace, startTicks, started)
  {
    ticks := startTicks;
    var lastPrint := started;
    progress := [];
    crashed := false;
    var i := 0;
    while i < |trace| && IsProcessRunning(trace[i].wait)
      invariant 0 <= i <= |trace|
      invariant Watching(trace, startTicks, started)
             == Watch(progress + Watching(trace[i..], ticks, lastPrint).progress,
                      Watching(trace[i..], ticks, lastPrint).ticks,
                      Watching(trace[i..], ticks, lastPrint).crashed)
    {
      var step := trace[i];
      assert trace[i..][1..] == trace[i + 1..];
      if step.clock - lastPrint >= ProgressInterval {
        match step.poll {
          case Position(seconds) =>
            ticks := seconds * TicksPerSecond;
            ghost var rest := Watching(trace[i + 1..], ticks, step.clock);
            assert progress + ([Emission(step.clock, ticks)] + rest.progress)
                == (progress + [Emission(step.clock, ticks)]) + rest.progress;
            progress := progress + [Emission(step.clock, ticks)];
            lastPrint := step.clock;
          case PollFailed =>
          case Unparsable =>
            crashed := true;
            assert progress + [] == progress;
            return;
        }
      }
      i := i + 1;
    }
    assert progress + [] == progress;
  }

  /** Progress reports are at least ten seconds apart, and the first comes
      at least ten seconds after the loop starts. */
  lemma {:induction false} WatchingSpacing(trace: seq<Step>, ticks: nat, lastReport: int)
    ensures var p := Watching(trace, ticks, lastReport).progress;
      && (|p| > 0 ==> p[0].at >= lastReport + ProgressInterval)
      && forall k :: 0 <= k < |p| - 1 ==> p[k + 1].at >= p[k].at + ProgressInterval
    decreases |trace|
  {
    if |trace| > 0 && IsProcessRunning(trace[0].wait) {
      var step := trace[0];
      WatchingSpacing(trace[1..], ticks, lastReport);
      if step.clock - lastReport >= ProgressInterval && step.poll.Position? {
        var now := step.poll.seconds * TicksPerSecond;
        WatchingSpacing(trace[1..], now, step.clock);
      }
    }
  }

  /** Every reported position is a whole number of seconds in ticks, and
      the final position is the last reported one, or the starting one when
      nothing was reported. */
  lemma {:induction false} WatchingTicks(trace: seq<Step>, ticks: nat, lastReport: int)
    ensures var w := Watching(trace, ticks, lastReport);
      && (forall k :: 0 <= k < |w.progress| ==> w.progress[k].ticks % TicksPerSecond == 0)
      && w.ticks == (if |w.progress| == 0 then ticks else w.progress[|w.progress| - 1].ticks)
    decreases |trace|
  {
    if |trace| > 0 && IsProcessRunning(trace[0].wait) {
      var step := trace[0];
      WatchingTicks(trace[1..], ticks, lastReport);
      if step.clock - lastReport >= ProgressInterval && step.poll.Position? {
        var now := step.poll.seconds * TicksPerSecond;
        WatchingTicks(trace[1..], now, step.clock);
      }
    }
  }

  /** Only an answer that the player is still running keeps the loop
      going: an exit or a failed query ends it with no further report and
      the position unchanged, whatever rounds would have followed. */
  lemma ExitEndsWatch(trace: seq<Step>, ticks: nat, lastReport: int, wait: TryWait, clock: int, poll: Poll)
    ensures wait != StillRunning ==> Watching([Step(wait, clock, poll)] + trace, ticks, lastReport) == Watch([], ticks, false)
    ensures wait == StillRunning && clock - lastReport < ProgressInterval ==>
      Watching([Step(wait, clock, poll)] + trace, ticks, lastReport) == Watching(trace, ticks, lastReport)
  {
    assert ([Step(wait, clock, poll)] + trace)[1..] == trace;
  }

  /** A failed position query changes nothing: the round might as well not
      have happened. */
  lemma FailedPollIsSkipped(trace: seq<Step>, ticks: nat, lastReport: int, wait: TryWait, clock: int)
    ensures Watching([Step(wait, clock, PollFailed)] + trace, ticks, lastReport)
         == if IsProcessRunning(wait) then Watching(trace, ticks, lastReport) else Watch([], ticks, false)
  {
    assert ([Step(wait, clock, PollFailed)] + trace)[1..] == trace;
  }

  // ---- the whole run ----

  /** A status report: which one, the position it carries, and the request
      `playing_status` posts for it (or why it posted none). */
  datatype Report = Report(status: PlayStatus, ticks: nat, post: Result<HttpRequest, RequestError>)

  datatype Outcome =
    | Usage                                // wrong number of arguments
    | DecodeFailed(decode: DecodeError)    // the handler URL did not decode
    | ParamsFailed(params: ExtractError)   // the media address lacks a parameter
    | ClientFailed(client: RequestError)   // the shared client could not be built
    | SessionFailed(request: RequestError) // a server exchange failed
    | SpawnFailed(program: string, argv: seq<string>)
    | Completed(program: string, argv: seq<string>, reports: seq<Report>, crashed: bool)

  /** The shape of the reports of a run: Play with the resume position,
      then progress reports, then — unless the loop panicked — one Stop
      with the last known position. */
  predicate ReportSequence(reports: seq<Report>, startTicks: nat, crashed: bool) {
    && |reports| >= 1
    && reports[0].status == Play && reports[0].ticks == startTicks
    && (forall k :: 1 <= k < |reports| - 1 ==> reports[k].status == Progress)
    && (crashed ==> reports[|reports| - 1].status != Stop)
    && (!crashed ==>
          && |reports| >= 2
          && reports[|reports| - 1].status == Stop
          && reports[|reports| - 1].ticks == reports[|reports| - 2].ticks)
  }

  /** The environment after `main` has stored the fresh device id. */
  function WithDeviceId(env: string -> Option<string>, deviceId: string): string -> Option<string> {
    x => if x == "DEVICE_ID" then Some(deviceId) else env(x)
  }

  /** Everything gathered before the player starts. */
  datatype Plan = Plan(
    video: string, subfile: string, session: SessionParams, headers: map<string, string>,
    title: string, startTicks: nat, ua: string, proxy: string, program: string)

  /** The decoded addresses and the media parameters, when the command
      line has them. */
  function Target(args: seq<string>, parseUrl: string -> Option<ParsedUrl>): Option<((string, string), SessionParams)> {
    if |args| == 2 && ExtractUrls(args[1]).Ok? && ExtractParams(parseUrl(ExtractUrls(args[1]).value.0)).Ok?
    then Some((ExtractUrls(args[1]).value, ExtractParams(parseUrl(ExtractUrls(args[1]).value.0)).value))
    else None
  }

  /** The exchanges with the server, in the order `main` makes them: the
      session lookup, the headers built with its user id, the chapter
      title and the resume position. The first that fails ends the run. */
  function Gather(urls: (string, string), p: SessionParams, client: ClientSettings, program: string,
                  os: Os, env: string -> Option<string>, server: HttpRequest -> Response): (r: Result<Plan, Outcome>)
    ensures var id := GetUserId(p.host, p.apiKey, os, env, server);
      && (id.Err? ==> r == Err(SessionFailed(id.error)))
      && (id.Ok? ==>
            var headers := Headers(p.apiKey, id.value.userId, os, env);
            && (headers.Err? ==> r == Err(SessionFailed(headers.error)))
            && (headers.Ok? && GetChapterInfo(p.host, p.itemId, headers.value, server).Err? ==>
                  r == Err(SessionFailed(GetChapterInfo(p.host, p.itemId, headers.value, server).error)))
            && (headers.Ok? && GetChapterInfo(p.host, p.itemId, headers.value, server).Ok?
                && GetStartPosition(p.host, p.apiKey, p.itemId, headers.value, os, env, server).Err? ==>
                  r == Err(SessionFailed(GetStartPosition(p.host, p.apiKey, p.itemId, headers.value, os, env, server).error))))
    ensures r.Ok? ==>
      && (r.value.video, r.value.subfile) == urls && r.value.session == p
      && ClientSettings(r.value.ua, r.value.proxy) == client && r.value.program == program
    ensures r.Ok? ==>
      var id := GetUserId(p.host, p.apiKey, os, env, server);
      && id.Ok? && Headers(p.apiKey, id.value.userId, os, env) == Ok(r.value.headers)
      && GetChapterInfo(p.host, p.itemId, r.value.headers, server) == Ok(r.value.title)
      && GetStartPosition(p.host, p.apiKey, p.itemId, r.value.headers, os, env, server) == Ok(r.value.startTicks)
    ensures r.Err? ==> r.error.SessionFailed?
  {
    var id := GetUserId(p.host, p.apiKey, os, env, server);
    if id.Err? then Err(SessionFailed(id.error))
    else
      var headers := Headers(p.apiKey, id.value.userId, os, env);
      if headers.Err? then Err(SessionFailed(headers.error))
      else
        var title := GetChapterInfo(p.host, p.itemId, headers.value, server);
        if title.Err? then Err(SessionFailed(title.error))
        else
          var start := GetStartPosition(p.host, p.apiKey, p.itemId, headers.value, os, env, server);
          if start.Err? then Err(SessionFailed(start.error))
          else Ok(Plan(urls.0, urls.1, p, headers.value, title.value, start.value, client.ua, client.proxy, program))
  }

  /** The preparation steps of `main`, in their order; the first that fails
      ends the run with its error. The shared client is built at the first
      exchange with the server, so a configuration that cannot be read or
      a user agent that is not a valid header value stops the run before
      any request is sent. */
  function Prepare(args: seq<string>, os: Os, env: string -> Option<string>,
                   load: Result<Config, ConfigError>, parseUrl: string -> Option<ParsedUrl>,
                   server: HttpRequest -> Response): (r: Result<Plan, Outcome>)
    ensures |args| != 2 ==> r == Err(Usage)
    ensures |args| == 2 && ExtractUrls(args[1]).Err? ==> r == Err(DecodeFailed(ExtractUrls(args[1]).error))
    ensures |args| == 2 && ExtractUrls(args[1]).Ok? ==>
      var params := ExtractParams(parseUrl(ExtractUrls(args[1]).value.0));
      params.Err? ==> r == Err(ParamsFailed(params.error))
    ensures Target(args, parseUrl).Some? && BuildClient(load).Err? ==> r == Err(ClientFailed(BuildClient(load).error))
    ensures Target(args, parseUrl).Some? && BuildClient(load).Ok? ==>
      r == Gather(Target(args, parseUrl).value.0, Target(args, parseUrl).value.1, BuildClient(load).value,
                  MpvProgram(os, load).value, os, env, server)
    ensures r.Ok? ==>
      && Target(args, parseUrl) == Some(((r.value.video, r.value.subfile), r.value.session))
      && BuildClient(load) == Ok(ClientSettings(r.value.ua, r.value.proxy))
      && MpvProgram(os, load) == Ok(r.value.program)
    ensures r.Ok? ==>
      var s := r.value.session;
      var id := GetUserId(s.host, s.apiKey, os, env, server);
      && id.Ok? && Headers(s.apiKey, id.value.userId, os, env) == Ok(r.value.headers)
      && GetChapterInfo(s.host, s.itemId, r.value.headers, server) == Ok(r.value.title)
      && GetStartPosition(s.host, s.apiKey, s.itemId, r.value.headers, os, env, server) == Ok(r.value.startTicks)
    ensures r.Err? ==> !r.error.SpawnFailed? && !r.error.Completed?
  {
    if |args| != 2 then Err(Usage)
    else
      var urls := ExtractUrls(args[1]);
      if urls.Err? then Err(DecodeFailed(urls.error))
      else
        var params := ExtractParams(parseUrl(urls.value.0));
        if params.Err? then Err(ParamsFailed(params.error))
        else
          var client := BuildClient(load);
          if client.Err? then Err(ClientFailed(client.error))
          else Gather(urls.value, params.value, client.value, MpvProgram(os, load).value, os, env, server)
  }

  /** The player's argument list for a plan. */
  function PlanArgs(plan: Plan, os: Os): seq<string> {
    PlayerArgs(plan.video, plan.subfile, plan.ua, os, plan.title, plan.startTicks, plan.proxy)
  }

  /** What `playing_status` does for one report of the plan's session. */
  function StatusReport(plan: Plan, os: Os, env: string -> Option<string>, server: HttpRequest -> Response,
                        status: PlayStatus, ticks: nat): (r: Report)
    ensures r.status == status && r.ticks == ticks
  {
    Report(status, ticks, PlayingStatus(ticks, plan.session.host, plan.session.itemId, plan.session.apiKey,
                                        plan.session.mediaSourceId, status, plan.headers, os, env, server))
  }

  /** The reports of a session, as status and position, in the order they
      are sent: Play with the resume position, one Progress per position
      taken, and Stop with the last known position unless the loop
      panicked. */
  function Schedule(startTicks: nat, w: Watch): seq<(PlayStatus, nat)> {
    [(Play, startTicks)]
    + seq(|w.progress|, k requires 0 <= k < |w.progress| => (Progress, w.progress[k].ticks))
    + (if w.crashed then [] else [(Stop, w.ticks)])
  }

  /** The reports of a session: what `playing_status` does for each entry of
      the schedule. */
  function SessionReports(plan: Plan, os: Os, env: string -> Option<string>, server: HttpRequest -> Response,
                          w: Watch): seq<Report> {
    var s := Schedule(plan.startTicks, w);
    seq(|s|, k requires 0 <= k < |s| => StatusReport(plan, os, env, server, s[k].0, s[k].1))
  }

  /** The reports of a watched session have the Play / Progress / Stop
      shape, carry the positions the loop took, and are each what
      `playing_status` sends for their status and position. */
  lemma SessionReportsShape(plan: Plan, os: Os, env: string -> Option<string>, server: HttpRequest -> Response,
                            trace: seq<Step>, started: int)
    ensures var w := Watching(trace, plan.startTicks, started);
      var r := SessionReports(plan, os, env, server, w);
      && ReportSequence(r, plan.startTicks, w.crashed)
      && |r| == 1 + |w.progress| + (if w.crashed then 0 else 1)
      && (forall k :: 1 <= k <= |w.progress| ==> r[k].ticks == w.progress[k - 1].ticks)
      && (forall k :: 0 <= k < |r| ==> r[k] == StatusReport(plan, os, env, server, r[k].status, r[k].ticks))
  {
    var w := Watching(trace, plan.startTicks, started);
    WatchingTicks(trace, plan.startTicks, started);
    ReportsOfWatch(plan, os, env, server, w);
  }

  /** The same, for any outcome of the loop whose final position is its
      last reported one (or the starting one). */
  lemma ReportsOfWatch(plan: Plan, os: Os, env: string -> Option<string>, server: HttpRequest -> Response, w: Watch)
    requires w.ticks == (if |w.progress| == 0 then plan.startTicks else w.progress[|w.progress| - 1].ticks)
    ensures var r := SessionReports(plan, os, env, server, w);
      && ReportSequence(r, plan.startTicks, w.crashed)
      && |r| == 1 + |w.progress| + (if w.crashed then 0 else 1)
      && (forall k :: 1 <= k <= |w.progress| ==> r[k].ticks == w.progress[k - 1].ticks)
      && (forall k :: 0 <= k < |r| ==> r[k] == StatusReport(plan, os, env, server, r[k].status, r[k].ticks))
  {
    var s := Schedule(plan.startTicks, w);
    ScheduleShape(plan.startTicks, w);
    ReportsFollowSchedule(plan, os, env, server, w);
  }

  /** The schedule's shape: Play first, Progress in between, and a final
      Stop repeating the last position unless the loop panicked. */
  lemma ScheduleShape(startTicks: nat, w: Watch)
    requires w.ticks == (if |w.progress| == 0 then startTicks else w.progress[|w.progress| - 1].ticks)
    ensures var s := Schedule(startTicks, w);
      && |s| == 1 + |w.progress| + (if w.crashed then 0 else 1)
      && s[0] == (Play, startTicks)
      && (forall k :: 1 <= k <= |w.progress| ==> s[k] == (Progress, w.progress[k - 1].ticks))
      && (!w.crashed ==> s[|s| - 1] == (Stop, s[|s| - 2].1))
  {
    var s := Schedule(startTicks, w);
    var n := |w.progress|;
    var middle := seq(n, k requires 0 <= k < n => (Progress, w.progress[k].ticks));
    var last: seq<(PlayStatus, nat)> := if w.crashed then [] else [(Stop, w.ticks)];
    assert s == [(Play, startTicks)] + middle + last;
    assert forall k :: 1 <= k <= n ==> s[k] == middle[k - 1];
    assert !w.crashed ==> s[n + 1] == last[0];
  }

  /** Each report is the one `playing_status` makes for its schedule entry. */
  lemma ReportsFollowSchedule(plan: Plan, os: Os, env: string -> Option<string>, server: HttpRequest -> Response, w: Watch)
    requires w.ticks == (if |w.progress| == 0 then plan.startTicks else w.progress[|w.progress| - 1].ticks)
    ensures var s := Schedule(plan.startTicks, w);
      var r := SessionReports(plan, os, env, server, w);
      && |r| == |s|
      && (forall k :: 0 <= k < |r| ==> r[k].status == s[k].0 && r[k].ticks == s[k].1)
      && (forall k :: 0 <= k < |r| ==> r[k] == StatusReport(plan, os, env, server, r[k].status, r[k].ticks))
  {
  }

  /** What starting the player and watching it yields for a plan: the
      spawn failure with the command that was attempted, or the completed
      session with its reports. */
  predicate Launched(outcome: Outcome, plan: Plan, os: Os, env: string -> Option<string>,
                     server: HttpRequest -> Response, spawned: bool, started: int, trace: seq<Step>) {
    && (!spawned ==> outcome == SpawnFailed(plan.program, PlanArgs(plan, os)))
    && (spawned ==>
          var w := Watching(trace, plan.startTicks, started);
          outcome == Completed(plan.program, PlanArgs(plan, os), SessionReports(plan, os, env, server, w), w.crashed))
  }

  /** `main` from the building of the player command on. */
  method Launch(plan: Plan, os: Os, env: string -> Option<string>, server: HttpRequest -> Response,
                spawned: bool, started: int, trace: seq<Step>) returns (outcome: Outcome)
    ensures Launched(outcome, plan, os, env, server, spawned, started, trace)
  {
    var mpv := new Command(plan.program);
    AddPlayerArgs(mpv, plan.video, plan.subfile, plan.ua, os, plan.title, plan.startTicks, plan.proxy);
    if !spawned {
      return SpawnFailed(mpv.program, mpv.args);
    }
    var progress, ticks, crashed := Supervise(plan.startTicks, started, trace);
    var reports := SessionReports(plan, os, env, server, Watch(progress, ticks, crashed));
    return Completed(mpv.program, mpv.args, reports, crashed);
  }

  /** The exchanges of `main` with the server, from the session lookup to
      the resume position. */
  method Exchange(urls: (string, string), session: SessionParams, client: ClientSettings, program: string,
                  os: Os, env: string -> Option<string>, server: HttpRequest -> Response)
    returns (r: Result<Plan, Outcome>)
    ensures r == Gather(urls, session, client, program, os, env, server)
  {
    var id := GetUserId(session.host, session.apiKey, os, env, server);
    if id.Err? {
      return Err(SessionFailed(id.error));
    }
    var headers := ConstructHeaders(session.apiKey, id.value.userId, os, env);
    if headers.Err? {
      return Err(SessionFailed(headers.error));
    }
    var title := GetChapterInfo(session.host, session.itemId, headers.value, server);
    if title.Err? {
      return Err(SessionFailed(title.error));
    }
    var startTicks := GetStartPosition(session.host, session.apiKey, session.itemId, headers.value, os, env, server);
    if startTicks.Err? {
      return Err(SessionFailed(startTicks.error));
    }
    return Ok(Plan(urls.0, urls.1, session, headers.value, title.value, startTicks.value,
                   client.ua, client.proxy, program));
  }

  /** `main` up to the building of the player command. */
  method MakePlan(args: seq<string>, os: Os, env: string -> Option<string>,
                  load: Result<Config, ConfigError>, parseUrl: string -> Option<ParsedUrl>,
                  server: HttpRequest -> Response)
    returns (r: Result<Plan, Outcome>)
    ensures r == Prepare(args, os, env, load, parseUrl, server)
  {
    if |args| != 2 {
      return Err(Usage);
    }
    var urls := ExtractUrls(args[1]);
    if urls.Err? {
      return Err(DecodeFailed(urls.error));
    }
    var params := ExtractParams(parseUrl(urls.value.0));
    if params.Err? {
      return Err(ParamsFailed(params.error));
    }
    var client := BuildClient(load);
    if client.Err? {
      return Err(ClientFailed(client.error));
    }
    // The configuration is read once: the player program cannot fail once
    // the client has been built from it.
    var program := MpvProgram(os, load);
    r := Exchange(urls.value, params.value, client.value, program.value, os, env, server);
  }

  /** `main`: `args` is the command line (program name first), `deviceId`
      the fresh identifier it stores in `DEVICE_ID`, `load` what
      `Config::load` gives, `parseUrl` the URL parser, `server` the media
      server, `spawned` whether the player could be started, `started` the
      clock when the loop begins and `trace` the rounds of the loop. */
  method Run(args: seq<string>, os: Os, deviceId: string, env: string -> Option<string>,
             load: Result<Config, ConfigError>, parseUrl: string -> Option<ParsedUrl>,
             server: HttpRequest -> Response, spawned: bool, started: int, trace: seq<Step>)
    returns (outcome: Outcome)
    ensures var prep := Prepare(args, os, WithDeviceId(env, deviceId), load, parseUrl, server);
      && (prep.Err? ==> outcome == prep.error)
      && (prep.Ok? ==> Launched(outcome, prep.value, os, WithDeviceId(env, deviceId), server, spawned, started, trace))
  {
    var env' := WithDeviceId(env, deviceId);
    var plan := MakePlan(args, os, env', load, parseUrl, server);
    if plan.Err? {
      return plan.error;
    }
    outcome := Launch(plan.value, os, env', server, spawned, started, trace);
  }
}
