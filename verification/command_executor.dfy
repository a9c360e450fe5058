/** The command executor (CommandExecutor) as a pure function: what the status handler,
    the log and the per-command sink observe while one command runs, given the lines the
    process prints and how it ends. The single worker thread runs submitted commands one
    after another, so a queue of commands produces the concatenation of their transcripts.

    The older copy of the same state machine in Zipalign.executeCommand is modelled at the
    end and related to the executor's transcript. */
module Executor {
  import opened JavaLang
  import opened Commands

  /** Where an appended text goes: the shared log, or the command's own output consumer. */
  datatype Channel = LogChannel | SinkChannel

  /** One observable effect, in the order the UI thread performs them. setProgress(-1)
      is the only progress value the executor sets, so it is `Indeterminate`. */
  datatype Event =
    | Progress(visible: bool)
    | Indeterminate
    | Status(text: string)
    | Append(channel: Channel, text: string)

  /** How the process ended: waitFor returned an exit code, or starting or reading it threw. */
  datatype Outcome = Exit(code: int) | Exception(message: JString)

  /** What the process does, given to the model: the lines it prints, then its outcome. */
  datatype Run = Run(lines: seq<string>, outcome: Outcome)

  /** Which of the executor's two collaborators are non-null. */
  datatype Observers = Observers(hasLog: bool, hasStatus: bool)

  /** An effect guarded by a null check on its receiver: the event when `b`, nothing otherwise. */
  function Guarded(b: bool, e: Event): seq<Event>
  {
    if b then [e] else []
  }

  const SuccessStatus: string := "Command completed successfully"
  const ErrorStatus: string := "Error executing command"
  const Separator: string := Repeat('=', 80) + "\n\n"

  /** The echo of the argv: String.join renders a null element as "null". */
  function Echo(argv: seq<JString>): string
  {
    "> " + Join(" ", ShowAll(argv)) + "\n"
  }

  const FailedPrefix: string := "Command failed with exit code: "

  function FailedStatus(code: int): string
  {
    FailedPrefix + IntToString(code)
  }

  /** The failure status names the exit code: the code can be read back from it. */
  lemma FailedStatusNamesCode(code: int)
    ensures |FailedStatus(code)| > |FailedPrefix|
    ensures FailedStatus(code)[..|FailedPrefix|] == FailedPrefix
    ensures ParseInt(FailedStatus(code)[|FailedPrefix|..]) == code
  {
    assert FailedStatus(code)[|FailedPrefix|..] == IntToString(code);
    IntToStringRoundTrip(code);
  }

  function SuccessMarker(code: int): string
  {
    "\n[SUCCESS] Command completed with exit code: " + IntToString(code) + "\n"
  }

  function ErrorMarker(code: int): string
  {
    "\n[ERROR] Command failed with exit code: " + IntToString(code) + "\n"
  }

  /** "\n[EXCEPTION] " + e.getMessage() + "\n"; a null message prints as "null". */
  function ExceptionMarker(message: JString): string
  {
    "\n[EXCEPTION] " + Show(message) + "\n"
  }

  // ---------------------------------------------------------------- the transcript

  /** The first UI action: progress shown and indeterminate, the status label, the echo. */
  function Announce(obs: Observers, cmd: Command): seq<Event>
  {
    Guarded(obs.hasStatus, Progress(true))
    + Guarded(obs.hasStatus, Indeterminate)
    + Guarded(obs.hasStatus, Status(cmd.status))
    + Guarded(obs.hasLog, Append(LogChannel, Echo(cmd.argv)))
  }

  /** One printed line: to the sink first, then to the log, each with "\n". */
  function StreamLine(obs: Observers, hasSink: bool, line: string): seq<Event>
  {
    Guarded(hasSink, Append(SinkChannel, line + "\n")) + Guarded(obs.hasLog, Append(LogChannel, line + "\n"))
  }

  function Stream(obs: Observers, hasSink: bool, lines: seq<string>): seq<Event>
    decreases |lines|
  {
    if |lines| == 0 then [] else StreamLine(obs, hasSink, lines[0]) + Stream(obs, hasSink, lines[1..])
  }

  /** handleCompletion for exit code 0. */
  function Succeeded(obs: Observers, code: int): seq<Event>
  {
    Guarded(obs.hasStatus, Progress(false))
    + Guarded(obs.hasStatus, Status(SuccessStatus))
    + Guarded(obs.hasLog, Append(LogChannel, SuccessMarker(code)))
    + Guarded(obs.hasLog, Append(LogChannel, Separator))
  }

  /** handleCompletion for a non-zero exit code: the marker also goes to the sink. */
  function ExitedWithError(obs: Observers, hasSink: bool, code: int): seq<Event>
  {
    Guarded(obs.hasStatus, Progress(false))
    + Guarded(obs.hasStatus, Status(FailedStatus(code)))
    + Guarded(obs.hasLog, Append(LogChannel, ErrorMarker(code)))
    + Guarded(hasSink, Append(SinkChannel, ErrorMarker(code)))
    + Guarded(obs.hasLog, Append(LogChannel, Separator))
  }

  /** handleError: no separator follows an exception. */
  function Failed(obs: Observers, hasSink: bool, message: JString): seq<Event>
  {
    Guarded(obs.hasStatus, Progress(false))
    + Guarded(obs.hasStatus, Status(ErrorStatus))
    + Guarded(obs.hasLog, Append(LogChannel, ExceptionMarker(message)))
    + Guarded(hasSink, Append(SinkChannel, ExceptionMarker(message)))
  }

  function Finish(obs: Observers, hasSink: bool, outcome: Outcome): seq<Event>
  {
    match outcome
    case Exit(code) => if code == 0 then Succeeded(obs, code) else ExitedWithError(obs, hasSink, code)
    case Exception(message) => Failed(obs, hasSink, message)
  }

  /** Everything one submitted command makes visible, in order. */
  function Transcript(obs: Observers, cmd: Command, run: Run): seq<Event>
  {
    Announce(obs, cmd) + Stream(obs, cmd.hasSink, run.lines) + Finish(obs, cmd.hasSink, run.outcome)
  }

  /** The single worker: the commands' transcripts one after another, in submission order. */
  function Execute(obs: Observers, jobs: seq<(Command, Run)>): seq<Event>
    decreases |jobs|
  {
    if |jobs| == 0 then [] else Transcript(obs, jobs[0].0, jobs[0].1) + Execute(obs, jobs[1..])
  }

  // ---------------------------------------------------------------- views of a transcript

  /** Each event's contribution, concatenated in order. */
  function Collect<T>(es: seq<Event>, f: Event -> seq<T>): seq<T>
    decreases |es|
  {
    if |es| == 0 then [] else f(es[0]) + Collect(es[1..], f)
  }

  lemma {:induction false} CollectConcat<T>(a: seq<Event>, b: seq<Event>, f: Event -> seq<T>)
    ensures Collect(a + b, f) == Collect(a, f) + Collect(b, f)
    decreases |a|
  {
    if |a| > 0 {
      assert (a + b)[0] == a[0];
      assert (a + b)[1..] == a[1..] + b;
      CollectConcat(a[1..], b, f);
    } else {
      assert a + b == b;
    }
  }

  function OnlyIf<T>(b: bool, xs: seq<T>): seq<T>
  {
    if b then xs else []
  }

  lemma CollectGuarded<T>(b: bool, e: Event, f: Event -> seq<T>)
    ensures Collect(Guarded(b, e), f) == OnlyIf(b, f(e))
  {
    if b {
      assert Collect([e], f) == f(e) + Collect([], f);
    }
  }

  /** Collecting four guarded effects collects each one. */
  lemma CollectFour<T>(b1: bool, e1: Event, b2: bool, e2: Event, b3: bool, e3: Event, b4: bool, e4: Event,
                       f: Event -> seq<T>)
    ensures Collect(Guarded(b1, e1) + Guarded(b2, e2) + Guarded(b3, e3) + Guarded(b4, e4), f)
         == OnlyIf(b1, f(e1)) + OnlyIf(b2, f(e2)) + OnlyIf(b3, f(e3)) + OnlyIf(b4, f(e4))
  {
    var g1, g2, g3, g4 := Guarded(b1, e1), Guarded(b2, e2), Guarded(b3, e3), Guarded(b4, e4);
    CollectConcat(g1 + g2 + g3, g4, f);
    CollectConcat(g1 + g2, g3, f);
    CollectConcat(g1, g2, f);
    CollectGuarded(b1, e1, f);
    CollectGuarded(b2, e2, f);
    CollectGuarded(b3, e3, f);
    CollectGuarded(b4, e4, f);
  }

  /** Collecting five guarded effects collects each one. */
  lemma CollectFive<T>(b1: bool, e1: Event, b2: bool, e2: Event, b3: bool, e3: Event, b4: bool, e4: Event,
                       b5: bool, e5: Event, f: Event -> seq<T>)
    ensures Collect(Guarded(b1, e1) + Guarded(b2, e2) + Guarded(b3, e3) + Guarded(b4, e4) + Guarded(b5, e5), f)
         == OnlyIf(b1, f(e1)) + OnlyIf(b2, f(e2)) + OnlyIf(b3, f(e3)) + OnlyIf(b4, f(e4)) + OnlyIf(b5, f(e5))
  {
    var g := Guarded(b1, e1) + Guarded(b2, e2) + Guarded(b3, e3) + Guarded(b4, e4);
    CollectConcat(g, Guarded(b5, e5), f);
    CollectFour(b1, e1, b2, e2, b3, e3, b4, e4, f);
    CollectGuarded(b5, e5, f);
  }

  /** An event's text when it is appended to `ch`. */
  function TextOn(ch: Channel): Event -> string
  {
    (e: Event) => if e.Append? && e.channel == ch then e.text else ""
  }

  /** The text a channel receives. */
  function Written(es: seq<Event>, ch: Channel): string
  {
    Collect(es, TextOn(ch))
  }

  /** Progress changes and status texts go to the status handler; appends do not. */
  predicate ForStatusHandler(e: Event)
  {
    !e.Append?
  }

  /** Keeps the events `wanted` says yes to. */
  function KeepIf(wanted: Event -> bool): Event -> seq<Event>
  {
    (e: Event) => if wanted(e) then [e] else []
  }

  const ToStatusHandler: Event -> bool := (e: Event) => ForStatusHandler(e)

  /** What the status handler sees: progress changes and status texts, in order. */
  function StatusView(es: seq<Event>): seq<Event>
  {
    Collect(es, KeepIf(ToStatusHandler))
  }

  /** The lines as read, each followed by "\n". */
  function Lines(lines: seq<string>): string
    decreases |lines|
  {
    if |lines| == 0 then "" else lines[0] + "\n" + Lines(lines[1..])
  }

  // ---------------------------------------------------------------- what each observer sees

  /** What the log shows after the output: the marker, and the separator after an exit. */
  function LogEnding(outcome: Outcome): string
  {
    match outcome
    case Exit(code) => (if code == 0 then SuccessMarker(code) else ErrorMarker(code)) + Separator
    case Exception(message) => ExceptionMarker(message)
  }

  /** What the sink receives after the output: nothing on success, the marker otherwise. */
  function SinkEnding(outcome: Outcome): string
  {
    match outcome
    case Exit(code) => if code == 0 then "" else ErrorMarker(code)
    case Exception(message) => ExceptionMarker(message)
  }

  /** The status text the handler is left with. */
  function FinalStatus(outcome: Outcome): string
  {
    match outcome
    case Exit(code) => if code == 0 then SuccessStatus else FailedStatus(code)
    case Exception(_) => ErrorStatus
  }

  /** The five things the status handler sees for one command. */
  function StatusCycle(cmd: Command, outcome: Outcome): seq<Event>
  {
    [Progress(true), Indeterminate, Status(cmd.status), Progress(false), Status(FinalStatus(outcome))]
  }

  /** Whether a channel has a receiver. */
  function Receives(obs: Observers, hasSink: bool, ch: Channel): bool
  {
    if ch == LogChannel then obs.hasLog else hasSink
  }

  lemma {:induction false} StreamWritten(obs: Observers, hasSink: bool, lines: seq<string>, ch: Channel)
    ensures Written(Stream(obs, hasSink, lines), ch) == OnlyIf(Receives(obs, hasSink, ch), Lines(lines))
    decreases |lines|
  {
    if |lines| > 0 {
      var f := TextOn(ch);
      var s, l := Guarded(hasSink, Append(SinkChannel, lines[0] + "\n")), Guarded(obs.hasLog,
            Append(LogChannel, lines[0] + "\n"));
      CollectConcat(s + l, Stream(obs, hasSink, lines[1..]), f);
      CollectConcat(s, l, f);
      CollectGuarded(hasSink, Append(SinkChannel, lines[0] + "\n"), f);
      CollectGuarded(obs.hasLog, Append(LogChannel, lines[0] + "\n"), f);
      StreamWritten(obs, hasSink, lines[1..], ch);
    }
  }

  lemma {:induction false} StreamStatusView(obs: Observers, hasSink: bool, lines: seq<string>)
    ensures StatusView(Stream(obs, hasSink, lines)) == []
    decreases |lines|
  {
    if |lines| > 0 {
      var f := KeepIf(ToStatusHandler);
      var s, l := Guarded(hasSink, Append(SinkChannel, lines[0] + "\n")), Guarded(obs.hasLog,
            Append(LogChannel, lines[0] + "\n"));
      CollectConcat(s + l, Stream(obs, hasSink, lines[1..]), f);
      CollectConcat(s, l, f);
      CollectGuarded(hasSink, Append(SinkChannel, lines[0] + "\n"), f);
      CollectGuarded(obs.hasLog, Append(LogChannel, lines[0] + "\n"), f);
      StreamStatusView(obs, hasSink, lines[1..]);
    }
  }

  lemma AnnounceWritten(obs: Observers, cmd: Command, ch: Channel)
    ensures Written(Announce(obs, cmd), ch) == OnlyIf(ch == LogChannel && obs.hasLog, Echo(cmd.argv))
  {
    CollectFour(obs.hasStatus, Progress(true), obs.hasStatus, Indeterminate, obs.hasStatus, Status(cmd.status),
                obs.hasLog, Append(LogChannel, Echo(cmd.argv)), TextOn(ch));
  }

  lemma AnnounceStatusView(obs: Observers, cmd: Command)
    ensures StatusView(Announce(obs, cmd)) == OnlyIf(obs.hasStatus, [Progress(true), Indeterminate, Status(cmd.status)])
  {
    CollectFour(obs.hasStatus, Progress(true), obs.hasStatus, Indeterminate, obs.hasStatus, Status(cmd.status),
                obs.hasLog, Append(LogChannel, Echo(cmd.argv)), KeepIf(ToStatusHandler));
  }

  /** A completion's text on a channel, for any status text and markers: only the appends
      to that channel that are made. */
  lemma WrittenOfFour(b1: bool, b2: bool, st: string, b3: bool, c3: Channel, m3: string,
                      b4: bool, c4: Channel, m4: string, ch: Channel)
    ensures Written(Guarded(b1, Progress(false)) + Guarded(b2, Status(st)) + Guarded(b3, Append(c3, m3))
                    + Guarded(b4, Append(c4, m4)), ch)
         == OnlyIf(b3 && c3 == ch, m3) + OnlyIf(b4 && c4 == ch, m4)
  {
    CollectFour(b1, Progress(false), b2, Status(st), b3, Append(c3, m3), b4, Append(c4, m4), TextOn(ch));
  }

  lemma WrittenOfFive(b1: bool, b2: bool, st: string, b3: bool, c3: Channel, m3: string,
                      b4: bool, c4: Channel, m4: string, b5: bool, c5: Channel, m5: string, ch: Channel)
    ensures Written(Guarded(b1, Progress(false)) + Guarded(b2, Status(st)) + Guarded(b3, Append(c3, m3))
                    + Guarded(b4, Append(c4, m4)) + Guarded(b5, Append(c5, m5)), ch)
         == OnlyIf(b3 && c3 == ch, m3) + OnlyIf(b4 && c4 == ch, m4) + OnlyIf(b5 && c5 == ch, m5)
  {
    var front := Guarded(b1, Progress(false)) + Guarded(b2, Status(st)) + Guarded(b3, Append(c3, m3))
                 + Guarded(b4, Append(c4, m4));
    WrittenOfFour(b1, b2, st, b3, c3, m3, b4, c4, m4, ch);
    CollectConcat(front, Guarded(b5, Append(c5, m5)), TextOn(ch));
    CollectGuarded(b5, Append(c5, m5), TextOn(ch));
  }

  lemma OnlyIfConcat<T>(b: bool, x: seq<T>, y: seq<T>)
    ensures OnlyIf(b, x) + OnlyIf(b, y) == OnlyIf(b, x + y)
  {}

  lemma SucceededWritten(obs: Observers, code: int, ch: Channel)
    ensures Written(Succeeded(obs, code), ch) == OnlyIf(ch == LogChannel && obs.hasLog, SuccessMarker(code) + Separator)
  {
    var m := SuccessMarker(code);
    WrittenOfFour(obs.hasStatus, obs.hasStatus, SuccessStatus, obs.hasLog, LogChannel, m,
                  obs.hasLog, LogChannel, Separator, ch);
    OnlyIfConcat(ch == LogChannel && obs.hasLog, m, Separator);
  }

  lemma ExitedWithErrorWritten(obs: Observers, hasSink: bool, code: int, ch: Channel)
    ensures Written(ExitedWithError(obs, hasSink, code), ch)
         == if ch == LogChannel then OnlyIf(obs.hasLog, ErrorMarker(code) + Separator) else OnlyIf(hasSink,
               ErrorMarker(code))
  {
    ErrorShapeWritten(obs.hasStatus, FailedStatus(code), obs.hasLog, hasSink, ErrorMarker(code), Separator, ch);
  }

  /** The shape of a failed exit's completion, for any status text, marker and separator. */
  lemma ErrorShapeWritten(b: bool, st: string, hasLog: bool, hasSink: bool, m: string, sep: string, ch: Channel)
    ensures Written(Guarded(b, Progress(false)) + Guarded(b, Status(st)) + Guarded(hasLog, Append(LogChannel, m))
                    + Guarded(hasSink, Append(SinkChannel, m)) + Guarded(hasLog, Append(LogChannel, sep)), ch)
         == if ch == LogChannel then OnlyIf(hasLog, m + sep) else OnlyIf(hasSink, m)
  {
    WrittenOfFive(b, b, st, hasLog, LogChannel, m, hasSink, SinkChannel, m, hasLog, LogChannel, sep, ch);
    if ch == LogChannel {
      OnlyIfConcat(hasLog, m, sep);
    }
  }

  lemma FailedWritten(obs: Observers, hasSink: bool, message: JString, ch: Channel)
    ensures Written(Failed(obs, hasSink, message), ch) == OnlyIf(Receives(obs, hasSink, ch), ExceptionMarker(message))
  {
    var m := ExceptionMarker(message);
    WrittenOfFour(obs.hasStatus, obs.hasStatus, ErrorStatus, obs.hasLog, LogChannel, m,
                  hasSink, SinkChannel, m, ch);
    if ch == LogChannel {
      assert OnlyIf(obs.hasLog, m) + [] == OnlyIf(obs.hasLog, m);
    } else {
      assert [] + OnlyIf(hasSink, m) == OnlyIf(hasSink, m);
    }
  }

  lemma FinishWritten(obs: Observers, hasSink: bool, outcome: Outcome, ch: Channel)
    ensures Written(Finish(obs, hasSink, outcome), ch)
         == if ch == LogChannel then OnlyIf(obs.hasLog, LogEnding(outcome)) else OnlyIf(hasSink, SinkEnding(outcome))
  {
    match outcome
    case Exit(code) =>
      if code == 0 {
        SucceededWritten(obs, code, ch);
      } else {
        ExitedWithErrorWritten(obs, hasSink, code, ch);
      }
    case Exception(message) =>
      FailedWritten(obs, hasSink, message, ch);
  }

  lemma SucceededStatusView(obs: Observers, code: int)
    ensures StatusView(Succeeded(obs, code)) == OnlyIf(obs.hasStatus, [Progress(false), Status(SuccessStatus)])
  {
    CollectFour(obs.hasStatus, Progress(false), obs.hasStatus, Status(SuccessStatus),
                obs.hasLog, Append(LogChannel, SuccessMarker(code)), obs.hasLog, Append(LogChannel, Separator),
                KeepIf(ToStatusHandler));
  }

  lemma ExitedWithErrorStatusView(obs: Observers, hasSink: bool, code: int)
    ensures StatusView(ExitedWithError(obs, hasSink, code)) == OnlyIf(obs.hasStatus, [Progress(false),
          Status(FailedStatus(code))])
  {
    CollectFive(obs.hasStatus, Progress(false), obs.hasStatus, Status(FailedStatus(code)),
                obs.hasLog, Append(LogChannel, ErrorMarker(code)), hasSink, Append(SinkChannel, ErrorMarker(code)),
                obs.hasLog, Append(LogChannel, Separator), KeepIf(ToStatusHandler));
  }

  lemma FailedStatusView(obs: Observers, hasSink: bool, message: JString)
    ensures StatusView(Failed(obs, hasSink, message)) == OnlyIf(obs.hasStatus, [Progress(false), Status(ErrorStatus)])
  {
    CollectFour(obs.hasStatus, Progress(false), obs.hasStatus, Status(ErrorStatus),
                obs.hasLog, Append(LogChannel, ExceptionMarker(message)),
                hasSink, Append(SinkChannel, ExceptionMarker(message)), KeepIf(ToStatusHandler));
  }

  lemma FinishStatusView(obs: Observers, hasSink: bool, outcome: Outcome)
    ensures StatusView(Finish(obs, hasSink, outcome)) == OnlyIf(obs.hasStatus, [Progress(false),
          Status(FinalStatus(outcome))])
  {
    match outcome
    case Exit(code) =>
      if code == 0 {
        SucceededStatusView(obs, code);
      } else {
        ExitedWithErrorStatusView(obs, hasSink, code);
      }
    case Exception(message) =>
      FailedStatusView(obs, hasSink, message);
  }

  lemma CollectThree<T>(a: seq<Event>, b: seq<Event>, c: seq<Event>, f: Event -> seq<T>)
    ensures Collect(a + b + c, f) == Collect(a, f) + Collect(b, f) + Collect(c, f)
  {
    CollectConcat(a + b, c, f);
    CollectConcat(a, b, f);
  }

  lemma CollectTranscript<T>(obs: Observers, cmd: Command, run: Run, f: Event -> seq<T>)
    ensures Collect(Transcript(obs, cmd, run), f)
         == Collect(Announce(obs, cmd), f) + Collect(Stream(obs, cmd.hasSink, run.lines), f)
            + Collect(Finish(obs, cmd.hasSink, run.outcome), f)
  {
    CollectThree(Announce(obs, cmd), Stream(obs, cmd.hasSink, run.lines), Finish(obs, cmd.hasSink, run.outcome), f);
  }

  /** The log shows the echo, every printed line in read order, then the outcome's marker,
      followed by the separator only when the process exited; a null log shows nothing. */
  lemma TranscriptLog(obs: Observers, cmd: Command, run: Run)
    ensures Written(Transcript(obs, cmd, run), LogChannel)
         == OnlyIf(obs.hasLog, Echo(cmd.argv) + Lines(run.lines) + LogEnding(run.outcome))
  {
    CollectTranscript(obs, cmd, run, TextOn(LogChannel));
    AnnounceWritten(obs, cmd, LogChannel);
    StreamWritten(obs, cmd.hasSink, run.lines, LogChannel);
    FinishWritten(obs, cmd.hasSink, run.outcome, LogChannel);
  }

  /** The sink receives the printed lines, then the error or exception marker; a success
      adds nothing, and without a sink nothing is sent. */
  lemma TranscriptSink(obs: Observers, cmd: Command, run: Run)
    ensures Written(Transcript(obs, cmd, run), SinkChannel)
         == OnlyIf(cmd.hasSink, Lines(run.lines) + SinkEnding(run.outcome))
  {
    CollectTranscript(obs, cmd, run, TextOn(SinkChannel));
    AnnounceWritten(obs, cmd, SinkChannel);
    StreamWritten(obs, cmd.hasSink, run.lines, SinkChannel);
    FinishWritten(obs, cmd.hasSink, run.outcome, SinkChannel);
  }

  /** The status handler sees progress shown and indeterminate and the command's label,
      then exactly one hidden and the final status; a null handler sees nothing. */
  lemma TranscriptStatus(obs: Observers, cmd: Command, run: Run)
    ensures StatusView(Transcript(obs, cmd, run)) == OnlyIf(obs.hasStatus, StatusCycle(cmd, run.outcome))
  {
    CollectTranscript(obs, cmd, run, KeepIf(ToStatusHandler));
    AnnounceStatusView(obs, cmd);
    StreamStatusView(obs, cmd.hasSink, run.lines);
    FinishStatusView(obs, cmd.hasSink, run.outcome);
  }

  // ---------------------------------------------------------------- null receivers

  /** Whether an event's receiver is non-null: the status handler for progress and status
      changes, the log or the sink for appends. */
  function Reaches(obs: Observers, hasSink: bool): Event -> bool
  {
    (e: Event) => if e.Append? then Receives(obs, hasSink, e.channel) else obs.hasStatus
  }

  /** The receivers present in both. */
  function Meet(a: Observers, b: Observers): Observers
  {
    Observers(a.hasLog && b.hasLog, a.hasStatus && b.hasStatus)
  }

  lemma KeepGuarded(b: bool, e: Event, wanted: Event -> bool)
    ensures OnlyIf(b, KeepIf(wanted)(e)) == Guarded(b && wanted(e), e)
  {}

  lemma KeepFour(b1: bool, e1: Event, b2: bool, e2: Event, b3: bool, e3: Event, b4: bool, e4: Event,
                 wanted: Event -> bool)
    ensures Collect(Guarded(b1, e1) + Guarded(b2, e2) + Guarded(b3, e3) + Guarded(b4, e4), KeepIf(wanted))
         == Guarded(b1 && wanted(e1), e1) + Guarded(b2 && wanted(e2), e2) + Guarded(b3 && wanted(e3), e3)
            + Guarded(b4 && wanted(e4), e4)
  {
    CollectFour(b1, e1, b2, e2, b3, e3, b4, e4, KeepIf(wanted));
    KeepGuarded(b1, e1, wanted);
    KeepGuarded(b2, e2, wanted);
    KeepGuarded(b3, e3, wanted);
    KeepGuarded(b4, e4, wanted);
  }

  lemma KeepFive(b1: bool, e1: Event, b2: bool, e2: Event, b3: bool, e3: Event, b4: bool, e4: Event,
                 b5: bool, e5: Event, wanted: Event -> bool)
    ensures Collect(Guarded(b1, e1) + Guarded(b2, e2) + Guarded(b3, e3) + Guarded(b4, e4) + Guarded(b5, e5),
                    KeepIf(wanted))
         == Guarded(b1 && wanted(e1), e1) + Guarded(b2 && wanted(e2), e2) + Guarded(b3 && wanted(e3), e3)
            + Guarded(b4 && wanted(e4), e4) + Guarded(b5 && wanted(e5), e5)
  {
    CollectFive(b1, e1, b2, e2, b3, e3, b4, e4, b5, e5, KeepIf(wanted));
    KeepGuarded(b1, e1, wanted);
    KeepGuarded(b2, e2, wanted);
    KeepGuarded(b3, e3, wanted);
    KeepGuarded(b4, e4, wanted);
    KeepGuarded(b5, e5, wanted);
  }

  lemma AnnounceFilter(obs: Observers, cmd: Command, other: Observers, otherSink: bool)
    ensures Collect(Announce(obs, cmd), KeepIf(Reaches(other, otherSink))) == Announce(Meet(obs, other), cmd)
  {
    KeepFour(obs.hasStatus, Progress(true), obs.hasStatus, Indeterminate, obs.hasStatus, Status(cmd.status),
             obs.hasLog, Append(LogChannel, Echo(cmd.argv)), Reaches(other, otherSink));
  }

  lemma {:induction false} StreamFilter(obs: Observers, hasSink: bool, lines: seq<string>, other: Observers,
        otherSink: bool)
    ensures Collect(Stream(obs, hasSink, lines), KeepIf(Reaches(other, otherSink)))
         == Stream(Meet(obs, other), hasSink && otherSink, lines)
    decreases |lines|
  {
    if |lines| > 0 {
      var f := KeepIf(Reaches(other, otherSink));
      var s, l := Guarded(hasSink, Append(SinkChannel, lines[0] + "\n")), Guarded(obs.hasLog,
            Append(LogChannel, lines[0] + "\n"));
      CollectConcat(s + l, Stream(obs, hasSink, lines[1..]), f);
      CollectConcat(s, l, f);
      CollectGuarded(hasSink, Append(SinkChannel, lines[0] + "\n"), f);
      CollectGuarded(obs.hasLog, Append(LogChannel, lines[0] + "\n"), f);
      StreamFilter(obs, hasSink, lines[1..], other, otherSink);
    }
  }

  lemma SucceededFilter(obs: Observers, code: int, other: Observers, otherSink: bool)
    ensures Collect(Succeeded(obs, code), KeepIf(Reaches(other, otherSink))) == Succeeded(Meet(obs, other), code)
  {
    KeepFour(obs.hasStatus, Progress(false), obs.hasStatus, Status(SuccessStatus),
             obs.hasLog, Append(LogChannel, SuccessMarker(code)), obs.hasLog, Append(LogChannel, Separator),
             Reaches(other, otherSink));
  }

  lemma ExitedWithErrorFilter(obs: Observers, hasSink: bool, code: int, other: Observers, otherSink: bool)
    ensures Collect(ExitedWithError(obs, hasSink, code), KeepIf(Reaches(other, otherSink)))
         == ExitedWithError(Meet(obs, other), hasSink && otherSink, code)
  {
    KeepFive(obs.hasStatus, Progress(false), obs.hasStatus, Status(FailedStatus(code)),
             obs.hasLog, Append(LogChannel, ErrorMarker(code)), hasSink, Append(SinkChannel, ErrorMarker(code)),
             obs.hasLog, Append(LogChannel, Separator), Reaches(other, otherSink));
  }

  lemma FailedFilter(obs: Observers, hasSink: bool, message: JString, other: Observers, otherSink: bool)
    ensures Collect(Failed(obs, hasSink, message), KeepIf(Reaches(other, otherSink)))
         == Failed(Meet(obs, other), hasSink && otherSink, message)
  {
    KeepFour(obs.hasStatus, Progress(false), obs.hasStatus, Status(ErrorStatus),
             obs.hasLog, Append(LogChannel, ExceptionMarker(message)),
             hasSink, Append(SinkChannel, ExceptionMarker(message)), Reaches(other, otherSink));
  }

  lemma FinishFilter(obs: Observers, hasSink: bool, outcome: Outcome, other: Observers, otherSink: bool)
    ensures Collect(Finish(obs, hasSink, outcome), KeepIf(Reaches(other, otherSink)))
         == Finish(Meet(obs, other), hasSink && otherSink, outcome)
  {
    match outcome
    case Exit(code) =>
      if code == 0 {
        SucceededFilter(obs, code, other, otherSink);
      } else {
        ExitedWithErrorFilter(obs, hasSink, code, other, otherSink);
      }
    case Exception(message) =>
      FailedFilter(obs, hasSink, message, other, otherSink);
  }

  /** Every effect is guarded by a null check on its own receiver only: dropping from a
      transcript the events whose receiver is absent in `other` gives exactly the transcript
      run with those receivers null, in the same order. So a null log or status handler
      suppresses its own events and never anyone else's. */
  lemma TranscriptNullReceivers(obs: Observers, cmd: Command, run: Run, other: Observers, otherSink: bool)
    ensures Collect(Transcript(obs, cmd, run), KeepIf(Reaches(other, otherSink)))
         == Transcript(Meet(obs, other), cmd.(hasSink := cmd.hasSink && otherSink), run)
  {
    CollectTranscript(obs, cmd, run, KeepIf(Reaches(other, otherSink)));
    AnnounceFilter(obs, cmd, other, otherSink);
    StreamFilter(obs, cmd.hasSink, run.lines, other, otherSink);
    FinishFilter(obs, cmd.hasSink, run.outcome, other, otherSink);
  }

  // ---------------------------------------------------------------- the queue

  /** The log text of a queue: each command's echo, output and ending, in submission order. */
  function QueueLog(jobs: seq<(Command, Run)>): string
    decreases |jobs|
  {
    if |jobs| == 0 then "" else Echo(jobs[0].0.argv) + Lines(jobs[0].1.lines) + LogEnding(jobs[0].1.outcome) + QueueLog(jobs[1..])
  }

  /** The status handler's view of a queue: one cycle per command, in submission order. */
  function StatusCycles(jobs: seq<(Command, Run)>): seq<Event>
    decreases |jobs|
  {
    if |jobs| == 0 then [] else StatusCycle(jobs[0].0, jobs[0].1.outcome) + StatusCycles(jobs[1..])
  }

  /** Running two queues one after the other is running their concatenation. */
  lemma {:induction false} ExecuteConcat(obs: Observers, a: seq<(Command, Run)>, b: seq<(Command, Run)>)
    ensures Execute(obs, a + b) == Execute(obs, a) + Execute(obs, b)
    decreases |a|
  {
    if |a| > 0 {
      assert (a + b)[0] == a[0];
      assert (a + b)[1..] == a[1..] + b;
      ExecuteConcat(obs, a[1..], b);
    } else {
      assert a + b == b;
    }
  }

  /** The single worker's log is every command's log text in submission order. */
  lemma {:induction false} ExecuteLog(obs: Observers, jobs: seq<(Command, Run)>)
    ensures Written(Execute(obs, jobs), LogChannel) == OnlyIf(obs.hasLog, QueueLog(jobs))
    decreases |jobs|
  {
    if |jobs| > 0 {
      CollectConcat(Transcript(obs, jobs[0].0, jobs[0].1), Execute(obs, jobs[1..]), TextOn(LogChannel));
      TranscriptLog(obs, jobs[0].0, jobs[0].1);
      ExecuteLog(obs, jobs[1..]);
    }
  }

  /** The status handler sees one full cycle per command, in submission order, so each
      command is finalized exactly once and before the next one is announced. */
  lemma {:induction false} ExecuteStatus(obs: Observers, jobs: seq<(Command, Run)>)
    ensures StatusView(Execute(obs, jobs)) == OnlyIf(obs.hasStatus, StatusCycles(jobs))
    decreases |jobs|
  {
    if |jobs| > 0 {
      CollectConcat(Transcript(obs, jobs[0].0, jobs[0].1), Execute(obs, jobs[1..]), KeepIf(ToStatusHandler));
      TranscriptStatus(obs, jobs[0].0, jobs[0].1);
      ExecuteStatus(obs, jobs[1..]);
    }
  }

  lemma {:induction false} StatusCyclesLength(jobs: seq<(Command, Run)>)
    ensures |StatusCycles(jobs)| == 5 * |jobs|
    decreases |jobs|
  {
    if |jobs| > 0 {
      StatusCyclesLength(jobs[1..]);
    }
  }

  /** The k-th block of five status events is the k-th command's cycle. */
  lemma {:induction false} StatusCyclesBlock(jobs: seq<(Command, Run)>, k: nat)
    requires k < |jobs|
    ensures 5 * k + 5 <= |StatusCycles(jobs)|
    ensures StatusCycles(jobs)[5 * k..5 * k + 5] == StatusCycle(jobs[k].0, jobs[k].1.outcome)
    decreases k
  {
    StatusCyclesLength(jobs);
    if k > 0 {
      StatusCyclesBlock(jobs[1..], k - 1);
      var rest := StatusCycles(jobs[1..]);
      assert StatusCycles(jobs) == StatusCycle(jobs[0].0, jobs[0].1.outcome) + rest;
      assert StatusCycles(jobs)[5 * k..5 * k + 5] == rest[5 * (k - 1)..5 * (k - 1) + 5];
    }
  }

  lemma LastCycle(jobs: seq<(Command, Run)>)
    requires |jobs| > 0
    ensures |StatusCycles(jobs)| == 5 * |jobs|
    ensures StatusCycles(jobs)[5 * |jobs| - 1] == Status(FinalStatus(jobs[|jobs| - 1].1.outcome))
  {
    var k := |jobs| - 1;
    StatusCyclesLength(jobs);
    StatusCyclesBlock(jobs, k);
    var cycles := StatusCycles(jobs);
    assert cycles[5 * k..5 * k + 5][4] == cycles[5 * k + 4];
  }

  /** The status handler is left showing the last command's final status. */
  lemma LastStatus(obs: Observers, jobs: seq<(Command, Run)>)
    requires obs.hasStatus && |jobs| > 0
    ensures var view := StatusView(Execute(obs, jobs));
      |view| == 5 * |jobs| && view[|view| - 1] == Status(FinalStatus(jobs[|jobs| - 1].1.outcome))
  {
    ExecuteStatus(obs, jobs);
    LastCycle(jobs);
  }
}
