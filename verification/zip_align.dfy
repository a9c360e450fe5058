/** The aligner: ZipAlignService builds `zipalign -v 4 <apk> <out>` and hands it to the
    command executor; the older Zipalign class builds the same argv with the bare tool name
    and runs it through its own copy of the executor's state machine, which writes to the
    main window's output area and has no per-command sink. */
module ZipAlign {
  import opened JavaLang
  import opened Commands
  import opened Executor

  const AligningStatus: string := "Aligning APK..."

  /** The tool path the older class starts with. */
  const LegacyZipalignPath: string := "zipalign"

  /** ZipAlignService.alighApk: the tool, the verbose flag, the 4-byte alignment, then the
      input and the output. Nothing is validated; a blank or null path is submitted as is. */
  function AlignApk(zipalignPath: string, apkPath: JString, outputPath: JString): (r: Request)
    ensures r.Submitted? && r.notes == []
    ensures r.cmd.status == AligningStatus && !r.cmd.hasSink
    ensures ParseAlign(r.cmd.argv) == Some((zipalignPath, apkPath, outputPath))
  {
    Submitted([], Command([Str(zipalignPath), Str("-v"), Str("4"), apkPath, outputPath], AligningStatus, false))
  }

  /** Reads an aligner argv: five words, "-v" and "4" second and third; the tool, input and output. */
  function ParseAlign(argv: seq<JString>): Option<(string, JString, JString)>
  {
    if |argv| == 5 && argv[0].Str? && argv[1] == Str("-v") && argv[2] == Str("4") then
      Some((argv[0].value, argv[3], argv[4]))
    else
      None
  }

  /** Every argv the reader accepts is one the service builds, from exactly what was read. */
  lemma AlignArgvOfParse(argv: seq<JString>)
    requires ParseAlign(argv).Some?
    ensures var (tool, apk, out) := ParseAlign(argv).value;
      AlignApk(tool, apk, out).cmd.argv == argv
  {
  }

  /** Zipalign.alighApk. */
  function LegacyAlignArgv(apkPath: JString, outputPath: JString): (r: seq<JString>)
    ensures ParseAlign(r) == Some((LegacyZipalignPath, apkPath, outputPath))
  {
    [Str(LegacyZipalignPath), Str("-v"), Str("4"), apkPath, outputPath]
  }

  /** The older builder is the service's builder with the tool path fixed to "zipalign". */
  lemma LegacyAlignIsService(apkPath: JString, outputPath: JString)
    ensures LegacyAlignArgv(apkPath, outputPath) == AlignApk(LegacyZipalignPath, apkPath, outputPath).cmd.argv
  {
    AlignArgvOfParse(LegacyAlignArgv(apkPath, outputPath));
  }

  // ---------------------------------------------------------------- Zipalign.executeCommand

  /** The announce: the echo is followed by an empty line ("\n\n"). */
  function LegacyAnnounce(argv: seq<JString>, status: string): seq<Event>
  {
    [Progress(true), Indeterminate, Status(status), Append(LogChannel, "> " + Join(" ", ShowAll(argv)) + "\n\n")]
  }

  /** The older echo is the executor's echo followed by one more "\n". */
  lemma LegacyEchoLine(argv: seq<JString>)
    ensures "> " + Join(" ", ShowAll(argv)) + "\n\n" == Echo(argv) + "\n"
  {
    var j := Join(" ", ShowAll(argv));
    assert "> " + j + "\n\n" == ("> " + j + "\n") + "\n";
  }

  lemma LegacyAnnounceGuarded(argv: seq<JString>, status: string)
    ensures LegacyAnnounce(argv, status)
         == Guarded(true, Progress(true)) + Guarded(true, Indeterminate) + Guarded(true, Status(status))
            + Guarded(true, Append(LogChannel, Echo(argv) + "\n"))
  {
    LegacyEchoLine(argv);
  }

  /** Each printed line goes to the output area only. */
  function LegacyStream(lines: seq<string>): seq<Event>
    decreases |lines|
  {
    if |lines| == 0 then [] else [Append(LogChannel, lines[0] + "\n")] + LegacyStream(lines[1..])
  }

  function LegacyFinish(outcome: Outcome): seq<Event>
  {
    match outcome
    case Exit(code) =>
      [Progress(false)]
      + (if code == 0 then [Status(SuccessStatus), Append(LogChannel, SuccessMarker(code))]
         else [Status(FailedStatus(code)), Append(LogChannel, ErrorMarker(code))])
      + [Append(LogChannel, Separator)]
    case Exception(message) =>
      [Progress(false), Status(ErrorStatus), Append(LogChannel, ExceptionMarker(message))]
  }

  function LegacyTranscript(argv: seq<JString>, status: string, run: Run): seq<Event>
  {
    LegacyAnnounce(argv, status) + LegacyStream(run.lines) + LegacyFinish(run.outcome)
  }

  /** The executor's transcript with every receiver present and no sink: what the older
      copy is compared against. */
  function FullTranscript(argv: seq<JString>, status: string, run: Run): seq<Event>
  {
    Transcript(Observers(true, true), Command(argv, status, false), run)
  }

  lemma {:induction false} LegacyStreamIsStream(lines: seq<string>)
    ensures LegacyStream(lines) == Stream(Observers(true, true), false, lines)
    decreases |lines|
  {
    if |lines| > 0 {
      LegacyStreamIsStream(lines[1..]);
    }
  }

  lemma LegacyFinishIsFinish(outcome: Outcome)
    ensures LegacyFinish(outcome) == Finish(Observers(true, true), false, outcome)
  {
    var obs := Observers(true, true);
    match outcome
    case Exit(code) =>
      if code == 0 {
        assert LegacyFinish(outcome) == [Progress(false), Status(SuccessStatus), Append(LogChannel, SuccessMarker(code)),
                                         Append(LogChannel, Separator)];
        assert Succeeded(obs, code) == LegacyFinish(outcome);
      } else {
        assert LegacyFinish(outcome) == [Progress(false), Status(FailedStatus(code)), Append(LogChannel, ErrorMarker(code)),
                                         Append(LogChannel, Separator)];
        assert ExitedWithError(obs, false, code) == LegacyFinish(outcome);
      }
    case Exception(message) =>
      assert Failed(obs, false, message) == LegacyFinish(outcome);
  }

  /** The older copy behaves as the executor with every receiver present and no sink,
      except that its echo carries one more "\n": the transcripts have the same length
      and differ only at the echo, the fourth event. */
  lemma LegacyDiffersOnlyInEcho(argv: seq<JString>, status: string, run: Run)
    ensures var full := FullTranscript(argv, status, run);
      |full| > 3 && LegacyTranscript(argv, status, run) == full[3 := Append(LogChannel, Echo(argv) + "\n")]
  {
    var obs := Observers(true, true);
    var announce := Announce(obs, Command(argv, status, false));
    var echo := Append(LogChannel, Echo(argv) + "\n");
    var stream, finish := Stream(obs, false, run.lines), Finish(obs, false, run.outcome);
    LegacyStreamIsStream(run.lines);
    LegacyFinishIsFinish(run.outcome);
    LegacyAnnounceIsUpdate(argv, status);
    Regroup(announce, stream, finish);
    Regroup(LegacyAnnounce(argv, status), stream, finish);
    UpdateInFront(announce, stream + finish, 3, echo);
  }

  /** The older announce is the executor's with the fourth event, the echo, replaced. */
  lemma LegacyAnnounceIsUpdate(argv: seq<JString>, status: string)
    ensures var announce := Announce(Observers(true, true), Command(argv, status, false));
      |announce| == 4 && LegacyAnnounce(argv, status) == announce[3 := Append(LogChannel, Echo(argv) + "\n")]
  {
    var announce := Announce(Observers(true, true), Command(argv, status, false));
    assert announce == [Progress(true), Indeterminate, Status(status), Append(LogChannel, Echo(argv))];
    LegacyEchoLine(argv);
  }

  lemma Regroup<T>(a: seq<T>, b: seq<T>, c: seq<T>)
    ensures a + b + c == a + (b + c)
  {}

  lemma UpdateInFront<T>(a: seq<T>, rest: seq<T>, i: nat, v: T)
    requires i < |a|
    ensures (a + rest)[i := v] == a[i := v] + rest
  {}

  /** Any view of the older transcript is the view of its announce, then of the executor's
      stream and finish. */
  lemma LegacyCollect<T>(argv: seq<JString>, status: string, run: Run, f: Event -> seq<T>)
    ensures Collect(LegacyTranscript(argv, status, run), f)
         == Collect(LegacyAnnounce(argv, status), f) + Collect(Stream(Observers(true, true), false, run.lines), f)
            + Collect(Finish(Observers(true, true), false, run.outcome), f)
  {
    LegacyStreamIsStream(run.lines);
    LegacyFinishIsFinish(run.outcome);
    CollectThree(LegacyAnnounce(argv, status), LegacyStream(run.lines), LegacyFinish(run.outcome), f);
  }

  lemma LegacyAnnounceWritten(argv: seq<JString>, status: string)
    ensures Written(LegacyAnnounce(argv, status), LogChannel) == Echo(argv) + "\n"
  {
    LegacyAnnounceGuarded(argv, status);
    CollectFour(true, Progress(true), true, Indeterminate, true, Status(status),
                true, Append(LogChannel, Echo(argv) + "\n"), TextOn(LogChannel));
  }

  lemma LegacyAnnounceStatus(argv: seq<JString>, status: string)
    ensures StatusView(LegacyAnnounce(argv, status)) == [Progress(true), Indeterminate, Status(status)]
  {
    LegacyAnnounceGuarded(argv, status);
    CollectFour(true, Progress(true), true, Indeterminate, true, Status(status),
                true, Append(LogChannel, Echo(argv) + "\n"), KeepIf(ToStatusHandler));
  }

  /** The output area shows the echo and an empty line, every printed line, then the outcome's
      marker and, after an exit, the separator. */
  lemma LegacyLog(argv: seq<JString>, status: string, run: Run)
    ensures Written(LegacyTranscript(argv, status, run), LogChannel)
         == Echo(argv) + "\n" + Lines(run.lines) + LogEnding(run.outcome)
  {
    LegacyCollect(argv, status, run, TextOn(LogChannel));
    LegacyAnnounceWritten(argv, status);
    StreamWritten(Observers(true, true), false, run.lines, LogChannel);
    FinishWritten(Observers(true, true), false, run.outcome, LogChannel);
  }

  /** The progress bar and status label go through the same cycle as under the executor. */
  lemma LegacyStatus(argv: seq<JString>, status: string, run: Run)
    ensures StatusView(LegacyTranscript(argv, status, run)) == StatusCycle(Command(argv, status, false), run.outcome)
  {
    LegacyCollect(argv, status, run, KeepIf(ToStatusHandler));
    LegacyAnnounceStatus(argv, status);
    StreamStatusView(Observers(true, true), false, run.lines);
    FinishStatusView(Observers(true, true), false, run.outcome);
  }
}
