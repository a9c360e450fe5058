/** The device tab's decision rules: which device the selector shows after a refresh, and
    what each button and the shell field do with the selected device. The device service
    itself (adb processes) is outside the model; a handler's reaction is the list of effects
    it produces, in order, with a service call as one effect among them. */
module AdbTab {
  import opened JavaLang

  // ---------------------------------------------------------------- refreshing the device list

  /** What the refresh does to the selection: keep the previous device, select index 0, or
      leave the selection to the combo box (only possible when the new list is empty). */
  datatype Choice = Kept(device: string) | First(device: string) | Untouched

  /** The combo box after a refresh: its items and the selection decision. */
  datatype Refreshed = Refreshed(items: seq<string>, choice: Choice)

  /** refreshDevices: the items become the new list, in order; the previous value is kept when
      it is non-null and still listed; otherwise the first device is selected, if there is one. */
  function Refresh(current: JString, devices: seq<string>): (r: Refreshed)
    ensures r.items == devices
    ensures r.choice.Kept? <==> current.Str? && current.value in devices
    ensures r.choice.Kept? ==> r.choice.device == current.value
    ensures r.choice.First? <==> !r.choice.Kept? && |devices| > 0
    ensures r.choice.First? ==> r.choice.device == devices[0]
    ensures r.choice.Untouched? ==> devices == []
  {
    if current.Str? && current.value in devices then Refreshed(devices, Kept(current.value))
    else if |devices| > 0 then Refreshed(devices, First(devices[0]))
    else Refreshed(devices, Untouched)
  }

  /** The device a decision selects, if it selects one. */
  function Chosen(c: Choice): Option<string>
  {
    if c.Untouched? then None else Some(c.device)
  }

  /** Whatever the refresh selects is one of the listed devices, and a non-empty list always
      ends up with a selection. */
  lemma RefreshSelectsListed(current: JString, devices: seq<string>)
    ensures var r := Refresh(current, devices);
      (Chosen(r.choice).Some? <==> |devices| > 0) && (Chosen(r.choice).Some? ==> Chosen(r.choice).value in r.items)
  {
  }

  /** A refresh that returns the same list again leaves the selection where it is: the device
      it chose is kept by the next refresh. */
  lemma {:induction false} RefreshStable(current: JString, devices: seq<string>)
    requires |devices| > 0
    ensures var d := Chosen(Refresh(current, devices).choice).value;
      Refresh(Str(d), devices) == Refreshed(devices, Kept(d))
  {
    RefreshSelectsListed(current, devices);
  }

  // ---------------------------------------------------------------- the handlers

  /** The device service calls the tab makes; each names the device it addresses. */
  datatype ServiceCall =
    | Install(device: string, apkPath: string)
    | PullApk(device: string, packageName: string, destination: string)
    | DumpPackage(device: string, packageName: string)
    | Uninstall(device: string, packageName: string)
    | ShellCommand(device: string, command: string)

  /** What a handler does, in order. `ChooseDirectory` is the directory dialog of the pull
      button; `ClearCommand` empties the shell field. */
  datatype Effect =
    | ShowError(message: string)
    | AppendTerminal(text: string)
    | ClearCommand
    | ChooseDirectory
    | Invoke(call: ServiceCall)

  /** The user's actions on the tab, with the text fields' contents. For the pull button,
      `chosen` is what the directory dialog returns once it is shown (Null when cancelled). */
  datatype UiEvent =
    | InstallClicked(apkText: string)
    | PullClicked(packageText: string, chosen: JString)
    | DumpClicked(packageText: string)
    | UninstallClicked(packageText: string)
    | ShellEntered(commandText: string)

  const SelectDevice: string := "Select a device"
  const EnterPackage: string := "Enter package name"
  const NoDeviceSelected: string := "Error: No device selected."

  /** The install, dump and uninstall buttons: the call with the selected device, or the
      "Select a device" error. The field text is passed on unchecked. */
  function WithDevice(dev: JString, call: string -> ServiceCall): (r: seq<Effect>)
    ensures |r| == 1
    ensures r[0].Invoke? <==> dev.Str?
    ensures r[0].Invoke? ==> r[0].call == call(dev.value)
    ensures r[0].ShowError? <==> dev.Null?
    ensures r[0].ShowError? ==> r[0].message == SelectDevice
  {
    if dev.Str? then [Invoke(call(dev.value))] else [ShowError(SelectDevice)]
  }

  /** The pull button: the device is checked first, then that the package field is not empty
      (a whitespace-only name passes); only then is the directory dialog shown, and the pull
      is made only if a directory was chosen. */
  function OnPull(dev: JString, packageText: string, chosen: JString): (r: seq<Effect>)
    ensures dev.Null? ==> r == [ShowError(SelectDevice)]
    ensures dev.Str? && packageText == "" ==> r == [ShowError(EnterPackage)]
    ensures (ChooseDirectory in r) <==> dev.Str? && packageText != ""
    ensures |r| == 2 <==> dev.Str? && packageText != "" && chosen.Str?
    ensures |r| == 2 ==> r == [ChooseDirectory, Invoke(PullApk(dev.value, packageText, chosen.value))]
  {
    if dev.Null? then [ShowError(SelectDevice)]
    else if packageText == "" then [ShowError(EnterPackage)]
    else [ChooseDirectory] + (if chosen.Str? then [Invoke(PullApk(dev.value, packageText, chosen.value))] else [])
  }

  /** The line the shell field echoes: "?" stands for a missing device. */
  function ShellEcho(dev: JString, command: string): string
  {
    "> adb -s " + (if dev.Null? then "?" else dev.value) + " shell " + command
  }

  /** The shell field: an empty command does nothing at all; otherwise the echo is appended and
      the field cleared, then the command goes to the selected device or, with none, the
      terminal shows "Error: No device selected.". */
  function OnShell(dev: JString, command: string): (r: seq<Effect>)
    ensures command == "" <==> r == []
    ensures command != "" ==> |r| == 3 && r[0] == AppendTerminal(ShellEcho(dev, command)) && r[1] == ClearCommand
    ensures command != "" ==> (r[2].Invoke? <==> dev.Str?)
    ensures command != "" && dev.Null? ==> r[2] == AppendTerminal(NoDeviceSelected)
  {
    if command == "" then []
    else
      [AppendTerminal(ShellEcho(dev, command)), ClearCommand]
      + (if dev.Str? then [Invoke(ShellCommand(dev.value, command))] else [AppendTerminal(NoDeviceSelected)])
  }

  /** Dispatches an event to its handler, with the combo box's current value. */
  function Handle(dev: JString, e: UiEvent): seq<Effect>
  {
    match e
    case InstallClicked(apk) => WithDevice(dev, d => Install(d, apk))
    case PullClicked(pkg, chosen) => OnPull(dev, pkg, chosen)
    case DumpClicked(pkg) => WithDevice(dev, d => DumpPackage(d, pkg))
    case UninstallClicked(pkg) => WithDevice(dev, d => Uninstall(d, pkg))
    case ShellEntered(cmd) => OnShell(dev, cmd)
  }

  /** The service calls among a handler's effects, in order. */
  function Calls(effects: seq<Effect>): seq<ServiceCall>
    decreases |effects|
  {
    if |effects| == 0 then []
    else (if effects[0].Invoke? then [effects[0].call] else []) + Calls(effects[1..])
  }

  lemma {:induction false} CallsConcat(a: seq<Effect>, b: seq<Effect>)
    ensures Calls(a + b) == Calls(a) + Calls(b)
    decreases |a|
  {
    if |a| == 0 {
      assert a + b == b;
    } else {
      assert (a + b)[0] == a[0];
      assert (a + b)[1..] == a[1..] + b;
      CallsConcat(a[1..], b);
    }
  }

  /** The text the terminal area gains: each appended text followed by "\n". */
  function Terminal(effects: seq<Effect>): string
    decreases |effects|
  {
    if |effects| == 0 then ""
    else (if effects[0].AppendTerminal? then effects[0].text + "\n" else "") + Terminal(effects[1..])
  }

  /** The errors shown in a dialog, in order. */
  function Errors(effects: seq<Effect>): seq<string>
    decreases |effects|
  {
    if |effects| == 0 then []
    else (if effects[0].ShowError? then [effects[0].message] else []) + Errors(effects[1..])
  }

  /** The three views of a handler's effects, one effect at a time. */
  lemma CallsOfThree(a: Effect, b: Effect, c: Effect)
    ensures Calls([a, b, c]) == Calls([a]) + Calls([b]) + Calls([c])
  {
    assert [a, b, c][1..] == [b, c];
    assert [b, c][1..] == [c];
  }

  lemma ErrorsOfThree(a: Effect, b: Effect, c: Effect)
    ensures Errors([a, b, c]) == Errors([a]) + Errors([b]) + Errors([c])
  {
    assert [a, b, c][1..] == [b, c];
    assert [b, c][1..] == [c];
  }

  lemma TerminalOfThree(a: Effect, b: Effect, c: Effect)
    ensures Terminal([a, b, c]) == Terminal([a]) + Terminal([b]) + Terminal([c])
  {
    assert [a, b, c][1..] == [b, c];
    assert [b, c][1..] == [c];
  }

  lemma ViewsOfTwo(a: Effect, b: Effect)
    ensures Calls([a, b]) == Calls([a]) + Calls([b])
    ensures Errors([a, b]) == Errors([a]) + Errors([b])
  {
    assert [a, b][1..] == [b];
    assert [b][1..] == [];
  }

  /** Does the event need the selected device at all (an empty shell command does not)? */
  predicate NeedsDevice(e: UiEvent)
  {
    !(e.ShellEntered? && e.commandText == "")
  }

  /** No device, no call: without a selection no handler reaches the service, and each one
      that needs a device says so, in a dialog or, for the shell, in the terminal. */
  lemma NoDeviceNoCall(e: UiEvent)
    ensures Calls(Handle(Null, e)) == []
    ensures NeedsDevice(e) && !e.ShellEntered? ==> Errors(Handle(Null, e)) == [SelectDevice]
    ensures NeedsDevice(e) && e.ShellEntered? ==>
      Terminal(Handle(Null, e)) == ShellEcho(Null, e.commandText) + "\n" + NoDeviceSelected + "\n"
  {
    match e
    case ShellEntered(cmd) =>
      if cmd != "" {
        NoDeviceShell(cmd);
      }
    case PullClicked(pkg, chosen) =>
      assert Handle(Null, e) == [ShowError(SelectDevice)];
      SelectDeviceViews();
    case _ =>
      assert Handle(Null, e) == [ShowError(SelectDevice)];
      SelectDeviceViews();
  }

  lemma SelectDeviceViews()
    ensures Calls([ShowError(SelectDevice)]) == [] && Errors([ShowError(SelectDevice)]) == [SelectDevice]
  {}

  lemma NoDeviceShell(cmd: string)
    requires cmd != ""
    ensures Calls(OnShell(Null, cmd)) == []
    ensures Terminal(OnShell(Null, cmd)) == ShellEcho(Null, cmd) + "\n" + NoDeviceSelected + "\n"
  {
    var echo := ShellEcho(Null, cmd);
    var a, b, c := AppendTerminal(echo), ClearCommand, AppendTerminal(NoDeviceSelected);
    assert OnShell(Null, cmd) == [a, b, c];
    CallsOfThree(a, b, c);
    TerminalOfThree(a, b, c);
    assert Terminal([a]) == echo + "\n" && Terminal([b]) == "" && Terminal([c]) == NoDeviceSelected + "\n";
    assert (echo + "\n") + "" + (NoDeviceSelected + "\n") == echo + "\n" + NoDeviceSelected + "\n";
  }

  /** Every call a handler makes addresses the selected device, and a handler makes at most one. */
  lemma CallsTargetSelection(dev: JString, e: UiEvent)
    ensures |Calls(Handle(dev, e))| <= 1
    ensures forall c :: c in Calls(Handle(dev, e)) ==> dev == Str(c.device)
  {
    match e
    case ShellEntered(cmd) =>
      if cmd != "" {
        var r := Handle(dev, e);
        CallsOfThree(r[0], r[1], r[2]);
      }
    case PullClicked(pkg, chosen) =>
      if dev.Str? && pkg != "" && chosen.Str? {
        ViewsOfTwo(ChooseDirectory, Invoke(PullApk(dev.value, pkg, chosen.value)));
      }
    case _ =>
  }

  /** A session: the events handled one after another with the same selected device, and
      their effects in the order they happen. */
  function HandleAll(dev: JString, events: seq<UiEvent>): seq<Effect>
    decreases |events|
  {
    if |events| == 0 then [] else Handle(dev, events[0]) + HandleAll(dev, events[1..])
  }

  /** No device, no call, for any run of events: with nothing selected, however the user
      clicks and types, the device service is never reached. */
  lemma {:induction false} NoDeviceSessionNoCall(events: seq<UiEvent>)
    ensures Calls(HandleAll(Null, events)) == []
    decreases |events|
  {
    if |events| > 0 {
      CallsConcat(Handle(Null, events[0]), HandleAll(Null, events[1..]));
      NoDeviceNoCall(events[0]);
      NoDeviceSessionNoCall(events[1..]);
    }
  }

  /** Over a run of events every call addresses the selected device, and there is at most
      one call per event. */
  lemma {:induction false} SessionCallsTargetSelection(dev: JString, events: seq<UiEvent>)
    ensures |Calls(HandleAll(dev, events))| <= |events|
    ensures forall c :: c in Calls(HandleAll(dev, events)) ==> dev == Str(c.device)
    decreases |events|
  {
    if |events| > 0 {
      CallsConcat(Handle(dev, events[0]), HandleAll(dev, events[1..]));
      CallsTargetSelection(dev, events[0]);
      SessionCallsTargetSelection(dev, events[1..]);
    }
  }

  /** With a device selected, the install, dump and uninstall buttons always reach the service,
      whatever their field holds (an empty package name included), and show no error. */
  lemma DeviceUnlocksButtons(device: string, e: UiEvent)
    requires e.InstallClicked? || e.DumpClicked? || e.UninstallClicked?
    ensures |Calls(Handle(Str(device), e))| == 1 && Errors(Handle(Str(device), e)) == []
  {
  }

  /** After a refresh that finds devices, every button that needs a device passes the device
      check: none of them shows "Select a device". */
  lemma RefreshUnlocksButtons(current: JString, devices: seq<string>, e: UiEvent)
    requires |devices| > 0
    ensures SelectDevice !in Errors(Handle(Str(Chosen(Refresh(current, devices).choice).value), e))
  {
    var dev := Str(Chosen(Refresh(current, devices).choice).value);
    match e
    case PullClicked(pkg, chosen) =>
      if pkg == "" {
        assert Handle(dev, e) == [ShowError(EnterPackage)];
      } else if chosen.Str? {
        ViewsOfTwo(ChooseDirectory, Invoke(PullApk(dev.value, pkg, chosen.value)));
      }
    case ShellEntered(cmd) =>
      if cmd != "" {
        var r := Handle(dev, e);
        ErrorsOfThree(r[0], r[1], r[2]);
      }
    case _ =>
  }

  // ---------------------------------------------------------------- reading the echo back

  /** The first position of `c` in `s`, or -1. */
  function IndexOf(s: string, c: char): (k: int)
    ensures -1 <= k < |s|
    ensures k == -1 ==> c !in s
    ensures k >= 0 ==> s[k] == c && c !in s[..k]
    decreases |s|
  {
    if |s| == 0 then -1
    else if s[0] == c then 0
    else
      var k := IndexOf(s[1..], c);
      assert s[1..][..if k < 0 then 0 else k] == s[..if k < 0 then 1 else k + 1][1..];
      if k < 0 then -1 else k + 1
  }

  const EchoPrefix: string := "> adb -s "
  const ShellWord: string := " shell "

  /** Reads an echo line: the device is the word after the prefix, up to the first space,
      and the command is everything after " shell ". */
  function ParseEcho(line: string): Option<(string, string)>
  {
    if |line| >= |EchoPrefix| && line[..|EchoPrefix|] == EchoPrefix then
      var rest := line[|EchoPrefix|..];
      var k := IndexOf(rest, ' ');
      if k >= 0 && |rest| >= k + |ShellWord| && rest[k..k + |ShellWord|] == ShellWord then
        Some((rest[..k], rest[k + |ShellWord|..]))
      else None
    else None
  }

  /** The echo names the device and the command: for a device name without spaces both are
      read back exactly, whatever the command holds (" shell " included). */
  lemma EchoRoundTrip(device: string, command: string)
    requires ' ' !in device
    ensures ParseEcho(ShellEcho(Str(device), command)) == Some((device, command))
  {
    var line := ShellEcho(Str(device), command);
    assert line == EchoPrefix + (device + (ShellWord + command));
    var rest := line[|EchoPrefix|..];
    assert rest == device + (ShellWord + command);
    var k := IndexOf(rest, ' ');
    assert rest[|device|] == ' ';
    assert rest[k..k + |ShellWord|] == ShellWord;
    assert rest[..k] == device;
    assert rest[k + |ShellWord|..] == command;
  }

  /** Without a device the echo reads as a device named "?": the terminal line cannot tell
      the two apart, only the error line that follows it can. */
  lemma NullEchoReadsAsQuestionMark(command: string)
    ensures ShellEcho(Null, command) == ShellEcho(Str("?"), command)
    ensures ParseEcho(ShellEcho(Null, command)) == Some(("?", command))
  {
    EchoRoundTrip("?", command);
  }
}
