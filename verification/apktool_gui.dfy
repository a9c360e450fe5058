/** The main window's pure rules: the one-line summaries shown under the decompile and
    recompile option dialogs, and the defaults and alerts of the Decompile and Build buttons. */
module ApktoolGui {
  import opened JavaLang
  import opened UiPaths

  // ---------------------------------------------------------------- counting and naming options

  /** How many of the flags are set (the `selectedCount++` chains). */
  function CountTrue(flags: seq<bool>): (n: nat)
    ensures n <= |flags|
    decreases |flags|
  {
    if |flags| == 0 then 0 else (if flags[0] then 1 else 0) + CountTrue(flags[1..])
  }

  /** The count is the number of occurrences of `true`. */
  lemma {:induction false} CountTrueIsMultiplicity(flags: seq<bool>)
    ensures CountTrue(flags) == multiset(flags)[true]
    decreases |flags|
  {
    if |flags| > 0 {
      CountTrueIsMultiplicity(flags[1..]);
      assert flags == [flags[0]] + flags[1..];
    }
  }

  /** The count is zero exactly when no flag is set. */
  lemma {:induction false} CountTrueZero(flags: seq<bool>)
    ensures CountTrue(flags) == 0 <==> forall i :: 0 <= i < |flags| ==> !flags[i]
    decreases |flags|
  {
    if |flags| > 0 {
      CountTrueZero(flags[1..]);
      assert forall i :: 1 <= i < |flags| ==> flags[i] == flags[1..][i - 1];
    }
  }

  /** A set flag anywhere makes the count positive. */
  lemma {:induction false} CountTrueSome(flags: seq<bool>, i: nat)
    requires i < |flags| && flags[i]
    ensures CountTrue(flags) > 0
    decreases i
  {
    if i > 0 && !flags[0] {
      CountTrueSome(flags[1..], i - 1);
    }
  }

  /** The labels of the set options, in the order they are checked (the `activeOptions` list). */
  function Selected(options: seq<(bool, string)>): (r: seq<string>)
    ensures |r| <= |options|
    decreases |options|
  {
    if |options| == 0 then [] else (if options[0].0 then [options[0].1] else []) + Selected(options[1..])
  }

  /** Four options, listed one at a time. */
  lemma SelectedOfFour(o1: (bool, string), o2: (bool, string), o3: (bool, string), o4: (bool, string))
    ensures Selected([o1, o2, o3, o4])
         == (if o1.0 then [o1.1] else []) + (if o2.0 then [o2.1] else [])
          + (if o3.0 then [o3.1] else []) + (if o4.0 then [o4.1] else [])
  {
    var s := [o1, o2, o3, o4];
    assert s[1..][1..][1..][1..] == [];
    assert Selected([o4]) == (if o4.0 then [o4.1] else []);
    assert s[1..][1..][1..] == [o4];
    assert Selected([o3, o4]) == (if o3.0 then [o3.1] else []) + Selected([o4]);
    assert s[1..][1..] == [o3, o4];
    assert Selected([o2, o3, o4]) == (if o2.0 then [o2.1] else []) + Selected([o3, o4]);
    assert s[1..] == [o2, o3, o4];
  }

  predicate DistinctLabels(options: seq<(bool, string)>)
  {
    forall a, b :: 0 <= a < b < |options| ==> options[a].1 != options[b].1
  }

  /** Only labels of set options are listed. */
  lemma {:induction false} SelectedOnlySet(options: seq<(bool, string)>, text: string)
    requires text in Selected(options)
    ensures exists j :: 0 <= j < |options| && options[j].0 && options[j].1 == text
    decreases |options|
  {
    if !(options[0].0 && options[0].1 == text) {
      SelectedOnlySet(options[1..], text);
      var j :| 0 <= j < |options[1..]| && options[1..][j].0 && options[1..][j].1 == text;
      assert options[j + 1] == options[1..][j];
    }
  }

  /** With distinct labels, an option's label is listed exactly when the option is set. */
  lemma {:induction false} SelectedExactly(options: seq<(bool, string)>, i: nat)
    requires i < |options| && DistinctLabels(options)
    ensures options[i].1 in Selected(options) <==> options[i].0
    decreases i
  {
    var rest := options[1..];
    assert DistinctLabels(rest) by {
      forall a, b | 0 <= a < b < |rest| ensures rest[a].1 != rest[b].1 {
        assert rest[a] == options[a + 1] && rest[b] == options[b + 1];
      }
    }
    if i == 0 {
      if !options[0].0 && options[0].1 in Selected(rest) {
        SelectedOnlySet(rest, options[0].1);
      }
    } else {
      SelectedExactly(rest, i - 1);
      assert rest[i - 1] == options[i];
    }
  }

  /** The listed labels are as many as the set options. */
  lemma {:induction false} SelectedCount(options: seq<(bool, string)>)
    ensures |Selected(options)| == CountTrue(seq(|options|, i requires 0 <= i < |options| => options[i].0))
    decreases |options|
  {
    if |options| > 0 {
      SelectedCount(options[1..]);
      var flags := seq(|options|, i requires 0 <= i < |options| => options[i].0);
      assert flags[1..] == seq(|options[1..]|, i requires 0 <= i < |options[1..]| => options[1..][i].0);
    }
  }

  // ---------------------------------------------------------------- the summary line

  function DefaultSummary(kind: string): string
  {
    "Using default " + kind + " options"
  }

  function CountHeader(count: nat, kind: string): string
  {
    NatToString(count) + " " + kind + " option(s) configured: "
  }

  /** The shared shape of both summaries: the default sentence when nothing is selected;
      otherwise the count, the labels of the named options joined by ", ", then the details. */
  function Summary(kind: string, flags: seq<bool>, named: seq<(bool, string)>, details: string): (r: string)
    ensures CountTrue(flags) == 0 ==> r == DefaultSummary(kind)
    ensures CountTrue(flags) > 0 ==> r != DefaultSummary(kind)
    ensures CountTrue(flags) > 0 ==>
      var header := CountHeader(CountTrue(flags), kind);
      |r| >= |header| && r[..|header|] == header
  {
    var count := CountTrue(flags);
    if count == 0 then DefaultSummary(kind)
    else
      var names := Selected(named);
      var r := CountHeader(count, kind) + (if |names| > 0 then Join(", ", names) else "") + details;
      assert r[0] == NatToString(count)[0] && DefaultSummary(kind)[0] == 'U';
      r
  }

  /** The count at the front of a summary is written in decimal and ends at the first space:
      reading the digits back gives the number of selected options. */
  lemma SummaryCountReadsBack(kind: string, flags: seq<bool>, named: seq<(bool, string)>, details: string)
    requires CountTrue(flags) > 0
    ensures var r := Summary(kind, flags, named, details);
      var k := |NatToString(CountTrue(flags))|;
      k < |r| && r[k] == ' ' && (forall i :: 0 <= i < k ==> '0' <= r[i] <= '9') && DigitsValue(r[..k]) == CountTrue(flags)
  {
    var count := CountTrue(flags);
    var r := Summary(kind, flags, named, details);
    var header := CountHeader(count, kind);
    var digits := NatToString(count);
    assert header[..|digits|] == digits && header[|digits|] == ' ';
    assert r[..|header|] == header;
    assert r[..|digits|] == header[..|digits|];
    NatToStringRoundTrip(count);
  }

  /** Nothing after the header depends on anything but the named options and the details. */
  lemma SummaryIgnoresDetailsWhenDefault(kind: string, flags: seq<bool>, named: seq<(bool, string)>,
        d1: string, d2: string)
    requires CountTrue(flags) == 0
    ensures Summary(kind, flags, named, d1) == Summary(kind, flags, named, d2)
  {
  }

  /** When something is selected the details come last, after everything else. */
  lemma SummaryEndsWithDetails(kind: string, flags: seq<bool>, named: seq<(bool, string)>, details: string)
    requires CountTrue(flags) > 0
    ensures Summary(kind, flags, named, details) == Summary(kind, flags, named, "") + details
  {
  }

  // ---------------------------------------------------------------- reading the names back

  predicate NoChar(s: string, c: char)
  {
    forall i :: 0 <= i < |s| ==> s[i] != c
  }

  /** An option label as the summaries use it: non-empty, with no ',' and no '|'. */
  predicate PlainLabel(s: string)
  {
    |s| > 0 && NoChar(s, ',') && NoChar(s, '|')
  }

  /** The details a summary ends with: nothing, or a part that opens with " | ". */
  predicate OpensDetail(d: string)
  {
    d == "" || (|d| >= 3 && d[..3] == " | ")
  }

  /** The text after the first ": ", or "" when there is none. */
  function AfterColon(s: string): string
    decreases |s|
  {
    if |s| < 2 then "" else if s[0] == ':' && s[1] == ' ' then s[2..] else AfterColon(s[1..])
  }

  /** The text before the first " | ", or all of it when there is none. */
  function BeforeBar(s: string): string
    decreases |s|
  {
    if |s| == 0 || (|s| >= 3 && s[..3] == " | ") then "" else [s[0]] + BeforeBar(s[1..])
  }

  /** The parts between the ", " separators; a text without one is a single part. */
  function SplitParts(s: string): (r: seq<string>)
    ensures |r| > 0
    decreases |s|
  {
    if |s| == 0 then [""]
    else if |s| >= 2 && s[0] == ',' && s[1] == ' ' then [""] + SplitParts(s[2..])
    else
      var rest := SplitParts(s[1..]);
      [[s[0]] + rest[0]] + rest[1..]
  }

  /** The option names a summary line lists: the text after the header's ": " and before the
      first " | ", split at ", ". An empty text lists nothing. */
  function SummaryNames(r: string): seq<string>
  {
    var list := BeforeBar(AfterColon(r));
    if list == "" then [] else SplitParts(list)
  }

  lemma {:induction false} AfterColonSkips(p: string, x: string)
    requires NoChar(p, ':')
    ensures AfterColon(p + ": " + x) == x
    decreases |p|
  {
    var s := p + ": " + x;
    if |p| == 0 {
      assert s == ": " + x;
    } else {
      assert s[0] == p[0];
      assert s[1..] == p[1..] + ": " + x;
      AfterColonSkips(p[1..], x);
    }
  }

  lemma {:induction false} AfterColonNone(s: string)
    requires NoChar(s, ':')
    ensures AfterColon(s) == ""
    decreases |s|
  {
    if |s| >= 2 {
      AfterColonNone(s[1..]);
    }
  }

  lemma {:induction false} BeforeBarStops(t: string, d: string)
    requires NoChar(t, '|') && OpensDetail(d)
    ensures BeforeBar(t + d) == t
    decreases |t|
  {
    var s := t + d;
    if |t| == 0 {
      assert s == d;
    } else {
      assert s[0] == t[0];
      assert |s| >= 3 ==> s[1] != '|' by {
        if |t| > 1 { assert s[1] == t[1]; } else if |d| > 0 { assert s[1] == d[0]; }
      }
      assert s[1..] == t[1..] + d;
      BeforeBarStops(t[1..], d);
    }
  }

  lemma {:induction false} SplitPartsSingle(l: string)
    requires NoChar(l, ',')
    ensures SplitParts(l) == [l]
    decreases |l|
  {
    if |l| > 0 {
      SplitPartsSingle(l[1..]);
      assert [l[0]] + l[1..] == l;
    }
  }

  lemma {:induction false} SplitPartsCons(l: string, t: string)
    requires NoChar(l, ',')
    ensures SplitParts(l + ", " + t) == [l] + SplitParts(t)
    decreases |l|
  {
    var s := l + ", " + t;
    if |l| == 0 {
      assert s == ", " + t && s[2..] == t;
    } else {
      assert s[0] == l[0];
      assert s[1..] == l[1..] + ", " + t;
      SplitPartsCons(l[1..], t);
      assert [l[0]] + l[1..] == l;
    }
  }

  /** Splitting at ", " undoes String.join(", ", names) for labels without a comma. */
  lemma {:induction false} SplitJoin(names: seq<string>)
    requires |names| > 0 && forall i :: 0 <= i < |names| ==> NoChar(names[i], ',')
    ensures SplitParts(Join(", ", names)) == names
    decreases |names|
  {
    if |names| == 1 {
      SplitPartsSingle(names[0]);
    } else {
      SplitJoin(names[1..]);
      SplitPartsCons(names[0], Join(", ", names[1..]));
    }
  }

  /** Joining labels with ", " adds no character other than ',' and ' '. */
  lemma {:induction false} JoinNoChar(names: seq<string>, c: char)
    requires c != ',' && c != ' ' && forall i :: 0 <= i < |names| ==> NoChar(names[i], c)
    ensures NoChar(Join(", ", names), c)
    decreases |names|
  {
    if |names| > 1 {
      JoinNoChar(names[1..], c);
    }
  }

  /** Every listed label is one of the options' labels. */
  lemma SelectedPlain(options: seq<(bool, string)>)
    requires forall j :: 0 <= j < |options| ==> PlainLabel(options[j].1)
    ensures forall i :: 0 <= i < |Selected(options)| ==> PlainLabel(Selected(options)[i])
  {
    forall i | 0 <= i < |Selected(options)| ensures PlainLabel(Selected(options)[i]) {
      SelectedOnlySet(options, Selected(options)[i]);
    }
  }

  lemma HeaderSplits(count: nat, kind: string)
    requires NoChar(kind, ':')
    ensures var p := NatToString(count) + " " + kind + " option(s) configured";
      CountHeader(count, kind) == p + ": " && NoChar(p, ':')
  {
    var digits := NatToString(count);
    var tail := " option(s) configured";
    assert NoChar(tail, ':');
    var p := digits + " " + kind + tail;
    forall i | 0 <= i < |p| ensures p[i] != ':' {
      if i < |digits| { assert p[i] == digits[i]; }
      else if i == |digits| { assert p[i] == ' '; }
      else if i < |digits| + 1 + |kind| { assert p[i] == kind[i - |digits| - 1]; }
      else { assert p[i] == tail[i - |digits| - 1 - |kind|]; }
    }
  }

  /** Reading a line built as `<p>: <names joined by ", "><details>` gives back the names. */
  lemma NamesOfLine(p: string, names: seq<string>, details: string)
    requires NoChar(p, ':') && OpensDetail(details)
    requires forall i :: 0 <= i < |names| ==> PlainLabel(names[i])
    ensures SummaryNames(p + ": " + (Join(", ", names) + details)) == names
  {
    var text := Join(", ", names);
    AfterColonSkips(p, text + details);
    if |names| > 0 {
      JoinNoChar(names, '|');
      SplitJoin(names);
      assert |text| >= |names[0]| > 0;
    }
    BeforeBarStops(text, details);
  }

  lemma SummaryShape(kind: string, flags: seq<bool>, named: seq<(bool, string)>, details: string)
    requires CountTrue(flags) > 0
    ensures Summary(kind, flags, named, details) == CountHeader(CountTrue(flags), kind) + Join(", ", Selected(named)) + details
  {
  }

  lemma Regroup(p: string, text: string, details: string)
    ensures (p + ": ") + text + details == p + ": " + (text + details)
  {
  }

  /** A summary with something selected lists, between its header and its details, exactly
      the labels of the set options, in order. */
  lemma SummaryNamesRead(kind: string, flags: seq<bool>, named: seq<(bool, string)>, details: string)
    requires CountTrue(flags) > 0 && NoChar(kind, ':') && OpensDetail(details)
    requires forall j :: 0 <= j < |named| ==> PlainLabel(named[j].1)
    ensures SummaryNames(Summary(kind, flags, named, details)) == Selected(named)
  {
    var names := Selected(named);
    var p := NatToString(CountTrue(flags)) + " " + kind + " option(s) configured";
    HeaderSplits(CountTrue(flags), kind);
    SummaryShape(kind, flags, named, details);
    Regroup(p, Join(", ", names), details);
    SelectedPlain(named);
    NamesOfLine(p, names, details);
  }

  /** The default sentence lists no option. */
  lemma DefaultSummaryNames(kind: string)
    requires NoChar(kind, ':')
    ensures SummaryNames(DefaultSummary(kind)) == []
  {
    var s := DefaultSummary(kind);
    var front, back := "Using default ", " options";
    assert NoChar(front, ':') && NoChar(back, ':');
    assert s == front + kind + back;
    forall i | 0 <= i < |s| ensures s[i] != ':' {
      if i < |front| { assert s[i] == front[i]; }
      else if i < |front| + |kind| { assert s[i] == kind[i - |front|]; }
      else { assert s[i] == back[i - |front| - |kind|]; }
    }
    AfterColonNone(s);
  }

  // ---------------------------------------------------------------- decompile options

  datatype DecompileConfig = DecompileConfig(
    noRes: bool, noSrc: bool, noAssets: bool, onlyManifest: bool, force: bool,
    noDebug: bool, matchOriginal: bool, keepBroken: bool, onlyMainClasses: bool,
    apiLevel: string, jobs: string, frameworkPath: string)

  /** The nine options that are counted. */
  function DecompileFlags(c: DecompileConfig): seq<bool>
  {
    [c.noRes, c.noSrc, c.noAssets, c.onlyManifest, c.force, c.noDebug, c.matchOriginal, c.keepBroken, c.onlyMainClasses]
  }

  /** The four options that are named, in the order they are named. */
  function DecompileNamed(c: DecompileConfig): seq<(bool, string)>
  {
    [(c.noRes, "No Resources"), (c.noSrc, "No Sources"), (c.force, "Force"), (c.onlyManifest, "Only Manifest")]
  }

  /** " | API: <level>" when a level is set. */
  function ApiDetail(apiLevel: string): (r: string)
    ensures r == "" <==> apiLevel == ""
  {
    if apiLevel != "" then " | API: " + apiLevel else ""
  }

  /** " | Threads: <jobs>" when the job count is not "1". */
  function ThreadsDetail(jobs: string): (r: string)
    ensures r == "" <==> jobs == "1"
  {
    if jobs != "1" then " | Threads: " + jobs else ""
  }

  lemma DecompileNoneSelected(c: DecompileConfig)
    ensures CountTrue(DecompileFlags(c)) == 0 <==>
      !(c.noRes || c.noSrc || c.noAssets || c.onlyManifest || c.force || c.noDebug || c.matchOriginal || c.keepBroken || c.onlyMainClasses)
  {
    var f := DecompileFlags(c);
    if c.noRes || c.noSrc || c.noAssets || c.onlyManifest || c.force {
      if c.noRes { CountTrueSome(f, 0); } else if c.noSrc { CountTrueSome(f, 1); }
      else if c.noAssets { CountTrueSome(f, 2); }
      else if c.onlyManifest { CountTrueSome(f, 3); } else { CountTrueSome(f, 4); }
    } else if c.noDebug || c.matchOriginal || c.keepBroken || c.onlyMainClasses {
      if c.noDebug { CountTrueSome(f, 5); } else if c.matchOriginal { CountTrueSome(f, 6); }
      else if c.keepBroken { CountTrueSome(f, 7); } else { CountTrueSome(f, 8); }
    } else {
      assert forall i :: 0 <= i < |f| ==> !f[i];
      CountTrueZero(f);
    }
  }

  lemma DecompileLabelsPlain(c: DecompileConfig)
    ensures forall j :: 0 <= j < |DecompileNamed(c)| ==> PlainLabel(DecompileNamed(c)[j].1)
  {
    assert PlainLabel("No Resources") && PlainLabel("No Sources");
    assert PlainLabel("Force") && PlainLabel("Only Manifest");
  }

  lemma DecompileDetailsOpen(apiLevel: string, jobs: string)
    ensures OpensDetail(ApiDetail(apiLevel) + ThreadsDetail(jobs))
  {
    var d := ApiDetail(apiLevel) + ThreadsDetail(jobs);
    if apiLevel != "" {
      assert d[..3] == ApiDetail(apiLevel)[..3];
    } else {
      assert d == ThreadsDetail(jobs);
    }
  }

  /** updateDecompileConfigSummary. */
  function DecompileSummary(c: DecompileConfig): (r: string)
    ensures r == DefaultSummary("decompile") <==>
      !(c.noRes || c.noSrc || c.noAssets || c.onlyManifest || c.force || c.noDebug || c.matchOriginal || c.keepBroken || c.onlyMainClasses)
    ensures SummaryNames(r) == Selected(DecompileNamed(c))
  {
    DecompileNoneSelected(c);
    DecompileSummaryNames(c);
    Summary("decompile", DecompileFlags(c), DecompileNamed(c), ApiDetail(c.apiLevel) + ThreadsDetail(c.jobs))
  }

  lemma DecompileSummaryNames(c: DecompileConfig)
    ensures SummaryNames(Summary("decompile", DecompileFlags(c), DecompileNamed(c),
                                 ApiDetail(c.apiLevel) + ThreadsDetail(c.jobs)))
         == Selected(DecompileNamed(c))
  {
    assert NoChar("decompile", ':');
    DecompileNoneSelected(c);
    if CountTrue(DecompileFlags(c)) == 0 {
      DefaultSummaryNames("decompile");
      var named := DecompileNamed(c);
      SelectedOfFour(named[0], named[1], named[2], named[3]);
    } else {
      DecompileLabelsPlain(c);
      DecompileDetailsOpen(c.apiLevel, c.jobs);
      SummaryNamesRead("decompile", DecompileFlags(c), DecompileNamed(c), ApiDetail(c.apiLevel) + ThreadsDetail(c.jobs));
    }
  }

  /** With nothing selected the summary is the default sentence whatever the API level and jobs. */
  lemma DecompileDefaultIgnoresApiAndJobs(c: DecompileConfig, apiLevel: string, jobs: string)
    requires CountTrue(DecompileFlags(c)) == 0
    ensures DecompileSummary(c.(apiLevel := apiLevel, jobs := jobs)) == DecompileSummary(c)
  {
  }

  /** With something selected, the API level and the job count only add their details at the end. */
  lemma DecompileDetailsAtEnd(c: DecompileConfig)
    requires CountTrue(DecompileFlags(c)) > 0
    ensures DecompileSummary(c)
         == DecompileSummary(c.(apiLevel := "", jobs := "1")) + ApiDetail(c.apiLevel) + ThreadsDetail(c.jobs)
  {
    var c0 := c.(apiLevel := "", jobs := "1");
    assert DecompileFlags(c0) == DecompileFlags(c) && DecompileNamed(c0) == DecompileNamed(c);
    assert ApiDetail("") + ThreadsDetail("1") == "";
    SummaryEndsWithDetails("decompile", DecompileFlags(c), DecompileNamed(c),
          ApiDetail(c.apiLevel) + ThreadsDetail(c.jobs));
  }

  /** The summary names exactly the set ones among No Resources, No Sources, Force and Only
      Manifest, in that order (with nothing selected it names none). */
  lemma DecompileNamesExactly(c: DecompileConfig)
    ensures SummaryNames(DecompileSummary(c))
         == (if c.noRes then ["No Resources"] else []) + (if c.noSrc then ["No Sources"] else [])
          + (if c.force then ["Force"] else []) + (if c.onlyManifest then ["Only Manifest"] else [])
  {
    var named := DecompileNamed(c);
    SelectedOfFour(named[0], named[1], named[2], named[3]);
  }

  // ---------------------------------------------------------------- recompile options

  datatype RecompileConfig = RecompileConfig(
    debug: bool, copyOriginal: bool, force: bool, noApk: bool, noCrunch: bool, useAapt1: bool, netSec: bool,
    aaptPath: string, frameworkPath: string)

  /** The seven options that are counted. */
  function RecompileFlags(c: RecompileConfig): seq<bool>
  {
    [c.debug, c.copyOriginal, c.force, c.noApk, c.noCrunch, c.useAapt1, c.netSec]
  }

  function RecompileNamed(c: RecompileConfig): seq<(bool, string)>
  {
    [(c.debug, "Debug"), (c.copyOriginal, "Copy Original"), (c.force, "Force"), (c.useAapt1, "AAPT1")]
  }

  /** " | Custom AAPT" and " | Custom Framework" for the paths that are set. */
  function CustomPathDetails(aaptPath: string, frameworkPath: string): (r: string)
    ensures r == "" <==> aaptPath == "" && frameworkPath == ""
  {
    (if aaptPath != "" then " | Custom AAPT" else "") + (if frameworkPath != "" then " | Custom Framework" else "")
  }

  lemma RecompileNoneSelected(c: RecompileConfig)
    ensures CountTrue(RecompileFlags(c)) == 0 <==>
      !(c.debug || c.copyOriginal || c.force || c.noApk || c.noCrunch || c.useAapt1 || c.netSec)
  {
    var f := RecompileFlags(c);
    if c.debug || c.copyOriginal || c.force || c.noApk {
      if c.debug { CountTrueSome(f, 0); } else if c.copyOriginal { CountTrueSome(f, 1); }
      else if c.force { CountTrueSome(f, 2); } else { CountTrueSome(f, 3); }
    } else if c.noCrunch || c.useAapt1 || c.netSec {
      if c.noCrunch { CountTrueSome(f, 4); } else if c.useAapt1 { CountTrueSome(f, 5); } else { CountTrueSome(f, 6); }
    } else {
      assert forall i :: 0 <= i < |f| ==> !f[i];
      CountTrueZero(f);
    }
  }

  lemma RecompileLabelsPlain(c: RecompileConfig)
    ensures forall j :: 0 <= j < |RecompileNamed(c)| ==> PlainLabel(RecompileNamed(c)[j].1)
  {
    assert PlainLabel("Debug") && PlainLabel("Copy Original");
    assert PlainLabel("Force") && PlainLabel("AAPT1");
  }

  lemma CustomPathDetailsOpen(aaptPath: string, frameworkPath: string)
    ensures OpensDetail(CustomPathDetails(aaptPath, frameworkPath))
  {
    var d := CustomPathDetails(aaptPath, frameworkPath);
    if aaptPath != "" {
      assert d[..3] == " | ";
    } else if frameworkPath != "" {
      assert d == " | Custom Framework";
    }
  }

  /** updateRecompileConfigSummary. */
  function RecompileSummary(c: RecompileConfig): (r: string)
    ensures r == DefaultSummary("recompile") <==>
      !(c.debug || c.copyOriginal || c.force || c.noApk || c.noCrunch || c.useAapt1 || c.netSec)
    ensures SummaryNames(r) == Selected(RecompileNamed(c))
  {
    RecompileNoneSelected(c);
    RecompileSummaryNames(c);
    Summary("recompile", RecompileFlags(c), RecompileNamed(c), CustomPathDetails(c.aaptPath, c.frameworkPath))
  }

  lemma RecompileSummaryNames(c: RecompileConfig)
    ensures SummaryNames(Summary("recompile", RecompileFlags(c), RecompileNamed(c),
                                 CustomPathDetails(c.aaptPath, c.frameworkPath)))
         == Selected(RecompileNamed(c))
  {
    assert NoChar("recompile", ':');
    RecompileNoneSelected(c);
    if CountTrue(RecompileFlags(c)) == 0 {
      DefaultSummaryNames("recompile");
      var named := RecompileNamed(c);
      SelectedOfFour(named[0], named[1], named[2], named[3]);
    } else {
      RecompileLabelsPlain(c);
      CustomPathDetailsOpen(c.aaptPath, c.frameworkPath);
      SummaryNamesRead("recompile", RecompileFlags(c), RecompileNamed(c), CustomPathDetails(c.aaptPath, c.frameworkPath));
    }
  }

  /** With something selected, the custom paths only add their details at the end. */
  lemma RecompileDetailsAtEnd(c: RecompileConfig)
    requires CountTrue(RecompileFlags(c)) > 0
    ensures RecompileSummary(c)
         == RecompileSummary(c.(aaptPath := "", frameworkPath := "")) + CustomPathDetails(c.aaptPath, c.frameworkPath)
  {
    var c0 := c.(aaptPath := "", frameworkPath := "");
    assert RecompileFlags(c0) == RecompileFlags(c) && RecompileNamed(c0) == RecompileNamed(c);
    assert CustomPathDetails("", "") == "";
    var details := CustomPathDetails(c.aaptPath, c.frameworkPath);
    SummaryEndsWithDetails("recompile", RecompileFlags(c), RecompileNamed(c), details);
  }

  /** The summary names exactly the set ones among Debug, Copy Original, Force and AAPT1, in
      that order (with nothing selected it names none). */
  lemma RecompileNamesExactly(c: RecompileConfig)
    ensures SummaryNames(RecompileSummary(c))
         == (if c.debug then ["Debug"] else []) + (if c.copyOriginal then ["Copy Original"] else [])
          + (if c.force then ["Force"] else []) + (if c.useAapt1 then ["AAPT1"] else [])
  {
    var named := RecompileNamed(c);
    SelectedOfFour(named[0], named[1], named[2], named[3]);
  }

  // ---------------------------------------------------------------- the Decompile and Build buttons

  /** A button either shows an alert and runs nothing, or makes one call. */
  datatype Click<T> = Alert(title: string, message: string) | Call(call: T)

  /** What executeDecompile hands to the decoder: the paths and the options. */
  datatype DecodeCall = DecodeCall(apkPath: string, outputPath: string, config: DecompileConfig)

  datatype BuildCall = BuildCall(inputPath: string, outputPath: string, config: RecompileConfig)

  const DefaultDecodeOutput: string := "apk.out"
  const FrameworkPlaceholder: string := "framework path"

  /** An empty text field's fallback. */
  function OrDefault(text: string, fallback: string): string
  {
    if text == "" then fallback else text
  }

  /** The Decompile button: a blank APK path only alerts; an empty output becomes "apk.out", and
      an empty framework path is passed on as the words "framework path". */
  function OnDecodeClicked(apkPath: JString, outputPath: string, config: DecompileConfig): (r: Click<DecodeCall>)
    ensures r.Alert? <==> IsBlank(apkPath)
    ensures r.Alert? ==> r == Alert("Error", "Please select an APK file first.")
    ensures r.Call? ==> r.call.apkPath == apkPath.value
    ensures r.Call? ==> r.call.outputPath == (if outputPath == "" then DefaultDecodeOutput else outputPath)
    ensures r.Call? ==> r.call.config.frameworkPath == (if config.frameworkPath == "" then FrameworkPlaceholder else config.frameworkPath)
    ensures r.Call? ==> r.call.config == config.(frameworkPath := r.call.config.frameworkPath)
  {
    if IsBlank(apkPath) then Alert("Error", "Please select an APK file first.")
    else Call(DecodeCall(apkPath.value, OrDefault(outputPath, DefaultDecodeOutput),
                         config.(frameworkPath := OrDefault(config.frameworkPath, FrameworkPlaceholder))))
  }

  /** The default build output: "dist/output.apk" under the project directory's parent. */
  function BuildDefaultOutput(inputPath: string): string
  {
    Show(Parent(inputPath)) + [SeparatorChar] + "dist" + [SeparatorChar] + "output.apk"
  }

  /** The Build button: a blank project directory only alerts; an empty output becomes
      the default build output. */
  function OnBuildClicked(inputPath: JString, outputPath: string, config: RecompileConfig): (r: Click<BuildCall>)
    ensures r.Alert? <==> IsBlank(inputPath)
    ensures r.Alert? ==> r == Alert("Error", "Please select a project directory first.")
    ensures r.Call? ==> r.call == BuildCall(inputPath.value,
          (if outputPath == "" then BuildDefaultOutput(inputPath.value) else outputPath), config)
  {
    if IsBlank(inputPath) then Alert("Error", "Please select a project directory first.")
    else Call(BuildCall(inputPath.value, OrDefault(outputPath, BuildDefaultOutput(inputPath.value)), config))
  }

  /** A parent as getParent returns it is a normal path. */
  lemma ParentIsNormal(p: string)
    requires Parent(p).Str?
    ensures IsNormal(Parent(p).value) && |Parent(p).value| > 0
  {
    var path := Normalize(p);
    var index := LastIndexOf(path, SeparatorChar);
    if index >= PrefixLength(path) {
      var q := path[..index];
      assert forall i :: 0 <= i < |q| ==> q[i] == path[i];
      assert index > 0;
      assert q[|q| - 1] == path[index - 1] != SeparatorChar;
    }
  }

  /** The default build output is output.apk in a "dist" directory next to the project
      directory, that is, inside the project's parent and not inside the project. */
  lemma BuildDefaultBesideProject(inputPath: string)
    requires Parent(inputPath).Str? && Parent(inputPath).value != [SeparatorChar]
    ensures var parent := Parent(inputPath).value;
      var out := BuildDefaultOutput(inputPath);
      && Name(out) == "output.apk"
      && Parent(out) == Str(Child(parent, "dist"))
      && Parent(Child(parent, "dist")) == Str(parent)
  {
    var parent := Parent(inputPath).value;
    ParentIsNormal(inputPath);
    ChildParts(parent, "dist");
    var dist := Child(parent, "dist");
    ChildIsNormal(parent, "dist");
    ChildParts(dist, "output.apk");
    assert BuildDefaultOutput(inputPath) == Child(dist, "output.apk");
  }
}
