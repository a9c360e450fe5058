/** The resource-editor service (ApkEditorService): each action checks its input path,
    then builds `java -jar <editor jar> <sub> -i <input>` followed by the action's flags
    and submits it with a fixed status message. The jar path comes from a settings and
    filesystem lookup and is a parameter here. */
module ApkEditor {
  import opened JavaLang
  import opened Commands

  /** buildCommand(sub, "-i", input). */
  function EditorBase(editorJar: string, sub: string, input: JString): seq<JString>
  {
    Lit(["java", "-jar", editorJar, sub, "-i"]) + [input]
  }

  /** requireApk's error text for an action. */
  function SelectApkMessage(action: string): string
  {
    "Please select an APK file to " + action + "."
  }

  /** An editor command with the given flag grammar filled in. */
  function EditorCommand(editorJar: string, sub: string, input: JString,
                         grammar: seq<Slot>, fields: seq<Field>, status: string, hasSink: bool): (r: Request)
    requires |fields| == |grammar|
    ensures r.Submitted? && r.notes == [] && r.cmd.status == status && r.cmd.hasSink == hasSink
    ensures |r.cmd.argv| >= 6 && r.cmd.argv[..6] == Lit(["java", "-jar", editorJar, sub, "-i"]) + [input]
  {
    Submitted([], Command(EditorBase(editorJar, sub, input) + Render(grammar, fields), status, hasSink))
  }

  /** An action's check then its command: a null or whitespace-only input path is refused with
      the action's message, anything else is submitted. */
  function EditorAction(editorJar: string, sub: string, input: JString, grammar: seq<Slot>, fields: seq<Field>,
                        status: string, hasSink: bool, refusal: string): (r: Request)
    requires |fields| == |grammar|
    ensures r.Rejected? <==> input.Null? || AllTrimmable(input.value)
    ensures r.Rejected? ==> r.message == refusal
    ensures r.Submitted? ==> r == EditorCommand(editorJar, sub, input, grammar, fields, status, hasSink)
  {
    if IsBlank(input) then Rejected(refusal) else EditorCommand(editorJar, sub, input, grammar, fields, status, hasSink)
  }

  /** An editor command whose flags render as the one word `last`. */
  lemma EditorArgvEnds(editorJar: string, sub: string, input: string, grammar: seq<Slot>, fields: seq<Field>,
                       status: string, hasSink: bool, last: string)
    requires |fields| == |grammar| && Render(grammar, fields) == [Str(last)]
    ensures EditorCommand(editorJar, sub, Str(input), grammar, fields, status, hasSink).cmd.argv
         == Lit(["java", "-jar", editorJar, sub, "-i", input, last])
  {
    var base := ["java", "-jar", editorJar, sub, "-i"];
    assert base + [input, last] == ["java", "-jar", editorJar, sub, "-i", input, last];
    LitConcat(base, [input, last]);
  }

  /** Everything after the six fixed words is the action's flags, and they read back as the form meant. */
  lemma EditorReadsBack(editorJar: string, sub: string, input: JString,
                        grammar: seq<Slot>, fields: seq<Field>, status: string, hasSink: bool)
    requires |fields| == |grammar| && Unambiguous(grammar)
    ensures var argv := EditorCommand(editorJar, sub, input, grammar, fields, status, hasSink).cmd.argv;
      |argv| >= 6 && Decode(grammar, argv[6..]) == Some(Readings(grammar, fields))
  {
    var argv := EditorCommand(editorJar, sub, input, grammar, fields, status, hasSink).cmd.argv;
    assert argv[6..] == Render(grammar, fields);
    DecodeRender(grammar, fields);
  }

  // ---------------------------------------------------------------- decompile

  datatype DecompileForm = DecompileForm(
    apkPath: JString, outputDir: JString, decompileToXml: bool, loadDex: bool, dexLibrary: JString)

  const DecompileGrammar: seq<Slot> :=
    [OptionalSlot("-o"), SwitchSlot("-t", ["xml"]), SwitchSlot("-load-dex", ["3"]), OptionalSlot("-dex-lib")]

  function DecompileFields(f: DecompileForm): seq<Field>
  {
    [Text(f.outputDir), Toggle(f.decompileToXml), Toggle(f.loadDex), Text(f.dexLibrary)]
  }

  lemma DecompileRefusal()
    ensures SelectApkMessage("decompile") == "Please select an APK file to decompile."
  {}

  function Decompile(editorJar: string, f: DecompileForm): (r: Request)
    ensures r.Rejected? <==> f.apkPath.Null? || AllTrimmable(f.apkPath.value)
    ensures r.Rejected? ==> r.message == "Please select an APK file to decompile."
    ensures r.Submitted? ==>
      && r.notes == [] && r.cmd.status == "Decompiling APK..." && !r.cmd.hasSink
      && |r.cmd.argv| >= 6 && r.cmd.argv[..6] == Lit(["java", "-jar", editorJar, "d", "-i"]) + [f.apkPath]
  {
    DecompileRefusal();
    EditorAction(editorJar, "d", f.apkPath, DecompileGrammar, DecompileFields(f),
                 "Decompiling APK...", false, SelectApkMessage("decompile"))
  }

  lemma DecompileUnambiguous()
    ensures Unambiguous(DecompileGrammar)
  {}

  /** The decompile grammar's shape read back, for any flag words (kept abstract so that no flag
      text enters the proof). */
  lemma DecompileShape(o: string, t: string, tMore: seq<string>, d: string, dMore: seq<string>, l: string,
        outputDir: JString, decompileToXml: bool, loadDex: bool, dexLibrary: JString)
    ensures Readings([OptionalSlot(o), SwitchSlot(t, tMore), SwitchSlot(d, dMore), OptionalSlot(l)],
          [Text(outputDir), Toggle(decompileToXml), Toggle(loadDex), Text(dexLibrary)])
         == [OptionalReading(outputDir), SwitchReading(decompileToXml), SwitchReading(loadDex),
             OptionalReading(dexLibrary)]
  {}

  lemma DecompileSlots(outputDir: JString, decompileToXml: bool, loadDex: bool, dexLibrary: JString)
    ensures Readings(DecompileGrammar, [Text(outputDir), Toggle(decompileToXml), Toggle(loadDex), Text(dexLibrary)])
         == [OptionalReading(outputDir), SwitchReading(decompileToXml),
            SwitchReading(loadDex), OptionalReading(dexLibrary)]
  {
    DecompileShape("-o", "-t", ["xml"], "-load-dex", ["3"], "-dex-lib", outputDir, decompileToXml, loadDex, dexLibrary);
  }

  /** "-o" pair, then "-t xml" iff decompileToXml, then "-load-dex 3" iff loadDex, then "-dex-lib" pair. */
  lemma DecompileReadsBack(editorJar: string, f: DecompileForm)
    requires !IsBlank(f.apkPath)
    ensures Decode(DecompileGrammar, Decompile(editorJar, f).cmd.argv[6..])
         == Some([OptionalReading(f.outputDir), SwitchReading(f.decompileToXml),
                  SwitchReading(f.loadDex), OptionalReading(f.dexLibrary)])
  {
    DecompileUnambiguous();
    DecompileSlots(f.outputDir, f.decompileToXml, f.loadDex, f.dexLibrary);
    EditorReadsBack(editorJar, "d", f.apkPath, DecompileGrammar, DecompileFields(f), "Decompiling APK...", false);
  }

  // ---------------------------------------------------------------- build

  datatype BuildForm = BuildForm(inputDir: JString, outputApk: JString, buildFromXml: bool, dexLibrary: JString)

  const BuildGrammar: seq<Slot> := [OptionalSlot("-o"), SwitchSlot("-t", ["xml"]), OptionalSlot("-dex-lib")]

  function BuildFields(f: BuildForm): seq<Field>
  {
    [Text(f.outputApk), Toggle(f.buildFromXml), Text(f.dexLibrary)]
  }

  function Build(editorJar: string, f: BuildForm): (r: Request)
    ensures r.Rejected? <==> f.inputDir.Null? || AllTrimmable(f.inputDir.value)
    ensures r.Rejected? ==> r.message == "Please select a decompiled directory to build."
    ensures r.Submitted? ==>
      && r.notes == [] && r.cmd.status == "Building APK..." && !r.cmd.hasSink
      && |r.cmd.argv| >= 6 && r.cmd.argv[..6] == Lit(["java", "-jar", editorJar, "b", "-i"]) + [f.inputDir]
  {
    EditorAction(editorJar, "b", f.inputDir, BuildGrammar, BuildFields(f),
                 "Building APK...", false, "Please select a decompiled directory to build.")
  }

  lemma BuildUnambiguous()
    ensures Unambiguous(BuildGrammar)
  {}

  lemma BuildShape(o: string, t: string, tMore: seq<string>, l: string,
        outputApk: JString, buildFromXml: bool, dexLibrary: JString)
    ensures Readings([OptionalSlot(o), SwitchSlot(t, tMore), OptionalSlot(l)],
          [Text(outputApk), Toggle(buildFromXml), Text(dexLibrary)])
         == [OptionalReading(outputApk), SwitchReading(buildFromXml), OptionalReading(dexLibrary)]
  {}

  lemma BuildSlots(outputApk: JString, buildFromXml: bool, dexLibrary: JString)
    ensures Readings(BuildGrammar, [Text(outputApk), Toggle(buildFromXml), Text(dexLibrary)])
         == [OptionalReading(outputApk), SwitchReading(buildFromXml), OptionalReading(dexLibrary)]
  {
    BuildShape("-o", "-t", ["xml"], "-dex-lib", outputApk, buildFromXml, dexLibrary);
  }

  lemma BuildReadsBack(editorJar: string, f: BuildForm)
    requires !IsBlank(f.inputDir)
    ensures Decode(BuildGrammar, Build(editorJar, f).cmd.argv[6..])
         == Some([OptionalReading(f.outputApk), SwitchReading(f.buildFromXml), OptionalReading(f.dexLibrary)])
  {
    BuildUnambiguous();
    BuildSlots(f.outputApk, f.buildFromXml, f.dexLibrary);
    EditorReadsBack(editorJar, "b", f.inputDir, BuildGrammar, BuildFields(f), "Building APK...", false);
  }

  // ---------------------------------------------------------------- merge

  datatype MergeForm = MergeForm(inputPath: JString, outputApk: JString)

  const MergeGrammar: seq<Slot> := [OptionalSlot("-o")]

  function Merge(editorJar: string, f: MergeForm): (r: Request)
    ensures r.Rejected? <==> f.inputPath.Null? || AllTrimmable(f.inputPath.value)
    ensures r.Rejected? ==> r.message == "Please select input for merging."
    ensures r.Submitted? ==>
      && r.notes == [] && r.cmd.status == "Merging APKs..." && !r.cmd.hasSink
      && |r.cmd.argv| >= 6 && r.cmd.argv[..6] == Lit(["java", "-jar", editorJar, "m", "-i"]) + [f.inputPath]
  {
    EditorAction(editorJar, "m", f.inputPath, MergeGrammar, [Text(f.outputApk)],
                 "Merging APKs...", false, "Please select input for merging.")
  }

  lemma MergeUnambiguous()
    ensures Unambiguous(MergeGrammar)
  {}

  lemma MergeSlots(outputApk: JString)
    ensures Readings(MergeGrammar, [Text(outputApk)])
         == [OptionalReading(outputApk)]
  {}

  lemma MergeReadsBack(editorJar: string, f: MergeForm)
    requires !IsBlank(f.inputPath)
    ensures Decode(MergeGrammar, Merge(editorJar, f).cmd.argv[6..]) == Some([OptionalReading(f.outputApk)])
  {
    MergeUnambiguous();
    MergeSlots(f.outputApk);
    EditorReadsBack(editorJar, "m", f.inputPath, MergeGrammar, [Text(f.outputApk)], "Merging APKs...", false);
  }

  // ---------------------------------------------------------------- merge (advanced)

  datatype MergeAdvancedForm = MergeAdvancedForm(
    inputPath: JString, outputApk: JString, resDir: JString, extractNativeLibs: JString,
    cleanMeta: bool, forceDelete: bool, validateModules: bool, vrd: bool)

  const MergeAdvancedGrammar: seq<Slot> :=
    [OptionalSlot("-o"), OptionalSlot("-res-dir"), OptionalSlot("-extractNativeLibs"),
     SwitchSlot("-clean-meta", []), SwitchSlot("-f", []), SwitchSlot("-validate-modules", []), SwitchSlot("-vrd", [])]

  function MergeAdvancedFields(f: MergeAdvancedForm): seq<Field>
  {
    [Text(f.outputApk), Text(f.resDir), Text(f.extractNativeLibs),
     Toggle(f.cleanMeta), Toggle(f.forceDelete), Toggle(f.validateModules), Toggle(f.vrd)]
  }

  function MergeAdvanced(editorJar: string, f: MergeAdvancedForm): (r: Request)
    ensures r.Rejected? <==> f.inputPath.Null? || AllTrimmable(f.inputPath.value)
    ensures r.Rejected? ==> r.message == "Please select input for merging."
    ensures r.Submitted? ==>
      && r.notes == [] && r.cmd.status == "Merging APKs..." && !r.cmd.hasSink
      && |r.cmd.argv| >= 6 && r.cmd.argv[..6] == Lit(["java", "-jar", editorJar, "m", "-i"]) + [f.inputPath]
  {
    EditorAction(editorJar, "m", f.inputPath, MergeAdvancedGrammar, MergeAdvancedFields(f),
                 "Merging APKs...", false, "Please select input for merging.")
  }

  lemma MergeAdvancedUnambiguous()
    ensures Unambiguous(MergeAdvancedGrammar)
  {}

  lemma ThreeOptionalFourSwitches(a: string, b: string, c: string, d: string, e: string, f: string, g: string,
        va: JString, vb: JString, vc: JString, od: bool, oe: bool, of: bool, og: bool)
    ensures Readings([OptionalSlot(a), OptionalSlot(b), OptionalSlot(c),
          SwitchSlot(d, []), SwitchSlot(e, []), SwitchSlot(f, []), SwitchSlot(g, [])],
          [Text(va), Text(vb), Text(vc), Toggle(od), Toggle(oe), Toggle(of), Toggle(og)])
         == [OptionalReading(va), OptionalReading(vb), OptionalReading(vc),
             SwitchReading(od), SwitchReading(oe), SwitchReading(of), SwitchReading(og)]
  {}

  lemma MergeAdvancedSlots(outputApk: JString, resDir: JString, extractNativeLibs: JString, cleanMeta: bool,
        forceDelete: bool, validateModules: bool, vrd: bool)
    ensures Readings(MergeAdvancedGrammar, [Text(outputApk), Text(resDir), Text(extractNativeLibs),
          Toggle(cleanMeta), Toggle(forceDelete), Toggle(validateModules), Toggle(vrd)])
         == [OptionalReading(outputApk), OptionalReading(resDir), OptionalReading(extractNativeLibs),
            SwitchReading(cleanMeta), SwitchReading(forceDelete),
            SwitchReading(validateModules), SwitchReading(vrd)]
  {
    ThreeOptionalFourSwitches("-o", "-res-dir", "-extractNativeLibs", "-clean-meta", "-f", "-validate-modules",
      "-vrd", outputApk, resDir, extractNativeLibs, cleanMeta, forceDelete, validateModules, vrd);
  }

  /** The optional pairs first, then -clean-meta, -f, -validate-modules, -vrd, each iff its boolean. */
  lemma MergeAdvancedReadsBack(editorJar: string, f: MergeAdvancedForm)
    requires !IsBlank(f.inputPath)
    ensures Decode(MergeAdvancedGrammar, MergeAdvanced(editorJar, f).cmd.argv[6..])
         == Some([OptionalReading(f.outputApk), OptionalReading(f.resDir), OptionalReading(f.extractNativeLibs),
                  SwitchReading(f.cleanMeta), SwitchReading(f.forceDelete),
                  SwitchReading(f.validateModules), SwitchReading(f.vrd)])
  {
    MergeAdvancedUnambiguous();
    MergeAdvancedSlots(f.outputApk, f.resDir, f.extractNativeLibs, f.cleanMeta, f.forceDelete,
          f.validateModules, f.vrd);
    EditorReadsBack(editorJar, "m", f.inputPath, MergeAdvancedGrammar, MergeAdvancedFields(f),
          "Merging APKs...", false);
  }

  // ---------------------------------------------------------------- refactor

  datatype RefactorForm = RefactorForm(
    inputApk: JString, outputApk: JString, publicXml: JString, cleanMeta: bool, forceDelete: bool, fixTypes: bool)

  const RefactorGrammar: seq<Slot> :=
    [OptionalSlot("-o"), OptionalSlot("-public-xml"),
     SwitchSlot("-clean-meta", []), SwitchSlot("-f", []), SwitchSlot("-fix-types", [])]

  function RefactorFields(f: RefactorForm): seq<Field>
  {
    [Text(f.outputApk), Text(f.publicXml), Toggle(f.cleanMeta), Toggle(f.forceDelete), Toggle(f.fixTypes)]
  }

  lemma RefactorRefusal()
    ensures SelectApkMessage("refactor") == "Please select an APK file to refactor."
  {}

  function Refactor(editorJar: string, f: RefactorForm): (r: Request)
    ensures r.Rejected? <==> f.inputApk.Null? || AllTrimmable(f.inputApk.value)
    ensures r.Rejected? ==> r.message == "Please select an APK file to refactor."
    ensures r.Submitted? ==>
      && r.notes == [] && r.cmd.status == "Refactoring APK..." && !r.cmd.hasSink
      && |r.cmd.argv| >= 6 && r.cmd.argv[..6] == Lit(["java", "-jar", editorJar, "x", "-i"]) + [f.inputApk]
  {
    RefactorRefusal();
    EditorAction(editorJar, "x", f.inputApk, RefactorGrammar, RefactorFields(f),
                 "Refactoring APK...", false, SelectApkMessage("refactor"))
  }

  lemma RefactorUnambiguous()
    ensures Unambiguous(RefactorGrammar)
  {}

  lemma TwoOptionalThreeSwitches(a: string, b: string, c: string, d: string, e: string,
        va: JString, vb: JString, oc: bool, od: bool, oe: bool)
    ensures Readings([OptionalSlot(a), OptionalSlot(b), SwitchSlot(c, []), SwitchSlot(d, []), SwitchSlot(e, [])],
          [Text(va), Text(vb), Toggle(oc), Toggle(od), Toggle(oe)])
         == [OptionalReading(va), OptionalReading(vb), SwitchReading(oc), SwitchReading(od), SwitchReading(oe)]
  {}

  lemma RefactorSlots(outputApk: JString, publicXml: JString, cleanMeta: bool, forceDelete: bool, fixTypes: bool)
    ensures Readings(RefactorGrammar, [Text(outputApk), Text(publicXml), Toggle(cleanMeta),
          Toggle(forceDelete), Toggle(fixTypes)])
         == [OptionalReading(outputApk), OptionalReading(publicXml),
            SwitchReading(cleanMeta), SwitchReading(forceDelete), SwitchReading(fixTypes)]
  {
    TwoOptionalThreeSwitches("-o", "-public-xml", "-clean-meta", "-f", "-fix-types",
      outputApk, publicXml, cleanMeta, forceDelete, fixTypes);
  }

  lemma RefactorReadsBack(editorJar: string, f: RefactorForm)
    requires !IsBlank(f.inputApk)
    ensures Decode(RefactorGrammar, Refactor(editorJar, f).cmd.argv[6..])
         == Some([OptionalReading(f.outputApk), OptionalReading(f.publicXml),
                  SwitchReading(f.cleanMeta), SwitchReading(f.forceDelete), SwitchReading(f.fixTypes)])
  {
    RefactorUnambiguous();
    RefactorSlots(f.outputApk, f.publicXml, f.cleanMeta, f.forceDelete, f.fixTypes);
    EditorReadsBack(editorJar, "x", f.inputApk, RefactorGrammar, RefactorFields(f), "Refactoring APK...", false);
  }

  /** With force on and every other option empty, only "-f" follows the input. */
  lemma RefactorForceOnly(input: JString, output: string)
    requires AllTrimmable(output)
    ensures Render(RefactorGrammar, RefactorFields(RefactorForm(input, Str(output), Null, false, true,
          false))) == [Str("-f")]
  {
    var fields := RefactorFields(RefactorForm(input, Str(output), Null, false, true, false));
    assert Render(RefactorGrammar[3..], fields[3..]) == [Str("-f")] + Render(RefactorGrammar[4..], fields[4..]);
    assert Render(RefactorGrammar[4..], fields[4..]) == [];
  }

  /** Forcing with a whitespace-only output: the argv ends in "-f" and carries no "-o" pair. */
  lemma RefactorForceWithoutOutput(editorJar: string, input: string, output: string)
    requires !AllTrimmable(input) && AllTrimmable(output)
    ensures Refactor(editorJar, RefactorForm(Str(input), Str(output), Null, false, true, false)).cmd.argv
         == Lit(["java", "-jar", editorJar, "x", "-i", input, "-f"])
  {
    var f := RefactorForm(Str(input), Str(output), Null, false, true, false);
    RefactorForceOnly(Str(input), output);
    EditorArgvEnds(editorJar, "x", input, RefactorGrammar, RefactorFields(f), "Refactoring APK...", false, "-f");
  }

  // ---------------------------------------------------------------- protect

  datatype ProtectForm = ProtectForm(
    inputApk: JString, outputApk: JString, keepType: JString, confuseZip: bool,
    dicDirNames: JString, dicFileNames: JString, forceDelete: bool, skipManifest: bool)

  const ProtectGrammar: seq<Slot> :=
    [OptionalSlot("-o"), OptionalSlot("-keep-type"), OptionalSlot("-dic-dir-names"), OptionalSlot("-dic-file-names"),
     SwitchSlot("-confuse-zip", []), SwitchSlot("-f", []), SwitchSlot("-skip-manifest", [])]

  function ProtectFields(f: ProtectForm): seq<Field>
  {
    [Text(f.outputApk), Text(f.keepType), Text(f.dicDirNames), Text(f.dicFileNames),
     Toggle(f.confuseZip), Toggle(f.forceDelete), Toggle(f.skipManifest)]
  }

  lemma ProtectRefusal()
    ensures SelectApkMessage("protect") == "Please select an APK file to protect."
  {}

  function Protect(editorJar: string, f: ProtectForm): (r: Request)
    ensures r.Rejected? <==> f.inputApk.Null? || AllTrimmable(f.inputApk.value)
    ensures r.Rejected? ==> r.message == "Please select an APK file to protect."
    ensures r.Submitted? ==>
      && r.notes == [] && r.cmd.status == "Protecting APK..." && !r.cmd.hasSink
      && |r.cmd.argv| >= 6 && r.cmd.argv[..6] == Lit(["java", "-jar", editorJar, "p", "-i"]) + [f.inputApk]
  {
    ProtectRefusal();
    EditorAction(editorJar, "p", f.inputApk, ProtectGrammar, ProtectFields(f),
                 "Protecting APK...", false, SelectApkMessage("protect"))
  }

  lemma ProtectUnambiguous()
    ensures Unambiguous(ProtectGrammar)
  {}

  lemma FourOptionalThreeSwitches(a: string, b: string, c: string, d: string, e: string, f: string, g: string,
        va: JString, vb: JString, vc: JString, vd: JString, oe: bool, of: bool, og: bool)
    ensures Readings([OptionalSlot(a), OptionalSlot(b), OptionalSlot(c), OptionalSlot(d),
          SwitchSlot(e, []), SwitchSlot(f, []), SwitchSlot(g, [])],
          [Text(va), Text(vb), Text(vc), Text(vd), Toggle(oe), Toggle(of), Toggle(og)])
         == [OptionalReading(va), OptionalReading(vb), OptionalReading(vc), OptionalReading(vd),
             SwitchReading(oe), SwitchReading(of), SwitchReading(og)]
  {}

  lemma ProtectSlots(outputApk: JString, keepType: JString, dicDirNames: JString, dicFileNames: JString,
        confuseZip: bool, forceDelete: bool, skipManifest: bool)
    ensures Readings(ProtectGrammar, [Text(outputApk), Text(keepType), Text(dicDirNames), Text(dicFileNames),
          Toggle(confuseZip), Toggle(forceDelete), Toggle(skipManifest)])
         == [OptionalReading(outputApk), OptionalReading(keepType),
            OptionalReading(dicDirNames), OptionalReading(dicFileNames),
            SwitchReading(confuseZip), SwitchReading(forceDelete), SwitchReading(skipManifest)]
  {
    FourOptionalThreeSwitches("-o", "-keep-type", "-dic-dir-names", "-dic-file-names", "-confuse-zip", "-f",
      "-skip-manifest", outputApk, keepType, dicDirNames, dicFileNames, confuseZip, forceDelete, skipManifest);
  }

  lemma ProtectReadsBack(editorJar: string, f: ProtectForm)
    requires !IsBlank(f.inputApk)
    ensures Decode(ProtectGrammar, Protect(editorJar, f).cmd.argv[6..])
         == Some([OptionalReading(f.outputApk), OptionalReading(f.keepType),
                  OptionalReading(f.dicDirNames), OptionalReading(f.dicFileNames),
                  SwitchReading(f.confuseZip), SwitchReading(f.forceDelete), SwitchReading(f.skipManifest)])
  {
    ProtectUnambiguous();
    ProtectSlots(f.outputApk, f.keepType, f.dicDirNames, f.dicFileNames, f.confuseZip, f.forceDelete, f.skipManifest);
    EditorReadsBack(editorJar, "p", f.inputApk, ProtectGrammar, ProtectFields(f), "Protecting APK...", false);
  }

  // ---------------------------------------------------------------- get info

  datatype InfoForm = InfoForm(
    inputApk: JString, outputFile: JString, verbose: bool,
    filterType: JString, framework: JString, frameworkVersion: JString, resourceId: JString,
    xmlStrings: JString, xmlTree: JString, outputType: JString,
    activities: bool, appClass: bool, appIcon: bool, appName: bool,
    appRoundIcon: bool, configurations: bool, dex: bool, forceDelete: bool,
    languages: bool, listFiles: bool, listXmlFiles: bool, locales: bool,
    minSdkVersion: bool, packageInfo: bool, permissions: bool, resources: bool,
    signatures: bool, signaturesBase64: bool, targetSdkVersion: bool,
    versionCode: bool, versionName: bool,
    hasOutputConsumer: bool)

  /** The eight optional pairs, in the order they are appended. */
  const InfoOptionSlots: seq<Slot> :=
    [OptionalSlot("-o"), OptionalSlot("-filter-type"), OptionalSlot("-framework"), OptionalSlot("-framework-version"),
     OptionalSlot("-res"), OptionalSlot("-xmlstrings"), OptionalSlot("-xmltree"), OptionalSlot("-t")]

  /** The 22 boolean flags, split in two only so that their distinctness is checked in small pieces. */
  const InfoSwitchesHead: seq<Slot> :=
    [SwitchSlot("-v", []), SwitchSlot("-activities", []), SwitchSlot("-app-class", []), SwitchSlot("-app-icon", []),
     SwitchSlot("-app-name", []), SwitchSlot("-app-round-icon", []), SwitchSlot("-configurations", []),
     SwitchSlot("-dex", []), SwitchSlot("-f", []), SwitchSlot("-languages", []), SwitchSlot("-list-files", [])]

  const InfoSwitchesTail: seq<Slot> :=
    [SwitchSlot("-list-xml-files", []), SwitchSlot("-locales", []), SwitchSlot("-min-sdk-version", []),
     SwitchSlot("-package", []), SwitchSlot("-permissions", []), SwitchSlot("-resources", []),
     SwitchSlot("-signatures", []), SwitchSlot("-signatures-base64", []), SwitchSlot("-target-sdk-version", []),
     SwitchSlot("-version-code", []), SwitchSlot("-version-name", [])]

  const InfoGrammar: seq<Slot> := InfoOptionSlots + InfoSwitchesHead + InfoSwitchesTail

  function InfoOptionFields(f: InfoForm): seq<Field>
  {
    [Text(f.outputFile), Text(f.filterType), Text(f.framework), Text(f.frameworkVersion),
     Text(f.resourceId), Text(f.xmlStrings), Text(f.xmlTree), Text(f.outputType)]
  }

  function InfoHeadFields(f: InfoForm): seq<Field>
  {
    [Toggle(f.verbose), Toggle(f.activities), Toggle(f.appClass), Toggle(f.appIcon),
     Toggle(f.appName), Toggle(f.appRoundIcon), Toggle(f.configurations),
     Toggle(f.dex), Toggle(f.forceDelete), Toggle(f.languages), Toggle(f.listFiles)]
  }

  function InfoTailFields(f: InfoForm): seq<Field>
  {
    [Toggle(f.listXmlFiles), Toggle(f.locales), Toggle(f.minSdkVersion),
     Toggle(f.packageInfo), Toggle(f.permissions), Toggle(f.resources),
     Toggle(f.signatures), Toggle(f.signaturesBase64), Toggle(f.targetSdkVersion),
     Toggle(f.versionCode), Toggle(f.versionName)]
  }

  function InfoFields(f: InfoForm): seq<Field>
  {
    InfoOptionFields(f) + InfoHeadFields(f) + InfoTailFields(f)
  }

  lemma InfoRefusal()
    ensures SelectApkMessage("get information") == "Please select an APK file to get information."
  {}

  /** The only editor action that forwards its output consumer to the executor. */
  function GetInfo(editorJar: string, f: InfoForm): (r: Request)
    ensures r.Rejected? <==> f.inputApk.Null? || AllTrimmable(f.inputApk.value)
    ensures r.Rejected? ==> r.message == "Please select an APK file to get information."
    ensures r.Submitted? ==>
      && r.notes == [] && r.cmd.status == "Getting APK information..."
      && r.cmd.hasSink == f.hasOutputConsumer
      && |r.cmd.argv| >= 6 && r.cmd.argv[..6] == Lit(["java", "-jar", editorJar, "info", "-i"]) + [f.inputApk]
  {
    InfoArity(f);
    InfoRefusal();
    EditorAction(editorJar, "info", f.inputApk, InfoGrammar, InfoFields(f),
                 "Getting APK information...", f.hasOutputConsumer, SelectApkMessage("get information"))
  }

  lemma InfoArity(f: InfoForm)
    ensures |InfoGrammar| == |InfoFields(f)| == 30
  {
    InfoOptionArity(f);
    InfoHeadArity(f);
    InfoTailArity(f);
  }

  lemma InfoOptionArity(f: InfoForm)
    ensures |InfoOptionSlots| == |InfoOptionFields(f)| == 8
  {}

  lemma InfoHeadArity(f: InfoForm)
    ensures |InfoSwitchesHead| == |InfoHeadFields(f)| == 11
  {}

  lemma InfoTailArity(f: InfoForm)
    ensures |InfoSwitchesTail| == |InfoTailFields(f)| == 11
  {}

  /** The three groups again, each cut in two, so that distinctness is checked a few flags at a time. */
  const InfoOptionsFront: seq<Slot> :=
    [OptionalSlot("-o"), OptionalSlot("-filter-type"), OptionalSlot("-framework"), OptionalSlot("-framework-version")]

  const InfoOptionsBack: seq<Slot> :=
    [OptionalSlot("-res"), OptionalSlot("-xmlstrings"), OptionalSlot("-xmltree"), OptionalSlot("-t")]

  const InfoHeadFront: seq<Slot> :=
    [SwitchSlot("-v", []), SwitchSlot("-activities", []), SwitchSlot("-app-class", []), SwitchSlot("-app-icon", []),
     SwitchSlot("-app-name", []), SwitchSlot("-app-round-icon", [])]

  const InfoHeadBack: seq<Slot> :=
    [SwitchSlot("-configurations", []), SwitchSlot("-dex", []), SwitchSlot("-f", []), SwitchSlot("-languages", []),
     SwitchSlot("-list-files", [])]

  const InfoTailFront: seq<Slot> :=
    [SwitchSlot("-list-xml-files", []), SwitchSlot("-locales", []), SwitchSlot("-min-sdk-version", []),
     SwitchSlot("-package", []), SwitchSlot("-permissions", []), SwitchSlot("-resources", [])]

  const InfoTailBack: seq<Slot> :=
    [SwitchSlot("-signatures", []), SwitchSlot("-signatures-base64", []), SwitchSlot("-target-sdk-version", []),
     SwitchSlot("-version-code", []), SwitchSlot("-version-name", [])]

  lemma InfoOptionsHalves()
    ensures InfoOptionSlots == InfoOptionsFront + InfoOptionsBack
  {}

  lemma InfoHeadHalves()
    ensures InfoSwitchesHead == InfoHeadFront + InfoHeadBack
  {}

  lemma InfoTailHalves()
    ensures InfoSwitchesTail == InfoTailFront + InfoTailBack
  {}

  lemma InfoOptionsFrontUnambiguous()
    ensures Unambiguous(InfoOptionsFront)
  {}

  lemma InfoOptionsBackUnambiguous()
    ensures Unambiguous(InfoOptionsBack)
  {}

  lemma InfoHeadFrontUnambiguous()
    ensures Unambiguous(InfoHeadFront)
  {}

  lemma InfoHeadBackUnambiguous()
    ensures Unambiguous(InfoHeadBack)
  {}

  lemma InfoTailFrontUnambiguous()
    ensures Unambiguous(InfoTailFront)
  {}

  lemma InfoTailBackUnambiguous()
    ensures Unambiguous(InfoTailBack)
  {}

  lemma InfoOptionsFrontApartFromOptionsBack()
    ensures FlagsDisjoint(InfoOptionsFront, InfoOptionsBack)
  {}

  lemma InfoHeadFrontApartFromHeadBack()
    ensures FlagsDisjoint(InfoHeadFront, InfoHeadBack)
  {}

  lemma InfoTailFrontApartFromTailBack()
    ensures FlagsDisjoint(InfoTailFront, InfoTailBack)
  {}

  lemma InfoOptionsFrontApartFromHeadFront()
    ensures FlagsDisjoint(InfoOptionsFront, InfoHeadFront)
  {}

  lemma InfoOptionsFrontApartFromHeadBack()
    ensures FlagsDisjoint(InfoOptionsFront, InfoHeadBack)
  {}

  lemma InfoOptionsBackApartFromHeadFront()
    ensures FlagsDisjoint(InfoOptionsBack, InfoHeadFront)
  {}

  lemma InfoOptionsBackApartFromHeadBack()
    ensures FlagsDisjoint(InfoOptionsBack, InfoHeadBack)
  {}

  lemma InfoOptionsFrontApartFromTailFront()
    ensures FlagsDisjoint(InfoOptionsFront, InfoTailFront)
  {}

  lemma InfoOptionsFrontApartFromTailBack()
    ensures FlagsDisjoint(InfoOptionsFront, InfoTailBack)
  {}

  lemma InfoOptionsBackApartFromTailFront()
    ensures FlagsDisjoint(InfoOptionsBack, InfoTailFront)
  {}

  lemma InfoOptionsBackApartFromTailBack()
    ensures FlagsDisjoint(InfoOptionsBack, InfoTailBack)
  {}

  lemma InfoHeadFrontApartFromTailFront()
    ensures FlagsDisjoint(InfoHeadFront, InfoTailFront)
  {}

  lemma InfoHeadFrontApartFromTailBack()
    ensures FlagsDisjoint(InfoHeadFront, InfoTailBack)
  {}

  lemma InfoHeadBackApartFromTailFront()
    ensures FlagsDisjoint(InfoHeadBack, InfoTailFront)
  {}

  lemma InfoHeadBackApartFromTailBack()
    ensures FlagsDisjoint(InfoHeadBack, InfoTailBack)
  {}

  lemma InfoOptionsUnambiguous()
    ensures Unambiguous(InfoOptionSlots)
  {
    InfoOptionsHalves();
    InfoOptionsFrontUnambiguous();
    InfoOptionsBackUnambiguous();
    InfoOptionsFrontApartFromOptionsBack();
    UnambiguousConcat(InfoOptionsFront, InfoOptionsBack);
  }

  lemma InfoHeadUnambiguous()
    ensures Unambiguous(InfoSwitchesHead)
  {
    InfoHeadHalves();
    InfoHeadFrontUnambiguous();
    InfoHeadBackUnambiguous();
    InfoHeadFrontApartFromHeadBack();
    UnambiguousConcat(InfoHeadFront, InfoHeadBack);
  }

  lemma InfoTailUnambiguous()
    ensures Unambiguous(InfoSwitchesTail)
  {
    InfoTailHalves();
    InfoTailFrontUnambiguous();
    InfoTailBackUnambiguous();
    InfoTailFrontApartFromTailBack();
    UnambiguousConcat(InfoTailFront, InfoTailBack);
  }

  lemma InfoOptionsApartFromHead()
    ensures FlagsDisjoint(InfoOptionSlots, InfoSwitchesHead)
  {
    InfoOptionsHalves();
    InfoHeadHalves();
    InfoOptionsFrontApartFromHeadFront();
    InfoOptionsFrontApartFromHeadBack();
    InfoOptionsBackApartFromHeadFront();
    InfoOptionsBackApartFromHeadBack();
    DisjointHalves(InfoOptionsFront, InfoOptionsBack, InfoHeadFront, InfoHeadBack);
  }

  lemma InfoOptionsApartFromTail()
    ensures FlagsDisjoint(InfoOptionSlots, InfoSwitchesTail)
  {
    InfoOptionsHalves();
    InfoTailHalves();
    InfoOptionsFrontApartFromTailFront();
    InfoOptionsFrontApartFromTailBack();
    InfoOptionsBackApartFromTailFront();
    InfoOptionsBackApartFromTailBack();
    DisjointHalves(InfoOptionsFront, InfoOptionsBack, InfoTailFront, InfoTailBack);
  }

  lemma InfoHeadApartFromTail()
    ensures FlagsDisjoint(InfoSwitchesHead, InfoSwitchesTail)
  {
    InfoHeadHalves();
    InfoTailHalves();
    InfoHeadFrontApartFromTailFront();
    InfoHeadFrontApartFromTailBack();
    InfoHeadBackApartFromTailFront();
    InfoHeadBackApartFromTailBack();
    DisjointHalves(InfoHeadFront, InfoHeadBack, InfoTailFront, InfoTailBack);
  }

  lemma InfoGrammarUnambiguous()
    ensures Unambiguous(InfoGrammar)
  {
    InfoOptionsUnambiguous();
    InfoHeadUnambiguous();
    InfoTailUnambiguous();
    InfoOptionsApartFromHead();
    InfoOptionsApartFromTail();
    InfoHeadApartFromTail();
    UnambiguousConcat(InfoOptionSlots, InfoSwitchesHead);
    DisjointConcat(InfoOptionSlots, InfoSwitchesHead, InfoSwitchesTail);
    UnambiguousConcat(InfoOptionSlots + InfoSwitchesHead, InfoSwitchesTail);
  }

  /** Four optional slots read back as their four values, whatever their flags. */
  lemma FourOptionalReadings(a: string, b: string, c: string, d: string, va: JString, vb: JString,
        vc: JString, vd: JString)
    ensures Readings([OptionalSlot(a), OptionalSlot(b), OptionalSlot(c), OptionalSlot(d)], [Text(va),
          Text(vb), Text(vc), Text(vd)])
         == [OptionalReading(va), OptionalReading(vb), OptionalReading(vc), OptionalReading(vd)]
  {}

  lemma InfoOptionReadings(outputFile: JString, filterType: JString, framework: JString,
        frameworkVersion: JString, resourceId: JString, xmlStrings: JString, xmlTree: JString,
        outputType: JString)
    ensures Readings(InfoOptionSlots, [Text(outputFile), Text(filterType), Text(framework),
          Text(frameworkVersion), Text(resourceId), Text(xmlStrings), Text(xmlTree), Text(outputType)])
         == [OptionalReading(outputFile), OptionalReading(filterType), OptionalReading(framework),
             OptionalReading(frameworkVersion), OptionalReading(resourceId), OptionalReading(xmlStrings),
             OptionalReading(xmlTree), OptionalReading(outputType)]
  {
    var f1 := [Text(outputFile), Text(filterType), Text(framework), Text(frameworkVersion)];
    var f2 := [Text(resourceId), Text(xmlStrings), Text(xmlTree), Text(outputType)];
    InfoOptionsHalves();
    assert [Text(outputFile), Text(filterType), Text(framework), Text(frameworkVersion), Text(resourceId),
            Text(xmlStrings), Text(xmlTree), Text(outputType)] == f1 + f2;
    ReadingsConcat(InfoOptionsFront, f1, InfoOptionsBack, f2);
    FourOptionalReadings("-o", "-filter-type", "-framework", "-framework-version", outputFile, filterType,
          framework, frameworkVersion);
    FourOptionalReadings("-res", "-xmlstrings", "-xmltree", "-t", resourceId, xmlStrings, xmlTree, outputType);
  }

  lemma InfoHeadReadings(verbose: bool, activities: bool, appClass: bool, appIcon: bool, appName: bool,
        appRoundIcon: bool, configurations: bool, dex: bool, forceDelete: bool, languages: bool,
        listFiles: bool)
    ensures Readings(InfoSwitchesHead, [Toggle(verbose), Toggle(activities), Toggle(appClass),
          Toggle(appIcon), Toggle(appName), Toggle(appRoundIcon), Toggle(configurations), Toggle(dex),
          Toggle(forceDelete), Toggle(languages), Toggle(listFiles)])
         == [SwitchReading(verbose), SwitchReading(activities), SwitchReading(appClass),
             SwitchReading(appIcon), SwitchReading(appName), SwitchReading(appRoundIcon),
             SwitchReading(configurations), SwitchReading(dex), SwitchReading(forceDelete),
             SwitchReading(languages), SwitchReading(listFiles)]
  {}

  lemma InfoTailReadings(listXmlFiles: bool, locales: bool, minSdkVersion: bool, packageInfo: bool,
        permissions: bool, resources: bool, signatures: bool, signaturesBase64: bool, targetSdkVersion: bool,
        versionCode: bool, versionName: bool)
    ensures Readings(InfoSwitchesTail, [Toggle(listXmlFiles), Toggle(locales), Toggle(minSdkVersion),
          Toggle(packageInfo), Toggle(permissions), Toggle(resources), Toggle(signatures),
          Toggle(signaturesBase64), Toggle(targetSdkVersion), Toggle(versionCode), Toggle(versionName)])
         == [SwitchReading(listXmlFiles), SwitchReading(locales), SwitchReading(minSdkVersion),
             SwitchReading(packageInfo), SwitchReading(permissions), SwitchReading(resources),
             SwitchReading(signatures), SwitchReading(signaturesBase64), SwitchReading(targetSdkVersion),
             SwitchReading(versionCode), SwitchReading(versionName)]
  {}

  lemma GetInfoSlots(f: InfoForm)
    ensures Readings(InfoGrammar, InfoFields(f))
         == [OptionalReading(f.outputFile), OptionalReading(f.filterType), OptionalReading(f.framework),
             OptionalReading(f.frameworkVersion), OptionalReading(f.resourceId), OptionalReading(f.xmlStrings),
             OptionalReading(f.xmlTree), OptionalReading(f.outputType)]
          + [SwitchReading(f.verbose), SwitchReading(f.activities), SwitchReading(f.appClass),
             SwitchReading(f.appIcon), SwitchReading(f.appName), SwitchReading(f.appRoundIcon),
             SwitchReading(f.configurations), SwitchReading(f.dex), SwitchReading(f.forceDelete),
             SwitchReading(f.languages), SwitchReading(f.listFiles)]
          + [SwitchReading(f.listXmlFiles), SwitchReading(f.locales), SwitchReading(f.minSdkVersion),
             SwitchReading(f.packageInfo), SwitchReading(f.permissions), SwitchReading(f.resources),
             SwitchReading(f.signatures), SwitchReading(f.signaturesBase64), SwitchReading(f.targetSdkVersion),
             SwitchReading(f.versionCode), SwitchReading(f.versionName)]
  {
    InfoOptionReadings(f.outputFile, f.filterType, f.framework, f.frameworkVersion, f.resourceId,
          f.xmlStrings, f.xmlTree, f.outputType);
    InfoHeadReadings(f.verbose, f.activities, f.appClass, f.appIcon, f.appName, f.appRoundIcon,
          f.configurations, f.dex, f.forceDelete, f.languages, f.listFiles);
    InfoTailReadings(f.listXmlFiles, f.locales, f.minSdkVersion, f.packageInfo, f.permissions, f.resources,
          f.signatures, f.signaturesBase64, f.targetSdkVersion, f.versionCode, f.versionName);
    ReadingsConcat(InfoOptionSlots, InfoOptionFields(f), InfoSwitchesHead, InfoHeadFields(f));
    ReadingsConcat(InfoOptionSlots + InfoSwitchesHead, InfoOptionFields(f) + InfoHeadFields(f),
                   InfoSwitchesTail, InfoTailFields(f));
  }

  /** The eight optional pairs first, then each of the 22 boolean flags iff its boolean. */
  lemma GetInfoReadsBack(editorJar: string, f: InfoForm)
    requires !IsBlank(f.inputApk)
    ensures Decode(InfoGrammar, GetInfo(editorJar, f).cmd.argv[6..])
         == Some([OptionalReading(f.outputFile), OptionalReading(f.filterType), OptionalReading(f.framework),
             OptionalReading(f.frameworkVersion), OptionalReading(f.resourceId), OptionalReading(f.xmlStrings),
             OptionalReading(f.xmlTree), OptionalReading(f.outputType)]
             + [SwitchReading(f.verbose), SwitchReading(f.activities), SwitchReading(f.appClass),
             SwitchReading(f.appIcon), SwitchReading(f.appName), SwitchReading(f.appRoundIcon),
             SwitchReading(f.configurations), SwitchReading(f.dex), SwitchReading(f.forceDelete),
             SwitchReading(f.languages), SwitchReading(f.listFiles)]
             + [SwitchReading(f.listXmlFiles), SwitchReading(f.locales), SwitchReading(f.minSdkVersion),
             SwitchReading(f.packageInfo), SwitchReading(f.permissions), SwitchReading(f.resources),
             SwitchReading(f.signatures), SwitchReading(f.signaturesBase64), SwitchReading(f.targetSdkVersion),
             SwitchReading(f.versionCode), SwitchReading(f.versionName)])
  {
    InfoGrammarUnambiguous();
    GetInfoSlots(f);
    EditorReadsBack(editorJar, "info", f.inputApk, InfoGrammar, InfoFields(f), "Getting APK information...",
          f.hasOutputConsumer);
  }
}
