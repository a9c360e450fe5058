/** The signing service (ApkSignerService): sign, quick-sign with the test key, verify,
    print the version, and rotate the signing key through a certificate lineage. Every
    command is `<java> -jar <apksigner jar> <sub>` followed by the action's arguments.

    The java path, the jar path and the test keystore are looked up in settings and on
    disk by the source; here they are the fields of `SignerEnv`. */
module ApkSigner {
  import opened JavaLang
  import opened Commands

  /** What the source looks up outside the form: the configured java path (possibly null),
      the apksigner jar path ("" when none is found) and what getOrCreateTestKeystore
      returns (the keystore path, or null when it cannot be created). */
  datatype SignerEnv = SignerEnv(javaPath: JString, signerPath: string, testKeystore: JString)

  const TestKeystorePassword: string := "android"
  const TestKeyAlias: string := "androiddebugkey"
  const TestKeyPassword: string := "android"

  /** buildBaseCommand(sub). */
  function SignerBase(env: SignerEnv, sub: string): seq<JString>
  {
    [env.javaPath, Str("-jar"), Str(env.signerPath), Str(sub)]
  }

  /** String.valueOf(boolean). */
  function BoolText(b: bool): string
  {
    if b then "true" else "false"
  }

  function ParseBool(x: JString): Option<bool>
  {
    if x == Str("true") then Some(true) else if x == Str("false") then Some(false) else None
  }

  /** "pass:" + password, as a keystore password argument. */
  function PassArg(password: string): JString
  {
    Str("pass:" + password)
  }

  function ParsePass(x: JString): Option<string>
  {
    if x.Str? && |x.value| >= 5 && x.value[..5] == "pass:" then Some(x.value[5..]) else None
  }

  lemma ParseBoolText(b: bool)
    ensures ParseBool(Str(BoolText(b))) == Some(b)
  {}

  lemma ParsePassArg(password: string)
    ensures ParsePass(PassArg(password)) == Some(password)
  {
    assert ("pass:" + password)[..5] == "pass:";
    assert ("pass:" + password)[5..] == password;
  }

  lemma ParsedPassIsArg(x: JString)
    requires ParsePass(x).Some?
    ensures PassArg(ParsePass(x).value) == x
  {
    assert x.value == x.value[..5] + x.value[5..];
  }

  // ---------------------------------------------------------------- sign

  /** Everything a sign command says: the tool, the four signature schemes, the key, the
      output and the input. */
  datatype SignPlan = SignPlan(
    javaPath: JString, signerPath: string, v1: bool, v2: bool, v3: bool, v4: bool,
    keystore: JString, keystorePassword: string, keyAlias: JString, keyPassword: string,
    output: JString, input: JString)

  /** The four "--vN-signing-enabled <bool>" pairs. */
  function SchemeArgs(v1: bool, v2: bool, v3: bool, v4: bool): seq<JString>
  {
    [Str("--v1-signing-enabled"), Str(BoolText(v1)), Str("--v2-signing-enabled"), Str(BoolText(v2)),
     Str("--v3-signing-enabled"), Str(BoolText(v3)), Str("--v4-signing-enabled"), Str(BoolText(v4))]
  }

  /** addKeystoreArgs: keystore, keystore password, key alias, key password. */
  function KeystoreArgs(keystore: JString, keystorePassword: string, keyAlias: JString,
        keyPassword: string): seq<JString>
  {
    [Str("--ks"), keystore, Str("--ks-pass"), PassArg(keystorePassword),
     Str("--ks-key-alias"), keyAlias, Str("--key-pass"), PassArg(keyPassword)]
  }

  /** The argv of a sign command: the scheme switches, the keystore arguments, "--out", the input. */
  function SignArgv(p: SignPlan): seq<JString>
  {
    [p.javaPath, Str("-jar"), Str(p.signerPath), Str("sign")]
    + SchemeArgs(p.v1, p.v2, p.v3, p.v4)
    + KeystoreArgs(p.keystore, p.keystorePassword, p.keyAlias, p.keyPassword)
    + [Str("--out"), p.output, p.input]
  }

  function ParseSchemes(w: seq<JString>): Option<(bool, bool, bool, bool)>
  {
    if |w| != 8 || w[0] != Str("--v1-signing-enabled") || w[2] != Str("--v2-signing-enabled")
       || w[4] != Str("--v3-signing-enabled") || w[6] != Str("--v4-signing-enabled") then None
    else
      var v1, v2, v3, v4 := ParseBool(w[1]), ParseBool(w[3]), ParseBool(w[5]), ParseBool(w[7]);
      if v1.None? || v2.None? || v3.None? || v4.None? then None
      else Some((v1.value, v2.value, v3.value, v4.value))
  }

  function ParseKeystoreArgs(w: seq<JString>): Option<(JString, string, JString, string)>
  {
    if |w| != 8 || w[0] != Str("--ks") || w[2] != Str("--ks-pass")
       || w[4] != Str("--ks-key-alias") || w[6] != Str("--key-pass") then None
    else
      var ksPass, keyPass := ParsePass(w[3]), ParsePass(w[7]);
      if ksPass.None? || keyPass.None? then None
      else Some((w[1], ksPass.value, w[5], keyPass.value))
  }

  lemma ParseSchemeArgs(v1: bool, v2: bool, v3: bool, v4: bool)
    ensures ParseSchemes(SchemeArgs(v1, v2, v3, v4)) == Some((v1, v2, v3, v4))
  {
    ParseBoolText(v1);
    ParseBoolText(v2);
    ParseBoolText(v3);
    ParseBoolText(v4);
  }

  lemma SchemeArgsOfParse(w: seq<JString>)
    requires ParseSchemes(w).Some?
    ensures var (v1, v2, v3, v4) := ParseSchemes(w).value; SchemeArgs(v1, v2, v3, v4) == w
  {}

  lemma ParseKeystoreArgsOf(ks: JString, ksPass: string, alias: JString, keyPass: string)
    ensures ParseKeystoreArgs(KeystoreArgs(ks, ksPass, alias, keyPass)) == Some((ks, ksPass, alias, keyPass))
  {
    ParsePassArg(ksPass);
    ParsePassArg(keyPass);
  }

  lemma KeystoreArgsOfParse(w: seq<JString>)
    requires ParseKeystoreArgs(w).Some?
    ensures var (ks, ksPass, alias, keyPass) := ParseKeystoreArgs(w).value;
      KeystoreArgs(ks, ksPass, alias, keyPass) == w
  {
    ParsedPassIsArg(w[3]);
    ParsedPassIsArg(w[7]);
  }

  /** Reads a sign command back: every fixed word must be in place, every scheme value
      must be "true" or "false" and every password must carry the "pass:" prefix. */
  function ParseSign(argv: seq<JString>): Option<SignPlan>
  {
    if |argv| != 23 || !argv[2].Str? || argv[1] != Str("-jar") || argv[3] != Str("sign") || argv[20] != Str("--out")
    then None
    else
      var schemes, keys := ParseSchemes(argv[4..12]), ParseKeystoreArgs(argv[12..20]);
      if schemes.None? || keys.None? then None
      else
        var (v1, v2, v3, v4) := schemes.value;
        var (ks, ksPass, alias, keyPass) := keys.value;
        Some(SignPlan(argv[0], argv[2].value, v1, v2, v3, v4, ks, ksPass, alias, keyPass, argv[21], argv[22]))
  }

  /** Reading a sign command back recovers the plan it was built from. */
  lemma ParseSignArgv(p: SignPlan)
    ensures ParseSign(SignArgv(p)) == Some(p)
  {
    var argv := SignArgv(p);
    assert argv[4..12] == SchemeArgs(p.v1, p.v2, p.v3, p.v4);
    assert argv[12..20] == KeystoreArgs(p.keystore, p.keystorePassword, p.keyAlias, p.keyPassword);
    ParseSchemeArgs(p.v1, p.v2, p.v3, p.v4);
    ParseKeystoreArgsOf(p.keystore, p.keystorePassword, p.keyAlias, p.keyPassword);
  }

  /** The reader accepts nothing but sign commands: what it reads renders back to the same argv. */
  lemma SignArgvOfParse(argv: seq<JString>)
    requires ParseSign(argv).Some?
    ensures SignArgv(ParseSign(argv).value) == argv
  {
    var p := ParseSign(argv).value;
    SchemeArgsOfParse(argv[4..12]);
    KeystoreArgsOfParse(argv[12..20]);
    assert SchemeArgs(p.v1, p.v2, p.v3, p.v4) == argv[4..12];
    assert KeystoreArgs(p.keystore, p.keystorePassword, p.keyAlias, p.keyPassword) == argv[12..20];
    assert [p.javaPath, Str("-jar"), Str(p.signerPath), Str("sign")] == argv[..4];
    assert [Str("--out"), p.output, p.input] == argv[20..];
    assert argv == argv[..4] + argv[4..12] + argv[12..20] + argv[20..];
  }

  datatype SignForm = SignForm(
    inputApk: JString, outputApk: JString, keystorePath: JString,
    keystorePassword: JString, keyAlias: JString, keyPassword: JString,
    v1: bool, v2: bool, v3: bool, v4: bool, useTestKey: bool)

  /** The test key replaces the form's key when asked for or when no keystore is given. */
  predicate UsesTestKey(f: SignForm)
  {
    f.useTestKey || IsBlank(f.keystorePath)
  }

  /** The output path: the form's when it is not blank, otherwise the input with every
      ".apk" replaced by "_signed.apk". */
  function SignedOutput(f: SignForm): JString
    requires !IsBlank(f.inputApk)
  {
    if IsBlank(f.outputApk) then Str(Replace(f.inputApk.value, ".apk", "_signed.apk")) else f.outputApk
  }

  const UsingTestKeyNote: string := "\U{1F511} Using test key for signing"

  function SignApk(env: SignerEnv, f: SignForm): (r: Request)
    ensures r.Rejected? <==> IsBlank(f.inputApk) || (UsesTestKey(f) && env.testKeystore.Null?)
    ensures IsBlank(f.inputApk) ==> r == Rejected("Please select an APK file to sign.")
    ensures !IsBlank(f.inputApk) && r.Rejected? ==> r.message == "Failed to create test keystore."
    ensures r.Submitted? ==>
      && r.cmd.status == "Signing APK..." && !r.cmd.hasSink
      && r.notes == (if UsesTestKey(f) then [UsingTestKeyNote] else [])
      && var p := ParseSign(r.cmd.argv);
         && p.Some?
         && p.value.javaPath == env.javaPath && p.value.signerPath == env.signerPath
         && p.value.v1 == f.v1 && p.value.v2 == f.v2 && p.value.v3 == f.v3 && p.value.v4 == f.v4
         && p.value.input == f.inputApk
         && p.value.output == SignedOutput(f)
         && (UsesTestKey(f) ==>
               && p.value.keystore == env.testKeystore
               && p.value.keystorePassword == TestKeystorePassword
               && p.value.keyAlias == Str(TestKeyAlias)
               && p.value.keyPassword == TestKeyPassword)
         && (!UsesTestKey(f) ==>
               && p.value.keystore == f.keystorePath
               && p.value.keystorePassword == Show(f.keystorePassword)
               && p.value.keyAlias == f.keyAlias
               && p.value.keyPassword == Show(f.keyPassword))
  {
    if IsBlank(f.inputApk) then Rejected("Please select an APK file to sign.")
    else if UsesTestKey(f) && env.testKeystore.Null? then Rejected("Failed to create test keystore.")
    else
      var test := UsesTestKey(f);
      var plan := SignPlan(
        env.javaPath, env.signerPath, f.v1, f.v2, f.v3, f.v4,
        if test then env.testKeystore else f.keystorePath,
        if test then TestKeystorePassword else Show(f.keystorePassword),
        if test then Str(TestKeyAlias) else f.keyAlias,
        if test then TestKeyPassword else Show(f.keyPassword),
        SignedOutput(f), f.inputApk);
      ParseSignArgv(plan);
      Submitted(if test then [UsingTestKeyNote] else [], Command(SignArgv(plan), "Signing APK...", false))
  }

  /** An input ending in its only ".apk" gets "_signed.apk" in its place when no output is given. */
  lemma SignedOutputOfPlainName(f: SignForm, stem: string)
    requires f.inputApk == Str(stem + ".apk") && !AllTrimmable(stem + ".apk") && IsBlank(f.outputApk)
    requires forall i :: 0 <= i < |stem| ==> !OccursAt(stem + ".apk", ".apk", i)
    ensures SignedOutput(f) == Str(stem + "_signed.apk")
  {
    ReplaceFinal(stem, ".apk", "_signed.apk");
  }

  /** quickSignWithTestKey: v1, v2 and v3 on, v4 off, always the test key. */
  function QuickSign(env: SignerEnv, inputApk: JString, outputApk: JString): (r: Request)
    ensures r == SignApk(env, SignForm(inputApk, outputApk, Null, Null, Null, Null, true, true, true, false, true))
    ensures r.Rejected? <==> IsBlank(inputApk) || env.testKeystore.Null?
    ensures r.Rejected? ==> r.message == (if IsBlank(inputApk) then "Please select an APK file to sign."
                                         else "Failed to create test keystore.")
    ensures r.Submitted? ==>
      && r.notes == [UsingTestKeyNote] && r.cmd.status == "Signing APK..." && !r.cmd.hasSink
      && var p := ParseSign(r.cmd.argv);
         && p.Some? && p.value.v1 && p.value.v2 && p.value.v3 && !p.value.v4
         && p.value.keystore == env.testKeystore && p.value.keyAlias == Str(TestKeyAlias)
         && p.value.keystorePassword == TestKeystorePassword && p.value.keyPassword == TestKeyPassword
         && p.value.input == inputApk
         && p.value.output == (if IsBlank(outputApk) then Str(Replace(inputApk.value, ".apk", "_signed.apk"))
                               else outputApk)
  {
    SignApk(env, SignForm(inputApk, outputApk, Null, Null, Null, Null, true, true, true, false, true))
  }

  /** With the test key in use, nothing the form says about a key reaches the command. */
  lemma TestKeyIgnoresFormKey(env: SignerEnv, f: SignForm, ks: JString, ksPass: JString, alias: JString,
        keyPass: JString)
    requires f.useTestKey
    ensures SignApk(env, f)
         == SignApk(env, f.(keystorePath := ks, keystorePassword := ksPass, keyAlias := alias, keyPassword := keyPass))
  {
    var g := f.(keystorePath := ks, keystorePassword := ksPass, keyAlias := alias, keyPassword := keyPass);
    assert UsesTestKey(g) && g.inputApk == f.inputApk && g.outputApk == f.outputApk;
    if !IsBlank(f.inputApk) {
      assert SignedOutput(g) == SignedOutput(f);
    }
  }

  // ---------------------------------------------------------------- verify

  const VerifyGrammar: seq<Slot> := [SwitchSlot("-v", []), SwitchSlot("--print-certs", [])]

  lemma VerifySwitchesReadBack(verbose: bool, printCerts: bool)
    ensures Decode(VerifyGrammar, Render(VerifyGrammar, [Toggle(verbose), Toggle(printCerts)]))
         == Some([SwitchReading(verbose), SwitchReading(printCerts)])
  {
    var fields := [Toggle(verbose), Toggle(printCerts)];
    DecodeRender(VerifyGrammar, fields);
    assert Readings(VerifyGrammar, fields) == [SwitchReading(verbose), SwitchReading(printCerts)];
  }

  function VerifyApk(env: SignerEnv, apkPath: JString, verbose: bool, printCerts: bool): (r: Request)
    ensures r.Rejected? <==> IsBlank(apkPath)
    ensures r.Rejected? ==> r.message == "Please select an APK file to verify."
    ensures r.Submitted? ==>
      && r.notes == [] && r.cmd.status == "Verifying APK signature..." && !r.cmd.hasSink
      && |r.cmd.argv| >= 5 && r.cmd.argv[..4] == SignerBase(env, "verify")
      && r.cmd.argv[|r.cmd.argv| - 1] == apkPath
      && Decode(VerifyGrammar, r.cmd.argv[4..|r.cmd.argv| - 1]) == Some([SwitchReading(verbose),
            SwitchReading(printCerts)])
  {
    if IsBlank(apkPath) then Rejected("Please select an APK file to verify.")
    else
      var fields := [Toggle(verbose), Toggle(printCerts)];
      var argv := SignerBase(env, "verify") + Render(VerifyGrammar, fields) + [apkPath];
      VerifySwitchesReadBack(verbose, printCerts);
      assert argv[4..|argv| - 1] == Render(VerifyGrammar, fields);
      Submitted([], Command(argv, "Verifying APK signature...", false))
  }

  // ---------------------------------------------------------------- version

  /** Reads a bare `<java> -jar <jar> <sub>` command back as its java path and jar path. */
  function ParseBase(argv: seq<JString>, sub: string): Option<(JString, string)>
  {
    if |argv| == 4 && argv[1] == Str("-jar") && argv[2].Str? && argv[3] == Str(sub)
    then Some((argv[0], argv[2].value))
    else None
  }

  /** The reader accepts nothing but bare commands: what it reads builds back the same argv. */
  lemma BaseOfParse(argv: seq<JString>, sub: string, testKeystore: JString)
    requires ParseBase(argv, sub).Some?
    ensures var (java, jar) := ParseBase(argv, sub).value;
      SignerBase(SignerEnv(java, jar, testKeystore), sub) == argv
  {
  }

  /** getVersion: never rejected, the "version" sub-command with nothing after it. */
  function GetVersion(env: SignerEnv): (r: Request)
    ensures r.Submitted? && r.notes == [] && !r.cmd.hasSink
    ensures r.cmd.status == "Getting apksigner version..."
    ensures |r.cmd.argv| == 4 && ParseBase(r.cmd.argv, "version") == Some((env.javaPath, env.signerPath))
  {
    Submitted([], Command(SignerBase(env, "version"), "Getting apksigner version...", false))
  }

  // ---------------------------------------------------------------- rotate

  /** Everything a lineage command says: the tool, and the old and new signer's keystore,
      keystore password and key alias. */
  datatype LineagePlan = LineagePlan(
    javaPath: JString, signerPath: string,
    oldKeystore: JString, oldPassword: string, oldAlias: JString,
    newKeystore: JString, newPassword: string, newAlias: JString)

  /** One signer of a lineage: its role flag, then keystore, keystore password and key alias. */
  function SignerArgs(role: string, keystore: JString, password: string, alias: JString): seq<JString>
  {
    [Str(role), Str("--ks"), keystore, Str("--ks-pass"), PassArg(password), Str("--ks-key-alias"), alias]
  }

  function ParseSignerArgs(role: string, w: seq<JString>): Option<(JString, string, JString)>
  {
    if |w| != 7 || w[0] != Str(role) || w[1] != Str("--ks") || w[3] != Str("--ks-pass") || w[5] != Str("--ks-key-alias")
    then None
    else
      var pass := ParsePass(w[4]);
      if pass.None? then None else Some((w[2], pass.value, w[6]))
  }

  lemma ParseSignerArgsOf(role: string, ks: JString, password: string, alias: JString)
    ensures ParseSignerArgs(role, SignerArgs(role, ks, password, alias)) == Some((ks, password, alias))
  {
    ParsePassArg(password);
  }

  lemma SignerArgsOfParse(role: string, w: seq<JString>)
    requires ParseSignerArgs(role, w).Some?
    ensures var (ks, password, alias) := ParseSignerArgs(role, w).value; SignerArgs(role, ks, password, alias) == w
  {
    ParsedPassIsArg(w[4]);
  }

  function LineageArgv(p: LineagePlan): seq<JString>
  {
    [p.javaPath, Str("-jar"), Str(p.signerPath), Str("lineage")]
    + SignerArgs("--old-signer", p.oldKeystore, p.oldPassword, p.oldAlias)
    + SignerArgs("--new-signer", p.newKeystore, p.newPassword, p.newAlias)
  }

  function ParseLineage(argv: seq<JString>): Option<LineagePlan>
  {
    if |argv| != 18 || !argv[2].Str? || argv[1] != Str("-jar") || argv[3] != Str("lineage") then None
    else
      var oldSigner, newSigner := ParseSignerArgs("--old-signer",
            argv[4..11]), ParseSignerArgs("--new-signer", argv[11..]);
      if oldSigner.None? || newSigner.None? then None
      else
        var (oldKs, oldPass, oldAlias) := oldSigner.value;
        var (newKs, newPass, newAlias) := newSigner.value;
        Some(LineagePlan(argv[0], argv[2].value, oldKs, oldPass, oldAlias, newKs, newPass, newAlias))
  }

  lemma ParseLineageArgv(p: LineagePlan)
    ensures ParseLineage(LineageArgv(p)) == Some(p)
  {
    var argv := LineageArgv(p);
    assert argv[4..11] == SignerArgs("--old-signer", p.oldKeystore, p.oldPassword, p.oldAlias);
    assert argv[11..] == SignerArgs("--new-signer", p.newKeystore, p.newPassword, p.newAlias);
    ParseSignerArgsOf("--old-signer", p.oldKeystore, p.oldPassword, p.oldAlias);
    ParseSignerArgsOf("--new-signer", p.newKeystore, p.newPassword, p.newAlias);
  }

  lemma LineageArgvOfParse(argv: seq<JString>)
    requires ParseLineage(argv).Some?
    ensures LineageArgv(ParseLineage(argv).value) == argv
  {
    SignerArgsOfParse("--old-signer", argv[4..11]);
    SignerArgsOfParse("--new-signer", argv[11..]);
    assert argv == argv[..4] + argv[4..11] + argv[11..];
  }

  datatype RotateForm = RotateForm(
    inputApk: JString, outputApk: JString,
    oldKsPath: JString, oldKsPass: JString, oldAlias: JString, oldKeyPass: JString,
    newKsPath: JString, newKsPass: JString, newAlias: JString, newKeyPass: JString)

  const LineageNote: string := "\U{1F504} Creating signing certificate lineage..."

  /** The keystore paths are only checked for null: an empty path passes. */
  function RotateSigningKey(env: SignerEnv, f: RotateForm): (r: Request)
    ensures r.Rejected? <==> IsBlank(f.inputApk) || f.oldKsPath.Null? || f.newKsPath.Null?
    ensures IsBlank(f.inputApk) ==> r == Rejected("Please select an APK file.")
    ensures !IsBlank(f.inputApk) && r.Rejected? ==> r.message == "Both old and new keystores are required for key rotation."
    ensures r.Submitted? ==>
      && r.notes == [LineageNote] && r.cmd.status == "Rotating signing key..." && !r.cmd.hasSink
      && ParseLineage(r.cmd.argv) == Some(LineagePlan(env.javaPath, env.signerPath,
           f.oldKsPath, Show(f.oldKsPass), f.oldAlias, f.newKsPath, Show(f.newKsPass), f.newAlias))
  {
    if IsBlank(f.inputApk) then Rejected("Please select an APK file.")
    else if f.oldKsPath.Null? || f.newKsPath.Null? then Rejected("Both old and new keystores are required for key rotation.")
    else
      var plan := LineagePlan(env.javaPath, env.signerPath,
        f.oldKsPath, Show(f.oldKsPass), f.oldAlias, f.newKsPath, Show(f.newKsPass), f.newAlias);
      ParseLineageArgv(plan);
      Submitted([LineageNote], Command(LineageArgv(plan), "Rotating signing key...", false))
  }

  /** The output path and both key passwords are accepted but never used, and the input
      APK is only checked: none of them reaches the command. */
  lemma RotateIgnoresUnusedFields(env: SignerEnv, f: RotateForm, input: JString, out: JString,
        oldKeyPass: JString, newKeyPass: JString)
    requires !IsBlank(f.inputApk) && !IsBlank(input)
    ensures RotateSigningKey(env, f)
         == RotateSigningKey(env, f.(inputApk := input, outputApk := out, oldKeyPass := oldKeyPass,
               newKeyPass := newKeyPass))
  {}
}
