# ApkTool-GUI front-end logic, modelled in Dafny

ApkTool-GUI is a JavaFX front-end for Android tools: Apktool, APKEditor, apksigner, zipalign and adb.
Almost everything it does beyond drawing windows is sequential string work. It turns a form into an
argument vector, hands that to a single-threaded command executor, and reports what the process
printed. This project models that layer as pure functions over immutable data and proves what it
promises.

| file | module | what it models |
|---|---|---|
| `java_lang.dfy` | `JavaLang` | Java `String` references that may be null, `trim`-based blankness (`StringUtils`), `String.join`, `String.replace`, `String.repeat`, and decimal rendering of an `int` |
| `commands.dfy` | `Commands` | The `Command` handed to the executor and the `Request` a form handler produces (rejected with an error, or submitted). Also the shared flag rule: `addOptional` emits a pair only for a non-blank value, and a boolean flag is emitted only when set. Each builder is a grammar of slots filled with form values, and `Decode` reads an argv back against the grammar. |
| `apk_editor.dfy` | `ApkEditor` | The seven `ApkEditorService` actions (decompile, build, merge, advanced merge, refactor, protect, info) with their guards and argv |
| `apk_signer.dfy` | `ApkSigner` | The `ApkSignerService` actions (sign, quick-sign, verify, version, key rotation). The sign and rotation argvs each have a reader, with the round trip proved in both directions. The verify and version argvs are read back one way only. |
| `command_executor.dfy` | `Executor` | `CommandExecutor` as a pure transcript. It maps the observers present, the command, the printed lines and the outcome to the ordered events the status handler, the log and the per-command sink see. A queue of commands gives the concatenation of their transcripts. |
| `zip_align.dfy` | `ZipAlign` | `ZipAlignService.alighApk`, and the older `Zipalign` class together with its own copy of the executor, compared event by event with `CommandExecutor` |
| `ui_paths.dfy` | `UiPaths` | `java.io.File` name and parent on a Unix-like system, and `UiUtils.getDefaultOutputPath` |
| `apktool_gui.dfy` | `ApktoolGui` | The decompile and recompile option summaries, and the Decompile and Build button handlers with their defaults |
| `adb_tab.dfy` | `AdbTab` | Re-selecting the device after a refresh, and the guards, echo and service calls of the install, pull, dump, uninstall and shell handlers |

Tool locations and the test keystore are parameters: the editor jar path, the signer's `SignerEnv`
and the zipalign path. The source finds them through settings and file-system lookups.

Two behaviours of the code are easy to misread, and the model follows the code in both:

- **Success output.** A successful exit sends nothing to the per-command sink. Only the `[ERROR]`
  and `[EXCEPTION]` markers reach it (CommandExecutor.java lines 74-82 and 94). The model keeps
  this asymmetry; see `Executor.TranscriptSink`.
- **Shutdown.** `shutdown` calls `shutdownNow`, so a later `executeCommand` makes `submit` throw
  `RejectedExecutionException` instead of being silently dropped. Shutdown is outside the model;
  see "Left out".

## Model

| member | source | states |
|---|---|---|
| `JavaLang.IsBlank` | src/main/java/org/apkutility/app/utils/StringUtils.java:8-10 | A string is blank exactly when it is null or every character is at most U+0020, the characters `trim` removes. |
| `JavaLang.NotBlank` | src/main/java/org/apkutility/app/utils/StringUtils.java:12-14 | `notBlank` is the negation of `isBlank` for every input, null included. A non-blank string has a character above U+0020. |
| `JavaLang.Trim` | src/main/java/org/apkutility/app/utils/StringUtils.java:9 | `trim` yields the empty string exactly when every character is trimmable. Otherwise its first and last characters are both visible. |
| `JavaLang.TrimBothEnds` | src/main/java/org/apkutility/app/utils/StringUtils.java:9 | Trimming the front and then the back has the same emptiness and end-character properties as `trim`. |
| `JavaLang.HasVisibleNotAllTrimmable` | src/main/java/org/apkutility/app/utils/StringUtils.java:13 | The recursive "has a visible character" test agrees with "not every character is trimmable", in both directions. |
| `JavaLang.NotBlankIsVisible` | src/main/java/org/apkutility/app/utils/StringUtils.java:12-14 | `notBlank` holds exactly for a non-null string with a visible character. |
| `JavaLang.IntToStringRoundTrip` | src/main/java/org/codex/apktoolgui/services/executor/CommandExecutor.java:76-79 | The decimal rendering of an exit code, negative codes included, reads back as the same code. |
| `JavaLang.ReplaceFinal` | src/main/java/org/apkutility/app/services/ApkSignerService.java:132 | When the pattern occurs only at the end, `replace` swaps just that final occurrence. |
| `JavaLang.ReplaceEveryOccurrence` | src/main/java/org/apkutility/app/services/ApkSignerService.java:132 | `replace(".apk", "_signed.apk")` rewrites every occurrence: "a.apk.apk" becomes "a_signed.apk_signed.apk". |
| `Commands.AddOptional` | src/main/java/org/apkutility/app/services/ApkEditorService.java:184-186 | `addOptional` appends exactly the pair [flag, value] when the value is not blank. It appends nothing for a null or whitespace-only value. |
| `Commands.RenderStartsWithFlag` | src/main/java/org/apkutility/app/services/ApkEditorService.java:184-190 | Whatever a builder appends after its fixed prefix starts with one of its own flags, never with a bare value. |
| `Commands.ReadSlotEmit` | src/main/java/org/apkutility/app/services/ApkEditorService.java:184-190 | Reading back the words one slot contributed gives what the form said for that slot and consumes exactly those words. |
| `Commands.DecodeRender` | src/main/java/org/apkutility/app/services/ApkEditorService.java:184-190 | If a builder's flags are pairwise distinct, decoding its argv recovers every slot: the value of each non-blank optional, and whether each boolean flag was set. |
| `Commands.UnambiguousConcat` | src/main/java/org/apkutility/app/services/ApkEditorService.java:139-170 | Two flag lists, each with distinct flags and sharing no flag, can be appended one after the other without ambiguity. |
| `ApkEditor.EditorCommand` | src/main/java/org/apkutility/app/services/ApkEditorService.java:175-182 | Every editor command starts with `java -jar <editor jar> <sub> -i <input>`. It carries the action's status and no notes. |
| `ApkEditor.EditorAction` | src/main/java/org/apkutility/app/services/ApkEditorService.java:192-198 | An action is refused exactly when its input is null or whitespace-only, with the action's message and no command. Otherwise exactly its editor command is submitted. |
| `ApkEditor.EditorReadsBack` | src/main/java/org/apkutility/app/services/ApkEditorService.java:175-190 | After the six fixed words, an editor argv decodes to the form's readings. |
| `ApkEditor.EditorArgvEnds` | src/main/java/org/apkutility/app/services/ApkEditorService.java:175-182 | When the options contribute a single word, the argv is exactly the fixed prefix followed by that word. |
| `ApkEditor.Decompile` | src/main/java/org/apkutility/app/services/ApkEditorService.java:37-47 | A blank APK path is refused with "Please select an APK file to decompile.". Otherwise `d -i <apk>` is submitted with "Decompiling APK..." and no sink. |
| `ApkEditor.DecompileReadsBack` | src/main/java/org/apkutility/app/services/ApkEditorService.java:40-44 | In order after the prefix: the `-o` pair only for a non-blank output, `-t xml` exactly when decompiling to XML, `-load-dex 3` exactly when loading dex, then the `-dex-lib` pair. |
| `ApkEditor.Build` | src/main/java/org/apkutility/app/services/ApkEditorService.java:49-61 | A blank directory is refused with "Please select a decompiled directory to build.". Otherwise `b -i <dir>` is submitted with "Building APK...". |
| `ApkEditor.BuildReadsBack` | src/main/java/org/apkutility/app/services/ApkEditorService.java:55-58 | The `-o` pair, `-t xml` exactly when building from XML, then the `-dex-lib` pair. |
| `ApkEditor.Merge` | src/main/java/org/apkutility/app/services/ApkEditorService.java:63-72 | A blank input is refused with "Please select input for merging.". Otherwise `m -i <input>` is submitted with "Merging APKs...". |
| `ApkEditor.MergeReadsBack` | src/main/java/org/apkutility/app/services/ApkEditorService.java:69-70 | Only the `-o` pair follows the prefix. |
| `ApkEditor.MergeAdvanced` | src/main/java/org/apkutility/app/services/ApkEditorService.java:74-92 | The same guard and message as the plain merge. Otherwise `m -i <input>` is submitted with "Merging APKs...". |
| `ApkEditor.MergeAdvancedReadsBack` | src/main/java/org/apkutility/app/services/ApkEditorService.java:81-89 | The `-o`, `-res-dir` and `-extractNativeLibs` pairs come first. Then `-clean-meta`, `-f`, `-validate-modules` and `-vrd` follow in that order, each exactly when its box is set. |
| `ApkEditor.Refactor` | src/main/java/org/apkutility/app/services/ApkEditorService.java:94-107 | A blank APK is refused with "Please select an APK file to refactor.". Otherwise `x -i <apk>` is submitted with "Refactoring APK...". |
| `ApkEditor.RefactorReadsBack` | src/main/java/org/apkutility/app/services/ApkEditorService.java:98-104 | The `-o` and `-public-xml` pairs, then `-clean-meta`, `-f` and `-fix-types`, each exactly when set. |
| `ApkEditor.RefactorForceWithoutOutput` | src/main/java/org/apkutility/app/services/ApkEditorService.java:98-104 | With a whitespace-only output and only force set, the argv is exactly `java -jar <jar> x -i <apk> -f`. The output produces no `-o`. |
| `ApkEditor.Protect` | src/main/java/org/apkutility/app/services/ApkEditorService.java:109-125 | A blank APK is refused with "Please select an APK file to protect.". Otherwise `p -i <apk>` is submitted with "Protecting APK...". |
| `ApkEditor.ProtectReadsBack` | src/main/java/org/apkutility/app/services/ApkEditorService.java:114-122 | Four optional pairs (`-o`, `-keep-type`, `-dic-dir-names`, `-dic-file-names`), then `-confuse-zip`, `-f` and `-skip-manifest`, each exactly when set. |
| `ApkEditor.GetInfo` | src/main/java/org/apkutility/app/services/ApkEditorService.java:127-173 | A blank APK is refused with "Please select an APK file to get information.". Otherwise `info -i <apk>` is submitted with "Getting APK information...". It is the one editor command that forwards the caller's output consumer. |
| `ApkEditor.InfoGrammarUnambiguous` | src/main/java/org/apkutility/app/services/ApkEditorService.java:140-170 | The 8 optional flags and 22 boolean flags of the info command are pairwise distinct. |
| `ApkEditor.GetInfoReadsBack` | src/main/java/org/apkutility/app/services/ApkEditorService.java:139-170 | All eight optional pairs come first, in source order. Then each of the 22 boolean flags appears, in source order, exactly when its box is set. |
| `ApkSigner.ParseBoolText` | src/main/java/org/apkutility/app/services/ApkSignerService.java:137 | `String.valueOf(boolean)` reads back as the same boolean. |
| `ApkSigner.ParsePassArg` | src/main/java/org/apkutility/app/services/ApkSignerService.java:222 | A `pass:`-prefixed password reads back as the password. |
| `ApkSigner.ParsedPassIsArg` | src/main/java/org/apkutility/app/services/ApkSignerService.java:226 | Every word read as a password is exactly `pass:` followed by it. |
| `ApkSigner.ParseSchemeArgs` | src/main/java/org/apkutility/app/services/ApkSignerService.java:136-143 | The four `--vN-signing-enabled` pairs read back as the four scheme switches. |
| `ApkSigner.SchemeArgsOfParse` | src/main/java/org/apkutility/app/services/ApkSignerService.java:136-143 | Every eight words read as scheme switches are exactly those switches' pairs. |
| `ApkSigner.ParseKeystoreArgsOf` | src/main/java/org/apkutility/app/services/ApkSignerService.java:218-227 | `--ks`, `--ks-pass pass:`, `--ks-key-alias` and `--key-pass pass:` read back as the keystore, both passwords and the alias. |
| `ApkSigner.KeystoreArgsOfParse` | src/main/java/org/apkutility/app/services/ApkSignerService.java:218-227 | Every eight words read as keystore arguments are exactly what addKeystoreArgs builds from them. |
| `ApkSigner.ParseSignArgv` | src/main/java/org/apkutility/app/services/ApkSignerService.java:135-147 | Reading a sign argv back recovers everything it was built from: tool, schemes, key, output and input. |
| `ApkSigner.SignArgvOfParse` | src/main/java/org/apkutility/app/services/ApkSignerService.java:135-147 | Every argv the sign reader accepts is exactly the one built from what it reads. The layout is base, schemes, key, `--out` and output, with the input last. |
| `ApkSigner.SignApk` | src/main/java/org/apkutility/app/services/ApkSignerService.java:110-150 | A blank input is refused with "Please select an APK file to sign."; the test key is used when asked for or when the keystore is blank, and a missing test keystore is refused. Otherwise the submitted argv carries the schemes as given, the test key's "android"/"androiddebugkey"/"android" or the form's key with `pass:` passwords, the defaulted output, and the input last. |
| `ApkSigner.SignedOutputOfPlainName` | src/main/java/org/apkutility/app/services/ApkSignerService.java:131-133 | With a blank output and an input ending in its only ".apk", the output is the input with "_signed.apk" in place of ".apk". |
| `ApkSigner.TestKeyIgnoresFormKey` | src/main/java/org/apkutility/app/services/ApkSignerService.java:119-128 | With the test key chosen, nothing the form says about a keystore, alias or password changes what is submitted. |
| `ApkSigner.QuickSign` | src/main/java/org/apkutility/app/services/ApkSignerService.java:152-154 | Quick signing is `signApk` with no form key, v1, v2 and v3 on, v4 off and the test key. It is refused only for a blank input ("Please select an APK file to sign.") or a missing test keystore ("Failed to create test keystore."). Otherwise it signs with the test key, the given output or the `_signed.apk` name, status "Signing APK..." and no sink. |
| `ApkSigner.VerifySwitchesReadBack` | src/main/java/org/apkutility/app/services/ApkSignerService.java:163-164 | `-v` appears exactly when verbose and `--print-certs` exactly when printing certificates, in that order. |
| `ApkSigner.VerifyApk` | src/main/java/org/apkutility/app/services/ApkSignerService.java:156-168 | A blank path is refused with "Please select an APK file to verify.". Otherwise the argv is `<java> -jar <signer> verify`, the switches read back as asked, and the APK path is last. |
| `ApkSigner.GetVersion` | src/main/java/org/apkutility/app/services/ApkSignerService.java:170-172 | The version command is never refused. It has exactly four words and reads back as the configured java path, the apksigner jar path and the sub-command "version". It carries "Getting apksigner version..." and no sink. |
| `ApkSigner.BaseOfParse` | src/main/java/org/apkutility/app/services/ApkSignerService.java:170-172 | Any argv the base-command reader accepts is the base command built from what it read. |
| `ApkSigner.ParseSignerArgsOf` | src/main/java/org/apkutility/app/services/ApkSignerService.java:191-197 | A signer block (`--old-signer` or `--new-signer`, then `--ks`, `--ks-pass pass:` and `--ks-key-alias`) reads back as its keystore, password and alias. |
| `ApkSigner.SignerArgsOfParse` | src/main/java/org/apkutility/app/services/ApkSignerService.java:198-204 | Every block the signer reader accepts is exactly the one built from what it reads. |
| `ApkSigner.ParseLineageArgv` | src/main/java/org/apkutility/app/services/ApkSignerService.java:190-204 | A lineage argv reads back as the old and new signers it was built from. |
| `ApkSigner.LineageArgvOfParse` | src/main/java/org/apkutility/app/services/ApkSignerService.java:190-204 | Every argv the lineage reader accepts is exactly the one built from what it reads. |
| `ApkSigner.RotateSigningKey` | src/main/java/org/apkutility/app/services/ApkSignerService.java:174-207 | A blank input is refused with "Please select an APK file.". A null old or new keystore, but not a blank one, is refused with "Both old and new keystores are required for key rotation.". Otherwise the lineage command for the two signers is submitted. |
| `ApkSigner.RotateIgnoresUnusedFields` | src/main/java/org/apkutility/app/services/ApkSignerService.java:174-207 | Beyond passing the blank check, the input APK, the output APK and both key passwords do not affect the rotation command. |
| `Executor.FailedStatusNamesCode` | src/main/java/org/codex/apktoolgui/services/executor/CommandExecutor.java:79 | The failure status is "Command failed with exit code: " followed by text that reads back as the exit code. |
| `Executor.AnnounceWritten` | src/main/java/org/codex/apktoolgui/services/executor/CommandExecutor.java:37-39 | The announce writes only the echo "> " + argv joined by spaces + "\n", only to the log, and only when there is a log. |
| `Executor.AnnounceStatusView` | src/main/java/org/codex/apktoolgui/services/executor/CommandExecutor.java:32-36 | The status handler first sees progress shown, progress indeterminate, then the command's label. |
| `Executor.StreamWritten` | src/main/java/org/codex/apktoolgui/services/executor/CommandExecutor.java:49-54 | Each channel that has a receiver gets every printed line, in order, each followed by "\n". |
| `Executor.StreamStatusView` | src/main/java/org/codex/apktoolgui/services/executor/CommandExecutor.java:49-54 | Printed lines never touch the status handler. |
| `Executor.FinishWritten` | src/main/java/org/codex/apktoolgui/services/executor/CommandExecutor.java:71-96 | The log gets the success or error marker plus the 80-'=' separator after an exit, and the exception marker with no separator after an exception. The sink gets nothing on success and the marker otherwise. |
| `Executor.FinishStatusView` | src/main/java/org/codex/apktoolgui/services/executor/CommandExecutor.java:71-92 | Every ending hides the progress once, then sets the final status: success, "Command failed with exit code: N", or "Error executing command". |
| `Executor.TranscriptLog` | src/main/java/org/codex/apktoolgui/services/executor/CommandExecutor.java:29-96 | For one command, the log shows the echo, the output lines and the ending, and nothing when the log is null. |
| `Executor.TranscriptSink` | src/main/java/org/codex/apktoolgui/services/executor/CommandExecutor.java:29-96 | For one command, the sink receives the output lines and then only a failure marker, and nothing when there is no sink. |
| `Executor.TranscriptStatus` | src/main/java/org/codex/apktoolgui/services/executor/CommandExecutor.java:29-96 | The status handler sees exactly five events per command: shown, indeterminate, label, hidden, final status. A null handler sees nothing. |
| `Executor.TranscriptNullReceivers` | src/main/java/org/codex/apktoolgui/services/executor/CommandExecutor.java:29-96 | Removing any receivers removes exactly their events. What the remaining receivers see is unchanged. |
| `Executor.ExecuteConcat` | src/main/java/org/codex/apktoolgui/services/executor/CommandExecutor.java:16-30 | On the single worker, running two queues in turn is the same as running their concatenation. |
| `Executor.ExecuteLog` | src/main/java/org/codex/apktoolgui/services/executor/CommandExecutor.java:25-65 | A queue's log is each command's echo, output and ending, in submission order. |
| `Executor.ExecuteStatus` | src/main/java/org/codex/apktoolgui/services/executor/CommandExecutor.java:25-65 | A queue's status view is each command's five-event cycle, in submission order. |
| `Executor.StatusCyclesBlock` | src/main/java/org/codex/apktoolgui/services/executor/CommandExecutor.java:71-96 | The k-th block of five status events belongs to the k-th command and ends in its final status. Each command is finished exactly once. |
| `Executor.LastStatus` | src/main/java/org/codex/apktoolgui/services/executor/CommandExecutor.java:71-92 | After a queue, the status handler is left with the last command's final status. |
| `ZipAlign.AlignApk` | src/main/java/org/codex/apktoolgui/services/ZipAlignService.java:25-33 | The argv is exactly tool, "-v", "4", input, output, with no validation. It is submitted with "Aligning APK..." and no sink. |
| `ZipAlign.AlignArgvOfParse` | src/main/java/org/codex/apktoolgui/services/ZipAlignService.java:25-31 | Every five-word argv with "-v" and "4" in second and third place is the service's argv for the tool, input and output it names. |
| `ZipAlign.LegacyAlignArgv` | src/main/java/org/codex/apktoolgui/Zipalign.java:12-22 | The older builder's argv has the same shape, with the tool "zipalign". |
| `ZipAlign.LegacyAlignIsService` | src/main/java/org/codex/apktoolgui/Zipalign.java:14-22 | The older builder is the service's builder with the tool path fixed to "zipalign". |
| `ZipAlign.LegacyEchoLine` | src/main/java/org/codex/apktoolgui/Zipalign.java:31 | The older echo is the executor's echo followed by one more "\n". |
| `ZipAlign.LegacyStreamIsStream` | src/main/java/org/codex/apktoolgui/Zipalign.java:42-45 | The older copy streams lines exactly as the executor does with a log and no sink. |
| `ZipAlign.LegacyFinishIsFinish` | src/main/java/org/codex/apktoolgui/Zipalign.java:50-68 | The older copy's completion and exception handling match the executor's with every receiver present and no sink. |
| `ZipAlign.LegacyDiffersOnlyInEcho` | src/main/java/org/codex/apktoolgui/Zipalign.java:25-71 | The older copy's transcript has the executor's length and differs from it only in the fourth event, the echo. |
| `ZipAlign.LegacyLog` | src/main/java/org/codex/apktoolgui/Zipalign.java:25-71 | The output area shows the echo and an empty line, every printed line, the marker, and the separator after an exit but not after an exception. |
| `ZipAlign.LegacyStatus` | src/main/java/org/codex/apktoolgui/Zipalign.java:25-71 | The progress bar and status label go through the executor's five-event cycle. |
| `UiPaths.LastIndexOf` | src/main/java/org/codex/apktoolgui/utils/UiUtils.java:50-51 | `lastIndexOf` returns the last position holding the character, or -1 when there is none. |
| `UiPaths.NormalizeIdempotent` | src/main/java/org/codex/apktoolgui/utils/UiUtils.java:48 | The path a `File` holds is already normal: normalising it again changes nothing. |
| `UiPaths.NameParentSplit` | src/main/java/org/codex/apktoolgui/utils/UiUtils.java:48-52 | `getName` holds no separator. Putting `getParent` back in front of it gives the path the `File` holds; without a parent the path is the name itself, or the root. |
| `UiPaths.SplitAtLastDot` | src/main/java/org/codex/apktoolgui/utils/UiUtils.java:50-51 | The base and extension put back together give the name. The extension starts at the last '.' and holds no other '.'. There is no split exactly when the name has no '.'. |
| `UiPaths.NameSplitPoint` | src/main/java/org/codex/apktoolgui/utils/UiUtils.java:50-51 | "a.b.apk" splits into base "a.b" and extension ".apk". |
| `UiPaths.SplitFindsExtension` | src/main/java/org/codex/apktoolgui/utils/UiUtils.java:50-51 | Any base followed by a single-dot extension splits back into that base and extension. |
| `UiPaths.DefaultOutputPath` | src/main/java/org/codex/apktoolgui/utils/UiUtils.java:47-53 | The result is the parent, the separator, the base, the suffix, then the extension. A null input throws, and so does a file name without '.'. |
| `UiPaths.DefaultOutputPathKeepsExtension` | src/main/java/org/codex/apktoolgui/utils/UiUtils.java:51-52 | The result ends with the original extension, dot included, immediately preceded by the suffix. |
| `UiPaths.EmptySuffixKeepsName` | src/main/java/org/codex/apktoolgui/utils/UiUtils.java:50-52 | With an empty suffix the file name comes back whole, so base + extension is the name. |
| `UiPaths.EmptySuffixRoundTrip` | src/main/java/org/codex/apktoolgui/utils/UiUtils.java:47-53 | With an empty suffix and a parent other than the root, the result is the input path itself, normalised. |
| `UiPaths.SuffixBeforeLastDot` | src/main/java/org/codex/apktoolgui/utils/UiUtils.java:47-53 | For `dir/base.ext` the result is `dir/base<suffix>.ext`. |
| `UiPaths.NoDirectoryGivesNullPrefix` | src/main/java/org/codex/apktoolgui/utils/UiUtils.java:52 | For a bare file name, `getParent` is null, so the result starts with "null/". |
| `UiPaths.ChildParts` | src/main/java/org/codex/apktoolgui/ApktoolGUI.java:471 | A directory joined with a name by one separator is a normal path whose name and parent are that name and that directory. |
| `ApktoolGui.CountTrueIsMultiplicity` | src/main/java/org/codex/apktoolgui/ApktoolGUI.java:760-769 | The `selectedCount++` chain counts exactly the options that are set. |
| `ApktoolGui.CountTrueZero` | src/main/java/org/codex/apktoolgui/ApktoolGUI.java:771 | The count is zero exactly when no option is set. |
| `ApktoolGui.SelectedOnlySet` | src/main/java/org/codex/apktoolgui/ApktoolGUI.java:777-781 | Only the labels of options that are set are listed. |
| `ApktoolGui.SelectedExactly` | src/main/java/org/codex/apktoolgui/ApktoolGUI.java:777-781 | With distinct labels, a label is listed exactly when its option is set. |
| `ApktoolGui.SelectedCount` | src/main/java/org/codex/apktoolgui/ApktoolGUI.java:777-781 | As many labels are listed as options are set. |
| `ApktoolGui.Summary` | src/main/java/org/codex/apktoolgui/ApktoolGUI.java:771-774 | With nothing set, the summary is exactly the default sentence. Otherwise it differs from it and starts with "<count> <kind> option(s) configured: ". |
| `ApktoolGui.SummaryCountReadsBack` | src/main/java/org/codex/apktoolgui/ApktoolGUI.java:774 | The summary's leading digits, up to the first space, read back as the number of options set. |
| `ApktoolGui.SummaryIgnoresDetailsWhenDefault` | src/main/java/org/codex/apktoolgui/ApktoolGUI.java:771-772 | With nothing set, the details (API, threads, custom paths) make no difference. |
| `ApktoolGui.SplitJoin` | src/main/java/org/codex/apktoolgui/ApktoolGUI.java:783-785 | Splitting at ", " gives back the labels that `String.join(", ", ...)` joined, when no label has a comma. |
| `ApktoolGui.SummaryNamesRead` | src/main/java/org/codex/apktoolgui/ApktoolGUI.java:773-785 | With something set, the text after the header's ": " and before the first bar-separated detail lists exactly the labels of the set options, in order, joined by ", ". This holds for labels with no comma and no bar, and for details that are empty or open with a bar separator. |
| `ApktoolGui.DefaultSummaryNames` | src/main/java/org/codex/apktoolgui/ApktoolGUI.java:771-772 | The default sentence lists no option. |
| `ApktoolGui.SummaryEndsWithDetails` | src/main/java/org/codex/apktoolgui/ApktoolGUI.java:787-793 | With something set, the details are appended after the named options. |
| `ApktoolGui.ApiDetail` | src/main/java/org/codex/apktoolgui/ApktoolGUI.java:788-790 | The API-level detail is present exactly when the API level is non-empty. |
| `ApktoolGui.ThreadsDetail` | src/main/java/org/codex/apktoolgui/ApktoolGUI.java:791-793 | The threads detail is absent exactly when the job count is "1". |
| `ApktoolGui.DecompileNoneSelected` | src/main/java/org/codex/apktoolgui/ApktoolGUI.java:760-771 | The decompile count is zero exactly when none of the nine decompile options is set. |
| `ApktoolGui.DecompileSummary` | src/main/java/org/codex/apktoolgui/ApktoolGUI.java:756-798 | The decompile summary is "Using default decompile options" exactly when none of the nine options is set. The names it lists between the header and the details are exactly the labels of the set named options, in order. |
| `ApktoolGui.DecompileDefaultIgnoresApiAndJobs` | src/main/java/org/codex/apktoolgui/ApktoolGUI.java:771-772 | With nothing set, neither the API level nor the job count shows in the summary. |
| `ApktoolGui.DecompileDetailsAtEnd` | src/main/java/org/codex/apktoolgui/ApktoolGUI.java:788-793 | With something set, the API and threads details come last, in that order. |
| `ApktoolGui.DecompileNamesExactly` | src/main/java/org/codex/apktoolgui/ApktoolGUI.java:777-781 | The summary text names "No Resources", "No Sources", "Force" and "Only Manifest", in that order, each exactly when its option is set. With nothing set it names none. |
| `ApktoolGui.CustomPathDetails` | src/main/java/org/codex/apktoolgui/ApktoolGUI.java:830-835 | The custom-path details are empty exactly when both the aapt and the framework paths are empty. |
| `ApktoolGui.RecompileNoneSelected` | src/main/java/org/codex/apktoolgui/ApktoolGUI.java:804-813 | The recompile count is zero exactly when none of the seven recompile options is set. |
| `ApktoolGui.RecompileSummary` | src/main/java/org/codex/apktoolgui/ApktoolGUI.java:800-840 | The recompile summary is "Using default recompile options" exactly when none of the seven options is set. The names it lists between the header and the details are exactly the labels of the set named options, in order. |
| `ApktoolGui.RecompileDetailsAtEnd` | src/main/java/org/codex/apktoolgui/ApktoolGUI.java:829-835 | With something set, the "Custom AAPT" and "Custom Framework" details come last, in that order. |
| `ApktoolGui.RecompileNamesExactly` | src/main/java/org/codex/apktoolgui/ApktoolGUI.java:819-823 | The summary text names "Debug", "Copy Original", "Force" and "AAPT1", in that order, each exactly when its option is set. With nothing set it names none. |
| `ApktoolGui.OnDecodeClicked` | src/main/java/org/codex/apktoolgui/ApktoolGUI.java:364-374 | A blank APK path only shows "Please select an APK file first.". Otherwise decoding runs on that path, an empty output becomes "apk.out", and, as executeDecompile does at line 847, an empty framework path becomes the words "framework path". Every other option is passed on unchanged. |
| `ApktoolGui.OnBuildClicked` | src/main/java/org/codex/apktoolgui/ApktoolGUI.java:461-473 | A blank project directory only shows "Please select a project directory first.". Otherwise building runs with the given output or, when it is empty, the default build output. |
| `ApktoolGui.ParentIsNormal` | src/main/java/org/codex/apktoolgui/ApktoolGUI.java:471 | A parent as `getParent` returns it is a non-empty normal path. |
| `ApktoolGui.BuildDefaultBesideProject` | src/main/java/org/codex/apktoolgui/ApktoolGUI.java:470-472 | The default build output is "output.apk" in a "dist" directory that sits next to the project directory, inside its parent, not inside the project. |
| `AdbTab.Refresh` | src/main/java/org/apkutility/app/views/tabs/AdbTab.java:229-242 | The items become the new list, in order. The previous device is kept exactly when it is non-null and still listed. Otherwise the first device is selected exactly when the list is non-empty. |
| `AdbTab.RefreshSelectsListed` | src/main/java/org/apkutility/app/views/tabs/AdbTab.java:233-238 | After a refresh a device is chosen exactly when the list is non-empty, and the chosen device is always one of the items. |
| `AdbTab.RefreshStable` | src/main/java/org/apkutility/app/views/tabs/AdbTab.java:235-238 | Refreshing again with the same list keeps the device the last refresh chose. |
| `AdbTab.WithDevice` | src/main/java/org/apkutility/app/views/tabs/AdbTab.java:130-134 | Install, dump and uninstall make their one call with the selected device, or show "Select a device" and call nothing. |
| `AdbTab.OnPull` | src/main/java/org/apkutility/app/views/tabs/AdbTab.java:156-165 | Pull checks the device first and then that the package field is not empty. The directory dialog opens only after both checks pass, and the pull is made only if a directory was chosen. |
| `AdbTab.OnShell` | src/main/java/org/apkutility/app/views/tabs/AdbTab.java:203-216 | An empty command does nothing. Otherwise the echo comes first and the field is cleared; then the command goes to the device, or, with none, "Error: No device selected." is shown. |
| `AdbTab.NoDeviceNoCall` | src/main/java/org/apkutility/app/views/tabs/AdbTab.java:130-216 | With no device selected, no handler calls the service. The buttons show "Select a device", and the shell terminal shows the echo and "Error: No device selected.". |
| `AdbTab.NoDeviceShell` | src/main/java/org/apkutility/app/views/tabs/AdbTab.java:208-215 | A non-empty shell command with no device makes no call. The terminal gets the echo line and then the error line. |
| `AdbTab.NoDeviceSessionNoCall` | src/main/java/org/apkutility/app/views/tabs/AdbTab.java:130-216 | With no device selected, no sequence of clicks and shell commands ever calls the device service. |
| `AdbTab.SessionCallsTargetSelection` | src/main/java/org/apkutility/app/views/tabs/AdbTab.java:130-216 | Over any sequence of events, every service call addresses the selected device, and there is at most one call per event. |
| `AdbTab.CallsTargetSelection` | src/main/java/org/apkutility/app/views/tabs/AdbTab.java:130-216 | Every handler makes at most one service call, always to the selected device. |
| `AdbTab.DeviceUnlocksButtons` | src/main/java/org/apkutility/app/views/tabs/AdbTab.java:168-180 | With a device selected, install, dump and uninstall each make exactly one call and show no error. |
| `AdbTab.RefreshUnlocksButtons` | src/main/java/org/apkutility/app/views/tabs/AdbTab.java:229-242 | After a refresh that lists some device, no handler reports "Select a device". |
| `AdbTab.IndexOf` | src/main/java/org/apkutility/app/views/tabs/AdbTab.java:208 | The first position of a character, or -1 when it does not occur. The echo reader uses it. |
| `AdbTab.EchoRoundTrip` | src/main/java/org/apkutility/app/views/tabs/AdbTab.java:208 | The echo line "> adb -s <device> shell <cmd>" reads back as the device and the command whenever the device name has no space. |
| `AdbTab.NullEchoReadsAsQuestionMark` | src/main/java/org/apkutility/app/views/tabs/AdbTab.java:208 | With no device, the echo names the device "?". |

## Left out

- Threading, marshalling and shutdown are not modelled: the `ExecutorService`, `Platform.runLater` and `shutdownNow`. After shutdown a later `submit` throws `RejectedExecutionException` rather than being dropped. The single worker is modelled only as running the queue in submission order.
- The legacy `Zipalign.executeCommand` submits to `ApktoolGUI.executor` (Zipalign.java line 26, ApktoolGUI.java line 28). That is a second single-thread worker, stopped with `shutdown` rather than `shutdownNow` (ApktoolGUI.java line 1363). Legacy commands are therefore not ordered with `CommandExecutor`'s, and the model states no ordering between the two queues.
- Process spawning and reading are not modelled: `ProcessBuilder`, `readLine` and `waitFor`. The printed lines and the exit code or exception are inputs (`Executor.Run`). `e.printStackTrace()` goes to the console and is not an observed event.
- Exit codes are unbounded integers. Java's `int` range plays no part in the rendered text.
- The progress value is a `double` in the source. The model has only "indeterminate" (`setProgress(-1)`) and visibility.
- Tool path discovery and settings are parameters: `getApkEditorPath`, `getApkSignerPath`, `getZipalighPath`, `getJavaPath` and `SettingsManager`.
- The test keystore is not created. `getOrCreateTestKeystore` writes files and runs keytool; its result, a path or null, is the `SignerEnv.testKeystore` parameter. The log lines it writes are left out.
- The log notes written before a command are kept as `Request.notes`, as the exact lines the source appends. Whether they reach the log before the command's own events depends on the UI thread and is not modelled.
- `Apktool.executeDecode` and `Apktool.executeBuild` (reached through `executeRecompile`) are not part of this model. The Decompile and Build buttons are modelled up to the call they make.
- JavaFX widgets, dialogs, file choosers, `MainView` and `ApkInfoTab` are left out. A text field's text is taken as non-null, and the directory dialog's answer is an input of the pull event.
- After a refresh with an empty list, the combo box's value is whatever JavaFX leaves after `clear`. The model records this as `Untouched`.
- The dump and shell handlers pass `appendTerminal` to the device service, and the service's later output is not modelled. Terminal text is the effects' text plus "\n", with the scrolling left out.
- `java.io.File` is modelled with Unix '/' semantics only: no Windows drive prefixes or backslashes.
- `ApkEditor.Decompile`, `ApkEditor.Build`, `ApkEditor.Merge`, `ApkEditor.MergeAdvanced`, `ApkEditor.Refactor`, `ApkEditor.Protect` and `ApkEditor.GetInfo`: each function's own contract fixes only the guard, the status and the six-word prefix. The options that follow are stated by the matching `ReadsBack` lemma.
