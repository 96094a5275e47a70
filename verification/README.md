# CrossplatformNob build script, modelled in Dafny

`nob.c` is a single-file build script. It compiles a small SDL3 application
for the host (native), for Android or for iOS. It first builds the static or
shared SDL library with CMake, then compiles and packages the application. A
`build/.config` file records the compiler and optimisation level of the last
successful build on any platform. The next native build compares its own
configuration against it and is skipped when nothing changed.

This project models that script as pure functions over a world, in ten modules:

- `Base`: string views (`sv_chop_by_delim`), `atoi`/`%d`, and the working-directory path model.
- `Options`: `Config` and `parse_config_from_args`.
- `Environment`: the `env` file (`parse_environment`).
- `ConfigStore`: `dump_config_to_file` and `load_config_from_file`.
- `Files`: the `allow_*` filters and `recursively_collect_files`.
- `Flags`: compiler command lines (`app_compiler`, `app_default_cmd`, `append_*`, `build_app_native`'s command).
- `World`: the filesystem, the working directory, the effect log, and fail-fast stage chains.
- `Sdl`: `build_sdl`, `build_sdl_android` and `build_sdl_ios`.
- `Apps`: the keystore, `build_app_native`, `build_app_android` and `build_app_ios`.
- `Planner`: `build_app_config`, `build_app_all_configs`, `build_clean_all` and `main`.

Each external command, copy, `mkdir` and file write is appended to the world's log as an `Action`. Whether it succeeds is decided by an `Oracle`, a function of the effect's position in the log and the action itself. So every property below holds for every behaviour of the tools. Only the write of `build/.config` changes the modelled filesystem.

Two details of the C code are kept as written:

- `build_app_config(Config config)` shadows the global `config` only inside
  itself. The functions it calls (`app_compiler`, `app_default_cmd`,
  `append_frameworks`, `build_app_ios`, ...) read the global. So the planner
  functions take both the parameter `p` and the global `g`. `main` passes the
  same configuration for both; `test_builds` leaves the global at zero.
- Several functions `return 1` on an error path. That is `true` in a `bool`
  function, so the error is treated as success. The model keeps that
  behaviour, and lemmas state its consequences:
  `Sdl.SdlAndroidMissingNdk`, `Planner.AndroidMissingNdkMisplacesConfig`,
  `Planner.BuildAllConfigs`.

## Model

| member | source | states |
|---|---|---|
| Base.FindDelim | nob.c:107-112 | the delimiter search returns the first position holding the delimiter, or the length when there is none |
| Base.ChopByDelim | nob.c:107-112 | chopping returns a prefix free of the delimiter; prefix, delimiter and rest reassemble the input; without a delimiter the whole input is the prefix and the rest is empty; the rest is strictly shorter |
| Base.Decimal | nob.c:68-71 | `%d` of a non-negative number is a non-empty run of digits |
| Base.AtoiDecimal | nob.c:200-205 | `atoi` reads back exactly the number `%d` wrote, whatever non-digit follows |
| Base.ParseDecimal | nob.c:200-205 | the digit parser recovers the number from its decimal text |
| Base.SplitAll | nob.c:273 | splitting a path yields segments that contain no `/`; only the empty path has no segments |
| Base.SplitJoin | nob.c:296-297 | joining non-empty, slash-free segments with `/` and splitting again gives back the segments |
| Base.NormalizeAppend | nob.c:296-298 | changing directory along `a + b` is the same as going along `a`, then along `b` |
| Base.NormalizePlain | nob.c:273 | descending into plain segments appends them to the working directory |
| Base.NormalizeUp | nob.c:297 | one `..` per plain segment climbs back to the starting directory |
| Base.ResolveJoin | nob.c:297 | a relative path resolves to the working directory normalised along its segments |
| Options.PlatformNameInjective | nob.c:57-64 | distinct platforms have distinct names, in both directions |
| Options.PlatformCodeInjective | nob.c:24-28 | distinct platforms have distinct enum values, in both directions |
| Options.FlagOf | nob.c:137-156 | an argument is recognised as a flag exactly when it is that flag's text; unrecognised arguments match no flag |
| Options.CheckConfigAcceptsValid | nob.c:159-181 | the combination checks accept a configuration iff it is valid: no iOS off Apple hosts, no `-f` or `-gcc` on mobile, no `-device` on native |
| Options.ParseArgsLoop | nob.c:134-184 | the shift-and-compare loop succeeds iff the declarative parse does, and returns its configuration |
| Options.ApplyArgsRejects | nob.c:153-156 | applying the flags fails iff some argument is not a flag |
| Options.ApplyArgsAppend | nob.c:135-157 | applying `a + b` is applying `a`, then `b` to the result, and failing if either fails |
| Options.ApplyArgsChoices | nob.c:143-150 | the compiler and the platform are those of the last `-clang`/`-gcc` and `-android`/`-ios` argument, or the starting ones |
| Options.ApplyArgsSwitches | nob.c:137-152 | `-f`, `-o`, `-r` and `-device` each set their field iff given, and nothing clears one |
| Options.ApplyArgsSwitch | nob.c:137-152 | a switch is set at the end iff it was set at the start or its flag occurs anywhere in the arguments |
| Options.SwitchedAfterFlag | nob.c:137-152 | one flag sets its own switch and leaves every other switch alone |
| Options.ParsedConfigIsValid | nob.c:134-184 | every configuration the parser accepts satisfies the combination rules |
| Options.DeviceOnNativeRejected | nob.c:176-180 | `-device` without `-android` or `-ios` is rejected |
| Options.LastPlatformWithout | nob.c:147-150 | without a platform flag the platform stays at its starting value |
| Environment.KeyOf | nob.c:115-124 | a name is recognised iff it is one of the five `env` variable names |
| Environment.ClassifySkip | nob.c:109-113 | a line is skipped iff it is empty, a `#` comment, or starts with `=` so that its name is empty |
| Environment.ClassifyAssign | nob.c:112-124 | a line assigns `v` to a variable iff it is that variable's name, `=`, then `v`, or the bare name with `v` empty |
| Environment.Set | nob.c:115-124 | assigning a variable changes that variable and no other |
| Environment.ParseEnvironment | nob.c:101-103 | an `env` file that cannot be read is accepted with every variable empty |
| Environment.ApplyLinesAccepts | nob.c:106-129 | the lines are accepted iff none assigns an unknown variable name |
| Environment.ApplyLinesValues | nob.c:106-129 | each variable ends up with the value of its last assignment, or keeps its value if it is never assigned |
| Environment.ApplyLinesAppend | nob.c:106-129 | processing `a + b` is processing `a`, then `b`; a rejection in `a` rejects the whole |
| Environment.ApplyOneLine | nob.c:107-128 | a single accepted line assigns its own variable and leaves the rest alone |
| Environment.ParseEnvironmentValues | nob.c:101-132 | each variable read from the file holds the text after `=` on its last assignment line |
| Environment.ParseEnvironmentRejects | nob.c:125-128 | the file is rejected iff some line names an unknown variable |
| ConfigStore.LoadConfigFromFile | nob.c:186-192 | loading fails iff the saved file cannot be read |
| ConfigStore.LoadStopsAtUnknownKey | nob.c:206-208 | a first line with an unknown key leaves the loaded configuration untouched |
| ConfigStore.DumpLineParts | nob.c:196-201 | a written `key=n` line splits back into its key and value, and `atoi` at the value reads `n` |
| ConfigStore.LoadKnownLine | nob.c:196-205 | a known key's line sets exactly that field to the written number, then loading continues |
| ConfigStore.LoadDeviceLine | nob.c:206-208 | the `device` line ends loading |
| ConfigStore.LoadAfterDump | nob.c:186-213 | loading a dump restores compiler, optimize and platform, and nothing else |
| ConfigStore.LoadTruncatedDump | nob.c:195-209 | a dump cut after its first `k` lines restores exactly the first `k` fields |
| ConfigStore.LoadFirstLine | nob.c:195-209 | a dump of only its compiler line restores only the compiler |
| ConfigStore.LoadFirstTwoLines | nob.c:195-209 | a dump of two lines restores compiler and optimize |
| ConfigStore.LoadFirstThreeLines | nob.c:195-209 | a dump of three lines restores compiler, optimize and platform |
| ConfigStore.DeviceIsNotRestored | nob.c:200-208 | a saved `device=1` reads back as `device` false |
| Files.SuffixFilter | nob.c:394-407 | a path is longer than a suffix and ends with it iff it is a non-empty stem followed by the suffix |
| Files.AllowHImpliesAllowC | nob.c:404-407 | every header the `.h` filter accepts is accepted by the C filter |
| Files.FilterBoundary | nob.c:394-402 | a bare `.h` or `.java` is refused, while one more character is accepted |
| Files.Collect | nob.c:413-432 | every collected path passes the filter |
| Files.CollectIsFilteredWalk | nob.c:413-432 | collection is the depth-first walk of regular files, in directory order, restricted to the filter |
| Files.CollectEntriesIsFilteredWalk | nob.c:417-430 | the same, for the entries of one directory |
| Files.KeepAppend | nob.c:417-430 | filtering distributes over concatenation, so results keep their order |
| Files.UnreadableIsEmpty | nob.c:415 | an unreadable directory contributes nothing |
| Flags.JobsFlag | nob.c:235-243 | the CMake flag is `-j` followed by the processor count, clamped to at least one |
| Flags.AppCompiler | nob.c:482-492 | the compiler is `clang` iff the configuration names clang, and `gcc` iff it names gcc |
| Flags.AppDefaultCmd | nob.c:494-497 | a native build's default flags start with `-march=native` |
| Flags.ArchFlags | nob.c:495-497 | `-march=native` appears iff the platform is native |
| Flags.OptimizeFlags | nob.c:499-504 | `-O3` iff optimising; `-O0` and `-g` iff not; `-fno-limit-debug-info` iff not optimising under clang |
| Flags.CompilerFlags | nob.c:506-508 | `-fconstant-cfstrings` iff clang |
| Flags.MinVersionFlags | nob.c:509-511 | the macOS minimum version iff a native build on a macOS host |
| Flags.AppDefaultCmdFlags | nob.c:494-512 | each of the seven default flags appears in the command exactly under the configuration that asks for it |
| Flags.FrameworkArgs | nob.c:442-475 | two arguments per framework, each either `-framework` or one of the names |
| Flags.NativeCommand | nob.c:754-765 | the native command starts with the configured compiler and ends with `-o main.app` |
| World.Write | nob.c:72 | a successful write makes the file read back as the written text; a failed one leaves the files alone |
| World.RunIgnored | nob.c:835-836 | a command whose result is dropped is recorded, and the world after it is the same whichever way it went |
| World.NeedsRebuild | nob.c:816 | the rebuild check answers -1, 0 or 1, and 1 when the output is missing |
| World.NeedsRebuildZero | nob.c:816 | no rebuild is needed iff the output exists and every input exists and is not newer than it |
| World.NewerInputRebuilds | nob.c:816 | an input newer than the output, after inputs that all exist, requires a rebuild |
| World.ScanInputs | nob.c:816 | the input scan answers -1, 0 or 1 |
| World.ScanInputsZero | nob.c:816 | the scan finds nothing iff every input exists and is not newer than the output |
| World.ScanNewer | nob.c:816 | an input newer than the output, with every earlier input present, makes the scan answer 1 |
| World.RunStep | nob.c:273-298 | a command or copy records one effect and succeeds iff it does; a directory change records nothing |
| World.RunSteps | nob.c:273-304 | a `goto error` chain only appends to the log, succeeds iff every recorded effect succeeded, and on success records one effect per command and ends in the chained directory |
| World.RunStepsStops | nob.c:273-304 | a failed `goto error` chain stops at its failure: every effect before the last one succeeded and the last one failed |
| World.RunStepsTrace | nob.c:273-304 | a chain records a prefix of the effects its steps ask for, each in the directory reached so far, and a successful chain records all of them |
| World.TraceNoCd | nob.c:612-656 | without directory changes, a chain asks for exactly one effect per step, in step order, all in the starting directory |
| World.RunStepsNoCd | nob.c:612-635 | a chain without directory changes leaves the working directory alone, whether it fails or not |
| Sdl.BuildSdl | nob.c:269-305 | a present SDL library without `-f` does nothing; otherwise the first effect is `git clean` inside the SDL tree; the directory is restored on every path; success iff every effect succeeded |
| Sdl.BuildSdlEndsWithCopy | nob.c:269-305 | a successful rebuild ends with the copy of SDL's `libSDL3.a`, from its build directory, onto the project's `build/libsdl3_native.a` |
| Sdl.CopyTargetsArtifact | nob.c:296-297 | the destination `../../../` followed by a plain project path, taken from SDL's build directory, resolves to that path in the project directory |
| Sdl.NativeCopyTargetsArtifact | nob.c:296-297 | the copy destination `../../../build/libsdl3_native.a`, taken from SDL's build directory, is the project's `build/libsdl3_native.a` |
| Sdl.SdlBuildDir | nob.c:273-296 | SDL's build directory is the project directory followed by the SDL path and `build` |
| Sdl.BuildSdlAndroid | nob.c:309-348 | a present Android library does nothing; otherwise `git clean` runs first inside the SDL tree; when both Android paths are set the directory is restored |
| Sdl.BuildSdlAndroidEndsWithCopy | nob.c:309-348 | with both Android paths set, a successful build ends with the copy of `libSDL3.so`, from SDL's build directory, onto the project's `build/libsdl3_android.so` |
| Sdl.AndroidSdlAfterClean | nob.c:319-347 | without the NDK or SDK path the step reports success without acting; with both, the directory is restored |
| Sdl.SdlAndroidMissingNdk | nob.c:319 | a missing NDK path reports success but leaves the script inside the SDL tree |
| Sdl.BuildSdlIosEndsWithCopy | nob.c:350-390 | a successful build ends with the copy of `libSDL3.a`, from SDL's build directory, onto the project's library for the chosen target |
| Sdl.SdlIosFilesDiffer | nob.c:353-354 | the device and simulator SDL libraries are different files |
| Sdl.BuildSdlIos | nob.c:350-390 | a present library for the chosen target does nothing; otherwise `git clean` runs first; the directory is restored on every path |
| Apps.CreateAndroidKeystore | nob.c:245-261 | an existing keystore is kept; otherwise exactly one `keytool` run, whose success decides the result |
| Apps.BuildAppNative | nob.c:754-765 | exactly one effect, the native compile command in the current directory, and success iff it succeeds |
| Apps.ZipLibraries | nob.c:637-640 | the `zip -r` runs inside the APK folder; only its success brings the directory back |
| Apps.AndroidPackage | nob.c:612-656 | packaging only appends to the log, succeeds iff every step does, and ends where it started unless the library zip failed inside the APK folder |
| Apps.PackageStepsTrace | nob.c:612-635 | the packaging chain asks for `javac`, `jar`, `d8`, `aapt2`, the copy of the SDL library into the package folder and the `classes.dex` zip, in that order |
| Apps.SignStepsTrace | nob.c:642-656 | the signing chain asks for `zipalign` and then `apksigner` |
| Apps.PackageLogSteps | nob.c:612-656 | the whole packaging log is those six effects, the library zip inside the package folder, `zipalign` and `apksigner` |
| Apps.AndroidPackageLog | nob.c:612-656 | successful packaging records exactly that nine-effect log after what was there |
| Apps.AndroidPackageSigns | nob.c:642-656 | successful packaging ends with `apksigner` writing `build/android/app.apk` |
| Apps.PackageStepsShape | nob.c:612-635 | the packaging chain changes no directory and records six effects |
| Apps.SignStepsShape | nob.c:642-656 | the signing chain changes no directory |
| Apps.BuildAppAndroid | nob.c:534-659 | without NDK or SDK paths nothing happens and success is reported; otherwise the compile runs first, and success means every effect succeeded, `JAVA_HOME` is set and `android.jar` exists |
| Apps.BuildAppAndroidLog | nob.c:534-659 | with both Android paths set, a successful Android app build records the compile of the native library and then the nine packaging effects, ten in all, ending with the signing of `build/android/app.apk` |
| Apps.ApkZipFailureStrandsCwd | nob.c:637-640 | a failed library zip leaves the script inside `build/android/apk` |
| Apps.IosCompileArgvCut | nob.c:225-233 | when `xcrun` fails, the compile command is the full one cut at the slot of the SDK path, so it ends with `-isysroot`; otherwise it is the full command |
| Apps.IosCompile | nob.c:664-684 | `xcrun` runs and then the compile command, cut short when `xcrun` failed; success follows the compile alone |
| Apps.CopyIntoBundle | nob.c:692-695 | the nib copy is the first effect, and success iff both copies succeed; a success also copied `ios/Info.plist` into `build/ios/Player.app`, as the second effect |
| Apps.IosBundle | nob.c:686-695 | `ibtool` runs first iff the nib is not up to date |
| Apps.MissingXibRunsIbtool | nob.c:687-691 | a missing `.xib` makes the rebuild check answer -1, which counts as true, so `ibtool` runs |
| Apps.SigningIdentity | nob.c:739-740 | the identity is the developer name with its last character dropped |
| Apps.SignWithName | nob.c:716-748 | three effects whose outcomes are ignored; success iff the developer name is non-empty, and then the log ends with `codesign` |
| Apps.IosSign | nob.c:697-749 | device signing succeeds iff the profile and name files exist, the profile copy succeeds and the name is non-empty; success ends with `codesign` |
| Apps.BundleAndSign | nob.c:686-749 | a simulator bundle succeeds iff every effect does; a device bundle fails without profile or name, and otherwise ends signed |
| Apps.BuildAppIos | nob.c:663-752 | `xcrun` and the compile, cut short when `xcrun` failed, come first; success needs the compile; a simulator build succeeds iff every later effect does |
| Apps.IosDeviceSigning | nob.c:697-749 | a device build without the profile or with an empty developer name fails; a successful one ends with `codesign` |
| Planner.ConfigDidChange | nob.c:786-799 | a forced build never counts as a changed configuration; a missing saved configuration always does |
| Planner.ConfigDidChangeAfterDump | nob.c:792-798 | against a saved dump, the configuration changed iff optimize or compiler differ, and platform and device are ignored |
| Planner.ConfigDidChangeIgnoresTarget | nob.c:794 | two configurations that agree on compiler, optimize and `-f` see the same change, whatever their platform, device or run switch |
| Planner.AppInputs | nob.c:805-807 | the inputs start with `nob.c`, followed only by C sources and headers |
| Planner.NativeBranch | nob.c:815-833 | with the SDL library present, nothing runs when no rebuild is due, and only the native compile when one is |
| Planner.NativeBranchSdlFirst | nob.c:828 | a missing SDL library is built first, starting with `git clean` in the SDL tree; a failed SDL build ends the branch before any compile |
| Planner.MkdirAll | nob.c:838-843 | one `mkdir` per directory, in the given order, with outcomes ignored |
| Planner.MkdirChecked | nob.c:853-855 | at most one `mkdir` per iOS directory is recorded, and at least one for a non-empty list; success iff a `mkdir` was recorded for every directory and all succeeded |
| Planner.MkdirCheckedOrder | nob.c:853-855 | the recorded `mkdir`s are those of the directories in their given order |
| Planner.MkdirCheckedStops | nob.c:853-855 | a failure stops at the first failed `mkdir`: every earlier one succeeded and it is the last one recorded |
| Planner.AndroidBranch | nob.c:834-848 | the Android branch removes `build/android` first, then records the six `mkdir`s of the Android folders in the order the script lists them |
| Planner.AndroidBuilds | nob.c:845-847 | the keystore, SDL and app stages only append to the log |
| Planner.AndroidBuildsKeystoreFirst | nob.c:845 | without a keystore, `keytool` is the first effect, and its failure ends the stages right there |
| Planner.AndroidSdlAndApp | nob.c:846-847 | the SDL and app stages only append to the log |
| Planner.AndroidSdlBeforeApp | nob.c:846-847 | a missing Android SDL is built first, starting with `git clean`; a failed SDL build is the whole result; with the library present only the app is built |
| Planner.IosBranch | nob.c:849-859 | the iOS branch removes `build/ios` first, records at least one more effect, and keeps the working directory |
| Planner.IosBuilds | nob.c:857-858 | the iOS SDL and app stages keep the working directory and only append to the log |
| Planner.IosSdlBeforeApp | nob.c:857-858 | a missing iOS SDL is built first, starting with `git clean`; a failed SDL build is the whole result; with the library present only the app is built |
| Planner.PlatformStages | nob.c:814-860 | the platform switch keeps the files and only appends to the log |
| Planner.BuildAppConfig | nob.c:783-865 | `mkdir build` is always the first effect; a failed build leaves the files alone; a successful build whose last effect succeeded leaves `build/.config` holding the dump of the configuration, and one whose last effect failed leaves the files alone |
| Planner.ConfigStages | nob.c:783-859 | everything before the save keeps the files, and its first effect is `mkdir build` |
| Planner.SaveOnSuccess | nob.c:861-863 | a failed stage result is passed through; a successful one appends the `.config` write and still reports success; when that write succeeded the file holds the dump, and when it failed the files are as they were |
| Planner.BuildAppConfigWritesLast | nob.c:861-863 | a successful build ends with the write of the dump to `build/.config`, resolved in the directory the stages ended in |
| Planner.BuildAppConfigShape | nob.c:783-865 | the result is the platform switch's; only success appends the `.config` write, resolved in whatever directory the switch ended in |
| Planner.ScanIgnoresLog | nob.c:816 | the input scan does not depend on the effects recorded so far |
| Planner.NeedsRebuildIgnoresLog | nob.c:816 | the rebuild check does not depend on the effects recorded so far |
| Planner.NativeRebuildIff | nob.c:815-833 | with the SDL library present, the native compile runs iff the configuration changed, a source is newer, or `-f` was given |
| Planner.NativeUpToDateDoesNothing | nob.c:815-862 | an unforced native build whose saved compiler and optimize match and whose rebuild check does not answer exactly 1 (an error answer -1 included) records only `mkdir build` and the `.config` write, and succeeds |
| Planner.MobileBuildWipesFirst | nob.c:834-851 | a mobile build removes its platform's build folder right after `mkdir build` |
| Planner.AndroidBuildsMissingNdk | nob.c:845-847 | with a missing NDK path and an absent Android SDL, the stages report success after one `git clean`, inside the SDL tree |
| Planner.AndroidBranchMissingNdk | nob.c:834-848 | the same for the whole Android branch: success, eight effects, inside the SDL tree |
| Planner.AndroidMissingNdkMisplacesConfig | nob.c:834-862 | the build then reports success and writes `.config` under the SDL tree instead of the project's `build` folder |
| Planner.TestConfigs | nob.c:867-889 | `test_builds` builds a forced native configuration, then valid mobile ones; iOS only on a macOS host |
| Planner.BuildConfigs | nob.c:868-886 | building a list of configurations only appends to the log; an empty list does nothing |
| Planner.BuildConfigsStops | nob.c:868-886 | the first configuration that fails ends the loop: the result is that of the list up to it, and a failure |
| Planner.BuildConfigsOk | nob.c:868-886 | the loop succeeds iff every configuration succeeds, each built in the world the ones before it left |
| Planner.BuildAllConfigs | nob.c:867-889 | `test_builds` always reports success, because a failure returns `1`; the first effect is `mkdir build` |
| Planner.TestBuildsUseZeroConfig | nob.c:867-889 | with the global left at zero, the Android compile gets `-march=native`, and the iOS device build links the simulator library |
| Planner.BuildCleanAll | nob.c:769-781 | `git clean -fdx` runs first, then `cc nob.c -o nob`, and nothing else; success iff both run and succeed |
| Planner.Nob | nob.c:891-896 | the exit code is 0 or 1; a rejected `env` exits with 0 and does nothing |
| Planner.RunCommand | nob.c:898-909 | `test_builds` always exits with 0; rejected build flags exit with 0 and do nothing |
| Planner.NobBuildExitCode | nob.c:905-907 | for accepted build flags, the exit code is 1 iff `build_app_config` fails |
| Planner.NobCleanAndSdlExitCode | nob.c:898-901 | `clean` and `sdl` exit with 1 iff their build fails |

## Left out

- Windows: the `_WIN32` branches (`cl`, `Debug/SDL3-static.lib`, the Windows timestamp) are not modelled. The host is Linux or macOS.
- `NOB_GO_REBUILD_URSELF`, timing (`get_timestamp_usec`) and all logging (`nob_log`, `log_config_string`, `minimal_log_level`): they print or rebuild the script itself and do not change the build.
- `uppercase_string` and `compare_paths`: neither is called by the script.
- `nob.h` is not part of this model. Its helpers are modelled by their observable contract: `file_exists`, `read_entire_file`, `needs_rebuild`, `read_entire_dir`, `get_file_type`, `copy_file`, `mkdir_if_not_exists`, `write_entire_file` and `cmd_run`. `set_current_dir` is assumed to succeed. `cmd_run` is taken to end the argument list at its first null argument, as `execvp` sees it. The directory trees that `read_entire_dir` walks (`Host.srcTree`, `Host.sdlJavaTree`) are parameters of their own, separate from the files and times in `Fs`.
- What external commands and copies do to the filesystem is not modelled. Only the `.config` write changes the modelled files; every other effect is recorded in the log.
- Apps.IosCompile: the output capture of `run_cmd_get_stdout` is replaced by the `Host.iosSdkPath` parameter. The `xcrun` command is still recorded, and its failure cuts the compile command short, but the `build/temp.txt` file it writes to and reads back is not modelled. The dropped last character of the captured output is folded into the parameter.
- `sysconf` becomes the `Host.jobs` parameter.
- The `-r` flag sets `should_run`, which the script never reads, so the model has no run step.
- `nob_cc` is modelled as the command `cc`.
- `atoi` overflow, and reads past the end of the loaded buffer, are not modelled. The end of the buffer ends the number.
- `\r\n` line endings get no special treatment, matching the C code.
- The Java and main application sources (`android/`, `src/`) are inputs only. Their content is not modelled.
- Planner.AndroidBuilds, Planner.AndroidSdlAndApp, Planner.IosBuilds, Planner.PlatformStages: their own contracts only state that the log grows and the files are kept. The order of the stages and the stop at the first failure are stated by `Planner.AndroidBuildsKeystoreFirst`, `Planner.AndroidSdlBeforeApp` and `Planner.IosSdlBeforeApp`; which branch runs is stated by `Planner.MobileBuildWipesFirst`, `Planner.NativeRebuildIff` and `Planner.NativeUpToDateDoesNothing`. The Android app stage after a successful SDL build is not restated at this level.
