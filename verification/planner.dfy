/**
 * The top of the build script (`build_app_config`, `build_app_all_configs`,
 * `build_clean_all` and `main` in nob.c): decide whether the configuration
 * changed since the last build, run the platform's stages, save the
 * configuration, and map the outcome to an exit code.
 */
module Planner {
  import opened Base
  import opened Options
  import opened Environment
  import opened ConfigStore
  import opened Files
  import opened World
  import opened Flags
  import opened Sdl
  import opened Apps

  /** `CONFIG_FILE_PATH`. */
  const ConfigPath := "build/.config"

  /**
   * `config_did_change`: never when forced; otherwise when no saved
   * configuration can be read, or when it differs in `optimize` or in the
   * compiler (the saved platform and device are not compared).
   */
  function ConfigDidChange(p: Config, saved: Option<string>): (r: bool)
    ensures p.forceRebuild ==> !r
    ensures !p.forceRebuild && saved.None? ==> r
  {
    if p.forceRebuild then false
    else match LoadConfigFromFile(saved, ZeroStored)
      case None => true
      case Some(s) => !(p.optimize == s.optimize && CompilerCode(p.compiler) == s.compiler)
  }

  /** The platform, device and run switches never affect `config_did_change`. */
  lemma ConfigDidChangeIgnoresTarget(p: Config, q: Config, saved: Option<string>)
    requires p.compiler == q.compiler && p.optimize == q.optimize && p.forceRebuild == q.forceRebuild
    ensures ConfigDidChange(p, saved) == ConfigDidChange(q, saved)
  {
  }

  /**
   * Against a file the script wrote itself for `q`, a change is seen iff
   * `optimize` or the compiler differ: switching platform or device alone
   * does not count.
   */
  lemma ConfigDidChangeAfterDump(p: Config, q: Config)
    requires !p.forceRebuild
    ensures ConfigDidChange(p, Some(DumpConfig(q))) <==> p.optimize != q.optimize || p.compiler != q.compiler
  {
    LoadAfterDump(q, ZeroStored);
    if CompilerCode(p.compiler) == CompilerCode(q.compiler) {
      assert p.compiler == q.compiler;
    }
  }

  /** The files the native executable depends on: the script itself and every `.c` file under `src`. */
  function AppInputs(h: Host): (r: seq<string>)
    ensures |r| > 0 && r[0] == "nob.c"
    ensures forall i :: 1 <= i < |r| ==> AllowC(r[i])
  {
    ["nob.c"] + Collect("src", h.srcTree, CFiles)
  }

  /** The native executable is stale only when `needs_rebuild` answers exactly `1`. */
  predicate FilesChanged(w: World, h: Host) {
    NeedsRebuild(w, ExeName, AppInputs(h)) == 1
  }

  /**
   * The native branch: SDL is built when missing, then the executable when
   * the configuration changed, a source is newer, or the build is forced.
   */
  function NativeBranch(w: World, ok: Oracle, h: Host, g: Config, rebuild: bool): (r: (bool, World))
    ensures r.1.fs == w.fs && r.1.cwd == w.cwd
    ensures |w.log| <= |r.1.log| && r.1.log[..|w.log|] == w.log
    ensures r.0 <==> AllOk(ok, r.1.log, |w.log|)
    ensures Exists(w, SdlFile) && !rebuild ==> r == (true, w)
    ensures Exists(w, SdlFile) && rebuild ==>
      |r.1.log| == |w.log| + 1 && r.1.log[|w.log|] == Run(NativeCommand(g, h.os), w.cwd)
  {
    var (b1, w1) := BuildSdl(w, ok, h, false);
    if !b1 then (false, w1)
    else if rebuild then
      var (b2, w2) := BuildAppNative(w1, ok, g, h.os);
      AllOkExtend(ok, w1.log, w2.log, |w.log|);
      PrefixTrans(w.log, w1.log, w2.log);
      (b2, w2)
    else (true, w1)
  }

  /**
   * A missing SDL library is built first, inside the SDL tree, and a failed
   * SDL build ends the branch before the compile.
   */
  lemma NativeBranchSdlFirst(w: World, ok: Oracle, h: Host, g: Config, rebuild: bool)
    ensures !Exists(w, SdlFile) ==>
      |NativeBranch(w, ok, h, g, rebuild).1.log| > |w.log| &&
      NativeBranch(w, ok, h, g, rebuild).1.log[|w.log|] == Run(GitClean, Normalize(w.cwd, SdlPathSegs))
    ensures !BuildSdl(w, ok, h, false).0 ==> NativeBranch(w, ok, h, g, rebuild) == BuildSdl(w, ok, h, false)
  {
    var w1 := BuildSdl(w, ok, h, false).1;
    var r := NativeBranch(w, ok, h, g, rebuild).1;
    if !Exists(w, SdlFile) {
      assert r.log[..|w1.log|] == w1.log;
      assert r.log[|w.log|] == w1.log[|w.log|];
    }
  }

  /** The folders `build_app_config` prepares for Android; none of them is checked. */
  const AndroidDirs := [
    "build/android", "build/android/java", "build/android/apk", "build/android/apk/lib",
    "build/android/apk/lib/" + AndroidAbi, "build/android/apk/assets"]

  /** `mkdir_if_not_exists` on each path in turn, outcomes dropped. */
  function MkdirAll(w: World, ok: Oracle, paths: seq<string>): (r: World)
    ensures r.fs == w.fs && r.cwd == w.cwd
    ensures |r.log| == |w.log| + |paths| && r.log[..|w.log|] == w.log
    ensures forall i :: |w.log| <= i < |r.log| ==> r.log[i] == MakeDir(Resolve(w.cwd, paths[i - |w.log|]))
    decreases |paths|
  {
    if |paths| == 0 then w
    else
      var w1 := Mkdir(w, ok, paths[0]).1;
      var r := MkdirAll(w1, ok, paths[1..]);
      PrefixTrans(w.log, w1.log, r.log);
      assert r.log[|w.log|] == w1.log[|w.log|];
      r
  }

  /**
   * The Android branch: wipe `build/android` (outcome dropped), recreate its
   * folders, then key store, SDL and app, stopping at the first failure.
   */
  function AndroidBranch(w: World, ok: Oracle, h: Host, e: Env, g: Config): (r: (bool, World))
    ensures r.1.fs == w.fs
    ensures |w.log| + 7 <= |r.1.log| && r.1.log[..|w.log|] == w.log
    ensures r.1.log[|w.log|] == Run(["rm", "-r", "build/android"], w.cwd)
    ensures forall i :: 0 <= i < |AndroidDirs| ==> r.1.log[|w.log| + 1 + i] == MakeDir(Resolve(w.cwd, AndroidDirs[i]))
  {
    var w1 := RunIgnored(w, ok, ["rm", "-r", "build/android"]);
    var w2 := MkdirAll(w1, ok, AndroidDirs);
    PrefixTrans(w.log, w1.log, w2.log);
    var r := AndroidBuilds(w2, ok, h, e, g);
    PrefixTrans(w.log, w2.log, r.1.log);
    assert r.1.log[|w.log|] == w2.log[|w.log|] == w1.log[|w.log|];
    MkdirAllKept(w1, ok, AndroidDirs, r.1.log);
    r
  }

  /** A log that extends `MkdirAll`'s still holds its `mkdir`s where `MkdirAll` put them. */
  lemma MkdirAllKept(w: World, ok: Oracle, paths: seq<string>, log: seq<Action>)
    requires |MkdirAll(w, ok, paths).log| <= |log| && log[..|MkdirAll(w, ok, paths).log|] == MkdirAll(w, ok, paths).log
    ensures forall i :: 0 <= i < |paths| ==> log[|w.log| + i] == MakeDir(Resolve(w.cwd, paths[i]))
  {
    var m := MkdirAll(w, ok, paths).log;
    forall i | 0 <= i < |paths|
      ensures log[|w.log| + i] == MakeDir(Resolve(w.cwd, paths[i]))
    {
      assert log[|w.log| + i] == m[|w.log| + i];
    }
  }

  /** Key store, then SDL and the app. */
  function AndroidBuilds(w: World, ok: Oracle, h: Host, e: Env, g: Config): (r: (bool, World))
    ensures r.1.fs == w.fs
    ensures |w.log| <= |r.1.log| && r.1.log[..|w.log|] == w.log
  {
    var (b1, w1) := CreateAndroidKeystore(w, ok);
    if !b1 then (false, w1)
    else
      var r := AndroidSdlAndApp(w1, ok, h, e, g);
      PrefixTrans(w.log, w1.log, r.1.log);
      r
  }

  function AndroidSdlAndApp(w: World, ok: Oracle, h: Host, e: Env, g: Config): (r: (bool, World))
    ensures r.1.fs == w.fs
    ensures |w.log| <= |r.1.log| && r.1.log[..|w.log|] == w.log
  {
    var (b1, w1) := BuildSdlAndroid(w, ok, e, h);
    if !b1 then (false, w1)
    else
      var r := BuildAppAndroid(w1, ok, g, e, h);
      PrefixTrans(w.log, w1.log, r.1.log);
      r
  }

  /**
   * The key store comes first: a missing one is created by `keytool` before
   * anything else, and when that fails the branch fails with nothing else
   * recorded.
   */
  lemma AndroidBuildsKeystoreFirst(w: World, ok: Oracle, h: Host, e: Env, g: Config)
    requires !Exists(w, KeystoreFile)
    ensures |AndroidBuilds(w, ok, h, e, g).1.log| > |w.log|
    ensures AndroidBuilds(w, ok, h, e, g).1.log[|w.log|] == Run(KeytoolCmd, w.cwd)
    ensures !ok(|w.log|, Run(KeytoolCmd, w.cwd)) ==>
      AndroidBuilds(w, ok, h, e, g) == (false, w.(log := w.log + [Run(KeytoolCmd, w.cwd)]))
  {
    var w1 := CreateAndroidKeystore(w, ok).1;
    if CreateAndroidKeystore(w, ok).0 {
      var r := AndroidSdlAndApp(w1, ok, h, e, g);
      assert r.1.log[|w.log|] == w1.log[|w.log|];
    }
  }

  /**
   * SDL comes before the app: a missing library is built first, starting
   * with `git clean`, and when the SDL build fails the app is not built.
   */
  lemma AndroidSdlBeforeApp(w: World, ok: Oracle, h: Host, e: Env, g: Config)
    ensures !Exists(w, SdlAndroidFile) ==>
      |AndroidSdlAndApp(w, ok, h, e, g).1.log| > |w.log| &&
      AndroidSdlAndApp(w, ok, h, e, g).1.log[|w.log|] == Run(GitClean, Normalize(w.cwd, SdlPathSegs))
    ensures !BuildSdlAndroid(w, ok, e, h).0 ==> AndroidSdlAndApp(w, ok, h, e, g) == BuildSdlAndroid(w, ok, e, h)
    ensures Exists(w, SdlAndroidFile) ==> AndroidSdlAndApp(w, ok, h, e, g) == BuildAppAndroid(w, ok, g, e, h)
  {
    var (b1, w1) := BuildSdlAndroid(w, ok, e, h);
    if b1 && !Exists(w, SdlAndroidFile) {
      var r := BuildAppAndroid(w1, ok, g, e, h);
      assert r.1.log[|w.log|] == w1.log[|w.log|];
    }
  }

  /** `mkdir_if_not_exists` on each path in turn, stopping at the first failure. */
  function MkdirChecked(w: World, ok: Oracle, paths: seq<string>): (r: (bool, World))
    ensures r.1.fs == w.fs && r.1.cwd == w.cwd
    ensures |w.log| <= |r.1.log| <= |w.log| + |paths| && r.1.log[..|w.log|] == w.log
    ensures |paths| > 0 ==> |r.1.log| > |w.log|
    ensures r.0 <==> AllOk(ok, r.1.log, |w.log|) && |r.1.log| == |w.log| + |paths|
    decreases |paths|
  {
    if |paths| == 0 then (true, w)
    else
      var (b, w1) := Mkdir(w, ok, paths[0]);
      AllOkSnoc(ok, w.log, MakeDir(Resolve(w.cwd, paths[0])), |w.log|);
      if !b then (false, w1)
      else
        var r := MkdirChecked(w1, ok, paths[1..]);
        PrefixTrans(w.log, w1.log, r.1.log);
        AllOkExtend(ok, w1.log, r.1.log, |w.log|);
        r
  }

  /** The folders are made in the order given, each resolved in the starting directory. */
  lemma {:induction false} MkdirCheckedOrder(w: World, ok: Oracle, paths: seq<string>)
    ensures forall i :: |w.log| <= i < |MkdirChecked(w, ok, paths).1.log| ==>
      MkdirChecked(w, ok, paths).1.log[i] == MakeDir(Resolve(w.cwd, paths[i - |w.log|]))
    decreases |paths|
  {
    if |paths| > 0 {
      var (b, w1) := Mkdir(w, ok, paths[0]);
      if b {
        var log := MkdirChecked(w1, ok, paths[1..]).1.log;
        MkdirCheckedOrder(w1, ok, paths[1..]);
        forall i | |w.log| <= i < |log|
          ensures log[i] == MakeDir(Resolve(w.cwd, paths[i - |w.log|]))
        {
          if i == |w.log| {
            assert log[..|w1.log|] == w1.log;
            assert w1.log[i] == MakeDir(Resolve(w.cwd, paths[0]));
          } else {
            assert w1.cwd == w.cwd && |w1.log| == |w.log| + 1;
            assert log[i] == MakeDir(Resolve(w1.cwd, paths[1..][i - |w1.log|]));
            assert paths[1..][i - |w1.log|] == paths[i - |w.log|];
          }
        }
      }
    }
  }

  /** The first `mkdir` that fails is the last effect: nothing after it runs. */
  lemma {:induction false} MkdirCheckedStops(w: World, ok: Oracle, paths: seq<string>)
    requires !MkdirChecked(w, ok, paths).0
    ensures StopsAtFailure(ok, MkdirChecked(w, ok, paths).1.log, |w.log|)
    decreases |paths|
  {
    var (b, w1) := Mkdir(w, ok, paths[0]);
    if b {
      MkdirCheckedStops(w1, ok, paths[1..]);
      StopsAfterOk(ok, w1.log, MkdirChecked(w1, ok, paths[1..]).1.log, |w.log|);
    } else {
      assert w1.log[..|w1.log| - 1] == w.log;
    }
  }

  /** The three folders the iOS branch creates, each checked. */
  const IosDirs := ["build/ios", "build/ios/bin", "build/ios/Player.app"]

  /**
   * The iOS branch: wipe `build/ios` (outcome dropped), create its folders,
   * then SDL for the `device` of the configuration handed in and the app
   * for the global one.
   */
  function IosBranch(w: World, ok: Oracle, h: Host, p: Config, g: Config): (r: (bool, World))
    ensures r.1.fs == w.fs && r.1.cwd == w.cwd
    ensures |w.log| + 1 < |r.1.log| && r.1.log[..|w.log|] == w.log
    ensures r.1.log[|w.log|] == Run(["rm", "-r", "build/ios"], w.cwd)
  {
    var w1 := RunIgnored(w, ok, ["rm", "-r", "build/ios"]);
    var (b2, w2) := MkdirChecked(w1, ok, IosDirs);
    PrefixTrans(w.log, w1.log, w2.log);
    if !b2 then
      assert w2.log[|w.log|] == w1.log[|w.log|];
      (false, w2)
    else
      var r := IosBuilds(w2, ok, h, p, g);
      PrefixTrans(w.log, w2.log, r.1.log);
      assert r.1.log[|w.log|] == w2.log[|w.log|] == w1.log[|w.log|];
      r
  }

  /** SDL for the `device` of `p`, then the app as the global `g` describes it. */
  function IosBuilds(w: World, ok: Oracle, h: Host, p: Config, g: Config): (r: (bool, World))
    ensures r.1.fs == w.fs && r.1.cwd == w.cwd
    ensures |w.log| <= |r.1.log| && r.1.log[..|w.log|] == w.log
  {
    var (b1, w1) := BuildSdlIos(w, ok, p.device);
    if !b1 then (false, w1)
    else
      var r := BuildAppIos(w1, ok, g, h);
      PrefixTrans(w.log, w1.log, r.1.log);
      r
  }

  /**
   * SDL for the chosen SDK comes before the app: a missing library is built
   * first, starting with `git clean`; when that build fails the app is not
   * built; with the library present the app build is all that runs.
   */
  lemma IosSdlBeforeApp(w: World, ok: Oracle, h: Host, p: Config, g: Config)
    ensures !Exists(w, SdlIosFile(p.device)) ==>
      |IosBuilds(w, ok, h, p, g).1.log| > |w.log| &&
      IosBuilds(w, ok, h, p, g).1.log[|w.log|] == Run(GitClean, Normalize(w.cwd, SdlPathSegs))
    ensures !BuildSdlIos(w, ok, p.device).0 ==> IosBuilds(w, ok, h, p, g) == BuildSdlIos(w, ok, p.device)
    ensures Exists(w, SdlIosFile(p.device)) ==> IosBuilds(w, ok, h, p, g) == BuildAppIos(w, ok, g, h)
  {
    var (b1, w1) := BuildSdlIos(w, ok, p.device);
    if b1 && !Exists(w, SdlIosFile(p.device)) {
      var r := BuildAppIos(w1, ok, g, h);
      assert r.1.log[|w.log|] == w1.log[|w.log|];
    }
  }

  /** The platform's stages after the change check, the input scan and `mkdir build`. */
  function PlatformStages(w: World, ok: Oracle, h: Host, e: Env, p: Config, g: Config, did: bool): (r: (bool, World))
    ensures r.1.fs == w.fs
    ensures |w.log| <= |r.1.log| && r.1.log[..|w.log|] == w.log
  {
    match p.platform
    case Native => NativeBranch(w, ok, h, g, did || FilesChanged(w, h) || p.forceRebuild)
    case Android => AndroidBranch(w, ok, h, e, g)
    case Ios => IosBranch(w, ok, h, p, g)
  }

  /**
   * `build_app_config(p)` while the global configuration is `g`: the saved
   * configuration is read before anything happens, `build` is created
   * (outcome dropped), the platform's stages run, and only when they all
   * succeed is `p` written to `build/.config`, relative to the working
   * directory the stages left behind; whether that write succeeds is not
   * checked.  So a successful build whose last effect, the write,
   * succeeded leaves the file holding `p`'s dump, and one whose write
   * failed leaves the files as they were.
   */
  function BuildAppConfig(w: World, ok: Oracle, h: Host, e: Env, p: Config, g: Config): (r: (bool, World))
    ensures |w.log| < |r.1.log| && r.1.log[..|w.log|] == w.log
    ensures r.1.log[|w.log|] == MakeDir(Resolve(w.cwd, "build"))
    ensures !r.0 ==> r.1.fs == w.fs
    ensures r.0 ==> r.1.fs == w.fs || ReadFile(r.1, ConfigPath) == Some(DumpConfig(p))
    ensures r.0 && LastOk(ok, r.1.log) ==> ReadFile(r.1, ConfigPath) == Some(DumpConfig(p))
    ensures r.0 && !LastOk(ok, r.1.log) ==> r.1.fs == w.fs
  {
    var s := ConfigStages(w, ok, h, e, p, g);
    var r := SaveOnSuccess(s, ok, p);
    PrefixTrans(w.log, s.1.log, r.1.log);
    r
  }

  /** `build_app_config` up to the save: read the saved configuration, `mkdir build`, run the platform's stages. */
  function ConfigStages(w: World, ok: Oracle, h: Host, e: Env, p: Config, g: Config): (r: (bool, World))
    ensures r.1.fs == w.fs
    ensures |w.log| < |r.1.log| && r.1.log[..|w.log|] == w.log
    ensures r.1.log[|w.log|] == MakeDir(Resolve(w.cwd, "build"))
  {
    var did := ConfigDidChange(p, ReadFile(w, ConfigPath));
    var w1 := Mkdir(w, ok, "build").1;
    var s := PlatformStages(w1, ok, h, e, p, g, did);
    PrefixTrans(w.log, w1.log, s.1.log);
    assert s.1.log[|w.log|] == w1.log[|w.log|];
    s
  }

  /**
   * The end of `build_app_config`: a failed platform branch is the result;
   * after a successful one `p` is written to `build/.config` and the result
   * is success whatever the write does.  A write that succeeds leaves the
   * file holding the dump; one that fails leaves the files as they were.
   */
  function SaveOnSuccess(s: (bool, World), ok: Oracle, p: Config): (r: (bool, World))
    ensures r.0 == s.0 && r.1.cwd == s.1.cwd
    ensures !s.0 ==> r == s
    ensures s.0 ==> r.1.log == s.1.log + [WriteFile(Resolve(s.1.cwd, ConfigPath), DumpConfig(p))]
    ensures r.0 && LastOk(ok, r.1.log) ==> ReadFile(r.1, ConfigPath) == Some(DumpConfig(p))
    ensures r.0 && !LastOk(ok, r.1.log) ==> r.1.fs == s.1.fs
  {
    if !s.0 then s
    else (true, Write(s.1, ok, ConfigPath, DumpConfig(p)).1)
  }

  // ---------------------------------------------------------------------
  // Properties of build_app_config

  /** Recording effects changes neither what exists nor what `needs_rebuild` answers. */
  lemma {:induction false} ScanIgnoresLog(w: World, log: seq<Action>, t: int, inputs: seq<string>)
    ensures ScanInputs(w.(log := log), t, inputs) == ScanInputs(w, t, inputs)
    decreases |inputs|
  {
    if |inputs| > 0 {
      ScanIgnoresLog(w, log, t, inputs[1..]);
    }
  }

  lemma NeedsRebuildIgnoresLog(w: World, log: seq<Action>, output: string, inputs: seq<string>)
    ensures NeedsRebuild(w.(log := log), output, inputs) == NeedsRebuild(w, output, inputs)
  {
    if Exists(w, output) {
      ScanIgnoresLog(w, log, w.fs.mtime[Resolve(w.cwd, output)], inputs);
    }
  }

  /**
   * `build_app_config` is `mkdir build`, the platform's stages, and on
   * success one write of the configuration.
   */
  lemma BuildAppConfigShape(w: World, ok: Oracle, h: Host, e: Env, p: Config, g: Config)
    ensures var w1 := w.(log := w.log + [MakeDir(Resolve(w.cwd, "build"))]);
      var s := PlatformStages(w1, ok, h, e, p, g, ConfigDidChange(p, ReadFile(w, ConfigPath)));
      var r := BuildAppConfig(w, ok, h, e, p, g);
      r.0 == s.0 &&
      (!s.0 ==> r.1 == s.1) &&
      (s.0 ==> r.1.log == s.1.log + [WriteFile(Resolve(s.1.cwd, ConfigPath), DumpConfig(p))])
  {
  }

  /** A successful build ends with the write of `build/.config`, in the directory its stages left. */
  lemma BuildAppConfigWritesLast(w: World, ok: Oracle, h: Host, e: Env, p: Config, g: Config)
    ensures BuildAppConfig(w, ok, h, e, p, g).0 ==> EndsWithEffect(BuildAppConfig(w, ok, h, e, p, g).1.log, |w.log|, WriteFile(Resolve(BuildAppConfig(w, ok, h, e, p, g).1.cwd, ConfigPath), DumpConfig(p)))
  {
    var w1 := w.(log := w.log + [MakeDir(Resolve(w.cwd, "build"))]);
    var s := PlatformStages(w1, ok, h, e, p, g, ConfigDidChange(p, ReadFile(w, ConfigPath)));
    assert BuildAppConfig(w, ok, h, e, p, g) == SaveOnSuccess(s, ok, p);
  }

  /**
   * With SDL already built, a native build compiles the executable iff the
   * configuration changed, `needs_rebuild` answered `1`, or the build is
   * forced; the compile is the effect right after `mkdir build`.
   */
  lemma NativeRebuildIff(w: World, ok: Oracle, h: Host, e: Env, p: Config, g: Config)
    requires p.platform == Native && Exists(w, SdlFile)
    ensures |BuildAppConfig(w, ok, h, e, p, g).1.log| > |w.log| + 1
    ensures BuildAppConfig(w, ok, h, e, p, g).1.log[|w.log| + 1] == Run(NativeCommand(g, h.os), w.cwd) <==>
      ConfigDidChange(p, ReadFile(w, ConfigPath)) || FilesChanged(w, h) || p.forceRebuild
  {
    var w1 := w.(log := w.log + [MakeDir(Resolve(w.cwd, "build"))]);
    NeedsRebuildIgnoresLog(w, w1.log, ExeName, AppInputs(h));
    var rebuild := ConfigDidChange(p, ReadFile(w, ConfigPath)) || FilesChanged(w1, h) || p.forceRebuild;
    var s := NativeBranch(w1, ok, h, g, rebuild);
    assert PlatformStages(w1, ok, h, e, p, g, ConfigDidChange(p, ReadFile(w, ConfigPath))) == s;
    BuildAppConfigShape(w, ok, h, e, p, g);
    var r := BuildAppConfig(w, ok, h, e, p, g);
    if rebuild {
      assert r.1.log[|w1.log|] == s.1.log[|w1.log|];
    } else {
      assert r.1.log == w1.log + [WriteFile(Resolve(w.cwd, ConfigPath), DumpConfig(p))];
    }
  }

  /**
   * Idempotence: run again with the same compiler and `optimize` as the
   * saved configuration, SDL present and no source newer, a native build
   * records only `mkdir build` and the rewrite of the saved configuration.
   * A missing input (`needs_rebuild` answering `-1`) counts as unchanged.
   */
  lemma NativeUpToDateDoesNothing(w: World, ok: Oracle, h: Host, e: Env, p: Config, g: Config, q: Config)
    requires p.platform == Native && !p.forceRebuild && Exists(w, SdlFile)
    requires ReadFile(w, ConfigPath) == Some(DumpConfig(q)) && q.optimize == p.optimize && q.compiler == p.compiler
    requires NeedsRebuild(w, ExeName, AppInputs(h)) != 1
    ensures BuildAppConfig(w, ok, h, e, p, g).0
    ensures BuildAppConfig(w, ok, h, e, p, g).1.log ==
      w.log + [MakeDir(Resolve(w.cwd, "build"))] + [WriteFile(Resolve(w.cwd, ConfigPath), DumpConfig(p))]
  {
    ConfigDidChangeAfterDump(p, q);
    var w1 := w.(log := w.log + [MakeDir(Resolve(w.cwd, "build"))]);
    NeedsRebuildIgnoresLog(w, w1.log, ExeName, AppInputs(h));
    assert PlatformStages(w1, ok, h, e, p, g, false) == (true, w1);
    BuildAppConfigShape(w, ok, h, e, p, g);
  }

  /** A mobile build starts, right after `mkdir build`, by wiping its platform's build folder. */
  lemma MobileBuildWipesFirst(w: World, ok: Oracle, h: Host, e: Env, p: Config, g: Config)
    requires p.platform != Native
    ensures |BuildAppConfig(w, ok, h, e, p, g).1.log| > |w.log| + 1
    ensures BuildAppConfig(w, ok, h, e, p, g).1.log[|w.log| + 1] ==
      Run(["rm", "-r", if p.platform == Android then "build/android" else "build/ios"], w.cwd)
  {
    var w1 := w.(log := w.log + [MakeDir(Resolve(w.cwd, "build"))]);
    var s := PlatformStages(w1, ok, h, e, p, g, ConfigDidChange(p, ReadFile(w, ConfigPath)));
    assert s.1.log[|w1.log|] == Run(["rm", "-r", if p.platform == Android then "build/android" else "build/ios"], w.cwd);
    BuildAppConfigShape(w, ok, h, e, p, g);
    var r := BuildAppConfig(w, ok, h, e, p, g);
    assert r.1.log[|w1.log|] == s.1.log[|w1.log|];
  }

  /** Key store present, Android SDL missing, a clean that succeeds and no NDK: success, stranded in SDL's tree. */
  lemma AndroidBuildsMissingNdk(w: World, ok: Oracle, h: Host, e: Env, g: Config)
    requires Exists(w, KeystoreFile) && !Exists(w, SdlAndroidFile)
    requires ok(|w.log|, Run(GitClean, w.cwd + SdlPathSegs))
    requires |e.androidNdkLocation| == 0
    ensures AndroidBuilds(w, ok, h, e, g) ==
      (true, w.(cwd := w.cwd + SdlPathSegs, log := w.log + [Run(GitClean, w.cwd + SdlPathSegs)]))
  {
    SdlPathSplits();
    NormalizePlain(w.cwd, SdlPathSegs);
    SdlAndroidMissingNdk(w, ok, e, h);
  }

  /**
   * The Android branch under the same conditions: the clean is the ninth
   * effect counted from the wipe, and the branch reports success from
   * inside SDL's tree.
   */
  lemma AndroidBranchMissingNdk(w: World, ok: Oracle, h: Host, e: Env, g: Config)
    requires Exists(w, KeystoreFile) && !Exists(w, SdlAndroidFile)
    requires ok(|w.log| + 7, Run(GitClean, w.cwd + SdlPathSegs))
    requires |e.androidNdkLocation| == 0
    ensures AndroidBranch(w, ok, h, e, g).0
    ensures AndroidBranch(w, ok, h, e, g).1.cwd == w.cwd + SdlPathSegs
    ensures |AndroidBranch(w, ok, h, e, g).1.log| == |w.log| + 8
  {
    var w1 := RunIgnored(w, ok, ["rm", "-r", "build/android"]);
    var w2 := MkdirAll(w1, ok, AndroidDirs);
    assert w2.fs == w.fs && w2.cwd == w.cwd && |w2.log| == |w.log| + 7;
    AndroidBuildsMissingNdk(w2, ok, h, e, g);
  }

  /**
   * A missing NDK location makes the Android build report success with the
   * working directory left in SDL's tree, so the configuration is saved as
   * `lib/SDL-3.2.16/build/.config` instead of `build/.config`.
   */
  lemma AndroidMissingNdkMisplacesConfig(w: World, ok: Oracle, h: Host, e: Env, p: Config, g: Config)
    requires p.platform == Android
    requires Exists(w, KeystoreFile) && !Exists(w, SdlAndroidFile)
    requires ok(|w.log| + 8, Run(GitClean, w.cwd + SdlPathSegs))
    requires |e.androidNdkLocation| == 0
    ensures BuildAppConfig(w, ok, h, e, p, g).0
    ensures |BuildAppConfig(w, ok, h, e, p, g).1.log| == |w.log| + 10
    ensures BuildAppConfig(w, ok, h, e, p, g).1.log[|w.log| + 9] ==
      WriteFile(Resolve(w.cwd + SdlPathSegs, ConfigPath), DumpConfig(p))
  {
    var w1 := w.(log := w.log + [MakeDir(Resolve(w.cwd, "build"))]);
    AndroidBranchMissingNdk(w1, ok, h, e, g);
    BuildAppConfigShape(w, ok, h, e, p, g);
  }

  // ---------------------------------------------------------------------
  // test_builds, clean, main

  /** The configurations `build_app_all_configs` builds, in order: iOS only on a macOS host. */
  function TestConfigs(os: Os): (r: seq<Config>)
    ensures |r| == if os == MacOs then 4 else 2
    ensures r[0].platform == Native && r[0].forceRebuild
    ensures forall i :: 1 <= i < |r| ==> r[i].platform != Native && ValidConfig(r[i], os)
  {
    [DefaultConfig.(forceRebuild := true), DefaultConfig.(platform := Android)]
    + if os == MacOs then [DefaultConfig.(platform := Ios), DefaultConfig.(platform := Ios, device := true)] else []
  }

  /** `build_app_config` as one step of a loop over configurations. */
  function ConfigStep(ok: Oracle, h: Host, e: Env, g: Config): (World, Config) -> (bool, World) {
    (v: World, c: Config) => BuildAppConfig(v, ok, h, e, c, g)
  }

  lemma ConfigStepExtends(ok: Oracle, h: Host, e: Env, g: Config)
    ensures Extends(ConfigStep(ok, h, e, g))
  {
  }

  /** Builds each configuration in turn until one fails. */
  function BuildConfigs(w: World, ok: Oracle, h: Host, e: Env, cs: seq<Config>, g: Config): (r: (bool, World))
    ensures |w.log| <= |r.1.log| && r.1.log[..|w.log|] == w.log
    ensures |cs| == 0 ==> r == (true, w)
  {
    ConfigStepExtends(ok, h, e, g);
    RunEachExtends(w, cs, ConfigStep(ok, h, e, g));
    RunEach(w, cs, ConfigStep(ok, h, e, g))
  }

  /**
   * `build_app_all_configs` stops at the first configuration that fails:
   * the outcome is failure and nothing after that configuration is built.
   */
  lemma BuildConfigsStops(w: World, ok: Oracle, h: Host, e: Env, cs: seq<Config>, g: Config, k: nat)
    requires k < |cs| && BuildConfigs(w, ok, h, e, cs[..k], g).0
    requires !BuildAppConfig(BuildConfigs(w, ok, h, e, cs[..k], g).1, ok, h, e, cs[k], g).0
    ensures BuildConfigs(w, ok, h, e, cs, g) == BuildConfigs(w, ok, h, e, cs[..k + 1], g)
    ensures !BuildConfigs(w, ok, h, e, cs, g).0
  {
    RunEachStops(w, cs, k, ConfigStep(ok, h, e, g));
  }

  /** The loop succeeds iff each configuration builds on the world the ones before it left. */
  lemma BuildConfigsOk(w: World, ok: Oracle, h: Host, e: Env, cs: seq<Config>, g: Config)
    ensures BuildConfigs(w, ok, h, e, cs, g).0 <==>
      forall k :: 0 <= k < |cs| ==> BuildAppConfig(BuildConfigs(w, ok, h, e, cs[..k], g).1, ok, h, e, cs[k], g).0
  {
    RunEachOk(w, cs, ConfigStep(ok, h, e, g));
  }

  /**
   * `build_app_all_configs`: a failing configuration returns `1`, which is
   * `true` like success, so the answer is always success.
   */
  function BuildAllConfigs(w: World, ok: Oracle, h: Host, e: Env, g: Config): (r: (bool, World))
    ensures r.0
    ensures r.1 == BuildConfigs(w, ok, h, e, TestConfigs(h.os), g).1
    ensures |r.1.log| > |w.log| && r.1.log[|w.log|] == MakeDir(Resolve(w.cwd, "build"))
  {
    var cs := TestConfigs(h.os);
    var r := BuildConfigs(w, ok, h, e, cs, g);
    var first := BuildAppConfig(w, ok, h, e, cs[0], g);
    ConfigStepExtends(ok, h, e, g);
    RunEachFirst(w, cs, ConfigStep(ok, h, e, g));
    assert ConfigStep(ok, h, e, g)(w, cs[0]) == first;
    PrefixTrans(w.log, first.1.log, r.1.log);
    assert r.1.log[|w.log|] == first.1.log[|w.log|];
    (true, r.1)
  }

  /**
   * Under `test_builds` the global configuration keeps its zero value, so
   * the Android configuration is compiled with `-march=native`, and the iOS
   * device configuration builds the device SDL library but links the
   * simulator one.
   */
  lemma TestBuildsUseZeroConfig(e: Env, h: Host)
    ensures "-march=native" in AndroidCompileCmd(DefaultConfig, e, h.os)
    ensures SdlIosFile(false) in IosCompileCmd(DefaultConfig, h)
    ensures SdlIosFile(false) != SdlIosFile(TestConfigs(MacOs)[3].device)
  {
    var c := AndroidCompileCmd(DefaultConfig, e, h.os);
    assert AppDefaultCmd(DefaultConfig, h.os)[0] == "-march=native";
    assert c[1] == AppDefaultCmd(DefaultConfig, h.os)[0];
    var src := IosSourceArgs(DefaultConfig, h);
    assert src[|src| - 1] == SdlIosFile(false);
    assert IosCompileCmd(DefaultConfig, h) == (["clang"] + AppDefaultCmd(DefaultConfig, h.os)) + src + IosLinkArgs(h.os, Native);
    SdlIosFilesDiffer();
  }

  const CleanSteps := [Cmd(["git", "clean", "-fdx"]), Cmd(["cc", "nob.c", "-o", "nob"])]

  /** `build_clean_all`: wipe every untracked file, then rebuild the script itself. */
  function BuildCleanAll(w: World, ok: Oracle): (r: (bool, World))
    ensures r.1.fs == w.fs && r.1.cwd == w.cwd
    ensures |w.log| < |r.1.log| <= |w.log| + 2 && r.1.log[..|w.log|] == w.log
    ensures r.1.log[|w.log|] == Run(["git", "clean", "-fdx"], w.cwd)
    ensures r.0 <==> AllOk(ok, r.1.log, |w.log|) && |r.1.log| == |w.log| + 2
    ensures r.1.log <= w.log + [Run(["git", "clean", "-fdx"], w.cwd), Run(["cc", "nob.c", "-o", "nob"], w.cwd)]
    ensures |r.1.log| == |w.log| + 2 ==> r.1.log[|w.log| + 1] == Run(["cc", "nob.c", "-o", "nob"], w.cwd)
  {
    RunStepsTrace(w, ok, CleanSteps);
    RunStepsFirst(w, ok, CleanSteps);
    RunStepsNoCd(w, ok, CleanSteps);
    EffectCountNoCd(CleanSteps);
    RunSteps(w, ok, CleanSteps)
  }

  /** The working directory the script starts in, and reads `env` from. */
  function EnvFile(w: World): Option<string> {
    ReadFile(w, "env")
  }

  /**
   * `main` after the self-rebuild, with `args` the arguments after the
   * program name.  The exit code is `0` when `env` is rejected (`return
   * false`); otherwise the command decides it.
   */
  function Nob(w: World, ok: Oracle, h: Host, args: seq<string>): (r: (int, World))
    ensures r.0 == 0 || r.0 == 1
    ensures ParseEnvironment(EnvFile(w)).None? ==> r == (0, w)
  {
    match ParseEnvironment(EnvFile(w))
    case None => (0, w)
    case Some(e) => RunCommand(w, ok, h, e, args)
  }

  /**
   * The command `main` dispatches on: `clean`, `sdl` (a forced SDL build),
   * `test_builds`, or build flags.  Rejected flags exit with `0` (`return
   * false`); `1` comes only from a failed clean, SDL or app build, and never
   * from `test_builds`.
   */
  function RunCommand(w: World, ok: Oracle, h: Host, e: Env, args: seq<string>): (r: (int, World))
    ensures r.0 == 0 || r.0 == 1
    ensures |args| > 0 && args[0] == "test_builds" ==> r.0 == 0
    ensures ((|args| == 0 || args[0] !in {"clean", "sdl", "test_builds"}) &&
             ParseConfigFromArgs(args, DefaultConfig, h.os).None?) ==> r == (0, w)
  {
    if |args| > 0 && args[0] == "clean" then
      var (b, w1) := BuildCleanAll(w, ok);
      (if b then 0 else 1, w1)
    else if |args| > 0 && args[0] == "sdl" then
      var (b, w1) := BuildSdl(w, ok, h, true);
      (if b then 0 else 1, w1)
    else if |args| > 0 && args[0] == "test_builds" then
      var (b, w1) := BuildAllConfigs(w, ok, h, e, DefaultConfig);
      (if b then 0 else 1, w1)
    else
      match ParseConfigFromArgs(args, DefaultConfig, h.os)
      case None => (0, w)
      case Some(c) =>
        var (b, w1) := BuildAppConfig(w, ok, h, e, c, c);
        (if b then 0 else 1, w1)
  }

  /** For build flags the script accepts, the exit code is `1` exactly when `build_app_config` fails. */
  lemma NobBuildExitCode(w: World, ok: Oracle, h: Host, args: seq<string>)
    requires ParseEnvironment(EnvFile(w)).Some?
    requires |args| == 0 || args[0] !in {"clean", "sdl", "test_builds"}
    requires ParseConfigFromArgs(args, DefaultConfig, h.os).Some?
    ensures var c := ParseConfigFromArgs(args, DefaultConfig, h.os).value;
      (Nob(w, ok, h, args).0 == 1 <==> !BuildAppConfig(w, ok, h, ParseEnvironment(EnvFile(w)).value, c, c).0)
  {
  }

  /** `clean` and `sdl` exit with `1` exactly when their build fails. */
  lemma NobCleanAndSdlExitCode(w: World, ok: Oracle, h: Host, args: seq<string>)
    requires ParseEnvironment(EnvFile(w)).Some?
    requires |args| > 0
    ensures args[0] == "clean" ==> (Nob(w, ok, h, args).0 == 1 <==> !BuildCleanAll(w, ok).0)
    ensures args[0] == "sdl" ==> (Nob(w, ok, h, args).0 == 1 <==> !BuildSdl(w, ok, h, true).0)
  {
  }
}
