/**
 * Building the application for one platform (`create_android_keystore`,
 * `build_app_native`, `build_app_android`, `build_app_ios` in nob.c).
 * These read the global configuration `g`, which is not always the one
 * `build_app_config` was handed.
 */
module Apps {
  import opened Base
  import opened Options
  import opened Environment
  import opened Files
  import opened World
  import opened Flags
  import opened Sdl

  // ---------------------------------------------------------------------
  // Android signing key

  /** `ANDROID_KEYSTORE_FILE`, kept across builds because `build/android` is wiped. */
  const KeystoreFile := "build/keystore_android.keystore"

  const KeytoolCmd := [
    "keytool", "-genkeypair", "-alias", "debug", "-keyalg", "RSA", "-keysize", "2048",
    "-validity", "10000", "-keystore", KeystoreFile, "-storepass", "android",
    "-keypass", "android", "-dname", "CN=Debug,O=SDLApp,C=US"]

  /**
   * `create_android_keystore`: `keytool` runs only when the key store is
   * missing, and then decides the result.
   */
  function CreateAndroidKeystore(w: World, ok: Oracle): (r: (bool, World))
    ensures r.1.fs == w.fs && r.1.cwd == w.cwd
    ensures Exists(w, KeystoreFile) ==> r == (true, w)
    ensures !Exists(w, KeystoreFile) ==> r.1.log == w.log + [Run(KeytoolCmd, w.cwd)]
    ensures r.0 <==> AllOk(ok, r.1.log, |w.log|)
  {
    if !Exists(w, KeystoreFile) then
      AllOkSnoc(ok, w.log, Run(KeytoolCmd, w.cwd), |w.log|);
      RunCmd(w, ok, KeytoolCmd)
    else (true, w)
  }

  // ---------------------------------------------------------------------
  // Native

  /** `build_app_native`: one compiler run whose outcome is the result. */
  function BuildAppNative(w: World, ok: Oracle, g: Config, os: Os): (r: (bool, World))
    ensures r.1.fs == w.fs && r.1.cwd == w.cwd
    ensures |r.1.log| == |w.log| + 1 && r.1.log[..|w.log|] == w.log
    ensures r.1.log[|w.log|] == Run(NativeCommand(g, os), w.cwd)
    ensures r.0 <==> AllOk(ok, r.1.log, |w.log|)
  {
    AllOkSnoc(ok, w.log, Run(NativeCommand(g, os), w.cwd), |w.log|);
    RunCmd(w, ok, NativeCommand(g, os))
  }

  // ---------------------------------------------------------------------
  // Android

  const AndroidTools := "34.0.0"

  /** `ANDROID_APK_FOLDER`. */
  const ApkSegs := ["build", "android", "apk"]
  const ApkFolder := JoinPath(ApkSegs)

  /** `SDL_JAVA_SRC`: SDL's Java glue, compiled into the app. */
  const SdlJavaSrc := SdlPath + "/android-project/app/src/main/java/org/libsdl/app"

  /** The NDK's clang for 64-bit ARM at API level 34, for the host `os`. */
  function NdkCompiler(e: Env, os: Os): string {
    var host := match os case Linux => "linux-x86_64" case MacOs => "darwin-x86_64";
    e.androidNdkLocation + "/toolchains/llvm/prebuilt/" + host + "/bin/aarch64-linux-android" + AndroidApi + "-clang"
  }

  /** The command that builds the app as the shared library `libmain.so`. */
  function AndroidCompileCmd(g: Config, e: Env, os: Os): seq<string> {
    [NdkCompiler(e, os)] + AppDefaultCmd(g, os)
    + ["-shared", "-fPIC", "-DANDROID_PLATFORM=" + AndroidApi, "src/main.c"] + Includes
    + ["-Lbuild", "-lsdl3_android", "-llog", "-DRENDERER_SDL3", "-DOS_ANDROID", "-g", "-fno-omit-frame-pointer",
       "-o", ApkFolder + "/lib/" + AndroidAbi + "/libmain.so"]
  }

  function AndroidJar(e: Env): string {
    e.androidSdkLocation + "/platforms/android-" + AndroidApi + "/android.jar"
  }

  function BuildTool(e: Env, name: string): string {
    e.androidSdkLocation + "/build-tools/" + AndroidTools + "/" + name
  }

  /** `javac` over the app's activity and every `.java` file found under SDL's Java sources. */
  function JavacCmd(e: Env, h: Host): seq<string> {
    ["javac", "-classpath", AndroidJar(e), "-d", "build/android/java", "android/MainActivity.java"]
    + Collect(SdlJavaSrc, h.sdlJavaTree, JavaFiles)
  }

  /** From `javac` up to adding `classes.dex` to the unsigned package. */
  function PackageSteps(e: Env, h: Host): seq<Step> {
    [ Cmd(JavacCmd(e, h)),
      Cmd(JarCmd),
      Cmd(D8Cmd(e)),
      Cmd(Aapt2Cmd(e)),
      CopyStep(SdlAndroidFile, ApkSdlLib),
      Cmd(ZipDexCmd) ]
  }

  const JarCmd := ["jar", "cf", "build/android/app.jar", "-C", "build/android/java", "."]

  function D8Cmd(e: Env): seq<string> {
    [BuildTool(e, "d8"), "--output", "build/android/apk", "build/android/app.jar"]
  }

  function Aapt2Cmd(e: Env): seq<string> {
    [BuildTool(e, "aapt2"), "link", "-o", "build/android/app-unsigned.apk",
     "--manifest", "android/AndroidManifest.xml", "-I", AndroidJar(e),
     "--version-code", "1", "--version-name", "1.0"]
  }

  /** Where the SDL library is placed inside the package folder. */
  const ApkSdlLib := ApkFolder + "/lib/" + AndroidAbi + "/libsdl3_android.so"

  const ZipDexCmd := ["zip", "-g", "-j", "build/android/app-unsigned.apk", "build/android/apk/classes.dex"]

  /** Adds the native libraries, run from inside the package folder. */
  const ZipLibCmd := ["zip", "-g", "-r", "../app-unsigned.apk", "lib/"]

  /** Aligning and signing the package. */
  function SignSteps(e: Env): seq<Step> {
    [ Cmd(ZipalignCmd(e)), Cmd(ApkSignCmd(e)) ]
  }

  function ZipalignCmd(e: Env): seq<string> {
    [BuildTool(e, "zipalign"), "-v", "4", "build/android/app-unsigned.apk", "build/android/app-aligned.apk"]
  }

  /** Signs the aligned package with the debug key store, writing `build/android/app.apk`. */
  function ApkSignCmd(e: Env): seq<string> {
    [BuildTool(e, "apksigner"), "sign", "--ks", KeystoreFile, "--ks-pass", "pass:android",
     "--key-pass", "pass:android", "--out", "build/android/app.apk", "build/android/app-aligned.apk"]
  }

  lemma ApkSplits()
    ensures SplitAll(ApkFolder, '/') == ApkSegs && PlainSegments(ApkSegs)
    ensures SplitAll(JoinPath(Ups(3)), '/') == Ups(3)
  {
    ApkPlain();
    SplitJoin(ApkSegs);
    SplitJoin(Ups(3));
  }

  lemma ApkPlain()
    ensures PlainSegments(ApkSegs)
  {
    BuildPlain();
    AndroidApkPlain();
    PlainAppend(["build"], ["android"]);
    PlainAppend(["build", "android"], ["apk"]);
  }

  lemma AndroidApkPlain()
    ensures PlainSegments(["android"]) && PlainSegments(["apk"])
  {
    PlainOne("android");
    PlainOne("apk");
  }

  lemma PackageStepsShape(e: Env, h: Host)
    ensures forall i :: 0 <= i < |PackageSteps(e, h)| ==> !PackageSteps(e, h)[i].Cd?
    ensures EffectCount(PackageSteps(e, h)) == 6
  {
    EffectCountNoCd(PackageSteps(e, h));
  }

  lemma SignStepsShape(e: Env)
    ensures forall i :: 0 <= i < |SignSteps(e)| ==> !SignSteps(e)[i].Cd?
  {
  }

  /**
   * The `zip -r` stage: enter the package folder, zip, and climb back with
   * `../../..`.  When the zip fails the function returns at once, still
   * inside the package folder.
   */
  function ZipLibraries(w: World, ok: Oracle): (r: (bool, World))
    ensures r.1.fs == w.fs
    ensures r.1.log == w.log + [Run(ZipLibCmd, w.cwd + ApkSegs)]
    ensures r.0 == ok(|w.log|, Run(ZipLibCmd, w.cwd + ApkSegs))
    ensures r.0 ==> r.1.cwd == w.cwd
    ensures !r.0 ==> r.1.cwd == w.cwd + ApkSegs
  {
    ApkSplits();
    NormalizePlain(w.cwd, ApkSegs);
    var w1 := ChangeDir(w, ApkFolder);
    var (b, w2) := RunCmd(w1, ok, ZipLibCmd);
    if !b then (false, w2)
    else
      NormalizeUp(w.cwd, ApkSegs);
      (true, ChangeDir(w2, JoinPath(Ups(3))))
  }

  /** Everything after the `android.jar` check: package, zip, align, sign. */
  function AndroidPackage(w: World, ok: Oracle, e: Env, h: Host): (r: (bool, World))
    ensures r.1.fs == w.fs
    ensures |w.log| <= |r.1.log| && r.1.log[..|w.log|] == w.log
    ensures r.0 <==> AllOk(ok, r.1.log, |w.log|)
    ensures r.1.cwd == w.cwd || (!r.0 && r.1.cwd == w.cwd + ApkSegs)
  {
    PackageStepsShape(e, h);
    var (b1, w1) := RunSteps(w, ok, PackageSteps(e, h));
    RunStepsNoCd(w, ok, PackageSteps(e, h));
    if !b1 then (false, w1)
    else
      var (b2, w2) := ZipLibraries(w1, ok);
      AllOkSnoc(ok, w1.log, Run(ZipLibCmd, w1.cwd + ApkSegs), |w.log|);
      if !b2 then (false, w2)
      else
        SignStepsShape(e);
        var (b3, w3) := RunSteps(w2, ok, SignSteps(e));
        RunStepsNoCd(w2, ok, SignSteps(e));
        AllOkExtend(ok, w2.log, w3.log, |w.log|);
        PrefixTrans(w.log, w2.log, w3.log);
        (b3, w3)
  }

  /**
   * What a successful packaging records: the six packaging steps in the
   * starting directory, the library zip inside the package folder, then
   * alignment and signing back in the starting directory.
   */
  function PackageLog(cwd: seq<string>, e: Env, h: Host): seq<Action> {
    Trace(cwd, PackageSteps(e, h)) + [Run(ZipLibCmd, cwd + ApkSegs)] + Trace(cwd, SignSteps(e))
  }

  /** The effects of the steps before the library zip, in order. */
  lemma PackageStepsTrace(cwd: seq<string>, e: Env, h: Host)
    ensures Trace(cwd, PackageSteps(e, h)) ==
      [ Run(JavacCmd(e, h), cwd), Run(JarCmd, cwd), Run(D8Cmd(e), cwd), Run(Aapt2Cmd(e), cwd),
        CopyFile(Resolve(cwd, SdlAndroidFile), Resolve(cwd, ApkSdlLib)), Run(ZipDexCmd, cwd) ]
  {
    PackageStepsShape(e, h);
    TraceNoCd(cwd, PackageSteps(e, h));
  }

  /** The effects of aligning and signing, in order. */
  lemma SignStepsTrace(cwd: seq<string>, e: Env)
    ensures Trace(cwd, SignSteps(e)) == [Run(ZipalignCmd(e), cwd), Run(ApkSignCmd(e), cwd)]
  {
    SignStepsShape(e);
    TraceNoCd(cwd, SignSteps(e));
  }

  /**
   * Packaging, effect by effect: `javac`, `jar`, `d8`, `aapt2`, the copy of
   * the SDL library, the `classes.dex` zip, the library zip, `zipalign` and
   * finally `apksigner`.
   */
  lemma PackageLogSteps(cwd: seq<string>, e: Env, h: Host)
    ensures PackageLog(cwd, e, h) ==
      [ Run(JavacCmd(e, h), cwd), Run(JarCmd, cwd), Run(D8Cmd(e), cwd), Run(Aapt2Cmd(e), cwd),
        CopyFile(Resolve(cwd, SdlAndroidFile), Resolve(cwd, ApkSdlLib)), Run(ZipDexCmd, cwd),
        Run(ZipLibCmd, cwd + ApkSegs), Run(ZipalignCmd(e), cwd), Run(ApkSignCmd(e), cwd) ]
  {
    PackageStepsTrace(cwd, e, h);
    SignStepsTrace(cwd, e);
  }

  /** Successful packaging records exactly its log. */
  lemma AndroidPackageLog(w: World, ok: Oracle, e: Env, h: Host)
    ensures AndroidPackage(w, ok, e, h).0 ==> AndroidPackage(w, ok, e, h).1.log == w.log + PackageLog(w.cwd, e, h)
  {
    if AndroidPackage(w, ok, e, h).0 {
      PackageStepsShape(e, h);
      SignStepsShape(e);
      var p1 := RunSteps(w, ok, PackageSteps(e, h));
      RunStepsNoCd(w, ok, PackageSteps(e, h));
      RunStepsTrace(w, ok, PackageSteps(e, h));
      var z := ZipLibraries(p1.1, ok);
      var s := RunSteps(z.1, ok, SignSteps(e));
      assert AndroidPackage(w, ok, e, h) == s;
      RunStepsTrace(z.1, ok, SignSteps(e));
      var t1 := Trace(w.cwd, PackageSteps(e, h));
      var t2 := Trace(w.cwd, SignSteps(e));
      assert p1.1.log == w.log + t1;
      assert z.1.log == p1.1.log + [Run(ZipLibCmd, w.cwd + ApkSegs)] && z.1.cwd == w.cwd;
      assert s.1.log == z.1.log + t2;
      assert PackageLog(w.cwd, e, h) == t1 + [Run(ZipLibCmd, w.cwd + ApkSegs)] + t2;
      Assoc4(w.log, t1, [Run(ZipLibCmd, w.cwd + ApkSegs)], t2);
    }
  }

  /** Successful packaging ends by signing the package with `apksigner`. */
  lemma AndroidPackageSigns(w: World, ok: Oracle, e: Env, h: Host)
    ensures AndroidPackage(w, ok, e, h).0 ==>
      EndsWithEffect(AndroidPackage(w, ok, e, h).1.log, |w.log|, Run(ApkSignCmd(e), w.cwd))
  {
    AndroidPackageLog(w, ok, e, h);
    PackageLogSteps(w.cwd, e, h);
  }

  /**
   * `build_app_android`: a missing NDK or SDK location returns `1`, which
   * is success with nothing run; otherwise compile, check the Java home and
   * `android.jar` (listing the installed platforms when it is missing, a
   * failure either way), then package.
   */
  function BuildAppAndroid(w: World, ok: Oracle, g: Config, e: Env, h: Host): (r: (bool, World))
    ensures !AndroidPathsSet(e) ==> r == (true, w)
    ensures r.1.fs == w.fs
    ensures |w.log| <= |r.1.log| && r.1.log[..|w.log|] == w.log
    ensures AndroidPathsSet(e) ==>
      (r.0 <==> AllOk(ok, r.1.log, |w.log|) && |e.androidJavaHome| > 0 && Exists(w, AndroidJar(e)))
    ensures r.0 ==> r.1.cwd == w.cwd
    ensures AndroidPathsSet(e) ==> |r.1.log| > |w.log| && r.1.log[|w.log|] == Run(AndroidCompileCmd(g, e, h.os), w.cwd)
    ensures r.1.cwd == w.cwd || r.1.cwd == w.cwd + ApkSegs
  {
    if !AndroidPathsSet(e) then (true, w)
    else
      var a := Run(AndroidCompileCmd(g, e, h.os), w.cwd);
      var (b1, w1) := RunCmd(w, ok, AndroidCompileCmd(g, e, h.os));
      AllOkSnoc(ok, w.log, a, |w.log|);
      if !b1 then (false, w1)
      else if |e.androidJavaHome| == 0 then (false, w1)
      else if !Exists(w1, AndroidJar(e)) then
        var w2 := RunIgnored(w1, ok, ["ls", e.androidSdkLocation + "/platforms"]);
        assert w2.log[..|w1.log|] == w1.log;
        PrefixTrans(w.log, w1.log, w2.log);
        (false, w2)
      else
        var (b, w2) := AndroidPackage(w1, ok, e, h);
        AllOkExtend(ok, w1.log, w2.log, |w.log|);
        PrefixTrans(w.log, w1.log, w2.log);
        assert w2.log[|w.log|] == w1.log[|w.log|];
        (b, w2)
  }

  /**
   * A successful build with both Android paths set records the compile and
   * then the whole packaging, ten effects in all, the last one `apksigner`
   * writing `build/android/app.apk`.
   */
  lemma BuildAppAndroidLog(w: World, ok: Oracle, g: Config, e: Env, h: Host)
    ensures AndroidPathsSet(e) && BuildAppAndroid(w, ok, g, e, h).0 ==>
      BuildAppAndroid(w, ok, g, e, h).1.log == w.log + [Run(AndroidCompileCmd(g, e, h.os), w.cwd)] + PackageLog(w.cwd, e, h)
    ensures AndroidPathsSet(e) && BuildAppAndroid(w, ok, g, e, h).0 ==>
      |BuildAppAndroid(w, ok, g, e, h).1.log| == |w.log| + 10 &&
      EndsWithEffect(BuildAppAndroid(w, ok, g, e, h).1.log, |w.log|, Run(ApkSignCmd(e), w.cwd))
  {
    if AndroidPathsSet(e) && BuildAppAndroid(w, ok, g, e, h).0 {
      var w1 := RunCmd(w, ok, AndroidCompileCmd(g, e, h.os)).1;
      assert BuildAppAndroid(w, ok, g, e, h) == AndroidPackage(w1, ok, e, h);
      AndroidPackageLog(w1, ok, e, h);
      PackageLogSteps(w.cwd, e, h);
    }
  }

  /**
   * The `zip -r` failure strands the process: with every other effect
   * succeeding, `build_app_android` fails and leaves the working directory
   * in `build/android/apk`, where every later relative path goes wrong.
   */
  lemma ApkZipFailureStrandsCwd(w: World, ok: Oracle, g: Config, e: Env, h: Host)
    requires AndroidPathsSet(e) && |e.androidJavaHome| > 0
    requires Exists(w, AndroidJar(e))
    requires forall i: nat, a: Action :: ok(i, a) <==> i != |w.log| + 7
    ensures !BuildAppAndroid(w, ok, g, e, h).0
    ensures BuildAppAndroid(w, ok, g, e, h).1.cwd == w.cwd + ApkSegs
  {
    var w1 := RunCmd(w, ok, AndroidCompileCmd(g, e, h.os)).1;
    PackageStepsShape(e, h);
    RunStepsNoCd(w1, ok, PackageSteps(e, h));
    var r1 := RunSteps(w1, ok, PackageSteps(e, h));
    assert AllOk(ok, r1.1.log, |w1.log|);
    var w2 := r1.1;
    assert |w2.log| == |w.log| + 7;
    assert !ZipLibraries(w2, ok).0;
  }

  // ---------------------------------------------------------------------
  // iOS

  function XcrunCmd(device: bool): seq<string> {
    ["xcrun", "--sdk", IosSdk(device), "--show-sdk-path"]
  }

  /**
   * The compile and link of `Player`: the SDK and the SDL library follow
   * the global `device` flag, the frameworks the global platform.
   */
  function IosCompileCmd(g: Config, h: Host): seq<string> {
    ["clang"] + AppDefaultCmd(g, h.os) + IosSourceArgs(g, h) + IosLinkArgs(h.os, g.platform)
  }

  /** Target, SDK, include paths, the source and the SDL library of `Player`. */
  function IosSourceArgs(g: Config, h: Host): seq<string> {
    ["-arch", "arm64", "-isysroot", h.iosSdkPath] + Includes + ["-DOS_IOS", "src/main.c", SdlIosFile(g.device)]
  }

  function IosLinkArgs(os: Os, p: Platform): seq<string> {
    Frameworks(os, p) + ["-ObjC", "-o", "build/ios/Player.app/Player"]
  }

  /**
   * The compile command as it is started. When `xcrun` fails the SDK path
   * is the null pointer `run_cmd_get_stdout` returns, and the argument list
   * the process sees ends at that null, right after `-isysroot`.
   */
  function IosCompileArgv(g: Config, h: Host, sdkOk: bool): seq<string> {
    if sdkOk then IosCompileCmd(g, h) else ["clang"] + AppDefaultCmd(g, h.os) + ["-arch", "arm64", "-isysroot"]
  }

  /**
   * Without an SDK path the command is the full one cut just before the
   * slot of the path, so it ends with a dangling `-isysroot`.
   */
  lemma IosCompileArgvCut(g: Config, h: Host)
    ensures var full := IosCompileCmd(g, h); var k := |IosCompileArgv(g, h, false)|;
      0 < k < |full| && IosCompileArgv(g, h, false) == full[..k] &&
      full[k] == h.iosSdkPath && full[k - 1] == "-isysroot"
    ensures IosCompileArgv(g, h, true) == IosCompileCmd(g, h)
  {
    var pre := ["clang"] + AppDefaultCmd(g, h.os);
    var x := ["-arch", "arm64", "-isysroot"];
    var m := ["-DOS_IOS", "src/main.c", SdlIosFile(g.device)];
    var l := IosLinkArgs(h.os, g.platform);
    assert IosSourceArgs(g, h) == x + [h.iosSdkPath] + Includes + m;
    Regroup(pre, x, h.iosSdkPath, Includes, m, l);
    var cut := IosCompileArgv(g, h, false);
    assert cut == pre + x;
    CutAt(cut, h.iosSdkPath, Includes + m + l);
  }

  /**
   * `xcrun` prints the SDK path (the path it prints is `h.iosSdkPath`),
   * then the compile decides the result; a failed `xcrun` leaves the
   * compile without its SDK path.
   */
  function IosCompile(w: World, ok: Oracle, g: Config, h: Host): (r: (bool, World))
    ensures r.1.fs == w.fs && r.1.cwd == w.cwd
    ensures r.1.log == w.log + [Run(XcrunCmd(g.device), w.cwd), Run(IosCompileArgv(g, h, ok(|w.log|, Run(XcrunCmd(g.device), w.cwd))), w.cwd)]
    ensures r.0 == ok(|w.log| + 1, r.1.log[|w.log| + 1])
  {
    var sdkOk := ok(|w.log|, Run(XcrunCmd(g.device), w.cwd));
    var w1 := RunIgnored(w, ok, XcrunCmd(g.device));
    RunCmd(w1, ok, IosCompileArgv(g, h, sdkOk))
  }

  const NibOutput := "build/LaunchScreen.nib"
  const NibInput := "ios/LaunchScreen.xib"
  const IbtoolCmd := ["ibtool", NibInput, "--compile", NibOutput]

  function BundleCopies(): seq<Step> {
    [ CopyStep(NibOutput, "build/ios/LaunchScreen.nib"),
      CopyStep("ios/Info.plist", "build/ios/Player.app/Info.plist") ]
  }

  /** The two copies into the bundle, stopping at the first that fails. */
  function CopyIntoBundle(w: World, ok: Oracle): (r: (bool, World))
    ensures r.1.fs == w.fs && r.1.cwd == w.cwd
    ensures |w.log| < |r.1.log| && r.1.log[..|w.log|] == w.log
    ensures r.0 <==> AllOk(ok, r.1.log, |w.log|)
    ensures r.1.log[|w.log|] == CopyFile(Resolve(w.cwd, NibOutput), Resolve(w.cwd, "build/ios/LaunchScreen.nib"))
    ensures r.0 ==>
      |r.1.log| == |w.log| + 2 &&
      r.1.log[|w.log| + 1] == CopyFile(Resolve(w.cwd, "ios/Info.plist"), Resolve(w.cwd, "build/ios/Player.app/Info.plist"))
  {
    RunStepsNoCd(w, ok, BundleCopies());
    RunStepsFirstCopy(w, ok, BundleCopies());
    RunStepsTrace(w, ok, BundleCopies());
    RunSteps(w, ok, BundleCopies())
  }

  /**
   * The launch screen and the bundle's `Info.plist`: `ibtool` runs whenever
   * `needs_rebuild` answers non-zero, which includes its error answer `-1`.
   */
  function IosBundle(w: World, ok: Oracle): (r: (bool, World))
    ensures r.1.fs == w.fs && r.1.cwd == w.cwd
    ensures |w.log| < |r.1.log| && r.1.log[..|w.log|] == w.log
    ensures r.0 <==> AllOk(ok, r.1.log, |w.log|)
    ensures NeedsRebuild(w, NibOutput, [NibInput]) != 0 <==> r.1.log[|w.log|] == Run(IbtoolCmd, w.cwd)
  {
    if NeedsRebuild(w, NibOutput, [NibInput]) != 0 then
      AllOkSnoc(ok, w.log, Run(IbtoolCmd, w.cwd), |w.log|);
      var (b1, w1) := RunCmd(w, ok, IbtoolCmd);
      if !b1 then (false, w1)
      else
        var (b2, w2) := CopyIntoBundle(w1, ok);
        AllOkExtend(ok, w1.log, w2.log, |w.log|);
        PrefixTrans(w.log, w1.log, w2.log);
        assert w2.log[|w.log|] == w1.log[|w.log|];
        (b2, w2)
    else CopyIntoBundle(w, ok)
  }

  /** A missing `.xib` makes `needs_rebuild` answer `-1`, and `ibtool` is run anyway. */
  lemma MissingXibRunsIbtool(w: World, ok: Oracle)
    requires Exists(w, NibOutput) && !Exists(w, NibInput)
    ensures NeedsRebuild(w, NibOutput, [NibInput]) == -1
    ensures IosBundle(w, ok).1.log[|w.log|] == Run(IbtoolCmd, w.cwd)
  {
  }

  const ProfileFile := "env/profile.mobileprovision"
  const DeveloperNameFile := "env/developer_name.txt"
  const EmbeddedProfile := "build/ios/Player.app/embedded.mobileprovision"
  const FindIdentityCmd := ["security", "find-identity", "-v", "-p", "codesigning"]
  const CmsCmd := ["security", "cms", "-D", "-i", "build/ios/Player.app/embedded.mobileprovision"]
  const EntitlementsCmd := ["/usr/libexec/PlistBuddy", "-x", "-c", "Print :Entitlements", "build/ios/profile.plist"]

  function CodesignCmd(name: string): seq<string> {
    ["codesign", "--force", "--sign", name, "--preserve-metadata=identifier,entitlements",
     "--entitlements", "build/ios/entitlements.plist", "build/ios/Player.app/Player"]
  }

  /** The content of `env/developer_name.txt`, empty when it cannot be read. */
  function DeveloperName(w: World): string {
    match ReadFile(w, DeveloperNameFile)
    case Some(t) => t
    case None => ""
  }

  /** The identity handed to `codesign`: the file's content without its last character. */
  function SigningIdentity(text: string): (r: string)
    requires |text| > 0
    ensures r + [text[|text| - 1]] == text
  {
    text[..|text| - 1]
  }

  /** The last effect recorded is `codesign` with the identity taken from `name`, run in `cwd`. */
  predicate EndsSigned(log: seq<Action>, name: string, cwd: seq<string>) {
    |name| > 0 && |log| > 0 && log[|log| - 1] == Run(CodesignCmd(SigningIdentity(name)), cwd)
  }

  /**
   * Device signing: the profile and the developer name must exist, the
   * profile copy must succeed and the name must be non-empty; the two
   * `security`/`PlistBuddy` runs and `codesign` itself are not checked.
   */
  function IosSign(w: World, ok: Oracle): (r: (bool, World))
    ensures r.1.fs == w.fs && r.1.cwd == w.cwd
    ensures |w.log| <= |r.1.log| && r.1.log[..|w.log|] == w.log
    ensures r.0 <==> (Exists(w, ProfileFile) && Exists(w, DeveloperNameFile)
      && ok(|w.log|, CopyFile(Resolve(w.cwd, ProfileFile), Resolve(w.cwd, EmbeddedProfile)))
      && |DeveloperName(w)| > 0)
    ensures r.0 ==> EndsSigned(r.1.log, DeveloperName(w), w.cwd)
  {
    if !Exists(w, ProfileFile) then (false, w)
    else if !Exists(w, DeveloperNameFile) then (false, RunIgnored(w, ok, FindIdentityCmd))
    else
      var (b, w1) := Copy(w, ok, ProfileFile, EmbeddedProfile);
      assert b == ok(|w.log|, CopyFile(Resolve(w.cwd, ProfileFile), Resolve(w.cwd, EmbeddedProfile)));
      if !b then (false, w1)
      else
        assert w1.fs == w.fs && w1.cwd == w.cwd && DeveloperName(w1) == DeveloperName(w);
        var r := SignWithName(w1, ok);
        PrefixTrans(w.log, w1.log, r.1.log);
        r
  }

  /** After the profile is in the bundle: extract entitlements, read the name, sign. */
  function SignWithName(w: World, ok: Oracle): (r: (bool, World))
    ensures r.1.fs == w.fs && r.1.cwd == w.cwd
    ensures |w.log| <= |r.1.log| && r.1.log[..|w.log|] == w.log
    ensures r.0 <==> |DeveloperName(w)| > 0
    ensures |r.1.log| == |w.log| + 3
    ensures r.0 ==> EndsSigned(r.1.log, DeveloperName(w), w.cwd)
  {
    var w1 := RunIgnored(RunIgnored(w, ok, CmsCmd), ok, EntitlementsCmd);
    assert DeveloperName(w1) == DeveloperName(w);
    var name := DeveloperName(w1);
    if |name| == 0 then (false, RunIgnored(w1, ok, FindIdentityCmd))
    else
      var a := Run(CodesignCmd(SigningIdentity(name)), w.cwd);
      var w2 := RunIgnored(w1, ok, CodesignCmd(SigningIdentity(name)));
      (true, w2)
  }

  /**
   * `build_app_ios` with the global configuration `g`: compile, bundle,
   * and for a device build sign.  Only the compile, `ibtool` and the copies
   * are checked.
   */
  function BuildAppIos(w: World, ok: Oracle, g: Config, h: Host): (r: (bool, World))
    ensures r.1.fs == w.fs && r.1.cwd == w.cwd
    ensures |w.log| + 2 <= |r.1.log| && r.1.log[..|w.log|] == w.log
    ensures r.1.log[|w.log|] == Run(XcrunCmd(g.device), w.cwd) && r.1.log[|w.log| + 1] == Run(IosCompileArgv(g, h, ok(|w.log|, Run(XcrunCmd(g.device), w.cwd))), w.cwd)
    ensures r.0 ==> ok(|w.log| + 1, Run(IosCompileArgv(g, h, ok(|w.log|, Run(XcrunCmd(g.device), w.cwd))), w.cwd))
    ensures !g.device ==> (r.0 <==> AllOk(ok, r.1.log, |w.log| + 1))
  {
    var (b1, w1) := IosCompile(w, ok, g, h);
    AllOkSnoc(ok, w.log + [Run(XcrunCmd(g.device), w.cwd)], Run(IosCompileArgv(g, h, ok(|w.log|, Run(XcrunCmd(g.device), w.cwd))), w.cwd), |w.log| + 1);
    assert w1.log[..|w.log|] == w.log;
    if !b1 then (false, w1)
    else
      var (b2, w2) := BundleAndSign(w1, ok, g.device);
      AllOkExtend(ok, w1.log, w2.log, |w.log| + 1);
      PrefixTrans(w.log, w1.log, w2.log);
      assert w2.log[|w.log|] == w1.log[|w.log|] && w2.log[|w.log| + 1] == w1.log[|w.log| + 1];
      (b2, w2)
  }

  /**
   * A device build fails without the provisioning profile or with an empty
   * developer name, and when it succeeds its last effect is `codesign` with
   * the identity read from `env/developer_name.txt`.
   */
  lemma IosDeviceSigning(w: World, ok: Oracle, g: Config, h: Host)
    requires g.device
    ensures !Exists(w, ProfileFile) || |DeveloperName(w)| == 0 ==> !BuildAppIos(w, ok, g, h).0
    ensures BuildAppIos(w, ok, g, h).0 ==> EndsSigned(BuildAppIos(w, ok, g, h).1.log, DeveloperName(w), w.cwd)
  {
    var w1 := IosCompile(w, ok, g, h).1;
    assert w1 == w.(log := w1.log);
    assert DeveloperName(w1) == DeveloperName(w) && Exists(w1, ProfileFile) == Exists(w, ProfileFile);
  }

  /** After the compile: the bundle, then for a device build the signing. */
  function BundleAndSign(w: World, ok: Oracle, device: bool): (r: (bool, World))
    ensures r.1.fs == w.fs && r.1.cwd == w.cwd
    ensures |w.log| <= |r.1.log| && r.1.log[..|w.log|] == w.log
    ensures !device ==> (r.0 <==> AllOk(ok, r.1.log, |w.log|))
    ensures device && (!Exists(w, ProfileFile) || |DeveloperName(w)| == 0) ==> !r.0
    ensures device && r.0 ==> EndsSigned(r.1.log, DeveloperName(w), w.cwd)
  {
    var (b1, w1) := IosBundle(w, ok);
    if !b1 || !device then (b1, w1)
    else
      var (b2, w2) := IosSign(w1, ok);
      PrefixTrans(w.log, w1.log, w2.log);
      assert DeveloperName(w1) == DeveloperName(w);
      (b2, w2)
  }
}
