/**
 * Building the SDL dependency library (`build_sdl`, `build_sdl_android`,
 * `build_sdl_ios` in nob.c): each builds only when its artifact is missing
 * (or, natively, when forced), inside SDL's source tree, and puts the
 * working directory back on the way out.
 */
module Sdl {
  import opened Base
  import opened Options
  import opened Environment
  import opened World
  import opened Flags

  /** `SDL_PATH`, SDL's source tree. */
  const SdlPathSegs := ["lib", "SDL-3.2.16"]
  const SdlPath := JoinPath(SdlPathSegs)

  /** `SDL_ANDROID_FILE`. */
  const SdlAndroidFileSegs := ["build", "libsdl3_android.so"]
  const SdlAndroidFile := JoinPath(SdlAndroidFileSegs)

  /** From SDL's `build` directory (three levels down) back to the project root. */
  function FromSdlBuild(segs: seq<string>): string {
    JoinPath(Ups(3) + segs)
  }

  const GitClean := ["git", "clean", "-fdx", "build"]

  /** The macOS deployment target, passed to CMake on a macOS host only. */
  function DeploymentTarget(os: Os): seq<string> {
    if os == MacOs then ["-DCMAKE_OSX_DEPLOYMENT_TARGET=" + MacosTarget] else []
  }

  /** The stages of `build_sdl` after it has entered SDL's source tree. */
  function NativeSdlSteps(h: Host): seq<Step> {
    [ Cmd(GitClean),
      Cmd(["cmake", "-B", "build", "-DBUILD_SHARED_LIBS=OFF", "-DCMAKE_POSITION_INDEPENDENT_CODE=ON"]
          + DeploymentTarget(h.os)),
      Cmd(["cmake", "--build", "build", JobsFlag(h.jobs)]),
      Cd("build"),
      CopyStep("libSDL3.a", FromSdlBuild(SdlFileSegs)) ]
  }

  /**
   * `build_sdl(force)`: with the library present and no force, nothing is
   * run; otherwise the stages run in SDL's tree and, on success and on
   * every failure alike, the working directory is restored.
   */
  function BuildSdl(w: World, ok: Oracle, h: Host, force: bool): (r: (bool, World))
    ensures Exists(w, SdlFile) && !force ==> r == (true, w)
    ensures r.1.cwd == w.cwd && r.1.fs == w.fs
    ensures |w.log| <= |r.1.log| && r.1.log[..|w.log|] == w.log
    ensures r.0 <==> AllOk(ok, r.1.log, |w.log|)
    ensures (!Exists(w, SdlFile) || force) ==>
      |r.1.log| > |w.log| && r.1.log[|w.log|] == Run(GitClean, Normalize(w.cwd, SdlPathSegs))
  {
    var saved := w.cwd;
    if !Exists(w, SdlFile) || force then
      var w0 := ChangeDir(w, SdlPath);
      var (b, w1) := RunSteps(w0, ok, NativeSdlSteps(h));
      RunStepsFirst(w0, ok, NativeSdlSteps(h));
      SdlPathSplits();
      (b, RestoreDir(w1, saved))
    else (true, w)
  }

  /**
   * What `build_sdl` is for: a build that runs and succeeds ends by copying
   * `libSDL3.a` from SDL's `build` directory onto the very file the gate
   * checks, so the next call finds it.
   */
  lemma BuildSdlEndsWithCopy(w: World, ok: Oracle, h: Host, force: bool)
    requires !Exists(w, SdlFile) || force
    requires BuildSdl(w, ok, h, force).0
    ensures EndsWithEffect(BuildSdl(w, ok, h, force).1.log, |w.log|,
      CopyFile(Resolve(w.cwd + SdlBuildSegs, "libSDL3.a"), Resolve(w.cwd, SdlFile)))
  {
    var w0 := ChangeDir(w, SdlPath);
    var w1 := RunSteps(w0, ok, NativeSdlSteps(h)).1;
    assert BuildSdl(w, ok, h, force) == (RunSteps(w0, ok, NativeSdlSteps(h)).0, RestoreDir(w1, w.cwd));
    SdlPathSplits();
    NativeSdlEndsWithCopy(w0, ok, h, w.cwd);
  }

  lemma SdlPathSplits()
    ensures SplitAll(SdlPath, '/') == SdlPathSegs
    ensures PlainSegments(SdlPathSegs)
  {
    PlainOne("lib");
    PlainOne("SDL-3.2.16");
    PlainAppend(["lib"], ["SDL-3.2.16"]);
    SplitJoin(SdlPathSegs);
  }

  lemma SdlFilePlain()
    ensures PlainSegments(SdlFileSegs)
  {
    PlainOne("build");
    PlainOne("libsdl3_native.a");
    PlainAppend(["build"], ["libsdl3_native.a"]);
  }

  /**
   * The copy at the end of `build_sdl` lands on the very file the gate
   * checks: from SDL's `build` directory, `../../../build/libsdl3_native.a`
   * is `build/libsdl3_native.a` of the directory the script started in.
   */
  lemma NativeCopyTargetsArtifact(cwd: seq<string>)
    ensures Resolve(Normalize(Normalize(cwd, SdlPathSegs), ["build"]), FromSdlBuild(SdlFileSegs))
      == Resolve(cwd, SdlFile)
  {
    SdlFilePlain();
    CopyTargetsArtifact(cwd, SdlFileSegs);
  }

  /** The same for any artifact path: three levels up from SDL's `build` directory is the start. */
  lemma CopyTargetsArtifact(cwd: seq<string>, segs: seq<string>)
    requires |segs| > 0 && PlainSegments(segs)
    ensures Resolve(Normalize(Normalize(cwd, SdlPathSegs), ["build"]), FromSdlBuild(segs))
      == Resolve(cwd, JoinPath(segs))
  {
    var inner := SdlBuildDir(cwd);
    UpsThen(segs);
    ResolveJoin(inner, Ups(3) + segs);
    NormalizeAppend(inner, Ups(3), segs);
    SdlBuildDirUp(cwd);
    assert segs[0][0] != '/' by { assert segs[0][0] in segs[0]; }
    ResolveJoin(cwd, segs);
  }

  /** SDL's `build` directory, entered from `cwd`. */
  lemma SdlBuildDir(cwd: seq<string>) returns (inner: seq<string>)
    ensures inner == Normalize(Normalize(cwd, SdlPathSegs), ["build"])
    ensures inner == cwd + SdlBuildSegs
  {
    SdlBuildPlain();
    NormalizePlain(cwd, SdlPathSegs);
    NormalizePlain(cwd + SdlPathSegs, ["build"]);
    inner := cwd + SdlPathSegs + ["build"];
    assert inner == cwd + SdlBuildSegs;
  }

  const SdlBuildSegs := SdlPathSegs + ["build"]

  lemma SdlBuildPlain()
    ensures PlainSegments(SdlPathSegs) && PlainSegments(["build"]) && PlainSegments(SdlBuildSegs)
  {
    SdlPathSplits();
    BuildPlain();
    PlainAppend(SdlPathSegs, ["build"]);
  }

  lemma SplitBuild()
    ensures SplitAll("build", '/') == ["build"]
  {
    BuildPlain();
    SplitJoin(["build"]);
  }

  /**
   * An SDL build chain entered at SDL's tree below `saved`, whose only
   * directory change is `cd build` and whose last step copies `lib` onto
   * `FromSdlBuild(segs)`, ends, when it succeeds, by copying the library
   * from SDL's `build` directory onto `segs` below `saved`.
   */
  lemma SdlStepsEndWithCopy(v: World, ok: Oracle, steps: seq<Step>, k: nat, saved: seq<string>, lib: string, segs: seq<string>)
    requires |segs| > 0 && PlainSegments(segs) && v.cwd == Normalize(saved, SdlPathSegs)
    requires k < |steps| - 1 && steps[k] == Cd("build") && steps[|steps| - 1] == CopyStep(lib, FromSdlBuild(segs))
    requires forall i :: 0 <= i < |steps| - 1 && i != k ==> !steps[i].Cd?
    requires RunSteps(v, ok, steps).0
    ensures EndsWithEffect(RunSteps(v, ok, steps).1.log, |v.log|,
      CopyFile(Resolve(saved + SdlBuildSegs, lib), Resolve(saved, JoinPath(segs))))
  {
    RunStepsEndCopy(v, ok, steps, k, "build");
    SplitBuild();
    var inner := SdlBuildDir(saved);
    CopyTargetsArtifact(saved, segs);
  }

  /** A successful `build_sdl` chain ends with the copy onto the native artifact. */
  lemma NativeSdlEndsWithCopy(v: World, ok: Oracle, h: Host, saved: seq<string>)
    requires v.cwd == Normalize(saved, SdlPathSegs) && RunSteps(v, ok, NativeSdlSteps(h)).0
    ensures EndsWithEffect(RunSteps(v, ok, NativeSdlSteps(h)).1.log, |v.log|,
      CopyFile(Resolve(saved + SdlBuildSegs, "libSDL3.a"), Resolve(saved, SdlFile)))
  {
    var steps := NativeSdlSteps(h);
    assert steps[3] == Cd("build") && steps[4] == CopyStep("libSDL3.a", FromSdlBuild(SdlFileSegs));
    assert forall i :: 0 <= i < 3 ==> steps[i].Cmd?;
    SdlFilePlain();
    SdlStepsEndWithCopy(v, ok, steps, 3, saved, "libSDL3.a", SdlFileSegs);
  }

  lemma BuildPlain()
    ensures PlainSegments(["build"])
  {
    PlainOne("build");
  }

  /** Three levels up from SDL's `build` directory is where the script started. */
  lemma SdlBuildDirUp(cwd: seq<string>)
    ensures Normalize(cwd + SdlBuildSegs, Ups(3)) == cwd
  {
    SdlBuildPlain();
    NormalizeUp(cwd, SdlBuildSegs);
  }

  lemma UpsThen(segs: seq<string>)
    requires PlainSegments(segs)
    ensures |Ups(3) + segs| > 0 && Segments(Ups(3) + segs)
    ensures (Ups(3) + segs)[0][0] != '/'
  {
    assert (Ups(3) + segs)[0] == "..";
    forall i | 0 <= i < |Ups(3) + segs| ensures |(Ups(3) + segs)[i]| > 0 && '/' !in (Ups(3) + segs)[i] {
      if i >= 3 { assert (Ups(3) + segs)[i] == segs[i - 3]; }
    }
  }


  // ---------------------------------------------------------------------
  // Android

  const AndroidApi := "34"
  const AndroidAbi := "arm64-v8a"

  function AndroidSdlSteps(e: Env, h: Host): seq<Step> {
    [ Cmd(["cmake", "-B", "build",
           "-DCMAKE_TOOLCHAIN_FILE=" + e.androidNdkLocation + "/build/cmake/android.toolchain.cmake",
           "-DANDROID_PLATFORM=" + AndroidApi,
           "-DANDROID_ABI=" + AndroidAbi,
           "-DSDL_SHARED=ON", "-DSDL_STATIC=OFF", "-DCMAKE_POSITION_INDEPENDENT_CODE=ON"]),
      Cmd(["cmake", "--build", "build", JobsFlag(h.jobs)]),
      Cd("build"),
      CopyStep("libSDL3.so", FromSdlBuild(SdlAndroidFileSegs)) ]
  }

  /** Both locations `build_sdl_android` and `build_app_android` demand. */
  predicate AndroidPathsSet(e: Env) {
    |e.androidNdkLocation| > 0 && |e.androidSdkLocation| > 0
  }

  /**
   * `build_sdl_android`: like `build_sdl` without a force switch, except
   * that a missing NDK or SDK location, checked after `git clean`, returns
   * `1`, which is success, and leaves the working directory in SDL's tree.
   */
  function BuildSdlAndroid(w: World, ok: Oracle, e: Env, h: Host): (r: (bool, World))
    ensures Exists(w, SdlAndroidFile) ==> r == (true, w)
    ensures r.1.fs == w.fs
    ensures |w.log| <= |r.1.log| && r.1.log[..|w.log|] == w.log
    ensures r.0 <==> AllOk(ok, r.1.log, |w.log|)
    ensures AndroidPathsSet(e) ==> r.1.cwd == w.cwd
    ensures !Exists(w, SdlAndroidFile) ==> |r.1.log| > |w.log| && r.1.log[|w.log|] == Run(GitClean, Normalize(w.cwd, SdlPathSegs))
  {
    if !Exists(w, SdlAndroidFile) then
      var w0 := ChangeDir(w, SdlPath);
      SdlPathSplits();
      var (b1, w1) := RunCmd(w0, ok, GitClean);
      AllOkSnoc(ok, w.log, Run(GitClean, w0.cwd), |w.log|);
      if !b1 then (false, RestoreDir(w1, w.cwd))
      else
        var r := AndroidSdlAfterClean(w1, ok, e, h, w.cwd);
        AllOkExtend(ok, w1.log, r.1.log, |w.log|);
        PrefixTrans(w.log, w1.log, r.1.log);
        assert r.1.log[|w.log|] == w1.log[|w.log|];
        r
    else (true, w)
  }

  /** The part of `build_sdl_android` after a successful `git clean`, entered with `saved` on record. */
  function AndroidSdlAfterClean(w: World, ok: Oracle, e: Env, h: Host, saved: seq<string>): (r: (bool, World))
    ensures r.1.fs == w.fs
    ensures |w.log| <= |r.1.log| && r.1.log[..|w.log|] == w.log
    ensures r.0 <==> AllOk(ok, r.1.log, |w.log|)
    ensures AndroidPathsSet(e) ==> r.1.cwd == saved
    ensures !AndroidPathsSet(e) ==> r == (true, w)
  {
    if |e.androidNdkLocation| == 0 || |e.androidSdkLocation| == 0 then (true, w)
    else
      var (b, w2) := RunSteps(w, ok, AndroidSdlSteps(e, h));
      (b, RestoreDir(w2, saved))
  }

  /**
   * The early `return 1`: with the Android library missing, a clean that
   * succeeds and no NDK location, the call reports success although nothing
   * was built, and the working directory is left inside SDL's tree.
   */
  lemma SdlAndroidMissingNdk(w: World, ok: Oracle, e: Env, h: Host)
    requires !Exists(w, SdlAndroidFile)
    requires ok(|w.log|, Run(GitClean, Normalize(w.cwd, SdlPathSegs)))
    requires |e.androidNdkLocation| == 0
    ensures BuildSdlAndroid(w, ok, e, h).0
    ensures BuildSdlAndroid(w, ok, e, h).1.cwd == w.cwd + SdlPathSegs
    ensures BuildSdlAndroid(w, ok, e, h).1.cwd != w.cwd
  {
    SdlPathSplits();
    NormalizePlain(w.cwd, SdlPathSegs);
  }
  /**
   * What `build_sdl_android` is for: with the library missing and both
   * locations set, a successful call ends by copying `libSDL3.so` from
   * SDL's `build` directory onto the very file the gate checks.
   */
  lemma BuildSdlAndroidEndsWithCopy(w: World, ok: Oracle, e: Env, h: Host)
    requires !Exists(w, SdlAndroidFile) && AndroidPathsSet(e)
    requires BuildSdlAndroid(w, ok, e, h).0
    ensures EndsWithEffect(BuildSdlAndroid(w, ok, e, h).1.log, |w.log|,
      CopyFile(Resolve(w.cwd + SdlBuildSegs, "libSDL3.so"), Resolve(w.cwd, SdlAndroidFile)))
  {
    var w0 := ChangeDir(w, SdlPath);
    SdlPathSplits();
    var w1 := RunCmd(w0, ok, GitClean).1;
    AndroidSdlEndsWithCopy(w1, ok, e, h, w.cwd);
  }

  lemma AndroidSdlEndsWithCopy(v: World, ok: Oracle, e: Env, h: Host, saved: seq<string>)
    requires v.cwd == Normalize(saved, SdlPathSegs) && RunSteps(v, ok, AndroidSdlSteps(e, h)).0
    ensures EndsWithEffect(RunSteps(v, ok, AndroidSdlSteps(e, h)).1.log, |v.log|,
      CopyFile(Resolve(saved + SdlBuildSegs, "libSDL3.so"), Resolve(saved, SdlAndroidFile)))
  {
    var steps := AndroidSdlSteps(e, h);
    assert steps[2] == Cd("build") && steps[3] == CopyStep("libSDL3.so", FromSdlBuild(SdlAndroidFileSegs));
    assert forall i :: 0 <= i < 2 ==> steps[i].Cmd?;
    SdlAndroidFilePlain();
    SdlStepsEndWithCopy(v, ok, steps, 2, saved, "libSDL3.so", SdlAndroidFileSegs);
  }

  lemma SdlAndroidFilePlain()
    ensures PlainSegments(SdlAndroidFileSegs)
  {
    PlainOne("build");
    PlainOne("libsdl3_android.so");
    PlainAppend(["build"], ["libsdl3_android.so"]);
  }


  // ---------------------------------------------------------------------
  // iOS

  /** The SDK name `build_sdl_ios` and `build_app_ios` pick. */
  function IosSdk(device: bool): string {
    if device then "iphoneos" else "iphonesimulator"
  }

  /** `build/libsdl3_<sdk>.a`: one library per SDK. */
  function SdlIosFileSegs(device: bool): seq<string> {
    ["build", "libsdl3_" + IosSdk(device) + ".a"]
  }

  function SdlIosFile(device: bool): string {
    JoinPath(SdlIosFileSegs(device))
  }

  /** The device and simulator libraries are different files, so one never gates the other. */
  lemma SdlIosFilesDiffer()
    ensures SdlIosFile(true) != SdlIosFile(false)
  {
    var a, b := SdlIosFile(true), SdlIosFile(false);
    assert a == "build" + "/" + ("libsdl3_" + "iphoneos" + ".a");
    assert b == "build" + "/" + ("libsdl3_" + "iphonesimulator" + ".a");
    assert |a| != |b|;
  }

  function IosSdlSteps(device: bool): seq<Step> {
    [ Cmd(GitClean),
      Cmd(["cmake", "-B", "build", "-DCMAKE_SYSTEM_NAME=iOS", "-DCMAKE_OSX_ARCHITECTURES=x86_64;arm64",
           "-DCMAKE_OSX_SYSROOT=" + IosSdk(device), "-DSDL_SHARED=OFF", "-DSDL_STATIC=ON"]),
      Cmd(["cmake", "--build", "build"]),
      Cd("build"),
      Cmd(["ls"]),
      CopyStep("libSDL3.a", FromSdlBuild(SdlIosFileSegs(device))) ]
  }

  /**
   * `build_sdl_ios`: builds the library for the chosen SDK when it is
   * missing, restoring the working directory on every path.
   */
  function BuildSdlIos(w: World, ok: Oracle, device: bool): (r: (bool, World))
    ensures Exists(w, SdlIosFile(device)) ==> r == (true, w)
    ensures r.1.cwd == w.cwd && r.1.fs == w.fs
    ensures |w.log| <= |r.1.log| && r.1.log[..|w.log|] == w.log
    ensures r.0 <==> AllOk(ok, r.1.log, |w.log|)
    ensures !Exists(w, SdlIosFile(device)) ==>
      |r.1.log| > |w.log| && r.1.log[|w.log|] == Run(GitClean, Normalize(w.cwd, SdlPathSegs))
  {
    var saved := w.cwd;
    if !Exists(w, SdlIosFile(device)) then
      var w0 := ChangeDir(w, SdlPath);
      var (b, w1) := RunSteps(w0, ok, IosSdlSteps(device));
      RunStepsFirst(w0, ok, IosSdlSteps(device));
      SdlPathSplits();
      (b, RestoreDir(w1, saved))
    else (true, w)
  }
  /**
   * What `build_sdl_ios` is for: with the library for the chosen SDK
   * missing, a successful call ends by copying `libSDL3.a` from SDL's
   * `build` directory onto that SDK's library, the file the gate checks.
   */
  lemma BuildSdlIosEndsWithCopy(w: World, ok: Oracle, device: bool)
    requires !Exists(w, SdlIosFile(device))
    requires BuildSdlIos(w, ok, device).0
    ensures EndsWithEffect(BuildSdlIos(w, ok, device).1.log, |w.log|,
      CopyFile(Resolve(w.cwd + SdlBuildSegs, "libSDL3.a"), Resolve(w.cwd, SdlIosFile(device))))
  {
    var w0 := ChangeDir(w, SdlPath);
    SdlPathSplits();
    IosSdlEndsWithCopy(w0, ok, device, w.cwd);
  }

  lemma IosSdlEndsWithCopy(v: World, ok: Oracle, device: bool, saved: seq<string>)
    requires v.cwd == Normalize(saved, SdlPathSegs) && RunSteps(v, ok, IosSdlSteps(device)).0
    ensures EndsWithEffect(RunSteps(v, ok, IosSdlSteps(device)).1.log, |v.log|,
      CopyFile(Resolve(saved + SdlBuildSegs, "libSDL3.a"), Resolve(saved, SdlIosFile(device))))
  {
    var steps := IosSdlSteps(device);
    assert steps[3] == Cd("build") && steps[5] == CopyStep("libSDL3.a", FromSdlBuild(SdlIosFileSegs(device)));
    assert forall i :: 0 <= i < 5 && i != 3 ==> steps[i].Cmd?;
    SdlIosFilePlain(device);
    SdlStepsEndWithCopy(v, ok, steps, 3, saved, "libSDL3.a", SdlIosFileSegs(device));
  }

  lemma SdlIosFilePlain(device: bool)
    ensures |SdlIosFileSegs(device)| > 0 && PlainSegments(SdlIosFileSegs(device))
  {
    PlainOne("build");
    if device {
      assert "libsdl3_" + IosSdk(device) + ".a" == "libsdl3_iphoneos.a";
      PlainOne("libsdl3_iphoneos.a");
    } else {
      assert "libsdl3_" + IosSdk(device) + ".a" == "libsdl3_iphonesimulator.a";
      PlainOne("libsdl3_iphonesimulator.a");
    }
    PlainAppend(["build"], ["libsdl3_" + IosSdk(device) + ".a"]);
  }

}
