/**
 * Compiler command lines of the application (`app_compiler`,
 * `app_default_cmd`, `append_includes`, `append_renderer_libraries`,
 * `append_frameworks`, `build_app_native` in nob.c).
 */
module Flags {
  import opened Base
  import opened Options
  import opened Files

  const MacosTarget := "11.0"
  const ExeName := "main.app"

  /** `SDL_FILE`, the native static SDL library. */
  const SdlFileSegs := ["build", "libsdl3_native.a"]
  const SdlFile := JoinPath(SdlFileSegs)

  /**
   * What the script learns from the machine it runs on: the `#ifdef` host,
   * the processor count `sysconf` reports, the trees under `src` and under
   * SDL's Android Java sources, and the iOS SDK path `xcrun` prints.
   */
  datatype Host = Host(os: Os, jobs: int, srcTree: Node, sdlJavaTree: Node, iosSdkPath: string)

  /** `append_cmake_build_flags`: `-j<jobs>`, at least one job. */
  function JobsFlag(jobs: int): (r: string)
    ensures |r| > 2 && r[..2] == "-j"
    ensures Atoi(r[2..]) == if jobs < 1 then 1 else jobs
  {
    var n: nat := if jobs < 1 then 1 else jobs;
    AtoiDecimal(n, "");
    assert ("-j" + Decimal(n))[2..] == Decimal(n) + "";
    "-j" + Decimal(n)
  }

  /** `app_compiler` outside Windows: the compiler the configuration names. */
  function AppCompiler(c: Config): (r: seq<string>)
    ensures |r| == 1
    ensures r[0] == "clang" <==> c.compiler == Clang
    ensures r[0] == "gcc" <==> c.compiler == Gcc
  {
    match c.compiler
    case Clang => ["clang"]
    case Gcc => ["gcc"]
  }

  /**
   * `app_default_cmd`: architecture, optimisation and debug flags chosen by
   * platform, `optimize` and compiler, on a host `os`.
   */
  function AppDefaultCmd(c: Config, os: Os): (r: seq<string>)
    ensures c.platform == Native ==> |r| > 0 && r[0] == "-march=native"
  {
    ArchFlags(c) + OptimizeFlags(c) + CompilerFlags(c) + MinVersionFlags(c, os)
  }

  /** Only a native build targets the host's own processor. */
  function ArchFlags(c: Config): (r: seq<string>)
    ensures "-march=native" in r <==> c.platform == Native
    ensures |r| <= 1
  {
    if c.platform == Native then ["-march=native"] else []
  }

  /** `-O3` when optimising; otherwise `-O0 -g`, with full debug info under clang. */
  function OptimizeFlags(c: Config): (r: seq<string>)
    ensures "-O3" in r <==> c.optimize
    ensures "-O0" in r <==> !c.optimize
    ensures "-g" in r <==> !c.optimize
    ensures "-fno-limit-debug-info" in r <==> !c.optimize && c.compiler == Clang
  {
    if c.optimize then ["-O3"]
    else ["-O0", "-g"] + (if c.compiler == Clang then ["-fno-limit-debug-info"] else [])
  }

  /** Constant CFStrings under clang only. */
  function CompilerFlags(c: Config): (r: seq<string>)
    ensures "-fconstant-cfstrings" in r <==> c.compiler == Clang
    ensures |r| <= 1
  {
    if c.compiler == Clang then ["-fconstant-cfstrings"] else []
  }

  /** The minimum macOS version, for native builds on macOS only. */
  function MinVersionFlags(c: Config, os: Os): (r: seq<string>)
    ensures "-mmacosx-version-min=" + MacosTarget in r <==> os == MacOs && c.platform == Native
    ensures |r| <= 1
  {
    if os == MacOs && c.platform == Native then ["-mmacosx-version-min=" + MacosTarget] else []
  }

  /**
   * Each flag of `app_default_cmd` appears exactly under the configuration
   * that asks for it, whichever part of the command contributes it.
   */
  lemma AppDefaultCmdFlags(c: Config, os: Os)
    ensures "-march=native" in AppDefaultCmd(c, os) <==> c.platform == Native
    ensures "-O3" in AppDefaultCmd(c, os) <==> c.optimize
    ensures "-O0" in AppDefaultCmd(c, os) <==> !c.optimize
    ensures "-g" in AppDefaultCmd(c, os) <==> !c.optimize
    ensures "-fno-limit-debug-info" in AppDefaultCmd(c, os) <==> !c.optimize && c.compiler == Clang
    ensures "-fconstant-cfstrings" in AppDefaultCmd(c, os) <==> c.compiler == Clang
    ensures "-mmacosx-version-min=" + MacosTarget in AppDefaultCmd(c, os) <==> os == MacOs && c.platform == Native
  {
    var a, o, k, m := ArchFlags(c), OptimizeFlags(c), CompilerFlags(c), MinVersionFlags(c, os);
    assert AppDefaultCmd(c, os) == a + o + k + m;
  }

  /** `append_includes`. */
  const Includes := ["-isystem", "include", "-Ilib/SDL-3.2.16/include"]

  /** `append_renderer_libraries`: whole-archive linking of the static SDL library. */
  function RendererLibraries(os: Os): seq<string> {
    match os
    case Linux => ["-Wl,--whole-archive," + SdlFile, "-Wl,--no-whole-archive"]
    case MacOs => ["-Wl,-force_load," + SdlFile]
  }

  const IosFrameworks := ["CoreBluetooth", "CoreMotion", "UIKit", "OpenGLES", "Foundation"]

  const MacFrameworks := ["AppKit", "AudioUnit", "Carbon", "Cocoa", "ForceFeedback", "GLUT", "OpenGL"]

  const SharedFrameworks := [
    "AudioToolbox", "AVFoundation", "CoreAudio", "CoreFoundation", "CoreGraphics", "CoreHaptics",
    "CoreMedia", "CoreServices", "CoreVideo", "GameController", "IOKit", "Metal", "QuartzCore",
    "Security", "SystemConfiguration", "UniformTypeIdentifiers"]

  /** Each name preceded by `-framework`. */
  function FrameworkArgs(names: seq<string>): (r: seq<string>)
    ensures |r| == 2 * |names|
    ensures forall x :: x in r ==> x == "-framework" || x in names
  {
    if |names| == 0 then [] else ["-framework", names[0]] + FrameworkArgs(names[1..])
  }

  /** `append_frameworks`: the host's constant link flags. */
  function Frameworks(os: Os, p: Platform): seq<string> {
    match os
    case Linux => ["-lm", "-lpthread", "-lz", "-lpng", "-lbz2"]
    case MacOs =>
      FrameworkArgs((if p == Ios then IosFrameworks else MacFrameworks) + SharedFrameworks)
      + ["-L/opt/homebrew/lib", "-lbz2", "-lz"]
  }

  /** The arguments after the compiler's default flags in `build_app_native`. */
  function NativeTail(os: Os, p: Platform): seq<string> {
    ["src/main.c"] + Includes + RendererLibraries(os) + ["-DRENDERER_SDL3"] + Frameworks(os, p)
  }

  /** The command `build_app_native` runs. */
  function NativeCommand(c: Config, os: Os): (r: seq<string>)
    ensures |r| >= 4
    ensures r[0] == (if c.compiler == Clang then "clang" else "gcc")
    ensures r[|r| - 2..] == ["-o", ExeName]
  {
    AppCompiler(c) + AppDefaultCmd(c, os) + NativeTail(os, c.platform) + ["-o", ExeName]
  }
}
