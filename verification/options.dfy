/**
 * The build configuration record and the command-line flags that set it
 * (`Config`, `config_platform_name`, `parse_config_from_args` in nob.c).
 */
module Options {
  import opened Base

  datatype Compiler = Clang | Gcc

  datatype Platform = Native | Android | Ios

  /** The operating system the script itself was compiled for (its `#ifdef`s). */
  datatype Os = Linux | MacOs

  datatype Config = Config(
    compiler: Compiler,
    platform: Platform,
    optimize: bool,
    forceRebuild: bool,
    shouldRun: bool,
    device: bool)

  /** The zero-initialised global `config` the flags are applied to. */
  const DefaultConfig := Config(Clang, Native, false, false, false, false)

  /** The C enum values: `CLANG = 0`, `GCC = 1`. */
  function CompilerCode(c: Compiler): (n: nat)
    ensures n < 2
  {
    match c
    case Clang => 0
    case Gcc => 1
  }

  /** The C enum values: `PLATFORM_NATIVE = 0`, `ANDROID`, `IOS`. */
  function PlatformCode(p: Platform): (n: nat)
    ensures n < 3
  {
    match p
    case Native => 0
    case Android => 1
    case Ios => 2
  }

  function BoolCode(b: bool): (n: nat)
    ensures n < 2
  {
    if b then 1 else 0
  }

  function PlatformName(p: Platform): (r: string)
    ensures |r| > 0
  {
    match p
    case Native => "Native"
    case Android => "Android"
    case Ios => "iOS"
  }

  /** Distinct platforms get distinct names, so a log line identifies the branch taken. */
  lemma PlatformNameInjective(p: Platform, q: Platform)
    ensures PlatformName(p) == PlatformName(q) <==> p == q
  {
    if p != q {
      assert PlatformName(p)[0] != PlatformName(q)[0] || |PlatformName(p)| != |PlatformName(q)|;
    }
  }

  lemma PlatformCodeInjective(p: Platform, q: Platform)
    ensures PlatformCode(p) == PlatformCode(q) <==> p == q
  {
  }

  // ---------------------------------------------------------------------
  // Flags

  datatype Flag = Force | Optimize | RunAfter | UseClang | UseGcc | ToAndroid | ToIos | ToDevice

  /** The spelling of every recognised flag. */
  function FlagText(f: Flag): string {
    match f
    case Force => "-f"
    case Optimize => "-o"
    case RunAfter => "-r"
    case UseClang => "-clang"
    case UseGcc => "-gcc"
    case ToAndroid => "-android"
    case ToIos => "-ios"
    case ToDevice => "-device"
  }

  /** Recognises an argument; `None` is the "Unexpected argument" case. */
  function FlagOf(arg: string): (r: Option<Flag>)
    ensures r.Some? ==> FlagText(r.value) == arg
    ensures r.None? ==> forall f: Flag :: FlagText(f) != arg
  {
    if arg == "-f" then Some(Force)
    else if arg == "-o" then Some(Optimize)
    else if arg == "-r" then Some(RunAfter)
    else if arg == "-clang" then Some(UseClang)
    else if arg == "-gcc" then Some(UseGcc)
    else if arg == "-android" then Some(ToAndroid)
    else if arg == "-ios" then Some(ToIos)
    else if arg == "-device" then Some(ToDevice)
    else None
  }

  /** The effect of one flag: it sets exactly one field. */
  function ApplyFlag(c: Config, f: Flag): Config {
    match f
    case Force => c.(forceRebuild := true)
    case Optimize => c.(optimize := true)
    case RunAfter => c.(shouldRun := true)
    case UseClang => c.(compiler := Clang)
    case UseGcc => c.(compiler := Gcc)
    case ToAndroid => c.(platform := Android)
    case ToIos => c.(platform := Ios)
    case ToDevice => c.(device := true)
  }

  /** The argument loop: consumed left to right, stopping at the first unknown argument. */
  function ApplyArgs(args: seq<string>, c: Config): Option<Config>
    decreases |args|
  {
    if |args| == 0 then Some(c)
    else match FlagOf(args[0])
      case None => None
      case Some(f) => ApplyArgs(args[1..], ApplyFlag(c, f))
  }

  /** The rejections after the loop, in the order nob.c checks them. */
  datatype ConfigError = IosNeedsMacOs | ForceOnMobile | CompilerOnMobile | DeviceOnNative

  function CheckConfig(c: Config, os: Os): Option<ConfigError> {
    if os != MacOs && c.platform == Ios then Some(IosNeedsMacOs)
    else if c.platform != Native then
      if c.forceRebuild then Some(ForceOnMobile)
      else if c.compiler == Gcc then Some(CompilerOnMobile)
      else None
    else if c.device then Some(DeviceOnNative)
    else None
  }

  /**
   * The combinations the script accepts: iOS only on a macOS host, mobile
   * builds neither forced nor with gcc, and `device` only on mobile.
   */
  predicate ValidConfig(c: Config, os: Os) {
    && (c.platform == Ios ==> os == MacOs)
    && (c.platform in {Android, Ios} ==> !c.forceRebuild && c.compiler == Clang)
    && (c.device ==> c.platform in {Android, Ios})
  }

  lemma CheckConfigAcceptsValid(c: Config, os: Os)
    ensures CheckConfig(c, os).None? <==> ValidConfig(c, os)
  {
  }

  /** `parse_config_from_args` applied to the configuration `init`. */
  function ParseConfigFromArgs(args: seq<string>, init: Config, os: Os): Option<Config> {
    match ApplyArgs(args, init)
    case None => None
    case Some(c) => if CheckConfig(c, os).None? then Some(c) else None
  }

  /** The C loop over the arguments, the shape `parse_config_from_args` has. */
  method ParseArgsLoop(args: seq<string>, init: Config, os: Os) returns (ok: bool, c: Config)
    ensures ok <==> ParseConfigFromArgs(args, init, os).Some?
    ensures ok ==> Some(c) == ParseConfigFromArgs(args, init, os)
  {
    c := init;
    var i := 0;
    while i < |args|
      invariant 0 <= i <= |args|
      invariant ApplyArgs(args, init) == ApplyArgs(args[i..], c)
    {
      var f := FlagOf(args[i]);
      assert args[i..][1..] == args[i + 1..];
      if f.None? {
        return false, c;
      }
      c := ApplyFlag(c, f.value);
      i := i + 1;
    }
    assert args[i..] == [];
    ok := CheckConfig(c, os).None?;
  }

  /** An argument list is rejected by the loop iff one of its arguments is not a flag. */
  lemma {:induction false} ApplyArgsRejects(args: seq<string>, c: Config)
    ensures ApplyArgs(args, c).None? <==> exists i :: 0 <= i < |args| && FlagOf(args[i]).None?
  {
    if |args| > 0 {
      match FlagOf(args[0])
      case None =>
      case Some(f) =>
        ApplyArgsRejects(args[1..], ApplyFlag(c, f));
        if exists i :: 0 <= i < |args[1..]| && FlagOf(args[1..][i]).None? {
          var i :| 0 <= i < |args[1..]| && FlagOf(args[1..][i]).None?;
          assert FlagOf(args[i + 1]).None?;
        }
        if exists i :: 0 <= i < |args| && FlagOf(args[i]).None? {
          var i :| 0 <= i < |args| && FlagOf(args[i]).None?;
          assert i > 0 && FlagOf(args[1..][i - 1]).None?;
        }
    }
  }

  /** Parsing `a + b` is parsing `a`, then parsing `b` from where `a` left off. */
  lemma {:induction false} ApplyArgsAppend(a: seq<string>, b: seq<string>, c: Config)
    ensures ApplyArgs(a + b, c) ==
      (match ApplyArgs(a, c) case None => None case Some(c') => ApplyArgs(b, c'))
  {
    if |a| == 0 {
      assert a + b == b;
    } else {
      ConsSplit(a, b);
      match FlagOf(a[0])
      case None =>
      case Some(f) => ApplyArgsAppend(a[1..], b, ApplyFlag(c, f));
    }
  }

  /** The last of `-clang`/`-gcc` in `args`, or `d` when there is none. */
  function LastCompiler(args: seq<string>, d: Compiler): Compiler
    decreases |args|
  {
    if |args| == 0 then d
    else if args[|args| - 1] == "-clang" then Clang
    else if args[|args| - 1] == "-gcc" then Gcc
    else LastCompiler(args[..|args| - 1], d)
  }

  /** The last of `-android`/`-ios` in `args`, or `d` when there is none. */
  function LastPlatform(args: seq<string>, d: Platform): Platform
    decreases |args|
  {
    if |args| == 0 then d
    else if args[|args| - 1] == "-android" then Android
    else if args[|args| - 1] == "-ios" then Ios
    else LastPlatform(args[..|args| - 1], d)
  }

  /** Accepting `init + [last]` means accepting `init`, then applying `last`. */
  lemma ApplyArgsSnoc(init: seq<string>, last: string, c: Config)
    requires ApplyArgs(init + [last], c).Some?
    ensures ApplyArgs(init, c).Some? && FlagOf(last).Some?
    ensures ApplyArgs(init + [last], c).value == ApplyFlag(ApplyArgs(init, c).value, FlagOf(last).value)
  {
    ApplyArgsAppend(init, [last], c);
    assert [last][1..] == [];
  }

  lemma InSnoc(init: seq<string>, last: string, x: string)
    ensures x in init + [last] <==> x in init || x == last
  {
    if x in init + [last] && x != last {
      var i :| 0 <= i < |init + [last]| && (init + [last])[i] == x;
      assert i < |init| && init[i] == x;
    }
  }

  /**
   * What an accepted argument list selects: the compiler and platform of the
   * LAST flag naming one, so later flags override earlier ones.
   */
  lemma {:induction false} ApplyArgsChoices(args: seq<string>, c: Config)
    requires ApplyArgs(args, c).Some?
    ensures ApplyArgs(args, c).value.compiler == LastCompiler(args, c.compiler)
    ensures ApplyArgs(args, c).value.platform == LastPlatform(args, c.platform)
    decreases |args|
  {
    if |args| > 0 {
      var init := args[..|args| - 1];
      var last := args[|args| - 1];
      InitLast(args);
      ApplyArgsSnoc(init, last, c);
      ApplyArgsChoices(init, c);
      var f := FlagOf(last).value;
      assert FlagText(f) == last;
      match f
      case UseClang =>
      case UseGcc =>
      case ToAndroid =>
      case ToIos =>
      case _ =>
        assert last != "-clang" && last != "-gcc" && last != "-android" && last != "-ios";
    }
  }

  /** Each boolean flag is set iff it occurs anywhere; no flag clears one. */
  lemma ApplyArgsSwitches(args: seq<string>, c: Config)
    requires ApplyArgs(args, c).Some?
    ensures ApplyArgs(args, c).value.forceRebuild == (c.forceRebuild || "-f" in args)
    ensures ApplyArgs(args, c).value.optimize == (c.optimize || "-o" in args)
    ensures ApplyArgs(args, c).value.shouldRun == (c.shouldRun || "-r" in args)
    ensures ApplyArgs(args, c).value.device == (c.device || "-device" in args)
  {
    ApplyArgsSwitch(args, c, Force);
    ApplyArgsSwitch(args, c, Optimize);
    ApplyArgsSwitch(args, c, RunAfter);
    ApplyArgsSwitch(args, c, ToDevice);
  }

  /** The boolean field a switch flag sets (false for the other flags). */
  function Switched(c: Config, f: Flag): bool {
    match f
    case Force => c.forceRebuild
    case Optimize => c.optimize
    case RunAfter => c.shouldRun
    case ToDevice => c.device
    case _ => false
  }

  /** Applying flag `f` turns switch `s` on when `f` is `s`, and otherwise leaves it alone. */
  lemma SwitchedAfterFlag(c: Config, f: Flag, s: Flag)
    requires s in {Force, Optimize, RunAfter, ToDevice}
    ensures Switched(ApplyFlag(c, f), s) == (Switched(c, s) || FlagText(f) == FlagText(s))
  {
    if FlagText(f) == FlagText(s) {
      FlagTextInjective(f, s);
    }
  }

  lemma FlagTextInjective(f: Flag, g: Flag)
    requires FlagText(f) == FlagText(g)
    ensures f == g
  {
    assert FlagOf(FlagText(f)) == Some(f) && FlagOf(FlagText(g)) == Some(g);
  }

  /** One switch at a time: set at the end iff it was set at the start or its flag occurs. */
  lemma {:induction false} ApplyArgsSwitch(args: seq<string>, c: Config, s: Flag)
    requires s in {Force, Optimize, RunAfter, ToDevice}
    requires ApplyArgs(args, c).Some?
    ensures Switched(ApplyArgs(args, c).value, s) == (Switched(c, s) || FlagText(s) in args)
    decreases |args|
  {
    if |args| > 0 {
      var init := args[..|args| - 1];
      var last := args[|args| - 1];
      InitLast(args);
      ApplyArgsSnoc(init, last, c);
      ApplyArgsSwitch(init, c, s);
      var f := FlagOf(last).value;
      SwitchedAfterFlag(ApplyArgs(init, c).value, f, s);
      InSnoc(init, last, FlagText(s));
    }
  }

  /** Accepted configurations obey the combination rules, whatever the start. */
  lemma ParsedConfigIsValid(args: seq<string>, init: Config, os: Os)
    requires ParseConfigFromArgs(args, init, os).Some?
    ensures ValidConfig(ParseConfigFromArgs(args, init, os).value, os)
  {
    CheckConfigAcceptsValid(ApplyArgs(args, init).value, os);
  }

  /** `-device` on the native platform is rejected before anything is built. */
  lemma DeviceOnNativeRejected(args: seq<string>, os: Os)
    requires "-device" in args
    requires "-android" !in args && "-ios" !in args
    ensures ParseConfigFromArgs(args, DefaultConfig, os).None?
  {
    if ApplyArgs(args, DefaultConfig).Some? {
      ApplyArgsChoices(args, DefaultConfig);
      ApplyArgsSwitches(args, DefaultConfig);
      LastPlatformWithout(args, Native);
    }
  }

  lemma {:induction false} LastPlatformWithout(args: seq<string>, d: Platform)
    requires "-android" !in args && "-ios" !in args
    ensures LastPlatform(args, d) == d
    decreases |args|
  {
    if |args| > 0 {
      var init := args[..|args| - 1];
      assert forall x :: x in init ==> x in args;
      LastPlatformWithout(init, d);
    }
  }
}
