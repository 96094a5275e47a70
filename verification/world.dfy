/**
 * The world the build script acts on: a filesystem seen only through
 * existence, modification times and the content of the few files the
 * script reads; the process-wide working directory; and a log of every
 * effect it asks for (external commands, and the `nob.h` file operations
 * `copy_file`, `mkdir_if_not_exists` and `write_entire_file`).  Whether an
 * effect succeeds is decided by an oracle, so every proof holds for every
 * behaviour of the tools.
 */
module World {
  import opened Base

  /**
   * Paths are keyed relative to the project root (or absolute, starting
   * with `/`).  A path exists iff it has a modification time; a file that
   * exists but has no content entry cannot be read.  `now` is the time a
   * file written by the script receives.
   */
  datatype Fs = Fs(mtime: map<string, int>, content: map<string, string>, now: int)

  datatype Action =
    | Run(argv: seq<string>, dir: seq<string>)
    | CopyFile(src: string, dst: string)
    | MakeDir(path: string)
    | WriteFile(path: string, text: string)

  /** `cwd` lists the path segments of the working directory below the project root. */
  datatype World = World(fs: Fs, cwd: seq<string>, log: seq<Action>)

  /** Whether the `n`-th effect of the run, `a`, succeeds. */
  type Oracle = (nat, Action) -> bool

  /** `set_current_dir` with a relative path (assumed to succeed). */
  function ChangeDir(w: World, rel: string): World {
    w.(cwd := Normalize(w.cwd, SplitAll(rel, '/')))
  }

  /** `set_current_dir(current_dir)` with the absolute path saved on entry. */
  function RestoreDir(w: World, saved: seq<string>): (r: World)
    ensures r.cwd == saved && r.fs == w.fs && r.log == w.log
  {
    w.(cwd := saved)
  }

  /** `file_exists`, relative to the working directory. */
  predicate Exists(w: World, p: string) {
    Resolve(w.cwd, p) in w.fs.mtime
  }

  /** `read_entire_file`: `None` when the file is missing or unreadable. */
  function ReadFile(w: World, p: string): Option<string> {
    var r := Resolve(w.cwd, p);
    if r in w.fs.mtime && r in w.fs.content then Some(w.fs.content[r]) else None
  }

  /** Records one effect and asks the oracle how it went. */
  function Perform(w: World, ok: Oracle, a: Action): (r: (bool, World))
    ensures r.1 == w.(log := w.log + [a])
    ensures r.0 == ok(|w.log|, a)
  {
    (ok(|w.log|, a), w.(log := w.log + [a]))
  }

  /** `cmd_run`: an external command, run in the current working directory. */
  function RunCmd(w: World, ok: Oracle, argv: seq<string>): (bool, World) {
    Perform(w, ok, Run(argv, w.cwd))
  }

  /** `cmd_run` whose result the script drops: the outcome cannot influence what follows. */
  function RunIgnored(w: World, ok: Oracle, argv: seq<string>): (r: World)
    ensures r == World(w.fs, w.cwd, w.log + [Run(argv, w.cwd)])
  {
    RunCmd(w, ok, argv).1
  }

  function Copy(w: World, ok: Oracle, src: string, dst: string): (bool, World) {
    Perform(w, ok, CopyFile(Resolve(w.cwd, src), Resolve(w.cwd, dst)))
  }

  function Mkdir(w: World, ok: Oracle, p: string): (bool, World) {
    Perform(w, ok, MakeDir(Resolve(w.cwd, p)))
  }

  /** `write_entire_file`: on success the file holds `text` and is stamped `now`. */
  function Write(w: World, ok: Oracle, p: string, text: string): (r: (bool, World))
    ensures r.0 ==> ReadFile(r.1, p) == Some(text)
    ensures !r.0 ==> r.1.fs == w.fs
    ensures r.1.cwd == w.cwd && r.1.log == w.log + [WriteFile(Resolve(w.cwd, p), text)]
    ensures r.0 == ok(|w.log|, WriteFile(Resolve(w.cwd, p), text))
  {
    var path := Resolve(w.cwd, p);
    var (b, w1) := Perform(w, ok, WriteFile(path, text));
    if b then (true, w1.(fs := w1.fs.(content := w1.fs.content[path := text], mtime := w1.fs.mtime[path := w1.fs.now])))
    else (false, w1)
  }

  // ---------------------------------------------------------------------
  // needs_rebuild (include/nob.h is not part of this model; this is the
  // behaviour the script relies on: 1 rebuild, 0 up to date, -1 error)

  /** Scans the inputs in order against the output's time `t`. */
  function ScanInputs(w: World, t: int, inputs: seq<string>): (r: int)
    ensures r in {-1, 0, 1}
    decreases |inputs|
  {
    if |inputs| == 0 then 0
    else if !Exists(w, inputs[0]) then -1
    else if w.fs.mtime[Resolve(w.cwd, inputs[0])] > t then 1
    else ScanInputs(w, t, inputs[1..])
  }

  function NeedsRebuild(w: World, output: string, inputs: seq<string>): (r: int)
    ensures r in {-1, 0, 1}
    ensures !Exists(w, output) ==> r == 1
  {
    if !Exists(w, output) then 1
    else ScanInputs(w, w.fs.mtime[Resolve(w.cwd, output)], inputs)
  }

  /** An input is present and not newer than time `t`. */
  predicate Fresh(w: World, t: int, input: string) {
    Exists(w, input) && w.fs.mtime[Resolve(w.cwd, input)] <= t
  }

  lemma {:induction false} ScanInputsZero(w: World, t: int, inputs: seq<string>)
    ensures ScanInputs(w, t, inputs) == 0 <==> forall i :: 0 <= i < |inputs| ==> Fresh(w, t, inputs[i])
    decreases |inputs|
  {
    if |inputs| > 0 {
      ScanInputsZero(w, t, inputs[1..]);
      assert forall i :: 0 < i < |inputs| ==> inputs[i] == inputs[1..][i - 1];
    }
  }

  /** Up to date iff the output exists and every input exists and is not newer. */
  lemma NeedsRebuildZero(w: World, output: string, inputs: seq<string>)
    ensures NeedsRebuild(w, output, inputs) == 0 <==>
      Exists(w, output) && forall i :: 0 <= i < |inputs| ==> Fresh(w, w.fs.mtime[Resolve(w.cwd, output)], inputs[i])
  {
    if Exists(w, output) {
      ScanInputsZero(w, w.fs.mtime[Resolve(w.cwd, output)], inputs);
    }
  }

  /** With the output present, a newer input ahead of any missing one forces a rebuild. */
  lemma {:induction false} NewerInputRebuilds(w: World, output: string, inputs: seq<string>, k: nat)
    requires Exists(w, output)
    requires k < |inputs| && Exists(w, inputs[k])
    requires w.fs.mtime[Resolve(w.cwd, inputs[k])] > w.fs.mtime[Resolve(w.cwd, output)]
    requires forall i :: 0 <= i < k ==> Exists(w, inputs[i])
    ensures NeedsRebuild(w, output, inputs) == 1
  {
    ScanNewer(w, w.fs.mtime[Resolve(w.cwd, output)], inputs, k);
  }

  lemma {:induction false} ScanNewer(w: World, t: int, inputs: seq<string>, k: nat)
    requires k < |inputs| && Exists(w, inputs[k]) && w.fs.mtime[Resolve(w.cwd, inputs[k])] > t
    requires forall i :: 0 <= i < k ==> Exists(w, inputs[i])
    ensures ScanInputs(w, t, inputs) == 1
    decreases k
  {
    if k > 0 && w.fs.mtime[Resolve(w.cwd, inputs[0])] <= t {
      ScanNewer(w, t, inputs[1..], k - 1);
    }
  }

  // ---------------------------------------------------------------------
  // Fail-fast stage sequences

  /** One stage of a `goto error` / `return false` chain. */
  datatype Step = Cmd(argv: seq<string>) | CopyStep(src: string, dst: string) | Cd(rel: string)

  /** The number of effects a step list records when every effect succeeds. */
  function EffectCount(steps: seq<Step>): nat {
    if |steps| == 0 then 0 else (if steps[0].Cd? then 0 else 1) + EffectCount(steps[1..])
  }

  /** The working directory after all steps, starting in `cwd`. */
  function CwdAfter(cwd: seq<string>, steps: seq<Step>): seq<string>
    decreases |steps|
  {
    if |steps| == 0 then cwd
    else CwdAfter(if steps[0].Cd? then Normalize(cwd, SplitAll(steps[0].rel, '/')) else cwd, steps[1..])
  }

  /** Commands and copies leave the working directory where it is. */
  lemma {:induction false} CwdAfterNoCd(cwd: seq<string>, effects: seq<Step>)
    requires forall i :: 0 <= i < |effects| ==> !effects[i].Cd?
    ensures CwdAfter(cwd, effects) == cwd
    decreases |effects|
  {
    if |effects| > 0 {
      assert !effects[0].Cd?;
      assert forall i :: 0 <= i < |effects[1..]| ==> effects[1..][i] == effects[i + 1];
      CwdAfterNoCd(cwd, effects[1..]);
    }
  }

  /** Around a single `Cd`, only that `Cd` moves the working directory. */
  lemma {:induction false} CwdAfterOneCd(cwd: seq<string>, before: seq<Step>, rel: string, after: seq<Step>)
    requires forall i :: 0 <= i < |before| ==> !before[i].Cd?
    requires forall i :: 0 <= i < |after| ==> !after[i].Cd?
    ensures CwdAfter(cwd, before + [Cd(rel)] + after) == Normalize(cwd, SplitAll(rel, '/'))
    decreases |before|
  {
    var s := before + [Cd(rel)] + after;
    if |before| == 0 {
      assert s[0] == Cd(rel) && s[1..] == after;
      CwdAfterNoCd(Normalize(cwd, SplitAll(rel, '/')), after);
    } else {
      assert s[0] == before[0] && s[1..] == before[1..] + [Cd(rel)] + after;
      assert !before[0].Cd?;
      assert forall i :: 0 <= i < |before[1..]| ==> before[1..][i] == before[i + 1];
      CwdAfterOneCd(cwd, before[1..], rel, after);
    }
  }


  /** The log grew past `from`, and its last entry is `a`. */
  predicate EndsWithEffect(log: seq<Action>, from: nat, a: Action) {
    |log| > from && log[|log| - 1] == a
  }

  /** The last effect recorded succeeded. */
  predicate LastOk(ok: Oracle, log: seq<Action>) {
    |log| > 0 && ok(|log| - 1, log[|log| - 1])
  }

  /** Every effect recorded from position `from` on succeeded. */
  predicate AllOk(ok: Oracle, log: seq<Action>, from: nat) {
    forall i :: from <= i < |log| ==> ok(i, log[i])
  }

  /** A log that extends another is all-successful from `from` iff both parts are. */
  lemma AllOkExtend(ok: Oracle, log1: seq<Action>, log2: seq<Action>, from: nat)
    requires from <= |log1| <= |log2| && log2[..|log1|] == log1
    ensures AllOk(ok, log2, from) <==> AllOk(ok, log1, from) && AllOk(ok, log2, |log1|)
  {
    assert forall i :: from <= i < |log1| ==> log2[i] == log1[i];
  }

  /** A log that extends an extension of `log0` extends `log0`. */
  lemma PrefixTrans(log0: seq<Action>, log1: seq<Action>, log2: seq<Action>)
    requires |log0| <= |log1| && log1[..|log0|] == log0
    requires |log1| <= |log2| && log2[..|log1|] == log1
    ensures log2[..|log0|] == log0
  {
    assert log2[..|log0|] == log2[..|log1|][..|log0|];
  }

  /** Recording one more effect keeps the log all-successful iff that effect succeeds. */
  lemma AllOkSnoc(ok: Oracle, log: seq<Action>, a: Action, from: nat)
    requires from <= |log|
    ensures AllOk(ok, log + [a], from) <==> AllOk(ok, log, from) && ok(|log|, a)
  {
    assert (log + [a])[|log|] == a;
    assert forall i :: from <= i < |log| ==> (log + [a])[i] == log[i];
  }

  /** One stage: a command or a copy records one effect; a `Cd` records none and succeeds. */
  function RunStep(w: World, ok: Oracle, s: Step): (r: (bool, World))
    ensures r.1.fs == w.fs
    ensures s.Cd? ==> r == (true, ChangeDir(w, s.rel))
    ensures !s.Cd? ==> r.1.cwd == w.cwd && |r.1.log| == |w.log| + 1 && r.1.log[..|w.log|] == w.log
    ensures !s.Cd? ==> (r.0 <==> AllOk(ok, r.1.log, |w.log|))
  {
    match s
    case Cmd(argv) =>
      AllOkSnoc(ok, w.log, Run(argv, w.cwd), |w.log|);
      RunCmd(w, ok, argv)
    case CopyStep(src, dst) =>
      AllOkSnoc(ok, w.log, CopyFile(Resolve(w.cwd, src), Resolve(w.cwd, dst)), |w.log|);
      Copy(w, ok, src, dst)
    case Cd(rel) => (true, ChangeDir(w, rel))
  }

  /**
   * Runs the steps in order and stops at the first failure.  The log only
   * grows; the result is true iff every recorded effect succeeded; only the
   * working directory changes.
   */
  function RunSteps(w: World, ok: Oracle, steps: seq<Step>): (r: (bool, World))
    ensures r.1.fs == w.fs
    ensures |w.log| <= |r.1.log| && r.1.log[..|w.log|] == w.log
    ensures r.0 <==> AllOk(ok, r.1.log, |w.log|)
    ensures r.0 ==> |r.1.log| == |w.log| + EffectCount(steps) && r.1.cwd == CwdAfter(w.cwd, steps)
    ensures |r.1.log| <= |w.log| + EffectCount(steps)
    decreases |steps|
  {
    if |steps| == 0 then (true, w)
    else
      var (b, w1) := RunStep(w, ok, steps[0]);
      if !b then (false, w1)
      else
        var r := RunSteps(w1, ok, steps[1..]);
        PrefixTrans(w.log, w1.log, r.1.log);
        AllOkExtend(ok, w1.log, r.1.log, |w.log|);
        r
  }

  /**
   * The effects a step list asks for, in order, each resolved in the
   * directory the `Cd`s before it lead to: what a chain records when every
   * effect succeeds.
   */
  function Trace(cwd: seq<string>, steps: seq<Step>): seq<Action>
    decreases |steps|
  {
    if |steps| == 0 then []
    else match steps[0]
      case Cmd(argv) => [Run(argv, cwd)] + Trace(cwd, steps[1..])
      case CopyStep(src, dst) => [CopyFile(Resolve(cwd, src), Resolve(cwd, dst))] + Trace(cwd, steps[1..])
      case Cd(rel) => Trace(Normalize(cwd, SplitAll(rel, '/')), steps[1..])
  }

  /** The one effect a command or a copy asks for in directory `cwd`. */
  function StepEffect(cwd: seq<string>, s: Step): Action
    requires !s.Cd?
  {
    match s
    case Cmd(argv) => Run(argv, cwd)
    case CopyStep(src, dst) => CopyFile(Resolve(cwd, src), Resolve(cwd, dst))
  }

  /** Without a `Cd`, a chain's trace is its steps' effects, one for one and in order. */
  lemma {:induction false} TraceNoCd(cwd: seq<string>, steps: seq<Step>)
    requires forall i :: 0 <= i < |steps| ==> !steps[i].Cd?
    ensures |Trace(cwd, steps)| == |steps|
    ensures forall i :: 0 <= i < |steps| ==> Trace(cwd, steps)[i] == StepEffect(cwd, steps[i])
    decreases |steps|
  {
    if |steps| > 0 {
      assert forall i :: 0 <= i < |steps[1..]| ==> steps[1..][i] == steps[i + 1];
      TraceNoCd(cwd, steps[1..]);
      assert Trace(cwd, steps) == [StepEffect(cwd, steps[0])] + Trace(cwd, steps[1..]);
    }
  }

  /**
   * A chain records a prefix of its trace, stopping where an effect fails,
   * and a successful chain records all of it.
   */
  lemma {:induction false} RunStepsTrace(w: World, ok: Oracle, steps: seq<Step>)
    ensures RunSteps(w, ok, steps).1.log <= w.log + Trace(w.cwd, steps)
    ensures RunSteps(w, ok, steps).0 ==> RunSteps(w, ok, steps).1.log == w.log + Trace(w.cwd, steps)
    decreases |steps|
  {
    if |steps| > 0 {
      var (b, w1) := RunStep(w, ok, steps[0]);
      var rest := Trace(w1.cwd, steps[1..]);
      if steps[0].Cd? {
        assert Trace(w.cwd, steps) == rest;
      } else {
        var a := w1.log[|w.log|];
        assert w1.log == w.log + [a];
        assert Trace(w.cwd, steps) == [a] + rest;
        assert w.log + Trace(w.cwd, steps) == w1.log + rest;
      }
      if b {
        RunStepsTrace(w1, ok, steps[1..]);
      }
    }
  }

  /** Steps without a `Cd` leave the working directory alone, whether they fail or not. */
  lemma {:induction false} RunStepsNoCd(w: World, ok: Oracle, steps: seq<Step>)
    requires forall i :: 0 <= i < |steps| ==> !steps[i].Cd?
    ensures RunSteps(w, ok, steps).1.cwd == w.cwd
    decreases |steps|
  {
    if |steps| > 0 {
      assert !steps[0].Cd?;
      var w1 := if steps[0].Cmd? then RunCmd(w, ok, steps[0].argv).1 else Copy(w, ok, steps[0].src, steps[0].dst).1;
      assert forall i :: 0 <= i < |steps[1..]| ==> steps[1..][i] == steps[i + 1];
      RunStepsNoCd(w1, ok, steps[1..]);
    }
  }

  /** A chain that opens with a copy records that copy first. */
  lemma RunStepsFirstCopy(w: World, ok: Oracle, steps: seq<Step>)
    requires |steps| > 0 && steps[0].CopyStep?
    ensures |RunSteps(w, ok, steps).1.log| > |w.log|
    ensures RunSteps(w, ok, steps).1.log[|w.log|] == CopyFile(Resolve(w.cwd, steps[0].src), Resolve(w.cwd, steps[0].dst))
  {
    var w1 := Copy(w, ok, steps[0].src, steps[0].dst).1;
    if ok(|w.log|, w1.log[|w.log|]) {
      var r := RunSteps(w1, ok, steps[1..]);
      assert r.1.log[..|w1.log|] == w1.log;
      assert r.1.log[|w.log|] == w1.log[|w.log|];
    }
  }

  /** Without a `Cd`, every step records exactly one effect. */
  lemma {:induction false} EffectCountNoCd(steps: seq<Step>)
    requires forall i :: 0 <= i < |steps| ==> !steps[i].Cd?
    ensures EffectCount(steps) == |steps|
    decreases |steps|
  {
    if |steps| > 0 {
      assert !steps[0].Cd?;
      assert forall i :: 0 <= i < |steps[1..]| ==> steps[1..][i] == steps[i + 1];
      EffectCountNoCd(steps[1..]);
    }
  }

  /** A chain that opens with a command records that command first, in the starting directory. */
  lemma RunStepsFirst(w: World, ok: Oracle, steps: seq<Step>)
    requires |steps| > 0 && steps[0].Cmd?
    ensures |RunSteps(w, ok, steps).1.log| > |w.log|
    ensures RunSteps(w, ok, steps).1.log[|w.log|] == Run(steps[0].argv, w.cwd)
  {
    var w1 := RunCmd(w, ok, steps[0].argv).1;
    if ok(|w.log|, Run(steps[0].argv, w.cwd)) {
      var r := RunSteps(w1, ok, steps[1..]);
      assert r.1.log[..|w1.log|] == w1.log;
      assert r.1.log[|w.log|] == w1.log[|w.log|];
    }
  }

  /** Running `a + b` is running `a`, then `b` only if `a` succeeded. */
  lemma {:induction false} RunStepsAppend(w: World, ok: Oracle, a: seq<Step>, b: seq<Step>)
    ensures RunSteps(w, ok, a + b) ==
      (var r := RunSteps(w, ok, a); if r.0 then RunSteps(r.1, ok, b) else r)
    decreases |a|
  {
    if |a| == 0 {
      assert a + b == b;
    } else {
      assert (a + b)[0] == a[0] && (a + b)[1..] == a[1..] + b;
      var w1 := RunStep(w, ok, a[0]).1;
      if RunStep(w, ok, a[0]).0 {
        RunStepsAppend(w1, ok, a[1..], b);
      }
    }
  }

  /**
   * A successful chain that ends with a copy records that copy last, with
   * both paths resolved in the directory the earlier steps led to.
   */
  lemma RunStepsLastCopy(w: World, ok: Oracle, steps: seq<Step>)
    requires |steps| > 0 && steps[|steps| - 1].CopyStep?
    requires RunSteps(w, ok, steps).0
    ensures EndsWithEffect(RunSteps(w, ok, steps).1.log, |w.log|,
      CopyFile(Resolve(CwdAfter(w.cwd, steps[..|steps| - 1]), steps[|steps| - 1].src),
               Resolve(CwdAfter(w.cwd, steps[..|steps| - 1]), steps[|steps| - 1].dst)))
  {
    var init, s := steps[..|steps| - 1], steps[|steps| - 1];
    assert steps == init + [s];
    RunStepsAppend(w, ok, init, [s]);
    var r := RunSteps(w, ok, init);
    if r.0 {
      RunStepsOne(r.1, ok, s);
    }
  }

  /** A chain of one step is that step. */
  lemma RunStepsOne(w: World, ok: Oracle, s: Step)
    ensures RunSteps(w, ok, [s]) == RunStep(w, ok, s)
  {
    assert [s][1..] == [];
  }


  /**
   * The log stops at a failure: past `from`, the last effect recorded
   * failed and every one before it succeeded.
   */
  predicate StopsAtFailure(ok: Oracle, log: seq<Action>, from: nat) {
    |log| > from && AllOk(ok, log[..|log| - 1], from) && !ok(|log| - 1, log[|log| - 1])
  }

  /** A stop after a successful stretch is a stop for the whole stretch. */
  lemma StopsAfterOk(ok: Oracle, log1: seq<Action>, log2: seq<Action>, from: nat)
    requires from <= |log1| <= |log2| && log2[..|log1|] == log1
    requires AllOk(ok, log1, from) && StopsAtFailure(ok, log2, |log1|)
    ensures StopsAtFailure(ok, log2, from)
  {
    assert log2[..|log2| - 1][..|log1|] == log1;
    AllOkExtend(ok, log1, log2[..|log2| - 1], from);
  }

  /** A chain that fails stops at the failing effect. */
  lemma {:induction false} RunStepsStops(w: World, ok: Oracle, steps: seq<Step>)
    requires !RunSteps(w, ok, steps).0
    ensures StopsAtFailure(ok, RunSteps(w, ok, steps).1.log, |w.log|)
    decreases |steps|
  {
    var (b, w1) := RunStep(w, ok, steps[0]);
    if b {
      RunStepsStops(w1, ok, steps[1..]);
      StopsAfterOk(ok, w1.log, RunSteps(w1, ok, steps[1..]).1.log, |w.log|);
    } else {
      assert w1.log[..|w1.log| - 1] == w.log;
    }
  }

  /**
   * A successful chain whose only `Cd` is at position `k` and which ends
   * with a copy records that copy last, resolved in the directory the `Cd`
   * entered.
   */
  lemma RunStepsEndCopy(w: World, ok: Oracle, steps: seq<Step>, k: nat, rel: string)
    requires k < |steps| - 1 && steps[k] == Cd(rel) && steps[|steps| - 1].CopyStep?
    requires forall i :: 0 <= i < |steps| - 1 && i != k ==> !steps[i].Cd?
    requires RunSteps(w, ok, steps).0
    ensures EndsWithEffect(RunSteps(w, ok, steps).1.log, |w.log|,
      CopyFile(Resolve(Normalize(w.cwd, SplitAll(rel, '/')), steps[|steps| - 1].src),
               Resolve(Normalize(w.cwd, SplitAll(rel, '/')), steps[|steps| - 1].dst)))
  {
    CwdBeforeLast(w.cwd, steps, k, rel);
    RunStepsLastCopy(w, ok, steps);
  }

  lemma CwdBeforeLast(cwd: seq<string>, steps: seq<Step>, k: nat, rel: string)
    requires k < |steps| - 1 && steps[k] == Cd(rel)
    requires forall i :: 0 <= i < |steps| - 1 && i != k ==> !steps[i].Cd?
    ensures CwdAfter(cwd, steps[..|steps| - 1]) == Normalize(cwd, SplitAll(rel, '/'))
  {
    var before, after := steps[..k], steps[k + 1..|steps| - 1];
    assert steps[..|steps| - 1] == before + [Cd(rel)] + after;
    assert forall i :: 0 <= i < |before| ==> before[i] == steps[i];
    assert forall i :: 0 <= i < |after| ==> after[i] == steps[k + 1 + i];
    CwdAfterOneCd(cwd, before, rel, after);
  }

  // ---------------------------------------------------------------------
  // Fail-fast loops over a list

  /** Runs `step` on each item in turn, stopping at the first failure. */
  function RunEach<T>(w: World, xs: seq<T>, step: (World, T) -> (bool, World)): (bool, World)
    decreases |xs|
  {
    if |xs| == 0 then (true, w)
    else
      var (b, w1) := step(w, xs[0]);
      if !b then (false, w1) else RunEach(w1, xs[1..], step)
  }

  /** A step that only appends to the log. */
  ghost predicate Extends<T(!new)>(step: (World, T) -> (bool, World)) {
    forall v: World, x: T :: |v.log| <= |step(v, x).1.log| && step(v, x).1.log[..|v.log|] == v.log
  }

  /** When every step only appends to the log, so does the loop. */
  lemma {:induction false} RunEachExtends<T(!new)>(w: World, xs: seq<T>, step: (World, T) -> (bool, World))
    requires Extends(step)
    ensures |w.log| <= |RunEach(w, xs, step).1.log| && RunEach(w, xs, step).1.log[..|w.log|] == w.log
    decreases |xs|
  {
    if |xs| > 0 {
      var w1 := step(w, xs[0]).1;
      if step(w, xs[0]).0 {
        RunEachExtends(w1, xs[1..], step);
        PrefixTrans(w.log, w1.log, RunEach(w1, xs[1..], step).1.log);
      }
    }
  }

  /** Looping over `a + b` is looping over `a`, then over `b` only if `a` got through. */
  lemma {:induction false} RunEachAppend<T>(w: World, a: seq<T>, b: seq<T>, step: (World, T) -> (bool, World))
    ensures RunEach(w, a + b, step) ==
      if RunEach(w, a, step).0 then RunEach(RunEach(w, a, step).1, b, step) else RunEach(w, a, step)
    decreases |a|
  {
    if |a| == 0 {
      assert a + b == b;
    } else {
      assert (a + b)[0] == a[0] && (a + b)[1..] == a[1..] + b;
      if step(w, a[0]).0 {
        RunEachAppend(step(w, a[0]).1, a[1..], b, step);
      }
    }
  }

  /** One more item runs only if every earlier one succeeded. */
  lemma RunEachSnoc<T>(w: World, a: seq<T>, x: T, step: (World, T) -> (bool, World))
    ensures RunEach(w, a + [x], step) ==
      if RunEach(w, a, step).0 then step(RunEach(w, a, step).1, x) else RunEach(w, a, step)
  {
    RunEachAppend(w, a, [x], step);
    assert [x][1..] == [];
  }

  /**
   * The loop stops at the first failure: when item `k` fails after all
   * earlier ones succeeded, the loop's outcome is failure and nothing
   * after item `k` runs.
   */
  lemma RunEachStops<T>(w: World, xs: seq<T>, k: nat, step: (World, T) -> (bool, World))
    requires k < |xs| && RunEach(w, xs[..k], step).0 && !step(RunEach(w, xs[..k], step).1, xs[k]).0
    ensures RunEach(w, xs, step) == RunEach(w, xs[..k + 1], step)
    ensures !RunEach(w, xs, step).0
  {
    assert xs[..k + 1] == xs[..k] + [xs[k]];
    RunEachSnoc(w, xs[..k], xs[k], step);
    assert xs == xs[..k + 1] + xs[k + 1..];
    RunEachAppend(w, xs[..k + 1], xs[k + 1..], step);
  }

  /** The loop succeeds iff every item succeeds on the world the items before it left. */
  lemma {:induction false} RunEachOk<T>(w: World, xs: seq<T>, step: (World, T) -> (bool, World))
    ensures RunEach(w, xs, step).0 <==>
      forall k :: 0 <= k < |xs| ==> step(RunEach(w, xs[..k], step).1, xs[k]).0
    decreases |xs|
  {
    if |xs| > 0 {
      var init, x := xs[..|xs| - 1], xs[|xs| - 1];
      assert xs == init + [x];
      RunEachSnoc(w, init, x, step);
      RunEachOk(w, init, step);
      assert forall k :: 0 <= k < |init| ==> xs[..k] == init[..k] && xs[k] == init[k];
      assert xs[..|init|] == init;
    }
  }

  /** What the first item records stays at the front of the loop's log. */
  lemma RunEachFirst<T(!new)>(w: World, xs: seq<T>, step: (World, T) -> (bool, World))
    requires |xs| > 0 && Extends(step)
    ensures |step(w, xs[0]).1.log| <= |RunEach(w, xs, step).1.log|
    ensures RunEach(w, xs, step).1.log[..|step(w, xs[0]).1.log|] == step(w, xs[0]).1.log
  {
    if step(w, xs[0]).0 {
      RunEachExtends(step(w, xs[0]).1, xs[1..], step);
    }
  }
}
