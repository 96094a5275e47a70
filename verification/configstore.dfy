/**
 * The saved build configuration `build/.config` (`dump_config_to_file` and
 * `load_config_from_file` in nob.c): `key=%d` lines written in the order
 * compiler, optimize, platform, device, read back until the first key the
 * loader does not know.
 */
module ConfigStore {
  import opened Base
  import opened Options

  /**
   * The `Config` struct as the loader fills it: `atoi` results are stored
   * straight into the enum fields, so they may hold any integer; `optimize`
   * is a C `bool`, so any non-zero number reads as true.
   */
  datatype Stored = Stored(
    compiler: int,
    platform: int,
    optimize: bool,
    forceRebuild: bool,
    shouldRun: bool,
    device: bool)

  /** `Config saved_config = {0}`. */
  const ZeroStored := Stored(0, 0, false, false, false, false)

  function DumpLine(key: string, n: nat): string {
    key + "=" + Decimal(n) + "\n"
  }

  /** The text `dump_config_to_file` writes. */
  function DumpConfig(c: Config): string {
    DumpLine("compiler", CompilerCode(c.compiler))
    + DumpLine("optimize", BoolCode(c.optimize))
    + DumpLine("platform", PlatformCode(c.platform))
    + DumpLine("device", BoolCode(c.device))
  }

  /**
   * Where `atoi` starts reading for a line: just after the first `=`, or at
   * the end of the line when it has none.  `atoi` then reads on through the
   * rest of the buffer, past the line end.
   */
  function ValueStart(line: string, key: string): nat {
    if '=' in line then |key| + 1 else |line|
  }

  /** The key of the first line of `rest`: the text before its first `=`. */
  function FirstKey(rest: string): string {
    ChopByDelim(ChopByDelim(rest, '\n').0, '=').0
  }

  predicate KnownKey(key: string) {
    key == "optimize" || key == "compiler" || key == "platform"
  }

  /** The `while (true)` loop of `load_config_from_file` over the unread text `rest`. */
  function LoadFrom(rest: string, out: Stored): Stored
    decreases |rest|
  {
    var (line, next) := ChopByDelim(rest, '\n');
    var (key, value) := ChopByDelim(line, '=');
    var vs := ValueStart(line, key);
    assert vs <= |rest| by {
      if '=' in line { assert line == key + ['='] + value; }
      if '\n' in rest { assert rest == line + ['\n'] + next; }
    }
    var n := Atoi(rest[vs..]);
    if key == "optimize" then LoadFrom(next, out.(optimize := n != 0))
    else if key == "compiler" then LoadFrom(next, out.(compiler := n))
    else if key == "platform" then LoadFrom(next, out.(platform := n))
    else out
  }

  /**
   * `load_config_from_file`: `file` is the content, `None` when the file is
   * missing or cannot be read.  Only those two cases are failures.
   */
  function LoadConfigFromFile(file: Option<string>, out: Stored): (r: Option<Stored>)
    ensures r.None? <==> file.None?
  {
    match file
    case None => None
    case Some(content) => Some(LoadFrom(content, out))
  }

  /** A text whose first key is not one of the three loaded leaves the record untouched. */
  lemma LoadStopsAtUnknownKey(content: string, out: Stored)
    requires !KnownKey(FirstKey(content))
    ensures LoadConfigFromFile(Some(content), out) == Some(out)
  {
  }

  /** How the loader splits one written line `key=n` followed by `rest`. */
  lemma DumpLineParts(key: string, n: nat, rest: string)
    requires '=' !in key && '\n' !in key
    ensures ChopByDelim(DumpLine(key, n) + rest, '\n') == (key + "=" + Decimal(n), rest)
    ensures ChopByDelim(key + "=" + Decimal(n), '=') == (key, Decimal(n))
    ensures ValueStart(key + "=" + Decimal(n), key) == |key| + 1
    ensures Atoi((DumpLine(key, n) + rest)[|key| + 1..]) == n
  {
    var d := Decimal(n);
    var line := key + "=" + d;
    assert '\n' !in line by {
      assert forall k :: 0 <= k < |d| ==> IsDigit(d[k]);
      assert forall k :: 0 <= k < |line| ==> line[k] == (if k < |key| then key[k] else if k == |key| then '=' else d[k - |key| - 1]);
    }
    ChopAt(line, rest, '\n');
    ChopAt(key, d, '=');
    assert '=' in line by { assert line[|key|] == '='; }
    DropTwo(key, "=", d, "\n", rest);
    AtoiDecimal(n, "\n" + rest);
  }

  /** Reading one written line of a known key stores its number and moves to the next line. */
  lemma LoadKnownLine(key: string, n: nat, rest: string, out: Stored)
    requires KnownKey(key)
    ensures LoadFrom(DumpLine(key, n) + rest, out) ==
      LoadFrom(rest,
        if key == "optimize" then out.(optimize := n != 0)
        else if key == "compiler" then out.(compiler := n)
        else out.(platform := n))
  {
    DumpLineParts(key, n, rest);
  }

  /** The `device` line, and anything after it, is never read. */
  lemma LoadDeviceLine(n: nat, rest: string, out: Stored)
    ensures LoadFrom(DumpLine("device", n) + rest, out) == out
  {
    DumpLineParts("device", n, rest);
  }

  /**
   * Round trip: loading what was dumped restores compiler, optimize and
   * platform, and leaves `device` and every other field of the record as
   * it was, because loading stops at `device`, the fourth line written.
   */
  lemma LoadAfterDump(c: Config, out: Stored)
    ensures LoadConfigFromFile(Some(DumpConfig(c)), out) == Some(out.(
      compiler := CompilerCode(c.compiler),
      optimize := c.optimize,
      platform := PlatformCode(c.platform)))
  {
    var l1 := DumpLine("compiler", CompilerCode(c.compiler));
    var l2 := DumpLine("optimize", BoolCode(c.optimize));
    var l3 := DumpLine("platform", PlatformCode(c.platform));
    var l4 := DumpLine("device", BoolCode(c.device));
    assert DumpConfig(c) == l1 + (l2 + (l3 + l4));
    var o1 := out.(compiler := CompilerCode(c.compiler));
    var o2 := o1.(optimize := BoolCode(c.optimize) != 0);
    var o3 := o2.(platform := PlatformCode(c.platform));
    LoadKnownLine("compiler", CompilerCode(c.compiler), l2 + (l3 + l4), out);
    LoadKnownLine("optimize", BoolCode(c.optimize), l3 + l4, o1);
    LoadKnownLine("platform", PlatformCode(c.platform), l4, o2);
    LoadDeviceLine(BoolCode(c.device), "", o3);
    assert l4 + "" == l4;
  }

  /**
   * An older or cut-short file holding only the first `k` lines of a dump
   * restores exactly those of compiler, optimize and platform it contains.
   */
  lemma LoadTruncatedDump(c: Config, out: Stored, k: nat)
    requires k <= 3
    ensures LoadFrom(TruncatedDump(c, k), out) == out.(
      compiler := if k >= 1 then CompilerCode(c.compiler) else out.compiler,
      optimize := if k >= 2 then c.optimize else out.optimize,
      platform := if k >= 3 then PlatformCode(c.platform) else out.platform)
  {
    if k == 1 {
      LoadFirstLine(c, out);
    } else if k == 2 {
      LoadFirstTwoLines(c, out);
    } else if k == 3 {
      LoadFirstThreeLines(c, out);
    }
  }

  lemma LoadFirstLine(c: Config, out: Stored)
    ensures LoadFrom(TruncatedDump(c, 1), out) == out.(compiler := CompilerCode(c.compiler))
  {
    var l1 := DumpLine("compiler", CompilerCode(c.compiler));
    AppendEmpty(l1);
    LoadKnownLine("compiler", CompilerCode(c.compiler), "", out);
  }

  lemma LoadFirstTwoLines(c: Config, out: Stored)
    ensures LoadFrom(TruncatedDump(c, 2), out) == out.(compiler := CompilerCode(c.compiler), optimize := c.optimize)
  {
    var l1 := DumpLine("compiler", CompilerCode(c.compiler));
    var l2 := DumpLine("optimize", BoolCode(c.optimize));
    var o1 := out.(compiler := CompilerCode(c.compiler));
    AppendEmpty(l1 + l2);
    AppendEmpty(l2);
    LoadKnownLine("compiler", CompilerCode(c.compiler), l2, out);
    LoadKnownLine("optimize", BoolCode(c.optimize), "", o1);
  }

  lemma LoadFirstThreeLines(c: Config, out: Stored)
    ensures LoadFrom(TruncatedDump(c, 3), out) ==
      out.(compiler := CompilerCode(c.compiler), optimize := c.optimize, platform := PlatformCode(c.platform))
  {
    var l1 := DumpLine("compiler", CompilerCode(c.compiler));
    var l2 := DumpLine("optimize", BoolCode(c.optimize));
    var l3 := DumpLine("platform", PlatformCode(c.platform));
    var o1 := out.(compiler := CompilerCode(c.compiler));
    var o2 := o1.(optimize := BoolCode(c.optimize) != 0);
    AppendEmpty(l1 + l2 + l3);
    AppendEmpty(l3);
    Assoc(l1, l2, l3);
    LoadKnownLine("compiler", CompilerCode(c.compiler), l2 + l3, out);
    LoadKnownLine("optimize", BoolCode(c.optimize), l3, o1);
    LoadKnownLine("platform", PlatformCode(c.platform), "", o2);
  }

  /** The first `k` lines of `DumpConfig(c)`. */
  function TruncatedDump(c: Config, k: nat): string
    requires k <= 4
  {
    (if k >= 1 then DumpLine("compiler", CompilerCode(c.compiler)) else "")
    + (if k >= 2 then DumpLine("optimize", BoolCode(c.optimize)) else "")
    + (if k >= 3 then DumpLine("platform", PlatformCode(c.platform)) else "")
    + (if k >= 4 then DumpLine("device", BoolCode(c.device)) else "")
  }

  /** The device flag does not survive the round trip: a device build reads back as `device = 0`. */
  lemma DeviceIsNotRestored()
    ensures LoadConfigFromFile(Some(DumpConfig(DefaultConfig.(platform := Android, device := true))), ZeroStored).value.device == false
  {
    LoadAfterDump(DefaultConfig.(platform := Android, device := true), ZeroStored);
  }
}
