/**
 * The developer-local settings file `env` (`Env`, `parse_environment` in
 * nob.c): `KEY=value` lines naming SDK locations and signing identities.
 */
module Environment {
  import opened Base

  datatype EnvKey = AppleDeveloperName | IosDeviceId | AndroidNdkLocation | AndroidSdkLocation | AndroidJavaHome

  /** Every field is a string view; the zero-initialised global has them all empty. */
  datatype Env = Env(
    appleDeveloperName: string,
    iosDeviceId: string,
    androidNdkLocation: string,
    androidSdkLocation: string,
    androidJavaHome: string)

  const EmptyEnv := Env("", "", "", "", "")

  function KeyName(k: EnvKey): string {
    match k
    case AppleDeveloperName => "APPLE_DEVELOPER_NAME"
    case IosDeviceId => "IOS_DEVICE_ID"
    case AndroidNdkLocation => "ANDROID_NDK_LOCATION"
    case AndroidSdkLocation => "ANDROID_SDK_LOCATION"
    case AndroidJavaHome => "ANDROID_JAVA_HOME"
  }

  /** Recognises one of the five names; anything else is "Unexpected variable name". */
  function KeyOf(name: string): (r: Option<EnvKey>)
    ensures forall k :: r == Some(k) <==> name == KeyName(k)
  {
    if name == "APPLE_DEVELOPER_NAME" then Some(AppleDeveloperName)
    else if name == "IOS_DEVICE_ID" then Some(IosDeviceId)
    else if name == "ANDROID_NDK_LOCATION" then Some(AndroidNdkLocation)
    else if name == "ANDROID_SDK_LOCATION" then Some(AndroidSdkLocation)
    else if name == "ANDROID_JAVA_HOME" then Some(AndroidJavaHome)
    else None
  }

  function Get(e: Env, k: EnvKey): string {
    match k
    case AppleDeveloperName => e.appleDeveloperName
    case IosDeviceId => e.iosDeviceId
    case AndroidNdkLocation => e.androidNdkLocation
    case AndroidSdkLocation => e.androidSdkLocation
    case AndroidJavaHome => e.androidJavaHome
  }

  /** Stores `v` under `k` and leaves the other four fields as they were. */
  function Set(e: Env, k: EnvKey, v: string): (r: Env)
    ensures Get(r, k) == v
    ensures forall j :: j != k ==> Get(r, j) == Get(e, j)
  {
    match k
    case AppleDeveloperName => e.(appleDeveloperName := v)
    case IosDeviceId => e.(iosDeviceId := v)
    case AndroidNdkLocation => e.(androidNdkLocation := v)
    case AndroidSdkLocation => e.(androidSdkLocation := v)
    case AndroidJavaHome => e.(androidJavaHome := v)
  }

  /**
   * What one line means: comment lines (starting with `#`), empty lines and
   * lines whose name before the first `=` is empty are skipped; otherwise the
   * name must be known and the value is everything after the first `=`
   * (empty when the line has no `=`).
   */
  datatype Line = Skip | Assign(key: EnvKey, value: string) | Unknown(name: string)

  function Classify(line: string): Line {
    if StartsWith(line, "#") then Skip
    else if |line| == 0 then Skip
    else
      var (name, value) := ChopByDelim(line, '=');
      if |name| == 0 then Skip
      else match KeyOf(name)
        case Some(k) => Assign(k, value)
        case None => Unknown(name)
  }

  /** A line is skipped iff it is empty or starts with `#` or with `=` (an empty name). */
  lemma ClassifySkip(line: string)
    ensures Classify(line).Skip? <==> |line| == 0 || line[0] == '#' || line[0] == '='
  {
    if |line| > 0 && line[0] != '#' {
      assert !StartsWith(line, "#");
      var (name, value) := ChopByDelim(line, '=');
      if line[0] == '=' {
        assert '=' in line;
      } else if '=' in line {
        assert line[0] == name[0];
      }
    }
  }

  /**
   * A line assigns `v` to `k` iff it is `k`'s name, `=`, then `v`, or it is
   * the bare name and `v` is empty.
   */
  lemma ClassifyAssign(line: string, k: EnvKey, v: string)
    ensures Classify(line) == Assign(k, v) <==>
      line == KeyName(k) + "=" + v || (line == KeyName(k) && v == "")
  {
    KeyNameShape(k);
    if line == KeyName(k) + "=" + v || (line == KeyName(k) && v == "") {
      ChopNamed(KeyName(k), v, line);
    }
  }

  /** Every variable name is non-empty, has no `=`, and does not start a comment. */
  lemma KeyNameShape(k: EnvKey)
    ensures |KeyName(k)| > 0 && '=' !in KeyName(k) && KeyName(k)[0] != '#'
  {
  }

  /** A line made of a name, then `=` and a value (or nothing), chops back into the two. */
  lemma ChopNamed(name: string, v: string, line: string)
    requires |name| > 0 && '=' !in name && name[0] != '#'
    requires line == name + "=" + v || (line == name && v == "")
    ensures |line| > 0 && !StartsWith(line, "#")
    ensures ChopByDelim(line, '=') == (name, v)
  {
    assert line[0] == name[0];
    if line == name + "=" + v {
      ChopAt(name, v, '=');
    }
  }

  /** The loop body over the lines, stopping at the first unknown name. */
  function ApplyLines(lines: seq<string>, e: Env): Option<Env>
    decreases |lines|
  {
    if |lines| == 0 then Some(e)
    else match Classify(lines[0])
      case Skip => ApplyLines(lines[1..], e)
      case Assign(k, v) => ApplyLines(lines[1..], Set(e, k, v))
      case Unknown(_) => None
  }

  /**
   * `parse_environment`: `file` is the content of `env`, `None` when it
   * cannot be read (absent), which is success with nothing set.
   */
  function ParseEnvironment(file: Option<string>): (r: Option<Env>)
    ensures file.None? ==> r == Some(EmptyEnv)
  {
    match file
    case None => Some(EmptyEnv)
    case Some(content) => ApplyLines(SplitAll(content, '\n'), EmptyEnv)
  }

  /** The value of the last line assigning `k`, or `d` when none does. */
  function LastValue(lines: seq<string>, k: EnvKey, d: string): string
    decreases |lines|
  {
    if |lines| == 0 then d
    else match Classify(lines[|lines| - 1])
      case Assign(j, v) => if j == k then v else LastValue(lines[..|lines| - 1], k, d)
      case _ => LastValue(lines[..|lines| - 1], k, d)
  }

  lemma {:induction false} ApplyLinesAppend(a: seq<string>, b: seq<string>, e: Env)
    ensures ApplyLines(a, e).None? ==> ApplyLines(a + b, e).None?
    ensures ApplyLines(a, e).Some? ==> ApplyLines(a + b, e) == ApplyLines(b, ApplyLines(a, e).value)
    decreases |a|
  {
    if |a| == 0 {
      assert a + b == b;
    } else {
      ConsSplit(a, b);
      match Classify(a[0])
      case Skip => ApplyLinesAppend(a[1..], b, e);
      case Assign(k, v) => ApplyLinesAppend(a[1..], b, Set(e, k, v));
      case Unknown(_) =>
    }
  }

  /** The file is accepted iff no line carries an unknown name. */
  lemma {:induction false} ApplyLinesAccepts(lines: seq<string>, e: Env)
    ensures ApplyLines(lines, e).Some? <==> forall i :: 0 <= i < |lines| ==> !Classify(lines[i]).Unknown?
    decreases |lines|
  {
    if |lines| > 0 {
      ApplyLinesAccepts(lines[1..], match Classify(lines[0]) case Assign(k, v) => Set(e, k, v) case _ => e);
      if forall i :: 0 <= i < |lines[1..]| ==> !Classify(lines[1..][i]).Unknown? {
        forall i | 0 < i < |lines| ensures !Classify(lines[i]).Unknown? {
          assert lines[i] == lines[1..][i - 1];
        }
      }
    }
  }

  /** A known key ends up holding the value of its last line; others keep their start value. */
  lemma {:induction false} ApplyLinesValues(lines: seq<string>, e: Env, k: EnvKey)
    requires ApplyLines(lines, e).Some?
    ensures Get(ApplyLines(lines, e).value, k) == LastValue(lines, k, Get(e, k))
    decreases |lines|
  {
    if |lines| > 0 {
      var init := lines[..|lines| - 1];
      var last := lines[|lines| - 1];
      InitLast(lines);
      ApplyLinesAppend(init, [last], e);
      var mid := ApplyLines(init, e).value;
      ApplyLinesValues(init, e, k);
      ApplyOneLine(last, mid, k);
      assert LastValue(lines, k, Get(e, k)) ==
        match Classify(last) case Assign(j, v) => (if j == k then v else LastValue(init, k, Get(e, k)))
        case _ => LastValue(init, k, Get(e, k));
    }
  }

  /** One line assigns its key and leaves every other key alone. */
  lemma ApplyOneLine(line: string, e: Env, k: EnvKey)
    requires ApplyLines([line], e).Some?
    ensures Get(ApplyLines([line], e).value, k) ==
      match Classify(line) case Assign(j, v) => (if j == k then v else Get(e, k)) case _ => Get(e, k)
  {
    assert [line][1..] == [];
  }

  /** The parsed environment, field by field: the last assignment wins. */
  lemma ParseEnvironmentValues(content: string, k: EnvKey)
    requires ParseEnvironment(Some(content)).Some?
    ensures Get(ParseEnvironment(Some(content)).value, k) == LastValue(SplitAll(content, '\n'), k, "")
  {
    ApplyLinesValues(SplitAll(content, '\n'), EmptyEnv, k);
  }

  /** A readable file is rejected iff one of its lines names an unknown variable. */
  lemma ParseEnvironmentRejects(content: string)
    ensures ParseEnvironment(Some(content)).None? <==>
      exists i :: 0 <= i < |SplitAll(content, '\n')| && Classify(SplitAll(content, '\n')[i]).Unknown?
  {
    var lines := SplitAll(content, '\n');
    ApplyLinesAccepts(lines, EmptyEnv);
    if ParseEnvironment(Some(content)).None? {
      var i :| 0 <= i < |lines| && Classify(lines[i]).Unknown?;
    }
  }
}
