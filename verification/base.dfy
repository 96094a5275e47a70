/**
 * Text primitives shared by the parsers of the build script: the string-view
 * chop used for `KEY=value` files, C's `atoi`, and the `%d` rendering used
 * when the configuration is written back.
 */
module Base {

  datatype Option<+T> = None | Some(value: T)

  /** Index of the first `d` in `s`, or `|s|` when there is none. */
  function FindDelim(s: string, d: char): (i: nat)
    ensures i <= |s|
    ensures i < |s| ==> s[i] == d
    ensures forall k :: 0 <= k < i ==> s[k] != d
  {
    if |s| == 0 then 0
    else if s[0] == d then 0
    else 1 + FindDelim(s[1..], d)
  }

  /**
   * `sv_chop_by_delim`: the text before the first `d` is returned as `chunk`;
   * the view is advanced past the delimiter when there is one, and to the
   * end of the text when there is none.
   */
  function ChopByDelim(s: string, d: char): (r: (string, string))
    ensures d !in r.0
    ensures d in s ==> s == r.0 + [d] + r.1
    ensures d !in s ==> r.0 == s && r.1 == []
    ensures |s| > 0 ==> |r.1| < |s|
  {
    var i := FindDelim(s, d);
    if i < |s| then (s[..i], s[i + 1..]) else (s, [])
  }

  function StartsWith(s: string, prefix: string): bool {
    |prefix| <= |s| && s[..|prefix|] == prefix
  }

  function EndsWith(s: string, suffix: string): bool {
    |suffix| <= |s| && s[|s| - |suffix|..] == suffix
  }

  /** The characters C's `isspace` accepts in the "C" locale. */
  predicate IsSpace(c: char) {
    c == ' ' || c == '\t' || c == '\n' || c == '\r' || c == '\U{B}' || c == '\U{C}'
  }

  predicate IsDigit(c: char) {
    '0' <= c <= '9'
  }

  function DigitValue(c: char): nat
    requires IsDigit(c)
  {
    (c as int) - ('0' as int)
  }

  function DigitChar(n: nat): (c: char)
    requires n < 10
    ensures IsDigit(c) && DigitValue(c) == n
  {
    (('0' as int) + n) as char
  }

  /** Folds the leading run of decimal digits of `s` into `acc`. */
  function ParseDigits(s: string, acc: int): int
  {
    if |s| > 0 && IsDigit(s[0]) then ParseDigits(s[1..], acc * 10 + DigitValue(s[0])) else acc
  }

  function ApplySign(negative: bool, n: int): int {
    if negative then -n else n
  }

  /**
   * C's `atoi`: leading white space is skipped, one optional sign is read,
   * then the longest run of digits; anything else ends the number.  The
   * integer is unbounded here (overflow is undefined behaviour in C).
   */
  function Atoi(s: string): int
  {
    if |s| > 0 && IsSpace(s[0]) then Atoi(s[1..])
    else if |s| > 0 && (s[0] == '-' || s[0] == '+') then ApplySign(s[0] == '-', ParseDigits(s[1..], 0))
    else ParseDigits(s, 0)
  }

  /** The `%d` rendering of a natural number. */
  function Decimal(n: nat): (r: string)
    ensures |r| > 0
    ensures forall k :: 0 <= k < |r| ==> IsDigit(r[k])
  {
    if n < 10 then [DigitChar(n)] else Decimal(n / 10) + [DigitChar(n % 10)]
  }

  /** A run of digits followed by anything folds as the digits alone would. */
  lemma {:induction false} ParseDigitsAppend(a: string, t: string, acc: int)
    requires forall k :: 0 <= k < |a| ==> IsDigit(a[k])
    ensures ParseDigits(a + t, acc) == ParseDigits(t, ParseDigits(a, acc))
  {
    if |a| > 0 {
      ConsSplit(a, t);
      ParseDigitsAppend(a[1..], t, acc * 10 + DigitValue(a[0]));
    } else {
      assert a + t == t;
    }
  }

  lemma {:induction false} ParseDecimal(n: nat)
    ensures ParseDigits(Decimal(n), 0) == n
  {
    if n >= 10 {
      var d := DigitChar(n % 10);
      ParseDigitsAppend(Decimal(n / 10), [d], 0);
      ParseDecimal(n / 10);
      assert [d][1..] == [];
    } else {
      assert [DigitChar(n)][1..] == [];
    }
  }

  /**
   * Round trip of `%d` through `atoi`: the number written is read back
   * whatever follows it, as long as that does not continue the digits.
   */
  lemma AtoiDecimal(n: nat, t: string)
    requires |t| == 0 || !IsDigit(t[0])
    ensures Atoi(Decimal(n) + t) == n
  {
    var s := Decimal(n) + t;
    assert s[0] == Decimal(n)[0];
    ParseDigitsAppend(Decimal(n), t, 0);
    ParseDecimal(n);
  }

  /** Splits on every `d`; a trailing delimiter gives no empty last piece. */
  function SplitAll(s: string, d: char): (r: seq<string>)
    ensures forall k :: 0 <= k < |r| ==> d !in r[k]
    ensures |s| == 0 <==> |r| == 0
    decreases |s|
  {
    if |s| == 0 then []
    else
      var (chunk, rest) := ChopByDelim(s, d);
      [chunk] + SplitAll(rest, d)
  }

  /** Joins path segments with `/`. */
  function JoinPath(segs: seq<string>): string
  {
    if |segs| == 0 then ""
    else if |segs| == 1 then segs[0]
    else segs[0] + "/" + JoinPath(segs[1..])
  }

  /** Chopping `name + [d] + rest` at `d` gives back `name` and `rest` when `name` has no `d`. */
  lemma ChopAt(name: string, rest: string, d: char)
    requires d !in name
    ensures ChopByDelim(name + [d] + rest, d) == (name, rest)
  {
    var s := name + [d] + rest;
    FindDelimAt(s, d, |name|);
    assert s[..|name|] == name;
    assert s[|name| + 1..] == rest;
  }

  lemma {:induction false} FindDelimAt(s: string, d: char, i: nat)
    requires i < |s| && s[i] == d
    requires forall k :: 0 <= k < i ==> s[k] != d
    ensures FindDelim(s, d) == i
  {
    if i > 0 {
      FindDelimAt(s[1..], d, i - 1);
    }
  }

  /** One step of `SplitAll`: a line without `d`, then `d`, then the rest. */
  lemma SplitStep(line: string, rest: string, d: char)
    requires d !in line
    ensures SplitAll(line + [d] + rest, d) == [line] + SplitAll(rest, d)
  {
    ChopAt(line, rest, d);
  }

  // ---------------------------------------------------------------------
  // Paths

  /** Applies relative path segments to a directory; `..` at the root stays at the root. */
  function Normalize(cwd: seq<string>, segs: seq<string>): seq<string>
    decreases |segs|
  {
    if |segs| == 0 then cwd
    else if segs[0] == "" || segs[0] == "." then Normalize(cwd, segs[1..])
    else if segs[0] == ".." then Normalize(if |cwd| > 0 then cwd[..|cwd| - 1] else cwd, segs[1..])
    else Normalize(cwd + [segs[0]], segs[1..])
  }

  /** A path relative to the directory `cwd`, or an absolute one, as a key from the project root. */
  function Resolve(cwd: seq<string>, p: string): string {
    if |p| > 0 && p[0] == '/' then p else JoinPath(Normalize(cwd, SplitAll(p, '/')))
  }

  /** Non-empty segments without `/`: what a path built with `JoinPath` splits back into. */
  predicate Segments(segs: seq<string>) {
    forall i :: 0 <= i < |segs| ==> |segs[i]| > 0 && '/' !in segs[i]
  }

  /** Segments that name a directory entry, neither `.` nor `..`. */
  predicate PlainSegments(segs: seq<string>) {
    Segments(segs) && forall i :: 0 <= i < |segs| ==> segs[i] != "." && segs[i] != ".."
  }

  lemma {:induction false} SplitJoin(segs: seq<string>)
    requires |segs| > 0 && Segments(segs)
    ensures SplitAll(JoinPath(segs), '/') == segs
  {
    var tail := segs[1..];
    HeadTail(segs);
    if |segs| == 1 {
      assert ChopByDelim(segs[0], '/') == (segs[0], []);
      assert SplitAll(segs[0], '/') == [segs[0]] + SplitAll([], '/');
    } else {
      assert Segments(tail) by {
        forall i | 0 <= i < |tail| ensures |tail[i]| > 0 && '/' !in tail[i] {
          assert tail[i] == segs[i + 1];
        }
      }
      assert JoinPath(segs) == segs[0] + ['/'] + JoinPath(tail);
      SplitStep(segs[0], JoinPath(tail), '/');
      SplitJoin(tail);
    }
  }

  lemma {:induction false} NormalizeAppend(cwd: seq<string>, a: seq<string>, b: seq<string>)
    ensures Normalize(cwd, a + b) == Normalize(Normalize(cwd, a), b)
    decreases |a|
  {
    if |a| == 0 {
      assert a + b == b;
    } else {
      ConsSplit(a, b);
      var next := if a[0] == "" || a[0] == "." then cwd
        else if a[0] == ".." then (if |cwd| > 0 then cwd[..|cwd| - 1] else cwd)
        else cwd + [a[0]];
      NormalizeAppend(next, a[1..], b);
    }
  }

  lemma {:induction false} NormalizePlain(cwd: seq<string>, segs: seq<string>)
    requires PlainSegments(segs)
    ensures Normalize(cwd, segs) == cwd + segs
    decreases |segs|
  {
    if |segs| > 0 {
      NormalizePlain(cwd + [segs[0]], segs[1..]);
      assert cwd + [segs[0]] + segs[1..] == cwd + segs;
    }
  }

  /** Going down into plain segments and back up as many `..` returns to where one started. */
  lemma {:induction false} NormalizeUp(cwd: seq<string>, segs: seq<string>)
    requires PlainSegments(segs)
    ensures Normalize(cwd + segs, Ups(|segs|)) == cwd
    decreases |segs|
  {
    if |segs| > 0 {
      var last := |segs| - 1;
      assert (cwd + segs)[..|cwd + segs| - 1] == cwd + segs[..last];
      assert Ups(|segs|)[1..] == Ups(last);
      NormalizeUp(cwd, segs[..last]);
    }
  }

  /** `n` copies of `..`. */
  function Ups(n: nat): (r: seq<string>)
    ensures |r| == n && Segments(r)
    ensures forall i :: 0 <= i < n ==> r[i] == ".."
  {
    if n == 0 then [] else [".."] + Ups(n - 1)
  }

  /** A relative path built from segments resolves to the working directory followed by them. */
  lemma ResolveJoin(cwd: seq<string>, segs: seq<string>)
    requires |segs| > 0 && Segments(segs) && segs[0][0] != '/'
    ensures Resolve(cwd, JoinPath(segs)) == JoinPath(Normalize(cwd, segs))
  {
    SplitJoin(segs);
    assert JoinPath(segs)[0] == segs[0][0];
  }

  /** A name without `/` whose second character is not `.` is a plain segment. */
  lemma PlainOne(a: string)
    requires |a| > 1 && a[1] != '.'
    requires forall k :: 0 <= k < |a| ==> a[k] != '/'
    ensures PlainSegments([a])
  {
  }

  lemma PlainAppend(a: seq<string>, b: seq<string>)
    requires PlainSegments(a) && PlainSegments(b)
    ensures PlainSegments(a + b)
  {
    forall i | 0 <= i < |a + b|
      ensures |(a + b)[i]| > 0 && '/' !in (a + b)[i] && (a + b)[i] != "." && (a + b)[i] != ".."
    {
      if i < |a| { assert (a + b)[i] == a[i]; } else { assert (a + b)[i] == b[i - |a|]; }
    }
  }

  /** A non-empty sequence is its front followed by its last element. */
  lemma InitLast<T>(s: seq<T>)
    requires |s| > 0
    ensures s == s[..|s| - 1] + [s[|s| - 1]]
  {
  }

  /** The head and tail of a concatenation with a non-empty front. */
  lemma ConsSplit<T>(a: seq<T>, b: seq<T>)
    requires |a| > 0
    ensures (a + b)[0] == a[0] && (a + b)[1..] == a[1..] + b
  {
  }

  /** A non-empty sequence is its first element followed by the rest. */
  lemma HeadTail<T>(s: seq<T>)
    requires |s| > 0
    ensures s == [s[0]] + s[1..]
  {
  }

  /** Dropping the first two pieces of a five-piece concatenation. */
  lemma DropTwo<T>(a: seq<T>, b: seq<T>, c: seq<T>, d: seq<T>, e: seq<T>)
    ensures (a + b + c + d + e)[|a| + |b|..] == c + (d + e)
  {
    assert a + b + c + d + e == (a + b) + (c + (d + e));
  }

  lemma AppendEmpty<T>(a: seq<T>)
    ensures a + [] == a
  {
  }

  lemma Assoc<T>(a: seq<T>, b: seq<T>, c: seq<T>)
    ensures a + b + c == a + (b + c)
  {
  }

  /** Regrouping a concatenation around one element `y`. */
  lemma Regroup<T>(p: seq<T>, x: seq<T>, y: T, i: seq<T>, m: seq<T>, l: seq<T>)
    ensures p + (x + [y] + i + m) + l == (p + x) + [y] + (i + m + l)
  {
  }

  /** Cutting `a + [x] + b` before `x` gives back `a`. */
  lemma CutAt<T>(a: seq<T>, x: T, b: seq<T>)
    ensures |a| < |a + [x] + b| && (a + [x] + b)[..|a|] == a && (a + [x] + b)[|a|] == x
  {
  }

  lemma Assoc4<T>(a: seq<T>, b: seq<T>, c: seq<T>, d: seq<T>)
    ensures a + b + c + d == a + (b + c + d)
  {
  }
}
