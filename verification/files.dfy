/**
 * Source-file discovery (`allow_*_files`, `recursively_collect_files` in
 * nob.c) over an abstract directory tree.
 */
module Files {
  import opened Base

  /**
   * What `get_file_type` reports for a path: a regular file, a directory
   * (whose listing `read_entire_dir` may fail to read), or anything else
   * (a link, a device, ...), which the walk ignores.
   */
  datatype Node = Regular | Directory(readable: bool, entries: seq<Entry>) | OtherKind

  /** One name in a directory listing, including the `.` and `..` entries. */
  datatype Entry = Entry(name: string, node: Node)

  /** The filter the collector is given, in place of the C function pointer. */
  datatype Filter = HFiles | JavaFiles | CFiles | AllFiles

  /** `allow_h_files`: longer than two characters and ending in `.h`. */
  predicate AllowH(path: string) {
    |path| > 2 && EndsWith(path, ".h")
  }

  /** `allow_java_files`: longer than five characters and ending in `.java`. */
  predicate AllowJava(path: string) {
    |path| > 5 && EndsWith(path, ".java")
  }

  /** `allow_c_files`: longer than two characters and ending in `.c` or `.h`. */
  predicate AllowC(path: string) {
    |path| > 2 && (EndsWith(path, ".c") || EndsWith(path, ".h"))
  }

  predicate Allows(f: Filter, path: string) {
    match f
    case HFiles => AllowH(path)
    case JavaFiles => AllowJava(path)
    case CFiles => AllowC(path)
    case AllFiles => true
  }

  /** A suffix test with the source's strict length bound accepts exactly a non-empty stem plus the suffix. */
  lemma {:induction false} SuffixFilter(path: string, suffix: string)
    ensures (|path| > |suffix| && EndsWith(path, suffix)) <==>
      exists stem :: |stem| > 0 && path == stem + suffix
  {
    if |path| > |suffix| && EndsWith(path, suffix) {
      var stem := path[..|path| - |suffix|];
      assert path == stem + suffix;
    }
    if exists stem :: |stem| > 0 && path == stem + suffix {
      var stem :| |stem| > 0 && path == stem + suffix;
      assert path[|path| - |suffix|..] == suffix;
    }
  }

  /** `.h` files are `.c` files for the collector too: `allow_c_files` accepts every `.h` path. */
  lemma AllowHImpliesAllowC(path: string)
    ensures AllowH(path) ==> AllowC(path)
  {
  }

  /** A bare `.h` (no stem) is rejected; `x.h` is accepted. */
  lemma FilterBoundary()
    ensures !AllowH(".h") && AllowH("x.h") && !AllowJava(".java") && AllowJava("A.java")
  {
    SuffixFilter("x.h", ".h");
    assert "x.h" == "x" + ".h";
    SuffixFilter("A.java", ".java");
    assert "A.java" == "A" + ".java";
  }

  predicate IsPseudo(name: string) {
    name == "." || name == ".."
  }

  /** `%s/%s`. */
  function ChildPath(parent: string, name: string): string {
    parent + "/" + name
  }

  /**
   * `recursively_collect_files(parent, out, f)` returns `out` followed by
   * this result: depth first, in listing order, without sorting.
   */
  function Collect(parent: string, node: Node, f: Filter): (r: seq<string>)
    ensures forall i :: 0 <= i < |r| ==> Allows(f, r[i])
    decreases node
  {
    match node
    case Directory(readable, entries) => if readable then CollectEntries(parent, entries, f) else []
    case _ => []
  }

  function CollectEntries(parent: string, entries: seq<Entry>, f: Filter): (r: seq<string>)
    ensures forall i :: 0 <= i < |r| ==> Allows(f, r[i])
    decreases entries
  {
    if |entries| == 0 then []
    else
      var e := entries[0];
      var here :=
        if IsPseudo(e.name) then []
        else
          var path := ChildPath(parent, e.name);
          match e.node
          case Directory(_, _) => Collect(path, e.node, f)
          case Regular => if Allows(f, path) then [path] else []
          case OtherKind => [];
      here + CollectEntries(parent, entries[1..], f)
  }

  /** Every regular file the walk reaches, in walk order: the unfiltered reference. */
  function Walk(parent: string, node: Node): seq<string>
    decreases node
  {
    match node
    case Directory(readable, entries) => if readable then WalkEntries(parent, entries) else []
    case _ => []
  }

  function WalkEntries(parent: string, entries: seq<Entry>): seq<string>
    decreases entries
  {
    if |entries| == 0 then []
    else
      var e := entries[0];
      var here :=
        if IsPseudo(e.name) then []
        else
          var path := ChildPath(parent, e.name);
          match e.node
          case Directory(_, _) => Walk(path, e.node)
          case Regular => [path]
          case OtherKind => [];
      here + WalkEntries(parent, entries[1..])
  }

  /** Keeps the paths the filter allows, in order. */
  function Keep(f: Filter, paths: seq<string>): seq<string> {
    if |paths| == 0 then []
    else (if Allows(f, paths[0]) then [paths[0]] else []) + Keep(f, paths[1..])
  }

  lemma {:induction false} KeepAppend(f: Filter, a: seq<string>, b: seq<string>)
    ensures Keep(f, a + b) == Keep(f, a) + Keep(f, b)
  {
    if |a| == 0 {
      assert a + b == b;
    } else {
      ConsSplit(a, b);
      KeepAppend(f, a[1..], b);
    }
  }

  /**
   * The collector is the walk filtered: it yields exactly the regular files
   * under `parent` the filter allows, in walk order.
   */
  lemma {:induction false} CollectIsFilteredWalk(parent: string, node: Node, f: Filter)
    ensures Collect(parent, node, f) == Keep(f, Walk(parent, node))
    decreases node
  {
    match node
    case Directory(readable, entries) =>
      if readable {
        CollectEntriesIsFilteredWalk(parent, entries, f);
      }
    case _ =>
  }

  lemma {:induction false} CollectEntriesIsFilteredWalk(parent: string, entries: seq<Entry>, f: Filter)
    ensures CollectEntries(parent, entries, f) == Keep(f, WalkEntries(parent, entries))
    decreases entries
  {
    if |entries| > 0 {
      var e := entries[0];
      var path := ChildPath(parent, e.name);
      var walkHere :=
        if IsPseudo(e.name) then []
        else match e.node
          case Directory(_, _) => Walk(path, e.node)
          case Regular => [path]
          case OtherKind => [];
      KeepAppend(f, walkHere, WalkEntries(parent, entries[1..]));
      CollectEntriesIsFilteredWalk(parent, entries[1..], f);
      if !IsPseudo(e.name) {
        match e.node
        case Directory(_, _) => CollectIsFilteredWalk(path, e.node, f);
        case Regular => assert Keep(f, [path]) == (if Allows(f, path) then [path] else []);
        case OtherKind =>
      }
    }
  }

  /** An unreadable directory contributes nothing, silently. */
  lemma UnreadableIsEmpty(parent: string, entries: seq<Entry>, f: Filter)
    ensures Collect(parent, Directory(false, entries), f) == []
  {
  }
}
