/**
 * The library locator of `openvino-finder`: given a library name it walks a fixed,
 * prioritised list of candidate paths and returns the first one that is a file.
 *
 * The process environment is a map from variable names to values, and the
 * filesystem is the set of paths that are files, the set of paths that are
 * directories, and a listing (entry names) for each directory that can be read.
 * Paths are strings; the platform constants of each target OS are members of `Os`.
 */
module Finder {
  import opened Wrappers
  import opened Strings

  // ---------------------------------------------------------------------------
  // Platform conventions
  // ---------------------------------------------------------------------------

  /** The target families the crate distinguishes with `cfg`; `OtherOs` is any other Unix-like target. */
  datatype Os = Linux | MacOs | Windows | OtherOs {

    /** `env::consts::DLL_PREFIX` */
    function DllPrefix(): string {
      if this == Windows then "" else "lib"
    }

    /** `env::consts::DLL_SUFFIX` */
    function DllSuffix(): string {
      match this
      case Linux => ".so"
      case MacOs => ".dylib"
      case Windows => ".dll"
      case OtherOs => ".so"
    }

    /** `ENV_LIBRARY_PATH` */
    function LibraryPathVar(): string {
      match this
      case Linux => "LD_LIBRARY_PATH"
      case MacOs => "DYLD_LIBRARY_PATH"
      case Windows => "PATH"
      case OtherOs => "LD_LIBRARY_PATH"
    }

    /** `DEFAULT_INSTALLATION_DIRECTORIES` */
    function DefaultDirs(): seq<string> {
      match this
      case Linux => ["/opt/intel/openvino_2022", "/opt/intel/openvino"]
      case MacOs => ["/opt/intel/openvino_2022", "/opt/intel/openvino"]
      case Windows => ["C:\\Program Files (x86)\\Intel\\openvino_2022", "C:\\Program Files (x86)\\Intel\\openvino"]
      case OtherOs => []
    }

    /** `SYSTEM_INSTALLATION_DIRECTORIES` */
    function SystemDirs(): seq<string> {
      if this == Linux then ["/usr/lib/x86_64-linux-gnu", "/lib/x86_64-linux-gnu", "/usr/lib64"] else []
    }

    /** The path separators of the platform. */
    predicate IsSeparator(c: char) {
      c == '/' || (this == Windows && c == '\\')
    }

    /** The separator `PathBuf::push` inserts. */
    function MainSeparator(): char {
      if this == Windows then '\\' else '/'
    }

    /**
     * `dir.join(rel)`: a path that starts with a separator replaces `dir`; otherwise a
     * separator is inserted unless `dir` is empty or already ends with one.
     */
    function Join(dir: string, rel: string): string {
      if rel != [] && IsSeparator(rel[0]) then rel
      else if dir == [] || IsSeparator(dir[|dir| - 1]) then dir + rel
      else dir + [MainSeparator()] + rel
    }

    /** `env::split_paths`: `':'`-separated on Unix, `';'`-separated with `"`-quoting on Windows. */
    function SplitPaths(value: string): (r: seq<string>)
      ensures |r| >= 1
    {
      if this == Windows then SplitQuoted(value, false) else Split(value, ':')
    }

    /** `path.parent()`: the path without its last component. */
    function Parent(p: string): Option<string> {
      var trimmed := TrimSeparators(p);
      if trimmed == [] then None
      else
        var cut := DropComponent(trimmed);
        var up := TrimSeparators(cut);
        if up == [] && cut != [] then Some(cut[..1]) else Some(up)
    }

    /** The path without trailing separators. */
    function TrimSeparators(p: string): (r: string)
      ensures |r| <= |p| && r == p[..|r|]
      decreases |p|
    {
      if p != [] && IsSeparator(p[|p| - 1]) then TrimSeparators(p[..|p| - 1]) else p
    }

    /** The path up to and including the separator before its last component. */
    function DropComponent(p: string): (r: string)
      ensures |r| <= |p| && r == p[..|r|]
      ensures r == [] || IsSeparator(r[|r| - 1])
      decreases |p|
    {
      if p == [] || IsSeparator(p[|p| - 1]) then p else DropComponent(p[..|p| - 1])
    }
  }

  /** Windows' `split_paths`: `'"'` toggles quoting and is dropped, an unquoted `';'` ends an entry. */
  function SplitQuoted(s: string, quoted: bool): (r: seq<string>)
    ensures |r| >= 1
    decreases |s|
  {
    if s == [] then [[]]
    else if s[0] == '"' then SplitQuoted(s[1..], !quoted)
    else if s[0] == ';' && !quoted then [[]] + SplitQuoted(s[1..], false)
    else
      var rest := SplitQuoted(s[1..], quoted);
      [[s[0]] + rest[0]] + rest[1..]
  }

  /** The parent of a file joined onto a directory is that directory. */
  lemma ParentOfJoin(os: Os, dir: string, name: string)
    requires dir != [] && !os.IsSeparator(dir[|dir| - 1])
    requires name != [] && forall i :: 0 <= i < |name| ==> !os.IsSeparator(name[i])
    ensures os.Parent(os.Join(dir, name)) == Some(dir)
  {
    var p := os.Join(dir, name);
    assert p == dir + [os.MainSeparator()] + name;
    assert os.TrimSeparators(p) == p;
    DropComponentOfName(os, dir + [os.MainSeparator()], name);
    var cut := os.DropComponent(p);
    assert cut == dir + [os.MainSeparator()];
    assert cut[..|cut| - 1] == dir;
    assert os.TrimSeparators(cut) == dir;
  }

  lemma {:induction false} DropComponentOfName(os: Os, head: string, name: string)
    requires head != [] && os.IsSeparator(head[|head| - 1])
    requires forall i :: 0 <= i < |name| ==> !os.IsSeparator(name[i])
    ensures os.DropComponent(head + name) == head
    decreases |name|
  {
    if name != [] {
      var n := name[..|name| - 1];
      assert (head + name)[..|head + name| - 1] == head + n;
      DropComponentOfName(os, head, n);
    } else {
      assert head + name == head;
    }
  }

  // ---------------------------------------------------------------------------
  // Environment, filesystem and the constant tables
  // ---------------------------------------------------------------------------

  /** `env::var_os`: a variable is set when it has a value, even an empty one. */
  type Env = map<string, string>

  /**
   * `is_file` (symbolic links followed), `is_dir`, and `read_dir` giving the UTF-8
   * entry names; a directory missing from `listing` is one that cannot be read.
   */
  datatype FileSystem = FileSystem(files: set<string>, dirs: set<string>, listing: map<string, seq<string>>)

  const ENV_OPENVINO_INSTALL_DIR: string := "OPENVINO_INSTALL_DIR"
  const ENV_OPENVINO_BUILD_DIR: string := "OPENVINO_BUILD_DIR"
  const ENV_INTEL_OPENVINO_DIR: string := "INTEL_OPENVINO_DIR"
  const ENV_OPENVINO_PLUGINS_XML: string := "OPENVINO_PLUGINS_XML"

  const KNOWN_INSTALLATION_SUBDIRECTORIES: seq<string> := ["runtime/lib/intel64", "runtime/3rdparty/tbb/lib"]
  const KNOWN_BUILD_SUBDIRECTORIES: seq<string> := ["bin/intel64/Debug/lib", "bin/intel64/Release/lib", "temp/tbb/lib"]

  /** The message of the `expect` on a system directory that cannot be listed. */
  const LIST_PANIC: string := "cannot list installation directory"

  /**
   * The platform file name searched for: it opens with the platform's DLL prefix, ends
   * with its DLL suffix, and the library name is what lies between.
   */
  function FileName(os: Os, libraryName: string): (r: string)
    ensures |r| == |os.DllPrefix()| + |libraryName| + |os.DllSuffix()|
    ensures StartsWith(r, os.DllPrefix())
    ensures r[|r| - |os.DllSuffix()|..] == os.DllSuffix()
    ensures r[|os.DllPrefix()|..|r| - |os.DllSuffix()|] == libraryName
  {
    os.DllPrefix() + libraryName + os.DllSuffix()
  }

  /** Distinct library names are searched under distinct file names. */
  lemma FileNameInjective(os: Os, a: string, b: string)
    ensures FileName(os, a) == FileName(os, b) <==> a == b
  {
    if FileName(os, a) == FileName(os, b) {
      var p, q := |os.DllPrefix()|, |os.DllSuffix()|;
      assert a == FileName(os, a)[p..|FileName(os, a)| - q];
    }
  }

  // ---------------------------------------------------------------------------
  // `get_suffixes` and `build_latest_version`
  // ---------------------------------------------------------------------------

  /** `get_suffixes`: the rest of every name that starts with `prefix`, in listing order. */
  function GetSuffixes(names: seq<string>, prefix: string): (r: seq<string>)
    ensures |r| <= |names|
    ensures forall v :: v in r ==> prefix + v in names
    ensures forall f :: f in names && StartsWith(f, prefix) ==> f[|prefix|..] in r
    decreases |names|
  {
    if names == [] then []
    else
      var rest := GetSuffixes(names[1..], prefix);
      match StripPrefix(names[0], prefix)
      case Some(v) => [v] + rest
      case None => rest
  }

  /** Filtering a concatenated listing filters each part in turn, so the input order is kept. */
  lemma {:induction false} GetSuffixesAppend(a: seq<string>, b: seq<string>, prefix: string)
    ensures GetSuffixes(a + b, prefix) == GetSuffixes(a, prefix) + GetSuffixes(b, prefix)
    decreases |a|
  {
    if a != [] {
      assert (a + b)[1..] == a[1..] + b;
      GetSuffixesAppend(a[1..], b, prefix);
    } else {
      assert a + b == b;
    }
  }

  /** The greatest string of a non-empty list under Rust's string order. */
  function Greatest(vs: seq<string>): (m: string)
    requires vs != []
    ensures m in vs
    ensures forall w :: w in vs ==> LexLe(w, m)
    decreases |vs|
  {
    if |vs| == 1 then
      assert forall w :: w in vs ==> w == vs[0];
      LexLeReflexive(vs[0]);
      vs[0]
    else
      var m := Greatest(vs[1..]);
      LexLeTotal(vs[0], m);
      if LexLe(vs[0], m) then
        m
      else
        forall w | w in vs ensures LexLe(w, vs[0]) {
          if w == vs[0] {
            LexLeReflexive(w);
          } else {
            assert w in vs[1..];
            LexLeTransitive(w, m, vs[0]);
          }
        }
        vs[0]
  }

  lemma {:induction false} LexLeReflexive(a: string)
    ensures LexLe(a, a)
    decreases |a|
  {
    if a != [] {
      LexLeReflexive(a[1..]);
    }
  }

  /**
   * `build_latest_version`: no versions give `None`; otherwise `dir/(prefix ++ v)` for
   * the greatest `v` (the head of the list after `sort` and `reverse`).
   */
  function BuildLatestVersion(os: Os, dir: string, prefix: string, versions: seq<string>): (r: Option<string>)
    ensures r.None? <==> versions == []
    ensures r.Some? ==> exists v :: v in versions && r.value == os.Join(dir, prefix + v)
                                    && forall w :: w in versions ==> LexLe(w, v)
  {
    if versions == [] then None
    else
      var v := Greatest(versions);
      Some(os.Join(dir, prefix + v))
  }

  /** The `find_latest_plugin_xml` example: `2023.1.0` is the latest of three versions. */
  lemma LatestPluginsDirExample(os: Os, dir: string, prefix: string)
    ensures BuildLatestVersion(os, dir, prefix, ["2022.3.0", "2023.1.0", "2022.1.0"]) == Some(os.Join(dir, prefix + "2023.1.0"))
  {
    var vs := ["2022.3.0", "2023.1.0", "2022.1.0"];
    LexLeAt(vs[0], vs[1], 3);
    LexLeAt(vs[2], vs[1], 3);
    var m := Greatest(vs);
    assert LexLe(vs[1], m);
  }

  /** The `find_latest_library` example: `2022.3.0` is later than `2022.1.0`. */
  lemma LatestLibraryExample(os: Os, dir: string, prefix: string)
    ensures BuildLatestVersion(os, dir, prefix, ["2022.1.0", "2022.3.0"]) == Some(os.Join(dir, prefix + "2022.3.0"))
  {
    var vs := ["2022.1.0", "2022.3.0"];
    LexLeAt(vs[0], vs[1], 5);
    var m := Greatest(vs);
    assert LexLe(vs[1], m);
  }

  // ---------------------------------------------------------------------------
  // The search plan: every candidate `find` probes, in order
  // ---------------------------------------------------------------------------

  /** The candidates probed so far, and whether the search stopped at an unlistable directory. */
  datatype Plan = Plan(probes: seq<string>, stuck: bool)

  /** `dir/sub/file` for every subdirectory, in table order. */
  function Probes(os: Os, dir: string, subdirs: seq<string>, file: string): (r: seq<string>)
    ensures |r| == |subdirs|
  {
    seq(|subdirs|, i requires 0 <= i < |subdirs| => os.Join(os.Join(dir, subdirs[i]), file))
  }

  /** The candidates under the directory named by `variable`; none when it is unset. */
  function EnvProbes(os: Os, env: Env, variable: string, subdirs: seq<string>, file: string): seq<string> {
    if variable in env then Probes(os, env[variable], subdirs, file) else []
  }

  /** One candidate per entry of the library path variable; none when it is unset. */
  function LibraryPathProbes(os: Os, env: Env, file: string): seq<string> {
    if os.LibraryPathVar() in env then EntryProbes(os, os.SplitPaths(env[os.LibraryPathVar()]), file) else []
  }

  /** `entry/file` for every entry of a path list, in order. */
  function EntryProbes(os: Os, entries: seq<string>, file: string): (r: seq<string>)
    ensures |r| == |entries|
  {
    seq(|entries|, i requires 0 <= i < |entries| => os.Join(entries[i], file))
  }

  /** A system directory: skipped unless it is a directory; the exact name, then the latest versioned name. */
  function SystemStep(os: Os, fs: FileSystem, dir: string, file: string): Plan {
    if dir !in fs.dirs then Plan([], false)
    else if dir !in fs.listing then Plan([os.Join(dir, file)], true)
    else match BuildLatestVersion(os, dir, file, GetSuffixes(fs.listing[dir], file))
      case Some(p) => Plan([os.Join(dir, file), p], false)
      case None => Plan([os.Join(dir, file)], false)
  }

  /** The system directories, in order, up to the first one that cannot be listed. */
  function SystemPlan(os: Os, fs: FileSystem, dirs: seq<string>, file: string): Plan
    decreases |dirs|
  {
    if dirs == [] then Plan([], false)
    else
      var before := SystemPlan(os, fs, dirs[..|dirs| - 1], file);
      if before.stuck then before
      else
        var step := SystemStep(os, fs, dirs[|dirs| - 1], file);
        Plan(before.probes + step.probes, step.stuck)
  }

  /** The default installation roots that are directories, each with the installation subdirectories. */
  function DefaultProbes(os: Os, fs: FileSystem, dirs: seq<string>, file: string): seq<string>
    decreases |dirs|
  {
    if dirs == [] then []
    else
      var last := dirs[|dirs| - 1];
      DefaultProbes(os, fs, dirs[..|dirs| - 1], file)
      + (if last in fs.dirs then Probes(os, last, KNOWN_INSTALLATION_SUBDIRECTORIES, file) else [])
  }

  /** The candidates after the environment: the system directories, then (unless stuck) the default roots. */
  function AfterEnvironment(os: Os, fs: FileSystem, file: string): Plan {
    var system := SystemPlan(os, fs, os.SystemDirs(), file);
    if system.stuck then system
    else Plan(system.probes + DefaultProbes(os, fs, os.DefaultDirs(), file), false)
  }

  /**
   * Every candidate of `find`, in the order it probes them: `OPENVINO_BUILD_DIR`,
   * `OPENVINO_INSTALL_DIR`, `INTEL_OPENVINO_DIR`, the library path, the system
   * directories and the default roots.
   */
  function SearchPlan(os: Os, env: Env, fs: FileSystem, file: string): Plan {
    var rest := AfterEnvironment(os, fs, file);
    Plan(EnvProbes(os, env, ENV_OPENVINO_BUILD_DIR, KNOWN_BUILD_SUBDIRECTORIES, file)
         + (EnvProbes(os, env, ENV_OPENVINO_INSTALL_DIR, KNOWN_INSTALLATION_SUBDIRECTORIES, file)
         + (EnvProbes(os, env, ENV_INTEL_OPENVINO_DIR, KNOWN_INSTALLATION_SUBDIRECTORIES, file)
         + (LibraryPathProbes(os, env, file) + rest.probes))),
         rest.stuck)
  }

  /** The first candidate that is a file. */
  function FirstFile(probes: seq<string>, files: set<string>): (r: Option<string>)
    ensures r.Some? ==> r.value in files && r.value in probes
    ensures r.None? <==> forall p :: p in probes ==> p !in files
    decreases |probes|
  {
    if probes == [] then None
    else if probes[0] in files then Some(probes[0])
    else FirstFile(probes[1..], files)
  }

  /** What `find` returns: the first candidate that is a file, else a panic at an unlistable system directory, else `None`. */
  function FindResult(os: Os, env: Env, fs: FileSystem, libraryName: string): Outcome<Option<string>> {
    PlanResult(SearchPlan(os, env, fs, FileName(os, libraryName)), fs.files)
  }

  // ---------------------------------------------------------------------------
  // Facts about the plan
  // ---------------------------------------------------------------------------

  predicate Prefix(a: seq<string>, b: seq<string>) {
    |a| <= |b| && b[..|a|] == a
  }

  predicate NoFile(probes: seq<string>, files: set<string>) {
    forall p :: p in probes ==> p !in files
  }

  lemma PrefixOfAppend(a: seq<string>, b: seq<string>)
    ensures Prefix(a, a + b)
  {
    assert (a + b)[..|a|] == a;
  }

  lemma PrefixTransitive(a: seq<string>, b: seq<string>, c: seq<string>)
    requires Prefix(a, b) && Prefix(b, c)
    ensures Prefix(a, c)
  {
    assert c[..|a|] == c[..|b|][..|a|];
  }

  lemma PrefixAppendBoth(c: seq<string>, a: seq<string>, b: seq<string>)
    requires Prefix(a, b)
    ensures Prefix(c + a, c + b)
  {
    assert (c + b)[..|c + a|] == c + b[..|a|];
  }


  /** A hit right after candidates that are not files is the first file of the plan. */
  lemma {:induction false} FirstHit(probed: seq<string>, p: string, plan: seq<string>, files: set<string>)
    requires Prefix(probed + [p], plan) && NoFile(probed, files) && p in files
    ensures FirstFile(plan, files) == Some(p)
    decreases |probed|
  {
    if probed == [] {
      assert plan[0] == p;
    } else {
      assert plan[0] == probed[0];
      assert Prefix(probed[1..] + [p], plan[1..]) by {
        assert plan[1..][..|probed|] == plan[..|probed| + 1][1..];
        assert (probed + [p])[1..] == probed[1..] + [p];
      }
      FirstHit(probed[1..], p, plan[1..], files);
    }
  }

  /** The first file of concatenated candidate lists comes from the first list that holds a file. */
  lemma {:induction false} FirstFileAppend(a: seq<string>, b: seq<string>, files: set<string>)
    ensures FirstFile(a + b, files) == if FirstFile(a, files).Some? then FirstFile(a, files) else FirstFile(b, files)
    decreases |a|
  {
    if a != [] {
      assert (a + b)[1..] == a[1..] + b;
      FirstFileAppend(a[1..], b, files);
    } else {
      assert a + b == b;
    }
  }

  lemma {:induction false} SystemPlanPrefix(os: Os, fs: FileSystem, dirs: seq<string>, k: nat, file: string)
    requires k <= |dirs|
    ensures !SystemPlan(os, fs, dirs[..k], file).stuck ==> Prefix(SystemPlan(os, fs, dirs[..k], file).probes, SystemPlan(os, fs, dirs, file).probes)
    ensures SystemPlan(os, fs, dirs[..k], file).stuck ==> SystemPlan(os, fs, dirs, file) == SystemPlan(os, fs, dirs[..k], file)
    decreases |dirs|
  {
    if k == |dirs| {
      assert dirs[..k] == dirs;
    } else {
      var init := dirs[..|dirs| - 1];
      assert init[..k] == dirs[..k];
      SystemPlanPrefix(os, fs, init, k, file);
      var before := SystemPlan(os, fs, init, file);
      if !before.stuck {
        PrefixOfAppend(before.probes, SystemStep(os, fs, dirs[|dirs| - 1], file).probes);
        if !SystemPlan(os, fs, dirs[..k], file).stuck {
          PrefixTransitive(SystemPlan(os, fs, dirs[..k], file).probes, before.probes, SystemPlan(os, fs, dirs, file).probes);
        }
      }
    }
  }

  lemma {:induction false} DefaultProbesPrefix(os: Os, fs: FileSystem, dirs: seq<string>, k: nat, file: string)
    requires k <= |dirs|
    ensures Prefix(DefaultProbes(os, fs, dirs[..k], file), DefaultProbes(os, fs, dirs, file))
    decreases |dirs|
  {
    if k == |dirs| {
      assert dirs[..k] == dirs;
    } else {
      var init := dirs[..|dirs| - 1];
      assert init[..k] == dirs[..k];
      DefaultProbesPrefix(os, fs, init, k, file);
      var last := dirs[|dirs| - 1];
      PrefixOfAppend(DefaultProbes(os, fs, init, file),
                     if last in fs.dirs then Probes(os, last, KNOWN_INSTALLATION_SUBDIRECTORIES, file) else []);
      PrefixTransitive(DefaultProbes(os, fs, dirs[..k], file), DefaultProbes(os, fs, init, file), DefaultProbes(os, fs, dirs, file));
    }
  }

  /** Any path `find` returns is a file, and it is a candidate of the plan. */
  lemma FoundIsFile(os: Os, env: Env, fs: FileSystem, libraryName: string)
    ensures FindResult(os, env, fs, libraryName).Done? && FindResult(os, env, fs, libraryName).value.Some? ==>
            var p := FindResult(os, env, fs, libraryName).value.value;
            p in fs.files && p in SearchPlan(os, env, fs, FileName(os, libraryName)).probes
  {
  }

  /** `find` returns `None` exactly when the whole plan is probed and no candidate is a file. */
  lemma NotFoundExactly(os: Os, env: Env, fs: FileSystem, libraryName: string)
    ensures FindResult(os, env, fs, libraryName) == Done(None) <==>
            var plan := SearchPlan(os, env, fs, FileName(os, libraryName));
            !plan.stuck && forall p :: p in plan.probes ==> p !in fs.files
  {
  }

  /** System directories that are not directories contribute no candidate and cannot stop the search. */
  lemma {:induction false} SystemSkipsNonDirectories(os: Os, fs: FileSystem, dirs: seq<string>, file: string)
    requires forall d :: d in dirs ==> d !in fs.dirs
    ensures SystemPlan(os, fs, dirs, file) == Plan([], false)
    decreases |dirs|
  {
    if dirs != [] {
      var init := dirs[..|dirs| - 1];
      assert forall d :: d in init ==> d in dirs;
      SystemSkipsNonDirectories(os, fs, init, file);
    }
  }

  /** Default roots that are not directories contribute no candidate. */
  lemma {:induction false} DefaultsSkipNonDirectories(os: Os, fs: FileSystem, dirs: seq<string>, file: string)
    requires forall d :: d in dirs ==> d !in fs.dirs
    ensures DefaultProbes(os, fs, dirs, file) == []
    decreases |dirs|
  {
    if dirs != [] {
      var init := dirs[..|dirs| - 1];
      assert forall d :: d in init ==> d in dirs;
      DefaultsSkipNonDirectories(os, fs, init, file);
    }
  }

  /**
   * With none of the four variables set and none of the fixed directories present, there
   * is no candidate at all and `find` returns `None`.
   */
  lemma NothingToSearch(os: Os, env: Env, fs: FileSystem, libraryName: string)
    requires ENV_OPENVINO_BUILD_DIR !in env && ENV_OPENVINO_INSTALL_DIR !in env
    requires ENV_INTEL_OPENVINO_DIR !in env && os.LibraryPathVar() !in env
    requires forall d :: d in os.SystemDirs() ==> d !in fs.dirs
    requires forall d :: d in os.DefaultDirs() ==> d !in fs.dirs
    ensures SearchPlan(os, env, fs, FileName(os, libraryName)) == Plan([], false)
    ensures FindResult(os, env, fs, libraryName) == Done(None)
  {
    var file := FileName(os, libraryName);
    SystemSkipsNonDirectories(os, fs, os.SystemDirs(), file);
    DefaultsSkipNonDirectories(os, fs, os.DefaultDirs(), file);
  }

  /**
   * Priority between the environment and the default roots: when no build directory is
   * set and a candidate under `OPENVINO_INSTALL_DIR` is a file, that candidate wins over
   * every later source.
   */
  lemma InstallDirWins(os: Os, env: Env, fs: FileSystem, libraryName: string)
    requires ENV_OPENVINO_BUILD_DIR !in env
    requires FirstFile(EnvProbes(os, env, ENV_OPENVINO_INSTALL_DIR, KNOWN_INSTALLATION_SUBDIRECTORIES, FileName(os, libraryName)), fs.files).Some?
    ensures FindResult(os, env, fs, libraryName)
            == Done(FirstFile(EnvProbes(os, env, ENV_OPENVINO_INSTALL_DIR, KNOWN_INSTALLATION_SUBDIRECTORIES, FileName(os, libraryName)), fs.files))
  {
    FindOrder(os, env, fs, libraryName);
  }

  // ---------------------------------------------------------------------------
  // `find`
  // ---------------------------------------------------------------------------

  /** Probes the subdirectories of one root in table order; the first file among them. */
  method ProbeDirectory(os: Os, fs: FileSystem, dir: string, subdirs: seq<string>, file: string) returns (hit: Option<string>)
    ensures hit == FirstFile(Probes(os, dir, subdirs, file), fs.files)
  {
    ghost var seg := Probes(os, dir, subdirs, file);
    for i := 0 to |subdirs|
      invariant NoFile(seg[..i], fs.files)
    {
      var searchPath := os.Join(os.Join(dir, subdirs[i]), file);
      assert seg[..i + 1] == seg[..i] + [searchPath];
      if searchPath in fs.files {
        FirstHit(seg[..i], searchPath, seg, fs.files);
        return Some(searchPath);
      }
    }
    assert seg[..|subdirs|] == seg;
    return None;
  }

  /** Probes the file name in every entry of the library path, in order; the first file among them. */
  method ProbeLibraryPath(os: Os, env: Env, fs: FileSystem, file: string) returns (hit: Option<string>)
    ensures hit == FirstFile(LibraryPathProbes(os, env, file), fs.files)
  {
    if os.LibraryPathVar() !in env {
      return None;
    }
    var entries := os.SplitPaths(env[os.LibraryPathVar()]);
    ghost var seg := EntryProbes(os, entries, file);
    for i := 0 to |entries|
      invariant NoFile(seg[..i], fs.files)
    {
      var searchPath := os.Join(entries[i], file);
      assert seg[..i + 1] == seg[..i] + [searchPath];
      if searchPath in fs.files {
        FirstHit(seg[..i], searchPath, seg, fs.files);
        return Some(searchPath);
      }
    }
    assert seg[..|entries|] == seg;
    return None;
  }

  /** What probing a plan yields: its first file, else a panic if it is stuck, else nothing. */
  function PlanResult(plan: Plan, files: set<string>): Outcome<Option<string>> {
    match FirstFile(plan.probes, files)
    case Some(p) => Done(Some(p))
    case None => if plan.stuck then Panic(LIST_PANIC) else Done(None)
  }

  /** One system directory: the exact name, the listing (which must succeed), the latest versioned name. */
  method ProbeSystemDirectory(os: Os, fs: FileSystem, dir: string, file: string) returns (r: Outcome<Option<string>>)
    ensures r == PlanResult(SystemStep(os, fs, dir, file), fs.files)
  {
    if dir !in fs.dirs {
      return Done(None);
    }
    var searchPath := os.Join(dir, file);
    if searchPath in fs.files {
      return Done(Some(searchPath));
    }
    if dir !in fs.listing {
      return Panic(LIST_PANIC);
    }
    var filenames := fs.listing[dir];
    var versions := GetSuffixes(filenames, file);
    var latest := BuildLatestVersion(os, dir, file, versions);
    if latest.Some? && latest.value in fs.files {
      return Done(Some(latest.value));
    }
    return Done(None);
  }

  /** A prefix that holds a file decides the first file of the whole list. */
  lemma FirstFilePrefix(a: seq<string>, b: seq<string>, files: set<string>)
    requires Prefix(a, b) && FirstFile(a, files).Some?
    ensures FirstFile(b, files) == FirstFile(a, files)
  {
    assert b == a + b[|a|..];
    FirstFileAppend(a, b[|a|..], files);
  }

  /** Probing concatenated candidates: the first list's file if it has one, else what the rest yields. */
  lemma PlanResultAppend(a: seq<string>, rest: Plan, files: set<string>)
    ensures PlanResult(Plan(a + rest.probes, rest.stuck), files)
            == if FirstFile(a, files).Some? then Done(FirstFile(a, files)) else PlanResult(rest, files)
  {
    FirstFileAppend(a, rest.probes, files);
  }

  /** The order of `find`: each source is consulted only when every earlier one yields nothing. */
  lemma FindOrder(os: Os, env: Env, fs: FileSystem, libraryName: string)
    ensures var file := FileName(os, libraryName);
            var h1 := FirstFile(EnvProbes(os, env, ENV_OPENVINO_BUILD_DIR, KNOWN_BUILD_SUBDIRECTORIES, file), fs.files);
            var h2 := FirstFile(EnvProbes(os, env, ENV_OPENVINO_INSTALL_DIR, KNOWN_INSTALLATION_SUBDIRECTORIES, file), fs.files);
            var h3 := FirstFile(EnvProbes(os, env, ENV_INTEL_OPENVINO_DIR, KNOWN_INSTALLATION_SUBDIRECTORIES, file), fs.files);
            var h4 := FirstFile(LibraryPathProbes(os, env, file), fs.files);
            var sys := PlanResult(SystemPlan(os, fs, os.SystemDirs(), file), fs.files);
            var defs := FirstFile(DefaultProbes(os, fs, os.DefaultDirs(), file), fs.files);
            FindResult(os, env, fs, libraryName)
            == if h1.Some? then Done(h1)
               else if h2.Some? then Done(h2)
               else if h3.Some? then Done(h3)
               else if h4.Some? then Done(h4)
               else if sys != Done(None) then sys
               else Done(defs)
  {
    var file := FileName(os, libraryName);
    Cascade(EnvProbes(os, env, ENV_OPENVINO_BUILD_DIR, KNOWN_BUILD_SUBDIRECTORIES, file),
            EnvProbes(os, env, ENV_OPENVINO_INSTALL_DIR, KNOWN_INSTALLATION_SUBDIRECTORIES, file),
            EnvProbes(os, env, ENV_INTEL_OPENVINO_DIR, KNOWN_INSTALLATION_SUBDIRECTORIES, file),
            LibraryPathProbes(os, env, file), AfterEnvironment(os, fs, file), fs.files);
    AfterEnvironmentResult(os, fs, file);
  }

  lemma Cascade(s1: seq<string>, s2: seq<string>, s3: seq<string>, s4: seq<string>, tail: Plan, files: set<string>)
    ensures PlanResult(Plan(s1 + (s2 + (s3 + (s4 + tail.probes))), tail.stuck), files)
            == if FirstFile(s1, files).Some? then Done(FirstFile(s1, files))
               else if FirstFile(s2, files).Some? then Done(FirstFile(s2, files))
               else if FirstFile(s3, files).Some? then Done(FirstFile(s3, files))
               else if FirstFile(s4, files).Some? then Done(FirstFile(s4, files))
               else PlanResult(tail, files)
  {
    PlanResultAppend(s1, Plan(s2 + (s3 + (s4 + tail.probes)), tail.stuck), files);
    PlanResultAppend(s2, Plan(s3 + (s4 + tail.probes), tail.stuck), files);
    PlanResultAppend(s3, Plan(s4 + tail.probes, tail.stuck), files);
    PlanResultAppend(s4, tail, files);
  }

  lemma AfterEnvironmentResult(os: Os, fs: FileSystem, file: string)
    ensures var sys := PlanResult(SystemPlan(os, fs, os.SystemDirs(), file), fs.files);
            PlanResult(AfterEnvironment(os, fs, file), fs.files)
            == if sys != Done(None) then sys else Done(FirstFile(DefaultProbes(os, fs, os.DefaultDirs(), file), fs.files))
  {
    var sys := SystemPlan(os, fs, os.SystemDirs(), file);
    if !sys.stuck {
      PlanResultAppend(sys.probes, Plan(DefaultProbes(os, fs, os.DefaultDirs(), file), false), fs.files);
    }
  }

  /** `find`: probe every candidate in order and return the first that is a file. */
  method Find(os: Os, env: Env, fs: FileSystem, libraryName: string) returns (r: Outcome<Option<string>>)
    ensures r == FindResult(os, env, fs, libraryName)
    ensures r.Done? && r.value.Some? ==> r.value.value in fs.files
  {
    var file := FileName(os, libraryName);
    FindOrder(os, env, fs, libraryName);
    if ENV_OPENVINO_BUILD_DIR in env {
      var hit := ProbeDirectory(os, fs, env[ENV_OPENVINO_BUILD_DIR], KNOWN_BUILD_SUBDIRECTORIES, file);
      if hit.Some? {
        return Done(hit);
      }
    }
    if ENV_OPENVINO_INSTALL_DIR in env {
      var hit := ProbeDirectory(os, fs, env[ENV_OPENVINO_INSTALL_DIR], KNOWN_INSTALLATION_SUBDIRECTORIES, file);
      if hit.Some? {
        return Done(hit);
      }
    }
    if ENV_INTEL_OPENVINO_DIR in env {
      var hit := ProbeDirectory(os, fs, env[ENV_INTEL_OPENVINO_DIR], KNOWN_INSTALLATION_SUBDIRECTORIES, file);
      if hit.Some? {
        return Done(hit);
      }
    }
    var hit := ProbeLibraryPath(os, env, fs, file);
    if hit.Some? {
      return Done(hit);
    }
    r := ProbeSystem(os, fs, os.SystemDirs(), file);
    if r != Done(None) {
      return;
    }
    hit := ProbeDefaults(os, fs, os.DefaultDirs(), file);
    return Done(hit);
  }

  /** Once a prefix of the system directories yields something, later directories do not matter. */
  lemma {:induction false} SystemResultPrefix(os: Os, fs: FileSystem, dirs: seq<string>, k: nat, file: string)
    requires k <= |dirs| && PlanResult(SystemPlan(os, fs, dirs[..k], file), fs.files) != Done(None)
    ensures PlanResult(SystemPlan(os, fs, dirs, file), fs.files) == PlanResult(SystemPlan(os, fs, dirs[..k], file), fs.files)
  {
    SystemPlanPrefix(os, fs, dirs, k, file);
    var p := SystemPlan(os, fs, dirs[..k], file);
    if !p.stuck {
      FirstFilePrefix(p.probes, SystemPlan(os, fs, dirs, file).probes, fs.files);
    }
  }

  /** The system directories of `find`, in order, each probed by `ProbeSystemDirectory`. */
  method ProbeSystem(os: Os, fs: FileSystem, dirs: seq<string>, file: string) returns (r: Outcome<Option<string>>)
    ensures r == PlanResult(SystemPlan(os, fs, dirs, file), fs.files)
  {
    for k := 0 to |dirs|
      invariant PlanResult(SystemPlan(os, fs, dirs[..k], file), fs.files) == Done(None)
    {
      ghost var before := SystemPlan(os, fs, dirs[..k], file);
      ghost var step := SystemStep(os, fs, dirs[k], file);
      assert dirs[..k + 1][..k] == dirs[..k];
      assert SystemPlan(os, fs, dirs[..k + 1], file) == Plan(before.probes + step.probes, step.stuck);
      PlanResultAppend(before.probes, step, fs.files);
      r := ProbeSystemDirectory(os, fs, dirs[k], file);
      if r != Done(None) {
        SystemResultPrefix(os, fs, dirs, k + 1, file);
        return;
      }
    }
    assert dirs[..|dirs|] == dirs;
    return Done(None);
  }

  /** The default roots of `find` that are directories, each with the installation subdirectories. */
  method ProbeDefaults(os: Os, fs: FileSystem, dirs: seq<string>, file: string) returns (hit: Option<string>)
    ensures hit == FirstFile(DefaultProbes(os, fs, dirs, file), fs.files)
  {
    for k := 0 to |dirs|
      invariant FirstFile(DefaultProbes(os, fs, dirs[..k], file), fs.files).None?
    {
      var defaultDir := dirs[k];
      assert dirs[..k + 1][..k] == dirs[..k];
      ghost var seg := if defaultDir in fs.dirs then Probes(os, defaultDir, KNOWN_INSTALLATION_SUBDIRECTORIES, file) else [];
      assert DefaultProbes(os, fs, dirs[..k + 1], file) == DefaultProbes(os, fs, dirs[..k], file) + seg;
      FirstFileAppend(DefaultProbes(os, fs, dirs[..k], file), seg, fs.files);
      if defaultDir in fs.dirs {
        hit := ProbeDirectory(os, fs, defaultDir, KNOWN_INSTALLATION_SUBDIRECTORIES, file);
        if hit.Some? {
          DefaultProbesPrefix(os, fs, dirs, k + 1, file);
          FirstFilePrefix(DefaultProbes(os, fs, dirs[..k + 1], file), DefaultProbes(os, fs, dirs, file), fs.files);
          return;
        }
      }
    }
    assert dirs[..|dirs|] == dirs;
    return None;
  }

  // ---------------------------------------------------------------------------
  // `find_plugins_xml`
  // ---------------------------------------------------------------------------

  const PLUGINS_XML: string := "plugins.xml"
  const VERSIONED_DIR_PREFIX: string := "openvino-"

  /**
   * What `find_plugins_xml` returns: the `OPENVINO_PLUGINS_XML` path unchecked; otherwise
   * `plugins.xml` beside the `openvino_c` library, else inside the latest
   * `openvino-<version>` directory beside it; `None` when any step fails.
   */
  function PluginsXmlResult(os: Os, env: Env, fs: FileSystem): Outcome<Option<string>> {
    if ENV_OPENVINO_PLUGINS_XML in env then Done(Some(env[ENV_OPENVINO_PLUGINS_XML]))
    else match FindResult(os, env, fs, "openvino_c")
      case Panic(m) => Panic(m)
      case Done(None) => Done(None)
      case Done(Some(library)) =>
        match os.Parent(library)
        case None => Done(None)
        case Some(parent) =>
          if os.Join(parent, PLUGINS_XML) in fs.files then Done(Some(os.Join(parent, PLUGINS_XML)))
          else if parent !in fs.listing then Done(None)
          else match BuildLatestVersion(os, parent, VERSIONED_DIR_PREFIX, GetSuffixes(fs.listing[parent], VERSIONED_DIR_PREFIX))
            case None => Done(None)
            case Some(dir) => if os.Join(dir, PLUGINS_XML) in fs.files then Done(Some(os.Join(dir, PLUGINS_XML))) else Done(None)
  }

  /** `find_plugins_xml`. */
  method FindPluginsXml(os: Os, env: Env, fs: FileSystem) returns (r: Outcome<Option<string>>)
    ensures r == PluginsXmlResult(os, env, fs)
  {
    if ENV_OPENVINO_PLUGINS_XML in env {
      return Done(Some(env[ENV_OPENVINO_PLUGINS_XML]));
    }
    var found := Find(os, env, fs, "openvino_c");
    if found.Panic? {
      return Panic(found.message);
    }
    if found.value.None? {
      return Done(None);
    }
    var parentDir := os.Parent(found.value.value);
    if parentDir.None? {
      return Done(None);
    }
    var libraryParentDir := parentDir.value;
    var besideLibrary := os.Join(libraryParentDir, PLUGINS_XML);
    if besideLibrary in fs.files {
      return Done(Some(besideLibrary));
    }
    if libraryParentDir !in fs.listing {
      return Done(None);
    }
    var filenames := fs.listing[libraryParentDir];
    var versions := GetSuffixes(filenames, VERSIONED_DIR_PREFIX);
    var latest := BuildLatestVersion(os, libraryParentDir, VERSIONED_DIR_PREFIX, versions);
    if latest.None? {
      return Done(None);
    }
    var path := os.Join(latest.value, PLUGINS_XML);
    if path in fs.files {
      return Done(Some(path));
    }
    return Done(None);
  }

  /**
   * Without the override, a `plugins.xml` that is found is a file, and it lies under the
   * directory that holds the `openvino_c` library.
   */
  lemma PluginsXmlBesideLibrary(os: Os, env: Env, fs: FileSystem)
    requires ENV_OPENVINO_PLUGINS_XML !in env
    ensures var r := PluginsXmlResult(os, env, fs);
            r.Done? && r.value.Some? ==>
              && r.value.value in fs.files
              && FindResult(os, env, fs, "openvino_c").Done?
              && FindResult(os, env, fs, "openvino_c").value.Some?
              && os.Parent(FindResult(os, env, fs, "openvino_c").value.value).Some?
              && StartsWith(r.value.value, os.Parent(FindResult(os, env, fs, "openvino_c").value.value).value)
  {
    var r := PluginsXmlResult(os, env, fs);
    if r.Done? && r.value.Some? {
      var parent := os.Parent(FindResult(os, env, fs, "openvino_c").value.value).value;
      JoinExtends(os, parent, PLUGINS_XML);
      if os.Join(parent, PLUGINS_XML) !in fs.files {
        var versions := GetSuffixes(fs.listing[parent], VERSIONED_DIR_PREFIX);
        var dir := BuildLatestVersion(os, parent, VERSIONED_DIR_PREFIX, versions).value;
        var v :| v in versions && dir == os.Join(parent, VERSIONED_DIR_PREFIX + v)
                 && forall w :: w in versions ==> LexLe(w, v);
        JoinExtends(os, parent, VERSIONED_DIR_PREFIX + v);
        JoinExtends(os, dir, PLUGINS_XML);
        StartsWithTransitive(os.Join(dir, PLUGINS_XML), dir, parent);
      }
    }
  }

  lemma StartsWithTransitive(a: string, b: string, c: string)
    requires StartsWith(a, b) && StartsWith(b, c)
    ensures StartsWith(a, c)
  {
    assert a[..|c|] == a[..|b|][..|c|];
  }

  /** Joining a relative name onto a directory extends it. */
  lemma JoinExtends(os: Os, dir: string, rel: string)
    requires rel == [] || !os.IsSeparator(rel[0])
    ensures StartsWith(os.Join(dir, rel), dir)
  {
    var j := os.Join(dir, rel);
    if dir == [] || os.IsSeparator(dir[|dir| - 1]) {
      assert j[..|dir|] == dir;
    } else {
      assert j[..|dir|] == dir;
    }
  }
}
