/** Discovery of modules: executables named `aw-*` bundled next to the
    supervisor, and executables named `aw-*` on the executable search path.
    The file system is an abstract tree; the walk keeps only the decision
    rules of the original. */
module Discovery {
  import opened Common
  import opened IniStore
  import opened Processes
  import opened Descriptor

  datatype Platform = Windows | Darwin | Linux

  /** What a path names: a regular file (with its X_OK permission), a
      directory (may it be listed, may it be entered), or anything else. */
  datatype Node = File(executable: bool) | Dir(readable: bool, searchable: bool, entries: seq<Entry>) | Other

  datatype Entry = Entry(name: string, node: Node)

  /** The host: its platform, the directories the supervisor can see, the
      supervisor's own directory, its parent, the macOS `MacOS` sibling, and
      the executable search path (`os.get_exec_path()`). */
  datatype Host = Host(platform: Platform, fs: map<string, Node>, moduleDir: string, parentDir: string,
                       macosDir: string, execPath: seq<string>)

  const Prefix := "aw-"
  const ExeSuffix := ".exe"

  /** `ignored_filenames`: companions that look like modules but are not. */
  const IgnoredFilenames: seq<string> := ["aw-cli", "aw-client", "aw-qt", "aw-qt.desktop", "aw-qt.spec"]

  function JoinPath(dir: string, name: string): string
  {
    dir + "/" + name
  }

  function NodeAt(h: Host, path: string): Node
  {
    if path in h.fs then h.fs[path] else Other
  }

  /** `is_executable`: never for a non-file; on Windows any name ending in
      `.exe`; elsewhere an X_OK file whose name does not end in `.desktop`. */
  function IsExecutable(platform: Platform, node: Node, filename: string): (r: bool)
    ensures !node.File? ==> !r
    ensures platform == Windows && node.File? ==> (r <==> EndsWith(filename, ExeSuffix))
    ensures platform != Windows ==> (r <==> node.File? && node.executable && !EndsWith(filename, ".desktop"))
  {
    if !node.File? then false
    else if platform == Windows then EndsWith(filename, ExeSuffix)
    else if !node.executable then false
    else if EndsWith(filename, ".desktop") then false
    else true
  }

  // ---------------------------------------------------------------------
  // _filename_to_name

  /** Python's `s.replace(pat, "")`: scans left to right and drops every
      non-overlapping occurrence of `pat`. */
  function RemoveAll(s: string, pat: string): (r: string)
    requires |pat| > 0
    ensures |r| <= |s|
    decreases |s|
  {
    if |s| < |pat| then s
    else if s[..|pat|] == pat then RemoveAll(s[|pat|..], pat)
    else [s[0]] + RemoveAll(s[1..], pat)
  }

  /** `_filename_to_name`: every `.exe` is removed, not only a suffix. */
  function FilenameToName(filename: string): (r: string)
    ensures |r| <= |filename|
  {
    RemoveAll(filename, ExeSuffix)
  }

  predicate OccursAt(pat: string, s: string, i: nat)
  {
    i + |pat| <= |s| && s[i..i + |pat|] == pat
  }

  ghost predicate Occurs(pat: string, s: string)
  {
    exists i: nat :: OccursAt(pat, s, i)
  }

  /** An occurrence in the tail of `s` is an occurrence in `s`. */
  lemma NoOccurrenceInTail(s: string)
    requires |s| > 0 && !Occurs(ExeSuffix, s)
    ensures !Occurs(ExeSuffix, s[1..])
  {
    var t := s[1..];
    forall i: nat | OccursAt(ExeSuffix, t, i)
      ensures false
    {
      assert s[i + 1..i + 5] == t[i..i + 4];
      assert OccursAt(ExeSuffix, s, i + 1);
    }
  }

  /** A name without `.exe` in it is its own module name. */
  lemma {:induction false} FilenameWithoutExe(s: string)
    requires !Occurs(ExeSuffix, s)
    ensures FilenameToName(s) == s
    decreases |s|
  {
    if |s| >= 4 {
      assert !OccursAt(ExeSuffix, s, 0);
      assert s[..4] == s[0..4];
      NoOccurrenceInTail(s);
      FilenameWithoutExe(s[1..]);
    }
  }

  /** The Windows case: a trailing `.exe` is stripped from a name that has
      no other `.exe` in it. */
  lemma {:induction false} FilenameStripsExe(s: string)
    requires !Occurs(ExeSuffix, s)
    ensures FilenameToName(s + ExeSuffix) == s
    decreases |s|
  {
    var u := s + ExeSuffix;
    if s == [] {
      assert u[..4] == ExeSuffix;
      assert u[4..] == [];
    } else {
      assert u[..4] != ExeSuffix by {
        if |s| >= 4 {
          assert !OccursAt(ExeSuffix, s, 0);
          assert u[..4] == s[0..4];
        } else if |s| == 2 {
          assert u[..4][2] == '.' != ExeSuffix[2];
        } else {
          assert u[..4][3] != ExeSuffix[3];
        }
      }
      NoOccurrenceInTail(s);
      FilenameStripsExe(s[1..]);
      assert u[1..] == s[1..] + ExeSuffix;
    }
  }

  /** A first character that cannot start `.exe` is always kept. */
  lemma HeadKept(x: string)
    requires |x| > 0 && x[0] != '.'
    ensures FilenameToName(x) == [x[0]] + FilenameToName(x[1..])
  {
    if |x| >= 4 {
      assert x[..4][0] != ExeSuffix[0];
    }
  }

  /** A prefix without dots is copied unchanged: no `.exe` can start in it. */
  lemma {:induction false} DotFreePrefixKept(a: string, rest: string)
    requires forall i :: 0 <= i < |a| ==> a[i] != '.'
    ensures FilenameToName(a + rest) == a + FilenameToName(rest)
    decreases |a|
  {
    if a != [] {
      HeadKept(a + rest);
      assert (a + rest)[1..] == a[1..] + rest;
      DotFreePrefixKept(a[1..], rest);
      calc {
        FilenameToName(a + rest);
        [a[0]] + FilenameToName(a[1..] + rest);
        [a[0]] + (a[1..] + FilenameToName(rest));
        { assert [a[0]] + a[1..] == a; }
        a + FilenameToName(rest);
      }
    } else {
      assert a + rest == rest;
    }
  }

  /** Every `.exe` goes, not only a suffix: after a dot-free prefix, an inner
      `.exe` is dropped and the scan carries on (so "aw-a.exe-b.exe" names
      "aw-a-b"). */
  lemma {:induction false} InnerExeRemoved(a: string, b: string)
    requires forall i :: 0 <= i < |a| ==> a[i] != '.'
    ensures FilenameToName(a + ExeSuffix + b) == a + FilenameToName(b)
  {
    DotFreePrefixKept(a, ExeSuffix + b);
    assert (ExeSuffix + b)[..4] == ExeSuffix && (ExeSuffix + b)[4..] == b;
    assert a + ExeSuffix + b == a + (ExeSuffix + b);
  }

  /** Names of modules found under the `aw-` pattern keep the prefix. */
  lemma {:induction false} NameKeepsPrefix(s: string)
    requires StartsWith(s, Prefix)
    ensures StartsWith(FilenameToName(s), Prefix)
  {
    HeadKept(s);
    HeadKept(s[1..]);
    HeadKept(s[1..][1..]);
    assert s[1..][1..][1..] == s[3..];
  }

  // ---------------------------------------------------------------------
  // _discover_modules_in_directory (bundled modules)

  function GlobEntries(entries: seq<Entry>): (r: seq<Entry>)
    ensures forall e :: e in r ==> e in entries && StartsWith(e.name, Prefix)
    ensures forall e :: e in entries && StartsWith(e.name, Prefix) ==> e in r
  {
    if entries == [] then []
    else
      var last := entries[|entries| - 1];
      GlobEntries(entries[..|entries| - 1]) + (if StartsWith(last.name, Prefix) then [last] else [])
  }

  /** `glob(join(path, "aw-*"))`: the `aw-` entries of a listable directory,
      in listing order; nothing for anything else. */
  function Glob(node: Node): (r: seq<Entry>)
    ensures node.Dir? ==> forall e :: e in r ==> e in node.entries
    ensures !(node.Dir? && node.readable) ==> r == []
  {
    if node.Dir? && node.readable then GlobEntries(node.entries) else []
  }

  /** The bundled modules found under `dirPath`, in discovery order. */
  function InDirectory(platform: Platform, dirPath: string, node: Node): (r: seq<Descr>)
    decreases node, 2
    ensures forall d :: d in r ==> d.kind == Bundled && StartsWith(d.name, Prefix) && StartsWith(d.path, dirPath + "/")
  {
    var matches := Glob(node);
    if node.Dir? then ScanMatches(platform, dirPath, node, matches, |matches|) else []
  }

  /** The first `k` matches of the loop in `_discover_modules_in_directory`. */
  function ScanMatches(platform: Platform, dirPath: string, node: Node, matches: seq<Entry>, k: nat): (r: seq<Descr>)
    requires node.Dir? && k <= |matches|
    requires forall e :: e in matches ==> e in node.entries
    decreases node, 1, k
    ensures forall d :: d in r ==> d.kind == Bundled && StartsWith(d.name, Prefix) && StartsWith(d.path, dirPath + "/")
  {
    if k == 0 then []
    else
      var e := matches[k - 1];
      assert e in node.entries;
      ScanMatches(platform, dirPath, node, matches, k - 1) + EntryFound(platform, dirPath, e)
  }

  /** One match: an executable is a module, a directory that may be entered
      is searched, anything else is skipped. */
  function EntryFound(platform: Platform, dirPath: string, e: Entry): (r: seq<Descr>)
    decreases e.node, 3
    ensures forall d :: d in r ==> d.kind == Bundled && StartsWith(d.name, Prefix) && StartsWith(d.path, dirPath + "/")
  {
    var path := JoinPath(dirPath, e.name);
    JoinedUnder(dirPath, e.name);
    if IsExecutable(platform, e.node, e.name) && StartsWith(e.name, Prefix) then
      NameKeepsPrefix(e.name);
      [Descr(FilenameToName(e.name), path, Bundled)]
    else if e.node.Dir? && e.node.searchable then
      var r := InDirectory(platform, path, e.node);
      UnderSubdirectory(r, dirPath, e.name);
      r
    else []
  }

  /** A joined path lies under the directory, and so does anything under it. */
  lemma JoinedUnder(dir: string, name: string)
    ensures StartsWith(JoinPath(dir, name), dir + "/")
    ensures JoinPath(dir, name) + "/" == (dir + "/") + (name + "/")
  {
    assert JoinPath(dir, name)[..|dir + "/"|] == dir + "/";
  }

  /** Descriptors under a subdirectory are under its parent. */
  lemma UnderSubdirectory(ds: seq<Descr>, dir: string, name: string)
    requires forall d :: d in ds ==> StartsWith(d.path, JoinPath(dir, name) + "/")
    ensures forall d :: d in ds ==> StartsWith(d.path, dir + "/")
  {
    JoinedUnder(dir, name);
    forall d | d in ds
      ensures StartsWith(d.path, dir + "/")
    {
      var p := dir + "/";
      assert d.path[..|p + (name + "/")|][..|p|] == p;
    }
  }

  function BundledSearchPaths(h: Host): (r: seq<string>)
    ensures h.platform == Darwin ==> r == [h.moduleDir, h.parentDir, h.macosDir]
    ensures h.platform != Darwin ==> r == [h.moduleDir, h.parentDir]
  {
    [h.moduleDir, h.parentDir] + if h.platform == Darwin then [h.macosDir] else []
  }

  /** What `_discover_modules_bundled` collects before filtering. */
  function BundledFound(h: Host, paths: seq<string>): (r: seq<Descr>)
    ensures forall d :: d in r ==> d.kind == Bundled && StartsWith(d.name, Prefix)
  {
    if paths == [] then []
    else
      var p := paths[|paths| - 1];
      BundledFound(h, paths[..|paths| - 1]) + InDirectory(h.platform, p, NodeAt(h, p))
  }

  // ---------------------------------------------------------------------
  // _discover_modules_system (modules on the executable search path)

  /** `list.remove(x)`: only the first occurrence goes; a later repeat of the
      same directory stays on the path. */
  function RemoveFirst(xs: seq<string>, x: string): (r: seq<string>)
    requires x in xs
    ensures r == xs[..IndexIn(xs, x)] + xs[IndexIn(xs, x) + 1..]
  {
    if xs[0] == x then xs[1..] else [xs[0]] + RemoveFirst(xs[1..], x)
  }

  /** The search path after dropping the supervisor's own parent directory. */
  function SearchPaths(h: Host): seq<string>
  {
    if h.parentDir in h.execPath then RemoveFirst(h.execPath, h.parentDir) else h.execPath
  }

  /** `[p for p in search_paths if os.path.isdir(p)]`. */
  function ExistingDirs(h: Host, paths: seq<string>): (r: seq<string>)
    ensures forall p :: p in r <==> p in paths && NodeAt(h, p).Dir?
  {
    if paths == [] then []
    else
      var p := paths[|paths| - 1];
      ExistingDirs(h, paths[..|paths| - 1]) + if NodeAt(h, p).Dir? then [p] else []
  }

  /** `os.listdir(path)`; a directory that may not be listed (PermissionError)
      contributes nothing. */
  function Listing(node: Node): (r: seq<Entry>)
    ensures !(node.Dir? && node.readable) ==> r == []
  {
    if node.Dir? && node.readable then node.entries else []
  }

  predicate IsCandidate(platform: Platform, e: Entry)
  {
    StartsWith(e.name, Prefix) && IsExecutable(platform, e.node, e.name)
  }

  /** The `aw-` executables of one listing, in listing order. */
  function MatchesIn(platform: Platform, dir: string, entries: seq<Entry>): (r: seq<Descr>)
    ensures forall d :: d in r ==> d.kind == System
  {
    if entries == [] then []
    else
      var e := entries[|entries| - 1];
      MatchesIn(platform, dir, entries[..|entries| - 1]) +
        if IsCandidate(platform, e) then [Descr(FilenameToName(e.name), JoinPath(dir, e.name), System)] else []
  }

  /** Every match on the path, directory by directory in path order. */
  function AllMatches(h: Host, dirs: seq<string>): seq<Descr>
  {
    if dirs == [] then []
    else
      var d := dirs[|dirs| - 1];
      AllMatches(h, dirs[..|dirs| - 1]) + MatchesIn(h.platform, d, Listing(NodeAt(h, d)))
  }

  function Names(ds: seq<Descr>): (r: seq<string>)
    ensures |r| == |ds| && forall i :: 0 <= i < |ds| ==> r[i] == ds[i].name
  {
    if ds == [] then [] else Names(ds[..|ds| - 1]) + [ds[|ds| - 1].name]
  }

  /** Keeps each name's first match only: "to respect PATH priority". */
  function Firsts(xs: seq<Descr>): (r: seq<Descr>)
    ensures forall d :: d in r ==> d in xs
  {
    if xs == [] then []
    else
      var prev := Firsts(xs[..|xs| - 1]);
      var x := xs[|xs| - 1];
      if x.name in Names(prev) then prev else prev + [x]
  }

  /** What `_discover_modules_system` collects before filtering. */
  function SystemFound(h: Host): (r: seq<Descr>)
    ensures forall d :: d in r ==> d.kind == System
    ensures forall i, j :: 0 <= i < j < |r| ==> r[i].name != r[j].name
  {
    var all := AllMatches(h, ExistingDirs(h, SearchPaths(h)));
    AllMatchesSystem(h, ExistingDirs(h, SearchPaths(h)));
    FirstsAreEarliest(all);
    Firsts(all)
  }

  /** The first match carrying `name`, scanning from the front. */
  function FirstNamed(xs: seq<Descr>, name: string): Option<Descr>
  {
    if xs == [] then None else if xs[0].name == name then Some(xs[0]) else FirstNamed(xs[1..], name)
  }

  lemma {:induction false} FirstNamedSnoc(xs: seq<Descr>, x: Descr, name: string)
    ensures FirstNamed(xs + [x], name) ==
      if FirstNamed(xs, name).Some? then FirstNamed(xs, name) else if x.name == name then Some(x) else None
  {
    if xs != [] {
      assert (xs + [x])[1..] == xs[1..] + [x];
      FirstNamedSnoc(xs[1..], x, name);
    }
  }

  lemma {:induction false} FirstNamedFound(xs: seq<Descr>, name: string)
    ensures FirstNamed(xs, name).Some? <==> name in Names(xs)
    ensures FirstNamed(xs, name).Some? ==> FirstNamed(xs, name).value.name == name
  {
    if xs != [] {
      FirstNamedFound(xs[1..], name);
      assert Names(xs) == [xs[0].name] + Names(xs[1..]);
    }
  }

  /** System discovery keeps one module per name, and it is the first match
      for that name in path order: no two results share a name, each result
      is the earliest match of its name, and every matched name has a result. */
  lemma {:induction false} FirstsAreEarliest(xs: seq<Descr>)
    ensures forall i, j :: 0 <= i < j < |Firsts(xs)| ==> Firsts(xs)[i].name != Firsts(xs)[j].name
    ensures forall d :: d in Firsts(xs) ==> FirstNamed(xs, d.name) == Some(d)
    ensures forall x :: x in xs ==> x.name in Names(Firsts(xs))
  {
    if xs != [] {
      var init, x := xs[..|xs| - 1], xs[|xs| - 1];
      assert xs == init + [x];
      FirstsAreEarliest(init);
      var prev := Firsts(init);
      forall d | d in Firsts(xs)
        ensures FirstNamed(xs, d.name) == Some(d)
      {
        FirstNamedSnoc(init, x, d.name);
        if d in prev {
        } else {
          assert d == x;
          FirstNamedFound(init, x.name);
          assert x.name !in Names(prev);
        }
      }
      forall y | y in xs
        ensures y.name in Names(Firsts(xs))
      {
        if y != x {
          assert y in init;
        }
        if x.name !in Names(prev) {
          assert Names(Firsts(xs)) == Names(prev) + [x.name];
        }
      }
    }
  }

  lemma {:induction false} AllMatchesSystem(h: Host, dirs: seq<string>)
    ensures forall d :: d in AllMatches(h, dirs) ==> d.kind == System
    decreases |dirs|
  {
    if dirs != [] {
      AllMatchesSystem(h, dirs[..|dirs| - 1]);
    }
  }

  /** Everything system discovery finds is of kind "system". */
  // ---------------------------------------------------------------------
  // The discovery routines, building Module objects.

  /** `filter_modules`: drops the modules whose name is ignored. */
  function FilterModules(ms: set<Module>): (r: set<Module>)
    ensures forall m :: m in r ==> m in ms && m.name !in IgnoredFilenames
    ensures forall m :: m in ms && m.name !in IgnoredFilenames ==> m in r
  {
    set m | m in ms && m.name !in IgnoredFilenames
  }

  /** Modules that share the one `store` and `os`. */
  ghost predicate Attached(ms: seq<Module>, store: ProcessIni, os: Os)
  {
    forall m :: m in ms ==> m.store == store && m.os == os
  }

  /** Modules as the constructor leaves them: attached and not started. */
  ghost predicate Blank(ms: seq<Module>, store: ProcessIni, os: Os)
    reads set m | m in ms
  {
    Attached(ms, store, os) && forall m :: m in ms ==> !m.started
  }

  lemma BlankAppend(a: seq<Module>, b: seq<Module>, store: ProcessIni, os: Os)
    requires Blank(a, store, os) && Blank(b, store, os)
    ensures Blank(a + b, store, os)
  {
  }

  /** No two modules carry the same name. */
  predicate UniqueNames(ms: seq<Module>)
  {
    forall i, j :: 0 <= i < |ms| && 0 <= j < |ms| && i != j ==> ms[i].name != ms[j].name
  }

  lemma UniqueNamesSubset(all: seq<Module>, ms: seq<Module>)
    requires forall i, j :: 0 <= i < j < |Describe(all)| ==> Describe(all)[i].name != Describe(all)[j].name
    requires Distinct(ms) && forall m :: m in ms ==> m in all
    ensures UniqueNames(ms)
  {
    forall i, j | 0 <= i < |ms| && 0 <= j < |ms| && i != j
      ensures ms[i].name != ms[j].name
    {
      var p, q := IndexIn(all, ms[i]), IndexIn(all, ms[j]);
      assert p != q;
      if p < q {
        assert Describe(all)[p].name != Describe(all)[q].name;
      } else {
        assert Describe(all)[q].name != Describe(all)[p].name;
      }
    }
  }

  /** The store has at most been initialised (all modules share one file). */
  ghost predicate StoreInitOnly(before: IniFile, after: IniFile)
  {
    after == before || after == Initialized(before)
  }

  lemma StoreInitOnlyTrans(a: IniFile, b: IniFile, c: IniFile)
    requires StoreInitOnly(a, b) && StoreInitOnly(b, c)
    ensures StoreInitOnly(a, c)
  {
  }

  lemma MatchesInStep(platform: Platform, dir: string, ls: seq<Entry>, j: nat)
    requires j < |ls|
    ensures MatchesIn(platform, dir, ls[..j + 1]) == MatchesIn(platform, dir, ls[..j]) + MatchesIn(platform, dir, [ls[j]])
  {
    assert ls[..j + 1][..j] == ls[..j];
    assert [ls[j]][..0] == [];
  }

  lemma FirstsStep(xs: seq<Descr>, x: Descr)
    ensures Firsts(xs + [x]) == if x.name in Names(Firsts(xs)) then Firsts(xs) else Firsts(xs) + [x]
  {
    assert (xs + [x])[..|xs|] == xs;
  }

  lemma AllMatchesStep(h: Host, dirs: seq<string>, i: nat)
    requires i < |dirs|
    ensures AllMatches(h, dirs[..i + 1]) == AllMatches(h, dirs[..i]) + MatchesIn(h.platform, dirs[i], Listing(NodeAt(h, dirs[i])))
  {
    assert dirs[..i + 1][..i] == dirs[..i];
  }

  lemma BundledFoundStep(h: Host, paths: seq<string>, i: nat)
    requires i < |paths|
    ensures BundledFound(h, paths[..i + 1]) == BundledFound(h, paths[..i]) + InDirectory(h.platform, paths[i], NodeAt(h, paths[i]))
  {
    assert paths[..i + 1][..i] == paths[..i];
  }

  /** `_discover_modules_in_directory`: every `aw-` executable under the
      directory becomes a bundled module; `aw-` subdirectories that may be
      entered are searched in place; anything else is skipped. */
  method DiscoverInDirectory(platform: Platform, dirPath: string, node: Node, store: ProcessIni, os: Os)
    returns (modules: seq<Module>)
    modifies store
    decreases node, 2
    ensures Describe(modules) == InDirectory(platform, dirPath, node)
    ensures forall m :: m in modules ==> fresh(m)
    ensures Blank(modules, store, os) && Distinct(modules)
    ensures StoreInitOnly(old(store.File()), store.File())
  {
    modules := [];
    if !node.Dir? {
      return;
    }
    var matches := Glob(node);
    for i := 0 to |matches|
      invariant Describe(modules) == ScanMatches(platform, dirPath, node, matches, i)
      invariant forall m :: m in modules ==> fresh(m)
      invariant Blank(modules, store, os) && Distinct(modules)
      invariant StoreInitOnly(old(store.File()), store.File())
    {
      modules := ScanMatch(platform, dirPath, node, matches, i, modules, store, os);
    }
  }

  /** One pass of the loop in `_discover_modules_in_directory`: the modules
      of match `i` are appended. */
  method ScanMatch(platform: Platform, dirPath: string, node: Node, matches: seq<Entry>, i: nat,
                   modules: seq<Module>, store: ProcessIni, os: Os)
    returns (modules': seq<Module>)
    modifies store
    requires node.Dir? && i < |matches| && matches == Glob(node)
    requires Describe(modules) == ScanMatches(platform, dirPath, node, matches, i)
    requires Blank(modules, store, os) && Distinct(modules)
    decreases node, 1
    ensures Describe(modules') == ScanMatches(platform, dirPath, node, matches, i + 1)
    ensures forall m :: m in modules' ==> m in modules || fresh(m)
    ensures Blank(modules', store, os) && Distinct(modules')
    ensures StoreInitOnly(old(store.File()), store.File())
  {
    assert matches[i] in node.entries;
    var more := DiscoverEntry(platform, dirPath, matches[i], store, os);
    DescribeAppend(modules, more);
    DistinctAppend(modules, more);
    BlankAppend(modules, more, store, os);
    modules' := modules + more;
  }

  /** The body of the loop in `_discover_modules_in_directory`, for one
      match. */
  method DiscoverEntry(platform: Platform, dirPath: string, e: Entry, store: ProcessIni, os: Os)
    returns (modules: seq<Module>)
    modifies store
    decreases e.node, 3
    ensures Describe(modules) == EntryFound(platform, dirPath, e)
    ensures forall m :: m in modules ==> fresh(m)
    ensures Blank(modules, store, os) && Distinct(modules)
    ensures StoreInitOnly(old(store.File()), store.File())
  {
    var path := JoinPath(dirPath, e.name);
    if IsExecutable(platform, e.node, e.name) && StartsWith(e.name, Prefix) {
      var m := new Module(FilenameToName(e.name), path, Bundled, store, os);
      modules := [m];
    } else if e.node.Dir? && e.node.searchable {
      modules := DiscoverInDirectory(platform, path, e.node, store, os);
    } else {
      modules := [];
    }
  }

  /** `_discover_modules_bundled`: search the supervisor's directory, its
      parent and, on macOS, the `MacOS` directory; then filter, which leaves
      the list in an unspecified order. `found` is the list before filtering. */
  method DiscoverBundled(h: Host, store: ProcessIni, os: Os) returns (modules: seq<Module>, ghost found: seq<Module>)
    modifies store
    ensures Describe(found) == BundledFound(h, BundledSearchPaths(h))
    ensures forall m :: m in modules <==> m in found && m.name !in IgnoredFilenames
    ensures Distinct(modules)
    ensures forall m :: m in found ==> fresh(m)
    ensures Blank(found, store, os)
    ensures StoreInitOnly(old(store.File()), store.File())
  {
    var paths := BundledSearchPaths(h);
    var all: seq<Module> := [];
    for i := 0 to |paths|
      invariant Describe(all) == BundledFound(h, paths[..i])
      invariant forall m :: m in all ==> fresh(m)
      invariant Blank(all, store, os)
      invariant StoreInitOnly(old(store.File()), store.File())
    {
      all := SearchBundled(h, paths, i, all, store, os);
    }
    assert paths[..|paths|] == paths;
    found := all;
    modules := SetToSeq(FilterModules(set m | m in all));
  }

  /** One pass of the loop in `_discover_modules_bundled`: the modules of
      search path `i` are appended. */
  method SearchBundled(h: Host, paths: seq<string>, i: nat, all: seq<Module>, store: ProcessIni, os: Os)
    returns (all': seq<Module>)
    modifies store
    requires i < |paths| && Describe(all) == BundledFound(h, paths[..i]) && Blank(all, store, os)
    ensures Describe(all') == BundledFound(h, paths[..i + 1])
    ensures forall m :: m in all' ==> m in all || fresh(m)
    ensures Blank(all', store, os)
    ensures StoreInitOnly(old(store.File()), store.File())
  {
    var more := DiscoverInDirectory(h.platform, paths[i], NodeAt(h, paths[i]), store, os);
    DescribeAppend(all, more);
    BundledFoundStep(h, paths, i);
    BlankAppend(all, more, store, os);
    all' := all + more;
  }

  /** The descriptor a system candidate gives. */
  function SystemDescr(dir: string, e: Entry): Descr
  {
    Descr(FilenameToName(e.name), JoinPath(dir, e.name), System)
  }

  /** One more listing entry: it is kept when it is a candidate whose name is
      new. */
  lemma FirstsOfEntry(platform: Platform, dir: string, e: Entry, xs: seq<Descr>)
    ensures Firsts(xs + MatchesIn(platform, dir, [e])) ==
      if IsCandidate(platform, e) && SystemDescr(dir, e).name !in Names(Firsts(xs)) then Firsts(xs) + [SystemDescr(dir, e)]
      else Firsts(xs)
  {
    assert [e][..0] == [];
    if IsCandidate(platform, e) {
      assert MatchesIn(platform, dir, [e]) == [SystemDescr(dir, e)];
      FirstsStep(xs, SystemDescr(dir, e));
    } else {
      assert xs + [] == xs;
    }
  }

  /** One entry of a listing in `_discover_modules_system`: an `aw-`
      executable becomes a system module unless a module of that name was
      already found. */
  method ScanEntry(platform: Platform, dir: string, e: Entry, all: seq<Module>, store: ProcessIni, os: Os)
    returns (all': seq<Module>)
    modifies store
    requires Blank(all, store, os) && Distinct(all)
    ensures Describe(all') ==
      if IsCandidate(platform, e) && SystemDescr(dir, e).name !in Names(Describe(all)) then Describe(all) + [SystemDescr(dir, e)]
      else Describe(all)
    ensures forall m :: m in all' ==> m in all || fresh(m)
    ensures Blank(all', store, os) && Distinct(all')
    ensures StoreInitOnly(old(store.File()), store.File())
  {
    all' := all;
    if !StartsWith(e.name, Prefix) || !IsExecutable(platform, e.node, e.name) {
      return;
    }
    var name := FilenameToName(e.name);
    if name !in Names(Describe(all)) {
      var m := new Module(name, JoinPath(dir, e.name), System, store, os);
      DescribeAppend(all, [m]);
      DistinctAppend(all, [m]);
      all' := all + [m];
    }
  }

  /** One more entry of a listing, as `FirstsOfEntry` on the prefix. */
  lemma FirstsOfListingStep(platform: Platform, dir: string, ls: seq<Entry>, j: nat, before: seq<Descr>)
    requires j < |ls|
    ensures Firsts(before + MatchesIn(platform, dir, ls[..j + 1])) ==
      var xs := Firsts(before + MatchesIn(platform, dir, ls[..j]));
      if IsCandidate(platform, ls[j]) && SystemDescr(dir, ls[j]).name !in Names(xs) then xs + [SystemDescr(dir, ls[j])]
      else xs
  {
    var done, next := MatchesIn(platform, dir, ls[..j]), MatchesIn(platform, dir, [ls[j]]);
    MatchesInStep(platform, dir, ls, j);
    AppendAssoc(before, done, next);
    FirstsOfEntry(platform, dir, ls[j], before + done);
  }

  /** The inner loop of `_discover_modules_system` over one directory
      listing. */
  method ScanListing(platform: Platform, dir: string, ls: seq<Entry>, ghost before: seq<Descr>,
                     all: seq<Module>, store: ProcessIni, os: Os)
    returns (all': seq<Module>)
    modifies store
    requires Describe(all) == Firsts(before)
    requires Blank(all, store, os) && Distinct(all)
    ensures Describe(all') == Firsts(before + MatchesIn(platform, dir, ls))
    ensures forall m :: m in all' ==> m in all || fresh(m)
    ensures Blank(all', store, os) && Distinct(all')
    ensures StoreInitOnly(old(store.File()), store.File())
  {
    all' := all;
    assert ls[..0] == [] && before + [] == before;
    for j := 0 to |ls|
      invariant Describe(all') == Firsts(before + MatchesIn(platform, dir, ls[..j]))
      invariant forall m :: m in all' ==> m in all || fresh(m)
      invariant Blank(all', store, os) && Distinct(all')
      invariant StoreInitOnly(old(store.File()), store.File())
    {
      FirstsOfListingStep(platform, dir, ls, j, before);
      all' := ScanEntry(platform, dir, ls[j], all', store, os);
    }
    assert ls[..|ls|] == ls;
  }

  /** One pass of the outer loop of `_discover_modules_system`, over search
      path `i`. */
  method SearchSystem(h: Host, paths: seq<string>, i: nat, all: seq<Module>, store: ProcessIni, os: Os)
    returns (all': seq<Module>)
    modifies store
    requires i < |paths| && Describe(all) == Firsts(AllMatches(h, paths[..i]))
    requires Blank(all, store, os) && Distinct(all)
    ensures Describe(all') == Firsts(AllMatches(h, paths[..i + 1]))
    ensures forall m :: m in all' ==> m in all || fresh(m)
    ensures Blank(all', store, os) && Distinct(all')
    ensures StoreInitOnly(old(store.File()), store.File())
  {
    var dir := paths[i];
    var node := NodeAt(h, dir);
    AllMatchesStep(h, paths, i);
    // A directory that may not be listed raises PermissionError: skipped.
    var ls := if node.Dir? && node.readable then node.entries else [];
    all' := ScanListing(h.platform, dir, ls, AllMatches(h, paths[..i]), all, store, os);
  }

  /** `_discover_modules_system`: list every existing directory of the
      search path except the supervisor's parent, skipping those that may not
      be listed, and keep the first `aw-` executable of each name; then
      filter, which leaves the list in an unspecified order. */
  method DiscoverSystem(h: Host, store: ProcessIni, os: Os) returns (modules: seq<Module>, ghost found: seq<Module>)
    modifies store
    ensures Describe(found) == SystemFound(h)
    ensures forall m :: m in modules <==> m in found && m.name !in IgnoredFilenames
    ensures Distinct(modules)
    ensures UniqueNames(modules)
    ensures forall m :: m in found ==> fresh(m)
    ensures Blank(found, store, os)
    ensures StoreInitOnly(old(store.File()), store.File())
  {
    var searchPaths := h.execPath;
    if h.parentDir in searchPaths {
      searchPaths := RemoveFirst(searchPaths, h.parentDir);
    }
    var paths := ExistingDirs(h, searchPaths);
    var all: seq<Module> := [];
    for i := 0 to |paths|
      invariant Describe(all) == Firsts(AllMatches(h, paths[..i]))
      invariant forall m :: m in all ==> fresh(m)
      invariant Blank(all, store, os) && Distinct(all)
      invariant StoreInitOnly(old(store.File()), store.File())
    {
      all := SearchSystem(h, paths, i, all, store, os);
    }
    assert paths[..|paths|] == paths;
    found := all;
    FirstsAreEarliest(AllMatches(h, paths));
    modules := SetToSeq(FilterModules(set m | m in all));
    UniqueNamesSubset(all, modules);
  }

  /** The first half of `discover_modules`: the bundled and the system
      modules as one set, filtered. `bundled` and `system` are the lists the
      two searches collected before their own filtering. */
  method DiscoverAll(h: Host, store: ProcessIni, os: Os)
    returns (found: set<Module>, ghost bundled: seq<Module>, ghost system: seq<Module>)
    modifies store
    ensures Describe(bundled) == BundledFound(h, BundledSearchPaths(h))
    ensures Describe(system) == SystemFound(h)
    ensures forall m :: m in found <==> (m in bundled || m in system) && m.name !in IgnoredFilenames
    ensures forall m :: m in found ==> fresh(m) && !m.started && m.store == store && m.os == os
    ensures StoreInitOnly(old(store.File()), store.File())
  {
    var b, s;
    ghost var file0 := store.File();
    b, bundled := DiscoverBundled(h, store, os);
    ghost var file1 := store.File();
    s, system := DiscoverSystem(h, store, os);
    StoreInitOnlyTrans(file0, file1, store.File());
    found := FilterModules((set m | m in b) + (set m | m in s));
    assert Blank(bundled, store, os) && Blank(system, store, os);
  }
}
