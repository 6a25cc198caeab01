/** The paths the daemon really uses (cmd/wad/profile.go and the file table of Plan), as
    an instance of Layout: for every choice of the three XDG homes and the socket
    directory none of whose directories bears a managed name, the table meets what the
    migration theorems assume. */
module Profile {
  import opened Text
  import opened Disk
  import opened Layout
  import Migration
  import Marker

  /** The nine migrated files, then the three pointer files. */
  const NAMES: seq<string> := [
    "session.db", "session.db-wal", "session.db-shm",
    "messages.db", "messages.db-wal", "messages.db-shm",
    "allowlist.toml", "audit.log", "wad.log",
    ".migrating", ".schema-version", "active-profile"]

  /** filepath.Join of a directory and one more component */
  function Join(dir: string, name: string): string { dir + "/" + name }

  /** filepath.Base */
  function Base(p: string): (b: string)
    ensures '/' !in b
  {
    if p == "" || p[|p| - 1] == '/' then "" else Base(p[..|p| - 1]) + [p[|p| - 1]]
  }

  lemma {:induction false} BaseOfJoin(dir: string, name: string)
    requires '/' !in name
    ensures Base(Join(dir, name)) == name
  {
    var p := Join(dir, name);
    if name == "" {
      assert p[|p| - 1] == '/';
    } else {
      var front := name[..|name| - 1];
      BaseOfJoin(dir, front);
      assert p[..|p| - 1] == Join(dir, front);
      assert name == front + [name[|name| - 1]];
    }
  }

  lemma {:induction false} DirOfJoin(dir: string, name: string)
    requires '/' !in name
    ensures Dir(Join(dir, name)) == dir
  {
    var p := Join(dir, name);
    if name == "" {
      assert p[..|p| - 1] == dir;
    } else {
      DirOfJoin(dir, name[..|name| - 1]);
      assert p[..|p| - 1] == Join(dir, name[..|name| - 1]);
      assert p[|p| - 1] == name[|name| - 1] != '/';
    }
  }

  lemma AncestorsOfJoin(dir: string, name: string, d: string)
    requires '/' !in name
    requires d in Ancestors(Join(dir, name))
    ensures d == Join(dir, name) || d in Ancestors(dir)
  {
    var p := Join(dir, name);
    if d != p {
      var k :| 0 < k < |p| && p[k] == '/' && d == p[..k];
      assert k <= |dir|;
      assert d == dir[..k];
      if k == |dir| {
        assert d == dir;
      }
    }
  }

  /** A directory none of whose ancestors, itself included, bears a managed name. */
  predicate Ordinary(names: seq<string>, dir: string) {
    && '\t' !in dir && '\n' !in dir
    && forall d <- Ancestors(dir) :: Base(d) !in names
  }

  lemma OrdinaryBelow(names: seq<string>, dir: string, name: string)
    requires Ordinary(names, dir)
    requires name !in names && forall c <- name :: c != '/' && c != '\t' && c != '\n'
    ensures Ordinary(names, Join(dir, name))
  {
    BaseOfJoin(dir, name);
    forall d | d in Ancestors(Join(dir, name))
      ensures Base(d) !in names
    {
      AncestorsOfJoin(dir, name, d);
    }
  }

  /** The home an entry of the table lives under, by its index. */
  function Home(data: string, config: string, state: string, i: nat): string {
    if i < 6 then data else if i == 6 then config else state
  }

  function SourceAt(data: string, config: string, state: string, i: nat): Source
    requires i < 9
  {
    var wa := Join(Home(data, config, state, i), "wa");
    Source(
      Join(wa, NAMES[i]), Join(Join(wa, DEFAULT_PROFILE), NAMES[i]),
      i == 0, i in {1, 2, 4, 5})
  }

  /** The layout for the three XDG homes and the socket directory. */
  function WaLayout(data: string, config: string, state: string, runtime: string): Layout {
    var wa := Join(config, "wa");
    Layout(
      seq(9, i requires 0 <= i < 9 => SourceAt(data, config, state, i)),
      Join(wa, NAMES[9]), Join(wa, NAMES[10]), Join(wa, NAMES[11]),
      Join(Join(data, "wa"), DEFAULT_PROFILE), Join(wa, DEFAULT_PROFILE), Join(Join(state, "wa"), DEFAULT_PROFILE),
      runtime)
  }

  /** Length, first and last character tell the names apart. */
  function Print(s: string): (nat, char, char)
    requires s != ""
  {
    (|s|, s[0], s[|s| - 1])
  }

  predicate Plain(s: string) { s != "" && forall c <- s :: c == '-' || c == '.' || 'a' <= c <= 'z' }

  lemma NamesPrinted()
    ensures forall n <- NAMES :: n != ""
    ensures Print(NAMES[0]) == (10, 's', 'b') && Print(NAMES[1]) == (14, 's', 'l') && Print(NAMES[2]) == (14, 's', 'm')
    ensures Print(NAMES[3]) == (11, 'm', 'b') && Print(NAMES[4]) == (15, 'm', 'l') && Print(NAMES[5]) == (15, 'm', 'm')
    ensures Print(NAMES[6]) == (14, 'a', 'l') && Print(NAMES[7]) == (9, 'a', 'g') && Print(NAMES[8]) == (7, 'w', 'g')
    ensures Print(NAMES[9]) == (10, '.', 'g') && Print(NAMES[10]) == (15, '.', 'n') && Print(NAMES[11]) == (14, 'a', 'e')
  {}

  lemma NamesDistinct(i: nat, j: nat)
    requires i < 12 && j < 12 && i != j
    ensures NAMES[i] != NAMES[j]
  {
    NamesPrinted();
  }

  lemma DatabasesPlain(i: nat)
    requires i < 6
    ensures Plain(NAMES[i])
  {}

  lemma OthersPlain(i: nat)
    requires 6 <= i < 12
    ensures Plain(NAMES[i])
  {}

  lemma DirectoriesAreNotNames()
    ensures "wa" !in NAMES && DEFAULT_PROFILE !in NAMES
  {
    NamesPrinted();
  }

  lemma NamePlain(i: nat)
    requires i < 12
    ensures NAMES[i] != "" && !IsSpace(NAMES[i][|NAMES[i]| - 1])
    ensures forall c <- NAMES[i] :: c != '/' && c != '\t' && c != '\n'
  {
    if i < 6 {
      DatabasesPlain(i);
    } else {
      OthersPlain(i);
    }
  }

  /** Three homes and a socket directory that no managed name gets in the way of. */
  predicate Homes(data: string, config: string, state: string, runtime: string) {
    Ordinary(NAMES, data) && Ordinary(NAMES, config) && Ordinary(NAMES, state) && Ordinary(NAMES, runtime)
  }

  /** A managed path: the i-th name under an ordinary directory. */
  predicate Leaf(names: seq<string>, p: string, i: nat) {
    i < |names| && Ordinary(names, Dir(p)) && Base(p) == names[i]
  }

  lemma LeafOf(names: seq<string>, dir: string, i: nat)
    requires i < |names| && '/' !in names[i] && Ordinary(names, dir)
    ensures Leaf(names, Join(dir, names[i]), i)
  {
    BaseOfJoin(dir, names[i]);
    DirOfJoin(dir, names[i]);
  }

  lemma WaOrdinary(home: string)
    requires Ordinary(NAMES, home)
    ensures Ordinary(NAMES, Join(home, "wa")) && Ordinary(NAMES, Join(Join(home, "wa"), DEFAULT_PROFILE))
  {
    DirectoriesAreNotNames();
    OrdinaryBelow(NAMES, home, "wa");
    OrdinaryBelow(NAMES, Join(home, "wa"), DEFAULT_PROFILE);
  }

  lemma SourceLeaves(data: string, config: string, state: string, i: nat)
    requires Ordinary(NAMES, data) && Ordinary(NAMES, config) && Ordinary(NAMES, state) && i < 9
    ensures var s := SourceAt(data, config, state, i);
            SourceLeaf(NAMES, s, i) && Marker.Clean(CopyOf(s))
  {
    var home := Home(data, config, state, i);
    WaOrdinary(home);
    NamePlain(i);
    LeafOf(NAMES, Join(home, "wa"), i);
    LeafOf(NAMES, Join(Join(home, "wa"), DEFAULT_PROFILE), i);
    var s := SourceAt(data, config, state, i);
    assert |s.src| < |s.dst|;
  }

  predicate SourceLeaf(names: seq<string>, s: Source, i: nat) {
    Leaf(names, s.src, i) && Leaf(names, s.dst, i) && s.src != s.dst
  }

  predicate AllDistinct(names: seq<string>) {
    forall i, j :: 0 <= i < j < |names| ==> names[i] != names[j]
  }

  /** The i-th managed path is the leaf of the i-th name. */
  ghost predicate Leaves(names: seq<string>, l: Layout) {
    && |names| == |l.sources| + 3 && AllDistinct(names)
    && (forall i: nat | i < |l.sources| :: SourceLeaf(names, l.sources[i], i))
    && Leaf(names, l.marker, |l.sources|)
    && Leaf(names, l.schemaFile, |l.sources| + 1)
    && Leaf(names, l.activeFile, |l.sources| + 2)
    && (forall d <- [l.dataDir, l.configDir, l.stateDir, l.runtimeDir] :: Ordinary(names, d))
  }

  lemma SourcesApart(names: seq<string>, l: Layout)
    requires Leaves(names, l)
    ensures forall i, j | 0 <= i < j < |l.sources| ::
              l.sources[i].src != l.sources[j].src && l.sources[i].dst != l.sources[j].dst
    ensures forall s, t | s in l.sources && t in l.sources :: s.src != t.dst
  {
    forall i: nat, j: nat | i < |l.sources| && j < |l.sources|
      ensures l.sources[i].src != l.sources[j].dst
      ensures i != j ==> l.sources[i].src != l.sources[j].src && l.sources[i].dst != l.sources[j].dst
    {
      assert SourceLeaf(names, l.sources[i], i) && SourceLeaf(names, l.sources[j], j);
      assert i < j ==> names[i] != names[j];
      assert j < i ==> names[j] != names[i];
    }
  }

  /** The index of a managed path among the names. */
  lemma ManagedLeaf(names: seq<string>, l: Layout, p: string) returns (i: nat)
    requires Leaves(names, l) && p in l.DataPaths()
    ensures i < |l.sources| && Leaf(names, p, i)
  {
    var s :| s in l.sources && (p == s.src || p == s.dst);
    i :| i < |l.sources| && s == l.sources[i];
    assert SourceLeaf(names, s, i);
  }

  lemma PointersApart(names: seq<string>, l: Layout)
    requires Leaves(names, l)
    ensures l.marker !in l.DataPaths() && l.schemaFile !in l.DataPaths() && l.activeFile !in l.DataPaths()
    ensures l.marker != l.schemaFile && l.marker != l.activeFile && l.schemaFile != l.activeFile
  {
    forall p | p in l.DataPaths()
      ensures p !in {l.marker, l.schemaFile, l.activeFile}
    {
      var i := ManagedLeaf(names, l, p);
      var n := |l.sources|;
      assert names[i] != names[n] && names[i] != names[n + 1] && names[i] != names[n + 2];
    }
  }

  lemma ManagedName(names: seq<string>, l: Layout, p: string)
    requires Leaves(names, l) && p in l.Managed()
    ensures Base(p) in names
  {
    if p in l.DataPaths() {
      var _ := ManagedLeaf(names, l, p);
    }
  }

  lemma DirectoryName(names: seq<string>, l: Layout, d: string)
    requires Leaves(names, l) && d in l.Dirs()
    ensures Base(d) !in names
  {
    if s :| s in l.sources && d in Ancestors(Dir(s.dst)) {
      var i: nat :| i < |l.sources| && s == l.sources[i];
      assert SourceLeaf(names, s, i);
    } else if r :| r in {l.dataDir, l.configDir, l.stateDir, l.runtimeDir} && d in Ancestors(r) {
      assert r in [l.dataDir, l.configDir, l.stateDir, l.runtimeDir];
    }
  }

  lemma LeavesValid(names: seq<string>, l: Layout)
    requires Leaves(names, l)
    requires l.sources != [] && l.sources[0].required && !l.sources[0].sidecar
    requires forall s | s in l.sources :: Marker.Clean(CopyOf(s))
    requires forall s | s in l.sources :: Dir(s.dst) in {l.dataDir, l.configDir, l.stateDir}
    ensures l.Valid()
  {
    SourcesApart(names, l);
    PointersApart(names, l);
    forall p | p in l.Managed()
      ensures p !in l.Dirs()
    {
      ManagedName(names, l, p);
      if p in l.Dirs() {
        DirectoryName(names, l, p);
      }
    }
  }

  lemma NamesAllDistinct()
    ensures AllDistinct(NAMES)
  {
    forall i, j | 0 <= i < j < |NAMES|
      ensures NAMES[i] != NAMES[j]
    {
      NamesDistinct(i, j);
    }
  }

  lemma WaDirs(data: string, config: string, state: string, runtime: string)
    requires Homes(data, config, state, runtime)
    ensures var l := WaLayout(data, config, state, runtime);
            forall d <- [l.dataDir, l.configDir, l.stateDir, l.runtimeDir] :: Ordinary(NAMES, d)
  {
    WaOrdinary(data);
    WaOrdinary(config);
    WaOrdinary(state);
  }

  lemma WaPointers(data: string, config: string, state: string, runtime: string)
    requires Homes(data, config, state, runtime)
    ensures var l := WaLayout(data, config, state, runtime);
            Leaf(NAMES, l.marker, 9) && Leaf(NAMES, l.schemaFile, 10) && Leaf(NAMES, l.activeFile, 11)
  {
    PointerLeaf(config, 9);
    PointerLeaf(config, 10);
    PointerLeaf(config, 11);
  }

  lemma PointerLeaf(config: string, i: nat)
    requires Ordinary(NAMES, config) && i < 12
    ensures Leaf(NAMES, Join(Join(config, "wa"), NAMES[i]), i)
  {
    WaOrdinary(config);
    NamePlain(i);
    LeafOf(NAMES, Join(config, "wa"), i);
  }

  lemma WaLeaves(data: string, config: string, state: string, runtime: string)
    requires Homes(data, config, state, runtime)
    ensures Leaves(NAMES, WaLayout(data, config, state, runtime))
  {
    NamesAllDistinct();
    WaSources(data, config, state, runtime);
    WaPointers(data, config, state, runtime);
    WaDirs(data, config, state, runtime);
  }

  lemma WaSources(data: string, config: string, state: string, runtime: string)
    requires Homes(data, config, state, runtime)
    ensures var l := WaLayout(data, config, state, runtime);
            forall i: nat | i < |l.sources| :: SourceLeaf(NAMES, l.sources[i], i) && Marker.Clean(CopyOf(l.sources[i]))
  {
    forall i: nat | i < 9
      ensures var s := SourceAt(data, config, state, i); SourceLeaf(NAMES, s, i) && Marker.Clean(CopyOf(s))
    {
      SourceLeaves(data, config, state, i);
    }
  }

  /** Every file goes into one of the profile's three directories. */
  lemma WaTargets(data: string, config: string, state: string, runtime: string)
    ensures var l := WaLayout(data, config, state, runtime);
            forall s | s in l.sources :: Dir(s.dst) in {l.dataDir, l.configDir, l.stateDir}
  {
    var l := WaLayout(data, config, state, runtime);
    forall s | s in l.sources
      ensures Dir(s.dst) in {l.dataDir, l.configDir, l.stateDir}
    {
      var i: nat :| i < |l.sources| && s == l.sources[i];
      NamePlain(i);
      DirOfJoin(Join(Join(Home(data, config, state, i), "wa"), DEFAULT_PROFILE), NAMES[i]);
    }
  }

  /** The real table meets every assumption the migration theorems make: no two
      managed files share a path, none lies where a directory goes, each goes into one
      of the profile's directories, and the marker can carry every move. Homes may
      coincide. */
  lemma WaLayoutValid(data: string, config: string, state: string, runtime: string)
    requires Homes(data, config, state, runtime)
    ensures WaLayout(data, config, state, runtime).Valid()
  {
    var l := WaLayout(data, config, state, runtime);
    WaLeaves(data, config, state, runtime);
    WaSources(data, config, state, runtime);
    WaTargets(data, config, state, runtime);
    LeavesValid(NAMES, l);
  }

  /** Where the files are and where they go. */
  lemma WaPaths(data: string, config: string, state: string, runtime: string, i: nat)
    requires i < 9
    ensures var l, wa := WaLayout(data, config, state, runtime), (if i < 6 then data else if i == 6 then config else state) + "/wa";
      var name := ["session.db", "session.db-wal", "session.db-shm", "messages.db", "messages.db-wal", "messages.db-shm",
                   "allowlist.toml", "audit.log", "wad.log"][i];
      l.sources[i].src == wa + "/" + name && l.sources[i].dst == wa + "/default" + "/" + name
    ensures var l, wa := WaLayout(data, config, state, runtime), config + "/wa";
      l.marker == wa + "/.migrating" && l.schemaFile == wa + "/.schema-version" && l.activeFile == wa + "/active-profile"
    ensures var l := WaLayout(data, config, state, runtime);
      l.dataDir == data + "/wa/default" && l.configDir == config + "/wa/default" && l.stateDir == state + "/wa/default"
  {
    HomeAndDefault(data);
    HomeAndDefault(config);
    HomeAndDefault(state);
    Associative(config + "/wa", "/", NAMES[9]);
    Associative(config + "/wa", "/", NAMES[10]);
    Associative(config + "/wa", "/", NAMES[11]);
    assert "/" + NAMES[9] == "/.migrating" && "/" + NAMES[10] == "/.schema-version" && "/" + NAMES[11] == "/active-profile";
  }

  lemma HomeAndDefault(home: string)
    ensures Join(home, "wa") == home + "/wa"
    ensures Join(Join(home, "wa"), DEFAULT_PROFILE) == home + "/wa/default" == home + "/wa" + "/default"
  {
    Associative(home, "/", "wa");
    assert "/" + "wa" == "/wa";
    Associative(home + "/wa", "/", DEFAULT_PROFILE);
    assert "/" + DEFAULT_PROFILE == "/default";
    Associative(home, "/wa", "/default");
    assert "/wa" + "/default" == "/wa/default";
  }

  lemma DatabaseName(dir: string, i: nat)
    requires i < 9
    ensures var p := Join(dir, NAMES[i]); p[|p| - 3..] == ".db" <==> i == 0 || i == 3
  {
    var p, n := Join(dir, NAMES[i]), NAMES[i];
    NamesPrinted();
    assert p[|p| - 1] == n[|n| - 1] && p[|p| - 2] == n[|n| - 2] && p[|p| - 3] == n[|n| - 3];
    if i == 0 || i == 3 {
      assert n[|n| - 3..] == ".db";
    } else if p[|p| - 3..] == ".db" {
      assert p[|p| - 1] == p[|p| - 3..][2] == 'b';
    }
  }

  /** What a checkpoint opens in the real table, and whose sidecars go with it. */
  lemma WaDatabases(data: string, config: string, state: string, runtime: string, i: nat)
    requires i < 9
    ensures var l := WaLayout(data, config, state, runtime);
      && (IsDatabase(l.sources[i]) <==> i == 0 || i == 3)
      && (i == 1 || i == 2 ==> IsSidecarOf(l.sources[i], l.sources[0]))
      && (i == 4 || i == 5 ==> IsSidecarOf(l.sources[i], l.sources[3]))
  {
    DatabaseName(Join(Home(data, config, state, i), "wa"), i);
    assert NAMES[1] == NAMES[0] + "-wal" && NAMES[2] == NAMES[0] + "-shm";
    assert NAMES[4] == NAMES[3] + "-wal" && NAMES[5] == NAMES[3] + "-shm";
  }

  /** session.db is the one file the real table requires, and a tree under the invariant
      has it. */
  lemma WaHasRequired(data: string, config: string, state: string, runtime: string, orig: Contents, fs: Fs)
    requires Inv(WaLayout(data, config, state, runtime), orig, fs)
    ensures Migration.HasRequired(WaLayout(data, config, state, runtime), orig)
  {
    var l := WaLayout(data, config, state, runtime);
    forall s <- l.sources | s.required
      ensures s.src in orig
    {
      var i: nat :| i < |l.sources| && s == l.sources[i];
      assert s == SourceAt(data, config, state, i) && i == 0;
    }
  }
}
