/** Where the migrated files live before and after the layout migration, and the
    invariant that ties the disk, the marker and the schema version together. */
module Layout {
  import opened Text
  import opened Disk
  import Marker

  const SCHEMA_VERSION := 2
  const DEFAULT_PROFILE := "default"

  /** One file that may need migrating; sidecars may vanish in a WAL checkpoint. */
  datatype Source = Source(src: string, dst: string, required: bool, sidecar: bool)

  /** The paths the migration works on, as the path resolver yields them. */
  datatype Layout = Layout(
    sources: seq<Source>,
    marker: string, schemaFile: string, activeFile: string,
    dataDir: string, configDir: string, stateDir: string, runtimeDir: string)
  {
    ghost function DataPaths(): set<string> {
      (set s | s in sources :: s.src) + (set s | s in sources :: s.dst)
    }

    ghost function Managed(): set<string> { DataPaths() + {marker, schemaFile, activeFile} }

    /** Every directory the migration can create. */
    ghost function Dirs(): set<string> {
      (set s, d | s in sources && d in Ancestors(Dir(s.dst)) :: d)
      + (set f, d | f in {marker, schemaFile, activeFile} && d in Ancestors(Dir(f)) :: d)
      + (set r, d | r in {dataDir, configDir, stateDir, runtimeDir} && d in Ancestors(r) :: d)
    }

    /** No two managed files share a path, no file is where a directory goes, every file
        goes into one of the profile's directories, and the marker format can carry every
        planned move. */
    ghost predicate Valid() {
      && sources != [] && sources[0].required && !sources[0].sidecar
      && (forall i, j :: 0 <= i < j < |sources| ==> sources[i].src != sources[j].src && sources[i].dst != sources[j].dst)
      && (forall s, t | s in sources && t in sources :: s.src != t.dst)
      && marker !in DataPaths() && schemaFile !in DataPaths() && activeFile !in DataPaths()
      && marker != schemaFile && marker != activeFile && schemaFile != activeFile
      && (forall p | p in Managed() :: p !in Dirs())
      && (forall s | s in sources :: Marker.Clean(CopyOf(s)))
      && (forall s | s in sources :: Dir(s.dst) in {dataDir, configDir, stateDir})
    }
  }

  function CopyOf(s: Source): Marker.Step { Marker.Step(Marker.COPY, s.src, s.dst) }

  /* ----- where a file is ----- */

  /** `orig` holds the contents, by 007 path, of the files being migrated. */
  type Contents = map<string, string>

  ghost predicate AtFrom(l: Layout, orig: Contents, fs: Fs, i: nat)
    requires i < |l.sources|
  {
    var s := l.sources[i];
    && s.dst !in fs.files
    && (s.src in fs.files <==> s.src in orig)
    && (s.src in orig ==> fs.files[s.src] == orig[s.src])
  }

  ghost predicate AtTo(l: Layout, orig: Contents, fs: Fs, i: nat)
    requires i < |l.sources|
  {
    var s := l.sources[i];
    && s.src !in fs.files
    && (s.dst in fs.files <==> s.src in orig)
    && (s.src in orig ==> fs.files[s.dst] == orig[s.src])
  }

  /** Every file is at exactly one of its two paths, with its own contents. */
  ghost predicate Placed(l: Layout, orig: Contents, fs: Fs) {
    forall i: nat | i < |l.sources| :: AtFrom(l, orig, fs, i) || AtTo(l, orig, fs, i)
  }

  ghost predicate AllAtFrom(l: Layout, orig: Contents, fs: Fs) {
    forall i: nat | i < |l.sources| :: AtFrom(l, orig, fs, i)
  }

  ghost predicate AllAtTo(l: Layout, orig: Contents, fs: Fs) {
    forall i: nat | i < |l.sources| :: AtTo(l, orig, fs, i)
  }

  ghost predicate AgreeOn(ps: set<string>, a: Fs, b: Fs) {
    forall p | p in ps :: (p in a.files <==> p in b.files) && (p in a.files ==> a.files[p] == b.files[p])
  }

  /** Nothing but the planned files differs. */
  ghost predicate SameElsewhere(l: Layout, a: Fs, b: Fs) {
    forall p | p !in l.DataPaths() :: (p in a.files <==> p in b.files) && (p in a.files ==> a.files[p] == b.files[p])
  }

  ghost predicate NoStrayDirs(l: Layout, fs: Fs) {
    forall p | p in l.Managed() :: p !in fs.dirs
  }

  lemma DataPath(l: Layout, i: nat)
    requires i < |l.sources|
    ensures l.sources[i].src in l.DataPaths() && l.sources[i].dst in l.DataPaths()
    ensures l.sources[i].src in l.Managed() && l.sources[i].dst in l.Managed()
  {
    assert l.sources[i] in l.sources;
  }

  lemma AtFrame(l: Layout, orig: Contents, a: Fs, b: Fs, i: nat)
    requires i < |l.sources| && AgreeOn(l.DataPaths(), a, b)
    ensures AtFrom(l, orig, a, i) <==> AtFrom(l, orig, b, i)
    ensures AtTo(l, orig, a, i) <==> AtTo(l, orig, b, i)
  {
    DataPath(l, i);
  }

  lemma PlacedFrame(l: Layout, orig: Contents, a: Fs, b: Fs)
    requires AgreeOn(l.DataPaths(), a, b)
    ensures Placed(l, orig, a) <==> Placed(l, orig, b)
    ensures AllAtFrom(l, orig, a) <==> AllAtFrom(l, orig, b)
    ensures AllAtTo(l, orig, a) <==> AllAtTo(l, orig, b)
  {
    forall i: nat | i < |l.sources|
      ensures AtFrom(l, orig, a, i) <==> AtFrom(l, orig, b, i)
      ensures AtTo(l, orig, a, i) <==> AtTo(l, orig, b, i)
    {
      AtFrame(l, orig, a, b, i);
    }
  }

  lemma Distinct(l: Layout, i: nat, j: nat)
    requires l.Valid() && i < |l.sources| && j < |l.sources|
    ensures l.sources[i].src != l.sources[j].dst
    ensures i != j ==> l.sources[i].src != l.sources[j].src && l.sources[i].dst != l.sources[j].dst
  {
    assert l.sources[i] in l.sources && l.sources[j] in l.sources;
  }

  /** Moving file `i` leaves every other file where it was. */
  lemma MoveKeepsOthers(l: Layout, orig: Contents, fs: Fs, fs': Fs, i: nat, j: nat)
    requires l.Valid() && i < |l.sources| && j < |l.sources| && i != j
    requires AgreeOn(l.DataPaths() - {l.sources[i].src, l.sources[i].dst}, fs, fs')
    ensures AtFrom(l, orig, fs, j) <==> AtFrom(l, orig, fs', j)
    ensures AtTo(l, orig, fs, j) <==> AtTo(l, orig, fs', j)
  {
    DataPath(l, j);
    Distinct(l, i, j);
    Distinct(l, j, i);
  }

  lemma MoveForward(l: Layout, orig: Contents, fs: Fs, i: nat)
    requires l.Valid() && i < |l.sources| && Placed(l, orig, fs)
    requires l.sources[i].src in fs.files
    ensures var fs' := fs.Move(l.sources[i].src, l.sources[i].dst);
      && Placed(l, orig, fs') && SameElsewhere(l, fs, fs') && AtTo(l, orig, fs', i)
      && forall j: nat | j < |l.sources| ::
           && (AtTo(l, orig, fs, j) ==> AtTo(l, orig, fs', j))
           && (j != i && AtFrom(l, orig, fs, j) ==> AtFrom(l, orig, fs', j))
  {
    var s := l.sources[i];
    var fs' := fs.Move(s.src, s.dst);
    DataPath(l, i);
    Distinct(l, i, i);
    forall j: nat | j < |l.sources| && j != i
      ensures AtFrom(l, orig, fs, j) <==> AtFrom(l, orig, fs', j)
      ensures AtTo(l, orig, fs, j) <==> AtTo(l, orig, fs', j)
    {
      MoveKeepsOthers(l, orig, fs, fs', i, j);
    }
    assert AtFrom(l, orig, fs, i);
  }

  lemma MoveBack(l: Layout, orig: Contents, fs: Fs, i: nat)
    requires l.Valid() && i < |l.sources| && Placed(l, orig, fs)
    requires l.sources[i].dst in fs.files
    ensures var fs' := fs.Move(l.sources[i].dst, l.sources[i].src);
      && Placed(l, orig, fs') && SameElsewhere(l, fs, fs') && AtFrom(l, orig, fs', i)
      && forall j: nat | j < |l.sources| && AtFrom(l, orig, fs, j) :: AtFrom(l, orig, fs', j)
  {
    var s := l.sources[i];
    var fs' := fs.Move(s.dst, s.src);
    DataPath(l, i);
    Distinct(l, i, i);
    forall j: nat | j < |l.sources| && j != i
      ensures AtFrom(l, orig, fs, j) <==> AtFrom(l, orig, fs', j)
      ensures AtTo(l, orig, fs, j) <==> AtTo(l, orig, fs', j)
    {
      MoveKeepsOthers(l, orig, fs, fs', i, j);
    }
    assert AtTo(l, orig, fs, i);
  }

  /* ----- schema version and marker ----- */

  function ParseVersion(content: string): int {
    match ParseInt(TrimSpace(content))
    case Some(v) => v
    case None => 1
  }

  /** readSchemaVersion without its I/O error: 1 when absent or unparseable. */
  function Version(l: Layout, fs: Fs): int {
    if l.schemaFile in fs.files then ParseVersion(fs.files[l.schemaFile]) else 1
  }

  function VersionText(v: int): string { IntText(v) + "\n" }

  lemma VersionRoundTrip(v: int)
    ensures ParseVersion(VersionText(v)) == v
  {
    var s := IntText(v);
    IntRoundTrip(v);
    assert forall c <- s :: !IsSpace(c);
    var t := s + "\n";
    assert IsSpace(t[|t| - 1]) && t[..|t| - 1] == s;
    assert !IsSpace(t[0]) && TrimLeft(t) == t;
    assert TrimRight(s) == s;
  }

  lemma VersionTwo()
    ensures VersionText(SCHEMA_VERSION) == "2\n"
  {
    assert NatText(2) == [DigitChar(2)];
  }

  /** What the version file means, whatever is in it: its integer, and 1 when it is not
      there or holds none. */
  lemma VersionReads(l: Layout, fs: Fs, v: int)
    ensures l.schemaFile !in fs.files ==> Version(l, fs) == 1
    ensures l.schemaFile in fs.files && fs.files[l.schemaFile] == IntText(v) + "\n" ==> Version(l, fs) == v
    ensures l.schemaFile in fs.files && ParseInt(TrimSpace(fs.files[l.schemaFile])).None? ==> Version(l, fs) == 1
  {
    VersionRoundTrip(v);
  }

  /** The step moves a managed file to its destination. */
  ghost predicate Planned(l: Layout, s: Marker.Step) {
    exists i: nat :: i < |l.sources| && s == CopyOf(l.sources[i])
  }

  /** A marker that records planned moves only, and every file there is. */
  ghost predicate Covers(l: Layout, orig: Contents, plan: seq<Marker.Step>) {
    && (forall s <- plan :: Planned(l, s))
    && (forall i: nat | i < |l.sources| :: l.sources[i].src in orig ==> CopyOf(l.sources[i]) in plan)
  }

  /* ----- the whole-run invariant ----- */

  ghost predicate Inv(l: Layout, orig: Contents, fs: Fs) {
    && Placed(l, orig, fs)
    && NoStrayDirs(l, fs)
    && l.sources != [] && l.sources[0].src in orig
    && (if l.marker in fs.files then
          && Covers(l, orig, Marker.Parse(fs.files[l.marker]))
          && (Version(l, fs) < SCHEMA_VERSION || (Version(l, fs) == SCHEMA_VERSION && AllAtTo(l, orig, fs)))
        else
          || (Version(l, fs) < SCHEMA_VERSION && AllAtFrom(l, orig, fs))
          || (Version(l, fs) == SCHEMA_VERSION && AllAtTo(l, orig, fs)))
  }

  /** A tree the pre-008 daemon left behind. */
  ghost predicate Legacy(l: Layout, fs: Fs) {
    && l.sources != [] && l.sources[0].src in fs.files
    && l.marker !in fs.files && Version(l, fs) < SCHEMA_VERSION
    && (forall s <- l.sources :: s.dst !in fs.files)
    && NoStrayDirs(l, fs)
  }

  /** A tree without a session database and without a marker: a fresh install. */
  ghost predicate Fresh(l: Layout, fs: Fs) {
    l.sources != [] && l.sources[0].src !in fs.files && !fs.Exists(l.marker)
  }

  ghost function ContentsAtFrom(l: Layout, fs: Fs): Contents {
    map s | s in l.sources && s.src in fs.files :: s.src := fs.files[s.src]
  }

  lemma LegacyInv(l: Layout, fs: Fs)
    requires l.Valid() && Legacy(l, fs)
    ensures Inv(l, ContentsAtFrom(l, fs), fs)
  {
    forall i: nat | i < |l.sources|
      ensures AtFrom(l, ContentsAtFrom(l, fs), fs, i)
    {
      assert l.sources[i] in l.sources;
    }
  }

  /* ----- what the invariant means ----- */

  /** No file is lost, duplicated or altered. */
  lemma NothingLost(l: Layout, orig: Contents, fs: Fs, i: nat)
    requires l.Valid() && Inv(l, orig, fs) && i < |l.sources| && l.sources[i].src in orig
    ensures var s := l.sources[i];
      && (s.src in fs.files <==> s.dst !in fs.files)
      && fs.files[if s.src in fs.files then s.src else s.dst] == orig[s.src]
  {
    assert AtFrom(l, orig, fs, i) || AtTo(l, orig, fs, i);
  }

  /** A half-migrated tree always has its marker, and version 2 on disk means that
      every file has moved. */
  lemma HalfMigratedHasMarker(l: Layout, orig: Contents, fs: Fs, i: nat, j: nat)
    requires l.Valid() && Inv(l, orig, fs) && i < |l.sources| && j < |l.sources|
    requires l.sources[i].dst in fs.files && l.sources[j].src in fs.files
    ensures l.marker in fs.files && Version(l, fs) < SCHEMA_VERSION
  {
    Distinct(l, j, i);
    assert !AtFrom(l, orig, fs, i) && !AtTo(l, orig, fs, j);
  }

  /** Without a marker the session database is at the 007 path until the schema
      says otherwise, so the fresh-install branch is never taken on such a tree. */
  lemma FreshBranchNeverTaken(l: Layout, orig: Contents, fs: Fs)
    requires l.Valid() && Inv(l, orig, fs)
    requires l.marker !in fs.files && Version(l, fs) < SCHEMA_VERSION
    ensures l.sources[0].src in fs.files && !fs.IsDir(l.sources[0].src)
    ensures !Fresh(l, fs)
  {
    assert AtFrom(l, orig, fs, 0);
  }

  /* ----- how the steps of the migration keep it ----- */

  /** Between the marker write and the schema write. */
  ghost predicate Moving(l: Layout, orig: Contents, fs: Fs) {
    Inv(l, orig, fs) && l.marker in fs.files && Version(l, fs) < SCHEMA_VERSION
  }

  /** All files moved, marker still there. */
  ghost predicate Moved(l: Layout, orig: Contents, fs: Fs) {
    Inv(l, orig, fs) && l.marker in fs.files && AllAtTo(l, orig, fs)
  }

  /** Directories may be added, files outside `l.DataPaths()` are the same. */
  ghost predicate Grown(l: Layout, a: Fs, b: Fs) {
    SameElsewhere(l, a, b) && b.dirs <= a.dirs + l.Dirs()
  }

  lemma StrayDirs(l: Layout, a: Fs, b: Fs)
    requires l.Valid() && NoStrayDirs(l, a) && b.dirs <= a.dirs + l.Dirs()
    ensures NoStrayDirs(l, b)
  {}

  lemma MovingKept(l: Layout, orig: Contents, a: Fs, b: Fs)
    requires l.Valid() && Moving(l, orig, a) && Placed(l, orig, b) && Grown(l, a, b)
    ensures Moving(l, orig, b)
  {
    StrayDirs(l, a, b);
  }

  lemma ControlDirs(l: Layout, f: string)
    requires f in {l.marker, l.schemaFile, l.activeFile}
    ensures Ancestors(Dir(f)) <= l.Dirs()
  {}

  lemma DestinationDirs(l: Layout, i: nat)
    requires i < |l.sources|
    ensures Ancestors(Dir(l.sources[i].dst)) <= l.Dirs()
  {
    assert l.sources[i] in l.sources;
  }

  lemma ProfileDirs(l: Layout, d: string)
    requires d in {l.dataDir, l.configDir, l.stateDir, l.runtimeDir}
    ensures Ancestors(d) <= l.Dirs()
  {}

  /** Writing the marker over a 007 tree, whether or not the write took effect. */
  lemma MarkerWritten(l: Layout, orig: Contents, a: Fs, b: Fs, text: string)
    requires l.Valid() && Inv(l, orig, a) && AllAtFrom(l, orig, a) && Version(l, a) < SCHEMA_VERSION
    requires Covers(l, orig, Marker.Parse(text))
    requires b.files == a.files || b.files == a.files[l.marker := text]
    requires b.dirs <= a.dirs + l.Dirs()
    ensures Inv(l, orig, b) && AllAtFrom(l, orig, b) && Version(l, b) < SCHEMA_VERSION
  {
    StrayDirs(l, a, b);
    PlacedFrame(l, orig, a, b);
  }

  /** Writing the schema version once everything has moved. */
  lemma SchemaWritten(l: Layout, orig: Contents, a: Fs, b: Fs)
    requires l.Valid() && Moved(l, orig, a)
    requires b.files == a.files || b.files == a.files[l.schemaFile := VersionText(SCHEMA_VERSION)]
    requires b.dirs <= a.dirs + l.Dirs()
    ensures Moved(l, orig, b)
  {
    StrayDirs(l, a, b);
    PlacedFrame(l, orig, a, b);
    VersionRoundTrip(SCHEMA_VERSION);
  }

  lemma ActiveWritten(l: Layout, orig: Contents, a: Fs, b: Fs, text: string)
    requires l.Valid() && Moved(l, orig, a)
    requires b.files == a.files || b.files == a.files[l.activeFile := text]
    requires b.dirs <= a.dirs + l.Dirs()
    ensures Moved(l, orig, b)
  {
    StrayDirs(l, a, b);
    PlacedFrame(l, orig, a, b);
  }

  /** The marker may go when nothing has moved, or when everything has and the
      schema says so. */
  lemma MarkerDropped(l: Layout, orig: Contents, a: Fs)
    requires l.Valid() && Inv(l, orig, a)
    requires || (AllAtFrom(l, orig, a) && Version(l, a) < SCHEMA_VERSION)
             || (AllAtTo(l, orig, a) && Version(l, a) == SCHEMA_VERSION)
    ensures Inv(l, orig, a.Drop(l.marker))
    ensures AllAtFrom(l, orig, a) ==> AllAtFrom(l, orig, a.Drop(l.marker))
    ensures AllAtTo(l, orig, a) ==> AllAtTo(l, orig, a.Drop(l.marker))
  {
    PlacedFrame(l, orig, a, a.Drop(l.marker));
  }

  /** A sidecar that a WAL checkpoint makes vanish is no longer to be migrated. */
  lemma SidecarVanishes(l: Layout, orig: Contents, fs: Fs, i: nat)
    requires l.Valid() && Inv(l, orig, fs) && AllAtFrom(l, orig, fs) && Version(l, fs) < SCHEMA_VERSION
    requires l.marker !in fs.files
    requires i < |l.sources| && l.sources[i].sidecar
    ensures var src := l.sources[i].src;
      && Inv(l, orig - {src}, fs.Drop(src)) && AllAtFrom(l, orig - {src}, fs.Drop(src))
      && Version(l, fs.Drop(src)) < SCHEMA_VERSION && l.marker !in fs.Drop(src).files
  {
    var src := l.sources[i].src;
    DataPath(l, i);
    Distinct(l, 0, i);
    forall j: nat | j < |l.sources|
      ensures AtFrom(l, orig - {src}, fs.Drop(src), j)
    {
      DataPath(l, j);
      Distinct(l, i, j);
      Distinct(l, j, i);
      assert AtFrom(l, orig, fs, j);
    }
  }

  /** What checkpointSources opens: the file names that end in `.db`. */
  predicate IsDatabase(s: Source) { !s.sidecar && |s.src| >= 3 && s.src[|s.src| - 3..] == ".db" }

  /** The write-ahead log or the shared-memory file of a database. */
  predicate IsSidecarOf(s: Source, db: Source) {
    s.sidecar && (s.src == db.src + "-wal" || s.src == db.src + "-shm")
  }

  /** A checkpoint moves committed pages into the database file. */
  lemma DatabaseRewritten(l: Layout, orig: Contents, fs: Fs, i: nat, now: Contents, fs': Fs)
    requires l.Valid() && Inv(l, orig, fs) && AllAtFrom(l, orig, fs) && Version(l, fs) < SCHEMA_VERSION
    requires l.marker !in fs.files
    requires i < |l.sources| && l.sources[i].src in fs.files && l.sources[i].src in fs'.files
    requires fs' == fs.Put(l.sources[i].src, fs'.files[l.sources[i].src])
    requires now == orig[l.sources[i].src := fs'.files[l.sources[i].src]]
    ensures Inv(l, now, fs') && AllAtFrom(l, now, fs') && Version(l, fs') < SCHEMA_VERSION && l.marker !in fs'.files
    ensures l.sources[i].src in orig
  {
    DataPath(l, i);
    assert AtFrom(l, orig, fs, i);
    forall j: nat | j < |l.sources|
      ensures AtFrom(l, now, fs', j)
    {
      DataPath(l, j);
      Distinct(l, i, j);
      Distinct(l, j, i);
      assert AtFrom(l, orig, fs, j);
    }
  }

  /** A database is kept at path `p`. */
  ghost predicate DatabaseAt(l: Layout, p: string) { exists db <- l.sources :: IsDatabase(db) && db.src == p }

  /** A sidecar of a database that is there is kept at path `p`. */
  ghost predicate SidecarAt(l: Layout, orig: Contents, p: string) {
    exists s <- l.sources, db <- l.sources :: s.src == p && IsSidecarOf(s, db) && IsDatabase(db) && db.src in orig
  }

  /** What a checkpoint may do: rewrite the databases that are there and take their
      sidecars away. */
  ghost predicate Checkpointed(l: Layout, orig: Contents, kept: Contents) {
    && (forall p <- kept :: p in orig)
    && (forall p <- kept | kept[p] != orig[p] :: DatabaseAt(l, p))
    && (forall p <- orig | p !in kept :: SidecarAt(l, orig, p))
  }

  /** The same of one database. */
  ghost predicate CheckpointedOne(l: Layout, db: Source, now: Contents, kept: Contents) {
    && (forall p <- kept :: p in now && (p != db.src ==> kept[p] == now[p]))
    && (forall p <- now | p !in kept :: exists s <- l.sources :: s.src == p && IsSidecarOf(s, db))
  }

  lemma OneLess(l: Layout, db: Source, now: Contents, kept: Contents, less: Contents, s: Source)
    requires CheckpointedOne(l, db, now, kept) && (less == kept || less == kept - {s.src})
    requires s in l.sources && IsSidecarOf(s, db)
    ensures CheckpointedOne(l, db, now, less)
  {}

  /** Without a database there is nothing to checkpoint. */
  lemma NothingToCheckpoint(l: Layout, orig: Contents, kept: Contents)
    requires Checkpointed(l, orig, kept)
    requires forall db <- l.sources | IsDatabase(db) :: db.src !in orig
    ensures kept == orig
  {
    forall p <- orig
      ensures p in kept && kept[p] == orig[p]
    {
      assert p !in kept ==> SidecarAt(l, orig, p);
      assert p in kept && kept[p] != orig[p] ==> DatabaseAt(l, p);
    }
  }

  lemma OneCheckpointed(l: Layout, orig: Contents, now: Contents, kept: Contents, db: Source)
    requires Checkpointed(l, orig, now) && CheckpointedOne(l, db, now, kept)
    requires db in l.sources && IsDatabase(db) && db.src in orig
    ensures Checkpointed(l, orig, kept)
  {
    forall p <- orig | p !in kept
      ensures SidecarAt(l, orig, p)
    {
      if p in now {
        var s :| s in l.sources && s.src == p && IsSidecarOf(s, db);
      }
    }
  }

  /** Every file that was to be migrated still is. */
  ghost predicate NoneVanished(l: Layout, orig: Contents, kept: Contents) {
    forall s <- l.sources | s.src in orig :: s.src in kept
  }

  ghost predicate HasSidecar(l: Layout, orig: Contents) { exists s <- l.sources :: s.sidecar && s.src in orig }

  /** Without a sidecar there is nothing a checkpoint could take. */
  lemma NoSidecarNoneVanished(l: Layout, orig: Contents, kept: Contents)
    requires Checkpointed(l, orig, kept) && !HasSidecar(l, orig)
    ensures NoneVanished(l, orig, kept)
  {
    forall s <- l.sources | s.src in orig
      ensures s.src in kept
    {
      assert s.src !in kept ==> SidecarAt(l, orig, s.src);
    }
  }

  lemma CheckpointedTransitive(l: Layout, a: Contents, b: Contents, c: Contents)
    requires Checkpointed(l, a, b) && Checkpointed(l, b, c)
    ensures Checkpointed(l, a, c)
  {
    forall p <- a | p !in c
      ensures SidecarAt(l, a, p)
    {
      if p in b {
        assert SidecarAt(l, b, p);
      }
    }
  }

  /* ----- convergence of recovery ----- */

  ghost predicate SameBeyond(l: Layout, a: Fs, b: Fs) {
    forall p | p !in l.Managed() :: (p in a.files <==> p in b.files) && (p in a.files ==> a.files[p] == b.files[p])
  }

  /** Some destination exists: recovery must go forward. */
  ghost predicate Started(l: Layout, fs: Fs) {
    exists i: nat :: i < |l.sources| && l.sources[i].dst in fs.files
  }

  /** What a Recover, complete or cut off, may do to a started migration. */
  ghost predicate Advanced(l: Layout, orig: Contents, a: Fs, b: Fs) {
    && Placed(l, orig, b) && SameBeyond(l, a, b)
    && forall i: nat | i < |l.sources| && AtTo(l, orig, a, i) :: AtTo(l, orig, b, i)
  }

  /** The state a completed Recover leaves, seen from the state it started in. */
  ghost predicate IsFinal(l: Layout, orig: Contents, a: Fs, b: Fs) {
    AllAtTo(l, orig, b) && SameBeyond(l, a, b) && l.marker !in b.files && PointersWritten(l, b)
  }

  /** Schema version and active profile as the migration writes them. */
  ghost predicate PointersWritten(l: Layout, fs: Fs) {
    && l.schemaFile in fs.files && fs.files[l.schemaFile] == VersionText(SCHEMA_VERSION)
    && l.activeFile in fs.files && fs.files[l.activeFile] == DEFAULT_PROFILE + "\n"
  }

  /** The bytes of the two pointer files after a migration. */
  lemma PointerTexts(l: Layout, fs: Fs)
    requires PointersWritten(l, fs)
    ensures fs.files[l.schemaFile] == "2\n" && fs.files[l.activeFile] == "default\n"
  {
    VersionTwo();
  }

  /** The pointer writes and the marker removal, after the moves. */
  lemma Finalized(l: Layout, orig: Contents, a: Fs, b: Fs, c: Fs)
    requires l.Valid() && Advanced(l, orig, a, b) && Moved(l, orig, b)
    requires Moved(l, orig, c) && SameBeyond(l, b, c)
    ensures Advanced(l, orig, a, c)
    ensures PointersWritten(l, c) ==>
      var d := c.Drop(l.marker);
      Inv(l, orig, d) && Advanced(l, orig, a, d) && IsFinal(l, orig, a, d)
  {
    if PointersWritten(l, c) {
      VersionRoundTrip(SCHEMA_VERSION);
      MarkerDropped(l, orig, c);
    }
  }

  lemma AdvancedKeepsStarted(l: Layout, orig: Contents, a: Fs, b: Fs)
    requires l.Valid() && Placed(l, orig, a) && Started(l, a) && Advanced(l, orig, a, b)
    ensures Started(l, b)
  {
    var i: nat :| i < |l.sources| && l.sources[i].dst in a.files;
    assert !AtFrom(l, orig, a, i) && AtTo(l, orig, a, i) && AtTo(l, orig, b, i);
    assert l.sources[i].dst in b.files;
  }

  /** The final state is determined by the start and the contents. */
  lemma FinalUnique(l: Layout, orig: Contents, a: Fs, b: Fs, c: Fs)
    requires l.Valid() && IsFinal(l, orig, a, b) && IsFinal(l, orig, a, c)
    ensures b.files == c.files
  {
    forall p
      ensures p in b.files <==> p in c.files
      ensures p in b.files ==> b.files[p] == c.files[p]
    {
      if p in l.DataPaths() {
        var s :| s in l.sources && (p == s.src || p == s.dst);
        var i: nat :| i < |l.sources| && l.sources[i] == s;
        assert AtTo(l, orig, b, i) && AtTo(l, orig, c, i);
      } else if p !in l.Managed() {
        assert (p in a.files <==> p in b.files) && (p in a.files <==> p in c.files);
      }
    }
  }

  lemma AdvancedRefl(l: Layout, orig: Contents, a: Fs)
    requires Placed(l, orig, a)
    ensures Advanced(l, orig, a, a)
  {}

  /** One recovery after another, and a completed one at the end. */
  lemma AdvancedTransitive(l: Layout, orig: Contents, a: Fs, b: Fs, c: Fs)
    requires Advanced(l, orig, a, b) && Advanced(l, orig, b, c)
    ensures Advanced(l, orig, a, c)
    ensures IsFinal(l, orig, b, c) ==> IsFinal(l, orig, a, c)
  {
    forall p | p !in l.Managed()
      ensures (p in a.files <==> p in c.files) && (p in a.files ==> a.files[p] == c.files[p])
    {
      assert (p in a.files <==> p in b.files) && (p in b.files <==> p in c.files);
    }
  }

  lemma FinalDetermined(l: Layout, orig: Contents, a: Fs, b: Fs)
    requires l.Valid() && IsFinal(l, orig, a, b)
    ensures forall direct | IsFinal(l, orig, a, direct) :: direct.files == b.files
  {
    forall direct | IsFinal(l, orig, a, direct)
      ensures direct.files == b.files
    {
      FinalUnique(l, orig, a, direct, b);
    }
  }

  /** Any number of Recovers cut off anywhere, then one that completes, ends in the
      same files as one uninterrupted Recover from the first state. */
  lemma {:induction false} RecoveryConverges(l: Layout, orig: Contents, runs: seq<Fs>, done: Fs, direct: Fs)
    requires l.Valid() && runs != [] && Placed(l, orig, runs[0]) && Started(l, runs[0])
    requires forall k | 0 < k < |runs| :: Advanced(l, orig, runs[k - 1], runs[k])
    requires IsFinal(l, orig, runs[|runs| - 1], done)
    requires IsFinal(l, orig, runs[0], direct)
    ensures done.files == direct.files
    ensures forall k | 0 <= k < |runs| :: Started(l, runs[k])
    decreases |runs|
  {
    if |runs| == 1 {
      FinalUnique(l, orig, runs[0], done, direct);
    } else {
      var rest := runs[1..];
      AdvancedKeepsStarted(l, orig, runs[0], runs[1]);
      assert IsFinal(l, orig, runs[1], direct) by {
        forall p | p !in l.Managed()
          ensures (p in runs[1].files <==> p in direct.files) && (p in direct.files ==> runs[1].files[p] == direct.files[p])
        {
          assert (p in runs[0].files <==> p in runs[1].files) && (p in runs[0].files <==> p in direct.files);
        }
      }
      forall k | 0 < k < |rest|
        ensures Advanced(l, orig, rest[k - 1], rest[k])
      {
        assert rest[k - 1] == runs[k] && rest[k] == runs[k + 1];
      }
      RecoveryConverges(l, orig, rest, done, direct);
      forall k | 0 <= k < |runs|
        ensures Started(l, runs[k])
      {
        assert k > 0 ==> runs[k] == rest[k - 1];
      }
    }
  }

  /** The forward loop of a recovery that began in `start`, before entry `k`. */
  ghost predicate Finishing(l: Layout, orig: Contents, start: Fs, fs: Fs, plan: seq<Marker.Step>, k: nat) {
    && Placed(l, orig, fs) && NoStrayDirs(l, fs) && SameElsewhere(l, start, fs)
    && (forall i: nat | i < |l.sources| && AtTo(l, orig, start, i) :: AtTo(l, orig, fs, i))
    && (forall m | 0 <= m < k && m < |plan| :: plan[m].from !in fs.files)
  }

  lemma FinishingInv(l: Layout, orig: Contents, start: Fs, fs: Fs, plan: seq<Marker.Step>, k: nat)
    requires l.Valid() && Inv(l, orig, start) && l.marker in start.files
    requires Finishing(l, orig, start, fs, plan, k)
    ensures Inv(l, orig, fs) && l.marker in fs.files && Version(l, fs) == Version(l, start)
    ensures Advanced(l, orig, start, fs)
  {}

  lemma FinishingDone(l: Layout, orig: Contents, start: Fs, fs: Fs, plan: seq<Marker.Step>)
    requires l.Valid() && Covers(l, orig, plan) && Finishing(l, orig, start, fs, plan, |plan|)
    ensures AllAtTo(l, orig, fs)
  {
    forall i: nat | i < |l.sources|
      ensures AtTo(l, orig, fs, i)
    {
      assert AtFrom(l, orig, fs, i) || AtTo(l, orig, fs, i);
    }
  }

  lemma FinishingStart(l: Layout, orig: Contents, fs: Fs, plan: seq<Marker.Step>)
    requires Placed(l, orig, fs) && NoStrayDirs(l, fs)
    ensures Finishing(l, orig, fs, fs, plan, 0)
  {}

  lemma FinishingSkip(l: Layout, orig: Contents, start: Fs, fs: Fs, plan: seq<Marker.Step>, k: nat)
    requires l.Valid() && k < |plan| && Finishing(l, orig, start, fs, plan, k)
    requires Planned(l, plan[k])
    requires fs.Exists(plan[k].to) || !fs.Exists(plan[k].from)
    ensures Finishing(l, orig, start, fs, plan, k + 1)
  {
    var i: nat :| i < |l.sources| && plan[k] == CopyOf(l.sources[i]);
    DataPath(l, i);
    assert AtFrom(l, orig, fs, i) || AtTo(l, orig, fs, i);
  }

  lemma FinishingMkdir(l: Layout, orig: Contents, start: Fs, fs: Fs, fs': Fs, plan: seq<Marker.Step>, k: nat)
    requires l.Valid() && k < |plan| && Finishing(l, orig, start, fs, plan, k)
    requires Planned(l, plan[k])
    requires fs' == fs.(dirs := fs'.dirs) && fs'.dirs <= fs.dirs + Ancestors(Dir(plan[k].to))
    ensures Finishing(l, orig, start, fs', plan, k)
  {
    var i: nat :| i < |l.sources| && plan[k] == CopyOf(l.sources[i]);
    DestinationDirs(l, i);
    StrayDirs(l, fs, fs');
    PlacedFrame(l, orig, fs, fs');
    forall j: nat | j < |l.sources| && AtTo(l, orig, fs, j)
      ensures AtTo(l, orig, fs', j)
    {
      AtFrame(l, orig, fs, fs', j);
    }
  }

  lemma FinishingMove(l: Layout, orig: Contents, start: Fs, fs: Fs, plan: seq<Marker.Step>, k: nat)
    requires l.Valid() && k < |plan| && Finishing(l, orig, start, fs, plan, k)
    requires Planned(l, plan[k])
    requires forall s <- plan :: Planned(l, s)
    requires plan[k].from in fs.files
    ensures Finishing(l, orig, start, fs.Move(plan[k].from, plan[k].to), plan, k + 1)
  {
    var i: nat :| i < |l.sources| && plan[k] == CopyOf(l.sources[i]);
    MoveForward(l, orig, fs, i);
    Distinct(l, i, i);
    forall m | 0 <= m < k
      ensures plan[m].from != plan[k].to
    {
      assert plan[m] in plan;
      var j: nat :| j < |l.sources| && plan[m] == CopyOf(l.sources[j]);
      Distinct(l, j, i);
    }
  }

  /** cleanupResidualSources has nothing to delete once every file has moved. */
  lemma NoResidue(l: Layout, orig: Contents, fs: Fs, plan: seq<Marker.Step>)
    requires AllAtTo(l, orig, fs) && NoStrayDirs(l, fs)
    requires forall s <- plan | s.kind == Marker.COPY :: Planned(l, s)
    ensures forall s <- plan | s.kind == Marker.COPY :: !fs.Exists(s.from)
  {
    forall s <- plan | s.kind == Marker.COPY
      ensures !fs.Exists(s.from)
    {
      var i: nat :| i < |l.sources| && s == CopyOf(l.sources[i]);
      DataPath(l, i);
      assert AtTo(l, orig, fs, i);
    }
  }

  /** Without a destination a marked tree is still the 007 tree. */
  lemma NotStartedAtFrom(l: Layout, orig: Contents, fs: Fs)
    requires l.Valid() && Inv(l, orig, fs) && !Started(l, fs)
    ensures AllAtFrom(l, orig, fs) && Version(l, fs) < SCHEMA_VERSION
  {
    forall i: nat | i < |l.sources|
      ensures AtFrom(l, orig, fs, i)
    {
      assert AtFrom(l, orig, fs, i) || AtTo(l, orig, fs, i);
    }
    assert !AtTo(l, orig, fs, 0);
  }

  /** What a plan read from the marker tells about the disk. */
  lemma StartedByPlan(l: Layout, orig: Contents, fs: Fs, plan: seq<Marker.Step>)
    requires l.Valid() && Placed(l, orig, fs) && NoStrayDirs(l, fs) && Covers(l, orig, plan)
    ensures Started(l, fs) <==> exists s <- plan :: s.kind == Marker.COPY && fs.Exists(s.to)
  {
    if Started(l, fs) {
      var i: nat :| i < |l.sources| && l.sources[i].dst in fs.files;
      assert AtFrom(l, orig, fs, i) || AtTo(l, orig, fs, i);
      assert CopyOf(l.sources[i]) in plan;
    }
    if s :| s in plan && s.kind == Marker.COPY && fs.Exists(s.to) {
      var i: nat :| i < |l.sources| && s == CopyOf(l.sources[i]);
      DataPath(l, i);
    }
  }
}
