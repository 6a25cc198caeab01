/** The 007 to 008 layout migration: plan, apply, abort, recover, roll back, and
    the boot-time decision between them (cmd/wad/migrate.go). */
module Migration {
  import opened Text
  import opened Disk
  import opened Layout
  import opened Rollback
  import Marker

  type Step = Marker.Step

  const COPY := Marker.COPY

  /** The shape of a computed plan: one entry per managed file, copied or skipped,
      then the two pointer files. */
  ghost predicate PlanShape(l: Layout, plan: seq<Step>) {
    && |plan| == |l.sources| + 2
    && (forall i: nat | i < |l.sources| ::
          plan[i].kind in {COPY, Marker.SKIP} && plan[i].from == l.sources[i].src && plan[i].to == l.sources[i].dst)
    && (forall i | |l.sources| <= i < |plan| :: plan[i].kind != COPY)
  }

  /** A plan that moves every file there is to move. */
  ghost predicate PlanFor(l: Layout, orig: Contents, plan: seq<Step>) {
    && PlanShape(l, plan)
    && forall i: nat | i < |l.sources| && l.sources[i].src in orig :: plan[i].kind == COPY
  }

  lemma PlanCovers(l: Layout, orig: Contents, plan: seq<Step>)
    requires PlanFor(l, orig, plan)
    ensures Covers(l, orig, Marker.CopySteps(plan))
  {
    Marker.CopyStepsMembers(plan);
    forall s <- Marker.CopySteps(plan)
      ensures Planned(l, s)
    {
      var i: nat :| i < |plan| && plan[i] == s;
      assert s == CopyOf(l.sources[i]);
    }
    forall i: nat | i < |l.sources| && l.sources[i].src in orig
      ensures CopyOf(l.sources[i]) in Marker.CopySteps(plan)
    {
      assert plan[i] == CopyOf(l.sources[i]);
    }
  }

  /** Reading back the marker of such a plan gives a covering plan. */
  lemma MarkerCovers(l: Layout, orig: Contents, plan: seq<Step>, ts: string, digest: string -> string)
    requires l.Valid() && PlanFor(l, orig, plan)
    requires '\n' !in ts && '\n' !in digest(Marker.Body(plan, ts))
    ensures Covers(l, orig, Marker.Parse(Marker.Render(plan, ts, digest)))
  {
    PlanCovers(l, orig, plan);
    forall s <- Marker.CopySteps(plan)
      ensures Marker.Clean(s)
    {
      var i: nat :| i < |l.sources| && s == CopyOf(l.sources[i]);
      assert l.sources[i] in l.sources;
    }
    Marker.RoundTrip(plan, ts, digest);
  }

  /** Nothing above 007 is on disk and the migration has not started. */
  ghost predicate Unstarted(l: Layout, orig: Contents, fs: Fs) {
    Inv(l, orig, fs) && l.marker !in fs.files && Version(l, fs) < SCHEMA_VERSION && AllAtFrom(l, orig, fs)
  }

  /** The rename loop after `i` plan entries, started in `start`. */
  ghost predicate Renaming(l: Layout, orig: Contents, start: Fs, fs: Fs, i: nat) {
    && Moving(l, orig, fs) && fs.dirs == start.dirs && SameElsewhere(l, start, fs)
    && (forall j: nat | j < i && j < |l.sources| :: AtTo(l, orig, fs, j))
    && (forall j: nat | i <= j < |l.sources| :: AtFrom(l, orig, fs, j))
  }

  lemma RenamingStep(l: Layout, orig: Contents, start: Fs, fs: Fs, i: nat)
    requires l.Valid() && i < |l.sources| && Renaming(l, orig, start, fs, i)
    requires l.sources[i].src in fs.files
    ensures Renaming(l, orig, start, fs.Move(l.sources[i].src, l.sources[i].dst), i + 1)
    ensures l.sources[i].src in orig
  {
    assert AtFrom(l, orig, fs, i);
    MoveForward(l, orig, fs, i);
    MovingKept(l, orig, fs, fs.Move(l.sources[i].src, l.sources[i].dst));
  }

  lemma RenamingSkip(l: Layout, orig: Contents, start: Fs, fs: Fs, i: nat)
    requires Renaming(l, orig, start, fs, i)
    requires i < |l.sources| ==> l.sources[i].src !in orig
    ensures Renaming(l, orig, start, fs, i + 1)
  {
    if i < |l.sources| {
      assert AtFrom(l, orig, fs, i);
    }
  }

  lemma RenamingAborts(l: Layout, orig: Contents, start: Fs, fs: Fs, i: nat)
    requires i < |l.sources| && Renaming(l, orig, start, fs, i)
    ensures Undoing(l, orig, fs, fs, i, 0, true)
    ensures l.sources[i].src in fs.files <==> l.sources[i].src in orig
  {
    assert AtFrom(l, orig, fs, i);
  }

  /** None of the first `i` planned files has vanished. */
  ghost predicate StillThere(l: Layout, orig: Contents, plan: seq<Step>, i: nat)
    requires |l.sources| <= |plan|
  {
    forall j: nat | j < i && j < |l.sources| && plan[j].kind == COPY :: l.sources[j].src in orig
  }

  /** Every directory that a file is moved into is there. */
  ghost predicate TargetsThere(l: Layout, dirs: set<string>) { forall s <- l.sources :: Dir(s.dst) in dirs }

  lemma StartHomes(l: Layout, orig: Contents, fs: Fs)
    requires AllAtFrom(l, orig, fs) && fs.Rooted()
    ensures HomesThere(l, orig, fs.dirs)
  {
    forall i: nat | i < |l.sources| && l.sources[i].src in orig
      ensures Dir(l.sources[i].src) in fs.dirs
    {
      assert AtFrom(l, orig, fs, i);
    }
  }

  lemma HomesKept(l: Layout, orig: Contents, kept: Contents, a: set<string>, b: set<string>)
    requires HomesThere(l, orig, a) && Checkpointed(l, orig, kept) && a <= b
    ensures HomesThere(l, kept, b)
  {}

  lemma UndoingHome(l: Layout, orig: Contents, start: Fs, fs: Fs, k: nat, i: nat, complete: bool)
    requires i < k && i < |l.sources| && Undoing(l, orig, start, fs, k, i, complete)
    requires l.sources[i].dst in fs.files && HomesThere(l, orig, start.dirs)
    ensures Dir(l.sources[i].src) in fs.dirs
  {
    assert AtFrom(l, orig, fs, i) || AtTo(l, orig, fs, i);
  }

  /** The rollback loop before its entry `i`, entry `k` being the failed one. */
  ghost predicate Undoing(l: Layout, orig: Contents, start: Fs, fs: Fs, k: nat, i: nat, complete: bool) {
    && i <= k
    && Moving(l, orig, fs) && fs.dirs == start.dirs && SameElsewhere(l, start, fs)
    && (forall j: nat | k <= j < |l.sources| :: AtFrom(l, orig, fs, j))
    && (complete ==> forall j: nat | j < i && j < |l.sources| :: AtFrom(l, orig, fs, j))
  }

  lemma UndoingStep(l: Layout, orig: Contents, start: Fs, fs: Fs, k: nat, i: nat, complete: bool)
    requires l.Valid() && i < k && i < |l.sources| && Undoing(l, orig, start, fs, k, i, complete)
    requires l.sources[i].dst in fs.files
    ensures Undoing(l, orig, start, fs.Move(l.sources[i].dst, l.sources[i].src), k, i + 1, complete)
  {
    MoveBack(l, orig, fs, i);
    MovingKept(l, orig, fs, fs.Move(l.sources[i].dst, l.sources[i].src));
  }

  lemma UndoingSkip(l: Layout, orig: Contents, start: Fs, fs: Fs, plan: seq<Step>, k: nat, i: nat, complete: bool)
    requires l.Valid() && i < k && i < |l.sources| && Undoing(l, orig, start, fs, k, i, complete)
    requires PlanFor(l, orig, plan)
    requires !(plan[i].kind == COPY && fs.Exists(plan[i].to) && !fs.Exists(plan[i].from))
    ensures Undoing(l, orig, start, fs, k, i + 1, complete)
  {
    DataPath(l, i);
    assert AtFrom(l, orig, fs, i) || AtTo(l, orig, fs, i);
  }

  lemma DirsMade(l: Layout, orig: Contents, a: Fs, b: Fs)
    requires l.Valid() && Moving(l, orig, a) && AllAtFrom(l, orig, a)
    requires b == a.(dirs := b.dirs) && b.dirs <= a.dirs + l.Dirs()
    ensures Moving(l, orig, b) && AllAtFrom(l, orig, b)
  {
    PlacedFrame(l, orig, a, b);
    MovingKept(l, orig, a, b);
  }

  lemma PlanForKept(l: Layout, orig: Contents, kept: Contents, fs: Fs, plan: seq<Step>)
    requires l.Valid() && Unstarted(l, orig, fs) && Checkpointed(l, orig, kept)
    requires PlanShape(l, plan)
    requires forall i: nat | i < |l.sources| :: plan[i].kind == COPY <==> fs.Exists(l.sources[i].src)
    ensures PlanFor(l, kept, plan)
    ensures NoneVanished(l, orig, kept) <==> StillThere(l, kept, plan, |plan|)
  {
    forall i: nat | i < |l.sources|
      ensures plan[i].kind == COPY <==> l.sources[i].src in orig
    {
      DataPath(l, i);
      assert AtFrom(l, orig, fs, i);
    }
  }

  /** Every file the plan demands is there. */
  ghost predicate HasRequired(l: Layout, orig: Contents) {
    forall s <- l.sources | s.required :: s.src in orig
  }

  lemma PreflightPasses(l: Layout, orig: Contents, fs: Fs)
    requires l.Valid() && Unstarted(l, orig, fs) && HasRequired(l, orig)
    ensures forall s <- l.sources :: (s.required ==> fs.Exists(s.src)) && !fs.Exists(s.dst)
  {
    forall s <- l.sources
      ensures (s.required ==> fs.Exists(s.src)) && !fs.Exists(s.dst)
    {
      var i: nat :| i < |l.sources| && l.sources[i] == s;
      DataPath(l, i);
      assert AtFrom(l, orig, fs, i);
    }
  }

  lemma PreflightFails(l: Layout, orig: Contents, fs: Fs)
    requires l.Valid() && Unstarted(l, orig, fs) && !HasRequired(l, orig)
    ensures exists s <- l.sources :: s.required && !fs.Exists(s.src)
  {
    var s :| s in l.sources && s.required && s.src !in orig;
    var i: nat :| i < |l.sources| && l.sources[i] == s;
    DataPath(l, i);
    assert AtFrom(l, orig, fs, i);
  }

  /** An earlier attempt was undone but left the profile directory behind. */
  ghost predicate Stranded(l: Layout, orig: Contents, fs: Fs) {
    Unstarted(l, orig, fs) && l.dataDir in fs.dirs
  }

  lemma UnstartedNotMoved(l: Layout, orig: Contents, fs: Fs)
    requires Unstarted(l, orig, fs)
    ensures !AllAtTo(l, orig, fs)
  {
    assert AtFrom(l, orig, fs, 0) && !AtTo(l, orig, fs, 0);
  }

  /** A boot goes no further than looking: the schema says that all is done, or the
      profile directory beside the 007 session database says that it is in hand. */
  ghost predicate Quiet(l: Layout, fs: Fs) {
    && l.sources != [] && !fs.Exists(l.marker)
    && (Version(l, fs) >= SCHEMA_VERSION || (l.sources[0].src in fs.files && fs.Exists(l.dataDir)))
  }

  lemma StrandedIsQuiet(l: Layout, orig: Contents, fs: Fs)
    requires l.Valid() && Unstarted(l, orig, fs) && fs.Exists(l.dataDir)
    ensures Quiet(l, fs)
  {
    assert AtFrom(l, orig, fs, 0);
  }

  /** What ApplyRollback asks of the disk before it starts. */
  ghost predicate RollbackReady(l: Layout, fs: Fs) {
    l.sources != [] && Version(l, fs) == SCHEMA_VERSION && fs.Exists(l.sources[0].dst) && !fs.Exists(l.marker)
  }

  class MigrationTx {
    const l: Layout
    const disk: Disk
    const dryRun: bool
    const clock: string            // RFC 3339 text of "now"
    const digest: string -> string // hex of SHA-256

    ghost predicate Valid() {
      l.Valid() && '\n' !in clock && forall s :: '\n' !in digest(s)
    }

    constructor (l: Layout, disk: Disk, dryRun: bool, clock: string, digest: string -> string)
      requires l.Valid() && '\n' !in clock && forall s :: '\n' !in digest(s)
      ensures Valid() && this.l == l && this.disk == disk && this.dryRun == dryRun
    {
      this.l, this.disk, this.dryRun, this.clock, this.digest := l, disk, dryRun, clock, digest;
    }

    /** Plan: pre-flight checks, then one entry per file. `vetted` is the outcome of
        the same-filesystem and ownership checks. */
    method Plan(vetted: bool) returns (r: Option<seq<Step>>)
      requires Valid()
      ensures r.Some? ==>
        && PlanShape(l, r.value)
        && (forall i: nat | i < |l.sources| ::
              && !disk.fs.Exists(l.sources[i].dst)
              && (r.value[i].kind == COPY <==> disk.fs.Exists(l.sources[i].src)))
      ensures r.None? <==>
        || !vetted
        || (exists s <- l.sources :: s.required && !disk.fs.Exists(s.src))
        || (exists s <- l.sources :: disk.fs.Exists(s.dst))
    {
      for i := 0 to |l.sources|
        invariant forall j | 0 <= j < i :: l.sources[j].required ==> disk.fs.Exists(l.sources[j].src)
      {
        if l.sources[i].required && !disk.Stat(l.sources[i].src) {
          return None;
        }
      }
      for i := 0 to |l.sources|
        invariant forall j | 0 <= j < i :: !disk.fs.Exists(l.sources[j].dst)
      {
        if disk.Stat(l.sources[i].dst) {
          return None;
        }
      }
      if !vetted {
        return None;
      }
      var plan: seq<Step> := [];
      for i := 0 to |l.sources|
        invariant |plan| == i
        invariant forall j: nat | j < i ::
          && plan[j].from == l.sources[j].src && plan[j].to == l.sources[j].dst
          && plan[j].kind == (if disk.fs.Exists(l.sources[j].src) then COPY else Marker.SKIP)
      {
        var s := l.sources[i];
        plan := plan + [Marker.Step(if disk.Stat(s.src) then COPY else Marker.SKIP, s.src, s.dst)];
      }
      plan := plan + [Marker.Step(Marker.SCHEMA_WRITE, "", l.schemaFile), Marker.Step(Marker.SCHEMA_WRITE, "", l.activeFile)];
      return Some(plan);
    }

    /** checkpointSources: every database that is there. Its file may be rewritten and
        its sidecars may vanish; nothing else happens to any file. */
    method CheckpointSources(ghost orig: Contents) returns (ghost kept: Contents)
      requires Valid() && Unstarted(l, orig, disk.fs)
      modifies disk
      ensures Unstarted(l, kept, disk.fs) && Checkpointed(l, orig, kept)
      ensures SameElsewhere(l, old(disk.fs), disk.fs) && disk.fs.dirs == old(disk.fs).dirs
      ensures disk.faults >= old(disk.faults)
    {
      kept := orig;
      for i := 0 to |l.sources|
        invariant Unstarted(l, kept, disk.fs) && Checkpointed(l, orig, kept)
        invariant SameElsewhere(l, old(disk.fs), disk.fs) && disk.fs.dirs == old(disk.fs).dirs
        invariant disk.faults >= old(disk.faults)
      {
        if IsDatabase(l.sources[i]) && disk.Stat(l.sources[i].src) {
          ghost var now := kept;
          DatabaseThere(i, kept);
          kept := WalCheckpointTruncate(i, kept);
          OneCheckpointed(l, orig, now, kept, l.sources[i]);
        }
      }
    }

    lemma DatabaseThere(i: nat, now: Contents)
      requires Valid() && Unstarted(l, now, disk.fs) && i < |l.sources| && disk.Stat(l.sources[i].src)
      ensures l.sources[i].src in now && l.sources[i].src in disk.fs.files
    {
      DataPath(l, i);
      assert AtFrom(l, now, disk.fs, i);
    }

    /** walCheckpointTruncate: a file that is no SQLite database is left alone; closing
        the last connection to one removes its sidecars. */
    method WalCheckpointTruncate(i: nat, ghost now: Contents) returns (ghost kept: Contents)
      requires Valid() && Unstarted(l, now, disk.fs)
      requires i < |l.sources| && IsDatabase(l.sources[i]) && disk.Stat(l.sources[i].src)
      modifies disk
      ensures Unstarted(l, kept, disk.fs) && CheckpointedOne(l, l.sources[i], now, kept)
      ensures SameElsewhere(l, old(disk.fs), disk.fs) && disk.fs.dirs == old(disk.fs).dirs
      ensures disk.faults >= old(disk.faults)
    {
      kept := now;
      var opens := *;
      if !opens {
        return;
      }
      kept := RewriteDatabase(i, now);
      for j := 0 to |l.sources|
        invariant Unstarted(l, kept, disk.fs) && CheckpointedOne(l, l.sources[i], now, kept)
        invariant SameElsewhere(l, old(disk.fs), disk.fs) && disk.fs.dirs == old(disk.fs).dirs
        invariant disk.faults >= old(disk.faults)
      {
        var vanishes := *;
        if IsSidecarOf(l.sources[j], l.sources[i]) && vanishes {
          ghost var before := kept;
          kept := DropSidecar(j, kept);
          OneLess(l, l.sources[i], now, before, kept, l.sources[j]);
        }
      }
    }

    /** The database file with the pages of its log. */
    method RewriteDatabase(i: nat, ghost now: Contents) returns (ghost kept: Contents)
      requires Valid() && Unstarted(l, now, disk.fs)
      requires i < |l.sources| && IsDatabase(l.sources[i]) && disk.Stat(l.sources[i].src)
      modifies disk
      ensures l.sources[i].src in disk.fs.files && kept == now[l.sources[i].src := disk.fs.files[l.sources[i].src]]
      ensures disk.fs == old(disk.fs).Put(l.sources[i].src, disk.fs.files[l.sources[i].src])
      ensures Unstarted(l, kept, disk.fs) && CheckpointedOne(l, l.sources[i], now, kept)
      ensures SameElsewhere(l, old(disk.fs), disk.fs) && disk.faults == old(disk.faults)
    {
      ghost var before := disk.fs;
      DataPath(l, i);
      DatabaseThere(i, now);
      disk.Rewrite(l.sources[i].src);
      kept := now[l.sources[i].src := disk.fs.files[l.sources[i].src]];
      DatabaseRewritten(l, now, before, i, kept, disk.fs);
    }

    /** One sidecar taken away, or nothing done. */
    method DropSidecar(j: nat, ghost now: Contents) returns (ghost kept: Contents)
      requires Valid() && Unstarted(l, now, disk.fs)
      requires j < |l.sources| && l.sources[j].sidecar
      modifies disk
      ensures || (disk.fs == old(disk.fs) && kept == now)
              || (disk.fs == old(disk.fs).Drop(l.sources[j].src) && kept == now - {l.sources[j].src})
      ensures Unstarted(l, kept, disk.fs)
      ensures SameElsewhere(l, old(disk.fs), disk.fs)
      ensures disk.faults >= old(disk.faults)
    {
      kept := now;
      ghost var before := disk.fs;
      var gone := disk.Remove(l.sources[j].src);
      if gone == Done {
        SidecarVanishes(l, now, before, j);
        DataPath(l, j);
        kept := now - {l.sources[j].src};
      }
    }

    function DirsToMake(): seq<string> { [l.dataDir, l.configDir, l.stateDir, l.runtimeDir] }

    lemma TargetsMade(dirs: set<string>)
      requires Valid() && forall d <- DirsToMake() :: d in dirs
      ensures l.dataDir in dirs && TargetsThere(l, dirs)
    {
      assert l.dataDir in DirsToMake() && l.configDir in DirsToMake() && l.stateDir in DirsToMake();
    }

    lemma ProfileDir(i: nat)
      requires i < |DirsToMake()|
      ensures Ancestors(DirsToMake()[i]) <= l.Dirs()
    {
      ProfileDirs(l, DirsToMake()[i]);
    }

    /** ensureDirs; may stop half-way. */
    method EnsureDirs() returns (ok: bool)
      requires Valid()
      modifies disk
      ensures disk.fs == old(disk.fs).(dirs := disk.fs.dirs)
      ensures disk.fs.dirs <= old(disk.fs).dirs + l.Dirs()
      ensures old(disk.fs).dirs <= disk.fs.dirs
      ensures ok ==> forall d <- DirsToMake() :: d in disk.fs.dirs
      ensures disk.faults >= old(disk.faults) && (!ok ==> disk.faults > old(disk.faults))
    {
      var dirs := DirsToMake();
      for i := 0 to |dirs|
        invariant disk.fs == old(disk.fs).(dirs := disk.fs.dirs)
        invariant disk.fs.dirs <= old(disk.fs).dirs + l.Dirs()
        invariant old(disk.fs).dirs <= disk.fs.dirs
        invariant forall j | 0 <= j < i :: dirs[j] in disk.fs.dirs
        invariant disk.faults >= old(disk.faults)
      {
        ProfileDir(i);
        ok := disk.MkdirAll(dirs[i]);
        if !ok {
          return;
        }
      }
      return true;
    }

    /** rollbackRenames: undo the moves made before the failing one. */
    method RollbackRenames(plan: seq<Step>, k: nat, ghost orig: Contents) returns (complete: bool)
      requires Valid() && PlanFor(l, orig, plan) && k < |l.sources| && plan[k].kind == COPY
      requires Undoing(l, orig, disk.fs, disk.fs, k, 0, true) && HomesThere(l, orig, disk.fs.dirs)
      modifies disk
      ensures Undoing(l, orig, old(disk.fs), disk.fs, k, k, complete)
      ensures disk.faults >= old(disk.faults)
      ensures disk.faults == old(disk.faults) ==> complete
    {
      var failingSrc := plan[k].from;
      complete := true;
      var i := 0;
      while i < |plan|
        invariant Undoing(l, orig, old(disk.fs), disk.fs, k, i, complete)
        invariant disk.faults >= old(disk.faults) && (disk.faults == old(disk.faults) ==> complete)
        decreases |plan| - i
      {
        var step := plan[i];
        if step.kind == COPY && step.from == failingSrc {
          Distinct(l, i, k);
          return;
        }
        if step.kind == COPY && disk.Stat(step.to) && !disk.Stat(step.from) {
          DataPath(l, i);
          var link := disk.Probe(step.to);
          if link != Done {
            complete := false;
          } else {
            ghost var before := disk.fs;
            UndoingHome(l, orig, old(disk.fs), before, k, i, complete);
            var ok := disk.Rename(step.to, step.from);
            if ok {
              UndoingStep(l, orig, old(disk.fs), before, k, i, complete);
            } else {
              complete := false;
            }
          }
        } else {
          UndoingSkip(l, orig, old(disk.fs), disk.fs, plan, k, i, complete);
        }
        i := i + 1;
      }
    }

    /** abortRenames: the marker goes only when every move was undone. */
    method AbortRenames(plan: seq<Step>, k: nat, ghost orig: Contents)
      requires Valid() && PlanFor(l, orig, plan) && k < |l.sources| && plan[k].kind == COPY
      requires Undoing(l, orig, disk.fs, disk.fs, k, 0, true) && HomesThere(l, orig, disk.fs.dirs)
      modifies disk
      ensures Inv(l, orig, disk.fs) && disk.fs.dirs == old(disk.fs).dirs
      ensures l.marker !in disk.fs.files ==> AllAtFrom(l, orig, disk.fs)
      ensures disk.faults >= old(disk.faults)
      ensures disk.faults == old(disk.faults) ==> Unstarted(l, orig, disk.fs)
    {
      var complete := RollbackRenames(plan, k, orig);
      if !complete {
        return;
      }
      MarkerDropped(l, orig, disk.fs);
      var gone := disk.Remove(l.marker);
    }

    /** One file of renamePlan to its destination, or abort. */
    method RenameOne(plan: seq<Step>, i: nat, ghost start: Fs, ghost orig: Contents) returns (ok: bool)
      requires Valid() && PlanFor(l, orig, plan) && i < |l.sources| && plan[i].kind == COPY
      requires Renaming(l, orig, start, disk.fs, i)
      requires TargetsThere(l, disk.fs.dirs) && HomesThere(l, orig, disk.fs.dirs)
      modifies disk
      ensures disk.fs.dirs == old(disk.fs).dirs && disk.faults >= old(disk.faults)
      ensures ok ==> Renaming(l, orig, start, disk.fs, i + 1) && l.sources[i].src in orig
      ensures !ok ==> Inv(l, orig, disk.fs) && (l.marker !in disk.fs.files ==> AllAtFrom(l, orig, disk.fs))
      ensures !ok && disk.faults == old(disk.faults) ==> l.sources[i].src !in orig && Unstarted(l, orig, disk.fs)
    {
      var step := plan[i];
      RenamingAborts(l, orig, start, disk.fs, i);
      assert l.sources[i] in l.sources;
      var link := disk.Probe(step.from);
      if link == Failed {
        AbortRenames(plan, i, orig);
        return false;
      }
      ghost var before := disk.fs;
      ok := disk.Rename(step.from, step.to);
      if !ok {
        AbortRenames(plan, i, orig);
        return;
      }
      RenamingStep(l, orig, start, before, i);
    }

    /** renamePlan: every planned file to its destination, or abort. */
    method RenamePlan(plan: seq<Step>, ghost orig: Contents) returns (ok: bool)
      requires Valid() && PlanFor(l, orig, plan)
      requires Moving(l, orig, disk.fs) && AllAtFrom(l, orig, disk.fs) && TargetsThere(l, disk.fs.dirs)
      modifies disk
      ensures Inv(l, orig, disk.fs) && disk.fs.dirs == old(disk.fs).dirs
      ensures ok ==> Moving(l, orig, disk.fs) && Moved(l, orig, disk.fs) && SameElsewhere(l, old(disk.fs), disk.fs)
      ensures !ok && l.marker !in disk.fs.files ==> AllAtFrom(l, orig, disk.fs)
      ensures disk.faults >= old(disk.faults)
      ensures disk.faults == old(disk.faults) ==> (ok <==> StillThere(l, orig, plan, |plan|))
      ensures disk.faults == old(disk.faults) && !ok ==> Unstarted(l, orig, disk.fs)
    {
      StartHomes(l, orig, disk.fs);
      var i := 0;
      while i < |plan|
        invariant i <= |plan|
        invariant Renaming(l, orig, old(disk.fs), disk.fs, i)
        invariant disk.faults >= old(disk.faults)
        invariant StillThere(l, orig, plan, i)
      {
        var step := plan[i];
        if step.kind == COPY {
          ok := RenameOne(plan, i, old(disk.fs), orig);
          if !ok {
            return;
          }
        } else {
          RenamingSkip(l, orig, old(disk.fs), disk.fs, i);
        }
        i := i + 1;
      }
      return true;
    }

    /** planHasAnyDestination */
    method PlanHasAnyDestination(plan: seq<Step>) returns (any: bool)
      ensures any <==> exists s <- plan :: s.kind == COPY && disk.fs.Exists(s.to)
    {
      for i := 0 to |plan|
        invariant forall j | 0 <= j < i :: !(plan[j].kind == COPY && disk.fs.Exists(plan[j].to))
      {
        if plan[i].kind == COPY && disk.Stat(plan[i].to) {
          return true;
        }
      }
      return false;
    }

    /** finishPartialRenames */
    method FinishPartialRenames(plan: seq<Step>, ghost orig: Contents) returns (ok: bool, ghost done: nat)
      requires Valid() && Covers(l, orig, plan)
      requires Placed(l, orig, disk.fs) && NoStrayDirs(l, disk.fs)
      modifies disk
      ensures Finishing(l, orig, old(disk.fs), disk.fs, plan, done) && (ok ==> done == |plan|)
      ensures disk.faults >= old(disk.faults) && (!ok ==> disk.faults > old(disk.faults))
    {
      FinishingStart(l, orig, disk.fs, plan);
      done := 0;
      for k := 0 to |plan|
        invariant done == k && Finishing(l, orig, old(disk.fs), disk.fs, plan, k)
        invariant disk.faults >= old(disk.faults)
      {
        var step := plan[k];
        if step.kind == COPY && !disk.Stat(step.to) && disk.Stat(step.from) {
          ok := FinishOne(plan, k, old(disk.fs), orig);
          if !ok {
            return;
          }
        } else {
          FinishingSkip(l, orig, old(disk.fs), disk.fs, plan, k);
        }
        done := k + 1;
      }
      ok := true;
    }

    /** One pending rename of finishPartialRenames. */
    method FinishOne(plan: seq<Step>, k: nat, ghost start: Fs, ghost orig: Contents) returns (ok: bool)
      requires Valid() && Covers(l, orig, plan) && k < |plan|
      requires Finishing(l, orig, start, disk.fs, plan, k) && disk.Stat(plan[k].from)
      modifies disk
      ensures Finishing(l, orig, start, disk.fs, plan, if ok then k + 1 else k)
      ensures disk.faults >= old(disk.faults) && (!ok ==> disk.faults > old(disk.faults))
    {
      var step := plan[k];
      var link := disk.Probe(step.from);
      if link != Done {
        return false;
      }
      FinishingSource(plan, k, orig);
      ghost var before := disk.fs;
      ok := disk.MkdirAll(Dir(step.to));
      FinishingMkdir(l, orig, start, before, disk.fs, plan, k);
      if !ok {
        return;
      }
      ghost var made := disk.fs;
      ok := disk.Rename(step.from, step.to);
      if ok {
        FinishingMove(l, orig, start, made, plan, k);
      }
    }

    lemma FinishingSource(plan: seq<Step>, k: nat, orig: Contents)
      requires Valid() && Covers(l, orig, plan) && k < |plan|
      requires NoStrayDirs(l, disk.fs) && disk.Stat(plan[k].from)
      ensures plan[k].from in disk.fs.files
    {
      assert plan[k] in plan;
      var i: nat :| i < |l.sources| && plan[k] == CopyOf(l.sources[i]);
      DataPath(l, i);
    }

    /** cleanupResidualSources: unlink whatever source is still there. */
    method CleanupResidualSources(plan: seq<Step>)
      modifies disk
      ensures (forall s <- plan | s.kind == COPY :: !old(disk.fs).Exists(s.from)) ==> disk.fs == old(disk.fs)
      ensures disk.fs.dirs == old(disk.fs).dirs
      ensures forall p | p in old(disk.fs).files && p !in disk.fs.files :: exists s <- plan :: s.kind == COPY && s.from == p
      ensures disk.faults >= old(disk.faults)
      ensures (forall s <- plan | s.kind == COPY :: !old(disk.fs).Exists(s.from)) ==> disk.faults == old(disk.faults)
    {
      for i := 0 to |plan|
        invariant (forall s <- plan | s.kind == COPY :: !old(disk.fs).Exists(s.from)) ==> disk.fs == old(disk.fs) && disk.faults == old(disk.faults)
        invariant disk.fs.dirs == old(disk.fs).dirs
        invariant forall p | p in old(disk.fs).files && p !in disk.fs.files :: exists s <- plan :: s.kind == COPY && s.from == p
        invariant disk.faults >= old(disk.faults)
      {
        var step := plan[i];
        assert step in plan;
        if step.kind == COPY && disk.Stat(step.from) {
          var gone := disk.Remove(step.from);
        }
      }
    }

    /** The pointer writes and the cleanup that end Apply and Recover alike. */
    method WritePointers(plan: seq<Step>, ghost orig: Contents) returns (ok: bool)
      requires Valid() && Moved(l, orig, disk.fs)
      requires forall s <- plan | s.kind == COPY :: Planned(l, s)
      modifies disk
      ensures Moved(l, orig, disk.fs) && SameBeyond(l, old(disk.fs), disk.fs)
      ensures ok ==> PointersWritten(l, disk.fs)
      ensures old(disk.fs).dirs <= disk.fs.dirs
      ensures disk.faults >= old(disk.faults) && (!ok ==> disk.faults > old(disk.faults))
    {
      ghost var before := disk.fs;
      ControlDirs(l, l.schemaFile);
      ok := disk.AtomicWrite(l.schemaFile, VersionText(SCHEMA_VERSION));
      SchemaWritten(l, orig, before, disk.fs);
      if !ok {
        return;
      }
      ghost var versioned := disk.fs;
      ControlDirs(l, l.activeFile);
      ok := disk.AtomicWrite(l.activeFile, DEFAULT_PROFILE + "\n");
      ActiveWritten(l, orig, versioned, disk.fs, DEFAULT_PROFILE + "\n");
      if !ok {
        return;
      }
      NoResidue(l, orig, disk.fs, plan);
      CleanupResidualSources(plan);
    }

    /** Recover: called at boot when the marker is there. */
    method Recover(ghost orig: Contents) returns (ok: bool)
      requires Valid() && Inv(l, orig, disk.fs) && l.marker in disk.fs.files
      modifies disk
      ensures Inv(l, orig, disk.fs)
      ensures Started(l, old(disk.fs)) ==> Advanced(l, orig, old(disk.fs), disk.fs)
      ensures Started(l, old(disk.fs)) && ok ==> IsFinal(l, orig, old(disk.fs), disk.fs)
      ensures !Started(l, old(disk.fs)) ==> disk.fs == if ok then old(disk.fs).Drop(l.marker) else old(disk.fs)
      ensures !ok ==> l.marker in disk.fs.files
      ensures disk.faults == old(disk.faults) ==> ok
      ensures disk.faults >= old(disk.faults)
    {
      var text := disk.ReadFile(l.marker);
      if !text.Content? {
        return false;
      }
      var plan := Marker.ReadMarker(text.text);
      StartedByPlan(l, orig, disk.fs, plan);
      var any := PlanHasAnyDestination(plan);
      if !any {
        NotStartedAtFrom(l, orig, disk.fs);
        MarkerDropped(l, orig, disk.fs);
        var gone := disk.Remove(l.marker);
        return gone == Done;
      }
      ok := Forward(plan, orig);
    }

    /** The forward half of Recover. */
    method Forward(plan: seq<Step>, ghost orig: Contents) returns (ok: bool)
      requires Valid() && Inv(l, orig, disk.fs) && l.marker in disk.fs.files && Covers(l, orig, plan)
      modifies disk
      ensures Inv(l, orig, disk.fs)
      ensures Advanced(l, orig, old(disk.fs), disk.fs)
      ensures ok ==> IsFinal(l, orig, old(disk.fs), disk.fs)
      ensures !ok ==> l.marker in disk.fs.files
      ensures disk.faults >= old(disk.faults) && (!ok ==> disk.faults > old(disk.faults))
    {
      ghost var start := disk.fs;
      ghost var done;
      ok, done := FinishPartialRenames(plan, orig);
      ghost var renamed := disk.fs;
      FinishingInv(l, orig, start, renamed, plan, done);
      if !ok {
        return;
      }
      FinishingDone(l, orig, start, renamed, plan);
      ok := WritePointers(plan, orig);
      Finalized(l, orig, start, renamed, disk.fs);
      if !ok {
        return;
      }
      var gone := disk.Remove(l.marker);
      ok := gone != Failed;
    }

    /** Apply: the whole transaction. */
    method Apply(vetted: bool, ghost orig: Contents) returns (ok: bool, ghost kept: Contents)
      requires Valid() && Unstarted(l, orig, disk.fs)
      modifies disk
      ensures Inv(l, kept, disk.fs) && Checkpointed(l, orig, kept)
      ensures dryRun ==> disk.fs == old(disk.fs) && kept == orig && (ok <==> vetted && HasRequired(l, orig))
      ensures ok && !dryRun ==> AllAtTo(l, kept, disk.fs) && PointersWritten(l, disk.fs)
      ensures ok && !dryRun && disk.faults == old(disk.faults) ==> l.marker !in disk.fs.files
      ensures !ok && l.marker !in disk.fs.files ==> AllAtFrom(l, kept, disk.fs)
      ensures vetted && HasRequired(l, orig) && NoneVanished(l, orig, kept) && disk.faults == old(disk.faults) ==> ok
      ensures !NoneVanished(l, orig, kept) && disk.faults == old(disk.faults) ==> !ok && Stranded(l, kept, disk.fs)
      ensures !vetted || !HasRequired(l, orig) ==> !ok && disk.fs == old(disk.fs) && kept == orig
      ensures old(disk.fs).dirs <= disk.fs.dirs
      ensures disk.faults >= old(disk.faults)
    {
      kept := orig;
      var r := Plan(vetted);
      if HasRequired(l, orig) {
        PreflightPasses(l, orig, disk.fs);
      } else {
        PreflightFails(l, orig, disk.fs);
      }
      if dryRun || r.None? {
        return r.Some?, orig;
      }
      var plan := r.value;
      ghost var planned := disk.fs;
      kept := CheckpointSources(orig);
      PlanForKept(l, orig, kept, planned, plan);
      ok := WriteAheadMarker(plan, kept);
      if !ok {
        return;
      }
      ok := MoveAll(plan, kept);
    }

    /** ensureDirs, taking the marker back when it fails. */
    method PrepareDirs(ghost orig: Contents) returns (ok: bool)
      requires Valid() && Moving(l, orig, disk.fs) && AllAtFrom(l, orig, disk.fs)
      modifies disk
      ensures Inv(l, orig, disk.fs) && AllAtFrom(l, orig, disk.fs)
      ensures ok ==> Moving(l, orig, disk.fs) && l.dataDir in disk.fs.dirs && TargetsThere(l, disk.fs.dirs)
      ensures old(disk.fs).dirs <= disk.fs.dirs
      ensures disk.faults >= old(disk.faults) && (!ok ==> disk.faults > old(disk.faults))
    {
      ghost var marked := disk.fs;
      ok := EnsureDirs();
      DirsMade(l, orig, marked, disk.fs);
      if ok {
        TargetsMade(disk.fs.dirs);
      } else {
        MarkerDropped(l, orig, disk.fs);
        var gone := disk.Remove(l.marker);
      }
    }

    /** Apply once the marker is on disk. */
    method MoveAll(plan: seq<Step>, ghost orig: Contents) returns (ok: bool)
      requires Valid() && PlanFor(l, orig, plan)
      requires Moving(l, orig, disk.fs) && AllAtFrom(l, orig, disk.fs)
      modifies disk
      ensures Inv(l, orig, disk.fs)
      ensures ok ==> AllAtTo(l, orig, disk.fs) && PointersWritten(l, disk.fs)
      ensures ok && disk.faults == old(disk.faults) ==> l.marker !in disk.fs.files
      ensures !ok && l.marker !in disk.fs.files ==> AllAtFrom(l, orig, disk.fs)
      ensures disk.faults == old(disk.faults) ==> (ok <==> StillThere(l, orig, plan, |plan|))
      ensures disk.faults == old(disk.faults) && !ok ==> Stranded(l, orig, disk.fs)
      ensures old(disk.fs).dirs <= disk.fs.dirs
      ensures disk.faults >= old(disk.faults)
    {
      ok := PrepareDirs(orig);
      if !ok {
        return;
      }
      ok := RenamePlan(plan, orig);
      if !ok {
        return;
      }
      ok := Conclude(plan, orig);
    }

    /** Apply once every file has moved; a marker that stays is not reported. */
    method Conclude(plan: seq<Step>, ghost orig: Contents) returns (ok: bool)
      requires Valid() && PlanFor(l, orig, plan) && Moved(l, orig, disk.fs)
      modifies disk
      ensures Inv(l, orig, disk.fs) && AllAtTo(l, orig, disk.fs)
      ensures ok ==> PointersWritten(l, disk.fs)
      ensures !ok ==> l.marker in disk.fs.files && disk.faults > old(disk.faults)
      ensures ok && disk.faults == old(disk.faults) ==> l.marker !in disk.fs.files
      ensures old(disk.fs).dirs <= disk.fs.dirs
      ensures disk.faults >= old(disk.faults)
    {
      PlanCovers(l, orig, plan);
      Marker.CopyStepsMembers(plan);
      ok := WritePointers(plan, orig);
      if !ok {
        return;
      }
      VersionRoundTrip(SCHEMA_VERSION);
      MarkerDropped(l, orig, disk.fs);
      var gone := disk.Remove(l.marker);
    }

    method WriteAheadMarker(plan: seq<Step>, ghost orig: Contents) returns (ok: bool)
      requires Valid() && PlanFor(l, orig, plan) && Unstarted(l, orig, disk.fs)
      modifies disk
      ensures Inv(l, orig, disk.fs) && AllAtFrom(l, orig, disk.fs)
      ensures ok ==> Moving(l, orig, disk.fs)
      ensures old(disk.fs).dirs <= disk.fs.dirs
      ensures disk.faults >= old(disk.faults) && (!ok ==> disk.faults > old(disk.faults))
    {
      var text := Marker.WriteMarker(plan, clock, digest);
      MarkerCovers(l, orig, plan, clock, digest);
      ControlDirs(l, l.marker);
      ghost var before := disk.fs;
      ok := disk.AtomicWrite(l.marker, text);
      MarkerWritten(l, orig, before, disk.fs, text);
    }

    /** autoMigrate: what a boot does. `kept` are the files still to be accounted
        for afterwards. */
    method AutoMigrate(vetted: bool, ghost orig: Contents) returns (ok: bool, ghost kept: Contents)
      requires Valid() && !dryRun
      requires Inv(l, orig, disk.fs) || Fresh(l, disk.fs) || Quiet(l, disk.fs)
      modifies disk
      ensures Checkpointed(l, orig, kept)
      ensures Inv(l, orig, old(disk.fs)) ==> Inv(l, kept, disk.fs)
      ensures Fresh(l, old(disk.fs)) ==>
        disk.fs.files == old(disk.fs).files || disk.fs.files == old(disk.fs).files[l.schemaFile := VersionText(SCHEMA_VERSION)]
      ensures Stranded(l, orig, old(disk.fs)) ==> disk.fs == old(disk.fs)
      ensures Version(l, old(disk.fs)) >= SCHEMA_VERSION && l.marker !in old(disk.fs).files ==> disk.fs == old(disk.fs)
      ensures l.marker in old(disk.fs).files && Started(l, old(disk.fs)) ==> Advanced(l, orig, old(disk.fs), disk.fs)
      ensures l.marker in old(disk.fs).files && Started(l, old(disk.fs)) && ok ==> IsFinal(l, orig, old(disk.fs), disk.fs)
      ensures Unstarted(l, orig, old(disk.fs)) && disk.faults == old(disk.faults) ==>
        (AllAtTo(l, kept, disk.fs) <==>
           vetted && HasRequired(l, orig) && !old(disk.fs).Exists(l.dataDir) && NoneVanished(l, orig, kept))
      ensures Unstarted(l, orig, old(disk.fs)) && disk.faults == old(disk.faults) && !NoneVanished(l, orig, kept) ==>
        Stranded(l, kept, disk.fs)
      ensures Unstarted(l, orig, old(disk.fs)) && disk.faults == old(disk.faults) && AllAtTo(l, kept, disk.fs) ==>
        Quiet(l, disk.fs)
      ensures Unstarted(l, orig, old(disk.fs)) && disk.faults == old(disk.faults) ==>
        (vetted && HasRequired(l, orig) && !old(disk.fs).Exists(l.dataDir)) || (disk.fs == old(disk.fs) && kept == orig)
      ensures Quiet(l, old(disk.fs)) ==> disk.fs == old(disk.fs) && kept == orig
      ensures Unstarted(l, orig, old(disk.fs)) && ok ==> AllAtTo(l, kept, disk.fs) || old(disk.fs).Exists(l.dataDir)
      ensures Fresh(l, old(disk.fs)) && ok ==> Version(l, disk.fs) >= 2
      ensures Quiet(l, old(disk.fs)) ==> (ok <==> disk.faults == old(disk.faults))
      ensures l.marker in old(disk.fs).files && !Started(l, old(disk.fs)) ==>
        disk.fs == if ok then old(disk.fs).Drop(l.marker) else old(disk.fs)
      ensures disk.faults == old(disk.faults) ==>
        && (Quiet(l, old(disk.fs)) || Fresh(l, old(disk.fs)) || l.marker in old(disk.fs).files ==> ok)
        && (Unstarted(l, orig, old(disk.fs)) ==> (ok <==> old(disk.fs).Exists(l.dataDir) || AllAtTo(l, kept, disk.fs)))
        && (Fresh(l, old(disk.fs)) && Version(l, old(disk.fs)) < 2 ==> disk.fs.files == old(disk.fs).files[l.schemaFile := "2\n"])
      ensures disk.faults >= old(disk.faults)
    {
      kept := orig;
      var marker := disk.Probe(l.marker);
      if marker == Done {
        ok := Recover(orig);
        return;
      } else if marker == Failed {
        return false, orig;
      }
      var version := disk.ReadFile(l.schemaFile);
      if version == Unreadable {
        return false, orig;
      }
      var v := if version.Content? then ParseVersion(version.text) else 1;
      if v >= SCHEMA_VERSION {
        return true, orig;
      }
      var legacy := disk.Probe(l.sources[0].src);
      if legacy == Failed {
        return false, orig;
      }
      if Inv(l, orig, disk.fs) {
        FreshBranchNeverTaken(l, orig, disk.fs);
      }
      if legacy == NotExist || disk.fs.IsDir(l.sources[0].src) {
        VersionRoundTrip(SCHEMA_VERSION);
        VersionTwo();
        ok := disk.AtomicWrite(l.schemaFile, VersionText(SCHEMA_VERSION));
        return;
      }
      if Unstarted(l, orig, disk.fs) {
        UnstartedNotMoved(l, orig, disk.fs);
      }
      if disk.Stat(l.dataDir) {
        return true, orig;
      }
      ok, kept := Apply(vetted, orig);
      if Unstarted(l, kept, disk.fs) {
        UnstartedNotMoved(l, kept, disk.fs);
      }
      if PointersWritten(l, disk.fs) {
        VersionRoundTrip(SCHEMA_VERSION);
      }
    }

    /** The reverse loop of ApplyRollback. `unlinked` says that every unlink of an 008
        copy took effect. */
    method ReverseMoves(ghost orig: Contents) returns (ok: bool, ghost unlinked: bool)
      requires Valid() && AllSaved(l, orig, disk.fs) && NoStrayDirs(l, disk.fs)
      modifies disk
      ensures AllSaved(l, orig, disk.fs) && SameElsewhere(l, old(disk.fs), disk.fs) && disk.fs.dirs == old(disk.fs).dirs
      ensures disk.faults >= old(disk.faults)
      ensures ok ==> AllRestored(l, orig, disk.fs) && NoneBlocked(l, old(disk.fs))
      ensures ok ==> (AllAtFrom(l, orig, disk.fs) <==> unlinked)
      ensures disk.faults == old(disk.faults) ==> unlinked && (ok <==> NoneBlocked(l, old(disk.fs)))
    {
      ReversingStart(l, orig, disk.fs);
      unlinked := true;
      for i := 0 to |l.sources|
        invariant Reversing(l, orig, old(disk.fs), disk.fs, i) && NoStrayDirs(l, disk.fs)
        invariant unlinked <==> NoCopyLeft(l, disk.fs, i)
        invariant disk.faults >= old(disk.faults) && (disk.faults == old(disk.faults) ==> unlinked)
      {
        ghost var gone;
        ok, gone := ReverseOne(i, old(disk.fs), orig);
        unlinked := unlinked && gone;
        if !ok {
          return;
        }
      }
      ReversingEnds(l, orig, old(disk.fs), disk.fs);
      ok := true;
    }

    /** One file copied back and its 008 copy unlinked, best effort; a file without an
        008 copy is passed over, one that is at both paths refused. */
    method ReverseOne(i: nat, ghost start: Fs, ghost orig: Contents) returns (ok: bool, ghost gone: bool)
      requires Valid() && i < |l.sources| && Reversing(l, orig, start, disk.fs, i) && NoStrayDirs(l, disk.fs)
      modifies disk
      ensures AllSaved(l, orig, disk.fs) && SameElsewhere(l, start, disk.fs) && disk.fs.dirs == old(disk.fs).dirs
      ensures ok ==> Reversing(l, orig, start, disk.fs, i + 1) && NoStrayDirs(l, disk.fs)
      ensures ok ==> (NoCopyLeft(l, disk.fs, i + 1) <==> NoCopyLeft(l, old(disk.fs), i) && gone)
      ensures disk.faults >= old(disk.faults)
      ensures disk.faults == old(disk.faults) ==> gone && (ok <==> !Blocked(l, start, i))
    {
      DataPath(l, i);
      ghost var fs := disk.fs;
      SameFile(l, orig, start, fs, i);
      if !disk.Stat(l.sources[i].dst) {
        ReversingSkip(l, orig, start, fs, i);
        return true, true;
      }
      var link := disk.Probe(l.sources[i].dst);
      if link != Done {
        return false, true;
      }
      ok := disk.CopyFile(l.sources[i].dst, l.sources[i].src);
      if !ok {
        gone := true;
        CopyCutOff(l, orig, start, fs, disk.fs, i);
        return;
      }
      var r := disk.Remove(l.sources[i].dst);
      gone := r == Done;
      ReversingStep(l, orig, start, fs, disk.fs, i, gone);
    }

    /** ApplyRollback: back to the 007 layout, from any tree in which each file's contents
        are at one of its paths. `profiles` is the number of directories under the data
        root; `unlinked` and `unversioned` say whether the unlinks of the 008 copies and
        of the schema file took effect. */
    method ApplyRollback(profiles: nat, ghost orig: Contents) returns (ok: bool, ghost unlinked: bool, ghost unversioned: bool)
      requires Valid() && AllSaved(l, orig, disk.fs) && NoStrayDirs(l, disk.fs)
      modifies disk
      ensures AllSaved(l, orig, disk.fs) && SameBeyond(l, old(disk.fs), disk.fs)
      ensures NoStrayDirs(l, disk.fs)
      ensures ok && !dryRun ==> AllRestored(l, orig, disk.fs)
      ensures ok && !dryRun ==> (AllAtFrom(l, orig, disk.fs) <==> unlinked)
      ensures ok && !dryRun ==> (Version(l, disk.fs) == 1 <==> unversioned)
      ensures !ok || !unversioned || dryRun ==> Version(l, disk.fs) == Version(l, old(disk.fs))
      ensures ok ==> profiles == 1 && RollbackReady(l, old(disk.fs))
      ensures dryRun ==> disk.fs == old(disk.fs)
      ensures disk.faults == old(disk.faults) ==>
        ok == (profiles == 1 && Version(l, old(disk.fs)) == 2 && old(disk.fs).Exists(l.sources[0].dst)
               && !old(disk.fs).Exists(l.marker) && (dryRun || NoneBlocked(l, old(disk.fs))))
      ensures ok && !dryRun ==> NoneBlocked(l, old(disk.fs))
      ensures disk.fs.Exists(l.marker) <==> old(disk.fs).Exists(l.marker)
      ensures disk.faults >= old(disk.faults)
      ensures disk.faults == old(disk.faults) ==> unlinked && unversioned
      ensures disk.faults == old(disk.faults) && ok && !dryRun ==> l.activeFile !in disk.fs.files
    {
      unlinked, unversioned := true, true;
      var version := disk.ReadFile(l.schemaFile);
      if version == Unreadable {
        return false, true, true;
      }
      var v := if version.Content? then ParseVersion(version.text) else 1;
      if v != SCHEMA_VERSION || profiles != 1 || !disk.Stat(l.sources[0].dst) || disk.Stat(l.marker) {
        return false, true, true;
      }
      if dryRun {
        return true, true, true;
      }
      ok, unlinked := ReverseMoves(orig);
      if !ok {
        return;
      }
      unversioned := DropPointers(orig);
    }

    /** The end of ApplyRollback: every failure is ignored, also that of removing a
        directory that is not empty. */
    method DropPointers(ghost orig: Contents) returns (ghost unversioned: bool)
      requires Valid() && AllSaved(l, orig, disk.fs) && AllRestored(l, orig, disk.fs) && NoStrayDirs(l, disk.fs)
      requires Version(l, disk.fs) == SCHEMA_VERSION
      modifies disk
      ensures SameBeyond(l, old(disk.fs), disk.fs) && AgreeOn(l.DataPaths(), old(disk.fs), disk.fs)
      ensures AllSaved(l, orig, disk.fs) && AllRestored(l, orig, disk.fs) && NoStrayDirs(l, disk.fs)
      ensures AllAtFrom(l, orig, disk.fs) <==> AllAtFrom(l, orig, old(disk.fs))
      ensures Version(l, disk.fs) == if unversioned then 1 else SCHEMA_VERSION
      ensures disk.fs.Exists(l.marker) <==> old(disk.fs).Exists(l.marker)
      ensures disk.faults >= old(disk.faults)
      ensures disk.faults == old(disk.faults) ==> unversioned && l.activeFile !in disk.fs.files
    {
      ghost var before := disk.fs;
      RemoveProfileDirs();
      var schema := disk.Remove(l.schemaFile);
      var active := disk.Remove(l.activeFile);
      unversioned := schema == Done;
      Unpointed(before, disk.fs, if unversioned then {l.schemaFile} else {});
      PointersDropped(l, orig, before, disk.fs);
      PlacedFrame(l, orig, before, disk.fs);
    }

    /** Without its schema file a tree has version 1. */
    lemma Unpointed(a: Fs, b: Fs, gone: set<string>)
      requires Valid() && NoStrayDirs(l, a) && Version(l, a) == SCHEMA_VERSION && gone <= {l.schemaFile}
      requires b.files == a.files - gone || b.files == a.files - gone - {l.activeFile}
      requires b.dirs <= a.dirs
      ensures NoStrayDirs(l, b) && SameBeyond(l, a, b) && AgreeOn(l.DataPaths(), a, b)
      ensures Version(l, b) == if gone == {} then SCHEMA_VERSION else 1
      ensures b.Exists(l.marker) <==> a.Exists(l.marker)
    {
      assert l.marker in l.Managed();
    }

    /** The profile's directories, as far as they are empty. */
    method RemoveProfileDirs()
      modifies disk
      ensures disk.fs == old(disk.fs).(dirs := disk.fs.dirs) && disk.fs.dirs <= old(disk.fs).dirs
      ensures disk.faults >= old(disk.faults)
    {
      var gone := disk.RemoveDir(l.dataDir);
      gone := disk.RemoveDir(l.configDir);
      gone := disk.RemoveDir(l.stateDir);
    }
  }

  /** Any number of boots, each of which may be cut off anywhere, from a 007 tree:
      no planned file other than a checkpointed sidecar is lost. */
  method Boots(tx: MigrationTx, vetted: seq<bool>) returns (ghost kept: Contents)
    requires tx.Valid() && !tx.dryRun && Legacy(tx.l, tx.disk.fs)
    modifies tx.disk
    ensures Inv(tx.l, kept, tx.disk.fs)
    ensures Checkpointed(tx.l, ContentsAtFrom(tx.l, old(tx.disk.fs)), kept)
  {
    ghost var orig := ContentsAtFrom(tx.l, tx.disk.fs);
    LegacyInv(tx.l, tx.disk.fs);
    kept := orig;
    for i := 0 to |vetted|
      invariant Inv(tx.l, kept, tx.disk.fs) && Checkpointed(tx.l, orig, kept)
    {
      var ok;
      ghost var left;
      ok, left := tx.AutoMigrate(vetted[i], kept);
      CheckpointedTransitive(tx.l, orig, kept, left);
      kept := left;
    }
  }

  /** A quiet tree stays exactly as it is, however many boots follow, and as long as no
      call fails each of them reports success. */
  method QuietStays(tx: MigrationTx, vetted: seq<bool>, ghost orig: Contents) returns (oks: seq<bool>)
    requires tx.Valid() && !tx.dryRun && Quiet(tx.l, tx.disk.fs)
    modifies tx.disk
    ensures tx.disk.fs == old(tx.disk.fs) && tx.disk.faults >= old(tx.disk.faults)
    ensures |oks| == |vetted| && (tx.disk.faults == old(tx.disk.faults) ==> false !in oks)
  {
    oks := [];
    for i := 0 to |vetted|
      invariant tx.disk.fs == old(tx.disk.fs) && tx.disk.faults >= old(tx.disk.faults)
      invariant |oks| == i && (tx.disk.faults == old(tx.disk.faults) ==> false !in oks)
    {
      var ok;
      ghost var left;
      ok, left := tx.AutoMigrate(vetted[i], orig);
      oks := oks + [ok];
    }
  }

  /** Boots without a failing call, from the 007 tree `start`: nothing has happened, or
      everything has moved, or the tree is the 007 tree for good. */
  ghost predicate Booted(l: Layout, orig: Contents, start: Fs, kept: Contents, fs: Fs, tried: bool) {
    if !(tried && HasRequired(l, orig) && !start.Exists(l.dataDir)) then fs == start && kept == orig
    else if NoneVanished(l, orig, kept) then AllAtTo(l, kept, fs) && Quiet(l, fs)
    else Stranded(l, kept, fs)
  }

  lemma BootedMeans(l: Layout, orig: Contents, start: Fs, kept: Contents, fs: Fs, tried: bool)
    requires Unstarted(l, orig, start) && Booted(l, orig, start, kept, fs, tried)
    ensures AllAtTo(l, kept, fs) || AllAtFrom(l, kept, fs)
    ensures AllAtTo(l, kept, fs)
       <==> tried && HasRequired(l, orig) && !start.Exists(l.dataDir) && NoneVanished(l, orig, kept)
  {
    if Unstarted(l, kept, fs) {
      UnstartedNotMoved(l, kept, fs);
    }
  }

  /** What boot `i` answers when no call fails: it has nothing to do, or finishes the
      migration. */
  ghost predicate Answer(l: Layout, orig: Contents, start: Fs, kept: Contents, vetted: seq<bool>, i: nat)
    requires i < |vetted|
  {
    || start.Exists(l.dataDir)
    || (HasRequired(l, orig) && (true in vetted[..i] || (vetted[i] && NoneVanished(l, orig, kept))))
  }

  ghost predicate Answers(l: Layout, orig: Contents, start: Fs, kept: Contents, vetted: seq<bool>, oks: seq<bool>) {
    |oks| <= |vetted| && forall i: nat | i < |oks| :: oks[i] <==> Answer(l, orig, start, kept, vetted, i)
  }

  lemma AnswersMore(l: Layout, orig: Contents, start: Fs, now: Contents, kept: Contents, vetted: seq<bool>, oks: seq<bool>, ok: bool)
    requires |oks| < |vetted| && Answers(l, orig, start, now, vetted, oks)
    requires ok <==> Answer(l, orig, start, kept, vetted, |oks|)
    requires true in vetted[..|oks|] ==> kept == now
    ensures Answers(l, orig, start, kept, vetted, oks + [ok])
  {
    forall i: nat | i < |oks| && !(true in vetted[..|oks|])
      ensures !(true in vetted[..i]) && !vetted[i]
    {
      assert vetted[..|oks|][i] == vetted[i];
      assert vetted[..i] <= vetted[..|oks|];
    }
  }

  /** One more boot. */
  method BootOnce(tx: MigrationTx, vetted: bool, ghost tried: bool, ghost start: Fs, ghost orig: Contents, ghost now: Contents)
    returns (ok: bool, ghost kept: Contents)
    requires tx.Valid() && !tx.dryRun && Unstarted(tx.l, orig, start) && Inv(tx.l, now, tx.disk.fs)
    modifies tx.disk
    ensures Inv(tx.l, kept, tx.disk.fs) && Checkpointed(tx.l, now, kept)
    ensures tx.disk.faults >= old(tx.disk.faults)
    ensures Booted(tx.l, orig, start, now, old(tx.disk.fs), tried) && tx.disk.faults == old(tx.disk.faults) ==>
      && Booted(tx.l, orig, start, kept, tx.disk.fs, tried || vetted)
      && (tried ==> kept == now)
      && ok == (start.Exists(tx.l.dataDir) || (HasRequired(tx.l, orig) && (tried || (vetted && NoneVanished(tx.l, orig, kept)))))
  {
    if Unstarted(tx.l, now, tx.disk.fs) && tx.disk.fs.Exists(tx.l.dataDir) {
      StrandedIsQuiet(tx.l, now, tx.disk.fs);
    }
    ok, kept := tx.AutoMigrate(vetted, now);
    if Unstarted(tx.l, kept, tx.disk.fs) {
      UnstartedNotMoved(tx.l, kept, tx.disk.fs);
    }
  }

  lemma TriedMore(vetted: seq<bool>, i: nat)
    requires i < |vetted|
    ensures true in vetted[..i + 1] <==> true in vetted[..i] || vetted[i]
    ensures vetted[..|vetted|] == vetted
  {
    assert vetted[..i + 1] == vetted[..i] + [vetted[i]];
  }

  /** Any number of boots from a 007 tree, none with a failing call: the files are at the
      008 paths in the end if and only if some boot found them fit to be moved, nothing
      required is missing, no profile directory was there, and no checkpoint took a planned
      sidecar; they are all at the 007 paths otherwise. Each boot reports success exactly
      when it had nothing to do or finished the migration. */
  method FaultlessBoots(tx: MigrationTx, vetted: seq<bool>, ghost orig: Contents) returns (oks: seq<bool>, ghost kept: Contents)
    requires tx.Valid() && !tx.dryRun && Unstarted(tx.l, orig, tx.disk.fs)
    modifies tx.disk
    ensures Inv(tx.l, kept, tx.disk.fs) && Checkpointed(tx.l, orig, kept)
    ensures tx.disk.faults == old(tx.disk.faults) ==>
      (AllAtTo(tx.l, kept, tx.disk.fs)
       <==> true in vetted && HasRequired(tx.l, orig) && !old(tx.disk.fs).Exists(tx.l.dataDir)
            && NoneVanished(tx.l, orig, kept))
    ensures tx.disk.faults == old(tx.disk.faults) ==> AllAtTo(tx.l, kept, tx.disk.fs) || AllAtFrom(tx.l, kept, tx.disk.fs)
    ensures |oks| == |vetted|
    ensures tx.disk.faults == old(tx.disk.faults) ==> Answers(tx.l, orig, old(tx.disk.fs), kept, vetted, oks)
    ensures tx.disk.faults >= old(tx.disk.faults)
  {
    ghost var start := tx.disk.fs;
    kept, oks := orig, [];
    ghost var tried := false;
    for i := 0 to |vetted|
      invariant Inv(tx.l, kept, tx.disk.fs) && Checkpointed(tx.l, orig, kept)
      invariant tx.disk.faults >= old(tx.disk.faults) && (tried <==> true in vetted[..i]) && |oks| == i
      invariant tx.disk.faults == old(tx.disk.faults) ==>
        Booted(tx.l, orig, start, kept, tx.disk.fs, tried) && Answers(tx.l, orig, start, kept, vetted, oks)
    {
      ghost var now := kept;
      var ok;
      ok, kept := BootOnce(tx, vetted[i], tried, start, orig, now);
      CheckpointedTransitive(tx.l, orig, now, kept);
      TriedMore(vetted, i);
      if tx.disk.faults == old(tx.disk.faults) {
        AnswersMore(tx.l, orig, start, now, kept, vetted, oks, ok);
      }
      oks := oks + [ok];
      tried := tried || vetted[i];
    }
    if tx.disk.faults == old(tx.disk.faults) {
      BootedMeans(tx.l, orig, start, kept, tx.disk.fs, tried);
    }
  }

  /** The same, with what a profile directory does: it keeps the tree as it is, failing
      calls or not. */
  method BootsFromStart(tx: MigrationTx, vetted: seq<bool>, ghost orig: Contents) returns (oks: seq<bool>, ghost kept: Contents)
    requires tx.Valid() && !tx.dryRun && Unstarted(tx.l, orig, tx.disk.fs)
    modifies tx.disk
    ensures Inv(tx.l, kept, tx.disk.fs)
    ensures tx.disk.faults == old(tx.disk.faults) ==>
      (AllAtTo(tx.l, kept, tx.disk.fs)
       <==> true in vetted && HasRequired(tx.l, orig) && !old(tx.disk.fs).Exists(tx.l.dataDir) && NoneVanished(tx.l, orig, kept))
    ensures old(tx.disk.fs).Exists(tx.l.dataDir) ==> tx.disk.fs == old(tx.disk.fs)
    ensures |oks| == |vetted|
    ensures tx.disk.faults == old(tx.disk.faults) ==> Answers(tx.l, orig, old(tx.disk.fs), kept, vetted, oks)
    ensures tx.disk.faults >= old(tx.disk.faults)
  {
    if tx.disk.Stat(tx.l.dataDir) {
      kept := orig;
      UnstartedNotMoved(tx.l, orig, tx.disk.fs);
      StrandedIsQuiet(tx.l, orig, tx.disk.fs);
      oks := QuietStays(tx, vetted, orig);
    } else {
      oks, kept := FaultlessBoots(tx, vetted, orig);
    }
  }

  /** A first boot during which no call fails, but whose checkpoint takes a planned
      sidecar away, and any number of boots after it: the tree is the 007 tree for good,
      and the migration never happens. */
  method VanishedNeverMigrates(tx: MigrationTx, vetted: bool, later: seq<bool>, ghost orig: Contents)
    returns (ghost kept: Contents, ghost vanished: bool)
    requires tx.Valid() && !tx.dryRun && Unstarted(tx.l, orig, tx.disk.fs)
    modifies tx.disk
    ensures vanished ==> Stranded(tx.l, kept, tx.disk.fs) && Checkpointed(tx.l, orig, kept)
    ensures !HasSidecar(tx.l, orig) ==> !vanished
  {
    ghost var faults := tx.disk.faults;
    var ok;
    ok, kept := tx.AutoMigrate(vetted, orig);
    vanished := tx.disk.faults == faults && !NoneVanished(tx.l, orig, kept);
    if !HasSidecar(tx.l, orig) {
      NoSidecarNoneVanished(tx.l, orig, kept);
    }
    for i := 0 to |later|
      invariant vanished ==> Stranded(tx.l, kept, tx.disk.fs)
      invariant Checkpointed(tx.l, orig, kept)
      invariant Inv(tx.l, kept, tx.disk.fs) || vanished
    {
      if vanished {
        StrandedIsQuiet(tx.l, kept, tx.disk.fs);
      }
      ghost var left;
      ok, left := tx.AutoMigrate(later[i], kept);
      if !vanished {
        CheckpointedTransitive(tx.l, orig, kept, left);
        kept := left;
      }
    }
  }

  /** Recover again and again, each attempt cut off anywhere, until one completes: the
      files are then those that one uninterrupted Recover from the first state leaves. */
  method Recoveries(tx: MigrationTx, attempts: nat, ghost orig: Contents) returns (done: bool)
    requires tx.Valid() && Inv(tx.l, orig, tx.disk.fs)
    requires tx.l.marker in tx.disk.fs.files && Started(tx.l, tx.disk.fs)
    modifies tx.disk
    ensures Inv(tx.l, orig, tx.disk.fs)
    ensures done ==> IsFinal(tx.l, orig, old(tx.disk.fs), tx.disk.fs)
    ensures done ==> forall direct | IsFinal(tx.l, orig, old(tx.disk.fs), direct) :: direct.files == tx.disk.fs.files
    ensures !done ==> tx.l.marker in tx.disk.fs.files && Started(tx.l, tx.disk.fs)
    ensures attempts > 0 && tx.disk.faults == old(tx.disk.faults) ==> done
  {
    ghost var start := tx.disk.fs;
    AdvancedRefl(tx.l, orig, start);
    done := false;
    for i := 0 to attempts
      invariant !done && Inv(tx.l, orig, tx.disk.fs) && tx.l.marker in tx.disk.fs.files
      invariant Advanced(tx.l, orig, start, tx.disk.fs) && Started(tx.l, tx.disk.fs)
      invariant tx.disk.faults >= old(tx.disk.faults) && (i > 0 ==> tx.disk.faults > old(tx.disk.faults))
    {
      ghost var before := tx.disk.fs;
      done := tx.Recover(orig);
      AdvancedTransitive(tx.l, orig, start, before, tx.disk.fs);
      if done {
        FinalDetermined(tx.l, orig, start, tx.disk.fs);
        return;
      }
      AdvancedKeepsStarted(tx.l, orig, before, tx.disk.fs);
    }
  }

  /** ApplyRollback, wherever it stops short of dropping the schema file, and any number
      of boots after it: the boots see version 2 and change nothing, so the tree stays as
      the rollback left it. */
  method BootsAfterRollback(tx: MigrationTx, profiles: nat, vetted: seq<bool>, ghost orig: Contents)
    returns (ok: bool, ghost unversioned: bool, ghost left: Fs)
    requires tx.Valid() && !tx.dryRun && RollbackReady(tx.l, tx.disk.fs)
    requires AllAtTo(tx.l, orig, tx.disk.fs) && NoStrayDirs(tx.l, tx.disk.fs)
    modifies tx.disk
    ensures AllSaved(tx.l, orig, left) && SameBeyond(tx.l, old(tx.disk.fs), left)
    ensures ok ==> AllRestored(tx.l, orig, left)
    ensures !ok || !unversioned ==> tx.disk.fs == left && Version(tx.l, left) == SCHEMA_VERSION
  {
    MovedIsSaved(tx.l, orig, tx.disk.fs);
    ghost var unlinked;
    ok, unlinked, unversioned := tx.ApplyRollback(profiles, orig);
    left := tx.disk.fs;
    if Version(tx.l, tx.disk.fs) == SCHEMA_VERSION {
      var oks := QuietStays(tx, vetted, orig);
    }
  }

  /** No schema version and no file at an 008 path. */
  predicate Unmigrated(l: Layout, fs: Fs) { Version(l, fs) == 1 && forall s <- l.sources :: s.dst !in fs.files }

  /** What a rollback leaves whose unlinks all took effect is a 007 tree. */
  lemma RolledBack(l: Layout, orig: Contents, before: Fs, fs: Fs)
    requires l.Valid() && RollbackReady(l, before) && AllSaved(l, orig, before) && NoStrayDirs(l, before)
    requires AllRestored(l, orig, fs) && NoStrayDirs(l, fs) && !fs.Exists(l.marker) && Unmigrated(l, fs)
    ensures Unstarted(l, orig, fs)
  {
    DataPath(l, 0);
    assert Saved(l, orig, before, 0);
    BackExactly(l, orig, fs);
  }

  lemma UnlinkedUnmigrated(l: Layout, orig: Contents, fs: Fs)
    requires AllAtFrom(l, orig, fs) && Version(l, fs) == 1
    ensures Unmigrated(l, fs)
  {
    forall s <- l.sources
      ensures s.dst !in fs.files
    {
      var i: nat :| i < |l.sources| && l.sources[i] == s;
      assert AtFrom(l, orig, fs, i);
    }
  }

  /** A rollback that gives a 007 tree back, as one without failing calls does. */
  method RollBackFully(tx: MigrationTx, profiles: nat, ghost orig: Contents) returns (full: bool)
    requires tx.Valid() && !tx.dryRun && RollbackReady(tx.l, tx.disk.fs)
    requires AllAtTo(tx.l, orig, tx.disk.fs) && NoStrayDirs(tx.l, tx.disk.fs)
    modifies tx.disk
    ensures full ==> Unstarted(tx.l, orig, tx.disk.fs)
    ensures tx.disk.faults >= old(tx.disk.faults)
    ensures profiles == 1 && HomesThere(tx.l, orig, old(tx.disk.fs).dirs) && tx.disk.faults == old(tx.disk.faults) ==> full
  {
    MovedIsSaved(tx.l, orig, tx.disk.fs);
    ghost var before := tx.disk.fs;
    ghost var unlinked, unversioned;
    full, unlinked, unversioned := tx.ApplyRollback(profiles, orig);
    if full && unlinked && unversioned {
      UnlinkedUnmigrated(tx.l, orig, tx.disk.fs);
    }
    full := full && Unmigrated(tx.l, tx.disk.fs);
    if full {
      RolledBack(tx.l, orig, before, tx.disk.fs);
    }
  }

  /** Such a rollback and any number of boots after it: when no call of the boots fails,
      they migrate the tree again if and only if FaultlessBoots says so. A profile
      directory that was not empty, and so outlived the rollback, keeps the tree as it is
      for good, failing calls or not. */
  method BootsAfterFullRollback(tx: MigrationTx, profiles: nat, vetted: seq<bool>, ghost orig: Contents)
    returns (full: bool, ghost left: Fs, ghost quietly: bool, ghost kept: Contents)
    requires tx.Valid() && !tx.dryRun && RollbackReady(tx.l, tx.disk.fs)
    requires AllAtTo(tx.l, orig, tx.disk.fs) && NoStrayDirs(tx.l, tx.disk.fs)
    modifies tx.disk
    ensures profiles == 1 && HomesThere(tx.l, orig, old(tx.disk.fs).dirs) && tx.disk.faults == old(tx.disk.faults) ==>
      full && quietly
    ensures full ==> Unstarted(tx.l, orig, left) && Inv(tx.l, kept, tx.disk.fs)
    ensures full && quietly ==>
      (AllAtTo(tx.l, kept, tx.disk.fs)
       <==> true in vetted && HasRequired(tx.l, orig) && !left.Exists(tx.l.dataDir) && NoneVanished(tx.l, orig, kept))
    ensures full && left.Exists(tx.l.dataDir) ==> tx.disk.fs == left
  {
    full := RollBackFully(tx, profiles, orig);
    left, quietly, kept := tx.disk.fs, true, orig;
    if full {
      ghost var faults := tx.disk.faults;
      var oks;
      oks, kept := BootsFromStart(tx, vetted, orig);
      quietly := tx.disk.faults == faults;
    }
  }

  /** A rollback, cut off anywhere, and then a second one. Without a failing call the
      second one succeeds exactly when session.db has not been moved back yet and no file
      is at both of its paths; it is refused otherwise, and loses nothing. */
  method RollBackAgain(tx: MigrationTx, profiles: nat, ghost orig: Contents)
    returns (ok: bool, again: bool, ghost between: Fs, ghost quietly: bool)
    requires tx.Valid() && !tx.dryRun && AllAtTo(tx.l, orig, tx.disk.fs) && NoStrayDirs(tx.l, tx.disk.fs)
    requires RollbackReady(tx.l, tx.disk.fs) && profiles == 1
    modifies tx.disk
    ensures AllSaved(tx.l, orig, tx.disk.fs)
    ensures !ok && quietly ==>
      (again <==> tx.l.sources[0].dst in between.files && NoneBlocked(tx.l, between))
    ensures !ok && quietly && again ==> AllAtFrom(tx.l, orig, tx.disk.fs) && Version(tx.l, tx.disk.fs) == 1
  {
    MovedIsSaved(tx.l, orig, tx.disk.fs);
    ghost var unlinked, unversioned;
    ok, unlinked, unversioned := tx.ApplyRollback(profiles, orig);
    between, again, quietly := tx.disk.fs, false, false;
    if !ok {
      DataPath(tx.l, 0);
      ghost var faults := tx.disk.faults;
      again, unlinked, unversioned := tx.ApplyRollback(profiles, orig);
      quietly := tx.disk.faults == faults;
    }
  }

  /** Apply then ApplyRollback, with no failing call and no vanished sidecar: all
      managed files are back, with the contents that the checkpoint left, and the
      effective schema version is 1. */
  method MigrateAndRollBack(tx: MigrationTx, ghost orig: Contents)
    returns (applied: bool, undone: bool, ghost kept: Contents)
    requires tx.Valid() && !tx.dryRun && Unstarted(tx.l, orig, tx.disk.fs)
    modifies tx.disk
    ensures HasRequired(tx.l, orig) && NoneVanished(tx.l, orig, kept) && tx.disk.faults == old(tx.disk.faults) ==>
      && applied && undone && Checkpointed(tx.l, orig, kept)
      && AllAtFrom(tx.l, kept, tx.disk.fs) && Version(tx.l, tx.disk.fs) == 1
      && (kept == orig ==> AgreeOn(tx.l.DataPaths(), old(tx.disk.fs), tx.disk.fs))
  {
    ghost var before, faults := tx.disk.fs, tx.disk.faults;
    applied, kept := tx.Apply(true, orig);
    undone := false;
    if applied {
      ghost var unlinked, unversioned;
      StartHomes(tx.l, orig, before);
      HomesKept(tx.l, orig, kept, before.dirs, tx.disk.fs.dirs);
      MovedIsSaved(tx.l, kept, tx.disk.fs);
      VersionRoundTrip(SCHEMA_VERSION);
      assert tx.disk.faults == faults ==> RollbackReady(tx.l, tx.disk.fs) by {
        assert AtTo(tx.l, kept, tx.disk.fs, 0);
      }
      undone, unlinked, unversioned := tx.ApplyRollback(1, kept);
      if kept == orig && AllAtFrom(tx.l, orig, tx.disk.fs) {
        RollbackRestores(tx.l, orig, before, tx.disk.fs);
      }
    }
  }
}
