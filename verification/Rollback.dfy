/** The state of the files during ApplyRollback, which copies each file back and then
    unlinks its 008 copy (cmd/wad/migrate.go). In between the contents are at both paths,
    and a copy that is cut off leaves part of them at the 007 path, so the migration's
    invariant does not hold here: what does is that each file's contents are at one of
    its two paths. */
module Rollback {
  import opened Text
  import opened Disk
  import opened Layout

  /** The contents are at the 007 path or at the 008 path, or at both. */
  ghost predicate Saved(l: Layout, orig: Contents, fs: Fs, i: nat)
    requires i < |l.sources|
  {
    var s := l.sources[i];
    if s.src in orig then
      || (s.src in fs.files && fs.files[s.src] == orig[s.src])
      || (s.dst in fs.files && fs.files[s.dst] == orig[s.src])
    else s.src !in fs.files && s.dst !in fs.files
  }

  ghost predicate AllSaved(l: Layout, orig: Contents, fs: Fs) {
    forall i: nat | i < |l.sources| :: Saved(l, orig, fs, i)
  }

  /** The contents are back at the 007 path. */
  ghost predicate Restored(l: Layout, orig: Contents, fs: Fs, i: nat)
    requires i < |l.sources|
  {
    var s := l.sources[i];
    && (s.src in fs.files <==> s.src in orig)
    && (s.src in orig ==> fs.files[s.src] == orig[s.src])
  }

  ghost predicate AllRestored(l: Layout, orig: Contents, fs: Fs) {
    forall i: nat | i < |l.sources| :: Restored(l, orig, fs, i)
  }

  /** Not to be copied back: at both paths, as a cut-off rollback leaves the file it was
      busy with, or without the 007 directory. */
  ghost predicate Blocked(l: Layout, fs: Fs, i: nat)
    requires i < |l.sources|
  {
    l.sources[i].dst in fs.files && (l.sources[i].src in fs.files || Dir(l.sources[i].src) !in fs.dirs)
  }

  ghost predicate NoneBlocked(l: Layout, fs: Fs) { forall i: nat | i < |l.sources| :: !Blocked(l, fs, i) }

  /** Nothing is left at an 008 path. */
  ghost predicate NoCopyLeft(l: Layout, fs: Fs, n: nat) {
    forall i: nat | i < n && i < |l.sources| :: l.sources[i].dst !in fs.files
  }

  /** Every file's 007 directory is there. */
  ghost predicate HomesThere(l: Layout, orig: Contents, dirs: set<string>) {
    forall i: nat | i < |l.sources| && l.sources[i].src in orig :: Dir(l.sources[i].src) in dirs
  }

  lemma MovedIsSaved(l: Layout, orig: Contents, fs: Fs)
    requires AllAtTo(l, orig, fs)
    ensures AllSaved(l, orig, fs) && (HomesThere(l, orig, fs.dirs) ==> NoneBlocked(l, fs))
  {
    forall i: nat | i < |l.sources|
      ensures Saved(l, orig, fs, i) && (HomesThere(l, orig, fs.dirs) ==> !Blocked(l, fs, i))
    {
      assert AtTo(l, orig, fs, i);
    }
  }

  /** Back with no copy left is back exactly. */
  lemma BackExactly(l: Layout, orig: Contents, fs: Fs)
    requires AllRestored(l, orig, fs)
    ensures AllAtFrom(l, orig, fs) <==> NoCopyLeft(l, fs, |l.sources|)
  {
    forall i: nat | i < |l.sources|
      ensures AtFrom(l, orig, fs, i) <==> l.sources[i].dst !in fs.files
    {
      assert Restored(l, orig, fs, i);
    }
    if AllAtFrom(l, orig, fs) {
      assert forall i: nat | i < |l.sources| :: AtFrom(l, orig, fs, i);
    }
  }

  /** File `i` is as it was. */
  ghost predicate Same(l: Layout, a: Fs, b: Fs, i: nat)
    requires i < |l.sources|
  {
    AgreeOn({l.sources[i].src, l.sources[i].dst}, a, b)
  }

  lemma SameFile(l: Layout, orig: Contents, a: Fs, b: Fs, i: nat)
    requires i < |l.sources| && Same(l, a, b, i)
    ensures Saved(l, orig, a, i) <==> Saved(l, orig, b, i)
    ensures Restored(l, orig, a, i) <==> Restored(l, orig, b, i)
    ensures a.dirs == b.dirs ==> (Blocked(l, a, i) <==> Blocked(l, b, i))
    ensures l.sources[i].dst in a.files <==> l.sources[i].dst in b.files
  {}

  /** The reverse loop before entry `i`. */
  ghost predicate Reversing(l: Layout, orig: Contents, start: Fs, fs: Fs, i: nat) {
    && AllSaved(l, orig, fs)
    && SameElsewhere(l, start, fs) && fs.dirs == start.dirs
    && (forall j: nat | j < i && j < |l.sources| :: Restored(l, orig, fs, j) && !Blocked(l, start, j))
    && (forall j: nat | i <= j < |l.sources| :: Same(l, start, fs, j))
  }

  lemma ReversingStart(l: Layout, orig: Contents, fs: Fs)
    requires AllSaved(l, orig, fs)
    ensures Reversing(l, orig, fs, fs, 0)
  {}

  lemma ReversingEnds(l: Layout, orig: Contents, start: Fs, fs: Fs)
    requires Reversing(l, orig, start, fs, |l.sources|)
    ensures AllRestored(l, orig, fs) && NoneBlocked(l, start)
    ensures AllAtFrom(l, orig, fs) <==> NoCopyLeft(l, fs, |l.sources|)
  {
    forall i: nat | i < |l.sources|
      ensures Restored(l, orig, fs, i) && !Blocked(l, start, i)
    {
      assert Restored(l, orig, fs, i);
    }
    BackExactly(l, orig, fs);
  }

  lemma ReversingSkip(l: Layout, orig: Contents, start: Fs, fs: Fs, i: nat)
    requires i < |l.sources| && Reversing(l, orig, start, fs, i)
    requires l.sources[i].dst !in fs.files
    ensures Reversing(l, orig, start, fs, i + 1)
    ensures NoCopyLeft(l, fs, i + 1) <==> NoCopyLeft(l, fs, i)
  {
    assert Saved(l, orig, fs, i) && Same(l, start, fs, i);
    SameFile(l, orig, start, fs, i);
    CopyLeftStep(l, fs, fs, i);
  }

  /** Writing at one file's paths leaves the other files as they were. */
  lemma OtherFileSame(l: Layout, a: Fs, b: Fs, i: nat, j: nat)
    requires l.Valid() && i < |l.sources| && j < |l.sources| && i != j
    requires AgreeOn(l.DataPaths() - {l.sources[i].src, l.sources[i].dst}, a, b)
    ensures Same(l, a, b, j)
  {
    DataPath(l, j);
    Distinct(l, i, j);
    Distinct(l, j, i);
  }

  lemma SameTransitive(l: Layout, a: Fs, b: Fs, c: Fs, i: nat)
    requires i < |l.sources| && Same(l, a, b, i) && Same(l, b, c, i)
    ensures Same(l, a, c, i)
  {}

  /** In the middle of copying file `i` back, whatever prefix is written, every file's
      contents are still at one of its paths. */
  lemma ReversingCopied(l: Layout, orig: Contents, start: Fs, fs: Fs, i: nat, part: string)
    requires l.Valid() && i < |l.sources| && Reversing(l, orig, start, fs, i)
    requires l.sources[i].src !in fs.files && l.sources[i].dst in fs.files
    ensures AllSaved(l, orig, fs.Put(l.sources[i].src, part))
    ensures SameElsewhere(l, start, fs.Put(l.sources[i].src, part))
  {
    var fs' := fs.Put(l.sources[i].src, part);
    DataPath(l, i);
    Distinct(l, i, i);
    forall j: nat | j < |l.sources|
      ensures Saved(l, orig, fs', j)
    {
      assert Saved(l, orig, fs, j);
      if j != i {
        OtherFileSame(l, fs, fs', i, j);
        SameFile(l, orig, fs, fs', j);
      }
    }
  }

  /** A copy that did not complete. */
  lemma CopyCutOff(l: Layout, orig: Contents, start: Fs, fs: Fs, fs': Fs, i: nat)
    requires l.Valid() && i < |l.sources| && Reversing(l, orig, start, fs, i) && l.sources[i].dst in fs.files
    requires fs' == fs || (l.sources[i].src !in fs.files && exists part :: fs' == fs.Put(l.sources[i].src, part))
    ensures AllSaved(l, orig, fs') && SameElsewhere(l, start, fs') && fs'.dirs == start.dirs
  {
    if fs' != fs {
      var part :| fs' == fs.Put(l.sources[i].src, part);
      ReversingCopied(l, orig, start, fs, i, part);
    }
  }

  lemma SavedFrame(l: Layout, orig: Contents, a: Fs, b: Fs, i: nat)
    requires i < |l.sources| && AgreeOn(l.DataPaths(), a, b)
    ensures Saved(l, orig, a, i) <==> Saved(l, orig, b, i)
    ensures Restored(l, orig, a, i) <==> Restored(l, orig, b, i)
  {
    DataPath(l, i);
  }

  /** Removing directories, schema version and active profile touches no data file. */
  lemma PointersDropped(l: Layout, orig: Contents, a: Fs, b: Fs)
    requires AllSaved(l, orig, a) && AllRestored(l, orig, a) && AgreeOn(l.DataPaths(), a, b)
    ensures AllSaved(l, orig, b) && AllRestored(l, orig, b)
  {
    forall i: nat | i < |l.sources|
      ensures Restored(l, orig, b, i) && Saved(l, orig, b, i)
    {
      assert Restored(l, orig, a, i) && Saved(l, orig, a, i);
      SavedFrame(l, orig, a, b, i);
    }
  }

  /** `b` is `a` with file `i` copied back, its 008 copy unlinked or not. */
  ghost predicate Back(l: Layout, a: Fs, b: Fs, i: nat, removed: bool)
    requires i < |l.sources| && l.sources[i].dst in a.files
  {
    var put := a.Put(l.sources[i].src, a.files[l.sources[i].dst]);
    b == if removed then put.Drop(l.sources[i].dst) else put
  }

  lemma BackOwn(l: Layout, orig: Contents, fs: Fs, fs': Fs, i: nat, removed: bool)
    requires l.Valid() && i < |l.sources| && Saved(l, orig, fs, i)
    requires l.sources[i].src !in fs.files && l.sources[i].dst in fs.files && Back(l, fs, fs', i, removed)
    ensures Saved(l, orig, fs', i) && Restored(l, orig, fs', i)
    ensures l.sources[i].dst in fs'.files <==> !removed
    ensures AgreeOn(l.DataPaths() - {l.sources[i].src, l.sources[i].dst}, fs, fs')
    ensures SameElsewhere(l, fs, fs') && fs'.dirs == fs.dirs
  {
    DataPath(l, i);
    Distinct(l, i, i);
  }

  lemma BackOther(l: Layout, orig: Contents, start: Fs, fs: Fs, fs': Fs, i: nat, j: nat)
    requires l.Valid() && i < |l.sources| && j < |l.sources| && i != j
    requires Reversing(l, orig, start, fs, i)
    requires AgreeOn(l.DataPaths() - {l.sources[i].src, l.sources[i].dst}, fs, fs')
    ensures Saved(l, orig, fs', j) && (l.sources[j].dst in fs'.files <==> l.sources[j].dst in fs.files)
    ensures j < i ==> Restored(l, orig, fs', j) && !Blocked(l, start, j)
    ensures i < j ==> Same(l, start, fs', j)
  {
    assert Saved(l, orig, fs, j);
    OtherFileSame(l, fs, fs', i, j);
    SameFile(l, orig, fs, fs', j);
    if i < j {
      SameTransitive(l, start, fs, fs', j);
    }
  }

  lemma ReversingStep(l: Layout, orig: Contents, start: Fs, fs: Fs, fs': Fs, i: nat, removed: bool)
    requires l.Valid() && i < |l.sources| && Reversing(l, orig, start, fs, i)
    requires l.sources[i].src !in fs.files && l.sources[i].dst in fs.files && Back(l, fs, fs', i, removed)
    requires Dir(l.sources[i].src) in fs.dirs
    ensures Reversing(l, orig, start, fs', i + 1)
    ensures NoCopyLeft(l, fs', i + 1) <==> NoCopyLeft(l, fs, i) && removed
  {
    assert Saved(l, orig, fs, i) && Same(l, start, fs, i);
    SameFile(l, orig, start, fs, i);
    BackOwn(l, orig, fs, fs', i, removed);
    forall j: nat | j < |l.sources| && j != i
      ensures Saved(l, orig, fs', j) && (l.sources[j].dst in fs'.files <==> l.sources[j].dst in fs.files)
      ensures j < i ==> Restored(l, orig, fs', j) && !Blocked(l, start, j)
      ensures i < j ==> Same(l, start, fs', j)
    {
      BackOther(l, orig, start, fs, fs', i, j);
    }
    CopyLeftStep(l, fs, fs', i);
  }

  lemma CopyLeftStep(l: Layout, fs: Fs, fs': Fs, i: nat)
    requires i < |l.sources|
    requires forall j: nat | j < i :: l.sources[j].dst in fs'.files <==> l.sources[j].dst in fs.files
    ensures NoCopyLeft(l, fs', i + 1) <==> NoCopyLeft(l, fs, i) && l.sources[i].dst !in fs'.files
  {
    if NoCopyLeft(l, fs', i + 1) {
      assert l.sources[i].dst !in fs'.files;
    }
  }

  /** The map from path to contents of the managed files is a function of what was
      there: two trees with everything at the 007 paths agree on them. */
  lemma RollbackRestores(l: Layout, orig: Contents, before: Fs, after: Fs)
    requires AllAtFrom(l, orig, before) && AllAtFrom(l, orig, after)
    ensures AgreeOn(l.DataPaths(), before, after)
  {
    forall p | p in l.DataPaths()
      ensures (p in before.files <==> p in after.files) && (p in before.files ==> before.files[p] == after.files[p])
    {
      var s :| s in l.sources && (p == s.src || p == s.dst);
      var i: nat :| i < |l.sources| && l.sources[i] == s;
      assert AtFrom(l, orig, before, i) && AtFrom(l, orig, after, i);
    }
  }
}
