/** A filesystem as a map from path to contents plus a set of directories, and the
    system calls the migration makes on it.

    Every write may fail. A power cut is a run whose remaining writes all fail, so
    a contract that holds for every pattern of failures holds at every point where
    the process can die. `faults` counts the calls that failed although nothing on
    the disk forced them to. Renames are atomic, need the target's
    directory, and `Stat` tells the truth. */
module Disk {
  import opened Text

  datatype Fs = Fs(files: map<string, string>, dirs: set<string>) {
    predicate Exists(p: string) { p in files || p in dirs }

    predicate IsDir(p: string) { p in dirs && p !in files }

    /** Every file lies in a directory that exists. */
    predicate Rooted() { forall f <- files :: Dir(f) in dirs }

    /** Nothing lies in directory `p`. */
    predicate Empty(p: string) {
      (forall f <- files :: Dir(f) != p) && (forall d <- dirs :: d != p ==> Dir(d) != p)
    }

    function Put(p: string, content: string): Fs { this.(files := files[p := content]) }

    function Drop(p: string): Fs { this.(files := files - {p}) }

    /** rename(2) */
    function Move(from: string, to: string): Fs
      requires from in files
    {
      this.(files := (files - {from})[to := files[from]])
    }
  }

  type Tree = fs: Fs | fs.Rooted() witness Fs(map[], {})

  /** Result of a call that distinguishes "not there" from other errors. */
  datatype Outcome = Done | NotExist | Failed

  datatype ReadResult = Content(text: string) | Missing | Unreadable

  /** filepath.Dir */
  function Dir(p: string): string {
    if p == "" then "." else if p[|p| - 1] == '/' then p[..|p| - 1] else Dir(p[..|p| - 1])
  }

  /** The directories MkdirAll(p) leaves behind. */
  function Ancestors(p: string): set<string> {
    {p} + set k | 0 < k < |p| && p[k] == '/' :: p[..k]
  }

  class Disk {
    var fs: Tree
    ghost var faults: nat

    constructor (fs: Tree)
      ensures this.fs == fs && faults == 0
    {
      this.fs := fs;
      faults := 0;
    }

    /** Whether the next call fails for no reason on the disk: the one place where the
        environment has a choice. */
    method Fails() returns (fails: bool)
      modifies this`faults
      ensures faults == old(faults) + (if fails then 1 else 0)
    {
      fails := *;
      if fails {
        faults := faults + 1;
      }
    }

    /** os.Stat in the places where every error means "absent". */
    predicate Stat(p: string)
      reads this
    {
      fs.Exists(p)
    }

    /** os.Stat or os.Lstat where the caller looks at the error; refuseSymlink's
        refusal is the outcome Failed. */
    method Probe(p: string) returns (r: Outcome)
      modifies this`faults
      ensures r == Done ==> fs.Exists(p)
      ensures r == NotExist ==> !fs.Exists(p)
      ensures faults == old(faults) + (if r == Failed then 1 else 0)
    {
      var fails := Fails();
      if fails {
        r := Failed;
      } else {
        r := if fs.Exists(p) then Done else NotExist;
      }
    }

    /** rename(2): a missing source or target directory is refused. */
    method Rename(from: string, to: string) returns (ok: bool)
      modifies this
      ensures ok ==> from in old(fs).files && Dir(to) in old(fs).dirs && fs == old(fs).Move(from, to)
      ensures !ok ==> fs == old(fs)
      ensures faults == old(faults) + (if !ok && from in fs.files && Dir(to) in fs.dirs then 1 else 0)
    {
      if from !in fs.files || Dir(to) !in fs.dirs {
        return false;
      }
      var fails := Fails();
      if fails {
        return false;
      }
      fs := fs.Move(from, to);
      return true;
    }

    method Remove(p: string) returns (r: Outcome)
      modifies this
      ensures r == Done ==> fs == old(fs).Drop(p)
      ensures r != Done ==> fs == old(fs)
      ensures r == NotExist ==> p !in fs.files
      ensures faults == old(faults) + (if r == Failed then 1 else 0)
    {
      var fails := Fails();
      if fails {
        return Failed;
      }
      if p !in fs.files {
        return NotExist;
      }
      fs := fs.Drop(p);
      return Done;
    }

    /** os.Remove of a directory; one that is missing or not empty is refused. */
    method RemoveDir(p: string) returns (ok: bool)
      modifies this
      ensures fs == old(fs).(dirs := if ok then old(fs).dirs - {p} else old(fs).dirs)
      ensures ok ==> p in old(fs).dirs && old(fs).Empty(p)
      ensures faults == old(faults) + (if !ok && p in old(fs).dirs && old(fs).Empty(p) then 1 else 0)
    {
      if p !in fs.dirs || !fs.Empty(p) {
        return false;
      }
      var fails := Fails();
      if fails {
        return false;
      }
      fs := fs.(dirs := fs.dirs - {p});
      return true;
    }

    /** Another library rewrites a file in place. */
    method Rewrite(p: string)
      requires p in fs.files
      modifies this`fs
      ensures p in fs.files && fs == old(fs).Put(p, fs.files[p])
    {
      var content := *;
      fs := fs.Put(p, content);
    }

    method MkdirAll(p: string) returns (ok: bool)
      modifies this
      ensures fs == old(fs).(dirs := fs.dirs)
      ensures old(fs).dirs <= fs.dirs <= old(fs).dirs + Ancestors(p)
      ensures ok ==> p in fs.dirs
      ensures faults == old(faults) + (if ok then 0 else 1)
    {
      var fails := Fails();
      if fails {
        var part := *;
        fs := fs.(dirs := fs.dirs + part * Ancestors(p));
        return false;
      }
      fs := fs.(dirs := fs.dirs + Ancestors(p));
      return true;
    }

    method ReadFile(p: string) returns (r: ReadResult)
      modifies this`faults
      ensures r.Content? ==> p in fs.files && r.text == fs.files[p]
      ensures r == Missing ==> p !in fs.files
      ensures faults == old(faults) + (if r == Unreadable then 1 else 0)
    {
      var fails := Fails();
      if fails {
        return Unreadable;
      }
      return if p in fs.files then Content(fs.files[p]) else Missing;
    }

    /** atomicWriteFile: the final fsync may fail after the rename took effect. */
    method AtomicWrite(p: string, content: string) returns (ok: bool)
      modifies this
      ensures fs.files == old(fs).files || fs.files == old(fs).files[p := content]
      ensures ok ==> fs.files == old(fs).files[p := content]
      ensures old(fs).dirs <= fs.dirs <= old(fs).dirs + Ancestors(Dir(p))
      ensures faults == old(faults) + (if ok then 0 else 1)
    {
      ok := MkdirAll(Dir(p));
      if !ok {
        return;
      }
      var fails := Fails();
      if fails {
        return false;
      }
      fs := fs.Put(p, content);
      fails := Fails();
      if fails {
        return false;
      }
    }

    /** copyFileWithFsync: O_EXCL create, copy, fsync, with best-effort cleanup. A target
        that exists, or has no directory to be created in, is refused. A run that dies
        half-way leaves any prefix of the contents at `dst`. */
    method CopyFile(src: string, dst: string) returns (ok: bool)
      requires src in fs.files
      modifies this
      ensures ok ==> dst !in old(fs).files && Dir(dst) in old(fs).dirs && fs == old(fs).Put(dst, old(fs).files[src])
      ensures !ok ==> fs == old(fs) || (dst !in old(fs).files && exists part :: fs == old(fs).Put(dst, part))
      ensures faults >= old(faults) && (!ok && dst !in old(fs).files && Dir(dst) in old(fs).dirs ==> faults > old(faults))
      ensures dst in old(fs).files || Dir(dst) !in old(fs).dirs ==> fs == old(fs) && faults == old(faults)
      ensures ok ==> faults == old(faults)
    {
      if dst in fs.files || Dir(dst) !in fs.dirs {
        return false;
      }
      var fails := Fails();
      if fails {
        return false;
      }
      var content := fs.files[src];
      fails := Fails();
      if fails {
        var part := *;
        fs := fs.Put(dst, part);
        var r := Remove(dst);
        assert old(fs).Put(dst, part).Drop(dst) == old(fs);
        return false;
      }
      fs := fs.Put(dst, content);
      return true;
    }
  }
}
