/** The directory tree that create_structure.py works on, as a value, and
    the effect of its two helpers `ensure_dir` and `write_file` on it.
    The class in filesystem.dfy performs these steps in place; the
    functions here say what each step must produce. */
module FsModel {
  import opened Paths

  /** A directory tree: the text of every file and the set of directories. */
  datatype Disk = Disk(files: map<Path, string>, dirs: set<Path>)

  /** The exceptions pathlib raises in these helpers, which the script
      never catches. */
  datatype Reason =
    | FileExists     // mkdir on a path that is a file
    | NotADirectory  // an ancestor of the path is a file
    | IsADirectory   // write_text on a path that is a directory

  datatype Outcome = Ok(disk: Disk) | Fail(reason: Reason)

  /** `path.exists()`: true for files and for directories alike. */
  predicate Exists(d: Disk, p: Path)
  {
    p in d.files || p in d.dirs
  }

  /** What every real directory tree satisfies: the root is a directory,
      nothing is both a file and a directory, and the parent of every file
      and directory is a directory. */
  ghost predicate Valid(d: Disk)
  {
    && [] in d.dirs
    && (forall p :: p in d.files ==> p !in d.dirs)
    && (forall p :: p in d.dirs ==> Parent(p) in d.dirs)
    && (forall p :: p in d.files ==> Parent(p) in d.dirs)
  }

  /** `ensure_dir(path)`, that is `path.mkdir(parents=True, exist_ok=True)`:
      succeeds exactly when no file lies on the path, and then makes the
      path and each of its ancestors a directory, touching nothing else.
      It raises FileExists when the path is a file and NotADirectory when a
      file lies higher up. */
  function EnsureDir(d: Disk, p: Path): (r: Outcome)
    ensures r.Ok? <==> forall a :: a in d.files ==> !(a <= p)
    ensures r.Fail? ==> (r.reason == FileExists <==> p in d.files)
    ensures r.Fail? && p !in d.files ==> r.reason == NotADirectory
    ensures r.Ok? ==> r.disk.files == d.files
    ensures r.Ok? ==> forall q :: q in r.disk.dirs <==> q in d.dirs || q <= p
  {
    if p in d.files then Fail(FileExists)
    else if exists k :: 0 <= k < |p| && p[..k] in d.files then
      Fail(NotADirectory)
    else
      assert forall a :: a <= p ==> a == p[..|a|];
      Ok(Disk(d.files, d.dirs + Prefixes(p)))
  }

  /** `write_file(path, content, overwrite)`: make the parent directory,
      then write unless the path already exists and `overwrite` is off.
      On success the path exists, each of its ancestors is a directory, no
      other file changes, no directory disappears and the only new
      directories are ancestors of the path. It raises IsADirectory exactly
      when the parent could be made, and then only because `overwrite`
      forces a write onto a directory; any other exception is the one
      `ensure_dir(path.parent)` raised. */
  function WriteFile(d: Disk, p: Path, content: string, overwrite: bool): (r: Outcome)
    ensures r.Ok? ==> Exists(r.disk, p)
    ensures r.Ok? ==> forall a :: a < p ==> a in r.disk.dirs
    ensures r.Ok? ==> d.dirs <= r.disk.dirs && d.files.Keys <= r.disk.files.Keys
    ensures r.Ok? ==> forall q :: q in r.disk.files && q != p ==> q in d.files && r.disk.files[q] == d.files[q]
    ensures r.Ok? ==> forall q :: q in r.disk.dirs && q !in d.dirs ==> q <= Parent(p)
    ensures r.Fail? ==> (r.reason == IsADirectory <==> EnsureDir(d, Parent(p)).Ok?)
    ensures r.Fail? && r.reason == IsADirectory ==> overwrite && (p in d.dirs || p == [])
    ensures r.Fail? && EnsureDir(d, Parent(p)).Fail? ==> r == EnsureDir(d, Parent(p))
  {
    match EnsureDir(d, Parent(p))
    case Fail(e) => Fail(e)
    case Ok(d1) =>
      if Exists(d1, p) && !overwrite then
        StrictPrefixesCovered(d1, p);
        Ok(d1)
      else if p in d1.dirs then
        Fail(IsADirectory)
      else
        StrictPrefixesCovered(d1, p);
        Ok(Disk(d1.files[p := content], d1.dirs))
  }

  /** Helper for WriteFile: after making the parent, every strict ancestor
      of the path is a directory. */
  lemma StrictPrefixesCovered(d1: Disk, p: Path)
    requires forall a :: a <= Parent(p) ==> a in d1.dirs
    ensures forall a :: a < p ==> a in d1.dirs
  {
    forall a | a < p ensures a in d1.dirs {
      StrictPrefixOfParent(a, p);
    }
  }

  /** In a valid tree every strict ancestor of an existing path is a
      directory. */
  lemma {:induction false} AncestorsAreDirs(d: Disk, p: Path, a: Path)
    requires Valid(d) && Exists(d, p) && a < p
    ensures a in d.dirs
    decreases |p|
  {
    var q := Parent(p);
    assert q in d.dirs;
    StrictPrefixOfParent(a, p);
    if a != q {
      AncestorsAreDirs(d, q, a);
    }
  }

  /** `ensure_dir` on an existing directory changes nothing and does not
      fail. */
  lemma EnsureDirIdempotent(d: Disk, p: Path)
    requires Valid(d) && p in d.dirs
    ensures EnsureDir(d, p) == Ok(d)
  {
    forall a | a in d.files
      ensures !(a <= p)
    {
      if a == p {
      } else if a < p {
        AncestorsAreDirs(d, p, a);
      }
    }
    var r := EnsureDir(d, p);
    forall q | q <= p ensures q in d.dirs {
      if q != p { AncestorsAreDirs(d, p, q); }
    }
    assert r.disk.dirs == d.dirs;
  }

  lemma EnsureDirPreservesValid(d: Disk, p: Path)
    requires Valid(d) && EnsureDir(d, p).Ok?
    ensures Valid(EnsureDir(d, p).disk)
  {
    var d1 := EnsureDir(d, p).disk;
    forall q | q in d1.dirs ensures Parent(q) in d1.dirs {
      if q !in d.dirs {
        assert Parent(q) <= q <= p;
      }
    }
  }

  /** The partner of WriteFile's frame: a successful write leaves a valid
      tree valid. */
  lemma WriteFilePreservesValid(d: Disk, p: Path, content: string, overwrite: bool)
    requires Valid(d) && WriteFile(d, p, content, overwrite).Ok?
    ensures Valid(WriteFile(d, p, content, overwrite).disk)
  {
    EnsureDirPreservesValid(d, Parent(p));
  }

  /** With `overwrite` off, writing to a path that already exists changes
      nothing at all. */
  lemma WriteFileKeepsExisting(d: Disk, p: Path, content: string)
    requires Valid(d) && Exists(d, p)
    ensures WriteFile(d, p, content, false) == Ok(d)
  {
    if p == [] {
      EnsureDirIdempotent(d, []);
    } else {
      EnsureDirIdempotent(d, Parent(p));
    }
  }

  /** When the path was absent, or `overwrite` is on, a successful write
      leaves the path a file holding exactly `content`. */
  lemma WriteFileStores(d: Disk, p: Path, content: string, overwrite: bool)
    requires Valid(d) && WriteFile(d, p, content, overwrite).Ok?
    requires overwrite || !Exists(d, p)
    ensures p in WriteFile(d, p, content, overwrite).disk.files
    ensures WriteFile(d, p, content, overwrite).disk.files[p] == content
  {
    if !overwrite {
      assert p != [];
      assert !(p <= Parent(p));
    }
  }

  /** In a valid tree a write fails only for the reasons pathlib gives:
      a file lies on the way to the path, or the path is a directory and
      `overwrite` forces the write. */
  lemma WriteFileFails(d: Disk, p: Path, content: string, overwrite: bool)
    requires Valid(d)
    ensures WriteFile(d, p, content, overwrite).Fail? <==>
              (exists a :: a in d.files && a < p) || (overwrite && p in d.dirs)
  {
    if exists a :: a in d.files && a < p {
      var a :| a in d.files && a < p;
      StrictPrefixOfParent(a, p);
    } else {
      if p == [] {
      } else {
        forall a | a in d.files ensures !(a <= Parent(p)) {
          PrefixOfParent(a, p);
        }
        if overwrite && p !in d.dirs {
          assert !(p <= Parent(p));
        }
      }
    }
  }

  /** An exception from `write_file` in a valid tree leaves it as it was:
      `mkdir` fails before it makes anything, and IsADirectory is raised
      only on a path that is already a directory, whose parent is one too. */
  lemma WriteFileFailsCleanly(d: Disk, p: Path, content: string, overwrite: bool)
    requires Valid(d) && WriteFile(d, p, content, overwrite).Fail?
    ensures var e := EnsureDir(d, Parent(p)); e.Fail? || e == Ok(d)
  {
    if EnsureDir(d, Parent(p)).Ok? {
      assert Parent(p) in d.dirs;
      EnsureDirIdempotent(d, Parent(p));
    }
  }
}
