/** The script as it runs: a filesystem object whose files and directories
    change in place, and the helpers and loops of create_structure.py as
    methods on it. Each method is proved to leave the filesystem in the
    state the functions of FsModel, Bulk and Script describe. */
module Filesystem {
  import opened Paths
  import FsModel
  import opened Bulk
  import opened Structure
  import Script

  /** How a helper ended: normally, or with the exception pathlib raised. */
  datatype Status = Done | Raised(reason: FsModel.Reason)

  class FileSystem {
    var files: map<Path, string>
    var dirs: set<Path>

    /** The current tree as a value. */
    function State(): FsModel.Disk
      reads this
    {
      FsModel.Disk(files, dirs)
    }

    ghost predicate Valid()
      reads this
    {
      FsModel.Valid(State())
    }

    /** An empty filesystem: only the root directory "/". */
    constructor ()
      ensures files == map[] && dirs == {[]}
      ensures Valid()
    {
      files := map[];
      dirs := {[]};
    }

    /** `path.exists()` */
    function Exists(p: Path): (b: bool)
      reads this
      ensures b == FsModel.Exists(State(), p)
    {
      p in files || p in dirs
    }

    /** `ensure_dir(path)`: look for a file on the path, then make the path
        and each missing ancestor a directory, from the root down. On an
        exception nothing has changed. */
    method EnsureDir(p: Path) returns (status: Status)
      modifies this
      ensures var r := FsModel.EnsureDir(old(State()), p);
        && (status == Done <==> r.Ok?)
        && (r.Ok? ==> State() == r.disk)
        && (r.Fail? ==> status == Raised(r.reason) && State() == old(State()))
      ensures old(Valid()) ==> Valid()
    {
      if p in files {
        return Raised(FsModel.FileExists);
      }
      var k := 0;
      while k < |p|
        invariant 0 <= k <= |p|
        invariant files == old(files) && dirs == old(dirs)
        invariant forall j :: 0 <= j < k ==> p[..j] !in files
      {
        if p[..k] in files {
          return Raised(FsModel.NotADirectory);
        }
        k := k + 1;
      }
      ghost var dirs0 := dirs;
      k := 0;
      while k <= |p|
        invariant 0 <= k <= |p| + 1
        invariant files == old(files)
        invariant dirs == dirs0 + set j | 0 <= j < k :: p[..j]
      {
        dirs := dirs + {p[..k]};
        k := k + 1;
      }
      assert dirs == dirs0 + Prefixes(p);
      if old(Valid()) {
        FsModel.EnsureDirPreservesValid(old(State()), p);
      }
      return Done;
    }

    /** `write_file(path, content, overwrite)`: make the parent directory;
        leave an existing path alone unless `overwrite` is on; otherwise
        write the text, which fails on a directory. In a valid tree an
        exception leaves the tree as it was. */
    method WriteFile(p: Path, content: string, overwrite: bool) returns (status: Status)
      modifies this
      ensures var r := FsModel.WriteFile(old(State()), p, content, overwrite);
        && (status == Done <==> r.Ok?)
        && (r.Ok? ==> State() == r.disk)
        && (r.Fail? ==> status == Raised(r.reason))
      ensures old(Valid()) ==> Valid()
      ensures old(Valid()) && status.Raised? ==> State() == old(State())
    {
      status := EnsureDir(Parent(p));
      if status.Raised? {
        return;
      }
      if Exists(p) && !overwrite {
        return;
      }
      if p in dirs {
        if old(Valid()) {
          FsModel.WriteFileFailsCleanly(old(State()), p, content, overwrite);
        }
        return Raised(FsModel.IsADirectory);
      }
      files := files[p := content];
      if old(Valid()) {
        FsModel.WriteFilePreservesValid(old(State()), p, content, overwrite);
      }
    }

    /** Entry `i` of the loop of `main()`: `path.exists()` before and after
        `write_file`, and the counters advanced as the code does. It takes
        the loop from its state after `m[..i]` to its state after
        `m[..i + 1]`; in a valid tree that holds for the tree also after an
        exception. */
    method WriteEntry(ghost d0: FsModel.Disk, m: seq<Entry>, i: nat, overwrite: bool,
                      created0: nat, skipped0: nat)
      returns (created: nat, skipped: nat, ok: bool)
      requires i < |m|
      requires Materialize(d0, m[..i], overwrite) == Tally(State(), created0, skipped0, true)
      requires FsModel.Valid(d0) ==> Valid()
      modifies this
      ensures var t := Materialize(d0, m[..i + 1], overwrite);
        && created == t.created && skipped == t.skipped && ok == t.ok
        && ((ok || FsModel.Valid(d0)) ==> State() == t.disk)
      ensures FsModel.Valid(d0) ==> Valid()
    {
      var e := m[i];
      ghost var t0 := Tally(State(), created0, skipped0, true);
      assert m[..i + 1][..i] == m[..i] && m[..i + 1][i] == e;
      assert Materialize(d0, m[..i + 1], overwrite) == Step(t0, e, overwrite);
      created, skipped, ok := created0, skipped0, true;
      var before := Exists(e.path);
      var status := WriteFile(e.path, e.content, overwrite);
      if status.Raised? {
        ok := false;
        assert Step(t0, e, overwrite) == t0.(ok := false);
      } else {
        var after := Exists(e.path);
        if !before && after {
          created := created + 1;
        } else if before && !overwrite {
          skipped := skipped + 1;
        }
      }
    }

    /** The loop of `main()` over the manifest: `created` and `skipped` as
        the code counts them, and `ok` false if `write_file` raised, which
        ends the loop. In a valid tree the tree left behind is the one the
        loop had reached, also after an exception. */
    method WriteAll(m: seq<Entry>, overwrite: bool) returns (created: nat, skipped: nat, ok: bool)
      modifies this
      ensures var t := Materialize(old(State()), m, overwrite);
        && created == t.created && skipped == t.skipped && ok == t.ok
        && ((ok || old(Valid())) ==> State() == t.disk)
      ensures old(Valid()) ==> Valid()
    {
      ghost var d0 := State();
      created, skipped, ok := 0, 0, true;
      var i := 0;
      while i < |m| && ok
        invariant 0 <= i <= |m|
        invariant var t := Materialize(d0, m[..i], overwrite);
          && created == t.created && skipped == t.skipped && ok == t.ok
          && ((ok || FsModel.Valid(d0)) ==> State() == t.disk)
        invariant FsModel.Valid(d0) ==> Valid()
      {
        created, skipped, ok := WriteEntry(d0, m, i, overwrite, created, skipped);
        i := i + 1;
      }
      StopsAtFailure(d0, m, overwrite, i);
    }

    /** `ensure_empty_dirs(root)` over the directories `xs`: make each one
        and write an empty marker into it unless one is there. An exception
        comes from `ensure_dir` on some directory, and leaves the tree with
        every earlier directory marked. */
    method EnsureEmptyDirs(xs: seq<Path>) returns (status: Status)
      modifies this
      ensures var r := Bulk.EnsureEmptyDirs(old(State()), xs);
        && (status == Done <==> r.Ok?)
        && (r.Ok? ==> State() == r.disk)
        && (r.Fail? ==> status == Raised(r.reason))
      ensures old(Valid()) ==> Valid()
      ensures status.Raised? ==>
        exists i :: (0 <= i < |xs|
          && Bulk.EnsureEmptyDirs(old(State()), xs[..i]) == FsModel.Ok(State())
          && FsModel.EnsureDir(State(), xs[i]).Fail?)
    {
      ghost var d0 := State();
      var i := 0;
      while i < |xs|
        invariant 0 <= i <= |xs|
        invariant Bulk.EnsureEmptyDirs(d0, xs[..i]) == FsModel.Ok(State())
        invariant FsModel.Valid(d0) ==> Valid()
      {
        var x := xs[i];
        EnsureEmptyDirsStep(d0, xs, i, State());
        status := EnsureDir(x);
        if status.Raised? {
          EmptyDirsStopAtFailure(d0, xs, i + 1);
          return;
        }
        status := WriteFile(Child(x, Marker), "", false);
        // The directory now exists, so the marker write cannot raise.
        assert status == Done;
        i := i + 1;
      }
      assert xs[..i] == xs;
      return Done;
    }

    /** The steps of `main()` for manifest `m` and extra directories `xs`:
        `ensure_dir(root)`, the counting loop over `m`, then
        `ensure_empty_dirs` over `xs`; `ok` is false when an exception ended
        the run. In a valid tree a run that raised leaves the tree that
        `Script.Run` reports, or that tree with the first few extra
        directories marked when `ensure_empty_dirs` raised. */
    method Run(root: Path, m: seq<Entry>, xs: seq<Path>, overwrite: bool)
      returns (created: nat, skipped: nat, ok: bool)
      modifies this
      ensures var r := Script.Run(old(State()), root, m, xs, overwrite);
        && created == r.created && skipped == r.skipped && ok == r.ok
        && (ok ==> State() == r.disk)
      ensures old(Valid()) ==> Valid()
      ensures old(Valid()) && !ok ==>
        var r := Script.Run(old(State()), root, m, xs, overwrite);
        exists i :: 0 <= i <= |xs| && Bulk.EnsureEmptyDirs(r.disk, xs[..i]) == FsModel.Ok(State())
    {
      var status := EnsureDir(root);
      if status.Raised? {
        assert xs[..0] == [];
        return 0, 0, false;
      }
      created, skipped, ok := WriteAll(m, overwrite);
      if !ok {
        assert xs[..0] == [];
        return;
      }
      status := EnsureEmptyDirs(xs);
      ok := status.Done?;
    }

    /** `main()` with its arguments parsed: `ensure_dir(root)`, the counting
        loop over `build_structure(root)`, then `ensure_empty_dirs(root)`. */
    method CreateStructure(root: Path, overwrite: bool, text: Template -> string)
      returns (created: nat, skipped: nat, ok: bool)
      modifies this
      ensures var r := Script.MainRun(old(State()), root, overwrite, text);
        && created == r.created && skipped == r.skipped && ok == r.ok
        && (ok ==> State() == r.disk)
      ensures old(Valid()) ==> Valid()
      ensures old(Valid()) && !ok ==>
        var r := Script.MainRun(old(State()), root, overwrite, text);
        exists i :: 0 <= i <= |ExtraDirs(root)|
          && Bulk.EnsureEmptyDirs(r.disk, ExtraDirs(root)[..i]) == FsModel.Ok(State())
    {
      created, skipped, ok := Run(root, BuildStructure(root, text), ExtraDirs(root), overwrite);
    }
  }

  /** Once the loop of `main()` has stopped, by an exception or at the end
      of the manifest, the remaining entries change nothing. */
  lemma {:induction false} StopsAtFailure(d: FsModel.Disk, m: seq<Entry>, overwrite: bool, i: nat)
    requires i <= |m| && (i == |m| || !Materialize(d, m[..i], overwrite).ok)
    ensures Materialize(d, m, overwrite) == Materialize(d, m[..i], overwrite)
    decreases |m|
  {
    if i < |m| {
      var m' := m[..|m| - 1];
      assert m'[..i] == m[..i];
      StopsAtFailure(d, m', overwrite, i);
    } else {
      assert m[..i] == m;
    }
  }

  /** Once `ensure_empty_dirs` has raised, the run has failed. */
  lemma {:induction false} EmptyDirsStopAtFailure(d: FsModel.Disk, xs: seq<Path>, i: nat)
    requires i <= |xs| && Bulk.EnsureEmptyDirs(d, xs[..i]).Fail?
    ensures Bulk.EnsureEmptyDirs(d, xs) == Bulk.EnsureEmptyDirs(d, xs[..i])
    decreases |xs|
  {
    if i < |xs| {
      var front := xs[..|xs| - 1];
      assert front[..i] == xs[..i];
      EmptyDirsStopAtFailure(d, front, i);
    } else {
      assert xs[..i] == xs;
    }
  }

  /** One iteration of `ensure_empty_dirs`. */
  lemma EnsureEmptyDirsStep(d: FsModel.Disk, xs: seq<Path>, i: nat, d1: FsModel.Disk)
    requires i < |xs| && Bulk.EnsureEmptyDirs(d, xs[..i]) == FsModel.Ok(d1)
    ensures Bulk.EnsureEmptyDirs(d, xs[..i + 1]) ==
      match FsModel.EnsureDir(d1, xs[i])
      case Fail(e) => FsModel.Fail(e)
      case Ok(d2) => FsModel.WriteFile(d2, Child(xs[i], Marker), "", false)
  {
    assert xs[..i + 1][..i] == xs[..i];
  }
}
