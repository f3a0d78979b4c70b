/** What the two loops of create_structure.py do to a directory tree: the
    counting loop of `main` over the manifest, and `ensure_empty_dirs`.
    Both are defined entry by entry from the back, so that the state after
    `i` iterations of the loops in filesystem.dfy is the value of these
    functions on the first `i` entries. */
module Bulk {
  import opened Paths
  import opened FsModel

  /** One key/value pair of the manifest built by `build_structure`. */
  datatype Entry = Entry(path: Path, content: string)

  /** The state of `main`'s loop: the tree, the counters `created` and
      `skipped`, and `ok`, false once an exception has escaped and the run
      has stopped. */
  datatype Tally = Tally(disk: Disk, created: nat, skipped: nat, ok: bool)

  function PathsOf(m: seq<Entry>): (ps: seq<Path>)
    ensures |ps| == |m| && forall i :: 0 <= i < |m| ==> ps[i] == m[i].path
  {
    seq(|m|, i requires 0 <= i < |m| => m[i].path)
  }

  /** One iteration of the loop: look at `path.exists()` before and after
      `write_file`; a path that appeared is created, a path that was there
      with `overwrite` off is skipped, and an overwritten path is neither.
      At most one counter grows, by one; after a successful write `created`
      grows exactly when the path was absent. */
  function Step(t: Tally, e: Entry, overwrite: bool): (r: Tally)
    requires t.ok
    ensures r.created >= t.created && r.skipped >= t.skipped
    ensures r.created + r.skipped <= t.created + t.skipped + 1
    ensures !r.ok ==> r.created == t.created && r.skipped == t.skipped
    ensures r.ok ==> (r.created == t.created + 1 <==> !Exists(t.disk, e.path))
    ensures r.ok ==> (r.skipped == t.skipped + 1 <==> Exists(t.disk, e.path) && !overwrite)
  {
    var before := Exists(t.disk, e.path);
    match WriteFile(t.disk, e.path, e.content, overwrite)
    case Fail(_) => t.(ok := false)
    case Ok(d1) =>
      var after := Exists(d1, e.path);
      if !before && after then Tally(d1, t.created + 1, t.skipped, true)
      else if before && !overwrite then Tally(d1, t.created, t.skipped + 1, true)
      else Tally(d1, t.created, t.skipped, true)
  }

  /** The loop over the whole manifest, stopping at the first exception.
      Each entry lands in at most one counter; with `overwrite` on nothing
      is ever skipped; with it off, a run that completes counts every
      entry exactly once. */
  function Materialize(d: Disk, m: seq<Entry>, overwrite: bool): (r: Tally)
    ensures r.created + r.skipped <= |m|
    ensures overwrite ==> r.skipped == 0
    ensures !overwrite && r.ok ==> r.created + r.skipped == |m|
    decreases |m|
  {
    if m == [] then Tally(d, 0, 0, true)
    else
      var t := Materialize(d, m[..|m| - 1], overwrite);
      if t.ok then Step(t, m[|m| - 1], overwrite) else t
  }

  /** How many manifest paths do not exist in `d`. */
  function CountAbsent(d: Disk, m: seq<Entry>): (n: nat)
    ensures n <= |m|
    decreases |m|
  {
    if m == [] then 0
    else CountAbsent(d, m[..|m| - 1]) + (if Exists(d, m[|m| - 1].path) then 0 else 1)
  }

  lemma {:induction false} MaterializeValid(d: Disk, m: seq<Entry>, overwrite: bool)
    requires Valid(d)
    ensures Valid(Materialize(d, m, overwrite).disk)
    decreases |m|
  {
    if m != [] {
      var t := Materialize(d, m[..|m| - 1], overwrite);
      MaterializeValid(d, m[..|m| - 1], overwrite);
      if t.ok {
        var e := m[|m| - 1];
        if WriteFile(t.disk, e.path, e.content, overwrite).Ok? {
          WriteFilePreservesValid(t.disk, e.path, e.content, overwrite);
        }
      }
    }
  }

  /** Nothing outside the manifest changes: a file that is not a manifest
      path keeps its content, no file or directory disappears, and every new
      directory is an ancestor of some manifest path. */
  lemma {:induction false} MaterializeFrame(d: Disk, m: seq<Entry>, overwrite: bool)
    ensures var r := Materialize(d, m, overwrite);
      && d.dirs <= r.disk.dirs
      && d.files.Keys <= r.disk.files.Keys
      && (forall q :: q in r.disk.files && q !in PathsOf(m) ==>
            q in d.files && r.disk.files[q] == d.files[q])
      && (forall q :: q in r.disk.dirs && q !in d.dirs ==>
            exists j :: 0 <= j < |m| && q <= Parent(m[j].path))
    decreases |m|
  {
    if m != [] {
      var m' := m[..|m| - 1];
      var t := Materialize(d, m', overwrite);
      MaterializeFrame(d, m', overwrite);
      var r := Materialize(d, m, overwrite);
      var e := m[|m| - 1];
      assert t.ok ==> r == Step(t, e, overwrite);
      assert forall q :: q in PathsOf(m') ==> q in PathsOf(m);
      assert PathsOf(m)[|m| - 1] == e.path;
      forall q | q in r.disk.dirs && q !in d.dirs
        ensures exists j :: 0 <= j < |m| && q <= Parent(m[j].path)
      {
        if q in t.disk.dirs {
          var j :| 0 <= j < |m'| && q <= Parent(m'[j].path);
          assert m[j] == m'[j];
        } else {
          assert q <= Parent(m[|m| - 1].path);
        }
      }
    }
  }

  /** A path that is not in the manifest and is not an ancestor of any
      manifest path exists after the run exactly when it existed before. */
  lemma ExistsUntouched(d: Disk, m: seq<Entry>, overwrite: bool, p: Path)
    requires p !in PathsOf(m)
    requires forall j :: 0 <= j < |m| ==> !(p < m[j].path)
    ensures Exists(Materialize(d, m, overwrite).disk, p) == Exists(d, p)
  {
    MaterializeFrame(d, m, overwrite);
    var r := Materialize(d, m, overwrite);
    if p in r.disk.dirs && p !in d.dirs {
      var j :| 0 <= j < |m| && p <= Parent(m[j].path);
      assert PathsOf(m)[j] == m[j].path;
      PrefixOfParent(p, m[j].path);
    }
  }

  /** In a manifest of distinct paths none of which is an ancestor of
      another, the earlier iterations do not change whether the last path
      exists. */
  lemma LastUntouched(d: Disk, m: seq<Entry>, overwrite: bool)
    requires m != [] && Distinct(PathsOf(m)) && PrefixFree(PathsOf(m))
    ensures var m' := m[..|m| - 1];
      && Distinct(PathsOf(m')) && PrefixFree(PathsOf(m'))
      && Exists(Materialize(d, m', overwrite).disk, m[|m| - 1].path) == Exists(d, m[|m| - 1].path)
  {
    var m' := m[..|m| - 1];
    var e := m[|m| - 1];
    assert PathsOf(m') == PathsOf(m)[..|m| - 1];
    forall j | 0 <= j < |m'| ensures !(e.path < m'[j].path) && e.path != PathsOf(m')[j] {
      assert m'[j] == m[j] && PathsOf(m)[j] == m[j].path;
      assert PathsOf(m)[|m| - 1] == e.path;
    }
    ExistsUntouched(d, m', overwrite, e.path);
  }

  /** The counters as the code computes them, for a manifest of distinct
      paths none of which is an ancestor of another: `created` is the
      number of manifest paths absent before the run; `skipped` is the
      number present before when `overwrite` is off, and zero when it is
      on, so that overwritten files land in neither counter. */
  lemma {:induction false} MaterializeCounts(d: Disk, m: seq<Entry>, overwrite: bool)
    requires Distinct(PathsOf(m)) && PrefixFree(PathsOf(m))
    requires Materialize(d, m, overwrite).ok
    ensures Materialize(d, m, overwrite).created == CountAbsent(d, m)
    ensures Materialize(d, m, overwrite).skipped ==
              if overwrite then 0 else |m| - CountAbsent(d, m)
    decreases |m|
  {
    if m != [] {
      LastUntouched(d, m, overwrite);
      MaterializeCounts(d, m[..|m| - 1], overwrite);
    }
  }

  /** The default does no damage: with `overwrite` off, every file that
      existed keeps its content. */
  lemma {:induction false} NoOverwriteKeepsFiles(d: Disk, m: seq<Entry>)
    ensures var r := Materialize(d, m, false);
      forall q :: q in d.files ==> q in r.disk.files && r.disk.files[q] == d.files[q]
    decreases |m|
  {
    if m != [] {
      NoOverwriteKeepsFiles(d, m[..|m| - 1]);
    }
  }

  /** After a run that completes, every path of the manifest that was
      absent, or every path at all when `overwrite` is on, is a file
      holding exactly its manifest content. */
  lemma {:induction false} MaterializeStores(d: Disk, m: seq<Entry>, overwrite: bool, i: nat)
    requires Valid(d) && Distinct(PathsOf(m)) && PrefixFree(PathsOf(m))
    requires Materialize(d, m, overwrite).ok
    requires i < |m| && (overwrite || !Exists(d, m[i].path))
    ensures m[i].path in Materialize(d, m, overwrite).disk.files
    ensures Materialize(d, m, overwrite).disk.files[m[i].path] == m[i].content
    decreases |m|
  {
    var m' := m[..|m| - 1];
    var e := m[|m| - 1];
    var t := Materialize(d, m', overwrite);
    LastUntouched(d, m, overwrite);
    if i < |m| - 1 {
      assert m'[i] == m[i];
      MaterializeStores(d, m', overwrite, i);
      assert PathsOf(m)[i] != PathsOf(m)[|m| - 1];
    } else {
      MaterializeValid(d, m', overwrite);
      WriteFileStores(t.disk, e.path, e.content, overwrite);
    }
  }

  /** A run that completes ends with a successful write of the last entry. */
  lemma MaterializeLast(d: Disk, m: seq<Entry>, overwrite: bool)
    requires m != [] && Materialize(d, m, overwrite).ok
    ensures var t := Materialize(d, m[..|m| - 1], overwrite);
      var e := m[|m| - 1];
      && t.ok
      && WriteFile(t.disk, e.path, e.content, overwrite).Ok?
      && Materialize(d, m, overwrite).disk == WriteFile(t.disk, e.path, e.content, overwrite).disk
  {
  }

  /** After a run that completes, every manifest path exists. */
  lemma {:induction false} AllExistAfter(d: Disk, m: seq<Entry>, overwrite: bool)
    requires Materialize(d, m, overwrite).ok
    ensures forall i :: 0 <= i < |m| ==> Exists(Materialize(d, m, overwrite).disk, m[i].path)
    decreases |m|
  {
    if m != [] {
      var m' := m[..|m| - 1];
      var e := m[|m| - 1];
      var t := Materialize(d, m', overwrite);
      var w := WriteFile(t.disk, e.path, e.content, overwrite);
      MaterializeLast(d, m, overwrite);
      AllExistAfter(d, m', overwrite);
      forall i | 0 <= i < |m| ensures Exists(w.disk, m[i].path) {
        if i < |m'| {
          assert m'[i] == m[i];
        }
      }
    }
  }

  /** With `overwrite` off, a manifest whose paths all exist changes
      nothing and is counted as skipped throughout. */
  lemma {:induction false} RerunIsNoop(d: Disk, m: seq<Entry>)
    requires Valid(d)
    requires forall i :: 0 <= i < |m| ==> Exists(d, m[i].path)
    ensures Materialize(d, m, false) == Tally(d, 0, |m|, true)
    decreases |m|
  {
    if m != [] {
      var m' := m[..|m| - 1];
      assert forall i :: 0 <= i < |m'| ==> m'[i] == m[i];
      RerunIsNoop(d, m');
      WriteFileKeepsExisting(d, m[|m| - 1].path, m[|m| - 1].content);
    }
  }

  /** Running the loop a second time with `overwrite` off, after a first
      run that completed (with either setting), leaves the tree exactly as
      the first run left it, creates nothing and skips every entry. */
  lemma SecondRunIdempotent(d: Disk, m: seq<Entry>, overwrite: bool)
    requires Valid(d) && Materialize(d, m, overwrite).ok
    ensures var first := Materialize(d, m, overwrite).disk;
      Materialize(first, m, false) == Tally(first, 0, |m|, true)
  {
    MaterializeValid(d, m, overwrite);
    AllExistAfter(d, m, overwrite);
    RerunIsNoop(Materialize(d, m, overwrite).disk, m);
  }

  /** The discrepancy between the comment "count only if file was newly
      created or overwritten intentionally" and the code: a file that is
      overwritten is counted neither as created nor as skipped. */
  lemma OverwrittenIsUncounted(d: Disk, p: Path, c: string)
    requires Valid(d) && p in d.files
    ensures var r := Materialize(d, [Entry(p, c)], true);
      r.ok && r.created == 0 && r.skipped == 0 && r.disk.files[p] == c
  {
    var m := [Entry(p, c)];
    assert m[..0] == [];
    WriteFileFails(d, p, c, true);
    forall a | a in d.files && a < p ensures false {
      AncestorsAreDirs(d, p, a);
    }
  }

  /** CountAbsent depends only on which manifest paths exist. */
  lemma {:induction false} CountAbsentSame(d: Disk, d': Disk, m: seq<Entry>)
    requires forall i :: 0 <= i < |m| ==> Exists(d, m[i].path) == Exists(d', m[i].path)
    ensures CountAbsent(d, m) == CountAbsent(d', m)
    decreases |m|
  {
    if m != [] {
      var m' := m[..|m| - 1];
      assert forall i :: 0 <= i < |m'| ==> m'[i] == m[i];
      CountAbsentSame(d, d', m');
    }
  }

  /** When no manifest path exists, every one is absent. */
  lemma {:induction false} CountAbsentAll(d: Disk, m: seq<Entry>)
    requires forall i :: 0 <= i < |m| ==> !Exists(d, m[i].path)
    ensures CountAbsent(d, m) == |m|
    decreases |m|
  {
    if m != [] {
      var m' := m[..|m| - 1];
      assert forall i :: 0 <= i < |m'| ==> m'[i] == m[i];
      CountAbsentAll(d, m');
    }
  }

  /** The loop runs to the end when nothing in the way can make
      `write_file` raise: no file of the tree lies on the way to a manifest
      path and, when `overwrite` is on, no manifest path is a directory.
      The manifest's own paths never get in each other's way, since none is
      an ancestor of another. */
  lemma {:induction false} MaterializeSucceeds(d: Disk, m: seq<Entry>, overwrite: bool)
    requires Valid(d) && Distinct(PathsOf(m)) && PrefixFree(PathsOf(m))
    requires forall i, a :: 0 <= i < |m| && a in d.files ==> !(a < m[i].path)
    requires overwrite ==> forall i :: 0 <= i < |m| ==> m[i].path !in d.dirs
    ensures Materialize(d, m, overwrite).ok
    decreases |m|
  {
    if m != [] {
      var m' := m[..|m| - 1];
      var e := m[|m| - 1];
      LastUntouched(d, m, overwrite);
      assert forall i :: 0 <= i < |m'| ==> m'[i] == m[i];
      MaterializeSucceeds(d, m', overwrite);
      var t := Materialize(d, m', overwrite);
      MaterializeValid(d, m', overwrite);
      MaterializeFrame(d, m', overwrite);
      assert PathsOf(m)[|m| - 1] == e.path;
      forall a | a in t.disk.files ensures !(a < e.path) {
        if a in PathsOf(m') {
          var j :| 0 <= j < |m'| && PathsOf(m')[j] == a;
          assert PathsOf(m)[j] == a;
        }
      }
      if overwrite {
        forall q | q in t.disk.dirs ensures q != e.path {
          if q !in d.dirs {
            var j :| 0 <= j < |m'| && q <= Parent(m'[j].path);
            PrefixOfParent(q, m'[j].path);
            assert PathsOf(m)[j] == m'[j].path;
          }
        }
      }
      WriteFileFails(t.disk, e.path, e.content, overwrite);
    }
  }

  /** Name of the marker written into each extra directory. */
  const Marker: string := ".gitkeep"

  /** `ensure_empty_dirs`: for each directory, `ensure_dir` and then
      `write_file(d / ".gitkeep", "")` with `overwrite` at its default,
      off. A run that completes never changes an existing file, leaves each
      directory in place with a marker in it, adds no file but empty
      markers and no directory but the listed ones and their ancestors. */
  function EnsureEmptyDirs(d: Disk, xs: seq<Path>): (r: Outcome)
    ensures r.Ok? ==> d.dirs <= r.disk.dirs
    ensures r.Ok? ==> forall q :: q in d.files ==> q in r.disk.files && r.disk.files[q] == d.files[q]
    ensures r.Ok? ==> forall i :: 0 <= i < |xs| ==>
              xs[i] in r.disk.dirs && Exists(r.disk, Child(xs[i], Marker))
    ensures r.Ok? ==> forall q :: q in r.disk.files && q !in d.files ==>
              r.disk.files[q] == "" && exists i :: 0 <= i < |xs| && q == Child(xs[i], Marker)
    ensures r.Ok? ==> forall q :: q in r.disk.dirs && q !in d.dirs ==>
              exists i :: 0 <= i < |xs| && q <= xs[i]
    decreases |xs|
  {
    if xs == [] then Ok(d)
    else
      match EnsureEmptyDirs(d, xs[..|xs| - 1])
      case Fail(e) => Fail(e)
      case Ok(d1) =>
        assert forall i :: 0 <= i < |xs| - 1 ==> xs[..|xs| - 1][i] == xs[i];
        MarkDir(d1, xs[|xs| - 1])
  }

  /** One iteration of `ensure_empty_dirs`: `ensure_dir(d)`, then an empty
      marker written into it with `overwrite` off. It keeps every directory
      and file, leaves `x` a directory holding a marker, and adds only the
      marker and ancestors of `x`. */
  function MarkDir(d: Disk, x: Path): (r: Outcome)
    ensures r.Ok? ==> d.dirs <= r.disk.dirs
    ensures r.Ok? ==> forall q :: q in d.files ==> q in r.disk.files && r.disk.files[q] == d.files[q]
    ensures r.Ok? ==> x in r.disk.dirs && Exists(r.disk, Child(x, Marker))
    ensures r.Ok? ==> forall q :: q in r.disk.files && q !in d.files ==>
              r.disk.files[q] == "" && q == Child(x, Marker)
    ensures r.Ok? ==> forall q :: q in r.disk.dirs && q !in d.dirs ==> q <= x
  {
    match EnsureDir(d, x)
    case Fail(e) => Fail(e)
    case Ok(d2) =>
      assert Parent(Child(x, Marker)) == x;
      WriteFile(d2, Child(x, Marker), "", false)
  }

  /** The `ensure_dir(d)` that `ensure_empty_dirs` performs before
      `write_file(d / ".gitkeep", ...)` is redundant: `write_file` makes the
      parent itself, and a second `ensure_dir` on the same path changes
      nothing. */
  lemma EnsureDirBeforeWriteIsRedundant(d: Disk, x: Path, name: string, content: string, overwrite: bool)
    requires EnsureDir(d, x).Ok?
    ensures WriteFile(EnsureDir(d, x).disk, Child(x, name), content, overwrite) ==
            WriteFile(d, Child(x, name), content, overwrite)
  {
    var d2 := EnsureDir(d, x).disk;
    assert d2.dirs + Prefixes(x) == d2.dirs;
    assert EnsureDir(d2, x) == Ok(d2);
  }

  /** A run of `ensure_empty_dirs` that completes leaves a valid tree
      valid. */
  lemma {:induction false} EnsureEmptyDirsPreservesValid(d: Disk, xs: seq<Path>)
    requires Valid(d) && EnsureEmptyDirs(d, xs).Ok?
    ensures Valid(EnsureEmptyDirs(d, xs).disk)
    decreases |xs|
  {
    if xs != [] {
      var x := xs[|xs| - 1];
      EnsureEmptyDirsPreservesValid(d, xs[..|xs| - 1]);
      var d1 := EnsureEmptyDirs(d, xs[..|xs| - 1]).disk;
      EnsureDirPreservesValid(d1, x);
      WriteFilePreservesValid(EnsureDir(d1, x).disk, Child(x, Marker), "", false);
    }
  }

  /** `ensure_empty_dirs` succeeds when no file lies on the way to any of
      the directories, and no marker lies on the way to one of them. */
  lemma {:induction false} EnsureEmptyDirsSucceeds(d: Disk, xs: seq<Path>)
    requires Valid(d)
    requires forall i, a :: 0 <= i < |xs| && a in d.files ==> !(a <= xs[i])
    requires forall i, j :: 0 <= i < |xs| && 0 <= j < |xs| ==> !(Child(xs[j], Marker) <= xs[i])
    ensures EnsureEmptyDirs(d, xs).Ok?
    decreases |xs|
  {
    if xs != [] {
      var front := xs[..|xs| - 1];
      var x := xs[|xs| - 1];
      assert forall i :: 0 <= i < |front| ==> front[i] == xs[i];
      EnsureEmptyDirsSucceeds(d, front);
      EnsureEmptyDirsPreservesValid(d, front);
      var d1 := EnsureEmptyDirs(d, front).disk;
      forall a | a in d1.files ensures !(a <= x) {
        if a !in d.files {
          var j :| 0 <= j < |front| && a == Child(front[j], Marker);
          assert a == Child(xs[j], Marker);
        }
      }
      var d2 := EnsureDir(d1, x).disk;
      EnsureDirPreservesValid(d1, x);
      forall a | a in d2.files ensures !(a < Child(x, Marker)) {
        if a < Child(x, Marker) {
          StrictPrefixOfParent(a, Child(x, Marker));
        }
      }
      WriteFileFails(d2, Child(x, Marker), "", false);
    }
  }

  /** Running `ensure_empty_dirs` again, once its directories and markers
      exist, changes nothing. */
  lemma {:induction false} EnsureEmptyDirsRerun(d: Disk, xs: seq<Path>)
    requires Valid(d)
    requires forall i :: 0 <= i < |xs| ==> xs[i] in d.dirs && Exists(d, Child(xs[i], Marker))
    ensures EnsureEmptyDirs(d, xs) == Ok(d)
    decreases |xs|
  {
    if xs != [] {
      var front := xs[..|xs| - 1];
      var x := xs[|xs| - 1];
      assert forall i :: 0 <= i < |front| ==> front[i] == xs[i];
      EnsureEmptyDirsRerun(d, front);
      EnsureDirIdempotent(d, x);
      WriteFileKeepsExisting(d, Child(x, Marker), "");
    }
  }
}
