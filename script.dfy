/** What `main()` of create_structure.py does once its arguments are parsed
    and the root is resolved: make the root, write the manifest while
    counting, then add the extra directories. */
module Script {
  import opened Paths
  import opened FsModel
  import opened Bulk
  import opened Structure

  /** `main()` on tree `d`: `ensure_dir(root)`, the counting loop over
      `build_structure(root)`, then `ensure_empty_dirs(root)`. */
  function MainRun(d: Disk, root: Path, overwrite: bool, text: Template -> string): (r: Tally)
    ensures r.created + r.skipped <= 45
    ensures overwrite ==> r.skipped == 0
    ensures !overwrite && r.ok ==> r.created + r.skipped == 45
  {
    Run(d, root, BuildStructure(root, text), ExtraDirs(root), overwrite)
  }

  /** The steps of `main()` for manifest `m` and extra directories `xs`.
      The first exception stops the run, which then reports `ok == false`
      with the counters reached so far. */
  function Run(d: Disk, root: Path, m: seq<Entry>, xs: seq<Path>, overwrite: bool): (r: Tally)
    ensures r.created + r.skipped <= |m|
    ensures overwrite ==> r.skipped == 0
    ensures !overwrite && r.ok ==> r.created + r.skipped == |m|
  {
    match EnsureDir(d, root)
    case Fail(_) => Tally(d, 0, 0, false)
    case Ok(d1) =>
      var t := Materialize(d1, m, overwrite);
      if !t.ok then t
      else
        match EnsureEmptyDirs(t.disk, xs)
        case Fail(_) => t.(ok := false)
        case Ok(d2) => t.(disk := d2)
  }

  /** What the manifest and the extra directories of the script satisfy,
      and all that the lemmas about Run need of them. */
  predicate Shaped(root: Path, m: seq<Entry>, xs: seq<Path>)
  {
    && Distinct(PathsOf(m)) && PrefixFree(PathsOf(m))
    && (forall i :: 0 <= i < |m| ==> FileShaped(root, m[i].path))
    && (forall i :: 0 <= i < |xs| ==> DirShaped(root, xs[i]) && FileShaped(root, Child(xs[i], Marker)))
  }

  /** The counters of a run that completes: `created` is the number of
      manifest files that did not exist before the run; `skipped` is the
      number that did, or zero with `overwrite` on. */
  lemma RunCounts(d: Disk, root: Path, m: seq<Entry>, xs: seq<Path>, overwrite: bool)
    requires Shaped(root, m, xs) && Run(d, root, m, xs, overwrite).ok
    ensures var r := Run(d, root, m, xs, overwrite);
      && r.created == CountAbsent(d, m)
      && r.skipped == if overwrite then 0 else |m| - r.created
  {
    var d1 := EnsureDir(d, root).disk;
    MaterializeCounts(d1, m, overwrite);
    forall i | 0 <= i < |m| ensures Exists(d, m[i].path) == Exists(d1, m[i].path) {
      assert !(m[i].path <= root);
    }
    CountAbsentSame(d, d1, m);
  }

  /** A run on a tree holding only the root directory "/" completes,
      creates every file of the manifest with its content, skips none, and
      leaves each extra directory with a marker in it. */
  lemma RunFresh(root: Path, m: seq<Entry>, xs: seq<Path>, overwrite: bool)
    requires Shaped(root, m, xs)
    ensures var r := Run(Disk(map[], {[]}), root, m, xs, overwrite);
      && r.ok && r.created == |m| && r.skipped == 0
      && (forall i :: 0 <= i < |m| ==> m[i].path in r.disk.files && r.disk.files[m[i].path] == m[i].content)
      && (forall i :: 0 <= i < |xs| ==> xs[i] in r.disk.dirs && Exists(r.disk, Child(xs[i], Marker)))
  {
    var d := Disk(map[], {[]});
    var d1 := EnsureDir(d, root).disk;
    EnsureDirPreservesValid(d, root);
    forall i | 0 <= i < |m| ensures m[i].path !in d1.dirs {
      assert !(m[i].path <= root);
    }
    MaterializeSucceeds(d1, m, overwrite);
    var t := Materialize(d1, m, overwrite);
    MaterializeCounts(d1, m, overwrite);
    CountAbsentAll(d1, m);
    MaterializeValid(d1, m, overwrite);
    MaterializeFrame(d1, m, overwrite);
    forall i, a | 0 <= i < |xs| && a in t.disk.files ensures !(a <= xs[i]) {
      var j :| 0 <= j < |m| && PathsOf(m)[j] == a;
      FileNotOnDir(root, m[j].path, xs[i]);
    }
    forall i, j | 0 <= i < |xs| && 0 <= j < |xs| ensures !(Child(xs[j], Marker) <= xs[i]) {
      FileNotOnDir(root, Child(xs[j], Marker), xs[i]);
    }
    EnsureEmptyDirsSucceeds(t.disk, xs);
    forall i | 0 <= i < |m| ensures m[i].path in t.disk.files && t.disk.files[m[i].path] == m[i].content {
      MaterializeStores(d1, m, overwrite, i);
    }
  }

  /** A second run with `overwrite` off, after a first run that completed,
      changes nothing, creates nothing and skips every manifest file. */
  lemma RunIdempotent(d: Disk, root: Path, m: seq<Entry>, xs: seq<Path>, overwrite: bool)
    requires Valid(d) && Run(d, root, m, xs, overwrite).ok
    ensures var first := Run(d, root, m, xs, overwrite).disk;
      Run(first, root, m, xs, false) == Tally(first, 0, |m|, true)
  {
    var d1 := EnsureDir(d, root).disk;
    EnsureDirPreservesValid(d, root);
    var t := Materialize(d1, m, overwrite);
    MaterializeValid(d1, m, overwrite);
    AllExistAfter(d1, m, overwrite);
    MaterializeFrame(d1, m, overwrite);
    EnsureEmptyDirsPreservesValid(t.disk, xs);
    var d3 := EnsureEmptyDirs(t.disk, xs).disk;
    assert root in d3.dirs;
    EnsureDirIdempotent(d3, root);
    forall i | 0 <= i < |m| ensures Exists(d3, m[i].path) {
      assert Exists(t.disk, m[i].path);
    }
    RerunIsNoop(d3, m);
    EnsureEmptyDirsRerun(d3, xs);
  }

  /** The summary `main()` prints: `created` counts the manifest files that
      did not exist before; `skipped` counts those that did, or is zero
      with `--overwrite`, so that overwritten files appear in neither. */
  lemma MainCounts(d: Disk, root: Path, overwrite: bool, text: Template -> string)
    requires MainRun(d, root, overwrite, text).ok
    ensures var r := MainRun(d, root, overwrite, text);
      && r.created == CountAbsent(d, BuildStructure(root, text))
      && r.skipped == if overwrite then 0 else 45 - r.created
  {
    RunCounts(d, root, BuildStructure(root, text), ExtraDirs(root), overwrite);
  }

  /** The script run in an empty filesystem completes, creates all 45
      files with their contents, skips none, and leaves each extra
      directory with a marker in it. */
  lemma FreshRun(root: Path, overwrite: bool, text: Template -> string)
    ensures var r := MainRun(Disk(map[], {[]}), root, overwrite, text);
      var m := BuildStructure(root, text);
      && r.ok && r.created == 45 && r.skipped == 0
      && (forall i :: 0 <= i < 45 ==> m[i].path in r.disk.files && r.disk.files[m[i].path] == m[i].content)
      && (forall x :: x in ExtraDirs(root) ==> x in r.disk.dirs && Exists(r.disk, Child(x, Marker)))
  {
    RunFresh(root, BuildStructure(root, text), ExtraDirs(root), overwrite);
  }

  /** Running the script a second time without `--overwrite`, after a
      first run that completed, changes nothing, creates nothing and skips
      all 45 files. */
  lemma MainIdempotent(d: Disk, root: Path, overwrite: bool, text: Template -> string)
    requires Valid(d) && MainRun(d, root, overwrite, text).ok
    ensures var first := MainRun(d, root, overwrite, text).disk;
      MainRun(first, root, false, text) == Tally(first, 0, 45, true)
  {
    RunIdempotent(d, root, BuildStructure(root, text), ExtraDirs(root), overwrite);
  }
}
