/** Paths as pathlib sees them in create_structure.py: a path is the sequence
    of its components, the empty sequence is the filesystem root "/", the
    parent is the path without its last component, and every ancestor of a
    path is a prefix of it. */
module Paths {

  type Path = seq<string>

  /** `path.parent`; the root is its own parent, as in pathlib. */
  function Parent(p: Path): (q: Path)
    ensures q <= p
    ensures p != [] ==> |q| == |p| - 1
    ensures p == [] ==> q == []
  {
    if p == [] then [] else p[..|p| - 1]
  }

  /** `path / name` */
  function Child(p: Path, name: string): (q: Path)
    ensures |q| == |p| + 1 && Parent(q) == p && q[|p|] == name
  {
    p + [name]
  }

  /** The path itself and all its ancestors, up to the root. */
  function Prefixes(p: Path): (s: set<Path>)
    ensures forall a :: a in s <==> a <= p
  {
    var s := set k | 0 <= k <= |p| :: p[..k];
    assert forall a :: a <= p ==> a == p[..|a|];
    s
  }

  /** A strict prefix of a path is a prefix of its parent. */
  lemma StrictPrefixOfParent(a: Path, p: Path)
    requires a < p
    ensures a <= Parent(p)
  {
    assert a == p[..|a|];
  }

  /** A prefix of the parent of a path is a strict prefix of it, except
      at the root, which is its own parent. */
  lemma PrefixOfParent(a: Path, p: Path)
    ensures a <= Parent(p) ==> a < p || a == p == []
  {
  }

  /** No two entries of `s` are the same path. */
  predicate Distinct(s: seq<Path>)
  {
    forall i, j :: 0 <= i < j < |s| ==> s[i] != s[j]
  }

  /** No entry of `s` is an ancestor of another: every entry names a file,
      never a directory that another entry needs. */
  predicate PrefixFree(s: seq<Path>)
  {
    forall i, j :: 0 <= i < |s| && 0 <= j < |s| ==> !(s[i] < s[j])
  }
}
