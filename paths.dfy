/** Absolute paths as sequences of segments, and the pathlib operations on them. */
module Paths {
  import opened Wrappers

  /** An absolute path: its segments below the root; [] is the root itself. */
  type Path = seq<string>

  /** `a` is `p` or one of its ancestors. */
  predicate IsPrefix(a: Path, p: Path) {
    |a| <= |p| && p[..|a|] == a
  }

  /** `a in p.parents`: `a` is a strict ancestor of `p`. */
  predicate IsStrictAncestor(a: Path, p: Path) {
    |a| < |p| && p[..|a|] == a
  }

  /** `p.parent`; the root is its own parent. */
  function Parent(p: Path): (q: Path)
    ensures |p| > 0 ==> IsStrictAncestor(q, p) && |q| == |p| - 1
    ensures |p| == 0 ==> q == p
  {
    if |p| == 0 then p else p[..|p| - 1]
  }

  /** `p.name`: the last segment, "" for the root. */
  function Name(p: Path): (s: string)
    ensures |p| > 0 ==> Parent(p) + [s] == p
  {
    if |p| == 0 then "" else p[|p| - 1]
  }

  /** `p / name` for a name that is one segment; an empty name leaves `p` as it is. */
  function Child(p: Path, name: string): (q: Path)
    ensures name != "" ==> Parent(q) == p && Name(q) == name
    ensures name == "" ==> q == p
  {
    if name == "" then p else p + [name]
  }

  /** `p.relative_to(root)`: None where pathlib raises ValueError. */
  function RelativeTo(p: Path, root: Path): (r: Option<Path>)
    ensures r.Some? <==> IsPrefix(root, p)
    ensures r.Some? ==> root + r.value == p
  {
    if IsPrefix(root, p) then Some(p[|root|..]) else None
  }

  /** Joining a relative path onto a root and relativising against that root gives the relative path back. */
  lemma RelativeToJoin(root: Path, rel: Path)
    ensures RelativeTo(root + rel, root) == Some(rel)
  {
    assert (root + rel)[..|root|] == root;
    assert (root + rel)[|root|..] == rel;
  }

  /** Two ancestors of one path are comparable: one is an ancestor of the other. */
  lemma PrefixesComparable(a: Path, b: Path, p: Path)
    requires IsPrefix(a, p) && IsPrefix(b, p)
    ensures IsPrefix(a, b) || IsPrefix(b, a)
  {
    if |a| <= |b| {
      assert b[..|a|] == p[..|b|][..|a|] == p[..|a|];
    } else {
      assert a[..|b|] == p[..|a|][..|b|] == p[..|b|];
    }
  }

  lemma PrefixTransitive(a: Path, b: Path, c: Path)
    requires IsPrefix(a, b) && IsPrefix(b, c)
    ensures IsPrefix(a, c)
  {
    assert c[..|a|] == c[..|b|][..|a|];
  }

  lemma PrefixOfJoin(a: Path, r: Path)
    ensures IsPrefix(a, a + r)
  {
    assert (a + r)[..|a|] == a;
  }
}
