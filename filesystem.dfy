/**
 * The filesystem as a map from absolute paths to nodes, the pathlib queries on it
 * (resolve, exists, is_file, is_dir, is_symlink) and the mutating calls the commands
 * make (replace, symlink_to, unlink, mkdir with parents), each with its OS errors.
 */
module FileSystem {
  import opened Wrappers
  import opened Paths

  datatype Node = File | Dir | Symlink(target: Path)

  /** What `lstat` sees at each path that exists; an absent key does not exist. */
  type Nodes = map<Path, Node>

  /** `p.is_symlink()`: looks at `p` itself, without following it. */
  predicate IsLink(n: Nodes, p: Path) {
    p in n && n[p].Symlink?
  }

  /** Follows the symlink chain at `p` for at most `fuel` links; None once the fuel runs out. */
  function ResolveFuel(n: Nodes, p: Path, fuel: nat): (r: Option<Path>)
    decreases fuel
    ensures !IsLink(n, p) ==> r == Some(p)
    ensures r.Some? ==> !IsLink(n, r.value)
  {
    if IsLink(n, p) then
      if fuel == 0 then None else ResolveFuel(n, n[p].target, fuel - 1)
    else Some(p)
  }

  /**
   * `p.resolve()` (not strict): a missing path or a dangling link resolves to where the chain
   * stops; a chain of more links than there are nodes is a loop, for which pathlib raises.
   */
  function Resolve(n: Nodes, p: Path): (r: Option<Path>)
    ensures !IsLink(n, p) ==> r == Some(p)
    ensures r.Some? ==> !IsLink(n, r.value)
  {
    ResolveFuel(n, p, |n|)
  }

  /** Resolving an already resolved path changes nothing. */
  lemma ResolveIdempotent(n: Nodes, p: Path)
    requires Resolve(n, p).Some?
    ensures Resolve(n, Resolve(n, p).value) == Resolve(n, p)
  {
  }

  /** A link to a path that is not itself a link resolves to that path. */
  lemma ResolveOneLink(n: Nodes, p: Path)
    requires IsLink(n, p) && !IsLink(n, n[p].target)
    ensures Resolve(n, p) == Some(n[p].target)
  {
    assert p in n.Keys;
    assert |n.Keys| >= 1 by {
      assert n.Keys == (n.Keys - {p}) + {p};
    }
  }

  /** More fuel than a chain needs changes nothing. */
  lemma {:induction false} ResolveFuelMore(n: Nodes, p: Path, fuel: nat, more: nat)
    requires ResolveFuel(n, p, fuel).Some? && fuel <= more
    ensures ResolveFuel(n, p, more) == ResolveFuel(n, p, fuel)
    decreases fuel
  {
    if IsLink(n, p) {
      ResolveFuelMore(n, n[p].target, fuel - 1, more - 1);
    }
  }

  /** A link that resolves resolves to where its target resolves: the chain is followed to its end. */
  lemma ResolveStep(n: Nodes, p: Path)
    requires IsLink(n, p) && Resolve(n, p).Some?
    ensures Resolve(n, n[p].target) == Resolve(n, p)
  {
    ResolveFuelMore(n, n[p].target, |n| - 1, |n|);
  }

  /** The path reached after following at most `k` links from `p`. */
  function Follow(n: Nodes, p: Path, k: nat): Path
    decreases k
  {
    if k == 0 || !IsLink(n, p) then p else Follow(n, n[p].target, k - 1)
  }

  /** Following `i` links and then `m` more is following `i + m` links. */
  lemma {:induction false} FollowAdd(n: Nodes, p: Path, i: nat, m: nat)
    requires forall k :: 0 <= k < i ==> IsLink(n, Follow(n, p, k))
    ensures Follow(n, p, i + m) == Follow(n, Follow(n, p, i), m)
    decreases i
  {
    if i > 0 {
      assert IsLink(n, Follow(n, p, 0));
      forall k | 0 <= k < i - 1 ensures IsLink(n, Follow(n, n[p].target, k)) {
        assert IsLink(n, Follow(n, p, k + 1));
      }
      FollowAdd(n, n[p].target, i - 1, m);
    }
  }

  /** Resolution with `fuel` gives no result exactly when the first `fuel + 1` paths of the chain are all links. */
  lemma {:induction false} FuelRunsOut(n: Nodes, p: Path, fuel: nat)
    ensures ResolveFuel(n, p, fuel).None? <==> forall k :: 0 <= k <= fuel ==> IsLink(n, Follow(n, p, k))
    decreases fuel
  {
    if IsLink(n, p) && fuel > 0 {
      FuelRunsOut(n, n[p].target, fuel - 1);
      forall k | 0 < k <= fuel ensures Follow(n, p, k) == Follow(n, n[p].target, k - 1) { }
      assert ResolveFuel(n, p, fuel).None? <==> forall k :: 0 <= k <= fuel - 1 ==> IsLink(n, Follow(n, n[p].target, k));
      if forall k :: 0 <= k <= fuel - 1 ==> IsLink(n, Follow(n, n[p].target, k)) {
        forall k | 0 <= k <= fuel ensures IsLink(n, Follow(n, p, k)) {
          if k > 0 { assert Follow(n, p, k) == Follow(n, n[p].target, k - 1); }
        }
      } else {
        var k :| 0 <= k <= fuel - 1 && !IsLink(n, Follow(n, n[p].target, k));
        assert ResolveFuel(n, p, fuel).Some?;
        assert 0 <= k + 1 <= fuel && !IsLink(n, Follow(n, p, k + 1));
      }
    } else if !IsLink(n, p) {
      assert !IsLink(n, Follow(n, p, 0));
    }
  }

  /** More values than a set has elements, all drawn from it, repeat one. */
  lemma {:induction false} Pigeonhole(f: seq<Path>, keys: set<Path>)
    requires forall k :: 0 <= k < |f| ==> f[k] in keys
    requires |f| > |keys|
    ensures exists i, j :: 0 <= i < j < |f| && f[i] == f[j]
  {
    var last := f[|f| - 1];
    var init := f[..|f| - 1];
    if k :| 0 <= k < |init| && init[k] == last {
      assert f[k] == f[|f| - 1];
    } else {
      assert forall k :: 0 <= k < |init| ==> init[k] in keys - {last};
      assert |keys - {last}| == |keys| - 1;
      Pigeonhole(init, keys - {last});
      var i, j :| 0 <= i < j < |init| && init[i] == init[j];
      assert f[i] == f[j];
    }
  }

  /**
   * Resolution gives no result only on a loop: some path along the chain comes back within as
   * many steps as there are nodes, and every path up to it is a link.
   */
  lemma ResolveNoneIsLoop(n: Nodes, p: Path)
    requires Resolve(n, p).None?
    ensures exists i: nat, j: nat :: j <= |n| && LoopAt(n, p, i, j)
  {
    FuelRunsOut(n, p, |n|);
    var f := Chain(n, p, |n| + 1);
    assert forall k :: 0 <= k < |f| ==> f[k] in n.Keys by {
      forall k | 0 <= k < |f| ensures f[k] in n.Keys { assert IsLink(n, Follow(n, p, k)); }
    }
    assert |n.Keys| == |n|;
    Pigeonhole(f, n.Keys);
    var i, j :| 0 <= i < j < |f| && f[i] == f[j];
    assert LoopAt(n, p, i, j);
  }

  /** The chain from `p` is all links up to step `j`, where it is back at the path of step `i`. */
  predicate LoopAt(n: Nodes, p: Path, i: nat, j: nat) {
    i < j && Follow(n, p, i) == Follow(n, p, j) && forall k :: 0 <= k <= j ==> IsLink(n, Follow(n, p, k))
  }

  /** The first `len` paths of the chain from `p`, as a sequence of keys when they are all links. */
  function Chain(n: Nodes, p: Path, len: nat): (f: seq<Path>)
    ensures |f| == len && forall k :: 0 <= k < len ==> f[k] == Follow(n, p, k)
  {
    if len == 0 then [] else Chain(n, p, len - 1) + [Follow(n, p, len - 1)]
  }

  /** A chain that comes back to one of its paths never resolves, whatever the fuel. */
  lemma LoopNeverResolves(n: Nodes, p: Path, i: nat, j: nat, fuel: nat)
    requires LoopAt(n, p, i, j)
    ensures ResolveFuel(n, p, fuel).None?
  {
    AllLinks(n, p, i, j, fuel);
    FuelRunsOut(n, p, fuel);
  }

  /** Along such a chain every path is a link. */
  lemma {:induction false} AllLinks(n: Nodes, p: Path, i: nat, j: nat, bound: nat)
    requires i < j && Follow(n, p, i) == Follow(n, p, j)
    requires forall k :: 0 <= k <= j ==> IsLink(n, Follow(n, p, k))
    ensures forall k :: 0 <= k <= bound ==> IsLink(n, Follow(n, p, k))
    decreases bound
  {
    if bound > j {
      AllLinks(n, p, i, j, bound - 1);
      var k := bound - (j - i);
      assert i <= k < bound;
      FollowAdd(n, p, j, bound - j);
      FollowAdd(n, p, i, bound - j);
      assert Follow(n, p, bound) == Follow(n, p, k);
    }
  }

  /** `p.exists()`: follows links; a dangling link or a loop does not exist. */
  predicate Exists(n: Nodes, p: Path) {
    var r := Resolve(n, p);
    r.Some? && r.value in n
  }

  /** `p.is_file()`, following links. */
  predicate IsFile(n: Nodes, p: Path) {
    var r := Resolve(n, p);
    r.Some? && r.value in n && n[r.value].File?
  }

  /** `p.is_dir()`, following links. */
  predicate IsDir(n: Nodes, p: Path) {
    var r := Resolve(n, p);
    r.Some? && r.value in n && n[r.value].Dir?
  }

  /**
   * The pathlib queries follow links: on a path that is not a link they look at its own node; on a
   * link that resolves they answer as for its target; a file is never a directory, and both exist.
   */
  lemma QueriesFollowLinks(n: Nodes, p: Path)
    ensures !IsLink(n, p) ==> (Exists(n, p) <==> p in n) && (IsFile(n, p) <==> p in n && n[p].File?)
                              && (IsDir(n, p) <==> p in n && n[p].Dir?)
    ensures IsLink(n, p) && Resolve(n, p).Some? ==>
              (Exists(n, p) <==> Exists(n, n[p].target)) && (IsFile(n, p) <==> IsFile(n, n[p].target))
              && (IsDir(n, p) <==> IsDir(n, n[p].target))
    ensures IsFile(n, p) || IsDir(n, p) ==> Exists(n, p)
    ensures !(IsFile(n, p) && IsDir(n, p))
  {
    if IsLink(n, p) && Resolve(n, p).Some? {
      ResolveStep(n, p);
    }
  }

  /** No node lies strictly below `p`. */
  predicate NoneBelow(n: Nodes, p: Path) {
    forall q :: q in n ==> !IsStrictAncestor(p, q)
  }

  /** No node lies at or below `p`. */
  predicate NoneAtOrBelow(n: Nodes, p: Path) {
    forall q :: q in n ==> !IsPrefix(p, q)
  }

  /** The nodes outside the subtree rooted at `src`. */
  function Outside(n: Nodes, src: Path): (m: Nodes)
    ensures forall q :: q in m <==> q in n && !IsPrefix(src, q)
    ensures forall q :: q in m ==> m[q] == n[q]
  {
    map q | q in n && !IsPrefix(src, q) :: n[q]
  }

  /** The subtree rooted at `src`, re-rooted at `dst`. */
  function Rerooted(n: Nodes, src: Path, dst: Path): (m: Nodes)
    ensures forall r :: src + r in n ==> dst + r in m && m[dst + r] == n[src + r]
    ensures forall q :: q in m ==> IsPrefix(dst, q) && src + q[|dst|..] in n && m[q] == n[src + q[|dst|..]]
  {
    var m := map q | q in Targets(n, src, dst) :: n[src + q[|dst|..]];
    forall r | src + r in n ensures dst + r in m && m[dst + r] == n[src + r] {
      assert (dst + r)[|dst|..] == r;
    }
    m
  }

  /** Where the nodes at or below `src` land when the subtree is re-rooted at `dst`. */
  function Targets(n: Nodes, src: Path, dst: Path): (t: set<Path>)
    ensures forall r :: src + r in n ==> dst + r in t
    ensures forall q :: q in t ==> IsPrefix(dst, q) && src + q[|dst|..] in n
  {
    var t := set r | r in Suffixes(n, src) :: dst + r;
    forall r | src + r in n ensures dst + r in t {
      PrefixOfJoin(src, r);
      assert (src + r)[|src|..] == r;
      assert r in Suffixes(n, src);
    }
    forall q | q in t ensures IsPrefix(dst, q) && src + q[|dst|..] in n {
      var r :| r in Suffixes(n, src) && q == dst + r;
      PrefixOfJoin(dst, r);
      assert q[|dst|..] == r;
    }
    t
  }

  /** The relative paths of the nodes at or below `src`. */
  function Suffixes(n: Nodes, src: Path): (s: set<Path>)
    ensures forall r :: r in s ==> src + r in n
  {
    var s := set q | q in n && IsPrefix(src, q) :: q[|src|..];
    forall r | r in s ensures src + r in n {
      var q :| q in n && IsPrefix(src, q) && r == q[|src|..];
      assert src + r == q;
    }
    s
  }

  /** The nodes after the subtree at `src` is renamed to `dst`; nothing outside either subtree moves. */
  function Moved(n: Nodes, src: Path, dst: Path): (m: Nodes)
  {
    Outside(n, src) + Rerooted(n, src, dst)
  }

  /** Moving a node that has nothing below it changes exactly two keys. */
  lemma MovedLeaf(n: Nodes, src: Path, dst: Path)
    requires src in n && NoneBelow(n, src)
    ensures Moved(n, src, dst) == (n - {src})[dst := n[src]]
  {
    var m := Moved(n, src, dst);
    var e := (n - {src})[dst := n[src]];
    assert src + [] == src;
    assert dst + [] == dst;
    forall q | q in m ensures q in e && m[q] == e[q] {
      if q in Rerooted(n, src, dst) {
        var r := q[|dst|..];
        assert src + r in n;
        assert r == [] by {
          if r != [] {
            assert false;
          }
        }
        assert q == dst;
      }
    }
    forall q | q in e ensures q in m {
      if q != dst {
        assert q in n && q != src;
        if IsPrefix(src, q) {
          assert false;
        }
      }
    }
    assert m.Keys == e.Keys;
  }

  /** The nodes at or below `src`, where they are. */
  function Subtree(n: Nodes, src: Path): (m: Nodes)
    ensures forall q :: q in m <==> q in n && IsPrefix(src, q)
    ensures forall q :: q in m ==> m[q] == n[q]
  {
    map q | q in n && IsPrefix(src, q) :: n[q]
  }

  lemma SplitAt(n: Nodes, src: Path)
    ensures Outside(n, src) + Subtree(n, src) == n
  {
    assert (Outside(n, src) + Subtree(n, src)).Keys == n.Keys;
  }

  lemma SourceGoneAfterMove(n: Nodes, src: Path, dst: Path)
    requires NoneAtOrBelow(n, dst)
    ensures src !in Moved(n, src, dst)
  {
    if src in Rerooted(n, src, dst) {
      assert IsPrefix(dst, src) && src + src[|dst|..] in n;
      PrefixOfJoin(src, src[|dst|..]);
      PrefixTransitive(dst, src, src + src[|dst|..]);
    }
  }

  lemma OutsideAfterMove(n: Nodes, src: Path, dst: Path)
    requires NoneAtOrBelow(n, dst)
    ensures Outside(Moved(n, src, dst), dst) == Outside(n, src)
  {
    var a := Moved(n, src, dst);
    forall q | q in Outside(a, dst) ensures q in Outside(n, src) {
      if q in Rerooted(n, src, dst) { assert IsPrefix(dst, q); }
    }
    assert Outside(a, dst).Keys == Outside(n, src).Keys;
  }

  /** A key below `dst` after the move came from the moved subtree. */
  lemma ComesFromSubtree(n: Nodes, src: Path, dst: Path, r: Path)
    requires NoneAtOrBelow(n, dst)
    requires dst + r in Moved(n, src, dst)
    ensures src + r in n && Moved(n, src, dst)[dst + r] == n[src + r]
  {
    PrefixOfJoin(dst, r);
    assert dst + r !in Outside(n, src);
    assert (dst + r)[|dst|..] == r;
  }

  lemma BackFromSubtree(n: Nodes, src: Path, dst: Path, q: Path)
    requires NoneAtOrBelow(n, dst)
    requires q in n && IsPrefix(src, q)
    ensures q in Rerooted(Moved(n, src, dst), dst, src)
  {
    var r := q[|src|..];
    assert q == src + r;
    assert dst + r in Rerooted(n, src, dst);
    assert dst + r in Moved(n, src, dst);
  }

  lemma RerootedBack(n: Nodes, src: Path, dst: Path)
    requires NoneAtOrBelow(n, dst)
    ensures Rerooted(Moved(n, src, dst), dst, src) == Subtree(n, src)
  {
    var back := Rerooted(Moved(n, src, dst), dst, src);
    forall q | q in back ensures q in Subtree(n, src) && back[q] == n[q] {
      var r := q[|src|..];
      assert q == src + r;
      ComesFromSubtree(n, src, dst, r);
    }
    forall q | q in Subtree(n, src) ensures q in back {
      BackFromSubtree(n, src, dst, q);
    }
    assert back.Keys == Subtree(n, src).Keys;
  }

  /**
   * Moving `src` to an empty place `dst`, putting a link at `src`, then deleting that link and
   * moving `dst` back restores every node: the link/unlink round trip.
   */
  lemma MoveRoundTrip(n: Nodes, src: Path, dst: Path)
    requires src in n && NoneAtOrBelow(n, dst)
    ensures Moved(Moved(n, src, dst)[src := Symlink(dst)] - {src}, dst, src) == n
  {
    var a := Moved(n, src, dst);
    SourceGoneAfterMove(n, src, dst);
    assert a[src := Symlink(dst)] - {src} == a;
    OutsideAfterMove(n, src, dst);
    RerootedBack(n, src, dst);
    SplitAt(n, src);
  }

  /** Why a new entry cannot be created at `p`, if it cannot: its parent must be an existing directory. */
  function ParentError(n: Nodes, p: Path): (e: Option<OsErrorKind>)
    ensures e.None? <==> |p| > 0 && Parent(p) in n && n[Parent(p)].Dir?
    ensures |p| == 0 ==> e == Some(FileExists)
    ensures |p| > 0 && Parent(p) !in n ==> e == Some(FileNotFound)
    ensures |p| > 0 && Parent(p) in n && !n[Parent(p)].Dir? ==> e == Some(NotADirectory)
  {
    if |p| == 0 then Some(FileExists)
    else if Parent(p) !in n then Some(FileNotFound)
    else if !n[Parent(p)].Dir? then Some(NotADirectory)
    else None
  }

  /**
   * `src.replace(dst)` (rename(2)): moves the node at `src`, with everything below it, to `dst`.
   * An existing non-directory at `dst` is overwritten.
   */
  function ReplaceStep(n: Nodes, src: Path, dst: Path): (r: Result<Nodes, Failure>)
    ensures src !in n ==> r == Err(Os(FileNotFound))
    ensures r.Ok? <==>
              src in n && ParentError(n, dst).None?
              && (src == dst || (!IsPrefix(src, dst) && (dst in n ==> !n[dst].Dir? && !n[src].Dir?)))
    ensures r.Ok? && src == dst ==> r.value == n
    ensures r.Ok? && src != dst ==> dst in r.value && r.value[dst] == n[src]
  {
    if src !in n then Err(Os(FileNotFound))
    else if ParentError(n, dst).Some? then Err(Os(ParentError(n, dst).value))
    else if src == dst then Ok(n)
    else if IsPrefix(src, dst) then Err(Os(InvalidArgument))
    else if dst in n && n[dst].Dir? then Err(Os(IsADirectory))
    else if dst in n && n[src].Dir? then Err(Os(NotADirectory))
    else
      MovedArrives(n, src, dst);
      Ok(Moved(n, src, dst))
  }

  /** `link.symlink_to(target)`: a new link, never over an existing entry. */
  function SymlinkStep(n: Nodes, link: Path, target: Path): (r: Result<Nodes, Failure>)
    ensures r.Ok? <==> link !in n && ParentError(n, link).None?
    ensures r.Ok? ==> r.value == n[link := Symlink(target)]
    ensures r.Err? ==> r == Err(Os(if link in n then FileExists else ParentError(n, link).value))
  {
    if link in n then Err(Os(FileExists))
    else if ParentError(n, link).Some? then Err(Os(ParentError(n, link).value))
    else Ok(n[link := Symlink(target)])
  }

  /** `p.unlink()`: removes a file or a link, never a directory. */
  function UnlinkStep(n: Nodes, p: Path): (r: Result<Nodes, Failure>)
    ensures r.Ok? <==> p in n && !n[p].Dir?
    ensures r.Ok? ==> r.value == n - {p}
    ensures r.Err? ==> r == Err(Os(if p !in n then FileNotFound else IsADirectory))
  {
    if p !in n then Err(Os(FileNotFound))
    else if n[p].Dir? then Err(Os(IsADirectory))
    else Ok(n - {p})
  }

  /** The nearest of `q` and its ancestors that exists, if any does. */
  function NearestExisting(n: Nodes, q: Path): (a: Option<Path>)
    decreases |q|
    ensures a.Some? ==> a.value in n && IsPrefix(a.value, q)
    ensures a.Some? ==> forall k :: |a.value| < k <= |q| ==> q[..k] !in n
    ensures a.None? ==> forall k :: 0 <= k <= |q| ==> q[..k] !in n
  {
    if q in n then
      assert q[..|q|] == q;
      Some(q)
    else if |q| == 0 then
      assert q[..0] == q;
      None
    else
      var a := NearestExisting(n, Parent(q));
      assert forall k :: 0 <= k < |q| ==> Parent(q)[..k] == q[..k];
      assert q[..|q|] == q;
      if a.Some? then
        PrefixTransitive(a.value, Parent(q), q);
        a
      else a
  }

  /** `mkdir(parents=True)` can make `q`: the nearest existing one of `q` and its ancestors is a directory. */
  predicate CanMakeDirs(n: Nodes, q: Path) {
    NearestExisting(n, q).Some? && n[NearestExisting(n, q).value].Dir?
  }

  /**
   * `q.mkdir(parents=True, exist_ok=True)`: makes `q` and its missing ancestors directories.
   * An existing directory is accepted; an existing non-directory raises FileExistsError.
   */
  function EnsureDir(n: Nodes, q: Path): (r: Result<Nodes, Failure>)
    decreases |q|
    ensures r.Ok? ==> q in r.value && r.value[q].Dir?
    ensures r.Ok? ==> forall p :: p in n ==> p in r.value && r.value[p] == n[p]
    ensures r.Ok? ==> forall p :: p in r.value && p !in n ==> IsPrefix(p, q) && r.value[p].Dir?
    ensures r.Ok? ==> forall p :: p in r.value && p !in n ==>
                        |p| > 0 && Parent(p) in r.value && r.value[Parent(p)].Dir?
    ensures r.Ok? && q !in n ==> |q| > 0 && Parent(q) in r.value && r.value[Parent(q)].Dir?
    ensures q in n ==> (r.Ok? <==> n[q].Dir?)
    ensures q in n && r.Ok? ==> r.value == n
    ensures r.Ok? <==> CanMakeDirs(n, q)
    ensures q in n && r.Err? ==> r == Err(Os(FileExists))
    ensures q !in n && r.Err? ==> r == Err(Os(if NearestExisting(n, q).None? then FileNotFound else NotADirectory))
    ensures q !in n && |q| > 0 && Parent(q) in n && n[Parent(q)].Dir? ==> r == Ok(n[q := Dir])
  {
    if q in n then (if n[q].Dir? then Ok(n) else Err(Os(FileExists)))
    else if |q| == 0 then Err(Os(FileNotFound))
    else if Parent(q) in n then
      (if n[Parent(q)].Dir? then Ok(n[q := Dir]) else Err(Os(NotADirectory)))
    else
      match EnsureDir(n, Parent(q))
      case Err(e) => Err(e)
      case Ok(m) =>
        assert forall p :: IsPrefix(p, Parent(q)) ==> IsPrefix(p, q) by {
          forall p | IsPrefix(p, Parent(q)) ensures IsPrefix(p, q) { PrefixTransitive(p, Parent(q), q); }
        }
        Ok(m[q := Dir])
  }

  /** `p.mkdir(parents=True)`: as EnsureDir, but `p` itself must not exist yet. */
  function MkdirStep(n: Nodes, p: Path): (r: Result<Nodes, Failure>)
    ensures p in n ==> r == Err(Os(FileExists))
    ensures r.Ok? ==> p !in n && p in r.value && r.value[p].Dir?
    ensures r.Ok? ==> forall q :: q in n ==> q in r.value && r.value[q] == n[q]
    ensures r.Ok? ==> forall q :: q in r.value && q !in n ==> IsPrefix(q, p) && r.value[q].Dir?
    ensures r.Ok? ==> forall q :: q in r.value && q !in n ==>
                        |q| > 0 && Parent(q) in r.value && r.value[Parent(q)].Dir?
    ensures r.Ok? ==> |p| > 0 && Parent(p) in r.value && r.value[Parent(p)].Dir?
    ensures r.Ok? <==> p !in n && CanMakeDirs(n, p)
    ensures p !in n ==> r == EnsureDir(n, p)
  {
    if p in n then Err(Os(FileExists)) else EnsureDir(n, p)
  }

  /** Moving a node with nothing below it to a free place whose parent is a directory succeeds and changes exactly those two entries. */
  lemma ReplaceLeaf(n: Nodes, src: Path, dst: Path)
    requires src in n && NoneBelow(n, src) && !n[src].Dir?
    requires dst !in n && ParentError(n, dst).None?
    ensures ReplaceStep(n, src, dst) == Ok((n - {src})[dst := n[src]])
  {
    MovedLeaf(n, src, dst);
  }

  /** The filesystem of one run: the commands change `nodes` only through the four calls below. */
  class FileSystem {
    var nodes: Nodes

    constructor (initial: Nodes)
      ensures nodes == initial
    {
      nodes := initial;
    }

    /** `src.replace(dst)`. */
    method Replace(src: Path, dst: Path) returns (r: Outcome<Failure>)
      modifies this
      ensures Applied(ReplaceStep(old(nodes), src, dst), old(nodes), nodes, r)
    {
      r := Apply(ReplaceStep(nodes, src, dst));
    }

    /** `link.symlink_to(target)`. */
    method SymlinkTo(link: Path, target: Path) returns (r: Outcome<Failure>)
      modifies this
      ensures Applied(SymlinkStep(old(nodes), link, target), old(nodes), nodes, r)
    {
      r := Apply(SymlinkStep(nodes, link, target));
    }

    /** `p.unlink()`. */
    method Unlink(p: Path) returns (r: Outcome<Failure>)
      modifies this
      ensures Applied(UnlinkStep(old(nodes), p), old(nodes), nodes, r)
    {
      r := Apply(UnlinkStep(nodes, p));
    }

    /** `p.mkdir(parents=True)`. */
    method Mkdir(p: Path) returns (r: Outcome<Failure>)
      modifies this
      ensures Applied(MkdirStep(old(nodes), p), old(nodes), nodes, r)
    {
      r := Apply(MkdirStep(nodes, p));
    }

    /** Installs the new nodes of a call that succeeded; a failed call changes nothing. */
    method Apply(step: Result<Nodes, Failure>) returns (r: Outcome<Failure>)
      modifies this
      ensures Applied(step, old(nodes), nodes, r)
    {
      match step
      case Ok(m) => nodes := m; r := Pass;
      case Err(e) => r := Fail(e);
    }
  }

  /** `after` and `r` are what performing `step` on `before` leaves. */
  predicate Applied(step: Result<Nodes, Failure>, before: Nodes, after: Nodes, r: Outcome<Failure>) {
    match step
    case Ok(m) => r == Pass && after == m
    case Err(e) => r == Fail(e) && after == before
  }

  /** The moved node is found at its destination. */
  lemma MovedArrives(n: Nodes, src: Path, dst: Path)
    requires src in n
    ensures dst in Moved(n, src, dst) && Moved(n, src, dst)[dst] == n[src]
  {
    assert src + [] == src && dst + [] == dst;
    assert dst in Rerooted(n, src, dst);
  }

  /** A successful replace between two different paths is the subtree move. */
  lemma ReplaceIsMove(n: Nodes, src: Path, dst: Path)
    requires src != dst && ReplaceStep(n, src, dst).Ok?
    ensures ReplaceStep(n, src, dst).value == Moved(n, src, dst)
  {
  }

  /** A replace onto a free place whose parent is a directory, outside the moved subtree, is the subtree move. */
  lemma ReplaceIntoFree(n: Nodes, src: Path, dst: Path)
    requires src in n && dst !in n && ParentError(n, dst).None? && !IsPrefix(src, dst)
    ensures ReplaceStep(n, src, dst) == Ok(Moved(n, src, dst))
  {
  }
}
