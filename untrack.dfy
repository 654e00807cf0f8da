/**
 * `untrack` (commands/untrack.py): checks on the input link and its project, then the link is
 * deleted and the child-side node moved back to where the link was.
 */
module Untrack {
  import opened Wrappers
  import opened Paths
  import opened FileSystem
  import opened Discovery
  import opened Track

  /** The planned transition: delete the link at `link`, then move `childFile` to `link`. */
  datatype Restore = Restore(link: Path, childFile: Path)

  /** The checks up to the choice of the child-side path: the project and the resolved link target. */
  function UntrackPrelude(n: Nodes, s: Settings, repos: set<Path>, entries: seq<string>, input: Path)
    : (r: Result<(Project, Path), Failure>)
    ensures !Exists(n, input) <==> r == Err(TargetNotFound)
    ensures Exists(n, input) && InitProjectFromPath(n, s, repos, entries, input).Err? ==>
              r == Err(InitProjectFromPath(n, s, repos, entries, input).error)
    ensures Exists(n, input) && InitProjectFromPath(n, s, repos, entries, input).Ok? && !IsLink(n, input) ==>
              r == Err(NotASymlink)
    ensures Exists(n, input) && InitProjectFromPath(n, s, repos, entries, input).Ok? && IsLink(n, input)
            && !IsStrictAncestor(InitProjectFromPath(n, s, repos, entries, input).value.childDir, Resolve(n, input).value) ==>
              r == Err(NotLinkedUnderChild)
    ensures Exists(n, input) && InitProjectFromPath(n, s, repos, entries, input).Ok? && IsLink(n, input)
            && IsStrictAncestor(InitProjectFromPath(n, s, repos, entries, input).value.childDir, Resolve(n, input).value) ==>
              r == Ok((InitProjectFromPath(n, s, repos, entries, input).value, Resolve(n, input).value))
    ensures r.Ok? ==> InitProjectFromPath(n, s, repos, entries, input) == Ok(r.value.0)
                      && IsLink(n, input) && Resolve(n, input) == Some(r.value.1)
                      && r.value.1 in n && IsStrictAncestor(r.value.0.childDir, r.value.1)
  {
    if !Exists(n, input) then Err(TargetNotFound)
    else match InitProjectFromPath(n, s, repos, entries, input)
      case Err(e) =>
        assert e != TargetNotFound;
        Err(e)
      case Ok(pr) =>
        if !IsLink(n, input) then Err(NotASymlink)
        else
          var q := Resolve(n, input).value;
          if !IsStrictAncestor(pr.childDir, q) then Err(NotLinkedUnderChild)
          else Ok((pr, q))
  }

  /**
   * The validation chain of `untrack` as written: the resolved, child-side target is made
   * relative to the PARENT dir, so a success needs the child dir to lie inside the parent dir.
   */
  function UntrackCheck(n: Nodes, s: Settings, repos: set<Path>, entries: seq<string>, input: Path)
    : (r: Result<Restore, Failure>)
    ensures UntrackPrelude(n, s, repos, entries, input).Err? ==>
              r == Err(UntrackPrelude(n, s, repos, entries, input).error)
    ensures UntrackPrelude(n, s, repos, entries, input).Ok? ==>
              var (pr, q) := UntrackPrelude(n, s, repos, entries, input).value;
              (r.Ok? <==> IsPrefix(pr.parentDir, q))
              && (r.Ok? ==> r.value == Restore(input, pr.childDir + q[|pr.parentDir|..]))
              && (!IsPrefix(pr.parentDir, pr.childDir) ==> r == Err(NotUnderParent))
  {
    match UntrackPrelude(n, s, repos, entries, input)
    case Err(e) => Err(e)
    case Ok((pr, q)) =>
      assert IsPrefix(pr.parentDir, q) ==> IsPrefix(pr.parentDir, pr.childDir) by {
        if IsPrefix(pr.parentDir, q) {
          PrefixesComparable(pr.parentDir, pr.childDir, q);
          ChildNotAboveParent(n, s, repos, entries, input, pr);
        }
      }
      match RelativeTo(q, pr.parentDir)
      case None => Err(NotUnderParent)
      case Some(rel) => Ok(Restore(input, pr.childDir + rel))
  }

  /** A discovered child dir is never the parent dir or one of its ancestors. */
  lemma ChildNotAboveParent(n: Nodes, s: Settings, repos: set<Path>, entries: seq<string>, input: Path, pr: Project)
    requires InitProjectFromPath(n, s, repos, entries, input) == Ok(pr)
    ensures !IsPrefix(pr.childDir, pr.parentDir)
  {
    var e :| e != GitDirName && pr.childDir == Child(s.etHome, e);
    PrefixOfJoin(s.etHome, if e == "" then [] else [e]);
    assert IsPrefix(s.etHome, pr.childDir) by {
      if e == "" { assert pr.childDir == s.etHome + []; }
    }
    if IsPrefix(pr.childDir, pr.parentDir) {
      PrefixTransitive(s.etHome, pr.childDir, pr.parentDir);
    }
  }

  /** The validation chain with the target made relative to the CHILD dir: the child-side path is the target itself. */
  function UntrackCheckCorrected(n: Nodes, s: Settings, repos: set<Path>, entries: seq<string>, input: Path)
    : (r: Result<Restore, Failure>)
    ensures UntrackPrelude(n, s, repos, entries, input).Err? ==>
              r == Err(UntrackPrelude(n, s, repos, entries, input).error)
    ensures UntrackPrelude(n, s, repos, entries, input).Ok? ==>
              r == Ok(Restore(input, UntrackPrelude(n, s, repos, entries, input).value.1))
  {
    match UntrackPrelude(n, s, repos, entries, input)
    case Err(e) => Err(e)
    case Ok((pr, q)) =>
      match RelativeTo(q, pr.childDir)
      case None => Err(NotUnderChild)
      case Some(rel) => Ok(Restore(input, pr.childDir + rel))
  }

  /** The nodes and outcome after the unlink and the move back, each of which may fail. */
  predicate RestoreApplied(before: Nodes, p: Restore, after: Nodes, r: Outcome<Failure>) {
    match UnlinkStep(before, p.link)
    case Err(e) => r == Fail(e) && after == before
    case Ok(m) => Applied(ReplaceStep(m, p.childFile, p.link), m, after, r)
  }

  /** Deletes the link, then moves the child-side node back in its place. */
  method RestoreLink(fs: FileSystem, p: Restore) returns (r: Outcome<Failure>)
    modifies fs
    ensures RestoreApplied(old(fs.nodes), p, fs.nodes, r)
  {
    r := fs.Unlink(p.link);
    if r.Fail? {
      return;
    }
    r := fs.Replace(p.childFile, p.link);
  }

  /** `untrack(filepath)` as written: every check runs before the first change. */
  method Untrack(fs: FileSystem, s: Settings, repos: set<Path>, entries: seq<string>, input: Path)
    returns (r: Outcome<Failure>)
    modifies fs
    ensures var c := UntrackCheck(old(fs.nodes), s, repos, entries, input);
            (c.Err? ==> r == Fail(c.error) && fs.nodes == old(fs.nodes))
            && (c.Ok? ==> RestoreApplied(old(fs.nodes), c.value, fs.nodes, r))
  {
    var c := UntrackCheck(fs.nodes, s, repos, entries, input);
    if c.Err? {
      return Fail(c.error);
    }
    r := RestoreLink(fs, c.value);
  }

  /** `untrack` with the target made relative to the child dir. */
  method UntrackCorrected(fs: FileSystem, s: Settings, repos: set<Path>, entries: seq<string>, input: Path)
    returns (r: Outcome<Failure>)
    modifies fs
    ensures var c := UntrackCheckCorrected(old(fs.nodes), s, repos, entries, input);
            (c.Err? ==> r == Fail(c.error) && fs.nodes == old(fs.nodes))
            && (c.Ok? ==> RestoreApplied(old(fs.nodes), c.value, fs.nodes, r))
  {
    var c := UntrackCheckCorrected(fs.nodes, s, repos, entries, input);
    if c.Err? {
      return Fail(c.error);
    }
    r := RestoreLink(fs, c.value);
  }

  /** What the two steps of linking leave: the subtree moved and a link at `src`. */
  lemma LinkedNodes(n: Nodes, src: Path, dst: Path, m: Nodes, linked: Nodes)
    requires src in n && NoneAtOrBelow(n, dst)
    requires ReplaceStep(n, src, dst) == Ok(m) && SymlinkStep(m, src, dst) == Ok(linked)
    ensures src !in m && dst in m && m[dst] == n[src] && !IsPrefix(dst, src)
    ensures linked == m[src := Symlink(dst)] && ParentError(m, src).None?
    ensures Moved(m[src := Symlink(dst)] - {src}, dst, src) == n
  {
    assert dst !in n;
    ReplaceIsMove(n, src, dst);
    SourceGoneAfterMove(n, src, dst);
    MovedArrives(n, src, dst);
    MoveRoundTrip(n, src, dst);
  }

  /** Moving the subtree back from its empty former place succeeds and gives back `n`. */
  lemma MoveBack(n: Nodes, src: Path, dst: Path, m: Nodes)
    requires Moved(m[src := Symlink(dst)] - {src}, dst, src) == n
    requires src !in m && dst in m && ParentError(m, src).None? && !IsPrefix(dst, src)
    ensures ReplaceStep(m, dst, src) == Ok(n)
  {
    assert m[src := Symlink(dst)] - {src} == m;
    ReplaceIntoFree(m, dst, src);
  }

  /** The two steps of linking leave a link at `src` to the moved node, and restoring it gives back `n`. */
  lemma RestoreAfterLink(n: Nodes, src: Path, dst: Path, m: Nodes, linked: Nodes)
    requires src in n && !n[src].Symlink? && NoneAtOrBelow(n, dst)
    requires ReplaceStep(n, src, dst) == Ok(m) && SymlinkStep(m, src, dst) == Ok(linked)
    ensures IsLink(linked, src) && dst in linked && !IsLink(linked, dst)
    ensures Resolve(linked, src) == Some(dst)
    ensures RestoreApplied(linked, Restore(src, dst), n, Pass)
  {
    LinkedNodes(n, src, dst, m, linked);
    ResolveOneLink(linked, src);
    UnlinkLink(m, src, dst);
    MoveBack(n, src, dst, m);
    StepsRestore(linked, Restore(src, dst), m, n);
  }

  /** Deleting a link just added at a free path gives back the nodes from before it. */
  lemma UnlinkLink(m: Nodes, src: Path, dst: Path)
    requires src !in m
    ensures UnlinkStep(m[src := Symlink(dst)], src) == Ok(m)
  {
    assert m[src := Symlink(dst)] - {src} == m;
  }

  /** Both steps of a restore succeeding is a restore that passes. */
  lemma StepsRestore(before: Nodes, p: Restore, m: Nodes, after: Nodes)
    requires UnlinkStep(before, p.link) == Ok(m) && ReplaceStep(m, p.childFile, p.link) == Ok(after)
    ensures RestoreApplied(before, p, after, Pass)
  {
  }

  /**
   * Link, then the corrected unlink, restores the filesystem: on a file with nothing at or below
   * its destination, once both steps of `track` succeeded and the link's child dir holds the
   * destination, the corrected checks pass and both of its steps succeed, giving back the nodes
   * as they were before `track`.
   */
  lemma LinkUnlinkRoundTrip(n: Nodes, s: Settings, repos: set<Path>, entries: seq<string>, input: Path,
                            intuit: Path -> ProjectDirs, m: Nodes, linked: Nodes, pr: Project)
    requires !IsLink(n, input) && TrackCheck(n, input, intuit).Ok?
    requires NoneAtOrBelow(n, TrackCheck(n, input, intuit).value.dst)
    requires ReplaceStep(n, input, TrackCheck(n, input, intuit).value.dst) == Ok(m)
    requires SymlinkStep(m, input, TrackCheck(n, input, intuit).value.dst) == Ok(linked)
    requires InitProjectFromPath(linked, s, repos, entries, input) == Ok(pr)
    requires IsStrictAncestor(pr.childDir, TrackCheck(n, input, intuit).value.dst)
    ensures UntrackCheckCorrected(linked, s, repos, entries, input)
            == Ok(Restore(input, TrackCheck(n, input, intuit).value.dst))
    ensures RestoreApplied(linked, Restore(input, TrackCheck(n, input, intuit).value.dst), n, Pass)
  {
    var p := TrackCheck(n, input, intuit).value;
    assert p.src == input && input in n;
    RestoreAfterLink(n, input, p.dst, m, linked);
    assert UntrackPrelude(linked, s, repos, entries, input) == Ok((pr, p.dst));
  }

  /**
   * After a successful `track`, the as-written `untrack` of the same path always refuses, without
   * changing anything, when the child dir does not lie inside the parent dir.
   */
  lemma UntrackAfterTrackRefused(n: Nodes, s: Settings, repos: set<Path>, entries: seq<string>, input: Path,
                                 intuit: Path -> ProjectDirs, m: Nodes, linked: Nodes, pr: Project)
    requires !IsLink(n, input) && TrackCheck(n, input, intuit).Ok?
    requires ReplaceStep(n, input, TrackCheck(n, input, intuit).value.dst) == Ok(m)
    requires SymlinkStep(m, input, TrackCheck(n, input, intuit).value.dst) == Ok(linked)
    requires InitProjectFromPath(linked, s, repos, entries, input) == Ok(pr)
    requires !IsPrefix(pr.parentDir, pr.childDir)
    ensures UntrackCheck(linked, s, repos, entries, input).Err?
  {
    var dst := TrackCheck(n, input, intuit).value.dst;
    assert TrackCheck(n, input, intuit).value.src == input;
    assert input in linked;
  }
}
