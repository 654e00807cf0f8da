/**
 * `track` (commands/track.py): checks on the resolved input path, then the file is moved into
 * the follower tree and a link to its new place is left where it was.
 */
module Track {
  import opened Wrappers
  import opened Paths
  import opened FileSystem

  /** What `intuit_project_from_path` reports for a path: the two trees of its project. */
  datatype ProjectDirs = ProjectDirs(sourceDir: Path, followerDir: Path)

  /** The planned transition: move `src` to `dst`, then link `src` to `dst`. */
  datatype Plan = Plan(src: Path, dst: Path)

  /** The validation chain of `track`, in the order the code runs it; no check changes anything. */
  function TrackCheck(n: Nodes, input: Path, intuit: Path -> ProjectDirs): (r: Result<Plan, Failure>)
    ensures Resolve(n, input).None? ==> r == Err(SymlinkLoop)
    ensures Resolve(n, input).Some? && !Exists(n, input) ==> r == Err(PathDoesNotExist)
    ensures IsDir(n, input) ==> r == Err(NotAFile)
    ensures r != Err(AlreadySymlinked)
    ensures Resolve(n, input).Some? && IsFile(n, input)
            && !IsPrefix(intuit(Resolve(n, input).value).sourceDir, Resolve(n, input).value) ==>
              r == Err(FromFollowerDir)
    ensures Resolve(n, input).Some? && IsFile(n, input)
            && IsPrefix(intuit(Resolve(n, input).value).sourceDir, Resolve(n, input).value)
            && Exists(n, intuit(Resolve(n, input).value).followerDir
                         + Resolve(n, input).value[|intuit(Resolve(n, input).value).sourceDir|..]) ==>
              r == Err(DestinationExists(intuit(Resolve(n, input).value).followerDir
                                         + Resolve(n, input).value[|intuit(Resolve(n, input).value).sourceDir|..]))
    ensures r.Ok? <==>
              Resolve(n, input).Some? && IsFile(n, input)
              && IsPrefix(intuit(Resolve(n, input).value).sourceDir, Resolve(n, input).value)
              && !Exists(n, intuit(Resolve(n, input).value).followerDir
                            + Resolve(n, input).value[|intuit(Resolve(n, input).value).sourceDir|..])
    ensures r.Ok? ==>
              var f := Resolve(n, input).value;
              var pd := intuit(f);
              r.value.src == f && f in n && n[f].File?
              && r.value.dst == pd.followerDir + f[|pd.sourceDir|..] && !Exists(n, r.value.dst)
  {
    match Resolve(n, input)
    case None => Err(SymlinkLoop)
    case Some(f) =>
      assert Resolve(n, f) == Some(f);
      if !Exists(n, f) then Err(PathDoesNotExist)
      else if !IsFile(n, f) then Err(NotAFile)
      else if IsLink(n, f) then Err(AlreadySymlinked)
      else
        var pd := intuit(f);
        match RelativeTo(f, pd.sourceDir)
        case None => Err(FromFollowerDir)
        case Some(rel) =>
          var dst := pd.followerDir + rel;
          if Exists(n, dst) then Err(DestinationExists(dst)) else Ok(Plan(f, dst))
  }

  /** The nodes and outcome after the two mutating steps of a plan, each of which may fail. */
  predicate LinkApplied(before: Nodes, p: Plan, after: Nodes, r: Outcome<Failure>) {
    match ReplaceStep(before, p.src, p.dst)
    case Err(e) => r == Fail(e) && after == before
    case Ok(m) => Applied(SymlinkStep(m, p.src, p.dst), m, after, r)
  }

  /** `track(filepath)`: every check runs before the first change; then move, then link. */
  method Track(fs: FileSystem, input: Path, intuit: Path -> ProjectDirs) returns (r: Outcome<Failure>)
    modifies fs
    ensures var c := TrackCheck(old(fs.nodes), input, intuit);
            (c.Err? ==> r == Fail(c.error) && fs.nodes == old(fs.nodes))
            && (c.Ok? ==> LinkApplied(old(fs.nodes), c.value, fs.nodes, r))
  {
    var c := TrackCheck(fs.nodes, input, intuit);
    if c.Err? {
      return Fail(c.error);
    }
    r := fs.Replace(c.value.src, c.value.dst);
    if r.Fail? {
      return;
    }
    r := fs.SymlinkTo(c.value.src, c.value.dst);
  }

  /** Linked, as the pairing intends: a link at `src` that resolves to a node at `dst` that is not a link. */
  predicate IsLinked(n: Nodes, src: Path, dst: Path) {
    IsLink(n, src) && dst in n && !IsLink(n, dst) && Resolve(n, src) == Some(dst)
  }

  /**
   * When the destination is free and its directory exists, both steps succeed, exactly the two
   * paths change, the source becomes a link to the file's new place, and the result is linked.
   */
  lemma LinkEffect(n: Nodes, src: Path, dst: Path)
    requires src in n && n[src].File? && NoneBelow(n, src)
    requires dst !in n && ParentError(n, dst).None? && ParentError(n, src).None?
    ensures ReplaceStep(n, src, dst) == Ok((n - {src})[dst := File])
    ensures SymlinkStep((n - {src})[dst := File], src, dst) == Ok((n - {src})[dst := File][src := Symlink(dst)])
    ensures IsLinked((n - {src})[dst := File][src := Symlink(dst)], src, dst)
  {
    ReplaceLeaf(n, src, dst);
    var m := (n - {src})[dst := File];
    assert Parent(src) != dst;
    var after := m[src := Symlink(dst)];
    assert src != dst;
    ResolveOneLink(after, src);
  }

  /**
   * Tracking the same path again is refused, but not by the symlink check: the input resolves to
   * the file in the follower tree, which is outside the source tree.
   */
  lemma RetrackRejected(n: Nodes, src: Path, dst: Path, intuit: Path -> ProjectDirs)
    requires IsLinked(n, src, dst) && n[dst].File?
    requires !IsPrefix(intuit(dst).sourceDir, dst)
    ensures TrackCheck(n, src, intuit) == Err(FromFollowerDir)
  {
    assert Resolve(n, dst) == Some(dst);
  }
}
