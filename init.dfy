/**
 * `et init` (main.py `cmd_init`): pairs the enclosing working tree with a new child dir under
 * ET_HOME, made with `mkdir(parents=True)`, and a marker inside it linking back to the tree.
 */
module Init {
  import opened Wrappers
  import opened Paths
  import opened FileSystem
  import opened Discovery

  /** The paths the command derives before it changes anything. */
  datatype InitPlan = InitPlan(parentDir: Path, name: string, childDir: Path, marker: Path)

  /**
   * The derivation: the working tree found by the upward search, the given name unless it is
   * missing or empty (then the tree's last segment), the child dir and the marker inside it.
   */
  function PlanInit(s: Settings, repos: set<Path>, directory: Path, name: Option<string>): (r: Result<InitPlan, Failure>)
    ensures EnclosingWorkTree(repos, directory).None? <==> r == Err(NotAGitRepository)
    ensures r.Err? ==> r == Err(NotAGitRepository)
    ensures r.Ok? ==> r.value.parentDir in repos && IsPrefix(r.value.parentDir, directory)
                      && r.value.parentDir == EnclosingWorkTree(repos, directory).value
    ensures r.Ok? && name.Some? && name.value != "" ==> r.value.name == name.value
    ensures r.Ok? && (name.None? || name.value == "") ==>
              r.value.name == Name(r.value.parentDir)
              && (|r.value.parentDir| > 0 ==> Parent(r.value.parentDir) + [r.value.name] == r.value.parentDir)
    ensures r.Ok? ==> r.value.childDir == Child(s.etHome, r.value.name)
                      && r.value.marker == PathIsChildRepo(s, r.value.childDir)
  {
    match EnclosingWorkTree(repos, directory)
    case None => Err(NotAGitRepository)
    case Some(parent) =>
      var chosen := if name.Some? && name.value != "" then name.value else Name(parent);
      var child := Child(s.etHome, chosen);
      Ok(InitPlan(parent, chosen, child, PathIsChildRepo(s, child)))
  }

  /** The error reported when the child dir already exists, naming the marker's target when it has one. */
  function ExistsError(n: Nodes, p: InitPlan): Failure
  {
    if Exists(n, p.marker) then ChildExistsLinked(p.childDir, Resolve(n, p.marker).value)
    else ChildExists(p.childDir)
  }

  /**
   * What a successful `et init` leaves: the child dir and the marker were absent and now exist,
   * the marker links to the working tree, nothing that existed changed, and everything new is
   * the marker or a directory on the way to the child dir. Every new entry sits in a directory,
   * so the missing ancestors of the child dir, ET_HOME among them, now exist as directories.
   */
  predicate Created(n: Nodes, p: InitPlan, after: Nodes) {
    p.childDir !in n && p.marker !in n
    && p.childDir in after && after[p.childDir].Dir?
    && p.marker in after && after[p.marker] == Symlink(p.parentDir)
    && (forall q :: q in n ==> q in after && after[q] == n[q])
    && (forall q :: q in after && q !in n ==> q == p.marker || (IsPrefix(q, p.childDir) && after[q].Dir?))
    && |p.childDir| > 0 && Parent(p.childDir) in after && after[Parent(p.childDir)].Dir?
    && (forall q :: q in after && q !in n ==> |q| > 0 && Parent(q) in after && after[Parent(q)].Dir?)
  }

  /** A successful mkdir of the child dir followed by linking the marker creates exactly the pair. */
  lemma MkdirThenLink(n: Nodes, p: InitPlan, m: Nodes, linked: Nodes)
    requires MkdirStep(n, p.childDir) == Ok(m) && SymlinkStep(m, p.marker, p.parentDir) == Ok(linked)
    ensures Created(n, p, linked)
  {
    assert p.marker !in n;
  }

  /**
   * The nodes and outcome `cmd_init` leaves: no change unless the mkdir succeeds, and the nodes
   * after the mkdir when only the marker link fails.
   */
  function InitRun(n: Nodes, s: Settings, repos: set<Path>, directory: Path, name: Option<string>)
    : (r: (Nodes, Outcome<Failure>))
    ensures EnclosingWorkTree(repos, directory).None? ==> r == (n, Fail(NotAGitRepository))
    ensures PlanInit(s, repos, directory, name).Ok? && PlanInit(s, repos, directory, name).value.childDir in n ==>
              var p := PlanInit(s, repos, directory, name).value;
              r.0 == n
              && (Exists(n, p.marker) ==> r.1 == Fail(ChildExistsLinked(p.childDir, Resolve(n, p.marker).value)))
              && (!Exists(n, p.marker) ==> r.1 == Fail(ChildExists(p.childDir)))
    ensures r.1 == Pass ==>
              PlanInit(s, repos, directory, name).Ok? && Created(n, PlanInit(s, repos, directory, name).value, r.0)
    ensures s.markerName != "" ==>
              (r.1 == Pass <==>
                 PlanInit(s, repos, directory, name).Ok?
                 && var p := PlanInit(s, repos, directory, name).value;
                    p.childDir !in n && p.marker !in n && CanMakeDirs(n, p.childDir))
    ensures s.markerName == "" ==> r.1 != Pass
    ensures PlanInit(s, repos, directory, name).Ok? ==>
              var p := PlanInit(s, repos, directory, name).value;
              p.childDir !in n && !CanMakeDirs(n, p.childDir) ==>
                r == (n, Fail(Os(if NearestExisting(n, p.childDir).None? then FileNotFound else NotADirectory)))
    ensures PlanInit(s, repos, directory, name).Ok? ==>
              var p := PlanInit(s, repos, directory, name).value;
              MkdirStep(n, p.childDir).Ok? && r.1 != Pass ==>
                r.0 == MkdirStep(n, p.childDir).value
                && r.1 == Fail(SymlinkStep(MkdirStep(n, p.childDir).value, p.marker, p.parentDir).error)
  {
    match PlanInit(s, repos, directory, name)
    case Err(e) => (n, Fail(e))
    case Ok(p) =>
      match MkdirStep(n, p.childDir)
      case Err(e) => (n, Fail(if e == Os(FileExists) then ExistsError(n, p) else e))
      case Ok(m) =>
        assert s.markerName != "" ==> !IsPrefix(p.marker, p.childDir);
        match SymlinkStep(m, p.marker, p.parentDir)
        case Err(e) => (m, Fail(e))
        case Ok(linked) =>
          MkdirThenLink(n, p, m, linked);
          (linked, Pass)
  }

  /** `cmd_init(directory, name)`: derive the paths, make the child dir, then link the marker. */
  method CmdInit(fs: FileSystem, s: Settings, repos: set<Path>, directory: Path, name: Option<string>)
    returns (r: Outcome<Failure>)
    modifies fs
    ensures (fs.nodes, r) == InitRun(old(fs.nodes), s, repos, directory, name)
  {
    var plan := PlanInit(s, repos, directory, name);
    if plan.Err? {
      return Fail(plan.error);
    }
    var p := plan.value;
    r := fs.Mkdir(p.childDir);
    if r == Fail(Os(FileExists)) {
      return Fail(ExistsError(fs.nodes, p));
    } else if r.Fail? {
      return;
    }
    r := fs.SymlinkTo(p.marker, p.parentDir);
  }

  /**
   * A successful `et init` pairs the working tree with the new child: the marker resolves to the
   * tree, so a later scan of ET_HOME from that tree returns the new child dir once the scan reaches
   * its entry without an earlier match.
   */
  lemma InitThenFound(n: Nodes, s: Settings, repos: set<Path>, directory: Path, name: Option<string>,
                      entries: seq<string>, i: int)
    requires InitRun(n, s, repos, directory, name).1 == Pass
    requires var p := PlanInit(s, repos, directory, name).value;
             p.parentDir in n && !n[p.parentDir].Symlink? && p.name != GitDirName
             && !PathInEtHome(s, p.parentDir)
    requires var p := PlanInit(s, repos, directory, name).value;
             0 <= i < |entries| && entries[i] == p.name
             && forall j :: 0 <= j < i ==> Skipped(InitRun(n, s, repos, directory, name).0, s, p.parentDir, entries[j])
    ensures var p := PlanInit(s, repos, directory, name).value;
            Matches(InitRun(n, s, repos, directory, name).0, s, p.parentDir, p.name)
            && IsDir(InitRun(n, s, repos, directory, name).0, s.etHome)
            && FindChild(InitRun(n, s, repos, directory, name).0, s, p.parentDir, entries) == Ok(p.childDir)
  {
    var p := PlanInit(s, repos, directory, name).value;
    var after := InitRun(n, s, repos, directory, name).0;
    assert IsLink(after, p.marker) && after[p.marker].target == p.parentDir;
    assert p.parentDir in after && after[p.parentDir] == n[p.parentDir];
    ResolveOneLink(after, p.marker);
    assert FirstMatchAt(after, s, p.parentDir, entries, i);
    ScanFindsFirst(after, s, p.parentDir, entries, i);
    EtHomeCreated(n, p, after, s);
  }

  /** After a successful init, ET_HOME is a directory: it is the child dir or the child dir's parent. */
  lemma EtHomeCreated(n: Nodes, p: InitPlan, after: Nodes, s: Settings)
    requires Created(n, p, after) && p.childDir == Child(s.etHome, p.name)
    ensures s.etHome in after && after[s.etHome].Dir? && IsDir(after, s.etHome)
  {
    if p.name != "" {
      assert Parent(p.childDir) == s.etHome;
    }
  }
}
