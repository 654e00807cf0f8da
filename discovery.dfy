/**
 * Child discovery and path relativisation (utils.py): the marker path of a child, the scan of
 * ET_HOME for the child whose marker resolves to a parent, the `Project` helpers, the
 * "inside ET_HOME" test and the pairing of a path's working tree with its child.
 */
module Discovery {
  import opened Wrappers
  import opened Paths
  import opened FileSystem

  /** The configuration every command is given: ET_HOME and PARENT_SYMLINK_NAME. */
  datatype Settings = Settings(etHome: Path, markerName: string)

  /** `path_is_child_repo(path)`: despite its name, the path of the marker inside `path`. */
  function PathIsChildRepo(s: Settings, path: Path): (marker: Path)
    ensures s.markerName != "" ==> Parent(marker) == path && Name(marker) == s.markerName
  {
    Child(path, s.markerName)
  }

  /** `path_in_et_home(path)`: `path` is ET_HOME or lies below it, segment by segment. */
  function PathInEtHome(s: Settings, path: Path): (r: bool)
    ensures r <==> IsPrefix(s.etHome, path)
  {
    IsStrictAncestor(s.etHome, path) || path == s.etHome
  }

  /** The `.git` entry of ET_HOME is never a candidate. */
  const GitDirName: string := ".git"

  /** The entry `e` of ET_HOME is a child whose marker resolves to `parentDir`. */
  predicate Matches(n: Nodes, s: Settings, parentDir: Path, e: string) {
    e != GitDirName && Resolve(n, PathIsChildRepo(s, Child(s.etHome, e))) == Some(parentDir)
  }

  /** The scan passes over the entry `e` and goes on to the next one. */
  predicate Skipped(n: Nodes, s: Settings, parentDir: Path, e: string) {
    e == GitDirName ||
    (var r := Resolve(n, PathIsChildRepo(s, Child(s.etHome, e))); r.Some? && r.value != parentDir)
  }

  /** `entries[i]` matches and the scan passed over every entry before it. */
  predicate FirstMatchAt(n: Nodes, s: Settings, parentDir: Path, entries: seq<string>, i: int) {
    0 <= i < |entries| && Matches(n, s, parentDir, entries[i])
    && forall j :: 0 <= j < i ==> Skipped(n, s, parentDir, entries[j])
  }

  /** The loop of `find_child_dir` over the entries of ET_HOME, in iteration order. */
  function Scan(n: Nodes, s: Settings, parentDir: Path, entries: seq<string>): (r: Result<Path, Failure>)
    ensures r.Ok? || r == Err(MissingChild) || r == Err(SymlinkLoop)
    ensures r.Ok? ==> exists i :: FirstMatchAt(n, s, parentDir, entries, i) && r.value == Child(s.etHome, entries[i])
    ensures r == Err(MissingChild) <==> forall i :: 0 <= i < |entries| ==> Skipped(n, s, parentDir, entries[i])
  {
    if entries == [] then Err(MissingChild)
    else
      var e := entries[0];
      assert forall i :: 0 < i < |entries| ==> entries[i] == entries[1..][i - 1];
      if e == GitDirName then
        var r := Scan(n, s, parentDir, entries[1..]);
        ShiftFirstMatch(n, s, parentDir, entries, r);
        r
      else
        match Resolve(n, PathIsChildRepo(s, Child(s.etHome, e)))
        case None => Err(SymlinkLoop)
        case Some(q) =>
          if q == parentDir then
            assert FirstMatchAt(n, s, parentDir, entries, 0);
            Ok(Child(s.etHome, e))
          else
            var r := Scan(n, s, parentDir, entries[1..]);
            ShiftFirstMatch(n, s, parentDir, entries, r);
            r
  }

  /** A first match in the tail, after a skipped head, is a first match of the whole listing. */
  lemma ShiftFirstMatch(n: Nodes, s: Settings, parentDir: Path, entries: seq<string>, r: Result<Path, Failure>)
    requires |entries| > 0 && Skipped(n, s, parentDir, entries[0])
    requires r.Ok? ==> exists i :: FirstMatchAt(n, s, parentDir, entries[1..], i) && r.value == Child(s.etHome, entries[1..][i])
    ensures r.Ok? ==> exists i :: FirstMatchAt(n, s, parentDir, entries, i) && r.value == Child(s.etHome, entries[i])
  {
    if r.Ok? {
      var i :| FirstMatchAt(n, s, parentDir, entries[1..], i) && r.value == Child(s.etHome, entries[1..][i]);
      assert FirstMatchAt(n, s, parentDir, entries, i + 1);
    }
  }

  /**
   * `find_child_dir(parent_dir)` as a value: refuses ET_HOME and everything below it before
   * listing ET_HOME, which must be a directory; `entries` is the order `iterdir` yields.
   */
  function FindChild(n: Nodes, s: Settings, parentDir: Path, entries: seq<string>): (r: Result<Path, Failure>)
    ensures r == Err(InsideEtHome) <==> PathInEtHome(s, parentDir)
    ensures r.Ok? ==> exists i :: FirstMatchAt(n, s, parentDir, entries, i) && r.value == Child(s.etHome, entries[i])
    ensures r == Err(MissingChild) <==>
              !PathInEtHome(s, parentDir) && IsDir(n, s.etHome)
              && forall i :: 0 <= i < |entries| ==> Skipped(n, s, parentDir, entries[i])
    ensures !PathInEtHome(s, parentDir) && !IsDir(n, s.etHome) ==>
              r == Err(Os(if Exists(n, s.etHome) then NotADirectory else FileNotFound))
    ensures r.Ok? ==> IsDir(n, s.etHome) && !PathInEtHome(s, parentDir)
    ensures !PathInEtHome(s, parentDir) && IsDir(n, s.etHome) ==> r == Scan(n, s, parentDir, entries)
  {
    if parentDir == s.etHome || IsStrictAncestor(s.etHome, parentDir) then Err(InsideEtHome)
    else if !Exists(n, s.etHome) then Err(Os(FileNotFound))
    else if !IsDir(n, s.etHome) then Err(Os(NotADirectory))
    else Scan(n, s, parentDir, entries)
  }

  /** `find_child_dir`: the scan loop with `continue` and early return. */
  method FindChildDir(n: Nodes, s: Settings, parentDir: Path, entries: seq<string>) returns (r: Result<Path, Failure>)
    ensures r == FindChild(n, s, parentDir, entries)
  {
    if parentDir == s.etHome || IsStrictAncestor(s.etHome, parentDir) {
      return Err(InsideEtHome);
    }
    if !Exists(n, s.etHome) {
      return Err(Os(FileNotFound));
    }
    if !IsDir(n, s.etHome) {
      return Err(Os(NotADirectory));
    }
    var i := 0;
    while i < |entries|
      invariant 0 <= i <= |entries|
      invariant Scan(n, s, parentDir, entries) == Scan(n, s, parentDir, entries[i..])
    {
      var e := entries[i];
      assert entries[i..][1..] == entries[i + 1..];
      if e == GitDirName {
        i := i + 1;
        continue;
      }
      var parentPath := Resolve(n, PathIsChildRepo(s, Child(s.etHome, e)));
      if parentPath.None? {
        return Err(SymlinkLoop);
      }
      if parentPath.value == parentDir {
        return Ok(Child(s.etHome, e));
      }
      i := i + 1;
    }
    r := Err(MissingChild);
  }

  /**
   * With at most one matching entry and no marker loops, the result does not depend on the
   * order in which ET_HOME is listed.
   */
  lemma FindChildOrderIndependent(n: Nodes, s: Settings, parentDir: Path, e1: seq<string>, e2: seq<string>)
    requires multiset(e1) == multiset(e2)
    requires forall e :: e in e1 ==> Matches(n, s, parentDir, e) || Skipped(n, s, parentDir, e)
    requires forall a, b :: a in e1 && b in e1 && Matches(n, s, parentDir, a) && Matches(n, s, parentDir, b) ==> a == b
    ensures FindChild(n, s, parentDir, e1) == FindChild(n, s, parentDir, e2)
  {
    assert forall e :: e in e1 <==> e in e2 by {
      forall e ensures e in e1 <==> e in e2 {
        assert e in e1 <==> e in multiset(e1);
        assert e in e2 <==> e in multiset(e2);
      }
    }
    var r1, r2 := FindChild(n, s, parentDir, e1), FindChild(n, s, parentDir, e2);
    if r1.Ok? {
      var i :| FirstMatchAt(n, s, parentDir, e1, i) && r1.value == Child(s.etHome, e1[i]);
      assert e1[i] in e2;
      assert r2 != Err(MissingChild) by {
        var k :| 0 <= k < |e2| && e2[k] == e1[i];
        assert !Skipped(n, s, parentDir, e2[k]);
      }
      ScanNoLoop(n, s, parentDir, e2);
      var j :| FirstMatchAt(n, s, parentDir, e2, j) && r2.value == Child(s.etHome, e2[j]);
      assert e2[j] in e1;
    } else if r2.Ok? {
      var j :| FirstMatchAt(n, s, parentDir, e2, j) && r2.value == Child(s.etHome, e2[j]);
      assert e2[j] in e1;
      assert r1 != Err(MissingChild) by {
        var k :| 0 <= k < |e1| && e1[k] == e2[j];
        assert !Skipped(n, s, parentDir, e1[k]);
      }
      ScanNoLoop(n, s, parentDir, e1);
    } else {
      ScanNoLoop(n, s, parentDir, e1);
      ScanNoLoop(n, s, parentDir, e2);
      if r1 == Err(MissingChild) {
        assert forall k :: 0 <= k < |e2| ==> Skipped(n, s, parentDir, e2[k]) by {
          forall k | 0 <= k < |e2| ensures Skipped(n, s, parentDir, e2[k]) {
            assert e2[k] in e1;
            var m :| 0 <= m < |e1| && e1[m] == e2[k];
          }
        }
      }
    }
  }

  /** When every entry either matches or is skipped, the scan cannot stop on a loop. */
  lemma {:induction false} ScanNoLoop(n: Nodes, s: Settings, parentDir: Path, entries: seq<string>)
    requires forall e :: e in entries ==> Matches(n, s, parentDir, e) || Skipped(n, s, parentDir, e)
    ensures Scan(n, s, parentDir, entries) != Err(SymlinkLoop)
  {
    if entries != [] {
      assert entries[0] in entries;
      assert forall e :: e in entries[1..] ==> e in entries;
      ScanNoLoop(n, s, parentDir, entries[1..]);
    }
  }

  /** The scan returns the child of the first entry that matches, whatever comes after it. */
  lemma {:induction false} ScanFindsFirst(n: Nodes, s: Settings, parentDir: Path, entries: seq<string>, i: int)
    requires FirstMatchAt(n, s, parentDir, entries, i)
    ensures Scan(n, s, parentDir, entries) == Ok(Child(s.etHome, entries[i]))
  {
    if i > 0 {
      assert Skipped(n, s, parentDir, entries[0]);
      assert Scan(n, s, parentDir, entries) == Scan(n, s, parentDir, entries[1..]);
      assert FirstMatchAt(n, s, parentDir, entries[1..], i - 1) by {
        assert forall j :: 0 <= j < i - 1 ==> entries[1..][j] == entries[j + 1];
      }
      ScanFindsFirst(n, s, parentDir, entries[1..], i - 1);
    }
  }

  /** The pair `Project(parent_dir, child_dir)` of utils.py. */
  datatype Project = Project(parentDir: Path, childDir: Path)

  /** `Project.child_file_exists(rel)`. */
  predicate ChildFileExists(n: Nodes, pr: Project, rel: Path) {
    Exists(n, pr.childDir + rel)
  }

  /** `Project.parent_file_exists(rel)`. */
  predicate ParentFileExists(n: Nodes, pr: Project, rel: Path) {
    Exists(n, pr.parentDir + rel)
  }

  /** `Project.relative_to_parent(p)`: the resolved `p` relative to the parent dir. */
  function RelativeToParent(n: Nodes, pr: Project, p: Path): (r: Result<Path, Failure>)
    ensures r.Ok? <==> Resolve(n, p).Some? && IsPrefix(pr.parentDir, Resolve(n, p).value)
    ensures r.Ok? ==> pr.parentDir + r.value == Resolve(n, p).value
    ensures Resolve(n, p).None? ==> r == Err(SymlinkLoop)
    ensures Resolve(n, p).Some? && !IsPrefix(pr.parentDir, Resolve(n, p).value) ==> r == Err(NotUnderParent)
  {
    match Resolve(n, p)
    case None => Err(SymlinkLoop)
    case Some(q) => match RelativeTo(q, pr.parentDir)
      case None => Err(NotUnderParent)
      case Some(rel) => Ok(rel)
  }

  /** `Project.relative_to_child(p)`: the resolved `p` relative to the child dir. */
  function RelativeToChild(n: Nodes, pr: Project, p: Path): (r: Result<Path, Failure>)
    ensures r.Ok? <==> Resolve(n, p).Some? && IsPrefix(pr.childDir, Resolve(n, p).value)
    ensures r.Ok? ==> pr.childDir + r.value == Resolve(n, p).value
    ensures Resolve(n, p).None? ==> r == Err(SymlinkLoop)
    ensures Resolve(n, p).Some? && !IsPrefix(pr.childDir, Resolve(n, p).value) ==> r == Err(NotUnderChild)
  {
    match Resolve(n, p)
    case None => Err(SymlinkLoop)
    case Some(q) => match RelativeTo(q, pr.childDir)
      case None => Err(NotUnderChild)
      case Some(rel) => Ok(rel)
  }

  /**
   * `Project.corresponding_child_path(p)`: the child-side twin of the resolved `p`, which must be
   * the parent dir or lie below it.
   */
  function CorrespondingChildPath(n: Nodes, pr: Project, p: Path): (r: Result<Path, Failure>)
    ensures r.Ok? <==> Resolve(n, p).Some? && IsPrefix(pr.parentDir, Resolve(n, p).value)
    ensures Resolve(n, p).Some? && !IsPrefix(pr.parentDir, Resolve(n, p).value) ==> r == Err(NotUnderParent)
    ensures r.Ok? ==> IsPrefix(pr.childDir, r.value)
                      && pr.parentDir + r.value[|pr.childDir|..] == Resolve(n, p).value
  {
    match RelativeToParent(n, pr, p)
    case Err(e) => Err(e)
    case Ok(rel) =>
      PrefixOfJoin(pr.childDir, rel);
      assert (pr.childDir + rel)[|pr.childDir|..] == rel;
      Ok(pr.childDir + rel)
  }

  /**
   * The same relative path is recovered from either side: for `rel` whose two locations are not
   * links, `relative_to_parent(parent_dir/rel) == rel == relative_to_child(child_dir/rel)`, and the
   * parent location corresponds to the child location.
   */
  lemma RelativeSymmetry(n: Nodes, pr: Project, rel: Path)
    requires !IsLink(n, pr.parentDir + rel) && !IsLink(n, pr.childDir + rel)
    ensures RelativeToParent(n, pr, pr.parentDir + rel) == Ok(rel)
    ensures RelativeToChild(n, pr, pr.childDir + rel) == Ok(rel)
    ensures CorrespondingChildPath(n, pr, pr.parentDir + rel) == Ok(pr.childDir + rel)
  {
    RelativeToJoin(pr.parentDir, rel);
    RelativeToJoin(pr.childDir, rel);
  }

  /** A strict ancestor of a path is an ancestor of its parent. */
  lemma AncestorOfParent(q: Path, p: Path)
    requires IsPrefix(q, p) && q != p
    ensures IsPrefix(q, Parent(p))
  {
    assert Parent(p)[..|q|] == p[..|q|];
  }

  /**
   * `Repo(p, search_parent_directories=True).working_dir`: the nearest of `p` and its ancestors
   * that is the root of a working tree in `repos` (the git oracle).
   */
  function EnclosingWorkTree(repos: set<Path>, p: Path): (r: Option<Path>)
    decreases |p|
    ensures r.Some? ==> r.value in repos && IsPrefix(r.value, p)
    ensures r.Some? ==> forall q :: IsPrefix(q, p) && |q| > |r.value| ==> q !in repos
    ensures r.None? ==> forall q :: IsPrefix(q, p) ==> q !in repos
  {
    if p in repos then
      assert IsPrefix(p, p);
      Some(p)
    else if |p| == 0 then None
    else
      var r := EnclosingWorkTree(repos, Parent(p));
      forall q | IsPrefix(q, p) && q != p ensures IsPrefix(q, Parent(p)) {
        AncestorOfParent(q, p);
      }
      if r.Some? then
        PrefixTransitive(r.value, Parent(p), p);
        r
      else r
  }

  /**
   * `init_project_from_path(p)`: pairs the enclosing working tree with exactly the child
   * `find_child_dir` returns for it, and passes its errors on.
   */
  function InitProjectFromPath(n: Nodes, s: Settings, repos: set<Path>, entries: seq<string>, p: Path)
    : (r: Result<Project, Failure>)
    ensures EnclosingWorkTree(repos, p).None? <==> r == Err(NotAGitRepository)
    ensures r.Ok? ==> EnclosingWorkTree(repos, p) == Some(r.value.parentDir)
                      && FindChild(n, s, r.value.parentDir, entries) == Ok(r.value.childDir)
    ensures EnclosingWorkTree(repos, p).Some? && r.Err? ==>
              FindChild(n, s, EnclosingWorkTree(repos, p).value, entries) == Err(r.error)
    ensures r.Ok? ==> r.value.parentDir in repos && IsPrefix(r.value.parentDir, p)
                      && !PathInEtHome(s, r.value.parentDir)
                      && Resolve(n, PathIsChildRepo(s, r.value.childDir)) == Some(r.value.parentDir)
                      && exists e :: e != GitDirName && r.value.childDir == Child(s.etHome, e)
  {
    match EnclosingWorkTree(repos, p)
    case None => Err(NotAGitRepository)
    case Some(w) =>
      var c := FindChild(n, s, w, entries);
      if c.Ok? then
        var i :| FirstMatchAt(n, s, w, entries, i) && c.value == Child(s.etHome, entries[i]);
        Ok(Project(w, c.value))
      else
        assert c.error != NotAGitRepository;
        Err(c.error)
  }
}
