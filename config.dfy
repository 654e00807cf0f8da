/**
 * The project registry of config.py: string paths joined with os.path.join, the first-match
 * `find`, the `CurrentRepo` path properties and the in-memory `ETConfig` project list.
 */
module Config {
  import opened Wrappers

  predicate StartsWith(s: string, prefix: string) {
    |prefix| <= |s| && s[..|prefix|] == prefix
  }

  /** `os.path.join(a, b)` with two arguments: an absolute `b` replaces `a`. */
  function JoinPath(a: string, b: string): string {
    if |b| > 0 && b[0] == '/' then b
    else if a == "" || a[|a| - 1] == '/' then a + b
    else a + "/" + b
  }

  /** `os.path.split(p)[-1]`: what follows the last '/' of `p`. */
  function SplitTail(p: string): (t: string)
    ensures '/' !in t
    ensures |t| <= |p| && p[|p| - |t|..] == t
    ensures |t| < |p| ==> p[|p| - |t| - 1] == '/'
  {
    if p == "" then ""
    else if p[|p| - 1] == '/' then ""
    else SplitTail(p[..|p| - 1]) + [p[|p| - 1]]
  }

  /** The tail of a path that ends with a plain name is that name. */
  lemma {:induction false} SplitTailOfName(a: string, name: string)
    requires a == "" || a[|a| - 1] == '/'
    requires '/' !in name
    ensures SplitTail(a + name) == name
  {
    if name != [] {
      var s := a + name;
      var init, last := name[..|name| - 1], name[|name| - 1];
      assert last in name;
      assert s[|s| - 1] == last != '/';
      assert s[..|s| - 1] == a + init;
      assert '/' !in init by {
        forall k | 0 <= k < |init| ensures init[k] != '/' { assert init[k] == name[k]; }
      }
      SplitTailOfName(a, init);
      assert SplitTail(s) == SplitTail(a + init) + [last];
      assert init + [last] == name;
    } else {
      assert a + name == a;
      if a != "" {
        assert SplitTail(a) == "";
      }
    }
  }

  /** `get_follower_path(name)`: `name` joined onto the follower root. */
  function GetFollowerPath(root: string, name: string): string {
    JoinPath(root, name)
  }

  /** A follower path lies under the root and is named after its project. */
  lemma FollowerPathShape(root: string, name: string)
    requires name != "" && '/' !in name
    ensures StartsWith(GetFollowerPath(root, name), root)
    ensures SplitTail(GetFollowerPath(root, name)) == name
  {
    var f := GetFollowerPath(root, name);
    if root == "" || root[|root| - 1] == '/' {
      assert f == root + name;
      SplitTailOfName(root, name);
    } else {
      assert f == (root + "/") + name;
      SplitTailOfName(root + "/", name);
    }
    assert f[..|root|] == root;
  }

  /** `find(arr, fn)`: the first element satisfying `fn`, or None. */
  function Find<T(==)>(arr: seq<T>, fn: T -> bool): (r: Option<T>)
    ensures r.None? <==> forall i :: 0 <= i < |arr| ==> !fn(arr[i])
    ensures r.Some? ==> exists i :: 0 <= i < |arr| && arr[i] == r.value && fn(r.value)
                                    && forall j :: 0 <= j < i ==> !fn(arr[j])
  {
    if arr == [] then None
    else if fn(arr[0]) then Some(arr[0])
    else
      var r := Find(arr[1..], fn);
      assert r.Some? ==> exists i :: 0 <= i < |arr[1..]| && arr[1..][i] == r.value && fn(r.value)
                                     && forall j :: 0 <= j < i ==> !fn(arr[1..][j]);
      assert forall i :: 0 < i < |arr| ==> arr[i] == arr[1..][i - 1];
      if r.Some? then
        var i :| 0 <= i < |arr[1..]| && arr[1..][i] == r.value && fn(r.value)
                 && forall j :: 0 <= j < i ==> !fn(arr[1..][j]);
        assert arr[i + 1] == r.value;
        r
      else r
  }

  /** The working tree git found for the current directory. */
  datatype CurrentRepo = CurrentRepo(workingDir: string)

  /** `CurrentRepo.name`. */
  function RepoName(repo: CurrentRepo): string {
    SplitTail(repo.workingDir)
  }

  /** `CurrentRepo.is_follower`: a plain string-prefix test of the current directory. */
  predicate IsFollower(root: string, cwd: string) {
    StartsWith(cwd, root)
  }

  /** `CurrentRepo.source_path`. */
  function SourcePath(root: string, cwd: string, repo: CurrentRepo): string {
    if !IsFollower(root, cwd) then repo.workingDir else GetFollowerPath(root, RepoName(repo))
  }

  /** `CurrentRepo.follower_path`. */
  function FollowerPath(root: string, cwd: string, repo: CurrentRepo): string {
    if !IsFollower(root, cwd) then GetFollowerPath(root, RepoName(repo)) else repo.workingDir
  }

  /**
   * The two properties swap on the mode: one is the working tree, the other the follower path
   * named after it, and `is_source` is exactly `not is_follower`.
   */
  lemma PathsSwapOnMode(root: string, cwd: string, repo: CurrentRepo)
    ensures !StartsWith(cwd, root) ==>
              (SourcePath(root, cwd, repo) == repo.workingDir
               && FollowerPath(root, cwd, repo) == JoinPath(root, SplitTail(repo.workingDir)))
    ensures StartsWith(cwd, root) ==>
              (FollowerPath(root, cwd, repo) == repo.workingDir
               && SourcePath(root, cwd, repo) == JoinPath(root, SplitTail(repo.workingDir)))
    ensures multiset{SourcePath(root, cwd, repo), FollowerPath(root, cwd, repo)}
            == multiset{repo.workingDir, GetFollowerPath(root, RepoName(repo))}
  {
    if StartsWith(cwd, root) {
      assert SourcePath(root, cwd, repo) == GetFollowerPath(root, RepoName(repo));
    } else {
      assert FollowerPath(root, cwd, repo) == GetFollowerPath(root, RepoName(repo));
    }
  }

  /**
   * In follower mode, inside the follower tree of a project, `source_path` is the follower tree
   * itself: both properties name the same directory (the TODO at config.py:44).
   */
  lemma FollowerModeSourceIsFollower(root: string, name: string)
    requires name != "" && '/' !in name
    ensures var repo := CurrentRepo(GetFollowerPath(root, name));
            var cwd := repo.workingDir;
            IsFollower(root, cwd) && SourcePath(root, cwd, repo) == FollowerPath(root, cwd, repo) == cwd
  {
    FollowerPathShape(root, name);
  }

  /** The mode test is not component-wise: a sibling whose name extends the root's counts as follower. */
  lemma IsFollowerIsStringPrefix()
    ensures IsFollower("/home/u/.et", "/home/u/.etc/app")
  {
    assert "/home/u/.etc/app"[..|"/home/u/.et"|] == "/home/u/.et";
  }

  /** One entry of the `projects` list. */
  datatype ProjectRecord = ProjectRecord(sourceDir: string, followerDir: string, name: string)

  /** The parsed configuration file: its `projects` key, when it has one. */
  datatype ConfigDoc = ConfigDoc(projects: Option<seq<ProjectRecord>>)

  /** No two records share a name, a follower dir or a source dir. */
  predicate KeysDistinct(ps: seq<ProjectRecord>) {
    forall i, j :: 0 <= i < j < |ps| ==>
      ps[i].name != ps[j].name && ps[i].followerDir != ps[j].followerDir && ps[i].sourceDir != ps[j].sourceDir
  }

  class ETConfig {
    var projects: seq<ProjectRecord>

    /** `ETConfig(config)`: None or an empty document gives an empty list. */
    constructor (config: Option<ConfigDoc>)
      ensures projects == if config.Some? && config.value.projects.Some? then config.value.projects.value else []
    {
      if config.Some? && config.value.projects.Some? {
        projects := config.value.projects.value;
      } else {
        projects := [];
      }
    }

    function FindProjectByName(name: string): (r: Option<ProjectRecord>)
      reads this
      ensures r.Some? <==> exists i :: 0 <= i < |projects| && projects[i].name == name
      ensures r.Some? ==> r.value in projects && r.value.name == name
      ensures r.Some? ==> exists i :: 0 <= i < |projects| && projects[i] == r.value
                                      && forall j :: 0 <= j < i ==> projects[j].name != name
    {
      Find(projects, (p: ProjectRecord) => p.name == name)
    }

    function FindProjectByFollowerPath(followerDir: string): (r: Option<ProjectRecord>)
      reads this
      ensures r.Some? <==> exists i :: 0 <= i < |projects| && projects[i].followerDir == followerDir
      ensures r.Some? ==> r.value in projects && r.value.followerDir == followerDir
      ensures r.Some? ==> exists i :: 0 <= i < |projects| && projects[i] == r.value
                                      && forall j :: 0 <= j < i ==> projects[j].followerDir != followerDir
    {
      Find(projects, (p: ProjectRecord) => p.followerDir == followerDir)
    }

    function FindProjectBySourcePath(sourceDir: string): (r: Option<ProjectRecord>)
      reads this
      ensures r.Some? <==> exists i :: 0 <= i < |projects| && projects[i].sourceDir == sourceDir
      ensures r.Some? ==> r.value in projects && r.value.sourceDir == sourceDir
      ensures r.Some? ==> exists i :: 0 <= i < |projects| && projects[i] == r.value
                                      && forall j :: 0 <= j < i ==> projects[j].sourceDir != sourceDir
    {
      Find(projects, (p: ProjectRecord) => p.sourceDir == sourceDir)
    }

    /**
     * `register_project`: refuses a taken name, then a taken follower dir, then a taken source
     * dir; otherwise appends one record. Distinct keys stay distinct.
     */
    method RegisterProject(sourceDir: string, followerDir: string, name: string) returns (r: Outcome<Failure>)
      modifies this
      ensures r == Fail(NameTaken) <==> old(FindProjectByName(name)).Some?
      ensures r == Fail(FollowerTaken) <==>
                old(FindProjectByName(name)).None? && old(FindProjectByFollowerPath(followerDir)).Some?
      ensures r == Fail(SourceTaken) <==>
                old(FindProjectByName(name)).None? && old(FindProjectByFollowerPath(followerDir)).None?
                && old(FindProjectBySourcePath(sourceDir)).Some?
      ensures r.Pass? || r == Fail(NameTaken) || r == Fail(FollowerTaken) || r == Fail(SourceTaken)
      ensures r.Pass? ==> projects == old(projects) + [ProjectRecord(sourceDir, followerDir, name)]
      ensures r.Fail? ==> projects == old(projects)
      ensures KeysDistinct(old(projects)) ==> KeysDistinct(projects)
    {
      if FindProjectByName(name).Some? {
        return Fail(NameTaken);
      }
      if FindProjectByFollowerPath(followerDir).Some? {
        return Fail(FollowerTaken);
      }
      if FindProjectBySourcePath(sourceDir).Some? {
        return Fail(SourceTaken);
      }
      projects := projects + [ProjectRecord(sourceDir, followerDir, name)];
      r := Pass;
    }
  }

  /** A request clashes with a list when some record shares its name, follower dir or source dir. */
  predicate Clashes(ps: seq<ProjectRecord>, q: ProjectRecord) {
    exists i :: 0 <= i < |ps| && (ps[i].name == q.name || ps[i].followerDir == q.followerDir || ps[i].sourceDir == q.sourceDir)
  }

  /** The records that registering `requests` one by one on an empty list keeps: each one that does not clash. */
  function Registered(requests: seq<ProjectRecord>): seq<ProjectRecord>
  {
    if requests == [] then []
    else
      var acc := Registered(requests[..|requests| - 1]);
      var q := requests[|requests| - 1];
      if Clashes(acc, q) then acc else acc + [q]
  }

  /** The records kept have pairwise distinct names, follower dirs and source dirs. */
  lemma {:induction false} RegisteredDistinct(requests: seq<ProjectRecord>)
    ensures KeysDistinct(Registered(requests))
  {
    if requests != [] {
      var q := requests[|requests| - 1];
      RegisteredDistinct(requests[..|requests| - 1]);
      var acc := Registered(requests[..|requests| - 1]);
      if !Clashes(acc, q) {
        forall i, j | 0 <= i < j < |acc + [q]|
          ensures (acc + [q])[i].name != (acc + [q])[j].name
                  && (acc + [q])[i].followerDir != (acc + [q])[j].followerDir
                  && (acc + [q])[i].sourceDir != (acc + [q])[j].sourceDir
        {
          if j == |acc| {
            assert (acc + [q])[i] == acc[i];
          }
        }
      }
    }
  }

  /** Only requests are kept. */
  lemma {:induction false} RegisteredFromRequests(requests: seq<ProjectRecord>)
    ensures forall p :: p in Registered(requests) ==> p in requests
  {
    if requests != [] {
      var init := requests[..|requests| - 1];
      RegisteredFromRequests(init);
      assert forall p :: p in init ==> p in requests;
    }
  }

  /**
   * Requests are kept in order: the records kept from any first part of the requests are a prefix
   * of the records kept from all of them.
   */
  lemma {:induction false} RegisteredInOrder(requests: seq<ProjectRecord>, i: nat)
    requires i <= |requests|
    ensures Registered(requests[..i]) <= Registered(requests)
    decreases |requests| - i
  {
    if i < |requests| {
      var init := requests[..|requests| - 1];
      assert requests[..i] == init[..i];
      RegisteredInOrder(init, i);
    } else {
      assert requests[..i] == requests;
    }
  }

  /** Each request is either kept, at the end, or refused because it clashes with a record kept before it. */
  lemma RegisteredStep(requests: seq<ProjectRecord>, i: nat)
    requires i < |requests|
    ensures Clashes(Registered(requests[..i]), requests[i]) ==>
              Registered(requests[..i + 1]) == Registered(requests[..i])
    ensures !Clashes(Registered(requests[..i]), requests[i]) ==>
              Registered(requests[..i + 1]) == Registered(requests[..i]) + [requests[i]]
  {
    assert requests[..i + 1][..i] == requests[..i];
  }

  /**
   * Any sequence of registrations on a configuration built without a file keeps exactly the
   * records `Registered` describes, so names, follower dirs and source dirs stay pairwise distinct.
   */
  method RegisterAll(requests: seq<ProjectRecord>) returns (cfg: ETConfig, accepted: seq<ProjectRecord>)
    ensures fresh(cfg)
    ensures cfg.projects == accepted && accepted == Registered(requests)
    ensures KeysDistinct(cfg.projects)
  {
    cfg := new ETConfig(None);
    accepted := [];
    var i := 0;
    while i < |requests|
      invariant 0 <= i <= |requests|
      invariant cfg.projects == accepted == Registered(requests[..i])
      invariant KeysDistinct(cfg.projects)
    {
      var q := requests[i];
      RegisteredStep(requests, i);
      assert Clashes(cfg.projects, q) <==>
               cfg.FindProjectByName(q.name).Some? || cfg.FindProjectByFollowerPath(q.followerDir).Some?
               || cfg.FindProjectBySourcePath(q.sourceDir).Some?;
      var r := cfg.RegisterProject(q.sourceDir, q.followerDir, q.name);
      if r.Pass? {
        accepted := accepted + [q];
      }
      i := i + 1;
    }
    assert requests[..i] == requests;
  }
}
