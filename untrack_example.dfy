/**
 * A concrete filesystem on which the as-written `untrack` refuses a file that `track` linked:
 * the working tree `/r/app` is paired with the child dir `/h/.et/app`, whose marker `.source`
 * links to `/r/app`, and `/r/app/s` is a link to the child-side file `/h/.et/app/s`. The values
 * of ET_HOME and of the marker name are illustrative; the sources define neither.
 */
module UntrackExample {
  import opened Wrappers
  import opened Paths
  import opened FileSystem
  import opened Discovery
  import opened Untrack

  const Home: Path := ["h", ".et"]
  const Tree: Path := ["r", "app"]
  const ChildDir: Path := ["h", ".et", "app"]
  const Marker: Path := ["h", ".et", "app", ".source"]
  const LinkPath: Path := ["r", "app", "s"]
  const ChildFile: Path := ["h", ".et", "app", "s"]

  function ExampleSettings(): Settings {
    Settings(Home, ".source")
  }

  function ExampleNodes(): Nodes {
    map[["r"] := Dir, Tree := Dir, LinkPath := Symlink(ChildFile),
        ["h"] := Dir, Home := Dir, ChildDir := Dir,
        Marker := Symlink(Tree), ChildFile := File]
  }

  /** The marker and the link each resolve in one step. */
  lemma ExampleResolves()
    ensures Resolve(ExampleNodes(), Marker) == Some(Tree)
    ensures Resolve(ExampleNodes(), LinkPath) == Some(ChildFile)
    ensures Resolve(ExampleNodes(), Home) == Some(Home)
  {
    var n := ExampleNodes();
    assert IsLink(n, Marker) && n[Marker].target == Tree && !IsLink(n, Tree);
    ResolveOneLink(n, Marker);
    assert IsLink(n, LinkPath) && n[LinkPath].target == ChildFile && !IsLink(n, ChildFile);
    ResolveOneLink(n, LinkPath);
  }

  /** The working tree of the link is `/r/app`, and the one entry of the home dir is its child. */
  lemma ExampleProject()
    ensures InitProjectFromPath(ExampleNodes(), ExampleSettings(), {Tree}, ["app"], LinkPath)
            == Ok(Project(Tree, ChildDir))
  {
    ExampleResolves();
    assert Child(Home, "app") == ChildDir;
    assert PathIsChildRepo(ExampleSettings(), ChildDir) == Marker;
    assert "app" != GitDirName;
    assert Parent(LinkPath) == Tree;
    assert EnclosingWorkTree({Tree}, LinkPath) == Some(Tree);
    assert !IsPrefix(Home, Tree);
    assert Scan(ExampleNodes(), ExampleSettings(), Tree, ["app"]) == Ok(ChildDir);
  }

  /** The checks shared by both versions pass, with `/h/.et/app/s` as the resolved target. */
  lemma ExamplePrelude()
    ensures UntrackPrelude(ExampleNodes(), ExampleSettings(), {Tree}, ["app"], LinkPath)
            == Ok((Project(Tree, ChildDir), ChildFile))
  {
    ExampleResolves();
    ExampleProject();
    assert IsStrictAncestor(ChildDir, ChildFile);
  }

  /**
   * On this filesystem the as-written checks refuse the link, since the child-side target does not
   * lie under the parent dir, while the corrected checks plan moving `/h/.et/app/s` back to `/r/app/s`.
   */
  lemma UntrackRefusesLinkedFile()
    ensures UntrackCheck(ExampleNodes(), ExampleSettings(), {Tree}, ["app"], LinkPath) == Err(NotUnderParent)
    ensures UntrackCheckCorrected(ExampleNodes(), ExampleSettings(), {Tree}, ["app"], LinkPath)
            == Ok(Restore(LinkPath, ChildFile))
  {
    ExamplePrelude();
    assert !IsPrefix(Tree, ChildDir);
  }
}
