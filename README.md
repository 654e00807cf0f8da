# env-tracker: the pairing and link engine

env-tracker (`et`) keeps files that do not belong in a project's own repository in a separate
"child" git repository under the directory ET_HOME. The child repository of a project is
`ET_HOME/<name>`. Inside it, the marker, an entry named PARENT_SYMLINK_NAME, is a symlink back to
the project's working tree, the "parent". ET_HOME and PARENT_SYMLINK_NAME are the two fields of
`Discovery.Settings`; the model holds for every value of them. `et init` creates the pair. `track` moves a file from the parent into the child tree
and leaves a symlink where the file was. `untrack` deletes that symlink and moves the file back.
Which child belongs to a parent is found again each time, by scanning ET_HOME for the entry whose
marker resolves to the parent. An older part of the code, `ETConfig`, keeps the pairs in a project
list instead.

This project models that engine in Dafny and proves properties of the model. The modules are:

- `Paths`: paths as sequences of segments, with ancestry and `relative_to`.
- `FileSystem`: the filesystem as a map from paths to nodes (file, directory, symlink), with
  `resolve`, `exists`, `is_file` and `is_dir`. It also holds the four mutating calls the commands
  make (`replace`, `symlink_to`, `unlink`, `mkdir(parents=True)`), each with its OS errors, and a
  `FileSystem` class that applies them in place.
- `Config`: the project list of config.py. This covers `find`, `get_follower_path`, the
  `CurrentRepo` path properties and `ETConfig` with `register_project`.
- `Discovery`: utils.py. This covers the marker path, `find_child_dir`, the `Project` helpers,
  `path_in_et_home` and `init_project_from_path`.
- `Track`, `Untrack` and `Init`: the three commands. Each one's checks are a pure function. The
  command is a method that runs the checks and then changes the filesystem step by step.
- `UntrackExample`: a concrete filesystem on which `untrack` as written refuses a tracked file.

Every command runs all its checks before its first change. Each method's contract says so: on a
failed check it returns that failure and leaves the nodes unchanged. Otherwise the final nodes are
those the steps produce.

Three facts are proved about the code as written:

- In `track`, the input is resolved first, so the later `is_symlink` check can never fire.
  `Track.TrackCheck` ensures the result is never `AlreadySymlinked`. A second `track` of a tracked
  file is refused because the file now lies in the follower tree (`Track.RetrackRejected`).
- `CurrentRepo.is_follower` compares raw strings. A sibling directory whose name extends the
  follower root's name therefore counts as follower mode (`Config.IsFollowerIsStringPrefix`).
- `untrack` computes the path relative to the parent dir from the symlink's resolved target, which
  lies in the child tree. The check therefore fails whenever the child dir is not inside the parent
  dir, which is always the case for an ET_HOME outside the project. See Findings.

`init` performs no check for an invalid name and none for a tree that another child already
links to. It searches upward for the working tree. `find_child_dir` refuses every path at or
below ET_HOME. Symlink loops, which pathlib reports with a `RuntimeError`, are the failure
`SymlinkLoop`. An exception's message is modelled by which `Failure` it is, not by its text.

## Model

| member | source | states |
|---|---|---|
| Paths.Parent | utils.py:17 | the parent of a non-empty path is a strict ancestor one segment shorter; the root is its own parent |
| Paths.Name | main.py:40-41 | the last segment of a non-empty path; joined onto the parent it gives back the path |
| Paths.Child | main.py:42-43 | `p / name` is one segment below `p`, with `p` as parent and `name` as name; an empty name gives `p` itself |
| Paths.RelativeTo | commands/track.py:32-36 | `relative_to` succeeds exactly when the root is a segment-wise ancestor of the path or the path itself, and the root joined with the result is the path |
| Paths.RelativeToJoin | utils.py:53-57 | a root joined with any relative path gives that relative path back under `relative_to` |
| FileSystem.Resolve | commands/track.py:17 | a path that is not a symlink resolves to itself, and a result is never a symlink |
| FileSystem.ResolveFuelMore | commands/track.py:17 | once a chain resolves, following it with more steps gives the same path |
| FileSystem.ResolveStep | commands/track.py:17 | a symlink that resolves resolves to where its target resolves, so a chain of any length is followed to its end |
| FileSystem.FuelRunsOut | commands/track.py:17 | the bounded resolution gives no result exactly when every path of the chain up to the bound is a symlink |
| FileSystem.ResolveNoneIsLoop | commands/track.py:17 | resolution gives no result only on a loop: within as many steps as there are nodes, the chain comes back to a path it passed |
| FileSystem.LoopNeverResolves | commands/track.py:17 | a chain that comes back to a path it passed never resolves, whatever the bound |
| FileSystem.QueriesFollowLinks | commands/track.py:19-25 | `exists`, `is_file` and `is_dir` look at the node itself when it is not a symlink and at the target when it is; a file is never a directory, and both exist |
| FileSystem.ResolveIdempotent | commands/track.py:17-26 | resolving an already resolved path changes nothing, which is why the `is_symlink` test on the resolved path is dead |
| FileSystem.ResolveOneLink | utils.py:25 | a symlink to a path that is not a symlink resolves to its target |
| FileSystem.ParentError | commands/track.py:43-44 | creating a node fails exactly when its parent is missing (FileNotFoundError) or not a directory (NotADirectoryError), and always at the filesystem root (FileExistsError) |
| FileSystem.ReplaceStep | commands/track.py:43 | `replace` fails on a missing source (FileNotFoundError), a bad parent of the destination, a move into the source's own subtree, a directory at the destination, and a directory source onto an existing non-directory; it succeeds exactly when none of these holds, and the source node then arrives at the destination |
| FileSystem.MovedArrives | commands/track.py:43 | after the move, the destination holds the former source node |
| FileSystem.MovedLeaf | commands/track.py:43 | moving a node with nothing below it removes the source entry and adds the destination entry, and changes nothing else |
| FileSystem.ReplaceLeaf | commands/track.py:43 | a `replace` of such a node onto a free place in an existing directory succeeds with exactly that two-entry change |
| FileSystem.ReplaceIsMove | commands/track.py:43 | a successful `replace` between two different paths is the subtree move |
| FileSystem.ReplaceIntoFree | commands/untrack.py:40 | a `replace` onto a free place whose parent is a directory, outside the moved subtree, succeeds and is the subtree move |
| FileSystem.MoveRoundTrip | commands/untrack.py:38-40 | moving a subtree to a free place, leaving a symlink, deleting the symlink and moving the subtree back gives back the original nodes |
| FileSystem.SymlinkStep | commands/track.py:44 | `symlink_to` succeeds exactly when nothing is at the path and its parent is a directory; it then adds just the symlink; it fails with FileExistsError on an occupied path and otherwise with the parent's error |
| FileSystem.UnlinkStep | commands/untrack.py:38 | `unlink` succeeds exactly on an existing non-directory, and then removes just that entry; a missing path raises FileNotFoundError and a directory IsADirectoryError |
| FileSystem.EnsureDir | main.py:46 | `mkdir(parents=True)` leaves the path a directory, inside a directory when it was missing; it keeps every existing entry and adds only directories on the way to the path, each inside a directory, so the missing ancestors up to the nearest existing one now exist as directories; an existing path succeeds only if it is a directory, and a non-directory there raises FileExistsError; a missing path succeeds exactly when the nearest existing one of it and its ancestors is a directory, and otherwise fails with FileNotFoundError when none exists and NotADirectoryError when that one is not a directory; a missing path in an existing directory adds just that directory |
| FileSystem.MkdirStep | main.py:45-47 | `mkdir` on an existing path raises FileExistsError, and on a missing path it acts as `mkdir(parents=True, exist_ok=True)`, so it succeeds exactly when the path is missing and its nearest existing ancestor is a directory; on success the path is a new directory inside a directory, old entries are kept, and the new entries are its missing ancestors, each a directory inside a directory |
| FileSystem.FileSystem.Replace | commands/track.py:43 | the nodes become the result of the replace step, or stay unchanged when it fails |
| FileSystem.FileSystem.SymlinkTo | commands/track.py:44 | the nodes become the result of the symlink step, or stay unchanged when it fails |
| FileSystem.FileSystem.Unlink | commands/untrack.py:38 | the nodes become the result of the unlink step, or stay unchanged when it fails |
| FileSystem.FileSystem.Mkdir | main.py:46 | the nodes become the result of the mkdir step, or stay unchanged when it fails |
| Config.SplitTail | config.py:27-29 | `os.path.split(p)[-1]` contains no '/', ends `p`, and is preceded in `p` by a '/' when shorter than `p` |
| Config.SplitTailOfName | config.py:27-29 | the tail of a directory path followed by a plain name is that name |
| Config.FollowerPathShape | config.py:13-14 | `get_follower_path(name)` starts with the follower root and its last component is `name` |
| Config.Find | config.py:16-17 | `find` returns None exactly when no element satisfies `fn`, and otherwise the first element that does |
| Config.PathsSwapOnMode | config.py:39-52 | in source mode `source_path` is the working dir and `follower_path` the follower path of its name; in follower mode the two swap; together they are always that pair |
| Config.FollowerModeSourceIsFollower | config.py:43-45 | run from a project's follower tree, `source_path` equals `follower_path` equals the working dir |
| Config.IsFollowerIsStringPrefix | config.py:31-33 | follower mode is a raw string-prefix test, so `/home/u/.etc/app` counts as inside `/home/u/.et` |
| Config.ETConfig.constructor | config.py:62-70 | no document, or one without `projects`, gives an empty list; otherwise the document's list |
| Config.ETConfig.FindProjectByName | config.py:96-97 | finds a record exactly when one has that name, and the record found is the first one with it |
| Config.ETConfig.FindProjectByFollowerPath | config.py:99-100 | finds a record exactly when one has that follower dir, and the record found is the first one with it |
| Config.ETConfig.FindProjectBySourcePath | config.py:102-103 | finds a record exactly when one has that source dir, and the record found is the first one with it |
| Config.ETConfig.RegisterProject | config.py:79-94 | refuses a taken name, then a taken follower dir, then a taken source dir, each iff its guard fails in that order, leaving the list unchanged; otherwise appends exactly the new record; keeps the three keys distinct |
| Config.RegisterAll | config.py:79-94 | registering any sequence of requests on a fresh configuration leaves exactly the records `Registered` keeps, with names, follower dirs and source dirs pairwise distinct |
| Config.RegisteredDistinct | config.py:79-94 | the records kept have pairwise distinct names, follower dirs and source dirs |
| Config.RegisteredFromRequests | config.py:90-94 | every record kept is one of the requests |
| Config.RegisteredInOrder | config.py:90-94 | the records kept from any first part of the requests are a prefix of those kept from all of them, so the requests stay in order |
| Config.RegisteredStep | config.py:79-94 | a request that clashes on a key with a record kept before it is refused and changes nothing; any other request is appended |
| Discovery.PathIsChildRepo | utils.py:9-10 | the marker of a child dir is the entry named PARENT_SYMLINK_NAME directly inside it |
| Discovery.PathInEtHome | utils.py:60-61 | holds iff the path is ET_HOME or ET_HOME is a segment-wise ancestor of it |
| Discovery.Scan | utils.py:20-30 | the loop returns the child of the first entry, in listing order, that is not `.git` and whose marker resolves to the parent; it raises MissingChild exactly when every entry is skipped, and otherwise stops on a symlink loop |
| Discovery.FindChild | utils.py:13-30 | refuses ET_HOME and every path below it before listing; then a missing ET_HOME fails with FileNotFoundError and a non-directory one with NotADirectoryError; otherwise the result is the scan's; a success implies ET_HOME is a directory |
| Discovery.FindChildDir | utils.py:13-30 | the loop with `continue` and early return computes exactly `FindChild` |
| Discovery.ScanFindsFirst | utils.py:20-27 | when an entry matches and every earlier one is skipped, the scan returns that entry's child dir |
| Discovery.ScanNoLoop | utils.py:20-30 | when every entry either matches or is skipped, the scan does not stop on a loop |
| Discovery.FindChildOrderIndependent | utils.py:20-27 | with at most one matching entry and no loops, the result does not depend on the listing order |
| Discovery.RelativeToParent | utils.py:53-54 | succeeds exactly when the resolved path is at or below the parent dir, and the parent dir joined with the result is the resolved path; a loop fails with SymlinkLoop and a resolved path outside the parent dir with NotUnderParent |
| Discovery.RelativeToChild | utils.py:56-57 | succeeds exactly when the resolved path is at or below the child dir, and the child dir joined with the result is the resolved path; a loop fails with SymlinkLoop and a resolved path outside the child dir with NotUnderChild |
| Discovery.CorrespondingChildPath | utils.py:46-51 | succeeds exactly when the resolved path is at or below the parent dir; the result lies under the child dir at the same relative path |
| Discovery.RelativeSymmetry | utils.py:46-57 | for a relative path whose two locations are not symlinks, both sides give it back, and the parent location corresponds to the child location |
| Discovery.EnclosingWorkTree | utils.py:65-70 | the upward search returns the nearest of the path and its ancestors that is a working-tree root, and none when no such root exists |
| Discovery.InitProjectFromPath | utils.py:64-74 | no working tree is NotAGitRepository; otherwise the project pairs the working tree with exactly what `find_child_dir` returns for it, and its errors pass through; the child's marker resolves to the tree |
| Track.TrackCheck | commands/track.py:17-41 | on the resolved input, in order: a loop, a missing path (PathDoesNotExist), a directory (NotAFile), a file outside the source tree (FromFollowerDir) and an existing destination (DestinationExists, naming it) each fail; it succeeds exactly when none of these holds, with the file moving to the same relative place in the follower tree; the symlink check never fires |
| Track.Track | commands/track.py:17-44 | a failed check changes nothing; otherwise the file is moved and then the symlink made, each step either applied or failing with its OS error |
| Track.LinkEffect | commands/track.py:43-44 | with a free destination in an existing directory, both steps succeed, exactly two entries change, and the source becomes a symlink that resolves to the moved file |
| Track.RetrackRejected | commands/track.py:17-36 | tracking an already tracked path is refused as coming from the follower tree |
| Untrack.UntrackPrelude | commands/untrack.py:12-22 | a missing input fails first (TargetNotFound); project discovery errors pass through; then a non-symlink fails with NotASymlink and a target not strictly below the child dir with NotLinkedUnderChild; when none of these applies it passes with the project and the resolved target |
| Untrack.UntrackCheck | commands/untrack.py:12-35 | as written: after the prelude it succeeds exactly when the resolved target lies under the parent dir, which fails whenever the child dir is not inside the parent dir |
| Untrack.ChildNotAboveParent | utils.py:17-27 | a discovered child dir lies in ET_HOME and so is never the parent dir or one of its ancestors |
| Untrack.UntrackCheckCorrected | commands/untrack.py:29-35 | with the target made relative to the child dir, the file to move back is the resolved target itself once the prelude passes |
| Untrack.RestoreLink | commands/untrack.py:37-40 | the symlink is deleted first and the child-side node then moved to that place, each step applied or failing with its OS error |
| Untrack.Untrack | commands/untrack.py:12-40 | a failed check changes nothing; otherwise the two steps of the restore are applied |
| Untrack.UntrackCorrected | commands/untrack.py:12-40 | the same, with the corrected checks |
| Untrack.RestoreAfterLink | commands/untrack.py:35-40 | after the two steps of `track`, the input is a symlink resolving to the moved node, and the two steps of the restore give back the nodes from before `track` |
| Untrack.LinkUnlinkRoundTrip | commands/untrack.py:12-40 | `track` followed by the corrected `untrack` passes every check and gives back the filesystem as it was |
| Untrack.UntrackAfterTrackRefused | commands/untrack.py:29-33 | after a successful `track`, the as-written `untrack` of the same path fails whenever the child dir is not inside the parent dir |
| UntrackExample.UntrackRefusesLinkedFile | commands/untrack.py:29-33 | on the concrete pair `/r/app` and `/h/.et/app`, the as-written checks refuse the tracked `/r/app/s` and the corrected checks plan moving `/h/.et/app/s` back |
| Init.PlanInit | main.py:34-43 | no enclosing working tree is NotAGitRepository; a missing or empty name defaults to the tree's last segment; the child is ET_HOME joined with the name and the marker is inside the child |
| Init.InitRun | main.py:34-54 | with no working tree nothing changes and NotAGitRepository is reported; with the child present already nothing changes, and the error names the marker's resolved target when the marker exists and says only that the child exists otherwise; on success the pair is created as `Created` states; with a non-empty marker name, init passes exactly when the tree is found, the child dir and the marker are both absent, and the nearest existing ancestor of the child dir is a directory; with an empty marker name it never passes; when the child dir is missing and cannot be made, nothing changes and mkdir's FileNotFoundError or NotADirectoryError is reported; when mkdir succeeds and the marker link fails, the new directories stay and the link's OS error is reported |
| Init.MkdirThenLink | main.py:46-54 | after mkdir and the marker link, the child and marker are new, the child is a directory inside a directory, the marker links to the tree, old entries are kept, and everything new is the marker or a directory on the way to the child, each inside a directory |
| Init.CmdInit | main.py:34-54 | the method leaves exactly the nodes and outcome of `InitRun` |
| Init.InitThenFound | main.py:42-54 | after a successful init, the new child matches its tree, ET_HOME is a directory, and a later `find_child_dir` from that tree returns the new child once the scan reaches its entry with no earlier match |
| Init.EtHomeCreated | main.py:42-46 | after a successful init, ET_HOME exists as a directory, being the child dir or its parent |

## Left out

- Git (GitPython) is not modelled. Working-tree discovery is an oracle: the set of working-tree roots for the upward search. `Repo.init`, `index.add` and `commit` (main.py:53, 56-57) are left out, so the `.git` directory that `Repo.init` creates in the child is not modelled.
- `intuit_project_from_path`, which `track` imports from config, is not defined in config.py. It is a parameter that maps a path to its source and follower trees.
- The listing order of `ET_HOME.iterdir()` is a parameter. It is not derived from the nodes.
- `os.getcwd()` (config.py:33) is an OS call and the working dir of `CurrentRepo` comes from git. Both are parameters.
- `ET_HOME` and `PARENT_SYMLINK_NAME`, which utils.py:5 and main.py:7 import from config, are not defined in config.py, which defines `ET_HOME_DIR`, `ET_FOLLOWER_ROOT_DIR` and `ET_CONFIG_LOCATION` only (config.py:7-11). They are the parameters `Settings.etHome` and `Settings.markerName`, and no default value is modelled.
- JSON persistence (`ETConfig.save`, `load_et_config`), the click command group, `click.echo`, logging, and the config.py classes at lines 106-159 are file I/O and CLI plumbing.
- commands/init.py is an earlier version of `init` and is not part of this model. The same holds for `__main__.py`, cli-hack.py and setup.py.
- The test files are not modelled. They describe earlier versions of the commands.
- FileSystem.Resolve follows symlinks at the last component of a path only. Symlinked intermediate directories, relative symlink targets, `.` and `..` are not modelled. All paths are absolute.
- Init.PlanInit treats the project name as one path segment. A name containing '/' or starting with '/' is not modelled.
- FileSystem.ReplaceStep reports every directory destination as IsADirectory. rename(2) lets a directory replace an empty directory, which is not modelled.
- Permission errors, full disks and other OS failures besides the five modelled kinds are left out.
- Concurrency and the atomicity of `replace` are not modelled. The code runs its steps in sequence, and so does the model.
- Config.ETConfig.constructor copies the document's list into its field. The Python object keeps a reference to the caller's list, so aliasing is not modelled.
- `Project.child_file_exists` and `Project.parent_file_exists` are the predicates `Discovery.ChildFileExists` and `Discovery.ParentFileExists`. They are defined by existence of the joined path and have no contract of their own.
- Exception messages are modelled by which `Failure` is raised, not by their text.
- FileSystem.NearestExisting and FileSystem.CanMakeDirs are helpers for the contracts of `FileSystem.EnsureDir`, `FileSystem.MkdirStep` and `Init.InitRun`. An ancestor that is a symlink to a directory counts as not a directory there, as with every symlink in the middle of a path.
- Init.ExistsError is a helper that picks the error for an existing child. It has no contract of its own: `Init.InitRun` states which error is raised.
- Config.GetFollowerPath, Config.RepoName, Config.IsFollower, Config.SourcePath, Config.FollowerPath and Config.JoinPath are defined directly, with no contract of their own. Their properties are stated by `Config.FollowerPathShape`, `Config.PathsSwapOnMode`, `Config.FollowerModeSourceIsFollower` and `Config.IsFollowerIsStringPrefix`.
- FileSystem.IsLink, FileSystem.Exists, FileSystem.IsFile and FileSystem.IsDir are defined directly. `FileSystem.QueriesFollowLinks` states how they follow symlinks.
- Config.Registered and Config.Clashes are the reference definition of which registrations succeed. The `Config.Registered*` lemmas state their properties.
- The click checks on the `directory` argument of `init` (main.py:25-27) are not modelled. Click demands that the directory exist and be a directory, and resolves it. `Init.PlanInit` takes the path as given.

## Findings

| source | as written | input that shows it | evidently intended | confidence | as-written member | corrected member |
|---|---|---|---|---|---|---|
| commands/untrack.py:29-35 | the path relative to `parent_dir` is computed from the symlink's resolved target, which lies in the child tree | ET_HOME `/h/.et`, tree `/r/app` with child `/h/.et/app`, `/r/app/s` a symlink to `/h/.et/app/s`: `relative_to` fails with ValueError | compute the relative path against `child_dir` (or from the unresolved input), so that `child_file_path` is the tracked file | not executed | Untrack.UntrackCheck, Untrack.UntrackAfterTrackRefused, UntrackExample.UntrackRefusesLinkedFile | Untrack.UntrackCheckCorrected, Untrack.LinkUnlinkRoundTrip |
