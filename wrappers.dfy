/** Option, Result and Outcome, and the failures every command can report. */
module Wrappers {

  datatype Option<+T> = None | Some(value: T)

  datatype Result<+T, +E> = Ok(value: T) | Err(error: E)

  /** A result that carries no value: the command either passes or fails. */
  datatype Outcome<+E> = Pass | Fail(error: E)

  /** Errors the operating system reports for one filesystem call. */
  datatype OsErrorKind =
    | FileNotFound        // ENOENT
    | FileExists          // EEXIST
    | NotADirectory       // ENOTDIR
    | IsADirectory        // EISDIR
    | InvalidArgument     // EINVAL: a directory moved into itself

  /** Every failure the modelled commands raise, one constructor per distinct exception or message. */
  datatype Failure =
    | Os(kind: OsErrorKind)
    | SymlinkLoop                          // RuntimeError raised by Path.resolve
    | NotAGitRepository                    // InvalidGitRepositoryError / click.BadParameter
    | InsideEtHome                         // 'Cannot run this from within ET_HOME'
    | MissingChild                         // MissingChild
    | NotUnderParent                       // ValueError of relative_to, or 'not found in parent_dir'
    | NotUnderChild                        // ValueError of relative_to against child_dir
    | NameTaken                            // 'Project with name … exists already'
    | FollowerTaken                        // '… is already tracking another project'
    | SourceTaken                          // 'This repository is already being tracked'
    | PathDoesNotExist                     // track: 'Path does not exist'
    | NotAFile                             // track: 'Path provided is not a file'
    | AlreadySymlinked                     // track: 'File is already symlinked'
    | FromFollowerDir                      // track: 'May not track files from the follower directory.'
    | DestinationExists(dest: seq<string>) // track: 'Something else already exists at: …'
    | TargetNotFound                       // untrack: FileNotFoundError 'Path does not exist'
    | NotASymlink                          // untrack: 'Target must be a symlink'
    | NotLinkedUnderChild                  // untrack: 'Target must symlink to a file under: …'
    | ChildExists(child: seq<string>)      // init: '… already exists'
    | ChildExistsLinked(child: seq<string>, target: seq<string>) // init: '… already exists and links to: …'
}
