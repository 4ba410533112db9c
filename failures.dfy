/** How the tool fails. In the source every failure ends the process through
    `exit(...)` or a failing `assert`; here each becomes an error value that
    the caller passes on, and `ExitCode` gives the status the process would
    have ended with. */
module Failures {
  import opened Paths
  import opened Remote

  datatype Error =
    | NotFound(path: Path)                      // `_exists` said no
    | UnknownFlags(flags: int)                  // flags outside 51/19/48/16
    | DirSizeNot512(flags: int, size: int)      // directory flags, size not 512
    | NotDirFlags(flags: int, size: int)        // size 512, flags not 51/19
    | CallFailed(call: Call)                    // `assert status.ok` failed
    | PermissionDenied(user: string, path: Path) // user not in the path
    | NoAnswer                                  // prompt ended without an answer
    | BadBasePath(path: Path)                   // base path not "/.../"

  datatype Result<+T> = Ok(value: T) | Err(error: Error)

  /** The process status of each failure: `exit(-1)` on a permission denial
      reads as 255; `exit('message')`, a failed `assert` and an exception
      read as 1. A clean `exit(0)` is the only status 0. */
  function ExitCode(e: Error): (code: int)
    ensures 0 < code < 256
    ensures code == 255 <==> e.PermissionDenied?
  {
    if e.PermissionDenied? then 255 else 1
  }
}
