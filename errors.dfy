/** Go's `error` results: `None` is `nil`. */
module Wrappers {
  datatype Option<T> = None | Some(value: T)
}

/** errors.go: the three core error kinds, built by wrapping fixed sentinels, and
    their `errors.Is` classifiers; plus the library errors the file systems return. */
module Errors {
  import opened Wrappers

  /** The sentinel values an error chain can wrap. The first three are the core's
      own (errors.go:40-44); the rest come from `io/fs`, `io` and the OS. */
  datatype Sentinel =
    | CoreInvalidPath
    | CoreBinaryFsOp
    | CoreRejectSameDirMove
    | Exist
    | NotExist
    | EOF
    | IsDirectory
    | NotDirectory
    | NotEmpty
    /** `fs.ErrInvalid`, which `syscall.EINVAL` matches under `errors.Is`. */
    | Invalid

  datatype Error =
    | InvalidPath(path: string)
    | InvalidBinaryFsOp(op: string, from: string, to: string)
    | RejectSameDirMove(op: string, from: string, to: string)
    | PathError(op: string, path: string, cause: Sentinel)
    /** A bare sentinel returned as it is, such as `os.ErrExist`. */
    | Bare(sentinel: Sentinel)
    /** An `fmt.Errorf` message that wraps no sentinel. */
    | Failure(message: string)

  /** The sentinel at the end of the error's chain, if any. */
  function Unwrap(e: Error): Option<Sentinel> {
    match e
    case InvalidPath(_) => Some(CoreInvalidPath)
    case InvalidBinaryFsOp(_, _, _) => Some(CoreBinaryFsOp)
    case RejectSameDirMove(_, _, _) => Some(CoreRejectSameDirMove)
    case PathError(_, _, cause) => Some(cause)
    case Bare(s) => Some(s)
    case Failure(_) => None
  }

  /** `errors.Is(err, target)`; a nil error is nothing. */
  predicate Is(err: Option<Error>, target: Sentinel) {
    err.Some? && Unwrap(err.value) == Some(target)
  }

  /** `IsInvalidPathError`: nil is not one, and it excludes the other two kinds. */
  predicate IsInvalidPathError(err: Option<Error>)
    ensures IsInvalidPathError(err) ==> err.Some? && !Is(err, CoreBinaryFsOp) && !Is(err, CoreRejectSameDirMove)
  {
    Is(err, CoreInvalidPath)
  }

  /** `IsBinaryFsOpError`: nil is not one, and it excludes the other two kinds. */
  predicate IsBinaryFsOpError(err: Option<Error>)
    ensures IsBinaryFsOpError(err) ==> err.Some? && !Is(err, CoreInvalidPath) && !Is(err, CoreRejectSameDirMove)
  {
    Is(err, CoreBinaryFsOp)
  }

  /** `IsRejectSameDirMoveError`: nil is not one, and it excludes the other two kinds. */
  predicate IsRejectSameDirMoveError(err: Option<Error>)
    ensures IsRejectSameDirMoveError(err) ==> err.Some? && !Is(err, CoreInvalidPath) && !Is(err, CoreBinaryFsOp)
  {
    Is(err, CoreRejectSameDirMove)
  }

  /** The error wraps `ErrCoreInvalidPath` and so is classified as an invalid
      path and as nothing else. */
  function NewInvalidPathError(path: string): (e: Error)
    ensures IsInvalidPathError(Some(e))
    ensures !IsBinaryFsOpError(Some(e)) && !IsRejectSameDirMoveError(Some(e))
  {
    InvalidPath(path)
  }

  function NewInvalidBinaryFsOpError(op: string, from: string, to: string): (e: Error)
    ensures IsBinaryFsOpError(Some(e))
    ensures !IsInvalidPathError(Some(e)) && !IsRejectSameDirMoveError(Some(e))
  {
    InvalidBinaryFsOp(op, from, to)
  }

  function NewRejectSameDirMoveError(op: string, from: string, to: string): (e: Error)
    ensures IsRejectSameDirMoveError(Some(e))
    ensures !IsInvalidPathError(Some(e)) && !IsBinaryFsOpError(Some(e))
  {
    RejectSameDirMove(op, from, to)
  }

  /** No error is classified by two of the core predicates, and nil by none. */
  lemma ClassifiersExclusive(err: Option<Error>)
    ensures !(IsInvalidPathError(err) && IsBinaryFsOpError(err))
    ensures !(IsInvalidPathError(err) && IsRejectSameDirMoveError(err))
    ensures !(IsBinaryFsOpError(err) && IsRejectSameDirMoveError(err))
    ensures err.None? ==> !IsInvalidPathError(err) && !IsBinaryFsOpError(err) && !IsRejectSameDirMoveError(err)
  {
  }
}
