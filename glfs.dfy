/** The part of libgfapi that the file-handle binding calls. What the library does with a
    call is not modelled: a call is a record of its arguments, and what it returns is
    supplied to the binding from outside. */
module Glfs {
  import opened CTypes

  /** Advisory-locking commands and lock types of `fcntl()` (POSIX.1-2017, XSH), with
      the values the Linux headers give them. */
  const F_GETLK: int := 5
  const F_SETLK: int := 6
  const F_SETLKW: int := 7
  const F_RDLCK: int := 0
  const F_WRLCK: int := 1
  const F_UNLCK: int := 2

  /** `SEEK_SET` of `lseek()`: offsets counted from the start of the file. */
  const SEEK_SET: int := 0

  /** `EINVAL`: invalid argument. */
  const EINVAL: int := 22

  /** A `glfs_fd_t *`: an open descriptor of the remote filesystem, or NULL. */
  datatype FdRef = Null | Fd(id: nat)

  /** `struct flock`: the lock record exchanged with `glfs_posix_lock`. */
  datatype Flock = Flock(lType: Int16, whence: Int16, start: Int64, len: Int64, pid: Int32)

  /** The part of `struct stat` that the binding passes on. Its conversion to a Python
      record is not part of this model; the record is the structure itself. */
  datatype Stat = Stat(mode: Uint32, uid: Uint32, gid: Uint32, size: Int64,
                       atime: Int64, mtime: Int64, ctime: Int64)

  /** One call into libgfapi, with the arguments the binding passed. */
  datatype Call =
    | GlfsClose(fd: FdRef)
    | GlfsFstat(fd: FdRef)
    | GlfsFsync(fd: FdRef)
    | GlfsFchdir(fd: FdRef)
    | GlfsFchmod(fd: FdRef, mode: Uint32)
    | GlfsFchown(fd: FdRef, uid: Uint32, gid: Uint32)
    | GlfsFtruncate(fd: FdRef, length: Int64)
    | GlfsLseek(fd: FdRef, offset: Int64, whence: Int32)
    | GlfsPread(fd: FdRef, count: Int64, offset: Int64)
    | GlfsPwrite(fd: FdRef, data: seq<bv8>, offset: Int64)
    | GlfsPosixLock(fd: FdRef, cmd: Int32, lock: Flock)

  /** The name the binding gives a failed call in the error it raises. */
  function CallName(c: Call): string
  {
    match c
    case GlfsClose(_) => "glfs_close()"
    case GlfsFstat(_) => "glfs_fstat()"
    case GlfsFsync(_) => "glfs_fsync()"
    case GlfsFchdir(_) => "glfs_fchdir()"
    case GlfsFchmod(_, _) => "glfs_fchmod()"
    case GlfsFchown(_, _, _) => "glfs_fchown()"
    case GlfsFtruncate(_, _) => "glfs_ftruncate()"
    case GlfsLseek(_, _, _) => "glfs_lseek()"
    case GlfsPread(_, _, _) => "glfs_pread()"
    case GlfsPwrite(_, _, _) => "glfs_pwrite()"
    case GlfsPosixLock(_, _, _) => "glfs_posix_lock()"
  }
}
