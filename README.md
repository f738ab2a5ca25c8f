# pyglfs file handles, modelled in Dafny

`pyglfs` is a CPython extension that exposes the GlusterFS client library, libgfapi.
Its `pyglfs.FD` type wraps one open descriptor of the remote filesystem (`src/pyglfs-fd.c`).
Each method of that type parses its Python arguments and makes one `glfs_*` call on the wrapped descriptor.
It then turns a failed call into a Python exception named after the call.
Around those calls the binding has some logic of its own:

- the ordered argument checks of `posix_lock` and its lock-record defaults;
- the allocation, short-read and cleanup paths of `pread`;
- the buffer checks and the release-on-every-path of `pwrite`;
- the life of the object itself: `init_glfs_fd` takes the descriptor and a reference to its parent, the glfs object handle it was opened from, and deallocation closes the descriptor and drops that reference.

The model has six modules:

- `CTypes`: the C integer types and the two implicit conversions the wrappers perform.
- `Glfs`: the libgfapi calls as records of their arguments, plus the `fcntl` and `lseek` constants.
- `Effects`: Python exceptions, the events a call causes and counting over event traces:
  - a native call;
  - a bytes object allocated or freed;
  - a buffer view acquired or released.
- `FdSpec`: each wrapper as a pure function. It maps the descriptor, the parsed arguments (None when parsing fails) and the answers of the outside world to a result and a trace of events.
- `FdObject`: the objects the binding mutates, as classes:
  - the runtime that sees the events and standard error;
  - the parent object handle (`py_glfs_obj_t`) with its reference count;
  - the bytes object and the `Py_buffer`;
  - the handle with its `fd`, `flags` and `parent` fields.

  Each handle method is proved to return what its `FdSpec` function returns and to append exactly that function's events to the runtime.
- `Lifecycle`: a whole life of a handle:
  - `init_glfs_fd`;
  - any sequence of method calls;
  - deallocation.

  It proves that the descriptor is closed exactly once, as the last native call, and that every native call goes to that descriptor. It also proves that no buffer view is left held and that only `pread` leaves a bytes object to the caller.

What libgfapi returns, whether an allocation succeeds and what a buffer exporter hands out are parameters of each operation.

## Model

| member | source | states |
|---|---|---|
| CTypes.ToUint32 | src/pyglfs-fd.c:171 | the `(uid_t)`/`(gid_t)` cast keeps the value modulo 2^32: the identity on non-negative values, and -1 becomes 0xFFFFFFFF |
| CTypes.ToInt32 | src/pyglfs-fd.c:219-223 | storing the `off_t` from `glfs_lseek` in an `int` keeps the low 32 bits; the result is zero exactly when the value is a multiple of 2^32 |
| FdSpec.Checked | src/pyglfs-fd.c:102-111 | the rule shared by the simple wrappers: exactly the one native call; success iff it returns 0; otherwise the error names that call; no view and no bytes object is left held |
| FdSpec.Fstat | src/pyglfs-fd.c:75-93 | calls `glfs_fstat` on the handle's descriptor; returns the stat record on status 0, otherwise the `glfs_fstat()` error |
| FdSpec.Fsync | src/pyglfs-fd.c:95-112 | calls `glfs_fsync` on the descriptor; succeeds iff it returns 0, otherwise raises the `glfs_fsync()` error |
| FdSpec.Fchdir | src/pyglfs-fd.c:114-131 | calls `glfs_fchdir` on the descriptor; succeeds iff it returns 0, otherwise raises the `glfs_fchdir()` error |
| FdSpec.Fchmod | src/pyglfs-fd.c:133-155 | a refused argument makes no call; otherwise `glfs_fchmod` gets the mode converted to `mode_t` (unchanged when non-negative); success iff status 0 |
| FdSpec.Fchown | src/pyglfs-fd.c:157-180 | a refused argument makes no call; otherwise `glfs_fchown` gets both ids converted to 32-bit unsigned, with -1 becoming 0xFFFFFFFF; success iff status 0 |
| FdSpec.Ftruncate | src/pyglfs-fd.c:182-204 | a refused argument makes no call; otherwise `glfs_ftruncate` gets the length unchanged; success iff status 0 |
| FdSpec.Lseek | src/pyglfs-fd.c:206-229 | a refused argument raises that error and makes no call; otherwise `glfs_lseek` gets the position and `how` (default 0, SEEK_SET); success iff the returned offset is a multiple of 2^32, so any offset in (0, 2^31) is reported as a failure; every failure after the call, -1 included, is the `glfs_lseek()` error |
| FdSpec.Pread | src/pyglfs-fd.c:231-271 | a negative count fails with EINVAL before any allocation or native call; a failed allocation makes no call; a negative native count frees the buffer and raises; otherwise the result is exactly the `n` bytes read, `n` <= count, and is the one bytes object left allocated |
| FdSpec.WriteCheck | src/pyglfs-fd.c:289-307 | the three `pwrite` checks in order: not a buffer, view not acquired, view not C-contiguous; all pass iff the object has a contiguous view |
| FdSpec.WriteResult | src/pyglfs-fd.c:316-320 | after the write: -1 is the `glfs_pwrite()` error, a count that cannot become a Python integer is MemoryError, otherwise the count unchanged |
| FdSpec.Pwrite | src/pyglfs-fd.c:273-327 | no native call unless all checks pass; then `glfs_pwrite` gets the whole view and the offset; success iff it was called, did not return -1 and the integer for the count was allocated; -1 is the `glfs_pwrite()` error; the count is returned unchanged; a view is acquired exactly when one is exported and is always released |
| FdSpec.LockCheck | src/pyglfs-fd.c:365-392 | an invalid command is reported first, then an invalid lock type, then F_UNLCK with F_GETLK; no error iff the command and type are valid and not that pair |
| FdSpec.InitialFlock | src/pyglfs-fd.c:336-363 | the lock record gets the given type and, where not given, whence SEEK_SET, start 0, len 1; pid is always 0 |
| FdSpec.PosixLock | src/pyglfs-fd.c:329-411 | any failed check raises its error with no native call; `glfs_posix_lock` is called iff all checks pass; a non-zero status is the `glfs_posix_lock()` error; success iff it returns 0 and, in verbose mode, the reply dict is allocated (otherwise MemoryError); the result is None unless verbose, otherwise the command and the record's fields as the call left them |
| FdObject.PyBytes.constructor | src/pyglfs-fd.c:251 | a new bytes object of exactly `cnt` bytes |
| FdObject.PyBytes.StoreAtStart | src/pyglfs-fd.c:257 | the bytes read are stored at the start of the object, and the rest is unchanged |
| FdObject.PyBytes.Shrink | src/pyglfs-fd.c:266-268 | resizing keeps exactly the first `n` bytes |
| FdObject.PyBuffer.constructor | src/pyglfs-fd.c:280 | the `Py_buffer` starts with no view |
| FdObject.PyBuffer.Acquire | src/pyglfs-fd.c:297 | the buffer then holds the exported view, and one acquire event is recorded |
| FdObject.PyBuffer.Release | src/pyglfs-fd.c:322-325 | the view is released, and one release event is recorded |
| FdObject.Handle.constructor | src/pyglfs-fd.c:61 | a newly allocated object has a NULL descriptor, zero flags and no parent |
| FdObject.Handle.Fstat | src/pyglfs-fd.c:75-93 | returns what FdSpec.Fstat returns and records exactly its events; standard error is untouched |
| FdObject.Handle.Fsync | src/pyglfs-fd.c:95-112 | returns what FdSpec.Fsync returns and records exactly its events |
| FdObject.Handle.Fchdir | src/pyglfs-fd.c:114-131 | returns what FdSpec.Fchdir returns and records exactly its events |
| FdObject.Handle.Fchmod | src/pyglfs-fd.c:133-155 | returns what FdSpec.Fchmod returns and records exactly its events |
| FdObject.Handle.Fchown | src/pyglfs-fd.c:157-180 | returns what FdSpec.Fchown returns and records exactly its events |
| FdObject.Handle.Ftruncate | src/pyglfs-fd.c:182-204 | returns what FdSpec.Ftruncate returns and records exactly its events |
| FdObject.Handle.Lseek | src/pyglfs-fd.c:206-229 | returns what FdSpec.Lseek returns and records exactly its events |
| FdObject.Handle.Pread | src/pyglfs-fd.c:231-271 | fails exactly when FdSpec.Pread does, with the same error; on success returns a new bytes object whose contents are FdSpec.Pread's bytes; records exactly its events |
| FdObject.Handle.Pwrite | src/pyglfs-fd.c:273-327 | returns what FdSpec.Pwrite returns and records exactly its events, including the release at the cleanup label |
| FdObject.Handle.PosixLock | src/pyglfs-fd.c:329-411 | returns what FdSpec.PosixLock returns and records exactly its events |
| FdObject.Handle.Dealloc | src/pyglfs-fd.c:44-55 | a non-NULL descriptor is closed once and set to NULL even when the close fails; only that failure is written to standard error; the parent is cleared in every case; the parent's count drops by one and stays consistent |
| FdObject.InitGlfsFd | src/pyglfs-fd.c:57-73 | if allocation fails, the descriptor is closed and the parent is untouched; otherwise the new object holds the descriptor, the flags and the parent, and the parent's count grows by exactly one |
| FdObject.DeallocSibling | src/pyglfs-fd.c:53 | dropping one handle's reference leaves another handle of the same parent valid, so that parent's count stays at least one |
| Lifecycle.OpCalls | src/pyglfs-fd.c:75-411 | every method makes at most one native call, always on the handle's own descriptor and never `glfs_close` |
| Lifecycle.OpRefused | src/pyglfs-fd.c:141-143 | a call whose arguments the parser refuses raises that error and causes no event at all |
| Lifecycle.OpBalance | src/pyglfs-fd.c:231-327 | every view acquired is released, and a bytes object is left allocated exactly when `pread` succeeds |
| Lifecycle.OpsEffects | src/pyglfs-fd.c:75-411 | over any sequence of calls: at most one native call per call, none a close and all on the descriptor; no view held; the bytes objects left are the successful reads |
| Lifecycle.SessionClosesOnce | src/pyglfs-fd.c:44-73 | in a whole life, with or without a successful allocation, `glfs_close` of the descriptor happens exactly once and is the last native call; all native calls go to that descriptor; no view is held |
| Lifecycle.Perform | src/pyglfs-fd.c:413-474 | dispatching a call through the method table records exactly the events of that method's FdSpec function |
| Lifecycle.PerformAll | src/pyglfs-fd.c:413-474 | a sequence of calls records the concatenation of their events and writes nothing to standard error |
| Lifecycle.Lifetime | src/pyglfs-fd.c:44-73 | init, calls and dealloc together record exactly the events of `Session`, so SessionClosesOnce applies; the parent's count and holders are back where they started |

## Left out

- The GIL is released around each native call (`Py_BEGIN_ALLOW_THREADS`). This only matters for concurrency, and the model is sequential.
- What libgfapi does with a call is not modelled: file contents, stat fields, lock conflicts and the working directory are out of scope. Its return values are parameters.
- `stat_to_pystat`, `set_glfs_exc` and `set_exc_from_errno` are defined in files that are not part of this model. The stat record stands for its Python conversion, and the exceptions are `Error` values named after the failing call.
- Argument parsing is represented by its outcome: the values it yields, or a refusal with no further effect. `PyArg_Parse*` range checks are reflected only in the C integer types of the parsed values.
  - In particular, the conversion of `verbose` by the `b` format is its truth value.
  - The `l_type` default of -1 never reaches the checks, because `type` is a required argument.
- `tp_free`, the object's own memory, `py_glfs_fd_new`, `py_glfs_fd_init`, the getters table and the type object are CPython boilerplate and are left out. The method table is modelled only as the dispatch in `Lifecycle.Perform`.
- No wrapper checks whether the handle has been closed. A NULL descriptor is passed straight to libgfapi, and the model does the same.
- `lseek` is modelled as written: a seek to a non-zero offset below 2^31 is reported as an error.
- The `fcntl` constants take their Linux values: F_GETLK 5, F_SETLK 6, F_SETLKW 7, F_RDLCK 0, F_WRLCK 1, F_UNLCK 2. `SEEK_SET` is 0 and `EINVAL` is 22.
- FdSpec.Pread: assumes libgfapi's side of the contract (`HonoursCount`). A non-negative count it returns is at most the count asked for, and it stores exactly that many bytes. The binding itself does not check this.
- FdObject.Handle.Pread: when `_PyBytes_Resize` fails, the binding returns with the exception set, since the resize has already freed the object. The model reports this as `NoMemory` with a free event. Success of the resize is a parameter.
- Lifecycle.Perform: drops the value each method returns. That value is stated by the method's own contract.
- `glfs_close` during deallocation writes `strerror(errno)` to standard error. The model records the errno, not the text.
