/** What each method of `pyglfs.FD` returns and which events it causes, as functions of
    the handle's descriptor, the parsed arguments (None when parsing failed) and what the
    native calls return. Nothing here checks whether the descriptor is NULL: no wrapper does. */
module FdSpec {
  import opened CTypes
  import opened Glfs
  import opened Effects

  function Failed<T>(e: Error): Outcome<T>
  {
    Outcome(Err(e), [])
  }

  /** The rule every wrapper applies after its one native call: a non-zero status is an
      error named after the call; zero is success. */
  function Checked(call: Call, status: int): (o: Outcome<()>)
    ensures NativeCalls(o.trace) == [call]
    ensures o.result.Ok? <==> status == 0
    ensures o.result.Err? ==> o.result.error == GlfsError(CallName(call))
    ensures ViewsHeld(o.trace) == 0 && BytesHeld(o.trace) == 0
  {
    var t := [Native(call)];
    assert NativeCalls(t[1..]) == [];
    Outcome(if status == 0 then Ok(()) else Err(GlfsError(CallName(call))), t)
  }

  /** `fstat`: the stat record on success. */
  function Fstat(fd: FdRef, status: int, st: Stat): (o: Outcome<Stat>)
    ensures NativeCalls(o.trace) == [GlfsFstat(fd)]
    ensures o.result == if status == 0 then Ok(st) else Err(GlfsError("glfs_fstat()"))
  {
    var c := Checked(GlfsFstat(fd), status);
    Outcome(if c.result.Ok? then Ok(st) else Err(c.result.error), c.trace)
  }

  /** `fsync`: None on success. */
  function Fsync(fd: FdRef, status: int): (o: Outcome<()>)
    ensures NativeCalls(o.trace) == [GlfsFsync(fd)]
    ensures o.result.Ok? <==> status == 0
    ensures o.result.Err? ==> o.result.error == GlfsError("glfs_fsync()")
  {
    Checked(GlfsFsync(fd), status)
  }

  /** `fchdir`: None on success. */
  function Fchdir(fd: FdRef, status: int): (o: Outcome<()>)
    ensures NativeCalls(o.trace) == [GlfsFchdir(fd)]
    ensures o.result.Ok? <==> status == 0
    ensures o.result.Err? ==> o.result.error == GlfsError("glfs_fchdir()")
  {
    Checked(GlfsFchdir(fd), status)
  }

  /** `fchmod(mode)`: the `int` mode is passed on as a `mode_t`. */
  function Fchmod(fd: FdRef, mode: Option<Int32>, status: int): (o: Outcome<()>)
    ensures mode.None? ==> o == Failed(ArgumentError)
    ensures mode.Some? ==> NativeCalls(o.trace) == [GlfsFchmod(fd, ToUint32(mode.value))]
    ensures mode.Some? && mode.value >= 0 ==> NativeCalls(o.trace)[0].mode == mode.value
    ensures o.result.Ok? <==> mode.Some? && status == 0
    ensures mode.Some? && status != 0 ==> o.result == Err(GlfsError("glfs_fchmod()"))
  {
    if mode.None? then Failed(ArgumentError)
    else Checked(GlfsFchmod(fd, ToUint32(mode.value)), status)
  }

  datatype OwnerArgs = OwnerArgs(uid: Int32, gid: Int32)

  /** `fchown(uid, gid)`: both are converted to the unsigned `uid_t`/`gid_t`, so -1 becomes
      the all-ones value with which `fchown` leaves an id unchanged. */
  function Fchown(fd: FdRef, ids: Option<OwnerArgs>, status: int): (o: Outcome<()>)
    ensures ids.Some? ==> NativeCalls(o.trace) == [GlfsFchown(fd, ToUint32(ids.value.uid), ToUint32(ids.value.gid))]
    ensures ids.Some? && ids.value.uid == -1 ==> NativeCalls(o.trace)[0].uid == 0xFFFF_FFFF
    ensures ids.Some? && ids.value.gid == -1 ==> NativeCalls(o.trace)[0].gid == 0xFFFF_FFFF
    ensures ids.None? ==> o == Failed(ArgumentError)
    ensures o.result.Ok? <==> ids.Some? && status == 0
    ensures ids.Some? && status != 0 ==> o.result == Err(GlfsError("glfs_fchown()"))
  {
    if ids.None? then Failed(ArgumentError)
    else Checked(GlfsFchown(fd, ToUint32(ids.value.uid), ToUint32(ids.value.gid)), status)
  }

  /** `ftruncate(length)`: the length is passed on unchanged. */
  function Ftruncate(fd: FdRef, length: Option<Int64>, status: int): (o: Outcome<()>)
    ensures length.None? ==> o == Failed(ArgumentError)
    ensures length.Some? ==> NativeCalls(o.trace) == [GlfsFtruncate(fd, length.value)]
    ensures o.result.Ok? <==> length.Some? && status == 0
    ensures length.Some? && status != 0 ==> o.result == Err(GlfsError("glfs_ftruncate()"))
  {
    if length.None? then Failed(ArgumentError)
    else Checked(GlfsFtruncate(fd, length.value), status)
  }

  /** Arguments of `lseek(pos[, how])`; `how` defaults to 0, which is SEEK_SET. */
  datatype SeekArgs = SeekArgs(pos: Int64, how: Option<Int32>)

  /** `lseek`: the `off_t` that `glfs_lseek` returns is stored in an `int` and any non-zero
      value is taken for an error, so every seek that lands on a non-zero offset below 2^31
      is reported as failed, while one landing on a multiple of 2^32 is reported as success. */
  function Lseek(fd: FdRef, args: Option<SeekArgs>, ret: Int64): (o: Outcome<()>)
    ensures args.Some? ==> NativeCalls(o.trace) == [GlfsLseek(fd, args.value.pos, args.value.how.GetOr(SEEK_SET))]
    ensures o.result.Ok? <==> args.Some? && ret % TWO_32 == 0
    ensures args.Some? && 0 < ret < 0x8000_0000 ==> o.result == Err(GlfsError("glfs_lseek()"))
    ensures args.None? ==> o == Failed(ArgumentError)
    ensures args.Some? && o.result.Err? ==> o.result.error == GlfsError("glfs_lseek()")
  {
    if args.None? then Failed(ArgumentError)
    else Checked(GlfsLseek(fd, args.value.pos, args.value.how.GetOr(0)), ToInt32(ret))
  }

  /** Arguments of `pread(offset, cnt)`. */
  datatype ReadArgs = ReadArgs(offset: Int64, count: Int64)

  /** What happens outside the binding during `pread`: whether the bytes object can be
      allocated, what `glfs_pread` returns and the bytes it stores, and whether shrinking
      the object succeeds. */
  datatype PreadNative = PreadNative(allocOk: bool, n: Int64, data: seq<bv8>, resizeOk: bool)

  /** libgfapi's side of `pread`: it never reports more bytes than were asked for, and
      on success it stores exactly the bytes it reports. */
  predicate HonoursCount(args: Option<ReadArgs>, native: PreadNative)
  {
    args.Some? && args.value.count >= 0 && native.n >= 0 ==>
      native.n <= args.value.count && |native.data| == native.n
  }

  /** `pread`: a negative count is refused with EINVAL before anything is allocated; a
      buffer of `cnt` bytes is allocated and filled by `glfs_pread`; on a native error it is
      freed; otherwise it is shrunk to the `n` bytes read. */
  function Pread(fd: FdRef, args: Option<ReadArgs>, native: PreadNative): (o: Outcome<seq<bv8>>)
    requires HonoursCount(args, native)
    ensures args.Some? && args.value.count < 0 ==> o == Failed(ErrnoError(EINVAL, "glfs_pread()"))
    ensures NativeCalls(o.trace) ==
      if args.Some? && args.value.count >= 0 && native.allocOk
      then [GlfsPread(fd, args.value.count, args.value.offset)] else []
    ensures o.result.Ok? <==>
      args.Some? && args.value.count >= 0 && native.allocOk && native.n >= 0 &&
      (native.n == args.value.count || native.resizeOk)
    ensures o.result.Ok? ==> o.result.value == native.data && |o.result.value| == native.n <= args.value.count
    ensures args.Some? && args.value.count >= 0 && native.allocOk && native.n < 0 ==>
      o.result == Err(GlfsError("glfs_pread()"))
    ensures BytesHeld(o.trace) == if o.result.Ok? then 1 else 0
    ensures ViewsHeld(o.trace) == 0
  {
    if args.None? then Failed(ArgumentError)
    else if args.value.count < 0 then Failed(ErrnoError(EINVAL, "glfs_pread()"))
    else if !native.allocOk then Failed(NoMemory)
    else
      var t := [BytesAlloc, Native(GlfsPread(fd, args.value.count, args.value.offset))];
      assert NativeCalls(t) == [t[1].call] by {
        assert t[1..][1..] == [];
      }
      if native.n < 0 then
        NativeCallsAppend(t, [BytesFree]);
        Outcome(Err(GlfsError("glfs_pread()")), t + [BytesFree])
      else if native.n != args.value.count && !native.resizeOk then
        NativeCallsAppend(t, [BytesFree]);
        Outcome(Err(NoMemory), t + [BytesFree])
      else
        Outcome(Ok(native.data), t)
  }

  /** A view of a Python object's memory. */
  datatype BufferView = BufferView(bytes: seq<bv8>, contiguous: bool)

  /** The object passed to `pwrite`: whether it supports the buffer protocol, and the view
      its exporter hands out (None when acquiring one fails). */
  datatype WriteSource = WriteSource(hasBuffer: bool, exported: Option<BufferView>)

  /** Arguments of `pwrite(buf, offset)`. */
  datatype WriteArgs = WriteArgs(source: WriteSource, offset: Int64)

  /** The three checks `pwrite` makes, in order, before it writes. */
  function WriteCheck(s: WriteSource): (e: Option<Error>)
    ensures e.None? <==> s.hasBuffer && s.exported.Some? && s.exported.value.contiguous
    ensures !s.hasBuffer ==> e == Some(NotABuffer)
    ensures s.hasBuffer && s.exported.None? ==> e == Some(BufferUnavailable)
    ensures s.hasBuffer && s.exported.Some? && !s.exported.value.contiguous ==> e == Some(NotContiguous)
  {
    if !s.hasBuffer then Some(NotABuffer)
    else if s.exported.None? then Some(BufferUnavailable)
    else if !s.exported.value.contiguous then Some(NotContiguous)
    else None
  }

  /** What happens outside the binding during `pwrite`: what `glfs_pwrite` returns, and
      whether the Python integer for the count can be allocated. */
  datatype WriteNative = WriteNative(written: Int64, longOk: bool)

  /** What `pwrite` returns once `glfs_pwrite` has been called: its error when it returned
      -1, MemoryError when the count cannot be turned into a Python integer, else the count. */
  function WriteResult(native: WriteNative): (r: Result<Int64>)
    ensures r.Ok? <==> native.written != -1 && native.longOk
    ensures r.Ok? ==> r.value == native.written
    ensures native.written == -1 ==> r == Err(GlfsError("glfs_pwrite()"))
    ensures native.written != -1 && !native.longOk ==> r == Err(NoMemory)
  {
    if native.written == -1 then Err(GlfsError("glfs_pwrite()"))
    else if !native.longOk then Err(NoMemory)
    else Ok(native.written)
  }

  /** `pwrite`: after the checks, the whole view is written and the native count returned
      as it is, unless it is -1 or the integer object for it cannot be allocated. A view
      once acquired is released on every path. */
  function Pwrite(fd: FdRef, args: Option<WriteArgs>, native: WriteNative): (o: Outcome<Int64>)
    ensures args.Some? && args.value.source.exported.None? ==> o == Failed(WriteCheck(args.value.source).value)
    ensures args.Some? && WriteCheck(args.value.source).Some? ==> o.result == Err(WriteCheck(args.value.source).value)
    ensures NativeCalls(o.trace) ==
      if args.Some? && WriteCheck(args.value.source).None?
      then [GlfsPwrite(fd, args.value.source.exported.value.bytes, args.value.offset)] else []
    ensures o.result.Ok? <==> NativeCalls(o.trace) != [] && native.written != -1 && native.longOk
    ensures o.result.Ok? ==> o.result.value == native.written
    ensures NativeCalls(o.trace) != [] && native.written == -1 ==> o.result == Err(GlfsError("glfs_pwrite()"))
    ensures NativeCalls(o.trace) != [] && native.written != -1 && !native.longOk ==> o.result == Err(NoMemory)
    ensures multiset(o.trace)[BufferAcquire] ==
      if args.Some? && args.value.source.hasBuffer && args.value.source.exported.Some? then 1 else 0
    ensures ViewsHeld(o.trace) == 0 && BytesHeld(o.trace) == 0
  {
    if args.None? then Failed(ArgumentError)
    else if !args.value.source.hasBuffer then Failed(NotABuffer)
    else if args.value.source.exported.None? then Failed(BufferUnavailable)
    else
      var view := args.value.source.exported.value;
      if !view.contiguous then
        var t := [BufferAcquire, BufferRelease];
        assert NativeCalls(t[1..]) == [];
        Outcome(Err(NotContiguous), t)
      else
        var call := GlfsPwrite(fd, view.bytes, args.value.offset);
        var t := [BufferAcquire, Native(call), BufferRelease];
        assert NativeCalls(t) == [call] by {
          assert t[1..][1..] == [BufferRelease];
          assert NativeCalls([BufferRelease]) == [] by {
            assert [BufferRelease][1..] == [];
          }
        }
        Outcome(WriteResult(native), t)
  }

  predicate IsLockCommand(cmd: int)
  {
    cmd in {F_GETLK, F_SETLK, F_SETLKW}
  }

  predicate IsLockType(lType: int)
  {
    lType in {F_RDLCK, F_WRLCK, F_UNLCK}
  }

  /** The three checks `posix_lock` makes, in order: the command, the lock type, and
      that a query (F_GETLK) does not ask about F_UNLCK. */
  function LockCheck(cmd: int, lType: int): (e: Option<Error>)
    ensures e.None? <==> IsLockCommand(cmd) && IsLockType(lType) && !(cmd == F_GETLK && lType == F_UNLCK)
    ensures !IsLockCommand(cmd) ==> e == Some(InvalidLockingCommand(cmd))
    ensures IsLockCommand(cmd) && !IsLockType(lType) ==> e == Some(InvalidLockType(lType))
    ensures IsLockCommand(cmd) && IsLockType(lType) && cmd == F_GETLK && lType == F_UNLCK ==>
      e == Some(UnlockForGetLock)
  {
    if cmd != F_GETLK && cmd != F_SETLK && cmd != F_SETLKW then Some(InvalidLockingCommand(cmd))
    else if lType != F_RDLCK && lType != F_WRLCK && lType != F_UNLCK then Some(InvalidLockType(lType))
    else if cmd == F_GETLK && lType == F_UNLCK then Some(UnlockForGetLock)
    else None
  }

  /** Arguments of `posix_lock(cmd, type[, whence, start, len, verbose])`. */
  datatype LockArgs = LockArgs(cmd: Int32, lType: Int16, whence: Option<Int16>,
                               start: Option<Int64>, len: Option<Int64>, verbose: Option<bool>)

  /** The lock record handed to `glfs_posix_lock`: the given fields over the defaults. */
  function InitialFlock(a: LockArgs): (fl: Flock)
    ensures fl.lType == a.lType
    ensures a.whence.None? ==> fl.whence == SEEK_SET
    ensures a.start.None? ==> fl.start == 0
    ensures a.len.None? ==> fl.len == 1
    ensures fl.pid == 0
    ensures a.whence.Some? ==> fl.whence == a.whence.value
    ensures a.start.Some? ==> fl.start == a.start.value
    ensures a.len.Some? ==> fl.len == a.len.value
  {
    Flock(a.lType, a.whence.GetOr(0), a.start.GetOr(0), a.len.GetOr(1), 0)
  }

  /** What `glfs_posix_lock` returns, the lock record as it leaves it, and whether the
      verbose reply can be allocated. */
  datatype LockNative = LockNative(status: int, after: Flock, replyOk: bool)

  /** The value `posix_lock` returns: None, or in verbose mode a dict of the command and
      the record's fields. */
  datatype LockReply =
    | NoReply
    | LockInfo(command: Int32, lType: Int16, whence: Int16, start: Int64, length: Int64, pid: Int32)

  function PosixLock(fd: FdRef, args: Option<LockArgs>, native: LockNative): (o: Outcome<LockReply>)
    ensures args.None? ==> o == Failed(ArgumentError)
    ensures args.Some? && LockCheck(args.value.cmd, args.value.lType).Some? ==>
      o == Failed(LockCheck(args.value.cmd, args.value.lType).value)
    ensures NativeCalls(o.trace) ==
      if args.Some? && LockCheck(args.value.cmd, args.value.lType).None?
      then [GlfsPosixLock(fd, args.value.cmd, InitialFlock(args.value))] else []
    ensures o.result.Ok? <==>
      args.Some? && LockCheck(args.value.cmd, args.value.lType).None? && native.status == 0 &&
      (args.value.verbose.GetOr(false) ==> native.replyOk)
    ensures NativeCalls(o.trace) != [] && native.status != 0 ==> o.result == Err(GlfsError("glfs_posix_lock()"))
    ensures NativeCalls(o.trace) != [] && native.status == 0 && args.value.verbose.GetOr(false) && !native.replyOk ==>
      o.result == Err(NoMemory)
    ensures o.result.Ok? && !args.value.verbose.GetOr(false) ==> o.result.value == NoReply
    ensures o.result.Ok? && args.value.verbose.GetOr(false) ==>
      var fl := native.after;
      o.result.value == LockInfo(args.value.cmd, fl.lType, fl.whence, fl.start, fl.len, fl.pid)
    ensures ViewsHeld(o.trace) == 0 && BytesHeld(o.trace) == 0
  {
    if args.None? then Failed(ArgumentError)
    else
      var a := args.value;
      var check := LockCheck(a.cmd, a.lType);
      if check.Some? then Failed(check.value)
      else
        var c := Checked(GlfsPosixLock(fd, a.cmd, InitialFlock(a)), native.status);
        if c.result.Err? then Outcome(Err(c.result.error), c.trace)
        else if !a.verbose.GetOr(false) then Outcome(Ok(NoReply), c.trace)
        else if !native.replyOk then Outcome(Err(NoMemory), c.trace)
        else
          var fl := native.after;
          Outcome(Ok(LockInfo(a.cmd, fl.lType, fl.whence, fl.start, fl.len, fl.pid)), c.trace)
  }
}
