/** The `pyglfs.FD` object: its fields, its construction by `init_glfs_fd`, its methods and
    its deallocation. Every method states its result and the events it adds to the runtime's
    trace in terms of the functions of FdSpec. */
module FdObject {
  import opened CTypes
  import opened Glfs
  import opened Effects
  import opened FdSpec

  /** A line the binding writes to standard error. */
  datatype Diagnostic = CloseFailed(errno: int)

  /** What `glfs_close` returns, and errno after it. */
  datatype CloseOutcome = CloseOutcome(status: int, errno: int)

  /** The process around the binding: the events caused so far and what was written to
      standard error. */
  class Runtime {
    ghost var trace: seq<Event>
    var stderr: seq<Diagnostic>

    constructor ()
      ensures trace == [] && stderr == []
    {
      trace := [];
      stderr := [];
    }

    ghost method Record(e: Event)
      modifies this
      ensures trace == old(trace) + [e]
      ensures stderr == old(stderr)
    {
      trace := trace + [e];
    }
  }

  /** The parent of a handle: the glfs object handle (`py_glfs_obj_t`) the descriptor was
      opened from, seen through its reference count; `holders` are the handles that hold one
      of those references. */
  class ObjectHandle {
    var refcount: nat
    ghost var holders: set<Handle>

    ghost predicate Valid()
      reads this
    {
      |holders| <= refcount
    }
  }

  /** A bytes object as `pread` uses it: allocated with undefined contents, written by the
      native call, then shrunk in place. */
  class PyBytes {
    var contents: seq<bv8>

    /** `PyBytes_FromStringAndSize(NULL, size)`: nothing is promised about the bytes. */
    constructor (size: nat)
      ensures |contents| == size
    {
      contents := seq(size, _ => 0);
    }

    /** `glfs_pread` storing what it read at the start of the object. */
    method StoreAtStart(data: seq<bv8>)
      requires |data| <= |contents|
      modifies this
      ensures contents == data + old(contents)[|data|..]
    {
      contents := data + contents[|data|..];
    }

    /** `_PyBytes_Resize` to a smaller size. */
    method Shrink(n: nat)
      requires n <= |contents|
      modifies this
      ensures contents == old(contents)[..n]
    {
      contents := contents[..n];
    }
  }

  /** A `Py_buffer`: empty (`obj` NULL) until a view is acquired into it. */
  class PyBuffer {
    var acquired: bool
    var bytes: seq<bv8>
    var contiguous: bool

    constructor ()
      ensures !acquired
    {
      acquired := false;
      bytes := [];
      contiguous := false;
    }

    /** `PyObject_GetBuffer` succeeding with view `v`. */
    method Acquire(rt: Runtime, v: BufferView)
      modifies this, rt
      ensures acquired && bytes == v.bytes && contiguous == v.contiguous
      ensures rt.trace == old(rt.trace) + [BufferAcquire] && rt.stderr == old(rt.stderr)
    {
      acquired, bytes, contiguous := true, v.bytes, v.contiguous;
      rt.Record(BufferAcquire);
    }

    /** `PyBuffer_Release`. */
    method Release(rt: Runtime)
      requires acquired
      modifies this, rt
      ensures !acquired
      ensures rt.trace == old(rt.trace) + [BufferRelease] && rt.stderr == old(rt.stderr)
    {
      acquired := false;
      rt.Record(BufferRelease);
    }
  }

  /** A `pyglfs.FD` object. Each wrapper method is the matching function of FdSpec run
      against the runtime: same result, same events, for the descriptor the object held
      when the method was called. */
  class Handle {
    var fd: FdRef
    var flags: Int32
    var parent: ObjectHandle?

    /** A handle with a parent is one of the parent's holders, and the parent's count
        covers all of them. */
    ghost predicate Valid()
      reads this, parent
    {
      parent != null ==> this in parent.holders && parent.Valid()
    }

    /** A freshly allocated object: every field zero. */
    constructor ()
      ensures fd == Null && flags == 0 && parent == null && Valid()
    {
      fd := Null;
      flags := 0;
      parent := null;
    }

    method Fstat(rt: Runtime, status: int, st: Stat) returns (r: Result<Stat>)
      modifies rt
      ensures r == FdSpec.Fstat(old(fd), status, st).result
      ensures rt.trace == old(rt.trace) + FdSpec.Fstat(old(fd), status, st).trace
      ensures rt.stderr == old(rt.stderr)
    {
      rt.Record(Native(GlfsFstat(fd)));
      if status != 0 {
        return Err(GlfsError("glfs_fstat()"));
      }
      return Ok(st);
    }

    method Fsync(rt: Runtime, status: int) returns (r: Result<()>)
      modifies rt
      ensures r == FdSpec.Fsync(old(fd), status).result
      ensures rt.trace == old(rt.trace) + FdSpec.Fsync(old(fd), status).trace
      ensures rt.stderr == old(rt.stderr)
    {
      rt.Record(Native(GlfsFsync(fd)));
      if status != 0 {
        return Err(GlfsError("glfs_fsync()"));
      }
      return Ok(());
    }

    method Fchdir(rt: Runtime, status: int) returns (r: Result<()>)
      modifies rt
      ensures r == FdSpec.Fchdir(old(fd), status).result
      ensures rt.trace == old(rt.trace) + FdSpec.Fchdir(old(fd), status).trace
      ensures rt.stderr == old(rt.stderr)
    {
      rt.Record(Native(GlfsFchdir(fd)));
      if status != 0 {
        return Err(GlfsError("glfs_fchdir()"));
      }
      return Ok(());
    }

    method Fchmod(rt: Runtime, mode: Option<Int32>, status: int) returns (r: Result<()>)
      modifies rt
      ensures r == FdSpec.Fchmod(old(fd), mode, status).result
      ensures rt.trace == old(rt.trace) + FdSpec.Fchmod(old(fd), mode, status).trace
      ensures rt.stderr == old(rt.stderr)
    {
      if mode.None? {
        return Err(ArgumentError);
      }
      rt.Record(Native(GlfsFchmod(fd, ToUint32(mode.value))));
      if status != 0 {
        return Err(GlfsError("glfs_fchmod()"));
      }
      return Ok(());
    }

    method Fchown(rt: Runtime, ids: Option<OwnerArgs>, status: int) returns (r: Result<()>)
      modifies rt
      ensures r == FdSpec.Fchown(old(fd), ids, status).result
      ensures rt.trace == old(rt.trace) + FdSpec.Fchown(old(fd), ids, status).trace
      ensures rt.stderr == old(rt.stderr)
    {
      if ids.None? {
        return Err(ArgumentError);
      }
      rt.Record(Native(GlfsFchown(fd, ToUint32(ids.value.uid), ToUint32(ids.value.gid))));
      if status != 0 {
        return Err(GlfsError("glfs_fchown()"));
      }
      return Ok(());
    }

    method Ftruncate(rt: Runtime, length: Option<Int64>, status: int) returns (r: Result<()>)
      modifies rt
      ensures r == FdSpec.Ftruncate(old(fd), length, status).result
      ensures rt.trace == old(rt.trace) + FdSpec.Ftruncate(old(fd), length, status).trace
      ensures rt.stderr == old(rt.stderr)
    {
      if length.None? {
        return Err(ArgumentError);
      }
      rt.Record(Native(GlfsFtruncate(fd, length.value)));
      if status != 0 {
        return Err(GlfsError("glfs_ftruncate()"));
      }
      return Ok(());
    }

    method Lseek(rt: Runtime, args: Option<SeekArgs>, ret: Int64) returns (r: Result<()>)
      modifies rt
      ensures r == FdSpec.Lseek(old(fd), args, ret).result
      ensures rt.trace == old(rt.trace) + FdSpec.Lseek(old(fd), args, ret).trace
      ensures rt.stderr == old(rt.stderr)
    {
      if args.None? {
        return Err(ArgumentError);
      }
      rt.Record(Native(GlfsLseek(fd, args.value.pos, args.value.how.GetOr(0))));
      var err: Int32 := ToInt32(ret);
      if err != 0 {
        return Err(GlfsError("glfs_lseek()"));
      }
      return Ok(());
    }

    method Pread(rt: Runtime, args: Option<ReadArgs>, native: PreadNative) returns (r: Result<PyBytes>)
      requires HonoursCount(args, native)
      modifies rt
      ensures r.Err? == FdSpec.Pread(old(fd), args, native).result.Err?
      ensures r.Err? ==> r.error == FdSpec.Pread(old(fd), args, native).result.error
      ensures r.Ok? ==> fresh(r.value) && r.value.contents == FdSpec.Pread(old(fd), args, native).result.value
      ensures rt.trace == old(rt.trace) + FdSpec.Pread(old(fd), args, native).trace
      ensures rt.stderr == old(rt.stderr)
    {
      if args.None? {
        return Err(ArgumentError);
      }
      var offset, cnt := args.value.offset, args.value.count;
      if cnt < 0 {
        return Err(ErrnoError(EINVAL, "glfs_pread()"));
      }
      if !native.allocOk {
        return Err(NoMemory);
      }
      ghost var spec := FdSpec.Pread(fd, args, native);
      ghost var t := [BytesAlloc, Native(GlfsPread(fd, cnt, offset))];
      var buffer := new PyBytes(cnt);
      rt.Record(BytesAlloc);
      rt.Record(Native(GlfsPread(fd, cnt, offset)));
      assert rt.trace == old(rt.trace) + t;
      var n := native.n;
      if n < 0 {
        rt.Record(BytesFree);
        assert spec == Outcome(Err(GlfsError("glfs_pread()")), t + [BytesFree]);
        return Err(GlfsError("glfs_pread()"));
      }
      buffer.StoreAtStart(native.data);
      if n != cnt {
        if !native.resizeOk {
          rt.Record(BytesFree);
          assert spec == Outcome(Err(NoMemory), t + [BytesFree]);
          return Err(NoMemory);
        }
        buffer.Shrink(n);
      }
      assert spec == Outcome(Ok(native.data), t);
      return Ok(buffer);
    }

    method Pwrite(rt: Runtime, args: Option<WriteArgs>, native: WriteNative) returns (r: Result<Int64>)
      modifies rt
      ensures r == FdSpec.Pwrite(old(fd), args, native).result
      ensures rt.trace == old(rt.trace) + FdSpec.Pwrite(old(fd), args, native).trace
      ensures rt.stderr == old(rt.stderr)
    {
      if args.None? {
        return Err(ArgumentError);
      }
      var src, offset := args.value.source, args.value.offset;
      var buffer := new PyBuffer();
      if !src.hasBuffer {
        r := Err(NotABuffer);
      } else if src.exported.None? {
        r := Err(BufferUnavailable);
      } else {
        buffer.Acquire(rt, src.exported.value);
        if !buffer.contiguous {
          r := Err(NotContiguous);
        } else {
          rt.Record(Native(GlfsPwrite(fd, buffer.bytes, offset)));
          if native.written == -1 {
            r := Err(GlfsError("glfs_pwrite()"));
          } else if !native.longOk {
            r := Err(NoMemory);
          } else {
            r := Ok(native.written);
          }
        }
      }
      // cleanup:
      if buffer.acquired {
        buffer.Release(rt);
      }
    }

    method PosixLock(rt: Runtime, args: Option<LockArgs>, native: LockNative) returns (r: Result<LockReply>)
      modifies rt
      ensures r == FdSpec.PosixLock(old(fd), args, native).result
      ensures rt.trace == old(rt.trace) + FdSpec.PosixLock(old(fd), args, native).trace
      ensures rt.stderr == old(rt.stderr)
    {
      if args.None? {
        return Err(ArgumentError);
      }
      var cmd, verbose := args.value.cmd, args.value.verbose.GetOr(false);
      var fl := InitialFlock(args.value);
      ghost var check := LockCheck(cmd, fl.lType);
      if cmd != F_GETLK && cmd != F_SETLK && cmd != F_SETLKW {
        assert check == Some(InvalidLockingCommand(cmd));
        return Err(InvalidLockingCommand(cmd));
      }
      if fl.lType != F_RDLCK && fl.lType != F_WRLCK && fl.lType != F_UNLCK {
        assert check == Some(InvalidLockType(fl.lType));
        return Err(InvalidLockType(fl.lType));
      }
      if cmd == F_GETLK && fl.lType == F_UNLCK {
        assert check == Some(UnlockForGetLock);
        return Err(UnlockForGetLock);
      }
      assert check.None?;
      rt.Record(Native(GlfsPosixLock(fd, cmd, fl)));
      if native.status != 0 {
        return Err(GlfsError("glfs_posix_lock()"));
      }
      fl := native.after;
      if !verbose {
        return Ok(NoReply);
      }
      if !native.replyOk {
        return Err(NoMemory);
      }
      return Ok(LockInfo(cmd, fl.lType, fl.whence, fl.start, fl.len, fl.pid));
    }

    /** `py_glfs_fd_dealloc`: close the descriptor if there is one (a failure goes to
        standard error only), then drop the reference to the parent. */
    method Dealloc(rt: Runtime, close: CloseOutcome)
      requires Valid()
      modifies this, rt, parent
      ensures fd == Null && parent == null && flags == old(flags)
      ensures rt.trace == old(rt.trace) + if old(fd).Fd? then [Native(GlfsClose(old(fd)))] else []
      ensures rt.stderr == old(rt.stderr) +
        if old(fd).Fd? && close.status == -1 then [CloseFailed(close.errno)] else []
      ensures old(parent) != null ==>
        old(parent).refcount == old(parent.refcount) - 1 &&
        old(parent).holders == old(parent.holders) - {this} &&
        old(parent).Valid()
    {
      if fd != Null {
        rt.Record(Native(GlfsClose(fd)));
        if close.status == -1 {
          rt.stderr := rt.stderr + [CloseFailed(close.errno)];
        }
        fd := Null;
      }
      // Py_CLEAR: the field is cleared before the reference is dropped
      var p := parent;
      if p != null {
        parent := null;
        p.refcount := p.refcount - 1;
        p.holders := p.holders - {this};
      }
    }
  }

  /** `init_glfs_fd`: wrap a descriptor that was just opened. If the object cannot be
      allocated the descriptor is closed and the parent left alone; otherwise the object
      takes the descriptor and the flags and one new reference to the parent. */
  method InitGlfsFd(rt: Runtime, fdIn: FdRef, hdl: ObjectHandle, flags: Int32, allocOk: bool) returns (h: Handle?)
    requires hdl.Valid()
    modifies rt, hdl
    ensures h == null <==> !allocOk
    ensures h == null ==> unchanged(hdl) && rt.trace == old(rt.trace) + [Native(GlfsClose(fdIn))]
    ensures h != null ==>
      fresh(h) && h.fd == fdIn && h.flags == flags && h.parent == hdl && h.Valid() &&
      hdl.refcount == old(hdl.refcount) + 1 && hdl.holders == old(hdl.holders) + {h} &&
      rt.trace == old(rt.trace)
    ensures rt.stderr == old(rt.stderr)
  {
    if !allocOk {
      rt.Record(Native(GlfsClose(fdIn)));
      return null;
    }
    h := new Handle();
    h.fd := fdIn;
    h.flags := flags;
    h.parent := hdl;
    hdl.refcount := hdl.refcount + 1;
    hdl.holders := hdl.holders + {h};
  }

  /** Two handles with the same parent: deallocating one leaves the other valid, so the
      parent keeps at least the other's reference. */
  method DeallocSibling(rt: Runtime, h1: Handle, h2: Handle, close: CloseOutcome)
    requires h1 != h2 && h1.Valid() && h2.Valid()
    modifies h1, rt, h1.parent
    ensures h2.Valid()
    ensures h2.parent != null ==> h2.parent.refcount >= 1
  {
    h1.Dealloc(rt, close);
  }
}
