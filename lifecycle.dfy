/** The life of one handle: `init_glfs_fd`, any number of method calls, deallocation.
    Whatever the calls and whatever libgfapi answers, the descriptor is closed exactly once,
    every native call goes to that descriptor, and no buffer view is left held. */
module Lifecycle {
  import opened CTypes
  import opened Glfs
  import opened Effects
  import opened FdSpec
  import opened FdObject

  /** One call of a method of the handle, with its parsed arguments and what the outside
      world answers to it. */
  datatype Op =
    | FstatOp(status: int, st: Stat)
    | FsyncOp(status: int)
    | FchdirOp(status: int)
    | FchmodOp(mode: Option<Int32>, status: int)
    | FchownOp(ids: Option<OwnerArgs>, status: int)
    | FtruncateOp(length: Option<Int64>, status: int)
    | LseekOp(seek: Option<SeekArgs>, ret: Int64)
    | PreadOp(read: Option<ReadArgs>, readNative: PreadNative)
    | PwriteOp(write: Option<WriteArgs>, writeNative: WriteNative)
    | PosixLockOp(lock: Option<LockArgs>, lockNative: LockNative)

  predicate WellFormed(op: Op)
  {
    op.PreadOp? ==> HonoursCount(op.read, op.readNative)
  }

  predicate AllWellFormed(ops: seq<Op>)
  {
    forall i | 0 <= i < |ops| :: WellFormed(ops[i])
  }

  /** The argument parser refused the call. */
  predicate ParseFailed(op: Op)
  {
    match op
    case FchmodOp(mode, _) => mode.None?
    case FchownOp(ids, _) => ids.None?
    case FtruncateOp(length, _) => length.None?
    case LseekOp(seek, _) => seek.None?
    case PreadOp(read, _) => read.None?
    case PwriteOp(write, _) => write.None?
    case PosixLockOp(lock, _) => lock.None?
    case _ => false
  }

  /** What a call of a method returns with its value dropped: success or the error,
      and the events of the call. */
  function Erase<T>(o: Outcome<T>): Outcome<()>
  {
    Outcome(if o.result.Ok? then Ok(()) else Err(o.result.error), o.trace)
  }

  /** One call of a method of the handle whose descriptor is `fd`. */
  function Run(fd: FdRef, op: Op): Outcome<()>
    requires WellFormed(op)
  {
    match op
    case FstatOp(status, st) => Erase(FdSpec.Fstat(fd, status, st))
    case FsyncOp(status) => FdSpec.Fsync(fd, status)
    case FchdirOp(status) => FdSpec.Fchdir(fd, status)
    case FchmodOp(mode, status) => FdSpec.Fchmod(fd, mode, status)
    case FchownOp(ids, status) => FdSpec.Fchown(fd, ids, status)
    case FtruncateOp(length, status) => FdSpec.Ftruncate(fd, length, status)
    case LseekOp(seek, ret) => FdSpec.Lseek(fd, seek, ret)
    case PreadOp(read, native) => Erase(FdSpec.Pread(fd, read, native))
    case PwriteOp(write, native) => Erase(FdSpec.Pwrite(fd, write, native))
    case PosixLockOp(lock, native) => Erase(FdSpec.PosixLock(fd, lock, native))
  }

  /** Every method makes at most one native call, on the handle's own descriptor, and
      never `glfs_close`. */
  lemma OpCalls(fd: FdRef, op: Op)
    requires WellFormed(op)
    ensures |NativeCalls(Run(fd, op).trace)| <= 1
    ensures forall c | c in NativeCalls(Run(fd, op).trace) :: c.fd == fd && !c.GlfsClose?
  {
  }

  /** A call the argument parser refused does nothing at all and raises its error. */
  lemma OpRefused(fd: FdRef, op: Op)
    requires WellFormed(op) && ParseFailed(op)
    ensures Run(fd, op) == Outcome(Err(ArgumentError), [])
  {
  }

  /** Every view a method acquires it releases; only a successful `pread` leaves a bytes
      object allocated, the one it returns. */
  lemma OpBalance(fd: FdRef, op: Op)
    requires WellFormed(op)
    ensures ViewsHeld(Run(fd, op).trace) == 0
    ensures BytesHeld(Run(fd, op).trace) == if op.PreadOp? && Run(fd, op).result.Ok? then 1 else 0
  {
  }

  /** The events of a sequence of calls. */
  function OpsTrace(fd: FdRef, ops: seq<Op>): seq<Event>
    requires AllWellFormed(ops)
  {
    if ops == [] then [] else Run(fd, ops[0]).trace + OpsTrace(fd, ops[1..])
  }

  /** One step of OpsTrace, stated as a lemma so that PerformAll can use it without
      unfolding the definition (a solver hint, not a property of the binding). */
  lemma OpsTraceCons(fd: FdRef, ops: seq<Op>)
    requires ops != [] && AllWellFormed(ops)
    ensures AllWellFormed(ops[1..])
    ensures OpsTrace(fd, ops) == Run(fd, ops[0]).trace + OpsTrace(fd, ops[1..])
  {
  }

  /** Regrouping a concatenation; PerformAll calls it so that the solver need not prove
      the equation element by element (a solver hint, not a property of the binding). */
  lemma AppendAssoc<T>(a: seq<T>, b: seq<T>, c: seq<T>)
    ensures a + b + c == a + (b + c)
  {
  }

  /** How many calls of a sequence are `pread`s that returned bytes. */
  function ReadsReturned(fd: FdRef, ops: seq<Op>): nat
    requires AllWellFormed(ops)
  {
    if ops == [] then 0
    else (if ops[0].PreadOp? && Run(fd, ops[0]).result.Ok? then 1 else 0) + ReadsReturned(fd, ops[1..])
  }

  lemma {:induction false} OpsEffects(fd: FdRef, ops: seq<Op>)
    requires AllWellFormed(ops)
    ensures |NativeCalls(OpsTrace(fd, ops))| <= |ops|
    ensures forall c | c in NativeCalls(OpsTrace(fd, ops)) :: c.fd == fd && !c.GlfsClose?
    ensures ViewsHeld(OpsTrace(fd, ops)) == 0
    ensures BytesHeld(OpsTrace(fd, ops)) == ReadsReturned(fd, ops)
  {
    if ops != [] {
      OpCalls(fd, ops[0]);
      OpBalance(fd, ops[0]);
      OpsEffects(fd, ops[1..]);
      NativeCallsAppend(Run(fd, ops[0]).trace, OpsTrace(fd, ops[1..]));
    }
  }

  /** The events of a whole life with descriptor `id`: `calls` is None when the object
      could not be allocated, and otherwise the calls made on the handle before it was
      deallocated. */
  function Session(id: nat, calls: Option<seq<Op>>): seq<Event>
    requires calls.Some? ==> AllWellFormed(calls.value)
  {
    match calls
    case None => [Native(GlfsClose(Fd(id)))]
    case Some(ops) => OpsTrace(Fd(id), ops) + [Native(GlfsClose(Fd(id)))]
  }

  lemma {:induction false} SessionClosesOnce(id: nat, calls: Option<seq<Op>>)
    requires calls.Some? ==> AllWellFormed(calls.value)
    ensures Closes(Session(id, calls), Fd(id)) == 1
    ensures var natives := NativeCalls(Session(id, calls));
      |natives| > 0 && natives[|natives| - 1] == GlfsClose(Fd(id))
    ensures forall c | c in NativeCalls(Session(id, calls)) :: c.fd == Fd(id)
    ensures ViewsHeld(Session(id, calls)) == 0
    ensures calls.Some? ==> |NativeCalls(Session(id, calls))| <= |calls.value| + 1
  {
    var close := [Native(GlfsClose(Fd(id)))];
    assert NativeCalls(close) == [GlfsClose(Fd(id))] by {
      assert close[1..] == [];
    }
    if calls.Some? {
      OpsEffects(Fd(id), calls.value);
      NativeCallsAppend(OpsTrace(Fd(id), calls.value), close);
      assert GlfsClose(Fd(id)) !in NativeCalls(OpsTrace(Fd(id), calls.value));
    }
  }

  /** The method table: dispatch one call to the handle's method. What the method
      returns is stated by its own contract; here only its events matter. */
  method Perform(h: Handle, rt: Runtime, op: Op)
    requires WellFormed(op)
    modifies rt
    ensures rt.trace == old(rt.trace) + Run(h.fd, op).trace
    ensures rt.stderr == old(rt.stderr)
  {
    match op {
      case FstatOp(status, st) =>
        var _ := h.Fstat(rt, status, st);
      case FsyncOp(status) =>
        var _ := h.Fsync(rt, status);
      case FchdirOp(status) =>
        var _ := h.Fchdir(rt, status);
      case FchmodOp(mode, status) =>
        var _ := h.Fchmod(rt, mode, status);
      case FchownOp(ids, status) =>
        var _ := h.Fchown(rt, ids, status);
      case FtruncateOp(length, status) =>
        var _ := h.Ftruncate(rt, length, status);
      case LseekOp(seek, ret) =>
        var _ := h.Lseek(rt, seek, ret);
      case PreadOp(read, native) =>
        var _ := h.Pread(rt, read, native);
      case PwriteOp(write, native) =>
        var _ := h.Pwrite(rt, write, native);
      case PosixLockOp(lock, native) =>
        var _ := h.PosixLock(rt, lock, native);
    }
  }

  /** A caller making the calls `ops` on the handle, one after another. */
  method PerformAll(h: Handle, rt: Runtime, ops: seq<Op>)
    requires AllWellFormed(ops)
    modifies rt
    ensures rt.trace == old(rt.trace) + OpsTrace(h.fd, ops)
    ensures rt.stderr == old(rt.stderr)
    decreases |ops|
  {
    if ops != [] {
      ghost var before := rt.trace;
      Perform(h, rt, ops[0]);
      PerformAll(h, rt, ops[1..]);
      OpsTraceCons(h.fd, ops);
      AppendAssoc(before, Run(h.fd, ops[0]).trace, OpsTrace(h.fd, ops[1..]));
    }
  }

  /** A whole life of a handle object: wrap a descriptor just opened under `hdl`, make the
      calls `ops` if the object exists, deallocate it. The runtime sees exactly the events
      of Session, so SessionClosesOnce holds of it, and the parent's count is back where
      it started. */
  method Lifetime(rt: Runtime, id: nat, hdl: ObjectHandle, flags: Int32, allocOk: bool, ops: seq<Op>, close: CloseOutcome)
    requires hdl.Valid() && AllWellFormed(ops)
    modifies rt, hdl
    ensures rt.trace == old(rt.trace) + Session(id, if allocOk then Some(ops) else None)
    ensures hdl.refcount == old(hdl.refcount) && hdl.holders == old(hdl.holders)
  {
    var h := InitGlfsFd(rt, Fd(id), hdl, flags, allocOk);
    if h != null {
      PerformAll(h, rt, ops);
      h.Dealloc(rt, close);
    }
  }
}
