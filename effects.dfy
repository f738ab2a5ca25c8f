/** What a wrapper can do besides returning: raise a Python exception, call into libgfapi,
    allocate or free a bytes object, acquire or release a buffer view. The events of one
    call form its trace. */
module Effects {
  import opened Glfs

  datatype Option<+T> = None | Some(value: T)
  {
    function GetOr(default: T): T
    {
      match this
      case Some(v) => v
      case None => default
    }
  }

  /** The Python exceptions the wrappers raise. */
  datatype Error =
    | ArgumentError                        // raised by the argument parser
    | NoMemory                             // MemoryError from an allocation
    | GlfsError(call: string)              // from errno after a failed native call
    | ErrnoError(errno: int, call: string) // from an errno the binding sets itself
    | InvalidLockingCommand(cmd: int)      // ValueError
    | InvalidLockType(lockType: int)       // ValueError
    | UnlockForGetLock                     // ValueError
    | NotABuffer                           // TypeError
    | BufferUnavailable                    // raised by the buffer exporter
    | NotContiguous                        // TypeError

  datatype Result<+T> = Ok(value: T) | Err(error: Error)

  datatype Event =
    | Native(call: Call)   // one call into libgfapi
    | BytesAlloc           // a bytes object is allocated
    | BytesFree            // a bytes object the call allocated is freed
    | BufferAcquire        // a buffer view of an argument is acquired
    | BufferRelease        // that view is released

  /** What one wrapper call returns, and the events it caused, in order. */
  datatype Outcome<+T> = Outcome(result: Result<T>, trace: seq<Event>)

  /** The native calls of a trace, in order. */
  function NativeCalls(t: seq<Event>): (calls: seq<Call>)
    ensures |calls| <= |t|
  {
    if t == [] then []
    else if t[0].Native? then [t[0].call] + NativeCalls(t[1..])
    else NativeCalls(t[1..])
  }

  lemma {:induction false} NativeCallsAppend(a: seq<Event>, b: seq<Event>)
    ensures NativeCalls(a + b) == NativeCalls(a) + NativeCalls(b)
  {
    if a == [] {
      assert a + b == b;
    } else {
      assert (a + b)[1..] == a[1..] + b;
      NativeCallsAppend(a[1..], b);
    }
  }

  /** Buffer views acquired and not yet released. */
  function ViewsHeld(t: seq<Event>): int
  {
    multiset(t)[BufferAcquire] as int - multiset(t)[BufferRelease] as int
  }

  /** Bytes objects allocated and not freed: those handed to the caller. */
  function BytesHeld(t: seq<Event>): int
  {
    multiset(t)[BytesAlloc] as int - multiset(t)[BytesFree] as int
  }

  /** How many times a trace closes descriptor `fd`. */
  function Closes(t: seq<Event>, fd: FdRef): nat
  {
    multiset(NativeCalls(t))[GlfsClose(fd)]
  }
}
