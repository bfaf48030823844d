/**
 `WinHandle`: exclusive owner of one raw Win32 handle. The object is a value
 here; every operation returns the new value(s) together with the list of raw
 values it passed to `CloseHandle`, in call order, so that release can be
 reasoned about without a mutable heap.
 */
module WinHandles {
  import opened Win32

  datatype WinHandle = WinHandle(raw: RawHandle)

  /** `Valid()`: exactly the two sentinels, `INVALID_HANDLE_VALUE` (-1) and null (0), are invalid. */
  predicate Valid(h: WinHandle): (r: bool)
    ensures r <==> h.raw !in {-1, 0}
  {
    IsOpenValue(h.raw)
  }

  /** The handle after an operation, and the values the operation closed. */
  datatype Released = Released(handle: WinHandle, closed: seq<RawHandle>)

  /** Both objects of a move, and the values the move closed. */
  datatype Moved = Moved(dest: WinHandle, source: WinHandle, closed: seq<RawHandle>)

  /** The default constructor: an empty owner. */
  function Empty(): (h: WinHandle)
    ensures h.raw == INVALID_HANDLE_VALUE && !Valid(h)
  {
    WinHandle(INVALID_HANDLE_VALUE)
  }

  /**
   `Reset(newHandle)`: close the held value if it is valid, then hold
   `newHandle`. A sentinel is never closed; nothing is closed twice in one call.
   */
  function Reset(h: WinHandle, newHandle: RawHandle): (r: Released)
    ensures r.handle.raw == newHandle
    ensures Valid(h) <==> r.closed == [h.raw]
    ensures !Valid(h) <==> r.closed == []
  {
    Released(WinHandle(newHandle), if Valid(h) then [h.raw] else [])
  }

  /** `Reset()` with the default argument: release and become empty. */
  function Clear(h: WinHandle): (r: Released)
    ensures !Valid(r.handle) && r.handle == Empty()
    ensures Valid(h) <==> r.closed == [h.raw]
    ensures !Valid(h) <==> r.closed == []
  {
    Reset(h, INVALID_HANDLE_VALUE)
  }

  /** The destructor calls `Reset()`: the values it closes. */
  function Destroy(h: WinHandle): (closed: seq<RawHandle>)
    ensures Valid(h) <==> closed == [h.raw]
    ensures !Valid(h) <==> closed == []
  {
    Clear(h).closed
  }

  /** `operator=(HANDLE)`: delegates to `Reset(handle)`, so it releases exactly as `Reset` does. */
  function AssignRaw(h: WinHandle, handle: RawHandle): (r: Released)
    ensures r.handle.raw == handle
    ensures Valid(h) <==> r.closed == [h.raw]
    ensures !Valid(h) <==> r.closed == []
  {
    Reset(h, handle)
  }

  /** The move constructor: the new object takes the exact value, the source becomes empty, nothing is closed. */
  function MoveConstruct(source: WinHandle): (m: Moved)
    ensures m.dest.raw == source.raw
    ensures m.source == Empty()
    ensures m.closed == []
  {
    Moved(source, Empty(), [])
  }

  /**
   Move assignment between two distinct objects: the destination first
   releases what it holds, then takes the source's value; the source becomes
   empty. (Self-assignment is the `this == &other` branch: no change; the
   ownership model below treats it by slot identity.)
   */
  function MoveAssign(dest: WinHandle, source: WinHandle): (m: Moved)
    ensures m.dest.raw == source.raw
    ensures m.source == Empty()
    ensures m.closed == Destroy(dest)
  {
    var released := Clear(dest);
    Moved(WinHandle(source.raw), Empty(), released.closed)
  }
}
