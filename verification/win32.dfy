/**
 The slice of the Win32 vocabulary the accept layer relies on: the integer
 widths it computes with, raw handle values, and the error codes it names.
 Every OS call itself is outside the model; its outcome is an input.
 */
module Win32 {

  /** `uint32_t` and `DWORD`: unsigned 32-bit. */
  type uint32 = x: int | 0 <= x < 0x1_0000_0000

  const UINT32_LIMIT: int := 0x1_0000_0000

  /** `size_t` on 64-bit Windows. */
  const SIZE_T_LIMIT: int := 0x1_0000_0000_0000_0000

  type size_t = x: int | 0 <= x < 0x1_0000_0000_0000_0000

  /** A raw `HANDLE` value, as an opaque integer. */
  type RawHandle = int

  /** `INVALID_HANDLE_VALUE`, which is `(HANDLE)-1`. */
  const INVALID_HANDLE_VALUE: RawHandle := -1

  /** `nullptr` as a `HANDLE`. */
  const NULL_HANDLE: RawHandle := 0

  /** A raw value that names an open kernel object: neither sentinel. */
  predicate IsOpenValue(raw: RawHandle) {
    raw != INVALID_HANDLE_VALUE && raw != NULL_HANDLE
  }

  // Win32 error codes used by the accept layer (winerror.h).
  const ERROR_SUCCESS: uint32 := 0
  const ERROR_TOO_MANY_OPEN_FILES: uint32 := 4
  const ERROR_NOT_ENOUGH_MEMORY: uint32 := 8
  const ERROR_OUTOFMEMORY: uint32 := 14
  const ERROR_BUSY: uint32 := 170
  const ERROR_PIPE_BUSY: uint32 := 231
  const ERROR_PIPE_CONNECTED: uint32 := 535
  const ERROR_OPERATION_ABORTED: uint32 := 995
  const ERROR_IO_PENDING: uint32 := 997
  const ERROR_NO_SYSTEM_RESOURCES: uint32 := 1450

  /** The outcome of a BOOL-returning Win32 call: TRUE, or FALSE with the code `GetLastError()` gives. */
  datatype CallResult = Succeeded | Failed(code: uint32)
}
