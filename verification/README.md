# BlvckWinPipe accept layer in Dafny

This project models the connection-acceptance core of BlvckWinPipe, a Windows
named-pipe server library, and proves properties of that model. It covers four
pieces:

- **`WinHandle`**: the move-only owner of one raw Win32 `HANDLE`.
  - It is modelled as an immutable value.
  - Every operation also returns the raw values it passed to `CloseHandle`.
  - Over whole programs of constructions, moves, resets, raw assignments and
    destructions, the model proves single release and no leak.
- **Win32 error utilities**:
  - `IsRecoverableError`, the closed set of transient error codes.
  - `FormatErrorMessage`, which renders `"<code> - <message>"` and trims
    trailing CR/LF. The system message lookup is an input.
- **`PipeListener`**: the accept-loop state machine (`Stopped`, `Starting`,
  `Running`, `Stopping`).
  - It holds one pipe slot, an outstanding-operation counter and a recorded
    error code.
  - `PostAccept`, `TryPostAccept`, `HandleFatalError`, `HandleIoCompletion`,
    `Listen` and `Stop` are pure functions.
  - Each takes the outcomes of the OS calls it would make as inputs.
  - `RetryWithBackoff` is a pure function. It takes the operation as the
    result of each invocation, and it returns the result, the number of
    invocations and the delays slept.
  - Threads become interleavings. `Stop()` is split at its blocking wait into
    `StopBegin` and `StopFinish`, and completions can run between the two.
- **`PipeServer`**: the pipe address (`\\.\pipe\` followed by the name), the
  worker count (`max(hardware_concurrency, 2)`) and the initially empty
  completion port.

Files: `win32.dfy` (integer widths, handle sentinels, error codes),
`win_handle.dfy`, `handle_ownership.dfy`, `win_utils.dfy`, `retry.dfy`,
`pipe_listener.dfy`, `listener_lifecycle.dfy`, `pipe_server.dfy`.

## Assumptions the code leaves open

- `PipeListener.cpp` uses `_State`, `IsRunning()`, `_OnStop` and `_ErrorInfo`.
  None of them is declared in `PipeListener.h`, which declares `_IsRunning`
  instead.
  - The model takes `IsRunning()` to mean `_State == Running`.
  - It takes the initial state to be `Stopped` and the initial error code to
    be 0.
  - Every `_OnStop` call site is recorded as a `StopSignalled` signal. It
    marks where the callback fires if one is set.
- `size_t` is 64 bits wide. The counter's `fetch_add`/`fetch_sub`
  wrap-around is written out.
- The model assumes a completion is delivered only while an accept is in
  flight, that is, while the listener holds a pipe instance
  (`ListenerLifecycle.InFlight`). Each armed accept yields one completion.
  `ListenerLifecycle.AtMostOneOutstandingAccept` rests on this assumption. A completion with nothing counted would wrap the counter to
  2^64 - 1.
- `GetLastError()` is read when the fatal path runs, after the retry loop has
  given up or `PostAccept` has thrown. The model takes that value as the
  input `lastError`.

## Behaviour as written

The model follows `PipeListener.cpp` literally. Several results differ from
what the source's own comments and tests lead one to expect:

- **The `PostAccept` guard refuses exactly in `Running`**
  (`PipeListener.cpp:36-41`). The test is `state != Starting && IsRunning()`.
  It refuses only in `Running`, whether `IsRunning()` means `Running` or
  `Starting`/`Running`. It proceeds in `Stopping` and `Stopped`. The doc
  comment at lines 21 and 28 says the opposite: that the function needs the
  listener running to proceed and returns false once it has been stopped.
- **A completion while `Running` parks its worker thread for good.**
  - The handler calls `TryPostAccept` only while `Running`, so all five
    attempts are refused.
  - `HandleFatalError` then calls `Stop()`, which waits for the counter to
    reach zero. The handler itself still holds that count.
  - `ListenerLifecycle.CompletionWhileRunningParks` and
    `ListenerLifecycle.WedgedForever` prove that the listener stays
    `Stopping` with one operation counted, and that no later call changes
    that.
  - So the listener accepts one connection and never re-arms
    (`ListenerLifecycle.FirstConnectionWedgesListener`).
- **`Listen` stores `Running` unconditionally** (`PipeListener.cpp:246`). It
  does so even after the fatal path has stopped the listener and fired the
  stop signal. A `Running` listener can therefore have nothing counted. The
  tests at `tests/Server/Pipes/PipeListenerTests.cpp:20-28` expect one
  counted accept after `Listen()`. That holds exactly when one of the up to
  five attempts arms (`PipeListeners.Listen`,
  `PipeListeners.ListenArmsIffRetrySucceeds`). In general, at most one
  accept is counted.
- **Each delay is four times the previous one, capped.** The shift is
  `delayMs << 2`. It is
  truncated to 32 bits, so with a cap of 2^30 or more a delay can shrink
  (`Backoff.ShiftCanShrinkDelay`).
- **The stop signal can fire twice.** In the lifecycle test scenario, both
  the aborted completion and the waiting `Stop()` fire it
  (`ListenerLifecycle.StopSignalFiresTwiceInLifecycleTest`).

## Model

| member | source | states |
|---|---|---|
| `WinHandles.Valid` | include/BlvckWinPipe/Utils/WinHandle.h:41 | a handle is valid exactly when its raw value is neither `INVALID_HANDLE_VALUE` (-1) nor null (0) |
| `WinHandles.Empty` | include/BlvckWinPipe/Utils/WinHandle.h:10-13 | a default-constructed handle holds `INVALID_HANDLE_VALUE` and is not valid |
| `WinHandles.Reset` | include/BlvckWinPipe/Utils/WinHandle.h:43-49 | `Reset(h)` then holds `h`; it closes the old value, once, exactly when that value was valid, and never closes a sentinel |
| `WinHandles.Clear` | include/BlvckWinPipe/Utils/WinHandle.h:43-49 | `Reset()` with the default argument leaves the handle empty and invalid, and closes the old value only if it was valid |
| `WinHandles.Destroy` | include/BlvckWinPipe/Utils/WinHandle.h:15 | the destructor closes a valid value once and closes nothing for an invalid or null one |
| `WinHandles.AssignRaw` | include/BlvckWinPipe/Utils/WinHandle.h:35-39 | assigning a raw `HANDLE` makes the object hold it, and closes the old value once exactly when that value was valid |
| `WinHandles.MoveConstruct` | include/BlvckWinPipe/Utils/WinHandle.h:21 | move construction gives the new object the exact raw value, leaves the source empty and closes nothing |
| `WinHandles.MoveAssign` | include/BlvckWinPipe/Utils/WinHandle.h:22-31 | move assignment between distinct objects closes what the destination held (if valid), gives it the source's value, and empties the source |
| `HandleOwnership.MoveOverSemantics` | include/BlvckWinPipe/Utils/WinHandle.h:22-31 | self move-assignment changes nothing; between two live objects the destination gets the source's value, the source becomes invalid, and only the destination's old value is closed |
| `HandleOwnership.StepKeepsOwned` | include/BlvckWinPipe/Utils/WinHandle.h:13-49 | every construction, move, reset, raw assignment or destruction that adopts a fresh value keeps the ownership invariant: one owner per open value, no value closed twice, every adopted value still held or already closed |
| `HandleOwnership.NoDoubleClose` | include/BlvckWinPipe/Utils/WinHandle.h:17-49 | with fresh raw values at every construction and reset, no sequence of moves, resets, assignments and destructions closes the same value twice or closes a sentinel |
| `HandleOwnership.AllReleasedOnceAllDestroyed` | include/BlvckWinPipe/Utils/WinHandle.h:15-49 | once every object of such a program is destroyed, every value it adopted has been closed, and each exactly once |
| `WinUtils.IsRecoverableError` | include/BlvckWinPipe/Utils/WinUtils.h:83-101 | true exactly for codes 4, 8, 14, 170, 231 and 1450 |
| `WinUtils.OrdinaryCodesAreFatal` | include/BlvckWinPipe/Utils/WinUtils.h:98-99 | `ERROR_SUCCESS`, `ERROR_OPERATION_ABORTED`, `ERROR_IO_PENDING` and `ERROR_PIPE_CONNECTED` are not recoverable |
| `WinUtils.Decimal` | include/BlvckWinPipe/Utils/WinUtils.h:43 | the code is rendered as a non-empty numeral of digits with no leading zero |
| `WinUtils.DecimalRoundTrip` | include/BlvckWinPipe/Utils/WinUtils.h:43 | reading the rendered numeral back gives the original code |
| `WinUtils.TrimTrailingCrLf` | include/BlvckWinPipe/Utils/WinUtils.h:52-58 | the trimmed message is a prefix of the original, does not end in CR or LF, and only CR/LF characters were removed |
| `WinUtils.TrimIsIdempotent` | include/BlvckWinPipe/Utils/WinUtils.h:52-58 | trimming a trimmed message changes nothing |
| `WinUtils.TrimKeepsInteriorBreaks` | include/BlvckWinPipe/Utils/WinUtils.h:52-58 | a CR or LF followed later by another character survives trimming in place |
| `WinUtils.FormatErrorMessage` | include/BlvckWinPipe/Utils/WinUtils.h:28-61 | the result is the decimal code, `" - "`, then `"Unknown error"` when the lookup produced no characters, and otherwise the system text with its trailing CR/LF removed |
| `WinUtils.FormatErrorMessageNamesCode` | include/BlvckWinPipe/Utils/WinUtils.h:43-60 | the leading numeral of any formatted message parses back to the code that was formatted |
| `WinUtils.FormattedTextIsTrimmedPrefix` | include/BlvckWinPipe/Utils/WinUtils.h:49-60 | the message part of a formatted message is a prefix of the system text and does not end in CR or LF |
| `Backoff.ShiftLeft2` | src/Server/Pipes/PipeListener.cpp:220 | the 32-bit `<< 2` multiplies by four whenever the delay is below 2^30 |
| `Backoff.NextDelay` | src/Server/Pipes/PipeListener.cpp:220 | the next delay is the smaller of the cap and the shifted delay |
| `Backoff.RetryFrom` | src/Server/Pipes/PipeListener.cpp:214-221 | from any attempt on: succeeds exactly when a remaining invocation returns true, stops at the first true, sleeps once after each failure, and each delay follows the one before |
| `Backoff.RetryWithBackoff` | src/Server/Pipes/PipeListener.cpp:204-224 | true iff one of the first `maxAttempts` invocations returns true; no invocation after the first true; `maxAttempts` calls on failure; one sleep per failed call, starting at the initial delay, each next one `min(max, prev << 2)` and at most the cap |
| `Backoff.NoAttemptsNoCalls` | src/Server/Pipes/PipeListener.cpp:216 | with zero attempts the result is false, with no invocation and no sleep |
| `Backoff.SucceedsAfterFailures` | src/Server/Pipes/PipeListener.cpp:216-217 | failing exactly n < max times and then succeeding gives success after n + 1 invocations and n sleeps |
| `Backoff.NextDelayGrows` | src/Server/Pipes/PipeListener.cpp:220 | below a cap of 2^30 a delay within the cap never shrinks at the next step |
| `Backoff.DelaysNonDecreasing` | src/Server/Pipes/PipeListener.cpp:219-220 | with the initial delay within a cap below 2^30, the delays slept never decrease and never exceed the cap |
| `Backoff.ShiftCanShrinkDelay` | src/Server/Pipes/PipeListener.cpp:220 | with a cap of 2^32 - 1, the delay 2^30 is followed by 0, because the shift truncates |
| `Backoff.DefaultScheduleWhenAlwaysFailing` | include/BlvckWinPipe/Server/Pipes/PipeListener.h:40-45 | with the defaults (5 ms, 1000 ms, 5 attempts) an always-failing operation is invoked five times and sleeps 5, 20, 80, 320 and 1000 ms |
| `PipeListeners.NewListener` | src/Server/Pipes/PipeListener.cpp:164-168 | a new listener is stopped, not running, has nothing pending, holds no pipe and has no accept callback |
| `PipeListeners.IsRunning` | src/Server/Pipes/PipeListener.cpp:36-41 | `IsRunning()` is read as `_State == Running`: it implies an active state, and under that reading the guard's `_State != Starting` conjunct adds nothing |
| `PipeListeners.SetOnAccept` | include/BlvckWinPipe/Server/Pipes/PipeListener.h:67 | setting the accept callback changes nothing else |
| `PipeListeners.Inc` | src/Server/Pipes/PipeListener.cpp:98 | the counter increment adds one below the `size_t` limit |
| `PipeListeners.Dec` | src/Server/Pipes/PipeListener.cpp:116 | the counter decrement subtracts one from a positive count and is undone by the increment |
| `PipeListeners.Classify` | src/Server/Pipes/PipeListener.cpp:62-72 | a failing step returns false for a recoverable code and throws with that code otherwise, without changing the listener |
| `PipeListeners.PostAccept` | src/Server/Pipes/PipeListener.cpp:34-143 | refused with no change while Running; with a pipe held, true with no change; otherwise true iff the OS outcomes arm an accept, and then it holds exactly the new pipe with the count one higher; on failure the pipe slot is empty, the count unchanged, the new instance closed, and the first failing code gives false if recoverable and a throw otherwise |
| `PipeListeners.Disarm` | src/Server/Pipes/PipeListener.cpp:116-130 | undoing an armed accept takes the count back to its value before the increment and closes the stored pipe once, changing nothing else |
| `PipeListeners.PostAcceptOutcomeKind` | src/Server/Pipes/PipeListener.cpp:36-44 | whether `PostAccept` returns true or false depends only on the state and on whether a pipe is held |
| `PipeListeners.PostWithRetry` | src/Server/Pipes/PipeListener.cpp:145-156 | the retry loop changes only the pipe slot, the count and the close log; a held pipe is kept untouched; on failure the count is unchanged and no pipe is held; on success a pipe is held, the count one higher if the slot was empty; while Running all five attempts are refused and nothing changes; the close log only grows, by pipes the attempts created, and an armed pipe is one of them |
| `PipeListeners.RetryLoopAgrees` | src/Server/Pipes/PipeListener.cpp:145-156 | from any attempt on, when nothing throws, the listener's retry loop matches the generic combinator in result, calls and delays |
| `PipeListeners.ArmingMeansRetrySucceeds` | src/Server/Pipes/PipeListener.cpp:145-156 | from any attempt on, whatever the attempts throw, a loop that arms is one in which the generic combinator succeeds |
| `PipeListeners.TryPostAcceptIsRetryWithBackoff` | src/Server/Pipes/PipeListener.cpp:148 | when no attempt throws, the retry inside `TryPostAccept` is `RetryWithBackoff` with the defaults over the results of `PostAccept`: same result, same number of calls, same sleeps |
| `PipeListeners.ArmedLoopMeansRetrySucceeds` | src/Server/Pipes/PipeListener.cpp:148 | a retry inside `TryPostAccept` that arms is one in which `RetryWithBackoff` with the defaults succeeds |
| `PipeListeners.StopBegin` | src/Server/Pipes/PipeListener.cpp:249-264 | a no-op in Stopping or Stopped; otherwise the state becomes Stopping and the caller goes on to wait |
| `PipeListeners.StopFinish` | src/Server/Pipes/PipeListener.cpp:277-288 | once nothing is pending: the pipe is released, the state is Stopped and the stop signal fires |
| `PipeListeners.StopNow` | src/Server/Pipes/PipeListener.cpp:249-289 | an inline `Stop()` parks exactly when it has work to do and the count is non-zero; otherwise it finishes or returns at once |
| `PipeListeners.HandleFatalError` | src/Server/Pipes/PipeListener.cpp:158-162 | the error code is recorded, then `Stop()` runs. An active listener with something pending parks the caller in `Stopping`. An active listener with nothing pending ends `Stopped`, with the pipe closed and the stop signal fired. An inactive listener only records the code |
| `PipeListeners.TryPostAccept` | src/Server/Pipes/PipeListener.cpp:145-156 | while Running it is exactly the fatal path. An active listener ends armed exactly when the retry loop returned true, keeping its state, error code and signals, with the count one higher if the slot was empty. Otherwise it took the fatal path: `lastError` recorded, the listener no longer active, and if not parked `Stopped` with the stop signal fired. The close log only grows, by pipes the attempts created or the pipe held before, and a newly armed pipe is one an attempt created |
| `PipeListeners.TryPostAcceptArmsIffRetrySucceeds` | src/Server/Pipes/PipeListener.cpp:145-156 | an active listener leaves `TryPostAccept` armed only if `RetryWithBackoff` with the defaults succeeds over the results of `PostAccept`, and exactly then when no attempt throws |
| `PipeListeners.Listen` | src/Server/Pipes/PipeListener.cpp:226-247 | without an accept callback: the configuration error, with no state change. A no-op unless Stopped. From a fresh Stopped listener it always ends Running, either armed with one accept counted, exactly when the retry loop returned true, or after the fatal path with nothing counted, `lastError` recorded and the stop signal fired. The armed pipe is one an attempt created, the close log only grows by such pipes, and the key, pipe name and callback are unchanged |
| `PipeListeners.ListenArmsIffRetrySucceeds` | src/Server/Pipes/PipeListener.cpp:226-247 | a first `Listen()` leaves an accept armed only if `RetryWithBackoff` with the defaults succeeds over the results of `PostAccept` in `Starting`, and exactly then when no attempt throws |
| `PipeListeners.CompleteOp` | src/Server/Pipes/PipeListener.cpp:190-201 | the count drops by one; Stopping becomes Stopped, with the stop signal, exactly when the count goes from 1 to 0 |
| `PipeListeners.HandOff` | src/Server/Pipes/PipeListener.cpp:177-185 | on success or pipe-connected the held pipe moves to the accept callback and is not closed; on any other status it is released; the listener holds no pipe afterwards |
| `PipeListeners.HandleIoCompletion` | src/Server/Pipes/PipeListener.cpp:175-202 | while not Running: the pipe is handed off or released, the count drops by one, and the listener becomes Stopped exactly when it was Stopping with a count of 1 |
| `ListenerLifecycle.CompletionWhileRunningParks` | src/Server/Pipes/PipeListener.cpp:187-191 | a completion while Running with an operation counted parks in `Stop()`: the state is Stopping, the count is unchanged, no pipe is held and `lastError` is recorded |
| `ListenerLifecycle.ListenKeepsConsistent` | src/Server/Pipes/PipeListener.cpp:226-247 | on a consistent listener `Listen` never parks, keeps it consistent, and ends in Running when it starts it |
| `ListenerLifecycle.FatalErrorKeepsConsistent` | src/Server/Pipes/PipeListener.cpp:158-162 | the fatal path keeps a consistent listener consistent and leaves it inactive, so a later `Stop()` does nothing |
| `ListenerLifecycle.ApplyKeepsConsistent` | src/Server/Pipes/PipeListener.cpp:175-288 | every entry point, completion and stop wake-up keeps the invariant: at most one operation counted, a held pipe counted, Stopped means nothing held or counted |
| `ListenerLifecycle.AtMostOneOutstandingAccept` | include/BlvckWinPipe/Server/Pipes/PipeListener.h:26-29 | from construction, under any interleaving, the listener counts at most one accept, a held pipe is the counted one, and Stopped means no pipe and nothing counted |
| `ListenerLifecycle.IdentityIsStable` | include/BlvckWinPipe/Server/Pipes/PipeListener.h:53-57 | no call changes the completion key or the pipe name |
| `ListenerLifecycle.WedgedIsStuck` | src/Server/Pipes/PipeListener.cpp:267-272 | once a handler has parked, no call changes anything but the callback flag |
| `ListenerLifecycle.WedgedForever` | src/Server/Pipes/PipeListener.cpp:267-272 | a parked handler is never released: the listener stays Stopping with one operation counted and fires no further signal |
| `ListenerLifecycle.ListenIdempotent` | src/Server/Pipes/PipeListener.cpp:232-242 | a second `Listen` after one that returned is a no-op |
| `ListenerLifecycle.StopIdempotent` | src/Server/Pipes/PipeListener.cpp:251-258 | a second `Stop` after one that began is a no-op |
| `ListenerLifecycle.StopThenDrainStops` | src/Server/Pipes/PipeListener.cpp:260-288 | stopping an active listener with nothing pending ends Stopped with no pipe and nothing counted, having closed the held pipe |
| `ListenerLifecycle.CompletionFinalizesOnlyAtZero` | src/Server/Pipes/PipeListener.cpp:191-201 | a completion while Stopping finalizes to Stopped exactly when the count was 1, and a connected pipe still reaches the accept callback |
| `ListenerLifecycle.StopSignalFiresTwiceInLifecycleTest` | tests/Server/Pipes/PipeListenerTests.cpp:26-46 | Listen leaves one accept counted; Stop waits; an aborted completion drains and finalizes; Stop then finishes; the listener is Stopped with nothing counted, the pipe closed once, and the stop signal has fired twice |
| `ListenerLifecycle.ListenStoresRunningAfterFatalError` | src/Server/Pipes/PipeListener.cpp:244-246 | after a fatal first attempt the listener has recorded the error and fired the stop signal, and is still left Running |
| `ListenerLifecycle.FirstConnectionWedgesListener` | src/Server/Pipes/PipeListener.cpp:177-188 | the first client accepted while Running reaches the accept callback, and the listener then stays wedged under any later calls |
| `PipeServers.WorkerCount` | src/Server/PipeServer.cpp:11-13 | the worker count is at least 2, equals the hardware concurrency when that is 2 or more, and is 2 when it is 0 or 1 |
| `PipeServers.NewPipeServer` | src/Server/PipeServer.cpp:7-15 | construction sets the name, sets the pipe name to the prefix plus the name, sizes the pool, and starts with an invalid completion port |
| `PipeServers.Name` | include/BlvckWinPipe/Server/PipeServer.h:34 | for a well-named server, the stored address is the prefix followed by the name returned |
| `PipeServers.PipeName` | include/BlvckWinPipe/Server/PipeServer.h:40 | the address returned is the prefix followed by the name |
| `PipeServers.SetName` | include/BlvckWinPipe/Server/PipeServer.h:35-38 | the setter stores the name and rederives the pipe name, and changes nothing else |
| `PipeServers.DestroyServer` | src/Server/PipeServer.cpp:17-19 | destroying the server closes the completion port exactly when it is valid |
| `PipeServers.PrefixIsNineCharacters` | include/BlvckWinPipe/Server/PipeServer.h:18 | the prefix is the nine characters `\\.\pipe\` |
| `PipeServers.PipeNameSplits` | include/BlvckWinPipe/Server/PipeServer.h:18-40 | the pipe name starts with the 9-character prefix, and what follows it is the name |
| `PipeServers.SetNameThenGet` | include/BlvckWinPipe/Server/PipeServer.h:34-40 | after `Name(n)`, `Name()` is n and `PipeName()` is the prefix followed by n |
| `PipeServers.SetNameLastWins` | include/BlvckWinPipe/Server/PipeServer.h:35-38 | setting the name twice keeps only the last value, and repeating a name changes nothing |
| `PipeServers.ConstructorAgreesWithSetter` | src/Server/PipeServer.cpp:7-9 | the constructor names the server exactly as the setter does |
| `PipeServers.NeverStartedServerClosesNothing` | src/Server/PipeServer.cpp:10-19 | destroying a never-started server closes nothing |

## Left out

- Win32 calls are not modelled: `CreateNamedPipeW`, `CreateIoCompletionPort`, `ConnectNamedPipe`, `PostQueuedCompletionStatus`, `CancelIoEx`, `CloseHandle`, `FormatMessageA`, `LocalFree` and `GetLastError`. They are foreign OS code. Their outcomes are inputs, and `CloseHandle` calls are recorded.
- Not modelled: `CancelIoEx` in `Stop()`. It only asks the OS to cancel. The aborted completion it leads to is an ordinary completion call, which the environment may deliver.
- Threads, atomics, memory orders, the mutex and condition variable, and `sleep_for` are not modelled. Entry points are atomic steps, and interleaving happens only between them. The blocking wait in `Stop()` is split into `StopBegin` and `StopFinish`. Sleeps are returned as a list of delays.
- Races inside one entry point are not modelled. One example is a completion arriving while `Listen` is still `Starting`, or during a backoff sleep.
- Not modelled: how `Stop()` continues after a thread parks inside the listener. The model keeps the listener as the parked thread left it. `WedgedForever` shows that in a consistent listener nothing can release it.
- The `Stop()` re-check at `PipeListener.cpp:279-282` is not modelled. `StopFinish` runs only once the count is zero, so that branch is never taken.
- Thrown `runtime_error` messages are not modelled. The exception is a `PostThrew` outcome with its code. `TryPostAccept` catches it and discards the message, so only the code matters.
- Calling an empty accept callback is not modelled. That would throw `std::bad_function_call` in `HandleIoCompletion`. The model assumes the callback that `Listen` checked is still set.
- `PipeListeners.TryPostAccept`: the delays slept are computed by the loop but not returned; `PipeListeners.RetryLoopAgrees` states them.
- `PipeServer::Start`, `Stop` and `WorkerThread` are declared but not defined, so they are not part of this model. The same goes for the completion-dispatch loop and the listener set they would manage.
- Not modelled: the `IPipeIoEntity` interface, the `Export.h` macros, the `EchoServer` example and the test access shim. They are not part of the core.
- No claim that the stop signal fires exactly once: it can fire twice. No claim that `PostAccept` proceeds while `Running`: it is refused.
- Wide strings are `seq<char>`. No character encoding is modelled.
