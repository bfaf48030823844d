/**
 `PipeListener`: one accept slot on a named pipe. The listener is a value;
 each public entry point and each internal step is a function from the old
 value (plus the outcomes of the OS calls it makes) to the new one.

 The object's fields that the code uses are `_State`, `_PipeHandle`,
 `_PendingOps`, `_ErrorInfo.ErrorCode` and `_OnAccept`. `IsRunning()` is
 taken to mean `_State == Running`. Every `CloseHandle` the listener makes is
 appended to `closed`; every callback it fires is appended to `signals`.
 */
module PipeListeners {
  import opened Win32
  import opened WinUtils
  import opened WinHandles
  import opened Backoff

  datatype State = Stopped | Starting | Running | Stopping

  /** A callback invocation: `_OnAccept(handle)` or `_OnStop(this)` (fired only if set). */
  datatype Signal = Accepted(handle: WinHandle) | StopSignalled

  datatype Listener = Listener(
    key: nat,                 // the object's address, the completion key it registers under
    pipeName: string,         // _PipeName
    state: State,             // _State
    pipe: WinHandle,          // _PipeHandle
    pending: size_t,          // _PendingOps
    errorCode: uint32,        // _ErrorInfo.ErrorCode
    hasAcceptCallback: bool,  // whether _OnAccept is set
    closed: seq<RawHandle>,   // every value passed to CloseHandle, in order
    signals: seq<Signal>)     // every callback fired, in order

  /** The states in which `Stop()` has work to do. */
  predicate Active(s: State) {
    s == Starting || s == Running
  }

  /**
   `IsRunning()`, taken to mean `_State == Running`. Under that reading the
   first conjunct of the guard in `PostAccept` (`_State != Starting`) adds
   nothing: the guard holds exactly when `IsRunning()` does.
   */
  predicate IsRunning(l: Listener): (r: bool)
    ensures r ==> Active(l.state)
    ensures (l.state != Starting && r) == r
    ensures r <==> l.state == Running
  {
    l.state == Running
  }

  /** The constructor: stopped, no pipe instance, nothing pending, no callback. */
  function NewListener(key: nat, pipeName: string): (l: Listener)
    ensures l.state == Stopped && !IsRunning(l)
    ensures l.pending == 0 && !Valid(l.pipe)
    ensures l.key == key && l.pipeName == pipeName
    ensures !l.hasAcceptCallback && l.closed == [] && l.signals == []
  {
    Listener(key, pipeName, Stopped, Empty(), 0, ERROR_SUCCESS, false, [], [])
  }

  /** `SetOnAccept(cb)`, with `present` telling whether `cb` is a non-empty callable. */
  function SetOnAccept(l: Listener, present: bool): (r: Listener)
    ensures r.hasAcceptCallback == present
    ensures r.(hasAcceptCallback := l.hasAcceptCallback) == l
  {
    l.(hasAcceptCallback := present)
  }

  /** `_PendingOps.fetch_add(1)` on a 64-bit `size_t`. */
  function Inc(p: size_t): (r: size_t)
    ensures p < SIZE_T_LIMIT - 1 ==> r == p + 1
  {
    if p == SIZE_T_LIMIT - 1 then 0 else p + 1
  }

  /** `_PendingOps.fetch_sub(1)` on a 64-bit `size_t`. */
  function Dec(p: size_t): (r: size_t)
    ensures p > 0 ==> r == p - 1
    ensures Inc(r) == p
  {
    if p == 0 then SIZE_T_LIMIT - 1 else p - 1
  }

  // ---------------------------------------------------------------------------
  // PostAccept

  /** Outcomes of the OS calls one accept attempt makes, in call order. */
  datatype AcceptOs = AcceptOs(
    pipe: RawHandle,        // returned by CreateNamedPipeW
    createError: uint32,    // GetLastError() when that value is not a valid handle
    register: CallResult,   // CreateIoCompletionPort
    connect: CallResult,    // ConnectNamedPipe
    post: CallResult)       // PostQueuedCompletionStatus of the synthetic completion

  /** What `PostAccept` did: returned true, returned false, or threw `runtime_error`. */
  datatype Posted = PostOk(l: Listener) | NotPosted(l: Listener) | PostThrew(l: Listener, code: uint32)

  /** `ConnectNamedPipe` connected synchronously: TRUE, or FALSE with `ERROR_PIPE_CONNECTED`. */
  predicate ConnectedAtOnce(connect: CallResult) {
    connect.Succeeded? || connect.code == ERROR_PIPE_CONNECTED
  }

  /** The OS outcomes with which an attempt that creates a new instance leaves an accept outstanding. */
  predicate ArmsAccept(os: AcceptOs) {
    && IsOpenValue(os.pipe)
    && os.register.Succeeded?
    && ((ConnectedAtOnce(os.connect) && os.post.Succeeded?) || os.connect == Failed(ERROR_IO_PENDING))
  }

  /** The error code of the first failing OS call of an attempt that does not arm. */
  function FailureCode(os: AcceptOs): uint32 {
    if !IsOpenValue(os.pipe) then os.createError
    else if os.register.Failed? then os.register.code
    else if ConnectedAtOnce(os.connect) then (if os.post.Failed? then os.post.code else ERROR_SUCCESS)
    else os.connect.code
  }

  /** `b` is `a` after cleanup: the pipe slot is invalid in both, `extra` was closed, nothing else differs. */
  predicate CleanedUp(a: Listener, b: Listener, extra: seq<RawHandle>) {
    !Valid(a.pipe) && !Valid(b.pipe) && b == a.(pipe := b.pipe, closed := a.closed + extra)
  }

  /** Recoverable codes make `PostAccept` return false; every other code throws. */
  function Classify(l: Listener, code: uint32): (r: Posted)
    ensures r.l == l
    ensures r.NotPosted? <==> IsRecoverableError(code)
    ensures r.PostThrew? <==> !IsRecoverableError(code)
    ensures r.PostThrew? ==> r.code == code
  {
    if IsRecoverableError(code) then NotPosted(l) else PostThrew(l, code)
  }

  /**
   Undo an armed accept: `_PendingOps.fetch_sub(1)` then `_PipeHandle.Reset()`.
   The count is the one before the increment again, the stored pipe is closed
   once if valid, and nothing else changes.
   */
  function Disarm(l: Listener): (r: Listener)
    ensures Inc(r.pending) == l.pending
    ensures !Valid(r.pipe) && r.closed == l.closed + Destroy(l.pipe)
    ensures r.(pending := l.pending, pipe := l.pipe, closed := l.closed) == l
  {
    var cleared := Clear(l.pipe);
    l.(pending := Dec(l.pending), pipe := cleared.handle, closed := l.closed + cleared.closed)
  }

  /**
   `PostAccept()`. The guard refuses exactly while `Running`. A held pipe
   means an accept is already outstanding. Otherwise a fresh instance is
   created, registered, stored and counted, and a connect is issued; a
   synchronous connect is turned into a queued completion.
   */
  function PostAccept(l: Listener, os: AcceptOs): (r: Posted)
    ensures IsRunning(l) ==> r == NotPosted(l)
    ensures !IsRunning(l) && Valid(l.pipe) ==> r == PostOk(l)
    ensures !IsRunning(l) && !Valid(l.pipe) ==> (r.PostOk? <==> ArmsAccept(os))
    ensures !IsRunning(l) && !Valid(l.pipe) && r.PostOk? ==>
              r.l == l.(pipe := WinHandle(os.pipe), pending := Inc(l.pending)) && Valid(r.l.pipe)
    ensures !IsRunning(l) && !Valid(l.pipe) && !r.PostOk? ==>
              && CleanedUp(l, r.l, Destroy(WinHandle(os.pipe)))
              && (r.NotPosted? <==> IsRecoverableError(FailureCode(os)))
              && (r.PostThrew? ==> r.code == FailureCode(os))
  {
    if l.state != Starting && IsRunning(l) then
      NotPosted(l)
    else if Valid(l.pipe) then
      PostOk(l)
    else
      var created := WinHandle(os.pipe);
      if !Valid(created) then
        Classify(l, os.createError)
      else if os.register.Failed? then
        // the local WinHandle's destructor closes the new instance
        Classify(l.(closed := l.closed + Destroy(created)), os.register.code)
      else
        var moved := MoveAssign(l.pipe, created);
        var armed := l.(pipe := moved.dest, pending := Inc(l.pending),
                        closed := l.closed + moved.closed + Destroy(moved.source));
        var lastErr := if os.connect.Succeeded? then ERROR_SUCCESS else os.connect.code;
        if os.connect.Succeeded? || lastErr == ERROR_PIPE_CONNECTED then
          if os.post.Failed? then Classify(Disarm(armed), os.post.code) else PostOk(armed)
        else if lastErr != ERROR_IO_PENDING then
          Classify(Disarm(armed), lastErr)
        else
          PostOk(armed)
  }

  /** Whether `PostAccept` returns true depends only on the state and on whether a pipe is held. */
  lemma PostAcceptOutcomeKind(a: Listener, b: Listener, os: AcceptOs)
    requires a.state == b.state && Valid(a.pipe) == Valid(b.pipe)
    ensures PostAccept(a, os).PostOk? == PostAccept(b, os).PostOk?
    ensures PostAccept(a, os).NotPosted? == PostAccept(b, os).NotPosted?
  {
  }

  // ---------------------------------------------------------------------------
  // RetryWithBackoff around PostAccept, HandleFatalError, Stop

  /**
   `after` extends the close log `before`, and every value appended is a
   pipe that one of the attempts from `attempt` on created.
   */
  predicate ClosesOnlyCreated(before: seq<RawHandle>, after: seq<RawHandle>, os: nat -> AcceptOs, attempt: nat) {
    && before <= after
    && forall k :: |before| <= k < |after| ==> exists i :: attempt <= i < DEFAULT_MAX_ATTEMPTS && after[k] == os(i).pipe
  }

  /**
   `after` extends the close log of `l`, and every value appended is the pipe
   `l` held or a pipe that one of the attempts created.
   */
  predicate ClosesOnlyCreatedOrHeld(l: Listener, after: seq<RawHandle>, os: nat -> AcceptOs) {
    && l.closed <= after
    && forall k :: |l.closed| <= k < |after| ==>
         after[k] == l.pipe.raw || exists i :: 0 <= i < DEFAULT_MAX_ATTEMPTS && after[k] == os(i).pipe
  }

  /** `p` is the pipe that one of the attempts from `attempt` on created. */
  predicate CreatedBy(p: WinHandle, os: nat -> AcceptOs, attempt: nat) {
    exists i :: attempt <= i < DEFAULT_MAX_ATTEMPTS && p.raw == os(i).pipe
  }

  /** The retry loop of `TryPostAccept` with the header's defaults, from invocation `attempt` on. */
  datatype Attempted = Attempted(outcome: Posted, calls: nat, delays: seq<uint32>)

  function PostWithRetry(l: Listener, os: nat -> AcceptOs, attempt: nat, delay: uint32): (r: Attempted)
    requires attempt <= DEFAULT_MAX_ATTEMPTS
    ensures r.outcome.l.(pipe := l.pipe, pending := l.pending, closed := l.closed) == l
    ensures !r.outcome.PostOk? ==> r.outcome.l.pending == l.pending
    ensures !r.outcome.PostOk? && !IsRunning(l) && !Valid(l.pipe) ==> !Valid(r.outcome.l.pipe)
    ensures Valid(l.pipe) ==> r.outcome.l == l
    ensures r.outcome.PostOk? ==> Valid(r.outcome.l.pipe)
    ensures r.outcome.PostOk? && !Valid(l.pipe) ==> r.outcome.l.pending == Inc(l.pending)
    ensures 1 <= r.calls + attempt <= DEFAULT_MAX_ATTEMPTS || attempt == DEFAULT_MAX_ATTEMPTS
    ensures IsRunning(l) ==> r.outcome == NotPosted(l) && r.calls == DEFAULT_MAX_ATTEMPTS - attempt
    ensures ClosesOnlyCreated(l.closed, r.outcome.l.closed, os, attempt)
    ensures r.outcome.PostOk? && !Valid(l.pipe) ==> CreatedBy(r.outcome.l.pipe, os, attempt)
    decreases DEFAULT_MAX_ATTEMPTS - attempt
  {
    if attempt == DEFAULT_MAX_ATTEMPTS then
      Attempted(NotPosted(l), 0, [])
    else
      match PostAccept(l, os(attempt))
      case NotPosted(next) =>
        var rest := PostWithRetry(next, os, attempt + 1, NextDelay(delay, DEFAULT_MAX_DELAY_MS));
        Attempted(rest.outcome, rest.calls + 1, [delay] + rest.delays)
      case other =>
        Attempted(other, 1, [])
  }

  /** Whether invocation `i` of `PostAccept` returns true, starting from `l`. */
  function AttemptSucceeds(l: Listener, os: nat -> AcceptOs): nat -> bool {
    (i: nat) => PostAccept(l, os(i)).PostOk?
  }

  /** No invocation of `PostAccept` from `attempt` on throws, starting from `l`. */
  predicate NoAttemptThrows(l: Listener, os: nat -> AcceptOs, attempt: nat) {
    forall i :: attempt <= i < DEFAULT_MAX_ATTEMPTS ==> !PostAccept(l, os(i)).PostThrew?
  }

  /**
   From any attempt on, when nothing throws, the listener's retry loop agrees
   with the generic combinator over the results `PostAccept` returns: same
   result, same number of invocations, same sleeps.
   */
  lemma {:induction false} RetryLoopAgrees(l: Listener, cur: Listener, os: nat -> AcceptOs, attempt: nat, delay: uint32)
    requires attempt <= DEFAULT_MAX_ATTEMPTS
    requires cur.state == l.state && Valid(cur.pipe) == Valid(l.pipe)
    requires NoAttemptThrows(l, os, attempt)
    ensures var a := PostWithRetry(cur, os, attempt, delay);
            var r := RetryFrom(AttemptSucceeds(l, os), attempt, delay, DEFAULT_MAX_DELAY_MS, DEFAULT_MAX_ATTEMPTS);
            a.outcome.PostOk? == r.success && a.calls == r.calls && a.delays == r.delays
    decreases DEFAULT_MAX_ATTEMPTS - attempt
  {
    if attempt < DEFAULT_MAX_ATTEMPTS {
      var op := AttemptSucceeds(l, os);
      PostAcceptOutcomeKind(l, cur, os(attempt));
      var p := PostAccept(cur, os(attempt));
      assert op(attempt) == p.PostOk?;
      var next := NextDelay(delay, DEFAULT_MAX_DELAY_MS);
      if p.NotPosted? {
        assert p.l.state == cur.state && Valid(p.l.pipe) == Valid(cur.pipe);
        RetryLoopAgrees(l, p.l, os, attempt + 1, next);
        var rest := PostWithRetry(p.l, os, attempt + 1, next);
        assert PostWithRetry(cur, os, attempt, delay) == Attempted(rest.outcome, rest.calls + 1, [delay] + rest.delays);
      } else {
        assert p.PostOk?;
      }
    }
  }

  /**
   Whatever the attempts throw, a loop that arms is one in which the generic
   combinator succeeds: the arming invocation returns true in it too.
   */
  lemma {:induction false} ArmingMeansRetrySucceeds(l: Listener, cur: Listener, os: nat -> AcceptOs, attempt: nat, delay: uint32)
    requires attempt <= DEFAULT_MAX_ATTEMPTS
    requires cur.state == l.state && Valid(cur.pipe) == Valid(l.pipe)
    ensures PostWithRetry(cur, os, attempt, delay).outcome.PostOk? ==>
              RetryFrom(AttemptSucceeds(l, os), attempt, delay, DEFAULT_MAX_DELAY_MS, DEFAULT_MAX_ATTEMPTS).success
    decreases DEFAULT_MAX_ATTEMPTS - attempt
  {
    if attempt < DEFAULT_MAX_ATTEMPTS {
      var op := AttemptSucceeds(l, os);
      var p := PostAccept(cur, os(attempt));
      if p.NotPosted? {
        PostAcceptOutcomeKind(l, cur, os(attempt));
        assert !op(attempt);
        var next := NextDelay(delay, DEFAULT_MAX_DELAY_MS);
        assert p.l.state == cur.state && Valid(p.l.pipe) == Valid(cur.pipe);
        ArmingMeansRetrySucceeds(l, p.l, os, attempt + 1, next);
        assert PostWithRetry(cur, os, attempt, delay).outcome == PostWithRetry(p.l, os, attempt + 1, next).outcome;
        assert RetryFrom(op, attempt, delay, DEFAULT_MAX_DELAY_MS, DEFAULT_MAX_ATTEMPTS).success
            == RetryFrom(op, attempt + 1, next, DEFAULT_MAX_DELAY_MS, DEFAULT_MAX_ATTEMPTS).success;
      } else if p.PostOk? {
        PostAcceptOutcomeKind(l, cur, os(attempt));
        assert op(attempt);
      } else {
        assert PostWithRetry(cur, os, attempt, delay).outcome == p;
      }
    }
  }

  /**
   When no attempt throws, the loop inside `TryPostAccept` is exactly
   `RetryWithBackoff` with the defaults (5 ms, 1000 ms, 5 attempts) applied to
   the results `PostAccept` returns: same result, same number of
   invocations, same sleeps.
   */
  lemma TryPostAcceptIsRetryWithBackoff(l: Listener, os: nat -> AcceptOs)
    requires NoAttemptThrows(l, os, 0)
    ensures var a := PostWithRetry(l, os, 0, DEFAULT_INITIAL_DELAY_MS);
            var r := RetryWithBackoff(AttemptSucceeds(l, os), DEFAULT_INITIAL_DELAY_MS, DEFAULT_MAX_DELAY_MS, DEFAULT_MAX_ATTEMPTS);
            a.outcome.PostOk? == r.success && a.calls == r.calls && a.delays == r.delays
  {
    RetryLoopAgrees(l, l, os, 0, DEFAULT_INITIAL_DELAY_MS);
  }

  /** Whatever the attempts throw, a `TryPostAccept` loop that arms is one in which `RetryWithBackoff` succeeds. */
  lemma ArmedLoopMeansRetrySucceeds(l: Listener, os: nat -> AcceptOs)
    ensures PostWithRetry(l, os, 0, DEFAULT_INITIAL_DELAY_MS).outcome.PostOk? ==>
              RetryWithBackoff(AttemptSucceeds(l, os), DEFAULT_INITIAL_DELAY_MS, DEFAULT_MAX_DELAY_MS, DEFAULT_MAX_ATTEMPTS).success
  {
    ArmingMeansRetrySucceeds(l, l, os, 0, DEFAULT_INITIAL_DELAY_MS);
  }

  /** A `Stop()` call that reached its wait: `waits`; one that returned at once: `!waits`. */
  datatype StopBegun = StopBegun(l: Listener, waits: bool)

  /**
   The first half of `Stop()`: a no-op in `Stopping` or `Stopped`; otherwise
   mark `Stopping` (and ask the OS to cancel the outstanding connect; the
   cancellation arrives later as an aborted completion).
   */
  function StopBegin(l: Listener): (r: StopBegun)
    ensures r.waits <==> Active(l.state)
    ensures !r.waits ==> r.l == l
    ensures r.waits ==> r.l == l.(state := Stopping)
  {
    if l.state == Stopping || l.state == Stopped then StopBegun(l, false)
    else StopBegun(l.(state := Stopping), true)
  }

  /**
   The second half of `Stop()`, run once the outstanding count has drained:
   release the pipe, become `Stopped`, fire the stop signal.
   */
  function StopFinish(l: Listener): (r: Listener)
    requires l.pending == 0
    ensures r.state == Stopped && r.pending == 0 && !Valid(r.pipe)
    ensures r.closed == l.closed + Destroy(l.pipe)
    ensures r.signals == l.signals + [StopSignalled]
    ensures r.(state := l.state, pipe := l.pipe, closed := l.closed, signals := l.signals) == l
  {
    var cleared := Clear(l.pipe);
    l.(pipe := cleared.handle, closed := l.closed + cleared.closed, state := Stopped,
       signals := l.signals + [StopSignalled])
  }

  /** What an entry point did: returned with the listener as given, or parked its thread in `Stop()`'s wait. */
  datatype Step = Done(l: Listener) | Blocked(l: Listener)

  /**
   `Stop()` called from inside the listener, on a thread that cannot
   interleave: it returns at once, finishes because nothing is pending, or
   parks in the wait with the count still positive.
   */
  function StopNow(l: Listener): (r: Step)
    ensures r.Blocked? <==> Active(l.state) && l.pending != 0
    ensures r.Blocked? ==> r.l == l.(state := Stopping)
    ensures r.Done? && Active(l.state) ==> r.l == StopFinish(l.(state := Stopping))
    ensures r.Done? && !Active(l.state) ==> r.l == l
  {
    var begun := StopBegin(l);
    if !begun.waits then Done(begun.l)
    else if begun.l.pending == 0 then Done(StopFinish(begun.l))
    else Blocked(begun.l)
  }

  /**
   `HandleFatalError(code)`: record the code, then `Stop()`. An active
   listener becomes `Stopping`, and `Stopped` at once (pipe released, stop
   signal fired) when nothing is pending; otherwise the caller parks in the
   wait. An inactive listener only records the code.
   */
  function HandleFatalError(l: Listener, code: uint32): (r: Step)
    ensures r.l.errorCode == code
    ensures r.Blocked? <==> Active(l.state) && l.pending != 0
    ensures r.Blocked? ==> r.l == l.(errorCode := code, state := Stopping)
    ensures r.Done? && Active(l.state) ==>
              && r.l.state == Stopped && r.l.pending == 0 && !Valid(r.l.pipe)
              && r.l.closed == l.closed + Destroy(l.pipe)
              && r.l.signals == l.signals + [StopSignalled]
              && r.l == l.(errorCode := code, state := Stopped, pipe := r.l.pipe, closed := r.l.closed, signals := r.l.signals)
    ensures r.Done? && !Active(l.state) ==> r.l == l.(errorCode := code)
  {
    StopNow(l.(errorCode := code))
  }

  /** An entry point left an accept armed: it returned, in the state it was called in, holding a pipe. */
  predicate ArmedAfter(before: Listener, r: Step) {
    r.Done? && r.l.state == before.state && Valid(r.l.pipe)
  }

  /**
   `TryPostAccept()`: the retry loop around `PostAccept`; when it gives up or
   `PostAccept` throws, the fatal path runs with `lastError`, the value
   `GetLastError()` returns at that point.
   */
  function TryPostAccept(l: Listener, os: nat -> AcceptOs, lastError: uint32): (r: Step)
    ensures r.l.key == l.key && r.l.pipeName == l.pipeName && r.l.hasAcceptCallback == l.hasAcceptCallback
    ensures r.Blocked? ==> Active(l.state) && l.pending != 0
    ensures IsRunning(l) ==> r == HandleFatalError(l, lastError)
    ensures Active(l.state) ==> (ArmedAfter(l, r) <==> PostWithRetry(l, os, 0, DEFAULT_INITIAL_DELAY_MS).outcome.PostOk?)
    ensures ClosesOnlyCreatedOrHeld(l, r.l.closed, os)
    ensures Active(l.state) && ArmedAfter(l, r) ==> r.l.pipe == l.pipe || CreatedBy(r.l.pipe, os, 0)
    ensures Active(l.state) && ArmedAfter(l, r) ==>
              && r.l.pending == (if Valid(l.pipe) then l.pending else Inc(l.pending))
              && r.l.errorCode == l.errorCode && r.l.signals == l.signals
    ensures Active(l.state) && !ArmedAfter(l, r) ==>
              && r.l.errorCode == lastError && !Active(r.l.state)
              && (r.Done? ==> r.l.state == Stopped && r.l.pending == 0 && !Valid(r.l.pipe)
                              && r.l.signals == l.signals + [StopSignalled])
  {
    var tried := PostWithRetry(l, os, 0, DEFAULT_INITIAL_DELAY_MS);
    if tried.outcome.PostOk? then
      Done(tried.outcome.l)
    else
      // returned false, or threw: the fatal path
      var next := tried.outcome.l;
      FatalPathClosesOnlyCreated(l, next, os, lastError);
      HandleFatalError(next, lastError)
  }

  /**
   After a retry loop that closed only pipes it created, the fatal path
   closes at most the pipe the listener held before the loop.
   */
  lemma FatalPathClosesOnlyCreated(l: Listener, next: Listener, os: nat -> AcceptOs, code: uint32)
    requires ClosesOnlyCreated(l.closed, next.closed, os, 0)
    requires !Valid(next.pipe) || next.pipe == l.pipe
    ensures ClosesOnlyCreatedOrHeld(l, HandleFatalError(next, code).l.closed, os)
  {
    var r := HandleFatalError(next, code).l;
    assert r.closed == next.closed || r.closed == next.closed + Destroy(next.pipe);
    forall k | |l.closed| <= k < |r.closed|
      ensures r.closed[k] == l.pipe.raw || exists i :: 0 <= i < DEFAULT_MAX_ATTEMPTS && r.closed[k] == os(i).pipe
    {
      if k >= |next.closed| {
        assert Valid(next.pipe) && r.closed[k] == next.pipe.raw;
      } else {
        assert r.closed[k] == next.closed[k];
      }
    }
  }

  /**
   An active listener leaves `TryPostAccept` armed only if `RetryWithBackoff`
   with the defaults succeeds over the results `PostAccept` returns, and,
   when no attempt throws, exactly then; otherwise it has taken the fatal path.
   */
  lemma TryPostAcceptArmsIffRetrySucceeds(l: Listener, os: nat -> AcceptOs, lastError: uint32)
    requires Active(l.state)
    ensures var r := TryPostAccept(l, os, lastError);
            var retried := RetryWithBackoff(AttemptSucceeds(l, os), DEFAULT_INITIAL_DELAY_MS, DEFAULT_MAX_DELAY_MS, DEFAULT_MAX_ATTEMPTS);
            && (ArmedAfter(l, r) ==> retried.success)
            && (NoAttemptThrows(l, os, 0) ==> (ArmedAfter(l, r) <==> retried.success))
  {
    ArmedLoopMeansRetrySucceeds(l, os);
    if NoAttemptThrows(l, os, 0) {
      TryPostAcceptIsRetryWithBackoff(l, os);
    }
  }

  // ---------------------------------------------------------------------------
  // Entry points

  /** The outcome of `Listen()`: the configuration error it throws, or what it did. */
  datatype ListenResult = MissingAcceptCallback | Listened(step: Step)

  /**
   `Listen()`: refuses without an accept callback; a no-op unless `Stopped`;
   otherwise `Starting`, one `TryPostAccept`, then `Running` whatever that
   attempt did.
   */
  function Listen(l: Listener, os: nat -> AcceptOs, lastError: uint32): (r: ListenResult)
    ensures r.MissingAcceptCallback? <==> !l.hasAcceptCallback
    ensures l.hasAcceptCallback && l.state != Stopped ==> r == Listened(Done(l))
    ensures l.hasAcceptCallback && l.state == Stopped && l.pending == 0 ==>
              r.Listened? && r.step.Done? && r.step.l.state == Running
    ensures r.Listened? ==>
              && r.step.l.key == l.key && r.step.l.pipeName == l.pipeName
              && r.step.l.hasAcceptCallback == l.hasAcceptCallback
              && ClosesOnlyCreatedOrHeld(l, r.step.l.closed, os)
    ensures l.hasAcceptCallback && l.state == Stopped && l.pending == 0 && !Valid(l.pipe) ==>
              && r.Listened?
              && (Valid(r.step.l.pipe) ==> CreatedBy(r.step.l.pipe, os, 0))
              && (Valid(r.step.l.pipe) <==> PostWithRetry(l.(state := Starting), os, 0, DEFAULT_INITIAL_DELAY_MS).outcome.PostOk?)
              && (Valid(r.step.l.pipe) ==>
                    r.step.l.pending == 1 && r.step.l.errorCode == l.errorCode && r.step.l.signals == l.signals)
              && (!Valid(r.step.l.pipe) ==>
                    r.step.l.pending == 0 && r.step.l.errorCode == lastError && r.step.l.signals == l.signals + [StopSignalled])
  {
    if !l.hasAcceptCallback then
      MissingAcceptCallback
    else if l.state != Stopped then
      Listened(Done(l))
    else
      match TryPostAccept(l.(state := Starting), os, lastError)
      case Done(next) => Listened(Done(next.(state := Running)))
      case Blocked(next) => Listened(Blocked(next))
  }

  /**
   A first `Listen()` leaves one accept armed only if `RetryWithBackoff` with
   the defaults succeeds over the results `PostAccept` returns in `Starting`,
   and, when no attempt throws, exactly then.
   */
  lemma ListenArmsIffRetrySucceeds(l: Listener, os: nat -> AcceptOs, lastError: uint32)
    requires l.hasAcceptCallback && l.state == Stopped && l.pending == 0 && !Valid(l.pipe)
    ensures var r := Listen(l, os, lastError);
            var starting := l.(state := Starting);
            var retried := RetryWithBackoff(AttemptSucceeds(starting, os), DEFAULT_INITIAL_DELAY_MS, DEFAULT_MAX_DELAY_MS, DEFAULT_MAX_ATTEMPTS);
            && r.Listened?
            && (Valid(r.step.l.pipe) ==> retried.success)
            && (NoAttemptThrows(starting, os, 0) ==> (Valid(r.step.l.pipe) <==> retried.success))
  {
    TryPostAcceptArmsIffRetrySucceeds(l.(state := Starting), os, lastError);
  }

  /**
   The tail of `HandleIoCompletion`: decrement the count; the handler that
   takes it from 1 to 0 while `Stopping` finalizes to `Stopped` and fires
   the stop signal.
   */
  function CompleteOp(l: Listener): (r: Listener)
    ensures r.pending == Dec(l.pending)
    ensures r.state == (if l.pending == 1 && l.state == Stopping then Stopped else l.state)
    ensures r.signals == l.signals + (if l.pending == 1 && l.state == Stopping then [StopSignalled] else [])
    ensures r.(pending := l.pending, state := l.state, signals := l.signals) == l
  {
    var prev := l.pending;
    var counted := l.(pending := Dec(prev));
    if prev != 1 then counted
    else if counted.state != Stopping then counted
    else counted.(state := Stopped, signals := counted.signals + [StopSignalled])
  }

  /** A completion status that promotes the pipe to a connection. */
  predicate IsConnected(err: uint32) {
    err == ERROR_SUCCESS || err == ERROR_PIPE_CONNECTED
  }

  /**
   The first part of `HandleIoCompletion`: on success the pipe moves into the
   accept callback (the only way a connection leaves the listener); on any
   other status it is released.
   */
  function HandOff(l: Listener, err: uint32): (r: Listener)
    ensures !Valid(r.pipe)
    ensures IsConnected(err) ==> r.signals == l.signals + [Accepted(l.pipe)] && r.closed == l.closed
    ensures !IsConnected(err) ==> r.signals == l.signals && r.closed == l.closed + Destroy(l.pipe)
    ensures r.(pipe := l.pipe, closed := l.closed, signals := l.signals) == l
  {
    if IsConnected(err) then
      var moved := MoveConstruct(l.pipe);
      l.(pipe := moved.source, signals := l.signals + [Accepted(moved.dest)])
    else
      var cleared := Clear(l.pipe);
      l.(pipe := cleared.handle, closed := l.closed + cleared.closed)
  }

  /**
   `HandleIoCompletion(bytes, overlapped, err)`. While not `Running` the
   handler hands off or releases the pipe and counts the operation done.
   */
  function HandleIoCompletion(l: Listener, err: uint32, os: nat -> AcceptOs, lastError: uint32): (r: Step)
    ensures !IsRunning(l) ==> r == Done(CompleteOp(HandOff(l, err)))
    ensures !IsRunning(l) ==> !Valid(r.l.pipe) && r.l.pending == Dec(l.pending)
    ensures !IsRunning(l) ==>
              (r.l.state == Stopped && l.state != Stopped <==> l.state == Stopping && l.pending == 1)
  {
    var handed := HandOff(l, err);
    if IsRunning(handed) then
      match TryPostAccept(handed, os, lastError)
      case Blocked(next) => Blocked(next)
      case Done(next) => Done(CompleteOp(next))
    else
      Done(CompleteOp(handed))
  }
}
