/**
 The listener over time. Concurrency is replaced by interleaving: a `Call`
 is one atomic entry into the listener, and a `Stop()` that has to wait is
 split into `StopCall` (up to the wait) and `StopWakes` (after it), with any
 number of completions in between. A completion can only be delivered while
 an accept is in flight, i.e. while the listener holds a pipe instance.
 */
module ListenerLifecycle {
  import opened Win32
  import opened WinHandles
  import opened Backoff
  import opened PipeListeners

  // ---------------------------------------------------------------------------
  // A completion while Running

  /**
   A completion delivered while `Running` hands the pipe off (or releases
   it), then retries `PostAccept` five times in vain, records `lastError`
   and calls `Stop()`, which waits for the count to drain while this very
   handler still holds the operation it was called for: the worker thread
   parks with the listener `Stopping`, one operation counted and no pipe.
   */
  lemma CompletionWhileRunningParks(l: Listener, err: uint32, os: nat -> AcceptOs, lastError: uint32)
    requires IsRunning(l) && l.pending >= 1
    ensures var r := HandleIoCompletion(l, err, os, lastError);
            && r.Blocked?
            && r.l.state == Stopping && r.l.pending == l.pending && !Valid(r.l.pipe)
            && r.l.errorCode == lastError
            && r.l == HandOff(l, err).(state := Stopping, errorCode := lastError)
  {
    var handed := HandOff(l, err);
    assert PostWithRetry(handed, os, 0, DEFAULT_INITIAL_DELAY_MS).outcome == NotPosted(handed);
  }

  // ---------------------------------------------------------------------------
  // Interleaved runs

  /** One atomic entry into the listener. */
  datatype Call =
    | ListenCall(os: nat -> AcceptOs, lastError: uint32)
    | StopCall
    | StopWakes
    | Completion(err: uint32, os: nat -> AcceptOs, lastError: uint32)
    | AcceptCallbackSet(present: bool)

  /** The listener and the number of `Stop()` callers parked in the wait. */
  datatype World = World(l: Listener, parked: nat)

  /** An accept is in flight exactly while the listener holds a pipe instance. */
  predicate InFlight(l: Listener) {
    Valid(l.pipe)
  }

  /**
   The effect of one call. `StopWakes` is enabled only for a parked caller
   once the count is zero; a completion only while an accept is in flight. A
   handler that parks in `Stop()` leaves the listener as it parked it.
   */
  function Apply(w: World, c: Call): World {
    match c
    case ListenCall(os, lastError) =>
      (match Listen(w.l, os, lastError)
       case MissingAcceptCallback => w
       case Listened(step) => w.(l := step.l))
    case StopCall =>
      var begun := StopBegin(w.l);
      World(begun.l, if begun.waits then w.parked + 1 else w.parked)
    case StopWakes =>
      if w.parked > 0 && w.l.pending == 0 then World(StopFinish(w.l), w.parked - 1) else w
    case Completion(err, os, lastError) =>
      if InFlight(w.l) then w.(l := HandleIoCompletion(w.l, err, os, lastError).l) else w
    case AcceptCallbackSet(present) =>
      w.(l := SetOnAccept(w.l, present))
  }

  function RunCalls(w: World, calls: seq<Call>): World
    decreases |calls|
  {
    if |calls| == 0 then w else RunCalls(Apply(w, calls[0]), calls[1..])
  }

  /**
   What holds between calls: at most one operation counted, a held pipe is
   counted, `Starting` is never observable, and `Stopped` means nothing
   counted and no pipe.
   */
  predicate Consistent(l: Listener) {
    && l.pending <= 1
    && (Valid(l.pipe) ==> l.pending == 1)
    && l.state != Starting
    && (l.state == Stopped ==> l.pending == 0 && !Valid(l.pipe))
  }

  /** `Listen()` on a consistent listener never parks, and leaves it consistent and `Running` when it starts it. */
  lemma ListenKeepsConsistent(l: Listener, os: nat -> AcceptOs, lastError: uint32)
    requires Consistent(l) && l.hasAcceptCallback
    ensures var r := Listen(l, os, lastError);
            r.Listened? && r.step.Done? && Consistent(r.step.l)
            && (l.state == Stopped ==> r.step.l.state == Running)
            && (l.state != Stopped ==> r.step.l == l)
  {
    if l.state == Stopped {
      var starting := l.(state := Starting);
      var tried := PostWithRetry(starting, os, 0, DEFAULT_INITIAL_DELAY_MS);
      if !tried.outcome.PostOk? {
        assert tried.outcome.l.pending == 0;
      }
    }
  }

  /**
   The fatal path keeps a consistent listener consistent and leaves it
   inactive, so a later `Stop()` has nothing to do.
   */
  lemma FatalErrorKeepsConsistent(l: Listener, code: uint32)
    requires Consistent(l)
    ensures var r := HandleFatalError(l, code);
            Consistent(r.l) && !Active(r.l.state) && StopBegin(r.l) == StopBegun(r.l, false)
  {
  }

  /** Every enabled call keeps a consistent listener consistent. */
  lemma ApplyKeepsConsistent(w: World, c: Call)
    requires Consistent(w.l)
    ensures Consistent(Apply(w, c).l)
  {
    match c
    case ListenCall(os, lastError) =>
      if w.l.hasAcceptCallback {
        ListenKeepsConsistent(w.l, os, lastError);
      }
    case StopCall =>
    case StopWakes =>
    case Completion(err, os, lastError) =>
      if InFlight(w.l) && IsRunning(w.l) {
        CompletionWhileRunningParks(w.l, err, os, lastError);
      }
    case AcceptCallbackSet(_) =>
  }

  lemma {:induction false} RunKeepsConsistent(w: World, calls: seq<Call>)
    requires Consistent(w.l)
    ensures Consistent(RunCalls(w, calls).l)
    decreases |calls|
  {
    if |calls| > 0 {
      ApplyKeepsConsistent(w, calls[0]);
      RunKeepsConsistent(Apply(w, calls[0]), calls[1..]);
    }
  }

  /**
   From construction, under any interleaving: at most one accept is ever
   counted, a held pipe is always the counted one, and a stopped listener
   holds nothing and counts nothing.
   */
  lemma AtMostOneOutstandingAccept(key: nat, pipeName: string, calls: seq<Call>)
    ensures var l := RunCalls(World(NewListener(key, pipeName), 0), calls).l;
            l.pending <= 1 && (Valid(l.pipe) ==> l.pending == 1)
            && (l.state == Stopped ==> l.pending == 0 && !Valid(l.pipe))
  {
    RunKeepsConsistent(World(NewListener(key, pipeName), 0), calls);
  }

  /** No call changes the completion key or the pipe name: the listener keeps its identity. */
  lemma {:induction false} IdentityIsStable(w: World, calls: seq<Call>)
    ensures RunCalls(w, calls).l.key == w.l.key
    ensures RunCalls(w, calls).l.pipeName == w.l.pipeName
    decreases |calls|
  {
    if |calls| > 0 {
      var c := calls[0];
      IdentityIsStable(Apply(w, c), calls[1..]);
    }
  }

  // ---------------------------------------------------------------------------
  // The parked handler is never released

  /** The shape a listener is left in by a handler parked in `Stop()`. */
  predicate Wedged(l: Listener) {
    l.state == Stopping && l.pending == 1 && !Valid(l.pipe)
  }

  /**
   Once wedged, no call changes anything but the callback flag: no
   completion can arrive, `Stop()` and `Listen()` are no-ops, and no parked
   `Stop()` can wake because the count never reaches zero.
   */
  lemma WedgedIsStuck(w: World, c: Call)
    requires Wedged(w.l)
    ensures Apply(w, c).l.(hasAcceptCallback := w.l.hasAcceptCallback) == w.l
    ensures Wedged(Apply(w, c).l)
  {
  }

  lemma {:induction false} WedgedForever(w: World, calls: seq<Call>)
    requires Wedged(w.l)
    ensures Wedged(RunCalls(w, calls).l)
    ensures RunCalls(w, calls).l.signals == w.l.signals
    decreases |calls|
  {
    if |calls| > 0 {
      WedgedIsStuck(w, calls[0]);
      WedgedForever(Apply(w, calls[0]), calls[1..]);
    }
  }

  // ---------------------------------------------------------------------------
  // Entry-point properties

  /** A second `Listen()` after one that completed is a no-op. */
  lemma ListenIdempotent(l: Listener, os: nat -> AcceptOs, os2: nat -> AcceptOs, e: uint32, e2: uint32)
    requires Listen(l, os, e).Listened? && Listen(l, os, e).step.Done?
    ensures Listen(Listen(l, os, e).step.l, os2, e2) == Listen(l, os, e)
  {
  }

  /** A second `Stop()` after one that began is a no-op. */
  lemma StopIdempotent(l: Listener)
    ensures StopBegin(StopBegin(l).l) == StopBegun(StopBegin(l).l, false)
  {
  }

  /** `Stop()` as a whole: begun, drained, finished, the listener is `Stopped` with no pipe and nothing counted. */
  lemma StopThenDrainStops(l: Listener)
    requires Active(l.state) && l.pending == 0
    ensures var r := StopFinish(StopBegin(l).l);
            r.state == Stopped && !Valid(r.pipe) && r.pending == 0
            && r.closed == l.closed + Destroy(l.pipe)
  {
  }

  /**
   The listener finalizes to `Stopped` from a completion exactly when that
   completion takes the count from 1 to 0 while `Stopping`.
   */
  lemma CompletionFinalizesOnlyAtZero(l: Listener, err: uint32, os: nat -> AcceptOs, lastError: uint32)
    requires l.state == Stopping
    ensures var r := HandleIoCompletion(l, err, os, lastError);
            r.Done? && (r.l.state == Stopped <==> l.pending == 1)
            && (r.l.state == Stopped ==> r.l.pending == 0)
            && (IsConnected(err) ==> Accepted(l.pipe) in r.l.signals)
  {
  }

  // ---------------------------------------------------------------------------
  // Scenarios

  /** Outcomes for an attempt whose connect is left pending: the usual case with no client waiting. */
  function PendingConnect(raw: RawHandle): nat -> AcceptOs {
    _ => AcceptOs(raw, ERROR_SUCCESS, Succeeded, Failed(ERROR_IO_PENDING), Succeeded)
  }

  /**
   The lifecycle test: `Listen()` leaves one accept counted; `Stop()` begins
   and waits; an aborted completion arrives, drains the count and finalizes;
   the waiting `Stop()` then finishes too. The listener ends `Stopped` with
   nothing counted, and the stop signal has fired twice.
   */
  lemma StopSignalFiresTwiceInLifecycleTest(key: nat, name: string, lastError: uint32)
    ensures var l0 := SetOnAccept(NewListener(key, name), true);
            var listened := Listen(l0, PendingConnect(7), lastError);
            listened.Listened? && listened.step.Done?
            && listened.step.l.state == Running && listened.step.l.pending == 1
            && var begun := StopBegin(listened.step.l);
               begun.waits
               && var completed := HandleIoCompletion(begun.l, ERROR_OPERATION_ABORTED, PendingConnect(8), lastError);
                  completed.Done? && completed.l.pending == 0 && completed.l.state == Stopped
                  && var finished := StopFinish(completed.l);
                     finished.state == Stopped && finished.pending == 0
                     && finished.signals == [StopSignalled, StopSignalled]
                     && finished.closed == [7]
  {
  }

  /**
   `Listen()` whose only attempt fails fatally: the fatal path records the
   error, stops the listener and fires the stop signal, and `Listen()` then
   stores `Running` anyway.
   */
  lemma ListenStoresRunningAfterFatalError(key: nat, name: string, lastError: uint32)
    ensures var l0 := SetOnAccept(NewListener(key, name), true);
            var failing: nat -> AcceptOs := _ => AcceptOs(INVALID_HANDLE_VALUE, 5, Succeeded, Succeeded, Succeeded);
            var r := Listen(l0, failing, lastError);
            r.Listened? && r.step.Done?
            && r.step.l.state == Running && r.step.l.errorCode == lastError
            && r.step.l.signals == [StopSignalled] && r.step.l.pending == 0 && !Valid(r.step.l.pipe)
  {
  }

  /**
   A client connecting while `Running`: the connection is handed to the
   accept callback, and then the handler parks for good, leaving the
   listener `Stopping`.
   */
  lemma FirstConnectionWedgesListener(key: nat, name: string, lastError: uint32, later: seq<Call>)
    ensures var l0 := SetOnAccept(NewListener(key, name), true);
            var running := Listen(l0, PendingConnect(7), lastError).step.l;
            var r := HandleIoCompletion(running, ERROR_SUCCESS, PendingConnect(8), lastError);
            r.Blocked? && r.l.signals == [Accepted(WinHandle(7))]
            && Wedged(RunCalls(World(r.l, 0), later).l)
  {
    var l0 := SetOnAccept(NewListener(key, name), true);
    var running := Listen(l0, PendingConnect(7), lastError).step.l;
    CompletionWhileRunningParks(running, ERROR_SUCCESS, PendingConnect(8), lastError);
    var r := HandleIoCompletion(running, ERROR_SUCCESS, PendingConnect(8), lastError);
    WedgedForever(World(r.l, 0), later);
  }
}
