/**
 `PipeServer`: the pipe address derived from the server's name, the size of
 the worker pool, and the completion port it owns. `Start`, `Stop` and the
 worker loop are declared by the server but not defined, so they are not
 part of this model.
 */
module PipeServers {
  import opened Win32
  import opened WinHandles

  /** `PIPE_NAME_PREFIX`: the local named-pipe namespace `\\.\pipe\`. */
  const PIPE_NAME_PREFIX: string := "\\\\.\\pipe\\"

  /** The smallest worker pool the server uses. */
  const MIN_WORKER_THREADS: nat := 2

  datatype PipeServer = PipeServer(
    name: string,           // _Name
    pipeName: string,       // _PipeName
    iocp: WinHandle,        // _IOCP
    maxWorkerThreads: nat)  // _MaxWorkerThreads

  /** The address kept in `_PipeName` is the prefix followed by `_Name`. */
  predicate WellNamed(s: PipeServer) {
    s.pipeName == PIPE_NAME_PREFIX + s.name
  }

  /** `std::max(hardware_concurrency, 2u)`. */
  function WorkerCount(hardwareConcurrency: uint32): (n: nat)
    ensures n >= MIN_WORKER_THREADS
    ensures hardwareConcurrency >= 2 ==> n == hardwareConcurrency
    ensures hardwareConcurrency < 2 ==> n == MIN_WORKER_THREADS
  {
    if hardwareConcurrency < 2 then 2 else hardwareConcurrency
  }

  /**
   The constructor: name and address from the argument, a worker pool of at
   least two, and no completion port yet. `hardwareConcurrency` is what
   `std::thread::hardware_concurrency()` reports (0 when unknown).
   */
  function NewPipeServer(name: string, hardwareConcurrency: uint32): (s: PipeServer)
    ensures s.name == name && WellNamed(s)
    ensures s.maxWorkerThreads == WorkerCount(hardwareConcurrency)
    ensures !Valid(s.iocp) && s.iocp == Empty()
  {
    PipeServer(name, PIPE_NAME_PREFIX + name, WinHandle(INVALID_HANDLE_VALUE), WorkerCount(hardwareConcurrency))
  }

  /** `Name()`: the name the address is derived from. */
  function Name(s: PipeServer): (r: string)
    ensures WellNamed(s) ==> s.pipeName == PIPE_NAME_PREFIX + r
  {
    s.name
  }

  /** `PipeName()`: the address clients connect to, the prefix followed by the name. */
  function PipeName(s: PipeServer): (r: string)
    ensures WellNamed(s) ==> r == PIPE_NAME_PREFIX + Name(s) && |r| == |PIPE_NAME_PREFIX| + |Name(s)|
  {
    s.pipeName
  }

  /** `Name(name)`: replace the name and rederive the address; nothing else changes. */
  function SetName(s: PipeServer, name: string): (r: PipeServer)
    ensures Name(r) == name && WellNamed(r)
    ensures r.iocp == s.iocp && r.maxWorkerThreads == s.maxWorkerThreads
  {
    s.(name := name, pipeName := PIPE_NAME_PREFIX + name)
  }

  /** The destructor is empty; destroying the members releases the completion port. */
  function DestroyServer(s: PipeServer): (closed: seq<RawHandle>)
    ensures Valid(s.iocp) <==> closed == [s.iocp.raw]
    ensures !Valid(s.iocp) <==> closed == []
  {
    Destroy(s.iocp)
  }

  /** The prefix is the nine characters `\`, `\`, `.`, `\`, `p`, `i`, `p`, `e`, `\`. */
  lemma PrefixIsNineCharacters()
    ensures |PIPE_NAME_PREFIX| == 9
    ensures PIPE_NAME_PREFIX[0] == '\\' && PIPE_NAME_PREFIX[1] == '\\' && PIPE_NAME_PREFIX[2] == '.'
    ensures PIPE_NAME_PREFIX[3] == '\\' && PIPE_NAME_PREFIX[4] == 'p' && PIPE_NAME_PREFIX[5] == 'i'
            && PIPE_NAME_PREFIX[6] == 'p' && PIPE_NAME_PREFIX[7] == 'e' && PIPE_NAME_PREFIX[8] == '\\'
  {
  }

  /** The address splits into the prefix and the name: the name is recovered from the address. */
  lemma PipeNameSplits(s: PipeServer)
    requires WellNamed(s)
    ensures |PipeName(s)| >= 9
    ensures PipeName(s)[..9] == PIPE_NAME_PREFIX
    ensures PipeName(s)[9..] == Name(s)
  {
  }

  /** After `Name(n)`, `Name()` is `n` and `PipeName()` is the prefix followed by `n`. */
  lemma SetNameThenGet(s: PipeServer, n: string)
    ensures Name(SetName(s, n)) == n
    ensures PipeName(SetName(s, n)) == PIPE_NAME_PREFIX + n
  {
  }

  /** Setting the name twice keeps only the last; setting the same name again changes nothing. */
  lemma SetNameLastWins(s: PipeServer, a: string, b: string)
    ensures SetName(SetName(s, a), b) == SetName(s, b)
    ensures SetName(SetName(s, a), a) == SetName(s, a)
  {
  }

  /** The constructor names the server exactly as the setter would. */
  lemma ConstructorAgreesWithSetter(name: string, other: string, hardwareConcurrency: uint32)
    ensures NewPipeServer(name, hardwareConcurrency) == SetName(NewPipeServer(other, hardwareConcurrency), name)
  {
  }

  /** Destroying a server that was never started closes nothing. */
  lemma NeverStartedServerClosesNothing(name: string, hardwareConcurrency: uint32)
    ensures DestroyServer(NewPipeServer(name, hardwareConcurrency)) == []
  {
  }
}
