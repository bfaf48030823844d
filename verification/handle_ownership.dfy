/**
 The single-release guarantee of `WinHandle`, stated over whole programs.
 A program is a sequence of constructions, moves, resets, raw assignments and
 destructions on `WinHandle` objects that live in numbered slots. Raw values
 are assumed never to be reused: every value a program adopts is either a
 sentinel or one never adopted before, even after it has been closed (the OS
 itself may reuse a closed value; that is not modelled). Under that
 assumption no value is ever closed twice, and once every object is
 destroyed every value adopted has been closed exactly once.
 */
module HandleOwnership {
  import opened Win32
  import opened WinHandles

  /** One statement on `WinHandle` objects, naming objects by slot. */
  datatype HandleOp =
    | Open(slot: nat, raw: RawHandle)       // WinHandle h(raw);
    | OpenEmpty(slot: nat)                  // WinHandle h;
    | MoveInto(dest: nat, source: nat)      // WinHandle dest(std::move(source));
    | MoveOver(dest: nat, source: nat)      // dest = std::move(source);
    | ResetTo(slot: nat, raw: RawHandle)    // h.Reset(raw);
    | AssignFrom(slot: nat, raw: RawHandle) // h = raw;
    | Drop(slot: nat)                       // ~WinHandle()

  /**
   The live objects, every value passed to `CloseHandle` so far (in order),
   and every open value that has ever been adopted.
   */
  datatype Heap = Heap(live: map<nat, WinHandle>, closed: seq<RawHandle>, issued: set<RawHandle>)

  const Initial: Heap := Heap(map[], [], {})

  function Issue(raw: RawHandle): set<RawHandle> {
    if IsOpenValue(raw) then {raw} else {}
  }

  /** The raw value an operation adopts is a sentinel or was never handed out before. */
  predicate Fresh(h: Heap, op: HandleOp) {
    match op
    case Open(_, raw) => !IsOpenValue(raw) || raw !in h.issued
    case ResetTo(_, raw) => !IsOpenValue(raw) || raw !in h.issued
    case AssignFrom(_, raw) => !IsOpenValue(raw) || raw !in h.issued
    case _ => true
  }

  /**
   The effect of one statement. A statement about an object that is not
   alive (or constructing into a live slot) is not a C++ program and leaves
   the heap as it is.
   */
  function Step(h: Heap, op: HandleOp): Heap {
    match op
    case Open(s, raw) =>
      if s in h.live then h
      else Heap(h.live[s := WinHandle(raw)], h.closed, h.issued + Issue(raw))
    case OpenEmpty(s) =>
      if s in h.live then h
      else h.(live := h.live[s := Empty()])
    case MoveInto(d, s) =>
      if d in h.live || s !in h.live then h
      else
        var m := MoveConstruct(h.live[s]);
        h.(live := h.live[s := m.source][d := m.dest], closed := h.closed + m.closed)
    case MoveOver(d, s) =>
      if d !in h.live || s !in h.live || d == s then h
      else
        var m := MoveAssign(h.live[d], h.live[s]);
        h.(live := h.live[d := m.dest][s := m.source], closed := h.closed + m.closed)
    case ResetTo(s, raw) =>
      if s !in h.live then h
      else
        var r := Reset(h.live[s], raw);
        Heap(h.live[s := r.handle], h.closed + r.closed, h.issued + Issue(raw))
    case AssignFrom(s, raw) =>
      if s !in h.live then h
      else
        var r := AssignRaw(h.live[s], raw);
        Heap(h.live[s := r.handle], h.closed + r.closed, h.issued + Issue(raw))
    case Drop(s) =>
      if s !in h.live then h
      else h.(live := h.live - {s}, closed := h.closed + Destroy(h.live[s]))
  }

  function Run(h: Heap, ops: seq<HandleOp>): Heap
    decreases |ops|
  {
    if |ops| == 0 then h else Run(Step(h, ops[0]), ops[1..])
  }

  /** Every statement of the program adopts a fresh value when it runs. */
  predicate FreshRun(h: Heap, ops: seq<HandleOp>)
    decreases |ops|
  {
    |ops| == 0 || (Fresh(h, ops[0]) && FreshRun(Step(h, ops[0]), ops[1..]))
  }

  predicate NoDuplicates(xs: seq<RawHandle>) {
    forall i, j :: 0 <= i < j < |xs| ==> xs[i] != xs[j]
  }

  /** Some live object holds `x`. */
  predicate Held(h: Heap, x: RawHandle) {
    exists s :: s in h.live && h.live[s].raw == x
  }

  /**
   The ownership invariant: closes are distinct open values that were handed
   out; each open value held is held by one object only and not yet closed;
   every value handed out is either still held or already closed.
   */
  predicate Owned(h: Heap) {
    && NoDuplicates(h.closed)
    && (forall x :: x in h.issued ==> IsOpenValue(x))
    && (forall i :: 0 <= i < |h.closed| ==> h.closed[i] in h.issued)
    && (forall s :: s in h.live && Valid(h.live[s]) ==>
          h.live[s].raw in h.issued && h.live[s].raw !in h.closed)
    && (forall s, t :: s in h.live && t in h.live && s != t && Valid(h.live[s]) ==>
          h.live[s].raw != h.live[t].raw)
    && (forall x :: x in h.issued ==> x in h.closed || Held(h, x))
  }

  lemma AppendOneKeepsNoDuplicates(xs: seq<RawHandle>, x: RawHandle)
    requires NoDuplicates(xs) && x !in xs
    ensures NoDuplicates(xs + [x])
  {
  }

  lemma OpenKeepsOwned(h: Heap, s: nat, raw: RawHandle)
    requires Owned(h) && s !in h.live && (!IsOpenValue(raw) || raw !in h.issued)
    ensures Owned(Step(h, Open(s, raw)))
  {
    var h' := Step(h, Open(s, raw));
    forall x | x in h'.issued
      ensures x in h'.closed || Held(h', x)
    {
      if x == raw {
        assert h'.live[s].raw == x;
      } else if x !in h.closed {
        var t :| t in h.live && h.live[t].raw == x;
        assert t in h'.live && h'.live[t].raw == x;
      }
    }
  }

  lemma OpenEmptyKeepsOwned(h: Heap, s: nat)
    requires Owned(h) && s !in h.live
    ensures Owned(Step(h, OpenEmpty(s)))
  {
    var h' := Step(h, OpenEmpty(s));
    forall x | x in h'.issued
      ensures x in h'.closed || Held(h', x)
    {
      if x !in h.closed {
        var t :| t in h.live && h.live[t].raw == x;
        assert t != s;
        assert t in h'.live && h'.live[t].raw == x;
      }
    }
  }

  lemma MoveIntoKeepsOwned(h: Heap, d: nat, s: nat)
    requires Owned(h) && d !in h.live && s in h.live
    ensures Owned(Step(h, MoveInto(d, s)))
  {
    var h' := Step(h, MoveInto(d, s));
    assert h'.live[d] == h.live[s] && h'.live[s] == Empty();
    forall x | x in h'.issued
      ensures x in h'.closed || Held(h', x)
    {
      if x !in h.closed {
        var t :| t in h.live && h.live[t].raw == x;
        if t == s {
          assert h'.live[d].raw == x;
        } else {
          assert t in h'.live && h'.live[t].raw == x;
        }
      }
    }
  }

  lemma MoveOverKeepsOwned(h: Heap, d: nat, s: nat)
    requires Owned(h) && d in h.live && s in h.live && d != s
    ensures Owned(Step(h, MoveOver(d, s)))
  {
    var h' := Step(h, MoveOver(d, s));
    var prev := h.live[d];
    assert h'.live[d] == WinHandle(h.live[s].raw) && h'.live[s] == Empty();
    assert h'.closed == h.closed + Destroy(prev);
    if Valid(prev) {
      AppendOneKeepsNoDuplicates(h.closed, prev.raw);
    }
    forall x | x in h'.issued
      ensures x in h'.closed || Held(h', x)
    {
      if x !in h.closed {
        var t :| t in h.live && h.live[t].raw == x;
        if t == s {
          assert h'.live[d].raw == x;
        } else if t == d {
          assert x in h'.closed;
        } else {
          assert t in h'.live && h'.live[t].raw == x;
        }
      }
    }
  }

  lemma ReplaceKeepsOwned(h: Heap, s: nat, raw: RawHandle)
    requires Owned(h) && s in h.live && (!IsOpenValue(raw) || raw !in h.issued)
    ensures Owned(Step(h, ResetTo(s, raw)))
    ensures Step(h, AssignFrom(s, raw)) == Step(h, ResetTo(s, raw))
  {
    var h' := Step(h, ResetTo(s, raw));
    var prev := h.live[s];
    assert h'.closed == h.closed + Destroy(prev);
    if Valid(prev) {
      AppendOneKeepsNoDuplicates(h.closed, prev.raw);
    }
    forall x | x in h'.issued
      ensures x in h'.closed || Held(h', x)
    {
      if x == raw {
        assert h'.live[s].raw == x;
      } else if x !in h.closed {
        var t :| t in h.live && h.live[t].raw == x;
        if t == s {
          assert x in h'.closed;
        } else {
          assert t in h'.live && h'.live[t].raw == x;
        }
      }
    }
  }

  lemma DropKeepsOwned(h: Heap, s: nat)
    requires Owned(h) && s in h.live
    ensures Owned(Step(h, Drop(s)))
  {
    var h' := Step(h, Drop(s));
    var prev := h.live[s];
    if Valid(prev) {
      AppendOneKeepsNoDuplicates(h.closed, prev.raw);
    }
    forall x | x in h'.issued
      ensures x in h'.closed || Held(h', x)
    {
      if x !in h.closed {
        var t :| t in h.live && h.live[t].raw == x;
        if t == s {
          assert x in h'.closed;
        } else {
          assert t in h'.live && h'.live[t].raw == x;
        }
      }
    }
  }

  /** Every statement that adopts only fresh values keeps the ownership invariant. */
  lemma StepKeepsOwned(h: Heap, op: HandleOp)
    requires Owned(h) && Fresh(h, op)
    ensures Owned(Step(h, op))
  {
    match op
    case Open(s, raw) =>
      if s !in h.live { OpenKeepsOwned(h, s, raw); }
    case OpenEmpty(s) =>
      if s !in h.live { OpenEmptyKeepsOwned(h, s); }
    case MoveInto(d, s) =>
      if d !in h.live && s in h.live { MoveIntoKeepsOwned(h, d, s); }
    case MoveOver(d, s) =>
      if d in h.live && s in h.live && d != s { MoveOverKeepsOwned(h, d, s); }
    case ResetTo(s, raw) =>
      if s in h.live { ReplaceKeepsOwned(h, s, raw); }
    case AssignFrom(s, raw) =>
      if s in h.live { ReplaceKeepsOwned(h, s, raw); }
    case Drop(s) =>
      if s in h.live { DropKeepsOwned(h, s); }
  }

  lemma {:induction false} RunKeepsOwned(h: Heap, ops: seq<HandleOp>)
    requires Owned(h) && FreshRun(h, ops)
    ensures Owned(Run(h, ops))
    decreases |ops|
  {
    if |ops| > 0 {
      StepKeepsOwned(h, ops[0]);
      RunKeepsOwned(Step(h, ops[0]), ops[1..]);
    }
  }

  /**
   Single release: a program that adopts only fresh values never closes the
   same value twice, and never closes a sentinel.
   */
  lemma NoDoubleClose(ops: seq<HandleOp>)
    requires FreshRun(Initial, ops)
    ensures NoDuplicates(Run(Initial, ops).closed)
    ensures forall i :: 0 <= i < |Run(Initial, ops).closed| ==> IsOpenValue(Run(Initial, ops).closed[i])
  {
    RunKeepsOwned(Initial, ops);
  }

  /** No leak: once every object is destroyed, each value ever adopted has been closed, exactly once. */
  lemma AllReleasedOnceAllDestroyed(ops: seq<HandleOp>)
    requires FreshRun(Initial, ops)
    requires Run(Initial, ops).live == map[]
    ensures forall x :: x in Run(Initial, ops).issued ==> x in Run(Initial, ops).closed
    ensures NoDuplicates(Run(Initial, ops).closed)
  {
    RunKeepsOwned(Initial, ops);
  }

  /** Self move-assignment is a no-op; assigning between two objects empties the source. */
  lemma MoveOverSemantics(h: Heap, d: nat, s: nat)
    requires d in h.live && s in h.live
    ensures d == s ==> Step(h, MoveOver(d, s)) == h
    ensures d != s ==>
              && Step(h, MoveOver(d, s)).live[d].raw == h.live[s].raw
              && !Valid(Step(h, MoveOver(d, s)).live[s])
              && Step(h, MoveOver(d, s)).closed == h.closed + Destroy(h.live[d])
  {
  }
}
