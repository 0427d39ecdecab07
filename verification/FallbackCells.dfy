/**
 The fallback atomics: plain reads and writes of memory under 64 locks chosen by address. Any
 number of threads work on any number of cells, the read and the write of one operation being
 separate steps; still each operation is one atomic step of its cell.
 */
module FallbackCells {
  import opened Words
  import opened AtomicCell

  const SHARDS: nat := 64

  function LockFor(addr: nat): (i: nat)
    ensures i < SHARDS
  {
    (addr / 16) % SHARDS
  }

  datatype Request =
    | Modify(op: Op)
    | Add(v: nat)
    | Get
    | Put(v: nat)
    | CompareExchange(expected: nat, desired: nat)

  /** What the operation leaves in its cell. */
  function NewValue(r: Request, x: nat, width: nat): (y: nat)
    requires x < Pow2(width)
    ensures y < Pow2(width)
  {
    match r
    case Modify(op) => Apply(op, x, width)
    case Add(v) => Wrap(x + v, width)
    case Get => x
    case Put(v) => Wrap(v, width)
    case CompareExchange(expected, desired) => if x == expected then Wrap(desired, width) else x
  }

  datatype Pc =
    | Calling(r: Request, addr: nat)
    | Locked(r: Request, addr: nat)
    | HasRead(r: Request, addr: nat, was: nat)
    | HasWritten(r: Request, addr: nat, was: nat)
    | Returned(r: Request, addr: nat, was: nat)      // `was` is what the operation reports

  datatype Owner = Nobody | Thread(t: nat)

  datatype Effect = Effect(caller: nat, addr: nat, r: Request, was: nat)

  /** `log` (history): the writes in the order they happened. */
  datatype State = State(width: nat, cells: seq<nat>, locks: seq<Owner>, threads: seq<Pc>, log: seq<Effect>)

  predicate Fits(s: State) {
    && |s.locks| == SHARDS
    && (forall a :: 0 <= a < |s.cells| ==> s.cells[a] < Pow2(s.width))
    && (forall t :: 0 <= t < |s.threads| ==> s.threads[t].addr < |s.cells|)
    && (forall t :: 0 <= t < |s.threads| && s.threads[t].HasRead? ==> s.threads[t].was < Pow2(s.width))
  }

  /** Thread `t` can take its next step: any time, except that locking waits for the lock. */
  predicate Enabled(s: State, t: nat) {
    && Fits(s) && t < |s.threads| && !s.threads[t].Returned?
    && (s.threads[t].Calling? ==> s.locks[LockFor(s.threads[t].addr)] == Nobody)
  }

  function Act(s: State, t: nat): State
    requires Enabled(s, t)
  {
    var i := LockFor(s.threads[t].addr);
    match s.threads[t]
    case Calling(r, addr) => s.(locks := s.locks[i := Thread(t)], threads := s.threads[t := Locked(r, addr)])
    case Locked(r, addr) => s.(threads := s.threads[t := HasRead(r, addr, s.cells[addr])])
    case HasRead(r, addr, was) =>
      s.(cells := s.cells[addr := NewValue(r, was, s.width)],
         threads := s.threads[t := HasWritten(r, addr, was)],
         log := s.log + [Effect(t, addr, r, was)])
    case HasWritten(r, addr, was) =>
      s.(locks := s.locks[i := Nobody], threads := s.threads[t := Returned(r, addr, was)])
    case Returned(_, _, _) => s
  }

  predicate Init(s: State) {
    && Fits(s) && s.log == []
    && (forall i :: 0 <= i < SHARDS ==> s.locks[i] == Nobody)
    && (forall t :: 0 <= t < |s.threads| ==> s.threads[t].Calling?)
  }

  ghost predicate Executable(s: State, ts: seq<nat>)
    decreases |ts|
  {
    ts == [] || (Enabled(s, ts[0]) && Executable(Act(s, ts[0]), ts[1..]))
  }

  ghost function After(s: State, ts: seq<nat>): State
    requires Executable(s, ts)
    decreases |ts|
  {
    if ts == [] then s else After(Act(s, ts[0]), ts[1..])
  }

  /** The logged operations, each performed at once, lead from `initial` to `final`. */
  ghost predicate AtomicRun(log: seq<Effect>, initial: seq<nat>, final: seq<nat>, width: nat)
  {
    if log == [] then final == initial
    else
      var last := log[|log| - 1];
      exists before: seq<nat> ::
        && AtomicRun(log[..|log| - 1], initial, before, width)
        && last.addr < |before| && before[last.addr] == last.was < Pow2(width)
        && final == before[last.addr := NewValue(last.r, last.was, width)]
  }

  predicate InCritical(pc: Pc) {
    pc.Locked? || pc.HasRead? || pc.HasWritten?
  }

  ghost predicate LoggedFor(s: State, t: nat)
    requires t < |s.threads| && (s.threads[t].HasWritten? || s.threads[t].Returned?)
  {
    Effect(t, s.threads[t].addr, s.threads[t].r, s.threads[t].was) in s.log
  }

  /** Everything in the invariant but the log. */
  ghost predicate LocksOk(s: State) {
    && Fits(s)
    && (forall t :: 0 <= t < |s.threads| && InCritical(s.threads[t]) ==>
          s.locks[LockFor(s.threads[t].addr)] == Thread(t))
    && (forall t :: 0 <= t < |s.threads| && s.threads[t].HasRead? ==> s.cells[s.threads[t].addr] == s.threads[t].was)
  }

  /** The log has each write once, as its caller asked for it. */
  ghost predicate LogOk(s: State) {
    && (forall t :: 0 <= t < |s.threads| && (s.threads[t].HasWritten? || s.threads[t].Returned?) ==> LoggedFor(s, t))
    && (forall j :: 0 <= j < |s.log| ==>
          && s.log[j].caller < |s.threads|
          && s.log[j].r == s.threads[s.log[j].caller].r && s.log[j].addr == s.threads[s.log[j].caller].addr
          && (s.threads[s.log[j].caller].HasWritten? || s.threads[s.log[j].caller].Returned?))
    && (forall i, j :: 0 <= i < j < |s.log| ==> s.log[i].caller != s.log[j].caller)
  }

  ghost predicate Inv(s: State, initial: seq<nat>) {
    LocksOk(s) && LogOk(s) && AtomicRun(s.log, initial, s.cells, s.width)
  }

  lemma StepKeepsLocks(s: State, t: nat)
    requires LocksOk(s) && Enabled(s, t)
    ensures LocksOk(Act(s, t)) && Act(s, t).width == s.width
  {
  }

  lemma WriteKeepsLog(s: State, t: nat)
    requires LogOk(s) && Enabled(s, t) && s.threads[t].HasRead?
    ensures LogOk(Act(s, t))
  {
    var s' := Act(s, t);
    assert s'.log[|s.log|] == Effect(t, s.threads[t].addr, s.threads[t].r, s.threads[t].was);
    forall v | 0 <= v < |s'.threads| && (s'.threads[v].HasWritten? || s'.threads[v].Returned?)
      ensures LoggedFor(s', v)
    {
      if v != t {
        assert LoggedFor(s, v);
      }
    }
  }

  lemma OthersKeepLog(s: State, t: nat)
    requires LogOk(s) && Enabled(s, t) && !s.threads[t].HasRead?
    ensures LogOk(Act(s, t))
  {
    var s' := Act(s, t);
    forall v | 0 <= v < |s'.threads| && (s'.threads[v].HasWritten? || s'.threads[v].Returned?)
      ensures LoggedFor(s', v)
    {
      assert LoggedFor(s, v);
    }
  }

  lemma WriteIsAtomic(s: State, t: nat, initial: seq<nat>)
    requires LocksOk(s) && AtomicRun(s.log, initial, s.cells, s.width) && Enabled(s, t) && s.threads[t].HasRead?
    ensures AtomicRun(Act(s, t).log, initial, Act(s, t).cells, s.width)
  {
    var s' := Act(s, t);
    assert s'.log[..|s'.log| - 1] == s.log;
  }

  lemma StepKeepsInv(s: State, t: nat, initial: seq<nat>)
    requires Inv(s, initial) && Enabled(s, t)
    ensures Inv(Act(s, t), initial) && Act(s, t).width == s.width
  {
    StepKeepsLocks(s, t);
    if s.threads[t].HasRead? {
      WriteKeepsLog(s, t);
      WriteIsAtomic(s, t, initial);
    } else {
      OthersKeepLog(s, t);
    }
  }

  lemma {:induction false} RunKeepsInv(s: State, ts: seq<nat>, initial: seq<nat>)
    requires Inv(s, initial) && Executable(s, ts)
    ensures Inv(After(s, ts), initial) && After(s, ts).width == s.width
    decreases |ts|
  {
    if ts != [] {
      StepKeepsInv(s, ts[0], initial);
      RunKeepsInv(Act(s, ts[0]), ts[1..], initial);
    }
  }

  /** Two operations under one lock, in particular two on one cell, are never in their critical sections together. */
  lemma OneInside(s0: State, ts: seq<nat>, s: State, t: nat, v: nat)
    requires Init(s0) && Executable(s0, ts) && s == After(s0, ts) && t < |s.threads| && v < |s.threads|
    requires InCritical(s.threads[t]) && InCritical(s.threads[v])
    requires LockFor(s.threads[t].addr) == LockFor(s.threads[v].addr)
    ensures t == v
  {
    RunKeepsInv(s0, ts, s0.cells);
  }

  /**
   Refinement: in every interleaving the memory is what the operations, performed one at a time in
   the order of their writes, leave; each operation that has returned is one of them, and reports
   the value its cell had at that point; and nothing but the callers' own requests is written.
   */
  lemma FallbackIsAtomic(s0: State, ts: seq<nat>, s: State)
    requires Init(s0) && Executable(s0, ts) && s == After(s0, ts)
    ensures AtomicRun(s.log, s0.cells, s.cells, s.width)
    ensures forall t :: 0 <= t < |s.threads| && s.threads[t].Returned? ==>
              Effect(t, s.threads[t].addr, s.threads[t].r, s.threads[t].was) in s.log
    ensures forall i, j :: 0 <= i < j < |s.log| ==> s.log[i].caller != s.log[j].caller
    ensures forall j :: 0 <= j < |s.log| ==>
              && s.log[j].caller < |s.threads|
              && s.log[j].r == s.threads[s.log[j].caller].r && s.log[j].addr == s.threads[s.log[j].caller].addr
  {
    RunKeepsInv(s0, ts, s0.cells);
    forall t | 0 <= t < |s.threads| && s.threads[t].Returned?
      ensures Effect(t, s.threads[t].addr, s.threads[t].r, s.threads[t].was) in s.log
    {
      assert LoggedFor(s, t);
    }
  }
}
