/**
 The read-modify-write macros as compare-and-swap loops of many threads on one shared cell, and
 the proof that each is one atomic step: the log of successful swaps is a sequential execution
 of the operations, and every result is what that execution returns.
 */
module AtomicCell {
  import opened Words

  datatype Op = Sub(v: nat) | Or(v: nat) | And(v: nat) | Exchange(v: nat)

  /** The new value of a cell of `width` bits; the operand is converted to the cell's type. */
  function Apply(op: Op, x: nat, width: nat): (r: nat)
    requires x < Pow2(width)
    ensures r < Pow2(width)
  {
    match op
    case Sub(v) => Wrap(x - v, width)
    case Or(v) => (BitsFit(x, Wrap(v, width), width); BitOr(x, Wrap(v, width)))
    case And(v) => (BitsFit(x, Wrap(v, width), width); BitAnd(x, Wrap(v, width)))
    case Exchange(v) => Wrap(v, width)
  }

  /** Where a call stands. `mark` (history) is the length of the log when `expected` was read. */
  datatype Pc =
    | Begin(op: Op)
    | Trying(op: Op, expected: nat, mark: nat)
    | Done(op: Op, result: nat)

  /** One successful swap (history). */
  datatype Swap = Swap(caller: nat, op: Op, was: nat, now: nat)

  datatype State = State(width: nat, cell: nat, threads: seq<Pc>, log: seq<Swap>)

  datatype Action =
    | Read(t: nat)                 // the relaxed load before the loop
    | TrySwap(t: nat)              // compare-exchange; on failure `expected` takes the cell's value
    | FailSpuriously(t: nat)       // the weak form may fail although the values agree

  predicate Enabled(s: State, x: Action) {
    match x
    case Read(t) => t < |s.threads| && s.threads[t].Begin?
    case TrySwap(t) => t < |s.threads| && s.threads[t].Trying?
    case FailSpuriously(t) => t < |s.threads| && s.threads[t].Trying?
  }

  /** The compare-exchange of thread `t` finds what it expects. */
  predicate Succeeds(s: State, t: nat) {
    t < |s.threads| && s.threads[t].Trying? && s.threads[t].expected == s.cell
  }

  function Act(s: State, x: Action): State
    requires Enabled(s, x) && s.cell < Pow2(s.width)
  {
    match x
    case Read(t) =>
      s.(threads := s.threads[t := Trying(s.threads[t].op, s.cell, |s.log|)])
    case TrySwap(t) =>
      var pc := s.threads[t];
      if Succeeds(s, t) then
        var now := Apply(pc.op, s.cell, s.width);
        s.(cell := now, threads := s.threads[t := Done(pc.op, pc.expected)],
           log := s.log + [Swap(t, pc.op, s.cell, now)])
      else s.(threads := s.threads[t := Trying(pc.op, s.cell, |s.log|)])
    case FailSpuriously(t) =>
      s.(threads := s.threads[t := Trying(s.threads[t].op, s.cell, |s.log|)])
  }

  /** All threads are about to call; the cell holds `initial`. */
  predicate Init(s: State, initial: nat) {
    && initial < Pow2(s.width) && s.cell == initial && s.log == []
    && forall t :: 0 <= t < |s.threads| ==> s.threads[t].Begin?
  }

  predicate Fits(s: State) {
    s.cell < Pow2(s.width)
  }

  ghost predicate Executable(s: State, xs: seq<Action>)
    decreases |xs|
  {
    xs == [] || (Fits(s) && Enabled(s, xs[0]) && Executable(Act(s, xs[0]), xs[1..]))
  }

  ghost function After(s: State, xs: seq<Action>): State
    requires Executable(s, xs)
    decreases |xs|
  {
    if xs == [] then s else After(Act(s, xs[0]), xs[1..])
  }

  // ----- the atomic cell it implements

  /** The value of a single atomic cell after the logged operations, one at a time. */
  ghost predicate Sequential(log: seq<Swap>, initial: nat, final: nat, width: nat)
    requires initial < Pow2(width)
  {
    if log == [] then final == initial
    else
      var last := log[|log| - 1];
      && last.was < Pow2(width)
      && Sequential(log[..|log| - 1], initial, last.was, width)
      && last.now == Apply(last.op, last.was, width)
      && final == last.now
  }

  /** Every finished call is in the log, with the value it returned. */
  ghost predicate Logged(s: State) {
    && (forall t :: 0 <= t < |s.threads| && s.threads[t].Done? ==>
          exists j :: 0 <= j < |s.log| && s.log[j].caller == t && s.log[j].op == s.threads[t].op
                        && s.log[j].was == s.threads[t].result)
    && (forall j :: 0 <= j < |s.log| ==> s.log[j].caller < |s.threads| && s.threads[s.log[j].caller].Done?)
    && (forall i, j :: 0 <= i < j < |s.log| ==> s.log[i].caller != s.log[j].caller)
  }

  /** Between a thread's last look at the cell and now, the cell went from what it saw to what it is. */
  ghost predicate Seen(s: State) {
    forall t :: 0 <= t < |s.threads| && s.threads[t].Trying? ==>
      && s.threads[t].mark <= |s.log|
      && s.threads[t].expected == (if s.threads[t].mark == |s.log| then s.cell else s.log[s.threads[t].mark].was)
  }

  ghost predicate Inv(s: State, initial: nat) {
    && initial < Pow2(s.width) && Fits(s)
    && Sequential(s.log, initial, s.cell, s.width)
    && Logged(s) && Seen(s)
    && Chained(s)
  }

  /** Each swap starts from where the one before ended. */
  ghost predicate Chained(s: State) {
    && (forall j :: 0 <= j < |s.log| - 1 ==> s.log[j].now == s.log[j + 1].was)
    && (s.log != [] ==> s.log[|s.log| - 1].now == s.cell)
  }

  lemma SwapKeepsLogged(s: State, s': State, t: nat)
    requires Logged(s) && Fits(s) && Enabled(s, TrySwap(t)) && Succeeds(s, t) && s' == Act(s, TrySwap(t))
    ensures Logged(s')
  {
    assert s'.log[|s.log|].caller == t;
    forall v | 0 <= v < |s'.threads| && s'.threads[v].Done?
      ensures exists j :: 0 <= j < |s'.log| && s'.log[j].caller == v && s'.log[j].op == s'.threads[v].op
                && s'.log[j].was == s'.threads[v].result
    {
      if v != t {
        var j :| 0 <= j < |s.log| && s.log[j].caller == v && s.log[j].op == s.threads[v].op
          && s.log[j].was == s.threads[v].result;
        assert s'.log[j] == s.log[j];
      }
    }
  }

  lemma SwapKeepsSeen(s: State, s': State, t: nat)
    requires Seen(s) && Chained(s) && Fits(s) && Enabled(s, TrySwap(t)) && Succeeds(s, t) && s' == Act(s, TrySwap(t))
    ensures Seen(s') && Chained(s')
  {
  }

  lemma SwapKeepsInv(s: State, t: nat, initial: nat)
    requires Inv(s, initial) && Enabled(s, TrySwap(t)) && Succeeds(s, t)
    ensures Inv(Act(s, TrySwap(t)), initial)
  {
    var s' := Act(s, TrySwap(t));
    assert s'.log[..|s'.log| - 1] == s.log;
    SwapKeepsLogged(s, s', t);
    SwapKeepsSeen(s, s', t);
  }

  lemma LookKeepsLogged(s: State, s': State, t: nat)
    requires Logged(s) && t < |s.threads| && !s.threads[t].Done? && s'.log == s.log
    requires |s'.threads| == |s.threads| && s'.threads == s.threads[t := s'.threads[t]] && !s'.threads[t].Done?
    ensures Logged(s')
  {
    forall v | 0 <= v < |s'.threads| && s'.threads[v].Done?
      ensures exists j :: 0 <= j < |s'.log| && s'.log[j].caller == v && s'.log[j].op == s'.threads[v].op
                && s'.log[j].was == s'.threads[v].result
    {
      assert s.threads[v].Done?;
    }
  }

  lemma LookKeepsInv(s: State, x: Action, initial: nat)
    requires Inv(s, initial) && Enabled(s, x) && !(x.TrySwap? && Succeeds(s, x.t))
    ensures Inv(Act(s, x), initial)
  {
    var s' := Act(s, x);
    assert s'.log == s.log && s'.cell == s.cell;
    LookKeepsLogged(s, s', x.t);
  }

  lemma {:induction false} RunKeepsInv(s: State, xs: seq<Action>, initial: nat)
    requires Inv(s, initial) && Executable(s, xs)
    ensures Inv(After(s, xs), initial) && After(s, xs).width == s.width
    decreases |xs|
  {
    if xs != [] {
      if xs[0].TrySwap? && Succeeds(s, xs[0].t) {
        SwapKeepsInv(s, xs[0].t, initial);
      } else {
        LookKeepsInv(s, xs[0], initial);
      }
      RunKeepsInv(Act(s, xs[0]), xs[1..], initial);
    }
  }

  /**
   Refinement: in every interleaving the successful swaps are a sequential execution of the
   operations on one atomic cell, ending in the cell's value, and each finished call is exactly
   one of them and returned the value the cell had at that point.
   */
  lemma CasLoopIsAtomic(s0: State, initial: nat, xs: seq<Action>, s: State, t: nat)
    requires Init(s0, initial) && Executable(s0, xs) && s == After(s0, xs) && t < |s.threads|
    ensures initial < Pow2(s.width) && Sequential(s.log, initial, s.cell, s.width)
    ensures s.threads[t].Done? <==> exists j :: 0 <= j < |s.log| && s.log[j].caller == t
    ensures forall j :: 0 <= j < |s.log| && s.log[j].caller == t ==>
              s.threads[t].Done? && s.log[j].op == s.threads[t].op && s.log[j].was == s.threads[t].result
  {
    RunKeepsInv(s0, xs, initial);
  }

  /** A compare-exchange that fails on different values is explained by a swap another thread made since. */
  lemma FailureIsExplained(s0: State, initial: nat, xs: seq<Action>, s: State, t: nat)
    requires Init(s0, initial) && Executable(s0, xs) && s == After(s0, xs)
    requires Enabled(s, TrySwap(t)) && !Succeeds(s, t)
    ensures exists j :: s.threads[t].mark <= j < |s.log| && s.log[j].caller != t && s.log[j].was != s.log[j].now
  {
    RunKeepsInv(s0, xs, initial);
    ChangeBetween(s, s.threads[t].mark);
  }

  /** If the cell differs from what it was at some point of the log, a later swap changed it. */
  lemma {:induction false} ChangeBetween(s: State, m: nat)
    requires Chained(s) && m < |s.log| && s.log[m].was != s.cell
    ensures exists j :: m <= j < |s.log| && s.log[j].was != s.log[j].now
    decreases |s.log| - m
  {
    if s.log[m].was == s.log[m].now && m + 1 < |s.log| {
      ChangeBetween(s, m + 1);
    }
  }

  // ----- counting down

  function Operands(log: seq<Swap>): nat {
    if log == [] then 0 else Operands(log[..|log| - 1]) + log[|log| - 1].op.v
  }

  lemma {:induction false} SubtractionsAddUp(log: seq<Swap>, initial: nat, final: nat, width: nat)
    requires initial < Pow2(width) && Sequential(log, initial, final, width)
    requires forall j :: 0 <= j < |log| ==> log[j].op.Sub?
    ensures final == Wrap(initial - Operands(log), width)
  {
    if log == [] {
      DivModUnique(0, initial, Pow2(width));
    } else {
      var rest, last := log[..|log| - 1], log[|log| - 1];
      SubtractionsAddUp(rest, initial, last.was, width);
      SubtractOneMore(initial - Operands(rest), last.op.v, width);
    }
  }

  lemma SubtractOneMore(a: int, v: nat, width: nat)
    ensures Wrap(Wrap(a, width) - v, width) == Wrap(a - v, width)
  {
    WrapSum(a, 0 - v, width);
  }

  /** The operands of the calls that have not returned yet. */
  function Remaining(threads: seq<Pc>): nat {
    if threads == [] then 0
    else Remaining(threads[..|threads| - 1]) + Due(threads[|threads| - 1])
  }

  function Due(pc: Pc): nat {
    if pc.Done? || !pc.op.Sub? then 0 else pc.op.v
  }

  lemma {:induction false} RemainingUpdate(threads: seq<Pc>, t: nat, pc: Pc)
    requires t < |threads|
    ensures Remaining(threads[t := pc]) == Remaining(threads) - Due(threads[t]) + Due(pc)
  {
    var n := |threads| - 1;
    if t == n {
      assert threads[t := pc][..n] == threads[..n];
    } else {
      RemainingUpdate(threads[..n], t, pc);
      assert threads[t := pc][..n] == threads[..n][t := pc];
    }
  }

  lemma {:induction false} NothingRemains(threads: seq<Pc>)
    requires forall t :: 0 <= t < |threads| ==> threads[t].Done?
    ensures Remaining(threads) == 0
  {
    if threads != [] {
      NothingRemains(threads[..|threads| - 1]);
    }
  }

  /** All calls are fetch_subs, and so are all swaps. */
  predicate OnlySubs(s: State) {
    && (forall t :: 0 <= t < |s.threads| ==> s.threads[t].op.Sub?)
    && (forall j :: 0 <= j < |s.log| ==> s.log[j].op.Sub?)
  }

  lemma StepKeepsTotal(s: State, x: Action)
    requires Fits(s) && Enabled(s, x) && OnlySubs(s)
    ensures OnlySubs(Act(s, x))
    ensures Operands(Act(s, x).log) + Remaining(Act(s, x).threads) == Operands(s.log) + Remaining(s.threads)
  {
    var s' := Act(s, x);
    RemainingUpdate(s.threads, x.t, s'.threads[x.t]);
    if x.TrySwap? && Succeeds(s, x.t) {
      assert s'.log[..|s'.log| - 1] == s.log;
    }
  }

  lemma {:induction false} RunKeepsTotal(s: State, xs: seq<Action>)
    requires Executable(s, xs) && OnlySubs(s)
    ensures var s' := After(s, xs);
      OnlySubs(s') && Operands(s'.log) + Remaining(s'.threads) == Operands(s.log) + Remaining(s.threads)
    decreases |xs|
  {
    if xs != [] {
      StepKeepsTotal(s, xs[0]);
      RunKeepsTotal(Act(s, xs[0]), xs[1..]);
    }
  }

  /** Any interleaving of fetch_subs, once all have returned, leaves the initial value minus their sum. */
  lemma FetchSubsAddUp(s0: State, initial: nat, xs: seq<Action>, s: State)
    requires Init(s0, initial) && Executable(s0, xs) && s == After(s0, xs)
    requires forall t :: 0 <= t < |s0.threads| ==> s0.threads[t].op.Sub?
    requires forall t :: 0 <= t < |s.threads| ==> s.threads[t].Done?
    ensures s.cell == Wrap(initial - Remaining(s0.threads), s.width)
  {
    RunKeepsInv(s0, xs, initial);
    RunKeepsTotal(s0, xs);
    NothingRemains(s.threads);
    assert Operands(s.log) == Remaining(s0.threads);
    SubtractionsAddUp(s.log, initial, s.cell, s.width);
  }
}
