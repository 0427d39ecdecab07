/**
 The statistics add up. A count is what the reporting loop has drained, what is in the shared
 counter, and what each worker has not flushed yet; the laws hold over every run of any
 number of threads, with corrections for operations that are half way.
 */
module CacheConservation {
  import opened CacheMachine

  // ----- sums over the threads and over the table

  /** The laws, each a linear combination of counters that some events leave alone. */
  datatype Law = WriteLaw | RetireLaw | ReadLaw | EvictLaw

  function Net(law: Law, st: Stats): int {
    match law
    case WriteLaw => st.writeOps - st.retirements
    case RetireLaw => st.retirements - st.expired - st.cleanups
    case ReadLaw => st.readOps - st.hits - st.misses - st.expired
    case EvictLaw => st.evictions
  }

  function One(b: bool): int {
    if b then 1 else 0
  }

  /** The part of the law that a thread at `pc` has brought about and not counted yet. */
  function Owed(law: Law, pc: Pc): int {
    match law
    case WriteLaw =>
      One((pc.RetireLoad? || pc.RetirePush?) && pc.op.Store?)
      - One(((pc.RetireLoad? || pc.RetirePush?) && !pc.op.Store?) || pc.Account? || pc.AccountRetired?)
    case RetireLaw =>
      One(((pc.RetireLoad? || pc.RetirePush?) && !pc.op.Store?) || pc.Account? || pc.AccountRetired?)
      - One((pc.RetireLoad? || pc.RetirePush? || pc.Account? || pc.AccountRetired?) && pc.op.Lookup?)
      - One(((pc.RetireLoad? || pc.RetirePush?) && pc.op.Sweep?) || pc.Account?)
    case ReadLaw => 0
    case EvictLaw => 0
  }

  function Weigh(law: Law, th: Thread): int {
    Net(law, th.stats) + Owed(law, th.pc)
  }

  function Sum(law: Law, threads: seq<Thread>): int {
    if threads == [] then 0
    else Sum(law, threads[..|threads| - 1]) + Weigh(law, threads[|threads| - 1])
  }

  lemma {:induction false} SumUpdate(law: Law, threads: seq<Thread>, t: nat, th: Thread)
    requires t < |threads|
    ensures Sum(law, threads[t := th]) == Sum(law, threads) - Weigh(law, threads[t]) + Weigh(law, th)
  {
    var n := |threads| - 1;
    if t == n {
      assert threads[t := th][..n] == threads[..n];
    } else {
      SumUpdate(law, threads[..n], t, th);
      assert threads[t := th][..n] == threads[..n][t := th];
    }
  }

  /** How many buckets hold a payload. */
  function LinkedCount(buckets: seq<Ptr>): nat {
    if buckets == [] then 0
    else LinkedCount(buckets[..|buckets| - 1]) + if buckets[|buckets| - 1].At? then 1 else 0
  }

  lemma {:induction false} LinkedUpdate(buckets: seq<Ptr>, i: nat, p: Ptr)
    requires i < |buckets|
    ensures LinkedCount(buckets[i := p]) == LinkedCount(buckets) - One(buckets[i].At?) + One(p.At?)
  {
    var n := |buckets| - 1;
    if i == n {
      assert buckets[i := p][..n] == buckets[..n];
    } else {
      LinkedUpdate(buckets[..n], i, p);
      assert buckets[i := p][..n] == buckets[..n][i := p];
    }
  }

  /** Everything counted so far under a law, drained, shared and local, plus what is owed. */
  function Balance(law: Law, s: State): int {
    Net(law, s.drained) + Net(law, s.shared) + Sum(law, s.threads)
  }

  /** Step `x` displaces a payload from its bucket in favour of a newly stored one. */
  ghost predicate Replaces(c: Config, s: State, x: Action)
    requires Enabled(c, s, x)
  {
    && x.Continue? && s.threads[x.t].pc.Remove? && s.threads[x.t].pc.op.Store?
    && s.buckets[Slot(c, s.threads[x.t].pc.op, s.threads[x.t].pc.k)] == At(s.threads[x.t].pc.q)
  }

  /** Step `x` displaces a payload of another key. */
  ghost predicate Evicts(c: Config, s: State, x: Action)
    requires Enabled(c, s, x)
  {
    Replaces(c, s, x) && s.blocks[s.threads[x.t].pc.q].key != s.threads[x.t].pc.op.key
  }

  /** What a step does to the quantity that a law keeps track of. */
  ghost function Change(law: Law, c: Config, s: State, x: Action): int
    requires Enabled(c, s, x)
  {
    match law
    case WriteLaw => LinkedCount(Act(c, s, x).buckets) - LinkedCount(s.buckets)
    case RetireLaw => One(Replaces(c, s, x))
    case ReadLaw => 0
    case EvictLaw => One(Evicts(c, s, x))
  }

  lemma ThreadBalance(law: Law, s: State, t: nat, th: Thread, s': State)
    requires t < |s.threads| && s'.threads == s.threads[t := th] && s'.drained == s.drained
    ensures Balance(law, s') - Balance(law, s)
         == Net(law, s'.shared) - Net(law, s.shared) + Weigh(law, th) - Weigh(law, s.threads[t])
  {
    SumUpdate(law, s.threads, t, th);
  }

  lemma LoadBalance(law: Law, c: Config, s: State, t: nat)
    requires CanRun(c, s, t) && s.threads[t].pc.Load?
    ensures Balance(law, Run(c, s, t)) - Balance(law, s) == Change(law, c, s, Continue(t))
  {
    var s' := Run(c, s, t);
    LoadWeighs(law, c, s, t);
    ThreadBalance(law, s, t, s'.threads[t], s');
  }

  lemma LoadWeighs(law: Law, c: Config, s: State, t: nat)
    requires CanRun(c, s, t) && s.threads[t].pc.Load?
    ensures var s' := Run(c, s, t);
      && s' == s.(threads := s.threads[t := s'.threads[t]], cursor := s'.cursor) && |s'.threads| == |s.threads|
      && Weigh(law, s'.threads[t]) == Weigh(law, s.threads[t])
  {
  }

  lemma InspectBalance(law: Law, c: Config, s: State, t: nat)
    requires CanRun(c, s, t) && s.threads[t].pc.Inspect?
    ensures Balance(law, Run(c, s, t)) - Balance(law, s) == Change(law, c, s, Continue(t))
  {
    var s' := Run(c, s, t);
    ThreadBalance(law, s, t, s'.threads[t], s');
  }

  lemma InsertBalance(law: Law, c: Config, s: State, t: nat)
    requires CanRun(c, s, t) && s.threads[t].pc.Insert?
    ensures Balance(law, Run(c, s, t)) - Balance(law, s) == Change(law, c, s, Continue(t))
  {
    var s' := Run(c, s, t);
    var pc := s.threads[t].pc;
    ThreadBalance(law, s, t, s'.threads[t], s');
    LinkedUpdate(s.buckets, Slot(c, pc.op, pc.k), At(pc.op.a));
  }

  lemma ReplaceBalance(law: Law, c: Config, s: State, t: nat)
    requires CanRun(c, s, t) && s.threads[t].pc.Remove? && Replaces(c, s, Continue(t))
    ensures Balance(law, Run(c, s, t)) - Balance(law, s) == Change(law, c, s, Continue(t))
  {
    var s' := Run(c, s, t);
    var pc := s.threads[t].pc;
    ThreadBalance(law, s, t, s'.threads[t], s');
    LinkedUpdate(s.buckets, Slot(c, pc.op, pc.k), At(pc.op.a));
  }

  lemma TakeOutBalance(law: Law, c: Config, s: State, t: nat)
    requires CanRun(c, s, t) && s.threads[t].pc.Remove? && !s.threads[t].pc.op.Store?
    requires s.buckets[Slot(c, s.threads[t].pc.op, s.threads[t].pc.k)] == At(s.threads[t].pc.q)
    ensures Balance(law, Run(c, s, t)) - Balance(law, s) == Change(law, c, s, Continue(t))
  {
    var s' := Run(c, s, t);
    var pc := s.threads[t].pc;
    ThreadBalance(law, s, t, s'.threads[t], s');
    LinkedUpdate(s.buckets, Slot(c, pc.op, pc.k), Null);
  }

  lemma FailedRemoveBalance(law: Law, c: Config, s: State, t: nat)
    requires CanRun(c, s, t) && s.threads[t].pc.Remove?
    requires s.buckets[Slot(c, s.threads[t].pc.op, s.threads[t].pc.k)] != At(s.threads[t].pc.q)
    ensures Balance(law, Run(c, s, t)) - Balance(law, s) == Change(law, c, s, Continue(t))
  {
    var s' := Run(c, s, t);
    ThreadBalance(law, s, t, s'.threads[t], s');
  }

  lemma RemoveBalance(law: Law, c: Config, s: State, t: nat)
    requires CanRun(c, s, t) && s.threads[t].pc.Remove? && !Replaces(c, s, Continue(t))
    ensures Balance(law, Run(c, s, t)) - Balance(law, s) == Change(law, c, s, Continue(t))
  {
    if s.buckets[Slot(c, s.threads[t].pc.op, s.threads[t].pc.k)] == At(s.threads[t].pc.q) {
      TakeOutBalance(law, c, s, t);
    } else {
      FailedRemoveBalance(law, c, s, t);
    }
  }

  /** The step of a retirement or of its accounting leaves what is counted and what is owed together the same. */
  lemma RetireWeighs(law: Law, c: Config, s: State, t: nat)
    requires CanRun(c, s, t) && (s.threads[t].pc.RetireLoad? || s.threads[t].pc.RetirePush?)
    ensures var s' := Run(c, s, t);
      && |s'.threads| == |s.threads| && s'.threads == s.threads[t := s'.threads[t]]
      && s'.drained == s.drained && s'.shared == s.shared && s'.buckets == s.buckets
      && Weigh(law, s'.threads[t]) == Weigh(law, s.threads[t])
  {
  }

  lemma RetireBalance(law: Law, c: Config, s: State, t: nat)
    requires CanRun(c, s, t) && (s.threads[t].pc.RetireLoad? || s.threads[t].pc.RetirePush?)
    ensures Balance(law, Run(c, s, t)) - Balance(law, s) == Change(law, c, s, Continue(t))
  {
    var s' := Run(c, s, t);
    RetireWeighs(law, c, s, t);
    ThreadBalance(law, s, t, s'.threads[t], s');
  }

  lemma AccountWeighs(law: Law, c: Config, s: State, t: nat)
    requires CanRun(c, s, t) && (s.threads[t].pc.Account? || s.threads[t].pc.AccountRetired?)
    ensures var s' := Run(c, s, t);
      && |s'.threads| == |s.threads| && s'.threads == s.threads[t := s'.threads[t]]
      && s'.drained == s.drained && s'.buckets == s.buckets
      && Net(law, s'.shared) + Weigh(law, s'.threads[t]) == Net(law, s.shared) + Weigh(law, s.threads[t])
  {
  }

  lemma AccountBalance(law: Law, c: Config, s: State, t: nat)
    requires CanRun(c, s, t) && (s.threads[t].pc.Account? || s.threads[t].pc.AccountRetired?)
    ensures Balance(law, Run(c, s, t)) - Balance(law, s) == Change(law, c, s, Continue(t))
  {
    var s' := Run(c, s, t);
    AccountWeighs(law, c, s, t);
    ThreadBalance(law, s, t, s'.threads[t], s');
  }

  lemma OtherBalance(law: Law, c: Config, s: State, t: nat)
    requires CanRun(c, s, t)
    requires var pc := s.threads[t].pc;
      pc.Entering? || pc.Entered? || pc.Fresh? || pc.ReadHit? || pc.GiveBack?
    ensures Balance(law, Run(c, s, t)) - Balance(law, s) == Change(law, c, s, Continue(t))
  {
    var s' := Run(c, s, t);
    ThreadBalance(law, s, t, s'.threads[t], s');
  }

  lemma RunBalance(law: Law, c: Config, s: State, t: nat)
    requires CanRun(c, s, t)
    ensures Balance(law, Run(c, s, t)) - Balance(law, s) == Change(law, c, s, Continue(t))
  {
    var pc := s.threads[t].pc;
    if pc.Load? {
      LoadBalance(law, c, s, t);
    } else if pc.Inspect? {
      InspectBalance(law, c, s, t);
    } else if pc.Insert? {
      InsertBalance(law, c, s, t);
    } else if pc.RetireLoad? || pc.RetirePush? {
      RetireBalance(law, c, s, t);
    } else if pc.Account? || pc.AccountRetired? {
      AccountBalance(law, c, s, t);
    } else if !pc.Remove? {
      OtherBalance(law, c, s, t);
    } else if Replaces(c, s, Continue(t)) {
      ReplaceBalance(law, c, s, t);
    } else {
      RemoveBalance(law, c, s, t);
    }
  }

  /** Flushing and draining only move counts. */
  lemma FlushBalance(law: Law, c: Config, s: State, x: Action)
    requires Enabled(c, s, x) && (x.Flush? || x.Drain?)
    ensures Balance(law, Act(c, s, x)) == Balance(law, s)
  {
    if x.Flush? {
      FlushedBalance(law, c, s, x.t, x.counter);
    }
  }

  lemma FlushedBalance(law: Law, c: Config, s: State, t: nat, n: Counter)
    requires Enabled(c, s, Flush(t, n))
    ensures Balance(law, Act(c, s, Flush(t, n))) == Balance(law, s)
  {
    var s' := Act(c, s, Flush(t, n));
    ThreadBalance(law, s, t, s'.threads[t], s');
  }

  lemma BeginBalance(law: Law, c: Config, s: State, x: Action)
    requires Enabled(c, s, x)
    requires x.EnterSection? || x.ExitSection? || x.BeginLookup? || x.BeginWrite? || x.BeginSweep?
    ensures Balance(law, Act(c, s, x)) == Balance(law, s) && Act(c, s, x).buckets == s.buckets
  {
    var s' := Act(c, s, x);
    ThreadBalance(law, s, x.t, s'.threads[x.t], s');
  }

  lemma DropBalance(law: Law, c: Config, s: State, t: nat)
    requires Enabled(c, s, DropNode(t))
    ensures Balance(law, Act(c, s, DropNode(t))) == Balance(law, s)
    ensures Act(c, s, DropNode(t)).buckets == s.buckets
  {
    var s' := Act(c, s, DropNode(t));
    ThreadBalance(law, s, t, s'.threads[t], s');
  }

  lemma ReclaimBalance(law: Law, c: Config, s: State, x: Action)
    requires Enabled(c, s, x)
    requires x.ReclaimBegin? || x.ReclaimLook? || x.ReclaimCompare? || x.ReclaimAdvance? || x.ReclaimFree?
          || x.ReclaimEnd?
    ensures Balance(law, Act(c, s, x)) == Balance(law, s) && Act(c, s, x).buckets == s.buckets
  {
  }

  lemma StepBalance(law: Law, c: Config, s: State, x: Action)
    requires Enabled(c, s, x)
    ensures Balance(law, Act(c, s, x)) - Balance(law, s) == Change(law, c, s, x)
  {
    if x.Continue? {
      RunBalance(law, c, s, x.t);
    } else if x.Flush? || x.Drain? {
      FlushBalance(law, c, s, x);
    } else if x.DropNode? {
      DropBalance(law, c, s, x.t);
    } else if x.EnterSection? || x.ExitSection? || x.BeginLookup? || x.BeginWrite? || x.BeginSweep? {
      BeginBalance(law, c, s, x);
    } else {
      ReclaimBalance(law, c, s, x);
    }
  }

  // ----- over whole runs

  ghost function Replacements(c: Config, s: State, xs: seq<Action>): nat
    requires Executable(c, s, xs)
    decreases |xs|
  {
    if xs == [] then 0
    else (if Replaces(c, s, xs[0]) then 1 else 0) + Replacements(c, Act(c, s, xs[0]), xs[1..])
  }

  ghost function Takeovers(c: Config, s: State, xs: seq<Action>): nat
    requires Executable(c, s, xs)
    decreases |xs|
  {
    if xs == [] then 0
    else (if Evicts(c, s, xs[0]) then 1 else 0) + Takeovers(c, Act(c, s, xs[0]), xs[1..])
  }

  lemma {:induction false} RunsBalance(c: Config, s: State, xs: seq<Action>)
    requires Executable(c, s, xs)
    ensures var s' := After(c, s, xs);
      && Balance(WriteLaw, s') - Balance(WriteLaw, s) == LinkedCount(s'.buckets) - LinkedCount(s.buckets)
      && Balance(RetireLaw, s') - Balance(RetireLaw, s) == Replacements(c, s, xs)
      && Balance(ReadLaw, s') == Balance(ReadLaw, s)
      && Balance(EvictLaw, s') - Balance(EvictLaw, s) == Takeovers(c, s, xs)
    decreases |xs|
  {
    if xs != [] {
      StepBalance(WriteLaw, c, s, xs[0]);
      StepBalance(RetireLaw, c, s, xs[0]);
      StepBalance(ReadLaw, c, s, xs[0]);
      StepBalance(EvictLaw, c, s, xs[0]);
      RunsBalance(c, Act(c, s, xs[0]), xs[1..]);
    }
  }

  lemma {:induction false} TakeoversReplace(c: Config, s: State, xs: seq<Action>)
    requires Executable(c, s, xs)
    ensures Takeovers(c, s, xs) <= Replacements(c, s, xs)
    decreases |xs|
  {
    if xs != [] {
      TakeoversReplace(c, Act(c, s, xs[0]), xs[1..]);
    }
  }

  lemma NothingCounted(law: Law)
    ensures Net(law, ZERO) == 0 && Owed(law, Outside) == 0
  {
  }

  lemma {:induction false} InitialSum(law: Law, threads: seq<Thread>)
    requires forall t :: 0 <= t < |threads| ==> threads[t].stats == ZERO && threads[t].pc == Outside
    ensures Sum(law, threads) == 0
  {
    NothingCounted(law);
    if threads != [] {
      InitialSum(law, threads[..|threads| - 1]);
    }
  }

  lemma InitialBalance(law: Law, c: Config, s: State)
    requires Init(c, s)
    ensures Balance(law, s) == 0
  {
    NothingCounted(law);
    InitialSum(law, s.threads);
  }

  lemma {:induction false} InitiallyUnlinked(buckets: seq<Ptr>)
    requires forall i :: 0 <= i < |buckets| ==> buckets[i] == Null
    ensures LinkedCount(buckets) == 0
  {
    if buckets != [] {
      InitiallyUnlinked(buckets[..|buckets| - 1]);
    }
  }

  // ----- at rest

  /** The total of one counter wherever it is: drained, shared, or still with a worker. */
  function LocalTotal(counter: Counter, threads: seq<Thread>): nat {
    if threads == [] then 0
    else LocalTotal(counter, threads[..|threads| - 1]) + threads[|threads| - 1].stats.Get(counter)
  }

  function Total(counter: Counter, s: State): nat {
    s.drained.Get(counter) + s.shared.Get(counter) + LocalTotal(counter, s.threads)
  }

  /** No thread is inside an operation. */
  predicate AtRest(s: State) {
    forall t :: 0 <= t < |s.threads| ==> s.threads[t].pc == Outside || s.threads[t].pc == Idle
  }

  lemma {:induction false} SumAtRest(threads: seq<Thread>)
    requires forall t :: 0 <= t < |threads| ==> threads[t].pc == Outside || threads[t].pc == Idle
    ensures Sum(WriteLaw, threads) == LocalTotal(Writes, threads) - LocalTotal(Retirements, threads)
    ensures Sum(RetireLaw, threads)
         == LocalTotal(Retirements, threads) - LocalTotal(Expired, threads) - LocalTotal(Cleanups, threads)
    ensures Sum(ReadLaw, threads) == LocalTotal(Reads, threads) - LocalTotal(Hits, threads)
                                   - LocalTotal(Misses, threads) - LocalTotal(Expired, threads)
    ensures Sum(EvictLaw, threads) == LocalTotal(Evictions, threads)
  {
    if threads != [] {
      SumAtRest(threads[..|threads| - 1]);
    }
  }

  /** At rest a balance is the law's combination of the totals. */
  lemma BalanceAtRest(s: State)
    requires AtRest(s)
    ensures Balance(WriteLaw, s) == Total(Writes, s) - Total(Retirements, s)
    ensures Balance(RetireLaw, s) == Total(Retirements, s) - Total(Expired, s) - Total(Cleanups, s)
    ensures Balance(ReadLaw, s) == Total(Reads, s) - Total(Hits, s) - Total(Misses, s) - Total(Expired, s)
    ensures Balance(EvictLaw, s) == Total(Evictions, s)
  {
    SumAtRest(s.threads);
  }

  lemma InitialBalances(c: Config, s: State)
    requires Init(c, s)
    ensures Balance(WriteLaw, s) == 0 && Balance(RetireLaw, s) == 0
    ensures Balance(ReadLaw, s) == 0 && Balance(EvictLaw, s) == 0
    ensures LinkedCount(s.buckets) == 0
  {
    InitialBalance(WriteLaw, c, s);
    InitialBalance(RetireLaw, c, s);
    InitialBalance(ReadLaw, c, s);
    InitialBalance(EvictLaw, c, s);
    InitiallyUnlinked(s.buckets);
  }

  /**
   At rest: every successful write is either still linked or has been retired; every
   retirement is an expired lookup, a sweeper cleanup, or a replacement by a store; every
   read was a hit, a miss, or an expired lookup; and every eviction is a replacement of another key.
   */
  lemma Conservation(c: Config, s0: State, xs: seq<Action>, s: State)
    requires Init(c, s0) && Executable(c, s0, xs) && s == After(c, s0, xs) && AtRest(s)
    ensures Total(Writes, s) == LinkedCount(s.buckets) + Total(Retirements, s)
    ensures Total(Retirements, s) == Total(Expired, s) + Total(Cleanups, s) + Replacements(c, s0, xs)
    ensures Total(Reads, s) == Total(Hits, s) + Total(Misses, s) + Total(Expired, s)
    ensures Total(Evictions, s) == Takeovers(c, s0, xs) <= Replacements(c, s0, xs)
  {
    RunsBalance(c, s0, xs);
    TakeoversReplace(c, s0, xs);
    InitialBalances(c, s0);
    BalanceAtRest(s);
  }
}
