/**
 The Windows shims of pthread_once and of the read-write lock, as state machines over their
 interlocked steps, for any number of racing threads.
 */
module PthreadOnce {

  /** Where a caller of pthread_once stands. */
  datatype Pc =
    | Calling        // about to read the control word
    | Racing         // about to compare-exchange 0 -> 1
    | Initialising   // inside the routine
    | Finishing      // routine done, about to store 2
    | Waiting        // spinning until the word is 2
    | Returned

  /** `started` and `completed` (history) count executions of the routine. */
  datatype State = State(control: nat, threads: seq<Pc>, started: nat, completed: nat)

  predicate Enabled(s: State, t: nat) {
    t < |s.threads| && !s.threads[t].Returned?
  }

  function Move(s: State, t: nat, pc: Pc): State
    requires t < |s.threads|
  {
    s.(threads := s.threads[t := pc])
  }

  function Act(s: State, t: nat): State
    requires Enabled(s, t)
  {
    match s.threads[t]
    case Calling => Move(s, t, if s.control == 2 then Returned else Racing)
    case Racing =>
      if s.control == 0 then Move(s.(control := 1, started := s.started + 1), t, Initialising)
      else Move(s, t, Waiting)
    case Initialising => Move(s.(completed := s.completed + 1), t, Finishing)
    case Finishing => Move(s.(control := 2), t, Returned)
    case Waiting => Move(s, t, if s.control == 2 then Returned else Waiting)
    case Returned => s
  }

  predicate Init(s: State) {
    && s.control == 0 && s.started == 0 && s.completed == 0
    && forall t :: 0 <= t < |s.threads| ==> s.threads[t] == Calling
  }

  ghost predicate Executable(s: State, ts: seq<nat>)
    decreases |ts|
  {
    ts == [] || (Enabled(s, ts[0]) && Executable(Act(s, ts[0]), ts[1..]))
  }

  ghost function After(s: State, ts: seq<nat>): State
    requires Executable(s, ts)
    decreases |ts|
  {
    if ts == [] then s else After(Act(s, ts[0]), ts[1..])
  }

  predicate Working(pc: Pc) {
    pc.Initialising? || pc.Finishing?
  }

  /** The control word says how far the one execution of the routine is. */
  ghost predicate Inv(s: State) {
    && s.control <= 2
    && s.started == (if s.control == 0 then 0 else 1)
    && (s.control == 0 ==> s.completed == 0)
    && (s.control == 2 ==> s.completed == 1)
    && (forall t :: 0 <= t < |s.threads| && Working(s.threads[t]) ==>
          s.control == 1 && s.completed == (if s.threads[t].Finishing? then 1 else 0))
    && (forall t, v :: 0 <= t < v < |s.threads| ==> !(Working(s.threads[t]) && Working(s.threads[v])))
    && (forall t :: 0 <= t < |s.threads| && s.threads[t].Returned? ==> s.control == 2)
  }

  lemma StepKeepsInv(s: State, t: nat)
    requires Inv(s) && Enabled(s, t)
    ensures Inv(Act(s, t))
    ensures Act(s, t).control == s.control || Act(s, t).control == s.control + 1
  {
  }

  lemma {:induction false} RunKeepsInv(s: State, ts: seq<nat>)
    requires Inv(s) && Executable(s, ts)
    ensures Inv(After(s, ts)) && After(s, ts).control >= s.control
    decreases |ts|
  {
    if ts != [] {
      StepKeepsInv(s, ts[0]);
      RunKeepsInv(Act(s, ts[0]), ts[1..]);
    }
  }

  /**
   For any number of racing callers, the routine is started at most once, every caller that has
   returned did so after it completed, and the control word only steps 0, 1, 2.
   */
  lemma OnceRunsOnce(s0: State, ts: seq<nat>, s: State, t: nat)
    requires Init(s0) && Executable(s0, ts) && s == After(s0, ts) && t < |s.threads|
    ensures s.completed <= s.started <= 1
    ensures s.threads[t].Returned? ==> s.started == 1 && s.completed == 1
    ensures Enabled(s, t) ==> s.control <= Act(s, t).control <= s.control + 1 && Act(s, t).control <= 2
  {
    RunKeepsInv(s0, ts);
    if Enabled(s, t) {
      StepKeepsInv(s, t);
    }
    RunTracksCompletion(s0, ts);
  }

  lemma {:induction false} RunTracksCompletion(s: State, ts: seq<nat>)
    requires Inv(s) && s.completed <= s.started && Executable(s, ts)
    ensures After(s, ts).completed <= After(s, ts).started
    decreases |ts|
  {
    if ts != [] {
      StepKeepsInv(s, ts[0]);
      RunTracksCompletion(Act(s, ts[0]), ts[1..]);
    }
  }

  /**
   While the control word says "in progress", some thread is between its exchange and its final
   store: nobody spins on a routine that nobody runs.
   */
  lemma SomebodyWorksWhileOthersWait(s0: State, ts: seq<nat>, s: State)
    requires Init(s0) && Executable(s0, ts) && s == After(s0, ts) && s.control == 1
    ensures exists t :: 0 <= t < |s.threads| && Working(s.threads[t])
  {
    RunKeepsWorker(s0, ts);
  }

  lemma {:induction false} RunKeepsWorker(s: State, ts: seq<nat>)
    requires Executable(s, ts)
    requires s.control == 1 ==> exists t :: 0 <= t < |s.threads| && Working(s.threads[t])
    ensures After(s, ts).control == 1 ==>
              exists t :: 0 <= t < |After(s, ts).threads| && Working(After(s, ts).threads[t])
    decreases |ts|
  {
    if ts != [] {
      var s1 := Act(s, ts[0]);
      if s1.control == 1 {
        if s.control == 1 {
          var t :| 0 <= t < |s.threads| && Working(s.threads[t]);
          assert t == ts[0] ==> s.threads[t].Initialising?;
          assert Working(s1.threads[t]);
        } else {
          assert Working(s1.threads[ts[0]]);
        }
      }
      RunKeepsWorker(s1, ts[1..]);
    }
  }
}

module PthreadRwLock {

  /** The native lock: free, held by readers, or held by one writer. */
  datatype Native = Free | SharedBy(readers: set<nat>) | ExclusiveBy(writer: nat)

  datatype Pc =
    | Out
    | GotExclusive       // native lock acquired, flag not set yet
    | Reading            // rdlock has returned
    | Writing            // wrlock has returned
    | Unlocking          // about to read the flag
    | ClearingFlag       // flag seen set, about to clear it
    | ReleasingExclusive
    | ReleasingShared

  /** `mode` (history): how a thread between lock and unlock holds the lock. */
  datatype Mode = None | AsReader | AsWriter

  datatype State = State(native: Native, flag: bool, threads: seq<Pc>, modes: seq<Mode>)

  datatype Action =
    | LockShared(t: nat)
    | LockExclusive(t: nat)
    | Unlock(t: nat)               // called by a holder
    | Continue(t: nat)

  predicate Enabled(s: State, x: Action) {
    && |s.modes| == |s.threads|
    && match x
       case LockShared(t) => t < |s.threads| && s.threads[t].Out? && !s.native.ExclusiveBy?
       case LockExclusive(t) => t < |s.threads| && s.threads[t].Out? && s.native.Free?
       case Unlock(t) => t < |s.threads| && (s.threads[t].Reading? || s.threads[t].Writing?)
       case Continue(t) =>
         && t < |s.threads|
         && !s.threads[t].Out? && !s.threads[t].Reading? && !s.threads[t].Writing?
  }

  function Readers(n: Native): set<nat> {
    if n.SharedBy? then n.readers else {}
  }

  function Share(readers: set<nat>): Native {
    if readers == {} then Free else SharedBy(readers)
  }

  function Set(s: State, t: nat, pc: Pc, mode: Mode): State
    requires t < |s.threads| == |s.modes|
  {
    s.(threads := s.threads[t := pc], modes := s.modes[t := mode])
  }

  function Act(s: State, x: Action): State
    requires Enabled(s, x)
  {
    match x
    case LockShared(t) => Set(s, t, Reading, AsReader).(native := SharedBy(Readers(s.native) + {t}))
    case LockExclusive(t) => Set(s, t, GotExclusive, AsWriter).(native := ExclusiveBy(t))
    case Unlock(t) => Set(s, t, Unlocking, s.modes[t])
    case Continue(t) =>
      match s.threads[t]
      case GotExclusive => Set(s, t, Writing, s.modes[t]).(flag := true)
      case Unlocking => Set(s, t, if s.flag then ClearingFlag else ReleasingShared, s.modes[t])
      case ClearingFlag => Set(s, t, ReleasingExclusive, s.modes[t]).(flag := false)
      case ReleasingExclusive => Set(s, t, Out, None).(native := Free)
      case ReleasingShared => Set(s, t, Out, None).(native := Share(Readers(s.native) - {t}))
      case _ => s
  }

  predicate Init(s: State) {
    && s.native == Free && !s.flag && |s.modes| == |s.threads|
    && forall t :: 0 <= t < |s.threads| ==> s.threads[t] == Out && s.modes[t] == None
  }

  ghost predicate Executable(s: State, xs: seq<Action>)
    decreases |xs|
  {
    xs == [] || (Enabled(s, xs[0]) && Executable(Act(s, xs[0]), xs[1..]))
  }

  ghost function After(s: State, xs: seq<Action>): State
    requires Executable(s, xs)
    decreases |xs|
  {
    if xs == [] then s else After(Act(s, xs[0]), xs[1..])
  }

  /** What the flag is at each point of a holder's way through the lock. */
  ghost predicate ThreadOk(s: State, t: nat)
    requires t < |s.threads| == |s.modes|
  {
    && (s.modes[t].None? <==> s.threads[t].Out?)
    && (s.modes[t].AsReader? <==> t in Readers(s.native))
    && (s.modes[t].AsWriter? <==> s.native == ExclusiveBy(t))
    && (s.threads[t].GotExclusive? || s.threads[t].Writing? ==> s.modes[t].AsWriter?)
    && (s.threads[t].ClearingFlag? || s.threads[t].ReleasingExclusive? ==> s.modes[t].AsWriter?)
    && (s.threads[t].Reading? || s.threads[t].ReleasingShared? ==> s.modes[t].AsReader?)
    && (s.modes[t].AsWriter? ==>
          s.flag == (s.threads[t].Writing? || s.threads[t].Unlocking? || s.threads[t].ClearingFlag?))
  }

  ghost predicate Inv(s: State) {
    && |s.modes| == |s.threads|
    && (forall t :: 0 <= t < |s.threads| ==> ThreadOk(s, t))
    && (!s.native.ExclusiveBy? ==> !s.flag)
    && (s.native.ExclusiveBy? ==> s.native.writer < |s.threads|)
    && (s.native.SharedBy? ==> s.native.readers != {})
  }

  lemma StepKeepsInv(s: State, x: Action)
    requires Inv(s) && Enabled(s, x)
    ensures Inv(Act(s, x))
  {
    var s' := Act(s, x);
    assert ThreadOk(s, x.t);
    forall v | 0 <= v < |s'.threads| ensures ThreadOk(s', v) {
      assert ThreadOk(s, v);
    }
  }

  lemma {:induction false} RunKeepsInv(s: State, xs: seq<Action>)
    requires Inv(s) && Executable(s, xs)
    ensures Inv(After(s, xs))
    decreases |xs|
  {
    if xs != [] {
      StepKeepsInv(s, xs[0]);
      RunKeepsInv(Act(s, xs[0]), xs[1..]);
    }
  }

  /**
   Unlock releases the mode the thread holds: in every interleaving in which only holders unlock,
   the flag a thread reads in unlock is set exactly if it holds the lock exclusively, the
   flag is clear while the lock is held shared, and each release is of the mode held.
   */
  lemma UnlockReleasesHeldMode(s0: State, xs: seq<Action>, s: State, t: nat)
    requires Init(s0) && Executable(s0, xs) && s == After(s0, xs) && t < |s.threads|
    ensures |s.modes| == |s.threads|
    ensures s.threads[t].Unlocking? ==> (s.flag <==> s.modes[t].AsWriter?)
    ensures s.native.SharedBy? ==> !s.flag
    ensures s.threads[t].ReleasingShared? ==> t in Readers(s.native)
    ensures s.threads[t].ReleasingExclusive? ==> s.native == ExclusiveBy(t)
  {
    assert Inv(s0) by {
      assert forall v :: 0 <= v < |s0.threads| ==> ThreadOk(s0, v);
    }
    RunKeepsInv(s0, xs);
    assert ThreadOk(s, t);
  }

  /** Readers and a writer never hold the lock together, and two writers never do. */
  lemma Exclusion(s0: State, xs: seq<Action>, s: State, t: nat, v: nat)
    requires Init(s0) && Executable(s0, xs) && s == After(s0, xs)
    requires t < |s.threads| && v < |s.threads| && t != v && s.threads[t].Writing?
    ensures s.threads[v].Out?
  {
    assert Inv(s0) by {
      assert forall w :: 0 <= w < |s0.threads| ==> ThreadOk(s0, w);
    }
    RunKeepsInv(s0, xs);
    assert ThreadOk(s, t) && ThreadOk(s, v);
  }
}
