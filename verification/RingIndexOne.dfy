/**
 Slots 0 and 1 share id 1, so the rotation that reuses slot 0 can take an entry of index 1 with it.
 Exactly when, in any run.
 */
module RingIndexOne {
  import opened Words
  import opened RingMachine
  import opened RingInvariant
  import opened RingSafety

  /** Some steps that do not touch the key, up to the rotation to max_epochs at the latest, take its entry out. */
  ghost predicate CanGoEarly(c: Config, s: State, key: nat) {
    exists ys: seq<Action> :: Executable(c, s, ys) && Untouched(c, s, ys, key)
      && Turn(After(c, s, ys)) <= c.epochs && key !in After(c, s, ys).entries
  }

  lemma GoesAfter(c: Config, s: State, x: Action, key: nat)
    requires Enabled(c, s, x) && !Touches(c, s, x, key) && CanGoEarly(c, Act(c, s, x), key)
    ensures CanGoEarly(c, s, key)
  {
    var s1 := Act(c, s, x);
    var ys: seq<Action> :| Executable(c, s1, ys) && Untouched(c, s1, ys, key)
      && Turn(After(c, s1, ys)) <= c.epochs && key !in After(c, s1, ys).entries;
    var all := [x] + ys;
    assert all[1..] == ys;
    assert Executable(c, s, all) && Untouched(c, s, all, key) && After(c, s, all) == After(c, s1, ys);
  }

  /** An entry of index 1 whose key slot 0 lists, ahead of the rotation to max_epochs; no GET is under way. */
  ghost predicate Waiting(c: Config, s: State, key: nat) {
    && Base(c, s) && s.reading == multiset{} && key in s.entries && s.entries[key] < |s.traces|
    && IndexOf(s, key) == 1 && ZeroAhead(c, s, key) && Lists(c, s, 0, key)
  }

  /** Before the rotation to max_epochs, slots are used one after the other and slot 0 serves index 0. */
  lemma FirstRound(c: Config, s: State, i: nat)
    requires Sized(c, s) && SlotsOk(c, s) && Top(s) < c.epochs && i < c.epochs
    ensures i <= Top(s) ==> s.slots[i].index == i
    ensures i > Top(s) ==> s.slots[i].id == 0
  {
    if s.slots[i].index >= 0 {
      DivModUnique(0, s.slots[i].index, c.epochs);
    }
  }

  /** The item carries id 1, which is also that of slot 0. */
  lemma SharesId(c: Config, s: State, key: nat)
    requires Waiting(c, s, key)
    ensures s.epochOf[s.entries[key]] == 1
  {
    var x := s.entries[key];
    DivModUnique(0, 1, c.epochs);
    assert s.traces[x].slot == 1;
    FirstRound(c, s, 1);
  }

  /** The step in which the entry goes. */
  lemma GoesNow(c: Config, s: State, key: nat)
    requires Waiting(c, s, key) && s.rotation == Cleaning(c.epochs, key % c.shards)
    ensures CanGoEarly(c, s, key)
  {
    SharesId(c, s, key);
    FirstRound(c, s, 0);
    DivModUnique(1, 0, c.epochs);
    var s1 := Act(c, s, CleanOne);
    assert key !in s1.entries;
    var none: seq<Action> := [];
    assert Executable(c, s1, none) && Untouched(c, s1, none, key) && After(c, s1, none) == s1;
    GoesAfter(c, s, CleanOne, key);
  }

  lemma BeginKeepsWaiting(c: Config, s: State, key: nat)
    requires Waiting(c, s, key) && s.rotation.NotRotating?
    ensures Waiting(c, Act(c, s, BeginRotation), key)
    ensures Act(c, s, BeginRotation).current == s.current && !Act(c, s, BeginRotation).rotation.NotRotating?
  {
    var s1 := Act(c, s, BeginRotation);
    StepKeepsBase(c, s, BeginRotation);
    if s.current + 1 == c.epochs {
      DivModUnique(1, 0, c.epochs);
      FirstRound(c, s, 0);
      assert s1.rotation == Cleaning(c.epochs, 0);
    }
  }

  lemma CleanKeepsWaiting(c: Config, s: State, key: nat)
    requires Waiting(c, s, key) && s.rotation.Cleaning? && s.rotation.shard < c.shards
    requires s.rotation != Cleaning(c.epochs, key % c.shards)
    ensures Enabled(c, s, CleanOne) && Waiting(c, Act(c, s, CleanOne), key)
  {
    StepKeepsBase(c, s, CleanOne);
    EntryLeaves(c, s, CleanOne, key);
    if s.rotation.next < c.epochs {
      DivModUnique(0, s.rotation.next, c.epochs);
    }
  }

  lemma LaterKeepsWaiting(c: Config, s: State, x: Action, key: nat)
    requires Waiting(c, s, key) && Enabled(c, s, x) && (x.FreeItems? || x.Rename? || x.Publish?)
    ensures Waiting(c, Act(c, s, x), key)
  {
    StepKeepsBase(c, s, x);
    EntryLeaves(c, s, x, key);
  }

  /** Steps left in the present rotation. */
  function StepsLeft(c: Config, s: State): int {
    match s.rotation
    case NotRotating => c.shards + 4
    case Cleaning(_, shard) => c.shards + 3 - shard
    case Renaming(_) => 2
    case Publishing(_) => 1
  }

  /** The step the rotation takes next. */
  function NextStep(c: Config, s: State): Action {
    match s.rotation
    case NotRotating => BeginRotation
    case Cleaning(_, shard) => if shard < c.shards then CleanOne else FreeItems
    case Renaming(_) => Rename
    case Publishing(_) => Publish
  }

  lemma WaitsOn(c: Config, s: State, key: nat)
    requires Waiting(c, s, key) && s.rotation != Cleaning(c.epochs, key % c.shards)
    ensures Enabled(c, s, NextStep(c, s)) && Waiting(c, Act(c, s, NextStep(c, s)), key)
  {
    match NextStep(c, s)
    case BeginRotation => BeginKeepsWaiting(c, s, key);
    case CleanOne => CleanKeepsWaiting(c, s, key);
    case _ => LaterKeepsWaiting(c, s, NextStep(c, s), key);
  }

  lemma RotationGetsOn(c: Config, s: State)
    requires Sized(c, s) && SlotsOk(c, s) && Enabled(c, s, NextStep(c, s))
    ensures var s' := Act(c, s, NextStep(c, s));
      s'.current > s.current || (s'.current == s.current && StepsLeft(c, s') < StepsLeft(c, s))
  {
  }

  /** The rotations run on, one after the other, until the entry goes. */
  lemma {:induction false} WaitingGoes(c: Config, s: State, key: nat)
    requires Waiting(c, s, key)
    ensures CanGoEarly(c, s, key)
    decreases c.epochs - s.current, StepsLeft(c, s)
  {
    if s.rotation == Cleaning(c.epochs, key % c.shards) {
      GoesNow(c, s, key);
    } else {
      var x := NextStep(c, s);
      WaitsOn(c, s, key);
      RotationGetsOn(c, s);
      WaitingGoes(c, Act(c, s, x), key);
      GoesAfter(c, s, x, key);
    }
  }

  /** First the GETs read their items and a SET that is about to list the key does so. */
  lemma {:induction false} RiskGoes(c: Config, s: State, key: nat)
    requires Base(c, s) && key in s.entries && s.entries[key] < |s.traces| && IndexOf(s, key) == 1 && AtRisk(c, s, key)
    ensures CanGoEarly(c, s, key)
    decreases |s.reading|
  {
    if s.reading != multiset{} {
      var look :| look in s.reading;
      StepKeepsBase(c, s, GetRead(look));
      RiskGoes(c, Act(c, s, GetRead(look)), key);
      GoesAfter(c, s, GetRead(look), key);
    } else if Lists(c, s, 0, key) {
      WaitingGoes(c, s, key);
    } else {
      ListingGoes(c, s, key);
    }
  }

  lemma ListingGoes(c: Config, s: State, key: nat)
    requires Base(c, s) && key in s.entries && s.entries[key] < |s.traces| && IndexOf(s, key) == 1
    requires ZeroAhead(c, s, key) && AboutToList(s, 0, key) && s.reading == multiset{}
    ensures CanGoEarly(c, s, key)
  {
    var t :| 0 <= t < |s.threads| && s.threads[t].Inserted? && s.threads[t].slot == 0 && s.threads[t].key == key;
    StepKeepsBase(c, s, RecordKey(t));
    EntryLeaves(c, s, RecordKey(t), key);
    KeyIsListed(c, s, t);
    WaitingGoes(c, Act(c, s, RecordKey(t)), key);
    GoesAfter(c, s, RecordKey(t), key);
  }

  /**
   In every run: an entry of index 1, if nobody writes or deletes its key, can be lost before the
   rotation a turn after it if and only if slot 0 lists the key, or is about to, and is still to
   be cleaned of it.
   */
  lemma IndexOneGoesExactly(c: Config, s0: State, xs: seq<Action>, s: State, key: nat)
    requires Reached(c, s0, xs, s) && key in s.entries && s.entries[key] < |s.traces| && IndexOf(s, key) == 1
    ensures Sized(c, s) && (CanGoEarly(c, s, key) <==> AtRisk(c, s, key))
  {
    ReachedBase(c, s0, xs, s);
    if AtRisk(c, s, key) {
      RiskGoes(c, s, key);
    } else if CanGoEarly(c, s, key) {
      var ys: seq<Action> :| Executable(c, s, ys) && Untouched(c, s, ys, key)
        && Turn(After(c, s, ys)) <= c.epochs && key !in After(c, s, ys).entries;
      Retained(c, s, ys, key);
    }
  }
}
