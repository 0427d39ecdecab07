/**
 Exactly when a rotation may begin so that no entry ever dangles, and a run that shows that an
 entry of index 1 can be lost one rotation early.
 */
module RingLimits {
  import opened RingMachine
  import opened RingInvariant
  import opened RingSafety

  ghost predicate Dangles(s: State) {
    exists key :: key in s.entries && s.entries[key] < |s.frees| && s.frees[s.entries[key]] > 0
  }

  /** Some run that begins rotations only where `guard` admits it leads from `s` to `s'`. */
  ghost predicate Leads(guard: (Config, State) -> bool, c: Config, s: State, s': State) {
    exists xs: seq<Action> :: Executable(c, s, xs) && Guarded(c, s, xs, guard) && After(c, s, xs) == s'
  }

  lemma LeadsNowhere(guard: (Config, State) -> bool, c: Config, s: State)
    ensures Leads(guard, c, s, s)
  {
    assert Executable(c, s, []) && Guarded(c, s, [], guard) && After(c, s, []) == s;
  }

  lemma {:induction false} AppendStep(guard: (Config, State) -> bool, c: Config, s: State, xs: seq<Action>, x: Action)
    requires Executable(c, s, xs) && Guarded(c, s, xs, guard) && Enabled(c, After(c, s, xs), x)
    requires x.BeginRotation? ==> guard(c, After(c, s, xs))
    ensures Executable(c, s, xs + [x]) && Guarded(c, s, xs + [x], guard)
    ensures After(c, s, xs + [x]) == Act(c, After(c, s, xs), x)
    decreases |xs|
  {
    if xs == [] {
      assert xs + [x] == [x];
      assert [x][1..] == [];
    } else {
      AppendStep(guard, c, Act(c, s, xs[0]), xs[1..], x);
      assert (xs + [x])[1..] == xs[1..] + [x];
    }
  }

  lemma Hop(guard: (Config, State) -> bool, c: Config, s0: State, s: State, x: Action, s': State)
    requires Leads(guard, c, s0, s) && Enabled(c, s, x) && (x.BeginRotation? ==> guard(c, s)) && Act(c, s, x) == s'
    ensures Leads(guard, c, s0, s')
  {
    var xs: seq<Action> :| Executable(c, s0, xs) && Guarded(c, s0, xs, guard) && After(c, s0, xs) == s;
    AppendStep(guard, c, s0, xs, x);
  }

  // ----- a rotation that begins in a state that is not clear can leave a dangling entry

  /** What will be left behind: an entry the rotation does not look up, or a SET that has listed its item. */
  datatype Doom = ByEntry(key: nat, x: nat) | BySet(t: nat, x: nat)

  ghost predicate Doomed(c: Config, s: State, d: Doom) {
    && Base(c, s) && s.rotation.Cleaning? && d.x in Target(c, s).items && s.reading == multiset{}
    && match d
       case ByEntry(key, x) =>
         && key in s.entries && s.entries[key] == x
         && (s.rotation.shard < c.shards ==> !Lists(c, s, Ring(c, s.rotation.next), key))
       case BySet(t, x) => t < |s.threads| && s.threads[t].Recorded? && s.threads[t].x == x
  }

  lemma CleanKeepsDoom(c: Config, s: State, d: Doom)
    requires Doomed(c, s, d) && s.rotation.shard < c.shards
    ensures Enabled(c, s, CleanOne) && Doomed(c, Act(c, s, CleanOne), d)
  {
    StepKeepsBase(c, s, CleanOne);
  }

  lemma InsertKeepsDoom(c: Config, s: State, d: Doom)
    requires Doomed(c, s, d) && d.BySet? && s.rotation.shard == c.shards
    ensures Enabled(c, s, InsertEntry(d.t)) && Doomed(c, Act(c, s, InsertEntry(d.t)), ByEntry(s.threads[d.t].key, d.x))
  {
    StepKeepsBase(c, s, InsertEntry(d.t));
  }

  lemma FreeDangles(c: Config, s: State, d: Doom)
    requires Doomed(c, s, d) && d.ByEntry? && s.rotation.shard == c.shards
    ensures Enabled(c, s, FreeItems) && Dangles(Act(c, s, FreeItems))
  {
    FreeItemsOnce(c, s, d.x);
    assert d.key in Act(c, s, FreeItems).entries;
  }

  /** The doomed rotation runs through all shards to the bulk free. */
  lemma {:induction false} DoomComes(guard: (Config, State) -> bool, c: Config, s0: State, s: State, d: Doom)
    requires Leads(guard, c, s0, s) && Doomed(c, s, d)
    ensures exists s' :: Leads(guard, c, s0, s') && Dangles(s')
    decreases c.shards - s.rotation.shard, d.BySet?
  {
    if s.rotation.shard < c.shards {
      CleanKeepsDoom(c, s, d);
      Hop(guard, c, s0, s, CleanOne, Act(c, s, CleanOne));
      DoomComes(guard, c, s0, Act(c, s, CleanOne), d);
    } else if d.BySet? {
      InsertKeepsDoom(c, s, d);
      var s1 := Act(c, s, InsertEntry(d.t));
      Hop(guard, c, s0, s, InsertEntry(d.t), s1);
      DoomComes(guard, c, s0, s1, ByEntry(s.threads[d.t].key, d.x));
    } else {
      FreeDangles(c, s, d);
      Hop(guard, c, s0, s, FreeItems, Act(c, s, FreeItems));
    }
  }

  /** All GETs come to their end. */
  lemma {:induction false} GetsEnd(guard: (Config, State) -> bool, c: Config, s0: State, s: State)
    requires Leads(guard, c, s0, s) && Sized(c, s)
    ensures Leads(guard, c, s0, s.(reading := multiset{}))
    decreases |s.reading|
  {
    if s.reading != multiset{} {
      var look :| look in s.reading;
      var s1 := s.(reading := s.reading - multiset{look});
      Hop(guard, c, s0, s, GetRead(look), s1);
      GetsEnd(guard, c, s0, s1);
    } else {
      assert s == s.(reading := multiset{});
    }
  }

  /** A SET on its way to an entry on the slot being cleaned can record its item there before the bulk free. */
  lemma {:induction false} SetIsDoomed(guard: (Config, State) -> bool, c: Config, s0: State, s: State, t: nat)
    requires Leads(guard, c, s0, s) && Base(c, s) && s.rotation.Cleaning? && s.reading == multiset{}
    requires t < |s.threads| && Underway(s.threads[t], Ring(c, s.rotation.next))
    requires s.threads[t].Recorded? ==> s.threads[t].x in Target(c, s).items
    ensures exists s' :: Leads(guard, c, s0, s') && Dangles(s')
    decreases if s.threads[t].Chosen? then 2 else if s.threads[t].Made? then 1 else 0
  {
    if s.threads[t].Chosen? {
      StepKeepsBase(c, s, Make(t));
      Hop(guard, c, s0, s, Make(t), Act(c, s, Make(t)));
      SetIsDoomed(guard, c, s0, Act(c, s, Make(t)), t);
    } else if s.threads[t].Made? {
      assert CallOk(c, s, t);
      StepKeepsBase(c, s, RecordItem(t));
      ItemIsRecorded(c, s, t);
      Hop(guard, c, s0, s, RecordItem(t), Act(c, s, RecordItem(t)));
      SetIsDoomed(guard, c, s0, Act(c, s, RecordItem(t)), t);
    } else {
      DoomComes(guard, c, s0, s, BySet(t, s.threads[t].x));
    }
  }

  lemma ItemIsRecorded(c: Config, s: State, t: nat)
    requires Enabled(c, s, RecordItem(t)) && s.rotation.Cleaning? && s.threads[t].slot == Ring(c, s.rotation.next)
    ensures s.threads[t].x in Target(c, Act(c, s, RecordItem(t))).items
  {
    var s' := Act(c, s, RecordItem(t));
    assert Target(c, s').items == Target(c, s).items + [s.threads[t].x];
  }

  lemma UnclearIsUsed(c: Config, s: State)
    requires Inv(c, s) && s.rotation.NotRotating? && !Clear(c, s)
    ensures s.slots[Ring(c, s.current + 1)].index >= 0
  {
    var i := Ring(c, s.current + 1);
    if t :| 0 <= t < |s.threads| && Underway(s.threads[t], i) {
      assert SetOk(c, s, t) && CallOk(c, s, t);
    }
  }

  /** The slot that is next has been in use, so beginning its rotation starts with cleaning. */
  lemma BeginsCleaning(c: Config, s: State)
    requires Inv(c, s) && s.rotation.NotRotating? && !Clear(c, s)
    ensures Act(c, s, BeginRotation) == s.(rotation := Cleaning(s.current + 1, 0))
    ensures Base(c, s.(rotation := Cleaning(s.current + 1, 0), reading := multiset{}))
  {
    UnclearIsUsed(c, s);
    StepKeepsBase(c, s, BeginRotation);
    GetsAside(c, Act(c, s, BeginRotation));
  }

  lemma GetsAside(c: Config, s: State)
    requires Base(c, s)
    ensures Base(c, s.(reading := multiset{}))
  {
    var s' := s.(reading := multiset{});
    assert forall v :: 0 <= v < |s.threads| ==> (CallOk(c, s, v) <==> CallOk(c, s', v));
  }

  lemma EntryIsDoomed(guard: (Config, State) -> bool, c: Config, s0: State, s: State, key: nat)
    requires Leads(guard, c, s0, s) && Base(c, s) && s.rotation.Cleaning? && key in s.entries
    requires s.reading == multiset{}
    requires s.entries[key] in Target(c, s).items && !Lists(c, s, Ring(c, s.rotation.next), key)
    ensures exists s' :: Leads(guard, c, s0, s') && Dangles(s')
  {
    DoomComes(guard, c, s0, s, ByEntry(key, s.entries[key]));
  }

  lemma RecordedIsListed(c: Config, s: State, t: nat)
    requires Inv(c, s) && t < |s.threads| && s.threads[t].Recorded?
    ensures s.threads[t].slot < c.epochs && s.threads[t].x in s.slots[s.threads[t].slot].items
  {
    assert SetOk(c, s, t);
  }

  lemma UnderwayDangles(guard: (Config, State) -> bool, c: Config, s0: State, s: State, s1: State, t: nat)
    requires Inv(c, s) && Base(c, s1) && Leads(guard, c, s0, s1)
    requires s1 == s.(rotation := Cleaning(s.current + 1, 0), reading := multiset{})
    requires t < |s.threads| && Underway(s.threads[t], Ring(c, s.current + 1))
    ensures exists s' :: Leads(guard, c, s0, s') && Dangles(s')
  {
    if s.threads[t].Recorded? {
      RecordedIsListed(c, s, t);
    }
    SetIsDoomed(guard, c, s0, s1, t);
  }

  lemma UnclearDangles(guard: (Config, State) -> bool, c: Config, s0: State, s: State)
    requires Inv(c, s) && s.rotation.NotRotating? && !Clear(c, s)
    requires Leads(guard, c, s0, Act(c, s, BeginRotation))
    ensures exists s' :: Leads(guard, c, s0, s') && Dangles(s')
  {
    var i := Ring(c, s.current + 1);
    var s1 := s.(rotation := Cleaning(s.current + 1, 0), reading := multiset{});
    BeginsCleaning(c, s);
    GetsEnd(guard, c, s0, Act(c, s, BeginRotation));
    if t :| 0 <= t < |s.threads| && Underway(s.threads[t], i) {
      UnderwayDangles(guard, c, s0, s, s1, t);
    } else {
      var key :| key in s.entries && s.entries[key] in s.slots[i].items && !Lists(c, s, i, key);
      EntryIsDoomed(guard, c, s0, s1, key);
    }
  }

  // ----- so the clear states are exactly those in which a rotation may begin

  lemma ClearNeverDangles(c: Config, s: State, xs: seq<Action>)
    requires Inv(c, s) && Executable(c, s, xs) && Guarded(c, s, xs, Clear)
    ensures !Dangles(After(c, s, xs))
  {
    RunKeepsInv(c, s, xs);
    var s' := After(c, s, xs);
    forall key | key in s'.entries ensures s'.frees[s'.entries[key]] == 0 {
      assert EntryOk(c, s', key);
    }
  }

  /**
   At each state that clear beginnings reach, for every size of the ring: a rotation that begins here can, with clear
   beginnings after it, still lead to a dangling entry if and only if the state is not clear.
   */
  lemma ClearIsExact(c: Config, s0: State, xs: seq<Action>, s: State)
    requires ReachedClear(c, s0, xs, s) && s.rotation.NotRotating?
    ensures Enabled(c, s, BeginRotation)
    ensures (exists s' :: Leads(Clear, c, Act(c, s, BeginRotation), s') && Dangles(s')) <==> !Clear(c, s)
  {
    ReachedInv(c, s0, xs, s);
    var s1 := Act(c, s, BeginRotation);
    if Clear(c, s) {
      StepKeepsInv(c, s, BeginRotation);
      forall s' | Leads(Clear, c, s1, s') ensures !Dangles(s') {
        var ys: seq<Action> :| Executable(c, s1, ys) && Guarded(c, s1, ys, Clear) && After(c, s1, ys) == s';
        ClearNeverDangles(c, s1, ys);
      }
    } else {
      LeadsNowhere(Clear, c, s1);
      UnclearDangles(Clear, c, s1, s);
    }
  }

  // ----- and every discipline is safe exactly if it keeps to them

  /** No run that begins rotations only where `guard` admits it ever has a dangling entry. */
  ghost predicate NeverDangles(guard: (Config, State) -> bool) {
    forall c: Config, s0: State, s: State :: Init(c, s0) && Leads(guard, c, s0, s) ==> !Dangles(s)
  }

  /** Wherever its own runs let it begin a rotation, the state is clear. */
  ghost predicate KeepsClear(guard: (Config, State) -> bool) {
    forall c: Config, s0: State, s: State ::
      Init(c, s0) && Leads(guard, c, s0, s) && s.rotation.NotRotating? && guard(c, s) ==> Clear(c, s)
  }

  lemma {:induction false} ClearThroughout(
    guard: (Config, State) -> bool, c: Config, s0: State, s: State, xs: seq<Action>)
    requires KeepsClear(guard) && Init(c, s0) && Leads(guard, c, s0, s) && Inv(c, s)
    requires Executable(c, s, xs) && Guarded(c, s, xs, guard)
    ensures Guarded(c, s, xs, Clear)
    decreases |xs|
  {
    if xs != [] {
      StepKeepsInv(c, s, xs[0]);
      Hop(guard, c, s0, s, xs[0], Act(c, s, xs[0]));
      ClearThroughout(guard, c, s0, Act(c, s, xs[0]), xs[1..]);
    }
  }

  /** The first beginning that is not clear, if only the last state shows one, dangles. */
  lemma {:induction false} FirstMistakeDangles(
    guard: (Config, State) -> bool, c: Config, s0: State, s: State, xs: seq<Action>)
    requires Leads(guard, c, s0, s) && Inv(c, s) && Executable(c, s, xs) && Guarded(c, s, xs, guard)
    requires var s' := After(c, s, xs); s'.rotation.NotRotating? && guard(c, s') && !Clear(c, s')
    ensures exists s' :: Leads(guard, c, s0, s') && Dangles(s')
    decreases |xs|
  {
    if xs == [] {
      Hop(guard, c, s0, s, BeginRotation, Act(c, s, BeginRotation));
      UnclearDangles(guard, c, s0, s);
    } else {
      Hop(guard, c, s0, s, xs[0], Act(c, s, xs[0]));
      if xs[0].BeginRotation? && !Clear(c, s) {
        UnclearDangles(guard, c, s0, s);
      } else {
        StepKeepsInv(c, s, xs[0]);
        FirstMistakeDangles(guard, c, s0, Act(c, s, xs[0]), xs[1..]);
      }
    }
  }

  /**
   A discipline for beginning rotations, whatever it is, keeps entries from dangling if and only if it
   keeps to clear states.
   */
  lemma DisciplineIsExact(guard: (Config, State) -> bool)
    ensures NeverDangles(guard) <==> KeepsClear(guard)
  {
    if KeepsClear(guard) {
      forall c: Config, s0: State, s: State | Init(c, s0) && Leads(guard, c, s0, s) ensures !Dangles(s) {
        var xs: seq<Action> :| Executable(c, s0, xs) && Guarded(c, s0, xs, guard) && After(c, s0, xs) == s;
        InitInv(c, s0);
        LeadsNowhere(guard, c, s0);
        ClearThroughout(guard, c, s0, s0, xs);
        ClearNeverDangles(c, s0, xs);
      }
    } else {
      var c: Config, s0: State, s: State :|
        Init(c, s0) && Leads(guard, c, s0, s) && s.rotation.NotRotating? && guard(c, s) && !Clear(c, s);
      var xs: seq<Action> :| Executable(c, s0, xs) && Guarded(c, s0, xs, guard) && After(c, s0, xs) == s;
      InitInv(c, s0);
      LeadsNowhere(guard, c, s0);
      FirstMistakeDangles(guard, c, s0, s0, xs);
    }
  }

  // ----- the same holds of what GETs read

  /** Some GET is about to read an item that has been freed. */
  ghost predicate ReadsFreed(s: State) {
    exists look :: look in s.reading && look.x < |s.frees| && s.frees[look.x] > 0
  }

  ghost predicate NeverReadsFreed(guard: (Config, State) -> bool) {
    forall c: Config, s0: State, s: State :: Init(c, s0) && Leads(guard, c, s0, s) ==> !ReadsFreed(s)
  }

  lemma LeadsToBase(guard: (Config, State) -> bool, c: Config, s0: State, s: State)
    requires Init(c, s0) && Leads(guard, c, s0, s)
    ensures Base(c, s)
  {
    var xs: seq<Action> :| Executable(c, s0, xs) && Guarded(c, s0, xs, guard) && After(c, s0, xs) == s;
    InitBase(c, s0);
    RunKeepsBase(c, s0, xs);
  }

  /** No GET ever reads a freed item if and only if rotations keep to clear states. */
  lemma ReadsAreExact(guard: (Config, State) -> bool)
    ensures NeverReadsFreed(guard) <==> KeepsClear(guard)
  {
    DisciplineIsExact(guard);
    if NeverDangles(guard) {
      forall c: Config, s0: State, s: State | Init(c, s0) && Leads(guard, c, s0, s) ensures !ReadsFreed(s) {
        LeadsToBase(guard, c, s0, s);
      }
    } else {
      var c: Config, s0: State, s: State :| Init(c, s0) && Leads(guard, c, s0, s) && Dangles(s);
      LeadsToBase(guard, c, s0, s);
      var key :| key in s.entries && s.entries[key] < |s.frees| && s.frees[s.entries[key]] > 0;
      var s' := Act(c, s, GetFind(key));
      Hop(guard, c, s0, s, GetFind(key), s');
      assert Look(key, s.entries[key]) in s'.reading;
    }
  }

  // ----- waiting for all SETs is enough; beginning by the clock alone is not

  lemma OrderlyIsClear(c: Config, s: State)
    requires Inv(c, s) && Orderly(c, s)
    ensures Clear(c, s)
  {
    var i := Ring(c, s.current + 1);
    forall key | key in s.entries && s.entries[key] in s.slots[i].items ensures Lists(c, s, i, key) {
      assert EntryOk(c, s, key);
    }
  }

  lemma {:induction false} OrderlyThroughout(c: Config, s: State, xs: seq<Action>)
    requires Inv(c, s) && Executable(c, s, xs) && Guarded(c, s, xs, Orderly)
    ensures Guarded(c, s, xs, Clear)
    decreases |xs|
  {
    if xs != [] {
      if xs[0].BeginRotation? {
        OrderlyIsClear(c, s);
      }
      StepKeepsInv(c, s, xs[0]);
      OrderlyThroughout(c, Act(c, s, xs[0]), xs[1..]);
    }
  }

  lemma WaitingIsEnough()
    ensures NeverDangles(Orderly)
  {
    forall c: Config, s0: State, s: State | Init(c, s0) && Leads(Orderly, c, s0, s) ensures !Dangles(s) {
      var xs: seq<Action> :| Executable(c, s0, xs) && Guarded(c, s0, xs, Orderly) && After(c, s0, xs) == s;
      InitInv(c, s0);
      OrderlyThroughout(c, s0, xs);
      ClearNeverDangles(c, s0, xs);
    }
  }

  /** The program's own discipline: any time. */
  ghost predicate ByTheClock(c: Config, s: State) {
    true
  }

  const UNUSED: Slot := Slot(0, [], [[]], -1)

  /** A rotation onto a slot that was never used only renames it. */
  lemma FirstTurn(guard: (Config, State) -> bool, c: Config, s0: State, s: State, next: nat)
    requires Sized(c, s) && Leads(guard, c, s0, s) && s.rotation == NotRotating && guard(c, s)
    requires s.current + 1 == next < c.epochs && s.slots[next].id == 0
    ensures Leads(guard, c, s0,
                  s.(slots := s.slots[next := s.slots[next].(id := next, index := next)], current := next))
  {
    assert Ring(c, next) == next;
    var s1 := s.(rotation := Renaming(next));
    Hop(guard, c, s0, s, BeginRotation, s1);
    var s2 := s1.(slots := s.slots[next := s.slots[next].(id := next, index := next)], rotation := Publishing(next));
    Hop(guard, c, s0, s1, Rename, s2);
    Hop(guard, c, s0, s2, Publish, s2.(current := next, rotation := NotRotating));
  }

  /** A SET that has picked slot 0 sleeps while the ring goes round to it. */
  lemma ClockDangles()
    ensures !NeverDangles(ByTheClock)
  {
    var c := Config(2, 1);
    var s0 := State(map[], [], [], [], [Slot(1, [], [[]], 0), UNUSED], 0, NotRotating, [Ready], multiset{});
    var s1 := s0.(threads := [Chosen(0, 0, 7)]);
    var s2 := s1.(slots := [Slot(1, [], [[]], 0), Slot(1, [], [[]], 1)], current := 1);
    LeadsNowhere(ByTheClock, c, s0);
    Hop(ByTheClock, c, s0, s0, Choose(0, 7), s1);
    FirstTurn(ByTheClock, c, s0, s1, 1);
    assert s1.slots[1 := s1.slots[1].(id := 1, index := 1)] == s2.slots;
    assert Ring(c, 2) == 0;
    assert Underway(s2.threads[0], 0) && !Clear(c, s2);
    assert Init(c, s0);
    DisciplineIsExact(ByTheClock);
  }

  // ----- index 1 shares its id with index 0, even when rotations wait

  function Four(): Config {
    Config(4, 1)
  }

  function Start(): State {
    State(map[], [], [], [], [Slot(1, [], [[]], 0), UNUSED, UNUSED, UNUSED], 0, NotRotating, [Ready], multiset{})
  }

  function Served(index: nat, items: seq<nat>, keys: seq<nat>): Slot {
    Slot(IdOf(index), items, [keys], index)
  }

  /** Key 7 was SET at index 0 and again at index 1; the second entry is in the map. */
  function SetTwice(slots: seq<Slot>, current: nat): State {
    State(map[7 := 1], [1, 1], [0, 0], [Trace(0, 0, Listed), Trace(1, 1, Listed)], slots, current, NotRotating, [Ready],
          multiset{})
  }

  /** The item of a SET of key 7 is on the list of slot i, and its entry is not in the map yet. */
  function HalfSet(s: State, i: nat): State
    requires i < |s.slots|
  {
    var x := |s.epochOf|;
    s.(epochOf := s.epochOf + [IdOf(i)], frees := s.frees + [0], traces := s.traces + [Trace(i, i, Listed)],
       slots := s.slots[i := Served(i, [x], [])], threads := [Recorded(i, i, 7, x)])
  }

  lemma FirstHalf(s: State, i: nat)
    requires Sized(Four(), s) && Leads(Orderly, Four(), Start(), s)
    requires s.rotation == NotRotating && s.threads == [Ready] && s.current == i < 4
    requires s.slots[i] == Served(i, [], [])
    ensures Leads(Orderly, Four(), Start(), HalfSet(s, i))
  {
    var c := Four();
    var x := |s.epochOf|;
    var s1 := s.(threads := [Chosen(i, i, 7)]);
    Hop(Orderly, c, Start(), s, Choose(0, 7), s1);
    var s2 := s.(epochOf := s.epochOf + [IdOf(i)], frees := s.frees + [0], traces := s.traces + [Trace(i, i, Held(0))],
                 threads := [Made(i, i, 7, x)]);
    Hop(Orderly, c, Start(), s1, Make(0), s2);
    var none: seq<nat> := [];
    assert none + [x] == [x];
    assert s2.traces[x := Trace(i, i, Listed)] == s.traces + [Trace(i, i, Listed)];
    Hop(Orderly, c, Start(), s2, RecordItem(0), HalfSet(s, i));
  }

  lemma SecondHalf(s3: State, s: State, i: nat)
    requires i < |s.slots| && s3 == HalfSet(s, i)
    requires Sized(Four(), s3) && Leads(Orderly, Four(), Start(), s3) && s.reading == multiset{}
    requires s.rotation == NotRotating && s.current == i < 4
    ensures var x := |s.epochOf|;
      Leads(Orderly, Four(), Start(),
        s3.(entries := s.entries[7 := x], slots := s.slots[i := Served(i, [x], [7])], threads := [Ready]))
  {
    var c := Four();
    var x := |s.epochOf|;
    var s4 := s3.(entries := s.entries[7 := x], threads := [Inserted(i, i, 7)]);
    Hop(Orderly, c, Start(), s3, InsertEntry(0), s4);
    var none: seq<nat> := [];
    assert none + [7] == [7];
    assert s3.slots[i].keys[0 := [7]] == [[7]];
    assert s3.slots[i := Served(i, [x], [7])] == s.slots[i := Served(i, [x], [7])];
    Hop(Orderly, c, Start(), s4, RecordKey(0), s4.(slots := s.slots[i := Served(i, [x], [7])], threads := [Ready]));
  }

  /** One whole SET of key 7 while nothing else happens. */
  lemma WholeSet(s: State, i: nat)
    requires Sized(Four(), s) && Leads(Orderly, Four(), Start(), s)
    requires s.rotation == NotRotating && s.threads == [Ready] && s.current == i < 4
    requires s.reading == multiset{}
    requires s.slots[i] == Served(i, [], [])
    ensures var x := |s.epochOf|;
      Leads(Orderly, Four(), Start(),
        s.(entries := s.entries[7 := x], epochOf := s.epochOf + [IdOf(i)], frees := s.frees + [0],
           traces := s.traces + [Trace(i, i, Listed)], slots := s.slots[i := Served(i, [x], [7])]))
  {
    FirstHalf(s, i);
    SecondHalf(HalfSet(s, i), s, i);
  }

  lemma SetAtZero()
    ensures Leads(Orderly, Four(), Start(),
      State(map[7 := 0], [1], [0], [Trace(0, 0, Listed)], [Served(0, [0], [7]), UNUSED, UNUSED, UNUSED], 0,
            NotRotating, [Ready], multiset{}))
  {
    LeadsNowhere(Orderly, Four(), Start());
    WholeSet(Start(), 0);
  }

  lemma SetAtOne()
    ensures Leads(Orderly, Four(), Start(), SetTwice([Served(0, [0], [7]), Served(1, [1], [7]), UNUSED, UNUSED], 1))
  {
    SetAtZero();
    var s := State(map[7 := 0], [1], [0], [Trace(0, 0, Listed)], [Served(0, [0], [7]), UNUSED, UNUSED, UNUSED], 0,
                   NotRotating, [Ready], multiset{});
    FirstTurn(Orderly, Four(), Start(), s, 1);
    var s1 := s.(slots := [Served(0, [0], [7]), Served(1, [], []), UNUSED, UNUSED], current := 1);
    WholeSet(s1, 1);
    var e: map<nat, nat> := map[7 := 0];
    assert e[7 := 1] == map[7 := 1];
  }

  const TWICE: seq<Slot> := [Served(0, [0], [7]), Served(1, [1], [7]), Served(2, [], []), Served(3, [], [])]

  lemma RingFull()
    ensures Leads(Orderly, Four(), Start(), SetTwice(TWICE, 3))
  {
    var c := Four();
    SetAtOne();
    var s1 := SetTwice([Served(0, [0], [7]), Served(1, [1], [7]), UNUSED, UNUSED], 1);
    FirstTurn(Orderly, c, Start(), s1, 2);
    var s2 := SetTwice([Served(0, [0], [7]), Served(1, [1], [7]), Served(2, [], []), UNUSED], 2);
    assert s1.slots[2 := Served(2, [], [])] == s2.slots;
    FirstTurn(Orderly, c, Start(), s2, 3);
    assert s2.slots[3 := Served(3, [], [])] == TWICE;
  }

  lemma RotationBegins()
    ensures Leads(Orderly, Four(), Start(), SetTwice(TWICE, 3).(rotation := Cleaning(4, 0)))
  {
    var s := SetTwice(TWICE, 3);
    RingFull();
    assert Ring(Four(), 4) == 0;
    Hop(Orderly, Four(), Start(), s, BeginRotation, s.(rotation := Cleaning(4, 0)));
  }

  /**
   The entry was written at index 1, and the rotation to 4 deletes it, although every rotation
   waited; at index 2 and later it would outlive that.
   */
  lemma IndexOneGoesEarly()
    ensures exists s :: Leads(Orderly, Four(), Start(), s) && Enabled(Four(), s, CleanOne)
              && 7 in s.entries && s.entries[7] < |s.traces| && IndexOf(s, 7) == 1 && s.rotation.next == 4
              && 7 !in Act(Four(), s, CleanOne).entries
  {
    var s := SetTwice(TWICE, 3).(rotation := Cleaning(4, 0));
    RotationBegins();
    assert Ring(Four(), 4) == 0;
    assert Enabled(Four(), s, CleanOne);
    assert 7 !in Act(Four(), s, CleanOne).entries;
  }
}
