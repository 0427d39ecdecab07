/**
 What every run of the ring keeps (`Base`), and what is kept besides while rotations begin only in
 clear states (`Inv`): the ties between map entries, item lists, key lists and epoch ids.
 */
module RingInvariant {
  import opened Words
  import opened RingLists
  import opened RingMachine

  // ----- in every run

  /** The last index that has a slot of its own. */
  function Top(s: State): nat {
    if s.rotation.Publishing? then s.rotation.next else s.current
  }

  ghost predicate SlotsOk(c: Config, s: State)
    requires Sized(c, s)
  {
    && (forall i :: 0 <= i < |s.slots| ==>
          && s.slots[i].id == IdOf(s.slots[i].index)
          && -1 <= s.slots[i].index <= Top(s)
          && (s.slots[i].index < 0 ==> s.slots[i].items == [] && i > Top(s))
          && (s.slots[i].index >= 0 ==> s.slots[i].index > Top(s) - c.epochs && Ring(c, s.slots[i].index) == i))
    && s.slots[Ring(c, s.current)].index == s.current
    && (!s.rotation.NotRotating? ==> s.rotation.next == s.current + 1)
    && (s.rotation.Publishing? ==> s.slots[Ring(c, s.rotation.next)].index == s.rotation.next)
    && (s.rotation.Cleaning? ==> s.rotation.shard <= c.shards)
  }

  /** Each item is with its maker, or on its slot's list, or freed once; its epoch id is not before its index. */
  ghost predicate LedgerOk(c: Config, s: State)
    requires Sized(c, s)
  {
    forall x :: 0 <= x < |s.epochOf| ==>
      && s.epochOf[x] >= 1 && s.epochOf[x] >= s.traces[x].index
      && s.traces[x].slot == Ring(c, s.traces[x].index)
      && s.epochOf[x] <= s.slots[s.traces[x].slot].id
      && (match s.traces[x].status
          case Held(t) => s.frees[x] == 0 && t < |s.threads| && s.threads[t].Made? && s.threads[t].x == x
          case Listed => s.frees[x] == 0 && x in s.slots[s.traces[x].slot].items
          case Gone => s.frees[x] == 1)
  }

  ghost predicate ListsOk(s: State) {
    && (forall i, j :: 0 <= i < |s.slots| && 0 <= j < |s.slots[i].items| ==>
          && s.slots[i].items[j] < |s.traces|
          && s.traces[s.slots[i].items[j]].status == Listed
          && s.traces[s.slots[i].items[j]].slot == i)
    && (forall i, j, k :: 0 <= i < |s.slots| && 0 <= j < k < |s.slots[i].items| ==>
          s.slots[i].items[j] != s.slots[i].items[k])
  }

  /** A key list has keys of its own shard only. */
  ghost predicate KeysOk(c: Config, s: State)
    requires Sized(c, s)
  {
    forall i, k, key :: 0 <= i < c.epochs && 0 <= k < c.shards && key in s.slots[i].keys[k] ==> key % c.shards == k
  }

  /** A SET in flight works on the slot of the index it read, which serves that index or a later one. */
  ghost predicate CallOk(c: Config, s: State, t: nat)
    requires t < |s.threads| && Sized(c, s)
  {
    var pc := s.threads[t];
    !pc.Ready? ==>
      && pc.slot == Ring(c, pc.index)
      && pc.index <= s.slots[pc.slot].index
      && (pc.Made? ==> pc.x < |s.traces| && s.traces[pc.x] == Trace(pc.slot, pc.index, Held(t)))
      && (pc.Recorded? ==> pc.x < |s.traces|)
  }

  ghost predicate CallsOk(c: Config, s: State)
    requires Sized(c, s)
  {
    && (forall t :: 0 <= t < |s.threads| ==> CallOk(c, s, t))
    && (forall key :: key in s.entries ==> s.entries[key] < |s.epochOf|)
  }

  /** What a GET has found is still in the map under its key. */
  ghost predicate LooksOk(s: State) {
    forall look :: look in s.reading ==> look.key in s.entries && s.entries[look.key] == look.x
  }

  ghost predicate Base(c: Config, s: State) {
    LooksOk(s) && Sized(c, s) && SlotsOk(c, s) && LedgerOk(c, s) && ListsOk(s) && KeysOk(c, s) && CallsOk(c, s)
  }

  // ----- while rotations begin in clear states

  ghost predicate InTime(c: Config, s: State)
    requires Sized(c, s)
  {
    && (s.rotation.Renaming? || s.rotation.Publishing? ==> s.slots[Ring(c, s.rotation.next)].items == [])
    && (forall x :: 0 <= x < |s.epochOf| ==>
          && s.epochOf[x] == IdOf(s.traces[x].index)
          && (s.traces[x].status.Listed? ==>
                s.traces[x].slot < c.epochs && s.slots[s.traces[x].slot].index == s.traces[x].index))
  }

  /** A SET on its way to an entry works on a slot that still serves the index it read and is not being rotated. */
  ghost predicate SetOk(c: Config, s: State, t: nat)
    requires t < |s.threads| && Sized(c, s)
  {
    var pc := s.threads[t];
    pc.Chosen? || pc.Made? || pc.Recorded? ==>
      && pc.slot < c.epochs && s.slots[pc.slot].index == pc.index
      && (s.rotation.NotRotating? || pc.slot != Ring(c, s.rotation.next))
      && (pc.Recorded? ==> pc.x < |s.traces| && s.traces[pc.x] == Trace(pc.slot, pc.index, Listed))
  }

  ghost predicate SetsOk(c: Config, s: State)
    requires Sized(c, s)
  {
    forall t :: 0 <= t < |s.threads| ==> SetOk(c, s, t)
  }

  /** A SET has put the entry of `key` in and is about to list the key in `slot`. */
  ghost predicate AboutToList(s: State, slot: nat, key: nat) {
    exists t :: 0 <= t < |s.threads| && s.threads[t].Inserted? && s.threads[t].slot == slot && s.threads[t].key == key
  }

  ghost predicate EntryOk(c: Config, s: State, key: nat)
    requires Sized(c, s)
  {
    key in s.entries ==>
      var x := s.entries[key];
      && x < |s.epochOf|
      && s.traces[x].status.Listed?
      && (var slot := s.traces[x].slot;
          && slot < c.epochs
          && (Lists(c, s, slot, key) || AboutToList(s, slot, key))
          && (!s.rotation.NotRotating? && slot == Ring(c, s.rotation.next) ==>
                s.rotation.Cleaning? && s.rotation.shard <= key % c.shards && Lists(c, s, slot, key)))
  }

  ghost predicate EntriesOk(c: Config, s: State)
    requires Sized(c, s)
  {
    forall key :: key in s.entries ==> EntryOk(c, s, key)
  }

  ghost predicate Inv(c: Config, s: State) {
    Base(c, s) && InTime(c, s) && SetsOk(c, s) && EntriesOk(c, s)
  }

  // ----- arithmetic of the ring

  /** Two indices on one slot differ by at least a whole turn. */
  lemma SameSlotApart(a: nat, b: nat, n: nat)
    requires n > 0 && a < b && a % n == b % n
    ensures b - a >= n
  {
    assert a == n * (a / n) + a % n;
    assert b == n * (b / n) + b % n;
    TimesStep(n, a / n, b / n);
  }

  /** The slot that serves the next index last served the one a turn earlier. */
  lemma TurnBefore(a: nat, next: nat, n: nat)
    requires n > 0 && a < next <= a + n && a % n == next % n
    ensures a + n == next
  {
    SameSlotApart(a, next, n);
  }

  lemma TurnKeepsSlot(a: nat, n: nat)
    requires n > 0
    ensures (a + n) % n == a % n
  {
    assert a == n * (a / n) + a % n;
    assert a + n == n * (a / n + 1) + a % n;
    DivModUnique(a / n + 1, a % n, n);
  }

  lemma NextIsAnotherSlot(a: nat, n: nat)
    requires n >= 2
    ensures a % n != (a + 1) % n
  {
    if a % n == (a + 1) % n {
      SameSlotApart(a, a + 1, n);
    }
  }

  // ----- every step keeps the base

  /** The thread that takes step `x`, if it is a step of a SET. */
  function Mover(x: Action): int {
    match x
    case Choose(t, _) => t
    case Make(t) => t
    case MakeFails(t) => t
    case RecordItem(t) => t
    case RecordFails(t) => t
    case InsertEntry(t) => t
    case RecordKey(t) => t
    case _ => -1
  }

  lemma RenameKeepsSlots(c: Config, s: State)
    requires Sized(c, s) && SlotsOk(c, s) && Enabled(c, s, Rename)
    ensures SlotsOk(c, Act(c, s, Rename))
  {
    NextIsAnotherSlot(s.current, c.epochs);
    forall i | 0 <= i < |s.slots| && i != Ring(c, s.rotation.next) && s.slots[i].index < 0
      ensures i > s.rotation.next
    {
      if i == s.rotation.next {
        DivModUnique(0, i, c.epochs);
      }
    }
    forall i | 0 <= i < |s.slots| && i != Ring(c, s.rotation.next) && s.slots[i].index >= 0
      ensures s.slots[i].index > s.rotation.next - c.epochs
    {
      if s.slots[i].index == s.rotation.next - c.epochs {
        TurnKeepsSlot(s.slots[i].index, c.epochs);
        assert false;
      }
    }
  }

  lemma RecordItemKeepsSlots(c: Config, s: State, t: nat)
    requires Base(c, s) && Enabled(c, s, RecordItem(t))
    ensures SlotsOk(c, Act(c, s, RecordItem(t)))
  {
    assert CallOk(c, s, t);
  }

  lemma CallKeepsSlots(c: Config, s: State, x: Action)
    requires Sized(c, s) && SlotsOk(c, s) && Enabled(c, s, x) && Mover(x) >= 0 && !x.RecordItem?
    ensures SlotsOk(c, Act(c, s, x))
  {
  }

  lemma PublishKeepsSlots(c: Config, s: State)
    requires Sized(c, s) && SlotsOk(c, s) && Enabled(c, s, Publish)
    ensures SlotsOk(c, Act(c, s, Publish))
  {
  }

  lemma BeginKeepsSlots(c: Config, s: State)
    requires Sized(c, s) && SlotsOk(c, s) && Enabled(c, s, BeginRotation)
    ensures SlotsOk(c, Act(c, s, BeginRotation))
  {
  }

  lemma OthersKeepSlots(c: Config, s: State, x: Action)
    requires Sized(c, s) && SlotsOk(c, s) && Enabled(c, s, x) && Mover(x) < 0
    requires !x.Rename? && !x.Publish? && !x.BeginRotation?
    ensures SlotsOk(c, Act(c, s, x))
  {
  }

  lemma RotationKeepsSlots(c: Config, s: State, x: Action)
    requires Sized(c, s) && SlotsOk(c, s) && Enabled(c, s, x) && Mover(x) < 0 && !x.Rename?
    ensures SlotsOk(c, Act(c, s, x))
  {
    if x.Publish? {
      PublishKeepsSlots(c, s);
    } else if x.BeginRotation? {
      BeginKeepsSlots(c, s);
    } else {
      OthersKeepSlots(c, s, x);
    }
  }

  lemma SlotsKept(c: Config, s: State, x: Action)
    requires Base(c, s) && Enabled(c, s, x)
    ensures SlotsOk(c, Act(c, s, x))
  {
    if x.Rename? {
      RenameKeepsSlots(c, s);
    } else if x.RecordItem? {
      RecordItemKeepsSlots(c, s, x.t);
    } else if Mover(x) >= 0 {
      CallKeepsSlots(c, s, x);
    } else {
      RotationKeepsSlots(c, s, x);
    }
  }

  /** The bulk free: each item of the target is freed once more, and no other item. */
  lemma FreeItemsOnce(c: Config, s: State, x: nat)
    requires Sized(c, s) && ListsOk(s) && Enabled(c, s, FreeItems) && x < |s.epochOf|
    ensures Act(c, s, FreeItems).frees[x] == s.frees[x] + if x in Target(c, s).items then 1 else 0
  {
    FreeEachCounts(s.frees, Target(c, s).items, x);
    OccurrencesOfDistinct(Target(c, s).items, x);
  }

  lemma FreeKeepsLists(c: Config, s: State)
    requires Sized(c, s) && ListsOk(s) && Enabled(c, s, FreeItems)
    ensures ListsOk(Act(c, s, FreeItems))
  {
    assert forall x :: x in Target(c, s).items ==> x < |s.traces| && s.traces[x].slot == Ring(c, s.rotation.next);
  }

  /** What the bulk free does to one item. */
  lemma FreeEffect(c: Config, s: State, x: nat)
    requires Sized(c, s) && LedgerOk(c, s) && ListsOk(s) && Enabled(c, s, FreeItems) && x < |s.epochOf|
    ensures var s' := Act(c, s, FreeItems);
      if x in Target(c, s).items then s'.traces[x] == s.traces[x].(status := Gone) && s'.frees[x] == 1
      else s'.traces[x] == s.traces[x] && s'.frees[x] == s.frees[x]
    ensures x in Target(c, s).items ==> s.traces[x].slot == Ring(c, s.rotation.next)
  {
    FreeItemsOnce(c, s, x);
  }

  lemma FreeKeepsLedger(c: Config, s: State)
    requires Sized(c, s) && LedgerOk(c, s) && ListsOk(s) && Enabled(c, s, FreeItems)
    ensures LedgerOk(c, Act(c, s, FreeItems))
  {
    var s' := Act(c, s, FreeItems);
    forall x: nat | x < |s.epochOf|
      ensures if x in Target(c, s).items then s'.traces[x] == s.traces[x].(status := Gone) && s'.frees[x] == 1
              else s'.traces[x] == s.traces[x] && s'.frees[x] == s.frees[x]
    {
      FreeEffect(c, s, x);
    }
  }

  lemma RecordItemKeepsLedger(c: Config, s: State, t: nat)
    requires Base(c, s) && Enabled(c, s, RecordItem(t))
    ensures LedgerOk(c, Act(c, s, RecordItem(t)))
  {
    var s' := Act(c, s, RecordItem(t));
    var pc := s.threads[t];
    assert CallOk(c, s, t);
    var was, now := s.slots[pc.slot].items, s'.slots[pc.slot].items;
    assert now == was + [pc.x];
    assert pc.x == now[|was|];
    forall x | x in was ensures x in now {
    }
  }

  lemma RecordItemKeepsLists(c: Config, s: State, t: nat)
    requires Base(c, s) && Enabled(c, s, RecordItem(t))
    ensures ListsOk(Act(c, s, RecordItem(t)))
  {
    var s' := Act(c, s, RecordItem(t));
    var pc := s.threads[t];
    assert CallOk(c, s, t);
    assert s'.slots[pc.slot].items == s.slots[pc.slot].items + [pc.x];
  }

  /** Items, lists and the SETs that hold an item are as before. */
  ghost predicate SameLedger(s: State, s': State) {
    && s'.epochOf == s.epochOf && s'.frees == s.frees && s'.traces == s.traces
    && |s'.slots| == |s.slots| && |s'.threads| == |s.threads|
    && (forall i :: 0 <= i < |s.slots| ==> s'.slots[i].items == s.slots[i].items && s.slots[i].id <= s'.slots[i].id)
    && (forall t :: 0 <= t < |s.threads| && s.threads[t].Made? ==> s'.threads[t] == s.threads[t])
  }

  lemma OthersKeepLedger(c: Config, s: State, x: Action)
    requires Enabled(c, s, x) && SlotsOk(c, s)
    requires !x.Make? && !x.RecordItem? && !x.RecordFails? && !x.FreeItems?
    ensures SameLedger(s, Act(c, s, x))
  {
  }

  lemma SameLedgerIsOk(c: Config, s: State, s': State)
    requires Sized(c, s) && Sized(c, s') && LedgerOk(c, s) && ListsOk(s) && SameLedger(s, s')
    ensures LedgerOk(c, s') && ListsOk(s')
  {
  }

  lemma MakeKeepsLedger(c: Config, s: State, t: nat)
    requires Base(c, s) && Enabled(c, s, Make(t))
    ensures LedgerOk(c, Act(c, s, Make(t))) && ListsOk(Act(c, s, Make(t)))
  {
    assert CallOk(c, s, t);
  }

  lemma RecordFailsKeepsLedger(c: Config, s: State, t: nat)
    requires Base(c, s) && Enabled(c, s, RecordFails(t))
    ensures LedgerOk(c, Act(c, s, RecordFails(t))) && ListsOk(Act(c, s, RecordFails(t)))
  {
    assert CallOk(c, s, t);
  }

  lemma ListChangeKeepsLedger(c: Config, s: State, x: Action)
    requires Base(c, s) && Enabled(c, s, x) && (x.FreeItems? || x.RecordItem?)
    ensures LedgerOk(c, Act(c, s, x)) && ListsOk(Act(c, s, x))
  {
    if x.FreeItems? {
      FreeKeepsLedger(c, s);
      FreeKeepsLists(c, s);
    } else {
      RecordItemKeepsLedger(c, s, x.t);
      RecordItemKeepsLists(c, s, x.t);
    }
  }

  lemma LedgerKept(c: Config, s: State, x: Action)
    requires Base(c, s) && Enabled(c, s, x)
    ensures LedgerOk(c, Act(c, s, x)) && ListsOk(Act(c, s, x))
  {
    if x.FreeItems? || x.RecordItem? {
      ListChangeKeepsLedger(c, s, x);
    } else if x.Make? {
      MakeKeepsLedger(c, s, x.t);
    } else if x.RecordFails? {
      RecordFailsKeepsLedger(c, s, x.t);
    } else {
      OthersKeepLedger(c, s, x);
      SameLedgerIsOk(c, s, Act(c, s, x));
    }
  }

  /** Indices only grow, items stay where their makers left them, and at most one thread moves. */
  ghost predicate Onward(s: State, s': State, mover: int) {
    && |s'.slots| == |s.slots| && |s'.threads| == |s.threads|
    && (forall i :: 0 <= i < |s.slots| ==> s.slots[i].index <= s'.slots[i].index)
    && (forall t :: 0 <= t < |s.threads| && t != mover ==> s'.threads[t] == s.threads[t])
    && |s.traces| <= |s'.traces|
    && (forall x :: 0 <= x < |s.traces| && s.traces[x].status.Held? && s.traces[x].status.maker != mover ==>
          s'.traces[x] == s.traces[x])
  }

  lemma FreeGoesOnward(c: Config, s: State)
    requires Base(c, s) && Enabled(c, s, FreeItems)
    ensures Onward(s, Act(c, s, FreeItems), -1)
  {
    assert forall x :: x in Target(c, s).items ==> x < |s.traces| && s.traces[x].status == Listed;
  }

  lemma CallGoesOnward(c: Config, s: State, x: Action)
    requires Base(c, s) && Enabled(c, s, x) && Mover(x) >= 0
    ensures Onward(s, Act(c, s, x), Mover(x))
  {
    assert CallOk(c, s, Mover(x));
  }

  lemma StepGoesOnward(c: Config, s: State, x: Action)
    requires Base(c, s) && Enabled(c, s, x)
    ensures Onward(s, Act(c, s, x), Mover(x))
  {
    if x.FreeItems? {
      FreeGoesOnward(c, s);
    } else if Mover(x) >= 0 {
      CallGoesOnward(c, s, x);
    }
  }

  lemma OthersCallsKept(c: Config, s: State, s': State, mover: int, v: nat)
    requires Sized(c, s) && Sized(c, s') && Onward(s, s', mover) && v < |s.threads| && v != mover && CallOk(c, s, v)
    ensures CallOk(c, s', v)
  {
  }

  lemma MoverKept(c: Config, s: State, x: Action)
    requires Base(c, s) && Enabled(c, s, x) && Mover(x) >= 0
    ensures CallOk(c, Act(c, s, x), Mover(x))
  {
    assert CallOk(c, s, Mover(x));
  }

  lemma EntriesKnown(c: Config, s: State, x: Action, key: nat)
    requires Base(c, s) && Enabled(c, s, x) && key in Act(c, s, x).entries
    ensures Act(c, s, x).entries[key] < |Act(c, s, x).epochOf|
  {
    if x.InsertEntry? {
      assert CallOk(c, s, x.t);
    }
  }

  lemma CallsKept(c: Config, s: State, x: Action)
    requires Base(c, s) && Enabled(c, s, x)
    ensures CallsOk(c, Act(c, s, x))
  {
    var s' := Act(c, s, x);
    StepGoesOnward(c, s, x);
    forall v | 0 <= v < |s'.threads| ensures CallOk(c, s', v) {
      if v == Mover(x) {
        MoverKept(c, s, x);
      } else {
        OthersCallsKept(c, s, s', Mover(x), v);
      }
    }
    forall k | k in s'.entries ensures s'.entries[k] < |s'.epochOf| {
      EntriesKnown(c, s, x, k);
    }
  }

  lemma KeysKept(c: Config, s: State, x: Action)
    requires Sized(c, s) && KeysOk(c, s) && Enabled(c, s, x)
    ensures KeysOk(c, Act(c, s, x))
  {
  }

  /** A write to a shard waits for the GETs in it, and touches no entry of another shard. */
  lemma LooksKept(c: Config, s: State, x: Action)
    requires Sized(c, s) && LooksOk(s) && KeysOk(c, s) && Enabled(c, s, x)
    ensures LooksOk(Act(c, s, x))
  {
    var s' := Act(c, s, x);
    forall look | look in s'.reading ensures look.key in s'.entries && s'.entries[look.key] == look.x {
      if x.CleanOne? {
        assert look.key !in ShardKeys(Target(c, s), s.rotation.shard);
      }
    }
  }

  lemma StepKeepsBase(c: Config, s: State, x: Action)
    requires Base(c, s) && Enabled(c, s, x)
    ensures Base(c, Act(c, s, x))
  {
    SlotsKept(c, s, x);
    LedgerKept(c, s, x);
    KeysKept(c, s, x);
    LooksKept(c, s, x);
    CallsKept(c, s, x);
  }

  lemma {:induction false} RunKeepsBase(c: Config, s: State, xs: seq<Action>)
    requires Base(c, s) && Executable(c, s, xs)
    ensures Base(c, After(c, s, xs))
    decreases |xs|
  {
    if xs != [] {
      StepKeepsBase(c, s, xs[0]);
      RunKeepsBase(c, Act(c, s, xs[0]), xs[1..]);
    }
  }

  lemma InitBase(c: Config, s: State)
    requires Init(c, s)
    ensures Base(c, s)
  {
    assert Ring(c, 0) == 0;
  }

  // ----- steps of a SET, after clear beginnings

  /** Moving one thread away from any point but Inserted leaves every announcement standing. */
  lemma StillAnnounced(s: State, s': State, t: nat, slot: nat, key: nat)
    requires t < |s.threads| == |s'.threads| && s'.threads == s.threads[t := s'.threads[t]]
    requires !s.threads[t].Inserted? && AboutToList(s, slot, key)
    ensures AboutToList(s', slot, key)
  {
    var v :| 0 <= v < |s.threads| && s.threads[v].Inserted? && s.threads[v].slot == slot && s.threads[v].key == key;
    assert s'.threads[v] == s.threads[v];
  }

  /** What an entry depends on, besides the announcements. */
  ghost predicate SameEntry(c: Config, s: State, s': State, key: nat)
    requires Sized(c, s) && Sized(c, s')
  {
    && key in s.entries && key in s'.entries && s'.entries[key] == s.entries[key]
    && s'.rotation == s.rotation && |s.epochOf| <= |s'.epochOf|
    && (s.entries[key] < |s.traces| && s.traces[s.entries[key]].status.Listed? ==>
          s'.traces[s.entries[key]] == s.traces[s.entries[key]])
    && (forall i :: 0 <= i < c.epochs && Lists(c, s, i, key) ==> Lists(c, s', i, key))
  }

  lemma SameEntryIsOk(c: Config, s: State, s': State, key: nat)
    requires Sized(c, s) && Sized(c, s') && EntryOk(c, s, key) && SameEntry(c, s, s', key)
    requires forall slot :: AboutToList(s, slot, key) ==> AboutToList(s', slot, key)
    ensures EntryOk(c, s', key)
  {
  }

  lemma CallLeavesEntry(c: Config, s: State, x: Action, key: nat)
    requires Base(c, s) && Enabled(c, s, x) && Mover(x) >= 0 && !x.InsertEntry? && !x.RecordKey? && key in s.entries
    ensures Sized(c, Act(c, s, x)) && SameEntry(c, s, Act(c, s, x), key)
  {
    assert CallOk(c, s, Mover(x));
  }

  /** A thread that is not at Inserted moves on, and the entries do not change. */
  lemma EntriesUndisturbed(c: Config, s: State, x: Action)
    requires Inv(c, s) && Enabled(c, s, x) && Mover(x) >= 0 && !x.InsertEntry? && !x.RecordKey?
    ensures EntriesOk(c, Act(c, s, x))
  {
    var s' := Act(c, s, x);
    forall k | k in s'.entries ensures EntryOk(c, s', k) {
      CallLeavesEntry(c, s, x, k);
      forall slot | AboutToList(s, slot, k) ensures AboutToList(s', slot, k) {
        StillAnnounced(s, s', Mover(x), slot, k);
      }
      assert EntryOk(c, s, k);
      SameEntryIsOk(c, s, s', k);
    }
  }

  lemma InsertKeepsEntries(c: Config, s: State, t: nat)
    requires Inv(c, s) && Enabled(c, s, InsertEntry(t))
    ensures EntriesOk(c, Act(c, s, InsertEntry(t)))
  {
    var s' := Act(c, s, InsertEntry(t));
    var pc := s.threads[t];
    assert SetOk(c, s, t) && CallOk(c, s, t);
    forall k | k in s'.entries ensures EntryOk(c, s', k) {
      if k == pc.key {
        assert s'.threads[t].Inserted?;
        assert AboutToList(s', pc.slot, k);
      } else {
        assert EntryOk(c, s, k);
        forall slot | AboutToList(s, slot, k) ensures AboutToList(s', slot, k) {
          StillAnnounced(s, s', t, slot, k);
        }
        SameEntryIsOk(c, s, s', k);
      }
    }
  }

  lemma KeyIsListed(c: Config, s: State, t: nat)
    requires Base(c, s) && Enabled(c, s, RecordKey(t))
    ensures Lists(c, Act(c, s, RecordKey(t)), s.threads[t].slot, s.threads[t].key)
    ensures forall i, k :: 0 <= i < c.epochs && Lists(c, s, i, k) ==> Lists(c, Act(c, s, RecordKey(t)), i, k)
  {
    var s' := Act(c, s, RecordKey(t));
    var pc := s.threads[t];
    var shard := pc.key % c.shards;
    var was, now := s.slots[pc.slot].keys[shard], s'.slots[pc.slot].keys[shard];
    assert now == was + [pc.key] && now[|was|] == pc.key;
    forall k | k in was ensures k in now {
    }
  }

  lemma RecordKeyKeepsEntry(c: Config, s: State, t: nat, key: nat)
    requires Inv(c, s) && Enabled(c, s, RecordKey(t)) && key in s.entries
    ensures EntryOk(c, Act(c, s, RecordKey(t)), key)
  {
    var s' := Act(c, s, RecordKey(t));
    var pc := s.threads[t];
    assert EntryOk(c, s, key);
    KeyIsListed(c, s, t);
    var slot := s.traces[s.entries[key]].slot;
    if AboutToList(s, slot, key) && !(key == pc.key && slot == pc.slot) {
      var v :| 0 <= v < |s.threads| && s.threads[v].Inserted? && s.threads[v].slot == slot && s.threads[v].key == key;
      assert s'.threads[v] == s.threads[v];
      assert AboutToList(s', slot, key);
    }
  }

  lemma RecordKeyKeepsEntries(c: Config, s: State, t: nat)
    requires Inv(c, s) && Enabled(c, s, RecordKey(t))
    ensures EntriesOk(c, Act(c, s, RecordKey(t)))
  {
    forall k | k in Act(c, s, RecordKey(t)).entries ensures EntryOk(c, Act(c, s, RecordKey(t)), k) {
      RecordKeyKeepsEntry(c, s, t, k);
    }
  }

  lemma CallKeepsEntries(c: Config, s: State, x: Action)
    requires Inv(c, s) && Enabled(c, s, x) && Mover(x) >= 0
    ensures EntriesOk(c, Act(c, s, x))
  {
    match x
    case InsertEntry(t) => InsertKeepsEntries(c, s, t);
    case RecordKey(t) => RecordKeyKeepsEntries(c, s, t);
    case _ => EntriesUndisturbed(c, s, x);
  }

  lemma CallKeepsTime(c: Config, s: State, x: Action)
    requires Inv(c, s) && Enabled(c, s, x) && Mover(x) >= 0
    ensures InTime(c, Act(c, s, x))
  {
    assert CallOk(c, s, Mover(x)) && SetOk(c, s, Mover(x));
  }

  lemma CallKeepsSets(c: Config, s: State, x: Action)
    requires Inv(c, s) && Enabled(c, s, x) && Mover(x) >= 0
    ensures SetsOk(c, Act(c, s, x))
  {
    var s' := Act(c, s, x);
    NextIsAnotherSlot(s.current, c.epochs);
    forall v | 0 <= v < |s'.threads| ensures SetOk(c, s', v) {
      assert SetOk(c, s, v) && CallOk(c, s, v) && CallOk(c, s, Mover(x));
    }
  }

  lemma DeleteKeepsRest(c: Config, s: State, key: nat)
    requires Inv(c, s)
    ensures var s' := s.(entries := s.entries - {key});
      Sized(c, s') && InTime(c, s') && SetsOk(c, s') && EntriesOk(c, s')
  {
    var s' := s.(entries := s.entries - {key});
    assert forall v :: 0 <= v < |s.threads| ==> (SetOk(c, s, v) <==> SetOk(c, s', v));
    forall k | k in s'.entries ensures EntryOk(c, s', k) {
      assert EntryOk(c, s, k);
      SameEntryIsOk(c, s, s', k);
    }
  }

  lemma LooksKeepEntry(c: Config, s: State, s': State, key: nat)
    requires Sized(c, s) && s' == s.(reading := s'.reading) && EntryOk(c, s, key)
    ensures Sized(c, s') && EntryOk(c, s', key)
  {
    if key in s.entries {
      var slot := s.traces[s.entries[key]].slot;
      if AboutToList(s, slot, key) {
        assert AboutToList(s', slot, key);
      }
    }
  }

  lemma LooksKeepRest(c: Config, s: State, s': State)
    requires Sized(c, s) && s' == s.(reading := s'.reading) && InTime(c, s) && SetsOk(c, s) && EntriesOk(c, s)
    ensures Sized(c, s') && InTime(c, s') && SetsOk(c, s') && EntriesOk(c, s')
  {
    forall t | 0 <= t < |s'.threads| ensures SetOk(c, s', t) {
      assert SetOk(c, s, t);
    }
    forall k | k in s'.entries ensures EntryOk(c, s', k) {
      LooksKeepEntry(c, s, s', k);
    }
  }

  // ----- steps of a rotation, after clear beginnings

  lemma BeginKeepsRest(c: Config, s: State)
    requires Inv(c, s) && Enabled(c, s, BeginRotation) && Clear(c, s)
    ensures SetsOk(c, Act(c, s, BeginRotation)) && EntriesOk(c, Act(c, s, BeginRotation))
  {
    var s' := Act(c, s, BeginRotation);
    var target := Ring(c, s.current + 1);
    forall v | 0 <= v < |s'.threads| ensures SetOk(c, s', v) {
      assert SetOk(c, s, v);
      assert !Underway(s.threads[v], target);
    }
    forall k | k in s'.entries ensures EntryOk(c, s', k) {
      assert EntryOk(c, s, k);
      var x := s.entries[k];
      assert x in s.slots[s.traces[x].slot].items;
      if AboutToList(s, s.traces[x].slot, k) {
        assert AboutToList(s', s.traces[x].slot, k);
      }
    }
  }

  /** What the target slot still owns in the shard being cleaned is listed under its own id. */
  lemma TargetEntriesAreDropped(c: Config, s: State, key: nat)
    requires Inv(c, s) && Enabled(c, s, CleanOne) && key in s.entries
    requires s.traces[s.entries[key]].slot == Ring(c, s.rotation.next) && key % c.shards == s.rotation.shard
    ensures Dropped(s.entries, ShardKeys(Target(c, s), s.rotation.shard), Target(c, s).id, s.epochOf, key)
  {
    assert EntryOk(c, s, key);
  }

  lemma CleanKeepsEntry(c: Config, s: State, key: nat)
    requires Sized(c, s) && Enabled(c, s, CleanOne) && Sized(c, Act(c, s, CleanOne)) && EntryOk(c, s, key)
    requires key in Act(c, s, CleanOne).entries
    requires s.traces[s.entries[key]].slot == Ring(c, s.rotation.next) ==> key % c.shards != s.rotation.shard
    ensures EntryOk(c, Act(c, s, CleanOne), key)
  {
    var slot := s.traces[s.entries[key]].slot;
    if AboutToList(s, slot, key) {
      assert AboutToList(Act(c, s, CleanOne), slot, key);
    }
  }

  lemma CleaningSpares(c: Config, s: State, key: nat)
    requires Inv(c, s) && Enabled(c, s, CleanOne) && key in Act(c, s, CleanOne).entries
    ensures key in s.entries && EntryOk(c, s, key)
    ensures s.traces[s.entries[key]].slot == Ring(c, s.rotation.next) ==> key % c.shards != s.rotation.shard
  {
    assert EntryOk(c, s, key);
    if s.traces[s.entries[key]].slot == Ring(c, s.rotation.next) && key % c.shards == s.rotation.shard {
      TargetEntriesAreDropped(c, s, key);
    }
  }

  lemma CleanKeepsEntries(c: Config, s: State)
    requires Inv(c, s) && Enabled(c, s, CleanOne) && Sized(c, Act(c, s, CleanOne))
    ensures EntriesOk(c, Act(c, s, CleanOne))
  {
    forall k | k in Act(c, s, CleanOne).entries ensures EntryOk(c, Act(c, s, CleanOne), k) {
      CleaningSpares(c, s, k);
      CleanKeepsEntry(c, s, k);
    }
  }

  /** No entry points to an item that the bulk free is about to free. */
  lemma NothingPointsToTarget(c: Config, s: State, key: nat)
    requires Inv(c, s) && Enabled(c, s, FreeItems) && key in s.entries
    ensures s.entries[key] !in Target(c, s).items
    ensures s.traces[s.entries[key]].slot != Ring(c, s.rotation.next)
  {
    assert EntryOk(c, s, key);
  }

  lemma FreeKeepsEntry(c: Config, s: State, key: nat)
    requires Inv(c, s) && Enabled(c, s, FreeItems) && key in s.entries && Sized(c, Act(c, s, FreeItems))
    ensures EntryOk(c, Act(c, s, FreeItems), key)
  {
    var s' := Act(c, s, FreeItems);
    assert EntryOk(c, s, key);
    NothingPointsToTarget(c, s, key);
    if AboutToList(s, s.traces[s.entries[key]].slot, key) {
      assert AboutToList(s', s.traces[s.entries[key]].slot, key);
    }
  }

  lemma FreeKeepsEntries(c: Config, s: State)
    requires Inv(c, s) && Enabled(c, s, FreeItems) && Sized(c, Act(c, s, FreeItems))
    ensures EntriesOk(c, Act(c, s, FreeItems))
  {
    forall k | k in Act(c, s, FreeItems).entries ensures EntryOk(c, Act(c, s, FreeItems), k) {
      FreeKeepsEntry(c, s, k);
    }
  }

  lemma FreeKeepsSets(c: Config, s: State)
    requires Inv(c, s) && Enabled(c, s, FreeItems)
    ensures SetsOk(c, Act(c, s, FreeItems)) && InTime(c, Act(c, s, FreeItems))
  {
    var s' := Act(c, s, FreeItems);
    assert forall x :: x in Target(c, s).items ==> s.traces[x].slot == Ring(c, s.rotation.next);
    forall v | 0 <= v < |s'.threads| ensures SetOk(c, s', v) {
      assert SetOk(c, s, v);
    }
  }

  lemma RotationKeepsSets(c: Config, s: State, x: Action)
    requires Inv(c, s) && Enabled(c, s, x) && (x.CleanOne? || x.Rename? || x.Publish?)
    ensures SetsOk(c, Act(c, s, x)) && InTime(c, Act(c, s, x))
  {
    var s' := Act(c, s, x);
    forall v | 0 <= v < |s'.threads| ensures SetOk(c, s', v) {
      assert SetOk(c, s, v);
    }
  }

  lemma RenameKeepsEntry(c: Config, s: State, x: Action, key: nat)
    requires Sized(c, s) && EntryOk(c, s, key) && key in s.entries && Enabled(c, s, x)
    requires (x.Rename? || x.Publish?) && Sized(c, Act(c, s, x))
    ensures EntryOk(c, Act(c, s, x), key)
  {
    var slot := s.traces[s.entries[key]].slot;
    if AboutToList(s, slot, key) {
      assert AboutToList(Act(c, s, x), slot, key);
    }
  }

  lemma RenameKeepsEntries(c: Config, s: State)
    requires Sized(c, s) && EntriesOk(c, s) && Enabled(c, s, Rename)
    ensures Sized(c, Act(c, s, Rename)) && EntriesOk(c, Act(c, s, Rename))
  {
    forall k | k in Act(c, s, Rename).entries ensures EntryOk(c, Act(c, s, Rename), k) {
      assert EntryOk(c, s, k);
      RenameKeepsEntry(c, s, Rename, k);
    }
  }

  lemma PublishKeepsEntries(c: Config, s: State)
    requires Sized(c, s) && EntriesOk(c, s) && Enabled(c, s, Publish)
    ensures Sized(c, Act(c, s, Publish)) && EntriesOk(c, Act(c, s, Publish))
  {
    forall k | k in Act(c, s, Publish).entries ensures EntryOk(c, Act(c, s, Publish), k) {
      assert EntryOk(c, s, k);
      RenameKeepsEntry(c, s, Publish, k);
    }
  }

  // ----- all steps, all runs

  /** What is kept besides the base. */
  ghost predicate Rest(c: Config, s: State)
    requires Sized(c, s)
  {
    InTime(c, s) && SetsOk(c, s) && EntriesOk(c, s)
  }

  lemma CallKeepsRest(c: Config, s: State, x: Action)
    requires Inv(c, s) && Enabled(c, s, x) && Mover(x) >= 0 && Sized(c, Act(c, s, x))
    ensures Rest(c, Act(c, s, x))
  {
    CallKeepsTime(c, s, x);
    CallKeepsSets(c, s, x);
    CallKeepsEntries(c, s, x);
  }

  lemma RotationKeepsRest(c: Config, s: State, x: Action)
    requires Inv(c, s) && Enabled(c, s, x) && Sized(c, Act(c, s, x))
    requires x.CleanOne? || x.FreeItems? || x.Rename? || x.Publish?
    ensures Rest(c, Act(c, s, x))
  {
    if x.FreeItems? {
      FreeKeepsSets(c, s);
      FreeKeepsEntries(c, s);
    } else {
      RotationKeepsSets(c, s, x);
      if x.CleanOne? {
        CleanKeepsEntries(c, s);
      } else if x.Rename? {
        RenameKeepsEntries(c, s);
      } else {
        PublishKeepsEntries(c, s);
      }
    }
  }

  lemma GetsChangeNothingElse(c: Config, s: State, x: Action)
    requires Enabled(c, s, x) && (x.GetMiss? || x.GetFind? || x.GetRead?)
    ensures Act(c, s, x) == s.(reading := Act(c, s, x).reading)
  {
  }

  lemma GetsKeepRest(c: Config, s: State, x: Action)
    requires Sized(c, s) && Rest(c, s) && Enabled(c, s, x) && (x.GetMiss? || x.GetFind? || x.GetRead?)
    requires Sized(c, Act(c, s, x))
    ensures Rest(c, Act(c, s, x))
  {
    GetsChangeNothingElse(c, s, x);
    LooksKeepRest(c, s, Act(c, s, x));
  }

  lemma StepKeepsRest(c: Config, s: State, x: Action)
    requires Inv(c, s) && Enabled(c, s, x) && (x.BeginRotation? ==> Clear(c, s)) && Sized(c, Act(c, s, x))
    ensures Rest(c, Act(c, s, x))
  {
    if Mover(x) >= 0 {
      CallKeepsRest(c, s, x);
    } else if x.CleanOne? || x.FreeItems? || x.Rename? || x.Publish? {
      RotationKeepsRest(c, s, x);
    } else if x.Delete? {
      DeleteKeepsRest(c, s, x.key);
    } else if x.BeginRotation? {
      BeginKeepsRest(c, s);
    } else {
      GetsKeepRest(c, s, x);
    }
  }

  lemma StepKeepsInv(c: Config, s: State, x: Action)
    requires Inv(c, s) && Enabled(c, s, x) && (x.BeginRotation? ==> Clear(c, s))
    ensures Inv(c, Act(c, s, x))
  {
    StepKeepsBase(c, s, x);
    StepKeepsRest(c, s, x);
  }

  lemma InitInv(c: Config, s: State)
    requires Init(c, s)
    ensures Inv(c, s)
  {
    InitBase(c, s);
  }

  lemma {:induction false} RunKeepsInv(c: Config, s: State, xs: seq<Action>)
    requires Inv(c, s) && Executable(c, s, xs) && Guarded(c, s, xs, Clear)
    ensures Inv(c, After(c, s, xs))
    decreases |xs|
  {
    if xs != [] {
      StepKeepsInv(c, s, xs[0]);
      RunKeepsInv(c, Act(c, s, xs[0]), xs[1..]);
    }
  }
}
