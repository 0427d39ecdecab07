/**
 What the epoch ring promises over whole runs: no item is freed twice and no entry leaves early in
 any run; no entry dangles and every entry leaves on time while rotations begin in clear states.
 */
module RingSafety {
  import opened Words
  import opened RingMachine
  import opened RingInvariant

  /** `s` is reached by some run. */
  ghost predicate Reached(c: Config, s0: State, xs: seq<Action>, s: State) {
    Init(c, s0) && Executable(c, s0, xs) && s == After(c, s0, xs)
  }

  /** `s` is reached by a run whose rotations begin in clear states. */
  ghost predicate ReachedClear(c: Config, s0: State, xs: seq<Action>, s: State) {
    Reached(c, s0, xs, s) && Guarded(c, s0, xs, Clear)
  }

  lemma ReachedBase(c: Config, s0: State, xs: seq<Action>, s: State)
    requires Reached(c, s0, xs, s)
    ensures Base(c, s)
  {
    InitBase(c, s0);
    RunKeepsBase(c, s0, xs);
  }

  lemma ReachedInv(c: Config, s0: State, xs: seq<Action>, s: State)
    requires ReachedClear(c, s0, xs, s)
    ensures Inv(c, s)
  {
    InitInv(c, s0);
    RunKeepsInv(c, s0, xs);
  }

  // ----- no dangling entry

  /** Item `x` is on the list of `slot` and carries its id; `key` is on its key list, or is about to be. */
  ghost predicate Anchored(c: Config, s: State, key: nat, x: nat, slot: nat)
    requires Sized(c, s)
  {
    && slot < c.epochs && x < |s.epochOf|
    && x in s.slots[slot].items
    && s.epochOf[x] == s.slots[slot].id
    && (Lists(c, s, slot, key) || AboutToList(s, slot, key))
  }

  /** Every map entry points to an item that has not been freed. */
  lemma NoDanglingEntry(c: Config, s0: State, xs: seq<Action>, s: State, key: nat)
    requires ReachedClear(c, s0, xs, s) && key in s.entries
    ensures Sized(c, s) && s.entries[key] < |s.frees| && s.frees[s.entries[key]] == 0
    ensures exists slot: nat :: Anchored(c, s, key, s.entries[key], slot)
  {
    ReachedInv(c, s0, xs, s);
    assert EntryOk(c, s, key);
    assert Anchored(c, s, key, s.entries[key], s.traces[s.entries[key]].slot);
  }

  /** A GET that has found an item reads it before it is freed, although the bulk free takes no shard's lock. */
  lemma GetReadsUnfreed(c: Config, s0: State, xs: seq<Action>, s: State, look: Look)
    requires ReachedClear(c, s0, xs, s) && look in s.reading
    ensures Enabled(c, s, GetRead(look)) && look.x < |s.frees| && s.frees[look.x] == 0
  {
    ReachedInv(c, s0, xs, s);
    NoDanglingEntry(c, s0, xs, s, look.key);
  }

  // ----- each item is freed once, in every run

  /** The item is on the list of slot `i`. */
  predicate OnList(s: State, x: nat, i: nat) {
    i < |s.slots| && x in s.slots[i].items
  }

  /** A SET has allocated the item and not recorded it. */
  ghost predicate InHand(s: State, x: nat) {
    exists t :: 0 <= t < |s.threads| && s.threads[t].Made? && s.threads[t].x == x
  }

  /**
   No item is freed twice, whenever rotations begin. Until it is freed it is on exactly one
   slot's list, or still with the SET that made it; afterwards it is on none.
   */
  lemma FreedExactlyOnce(c: Config, s0: State, xs: seq<Action>, s: State, x: nat)
    requires Reached(c, s0, xs, s) && x < |s.epochOf|
    ensures x < |s.frees| && s.frees[x] <= 1
    ensures s.frees[x] == 0 <==> InHand(s, x) || exists i: nat :: OnList(s, x, i)
    ensures forall i: nat, j: nat :: OnList(s, x, i) && OnList(s, x, j) ==> i == j
    ensures InHand(s, x) ==> forall i: nat :: !OnList(s, x, i)
  {
    ReachedBase(c, s0, xs, s);
    if s.traces[x].status.Listed? {
      assert OnList(s, x, s.traces[x].slot);
    }
    forall t | 0 <= t < |s.threads| && s.threads[t].Made? && s.threads[t].x == x ensures s.traces[x].status.Held? {
      assert CallOk(c, s, t);
    }
  }

  // ----- how long an entry stays, in every run

  /** The epoch index a SET had read when it wrote this entry. */
  function IndexOf(s: State, key: nat): nat
    requires key in s.entries && s.entries[key] < |s.traces|
  {
    s.traces[s.entries[key]].index
  }

  /** The slot being cleaned last served the index one turn before, if it has served any. */
  lemma TargetServed(c: Config, s: State)
    requires Base(c, s) && s.rotation.Cleaning?
    ensures Target(c, s).index == s.rotation.next - c.epochs
         || (Target(c, s).index < 0 && s.rotation.next < c.epochs)
  {
    var slot := Target(c, s);
    if slot.index >= 0 {
      TurnBefore(slot.index, s.rotation.next, c.epochs);
    } else {
      assert Ring(c, s.rotation.next) > s.current;
      assert Ring(c, s.rotation.next) < c.epochs;
    }
  }

  /** Which epoch indices share an id. */
  lemma SameId(i: nat, j: nat)
    ensures IdOf(i) == IdOf(j) <==> i == j || (i == 0 && j == 1) || (i == 1 && j == 0)
  {
  }

  /** Step `x` writes or deletes the entry of `key` itself. */
  ghost predicate Touches(c: Config, s: State, x: Action, key: nat)
    requires Enabled(c, s, x)
  {
    x == Delete(key) || (x.InsertEntry? && s.threads[x.t].key == key)
  }

  /**
   In every run: apart from a SET or DELETE of the key, only a rotation that lists the key takes an
   entry out, and none before the one a turn after the entry's index, except that an entry of
   index 1 may go one rotation early, with slot 0.
   */
  lemma EntryLeavesOnTime(c: Config, s0: State, xs: seq<Action>, s: State, x: Action, key: nat)
    requires Reached(c, s0, xs, s) && Enabled(c, s, x) && !Touches(c, s, x, key) && key in s.entries
    ensures s.entries[key] < |s.traces|
    ensures var s' := Act(c, s, x);
      || (key in s'.entries && s'.entries[key] == s.entries[key] && s.entries[key] < |s'.traces|
          && IndexOf(s', key) == IndexOf(s, key))
      || (x == CleanOne && key in ShardKeys(Target(c, s), s.rotation.shard)
          && (s.rotation.next >= IndexOf(s, key) + c.epochs || (IndexOf(s, key) == 1 && s.rotation.next == c.epochs)))
  {
    ReachedBase(c, s0, xs, s);
    EntryLeaves(c, s, x, key);
  }

  lemma EntryLeaves(c: Config, s: State, x: Action, key: nat)
    requires Base(c, s) && Enabled(c, s, x) && !Touches(c, s, x, key) && key in s.entries
    ensures s.entries[key] < |s.traces|
    ensures var s' := Act(c, s, x);
      || (key in s'.entries && s'.entries[key] == s.entries[key] && s.entries[key] < |s'.traces|
          && IndexOf(s', key) == IndexOf(s, key))
      || (x == CleanOne && key in ShardKeys(Target(c, s), s.rotation.shard)
          && (s.rotation.next >= IndexOf(s, key) + c.epochs || (IndexOf(s, key) == 1 && s.rotation.next == c.epochs)))
  {
    if x.CleanOne? {
      TargetServed(c, s);
    } else {
      EntryStays(c, s, x, key);
    }
  }

  lemma EntryStays(c: Config, s: State, x: Action, key: nat)
    requires Base(c, s) && Enabled(c, s, x) && !Touches(c, s, x, key) && key in s.entries && !x.CleanOne?
    ensures s.entries[key] < |s.traces|
    ensures var s' := Act(c, s, x);
      && key in s'.entries && s'.entries[key] == s.entries[key] && s.entries[key] < |s'.traces|
      && IndexOf(s', key) == IndexOf(s, key)
  {
    if Mover(x) >= 0 {
      assert CallOk(c, s, Mover(x));
    }
  }

  /** The latest rotation index begun so far. */
  function Turn(s: State): nat {
    if s.rotation.NotRotating? then s.current else s.rotation.next
  }

  ghost predicate Untouched(c: Config, s: State, xs: seq<Action>, key: nat)
    requires Executable(c, s, xs)
    decreases |xs|
  {
    xs == [] || (!Touches(c, s, xs[0], key) && Untouched(c, Act(c, s, xs[0]), xs[1..], key))
  }

  lemma {:induction false} TurnOnlyGrows(c: Config, s: State, xs: seq<Action>)
    requires Base(c, s) && Executable(c, s, xs)
    ensures Turn(s) <= Turn(After(c, s, xs))
    decreases |xs|
  {
    if xs != [] {
      StepKeepsBase(c, s, xs[0]);
      TurnOnlyGrows(c, Act(c, s, xs[0]), xs[1..]);
    }
  }

  /** Slot 0 lists the key, or is about to. */
  ghost predicate ListedInZero(c: Config, s: State, key: nat)
    requires Sized(c, s)
  {
    Lists(c, s, 0, key) || AboutToList(s, 0, key)
  }

  /** The rotation to max_epochs, which reuses slot 0, has not cleaned the key's shard yet. */
  predicate ZeroAhead(c: Config, s: State, key: nat)
    requires c.shards > 0
  {
    Turn(s) < c.epochs || (s.rotation.Cleaning? && s.rotation.next == c.epochs && s.rotation.shard <= key % c.shards)
  }

  /** What an entry of index 1 can be lost by: slot 0 is still to be cleaned of its key. */
  ghost predicate AtRisk(c: Config, s: State, key: nat)
    requires Sized(c, s)
  {
    ZeroAhead(c, s, key) && ListedInZero(c, s, key)
  }

  lemma StaysUnlisted(c: Config, s: State, x: Action, key: nat)
    requires Sized(c, s) && Enabled(c, s, x) && !Touches(c, s, x, key) && !ListedInZero(c, s, key)
    ensures Sized(c, Act(c, s, x)) && !ListedInZero(c, Act(c, s, x), key)
  {
  }

  /**
   Retention, in every run: an entry that is not overwritten or deleted is still there, the same, as long
   as no rotation a turn after its index has begun; an entry of index 1 if it is not at risk from slot 0.
   */
  lemma RetainedForATurn(c: Config, s0: State, xs: seq<Action>, s: State, ys: seq<Action>, key: nat)
    requires Reached(c, s0, xs, s) && Executable(c, s, ys) && Untouched(c, s, ys, key)
    requires key in s.entries && s.entries[key] < |s.traces| && Turn(After(c, s, ys)) < IndexOf(s, key) + c.epochs
    requires Sized(c, s) && (IndexOf(s, key) == 1 ==> !AtRisk(c, s, key))
    ensures key in After(c, s, ys).entries && After(c, s, ys).entries[key] == s.entries[key]
  {
    ReachedBase(c, s0, xs, s);
    Retained(c, s, ys, key);
  }

  lemma {:induction false} Retained(c: Config, s: State, ys: seq<Action>, key: nat)
    requires Base(c, s) && Executable(c, s, ys) && Untouched(c, s, ys, key)
    requires key in s.entries && s.entries[key] < |s.traces| && Turn(After(c, s, ys)) < IndexOf(s, key) + c.epochs
    requires IndexOf(s, key) == 1 ==> !AtRisk(c, s, key)
    ensures key in After(c, s, ys).entries && After(c, s, ys).entries[key] == s.entries[key]
    decreases |ys|
  {
    if ys != [] {
      StepKeepsBase(c, s, ys[0]);
      TurnOnlyGrows(c, Act(c, s, ys[0]), ys[1..]);
      EntryLeaves(c, s, ys[0], key);
      StaysForNow(c, s, ys[0], key);
      Retained(c, Act(c, s, ys[0]), ys[1..], key);
    }
  }

  lemma StaysForNow(c: Config, s: State, x: Action, key: nat)
    requires Base(c, s) && Enabled(c, s, x) && !Touches(c, s, x, key)
    requires key in s.entries && s.entries[key] < |s.traces| && Turn(Act(c, s, x)) < IndexOf(s, key) + c.epochs
    requires IndexOf(s, key) == 1 ==> !AtRisk(c, s, key)
    ensures var s' := Act(c, s, x);
      && Sized(c, s') && key in s'.entries && s'.entries[key] == s.entries[key] && s.entries[key] < |s'.traces|
      && IndexOf(s', key) == IndexOf(s, key)
      && (IndexOf(s', key) == 1 ==> !AtRisk(c, s', key))
  {
    EntryLeaves(c, s, x, key);
    StepKeepsBase(c, s, x);
    if IndexOf(s, key) == 1 {
      StaysOutOfRisk(c, s, x, key);
    }
    if x == CleanOne {
      assert Turn(Act(c, s, x)) == s.rotation.next;
      if IndexOf(s, key) == 1 && s.rotation.next == c.epochs {
        ZeroIsSpared(c, s, key);
      }
    }
  }

  lemma StaysOutOfRisk(c: Config, s: State, x: Action, key: nat)
    requires Base(c, s) && Enabled(c, s, x) && !Touches(c, s, x, key) && !AtRisk(c, s, key)
    ensures Sized(c, Act(c, s, x)) && !AtRisk(c, Act(c, s, x), key)
  {
    if !ListedInZero(c, s, key) {
      StaysUnlisted(c, s, x, key);
    } else {
      StepKeepsBase(c, s, x);
    }
  }

  /** A key that is not at risk is not among those looked up when slot 0 is cleaned. */
  lemma ZeroIsSpared(c: Config, s: State, key: nat)
    requires Base(c, s) && Enabled(c, s, CleanOne) && !AtRisk(c, s, key) && s.rotation.next == c.epochs
    ensures key !in ShardKeys(Target(c, s), s.rotation.shard)
  {
    DivModUnique(1, 0, c.epochs);
    assert Ring(c, c.epochs) == 0;
  }

  // ----- exactly when, after clear beginnings

  /**
   A rotation to index `next` deletes an entry of the shard it cleans exactly when the target
   slot lists the key and the entry was written one turn ago; the entries of index 1 also go
   one rotation early, because slots 0 and 1 both start with id 1.
   */
  lemma CleaningDeletes(c: Config, s0: State, xs: seq<Action>, s: State, key: nat)
    requires ReachedClear(c, s0, xs, s) && Enabled(c, s, CleanOne) && key in s.entries
    ensures s.entries[key] < |s.traces|
    ensures key !in Act(c, s, CleanOne).entries <==>
            && key in ShardKeys(Target(c, s), s.rotation.shard)
            && (IndexOf(s, key) + c.epochs == s.rotation.next || (IndexOf(s, key) == 1 && s.rotation.next == c.epochs))
  {
    ReachedInv(c, s0, xs, s);
    assert EntryOk(c, s, key);
    assert s.slots[s.traces[s.entries[key]].slot].index == IndexOf(s, key);
    assert IndexOf(s, key) > s.current - c.epochs;
    TargetServed(c, s);
    IdDecides(c, s, key);
  }

  lemma IdDecides(c: Config, s: State, key: nat)
    requires Inv(c, s) && s.rotation.Cleaning? && key in s.entries && s.entries[key] < |s.traces|
    requires IndexOf(s, key) > s.current - c.epochs
    requires Target(c, s).index == s.rotation.next - c.epochs
          || (Target(c, s).index < 0 && s.rotation.next < c.epochs)
    ensures s.epochOf[s.entries[key]] == Target(c, s).id <==>
      IndexOf(s, key) + c.epochs == s.rotation.next || (IndexOf(s, key) == 1 && s.rotation.next == c.epochs)
  {
    assert s.epochOf[s.entries[key]] == IdOf(IndexOf(s, key));
    assert Target(c, s).id == IdOf(Target(c, s).index);
    if Target(c, s).index >= 0 {
      SameId(IndexOf(s, key), Target(c, s).index);
    }
  }

  /** Expiry: once the rotation to i + max_epochs has been published, nothing written at i is left. */
  lemma GoneAfterATurn(c: Config, s0: State, xs: seq<Action>, s: State, key: nat)
    requires ReachedClear(c, s0, xs, s) && key in s.entries
    ensures s.entries[key] < |s.traces|
    ensures s.current < IndexOf(s, key) + c.epochs
    ensures s.rotation.Cleaning? && s.rotation.next == IndexOf(s, key) + c.epochs ==> s.rotation.shard <= key % c.shards
    ensures s.rotation.Renaming? || s.rotation.Publishing? ==> s.rotation.next < IndexOf(s, key) + c.epochs
  {
    ReachedInv(c, s0, xs, s);
    assert EntryOk(c, s, key);
    var i := IndexOf(s, key);
    assert s.slots[s.traces[s.entries[key]].slot].index == i;
    assert i > s.current - c.epochs;
    TurnKeepsSlot(i, c.epochs);
  }
}
