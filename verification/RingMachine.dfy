/**
 The epoch-ring cache as a state machine: workers SET, GET and DELETE while the maintenance
 task rotates the ring. A section under a lock is one step, but for a GET, which holds its read lock
 over two. The sharded maps are one map, since
 a key always belongs to shard `key % shards`; item addresses are numbers never used twice.
 */
module RingMachine {
  import opened RingLists

  datatype Status = Held(maker: nat) | Listed | Gone

  /** What the machine remembers of an item (history, except `epochOf` in State). */
  datatype Trace = Trace(slot: nat, index: nat, status: Status)

  /** A slot of the ring; `index` (history) is the last epoch index it served, if any. */
  datatype Slot = Slot(id: nat, items: seq<nat>, keys: seq<seq<nat>>, index: int)

  /** Where a SET stands. `index` (history) is the epoch index it read. */
  datatype Pc =
    | Ready
    | Chosen(slot: nat, index: nat, key: nat)              // slot picked
    | Made(slot: nat, index: nat, key: nat, x: nat)        // item allocated and filled
    | Recorded(slot: nat, index: nat, key: nat, x: nat)    // item in the slot's item list
    | Inserted(slot: nat, index: nat, key: nat)            // entry in the map, key not yet listed

  datatype Rotation =
    | NotRotating
    | Cleaning(next: nat, shard: nat)
    | Renaming(next: nat)
    | Publishing(next: nat)

  /** A GET between finding item `x` under `key` and reading its first byte. */
  datatype Look = Look(key: nat, x: nat)

  datatype State = State(
    entries: map<nat, nat>,
    epochOf: seq<nat>,        // item -> the epoch id stored in it
    frees: seq<nat>,          // item -> how often it has been freed
    traces: seq<Trace>,       // history
    slots: seq<Slot>,
    current: nat,             // current_epoch_idx
    rotation: Rotation,
    threads: seq<Pc>,
    reading: multiset<Look>)  // the GETs that have found an item and still hold their shard's read lock

  /** `epochs` is max_epochs. */
  datatype Config = Config(epochs: nat, shards: nat)
  {
    ghost predicate Valid() {
      epochs >= 2 && shards > 0
    }
  }

  function Ring(c: Config, index: nat): (i: nat)
    requires c.epochs > 0
    ensures i < c.epochs
  {
    index % c.epochs
  }

  /** The id a slot carries for an epoch index: the index itself, but 1 for index 0. */
  function IdOf(index: int): nat {
    if index < 0 then 0 else if index == 0 then 1 else index
  }

  predicate InFlightOn(pc: Pc, slot: nat) {
    !pc.Ready? && pc.slot == slot
  }

  datatype Action =
    | Choose(t: nat, key: nat)
    | Make(t: nat)
    | MakeFails(t: nat)
    | RecordItem(t: nat)
    | RecordFails(t: nat)
    | InsertEntry(t: nat)
    | RecordKey(t: nat)
    | GetMiss(key: nat)
    | GetFind(key: nat)
    | GetRead(look: Look)
    | Delete(key: nat)
    | BeginRotation
    | CleanOne
    | FreeItems
    | Rename
    | Publish

  ghost predicate Sized(c: Config, s: State) {
    && c.Valid()
    && |s.slots| == c.epochs
    && (forall i :: 0 <= i < |s.slots| ==> |s.slots[i].keys| == c.shards)
    && |s.frees| == |s.epochOf| && |s.traces| == |s.epochOf|
  }

  /** Some GET holds the read lock of the shard, so nobody can write to it. */
  ghost predicate Locked(c: Config, s: State, shard: nat)
    requires c.shards > 0
  {
    exists look :: look in s.reading && look.key % c.shards == shard
  }

  ghost predicate Enabled(c: Config, s: State, x: Action) {
    && Sized(c, s)
    && match x
       case Choose(t, _) => t < |s.threads| && s.threads[t].Ready?
       case Make(t) => t < |s.threads| && s.threads[t].Chosen? && s.threads[t].slot < c.epochs
       case MakeFails(t) => t < |s.threads| && s.threads[t].Chosen?
       case RecordItem(t) =>
         && t < |s.threads| && s.threads[t].Made? && s.threads[t].slot < c.epochs && s.threads[t].x < |s.epochOf|
       case RecordFails(t) => t < |s.threads| && s.threads[t].Made? && s.threads[t].x < |s.epochOf|
       case InsertEntry(t) =>
         && t < |s.threads| && s.threads[t].Recorded? && !Locked(c, s, s.threads[t].key % c.shards)
       case RecordKey(t) => t < |s.threads| && s.threads[t].Inserted? && s.threads[t].slot < c.epochs
       case GetMiss(key) => key !in s.entries
       case GetFind(key) => key in s.entries
       case GetRead(look) => look in s.reading
       case Delete(key) => !Locked(c, s, key % c.shards)
       case BeginRotation => s.rotation.NotRotating?
       case CleanOne => s.rotation.Cleaning? && s.rotation.shard < c.shards && !Locked(c, s, s.rotation.shard)
       case FreeItems => s.rotation.Cleaning? && s.rotation.shard == c.shards
       case Rename => s.rotation.Renaming?
       case Publish => s.rotation.Publishing?
  }

  function Target(c: Config, s: State): Slot
    requires !s.rotation.NotRotating? && c.epochs > 0 && |s.slots| == c.epochs
  {
    s.slots[Ring(c, s.rotation.next)]
  }

  function SetTarget(c: Config, s: State, slot: Slot): State
    requires !s.rotation.NotRotating? && c.epochs > 0 && |s.slots| == c.epochs
  {
    s.(slots := s.slots[Ring(c, s.rotation.next) := slot])
  }

  function Move(s: State, t: nat, pc: Pc): State
    requires t < |s.threads|
  {
    s.(threads := s.threads[t := pc])
  }

  /** The keys of the target's list for one shard. */
  function ShardKeys(slot: Slot, shard: nat): seq<nat>
    requires shard < |slot.keys|
  {
    slot.keys[shard]
  }

  ghost function Act(c: Config, s: State, x: Action): State
    requires Enabled(c, s, x)
  {
    match x
    case Choose(t, key) => Move(s, t, Chosen(Ring(c, s.current), s.current, key))
    case Make(t) =>
      var pc := s.threads[t];
      Move(s.(epochOf := s.epochOf + [s.slots[pc.slot].id], frees := s.frees + [0],
              traces := s.traces + [Trace(pc.slot, pc.index, Held(t))]),
           t, Made(pc.slot, pc.index, pc.key, |s.epochOf|))
    case MakeFails(t) => Move(s, t, Ready)
    case RecordItem(t) =>
      var pc := s.threads[t];
      var slot := s.slots[pc.slot];
      Move(s.(slots := s.slots[pc.slot := slot.(items := slot.items + [pc.x])],
              traces := s.traces[pc.x := s.traces[pc.x].(status := Listed)]),
           t, Recorded(pc.slot, pc.index, pc.key, pc.x))
    case RecordFails(t) =>
      var pc := s.threads[t];
      Move(s.(frees := s.frees[pc.x := s.frees[pc.x] + 1],
              traces := s.traces[pc.x := s.traces[pc.x].(status := Gone)]), t, Ready)
    case InsertEntry(t) =>
      var pc := s.threads[t];
      Move(s.(entries := s.entries[pc.key := pc.x]), t, Inserted(pc.slot, pc.index, pc.key))
    case RecordKey(t) =>
      var pc := s.threads[t];
      var slot := s.slots[pc.slot];
      var shard := pc.key % c.shards;
      Move(s.(slots := s.slots[pc.slot := slot.(keys := slot.keys[shard := slot.keys[shard] + [pc.key]])]), t, Ready)
    case GetMiss(_) => s
    case GetFind(key) => s.(reading := s.reading + multiset{Look(key, s.entries[key])})
    case GetRead(look) => s.(reading := s.reading - multiset{look})
    case Delete(key) => s.(entries := s.entries - {key})
    case BeginRotation =>
      var next := s.current + 1;
      s.(rotation := if s.slots[Ring(c, next)].id != 0 then Cleaning(next, 0) else Renaming(next))
    case CleanOne =>
      var slot := Target(c, s);
      var shard := s.rotation.shard;
      SetTarget(c, s, slot.(keys := slot.keys[shard := []]))
        .(entries := Cleaned(s.entries, ShardKeys(slot, shard), slot.id, s.epochOf),
          rotation := Cleaning(s.rotation.next, shard + 1))
    case FreeItems =>
      var slot := Target(c, s);
      SetTarget(c, s, slot.(items := []))
        .(frees := FreeEach(s.frees, slot.items),
          traces := seq(|s.traces|, i requires 0 <= i < |s.traces| =>
                      if i in slot.items then s.traces[i].(status := Gone) else s.traces[i]),
          rotation := Renaming(s.rotation.next))
    case Rename =>
      SetTarget(c, s, Target(c, s).(id := s.rotation.next, index := s.rotation.next))
        .(rotation := Publishing(s.rotation.next))
    case Publish => s.(current := s.rotation.next, rotation := NotRotating)
  }

  ghost predicate Init(c: Config, s: State) {
    && Sized(c, s)
    && s.entries == map[] && s.epochOf == [] && s.frees == [] && s.traces == []
    && (forall i :: 0 <= i < c.epochs ==>
          && s.slots[i].items == []
          && (forall k :: 0 <= k < c.shards ==> s.slots[i].keys[k] == [])
          && s.slots[i].id == (if i == 0 then 1 else 0)
          && s.slots[i].index == (if i == 0 then 0 else -1))
    && s.current == 0 && s.rotation == NotRotating && s.reading == multiset{}
    && (forall t :: 0 <= t < |s.threads| ==> s.threads[t] == Ready)
  }

  ghost predicate Executable(c: Config, s: State, xs: seq<Action>)
    decreases |xs|
  {
    xs == [] || (Enabled(c, s, xs[0]) && Executable(c, Act(c, s, xs[0]), xs[1..]))
  }

  ghost function After(c: Config, s: State, xs: seq<Action>): State
    requires Executable(c, s, xs)
    decreases |xs|
  {
    if xs == [] then s else After(c, Act(c, s, xs[0]), xs[1..])
  }

  // ----- when a rotation begins

  /** The run begins a rotation only in states that `guard` admits. The program's own guard is the clock alone. */
  ghost predicate Guarded(c: Config, s: State, xs: seq<Action>, guard: (Config, State) -> bool)
    requires Executable(c, s, xs)
    decreases |xs|
  {
    xs == [] || ((xs[0].BeginRotation? ==> guard(c, s)) && Guarded(c, Act(c, s, xs[0]), xs[1..], guard))
  }

  /** A SET between picking `slot` and putting its entry into the map. */
  predicate Underway(pc: Pc, slot: nat) {
    (pc.Chosen? || pc.Made? || pc.Recorded?) && pc.slot == slot
  }

  /**
   No SET is on its way to an entry on the slot that is next, and every entry that points to an
   item of that slot has its key listed there.
   */
  ghost predicate Clear(c: Config, s: State) {
    Sized(c, s) ==>
      var i := Ring(c, s.current + 1);
      && (forall t :: 0 <= t < |s.threads| ==> !Underway(s.threads[t], i))
      && (forall key :: key in s.entries && s.entries[key] in s.slots[i].items ==> Lists(c, s, i, key))
  }

  /** The key list of `slot` has `key`. */
  ghost predicate Lists(c: Config, s: State, slot: nat, key: nat)
    requires Sized(c, s) && slot < c.epochs
  {
    key in s.slots[slot].keys[key % c.shards]
  }

  /** No SET at all is in flight on the slot that is next: a rotation that waits for them has this. */
  ghost predicate Orderly(c: Config, s: State) {
    Sized(c, s) ==> forall t :: 0 <= t < |s.threads| ==> !InFlightOn(s.threads[t], Ring(c, s.current + 1))
  }
}
