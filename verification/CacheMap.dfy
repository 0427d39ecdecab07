/** While nothing in the table has expired, the table is exactly a map. */
module CacheMap {
  import opened CacheTable
  import opened CacheHistory

  predicate NothingExpired(t: seq<Bucket>, now: nat) {
    forall i :: 0 <= i < |t| && t[i].Full? ==> t[i].item.expire > now
  }

  /** Whenever a call is made, nothing linked has expired at its time stamp. */
  predicate Calm(u: Setup, w: World, calls: seq<Call>)
    requires |w.table| > 0
  {
    calls == [] ||
    (Calm(u, w, calls[..|calls| - 1])
     && NothingExpired(After(u, w, calls[..|calls| - 1]).table, calls[|calls| - 1].now))
  }

  /** Every payload is within its key's probes with no empty bucket before it. */
  ghost predicate NoHoles(u: Setup, t: seq<Bucket>) {
    forall i :: 0 <= i < |t| && t[i].Full? ==>
      && Reach(u, t, i) < u.probes
      && forall d: nat :: d < Reach(u, t, i) ==> t[Slot(u.hash(t[i].item.key), d, |t|)].Full?
  }

  ghost predicate OneCopy(t: seq<Bucket>) {
    forall i, j :: 0 <= i < j < |t| && t[i].Full? && t[j].Full? ==> t[i].item.key != t[j].item.key
  }

  /** The payloads in the table are the latest ones, all of them. */
  ghost predicate Mirrors(w: World) {
    && (forall i :: 0 <= i < |w.table| && w.table[i].Full? ==>
          w.table[i].item.key in w.latest && w.table[i].item == w.latest[w.table[i].item.key])
    && (forall key :: key in w.latest ==> w.latest[key].key == key && Full(w.latest[key]) in w.table)
  }

  ghost predicate IsMap(u: Setup, w: World) {
    |w.table| > 0 && NoHoles(u, w.table) && OneCopy(w.table) && Mirrors(w)
  }

  /** A key's copy is where both loops stop. */
  lemma StopsAtCopy(u: Setup, t: seq<Bucket>, key: nat, now: nat, i: nat)
    requires |t| > 0 && NoHoles(u, t) && OneCopy(t) && NothingExpired(t, now)
    requires i < |t| && t[i].Full? && t[i].item.key == key
    ensures LookupStop(t, u.hash(key), key, 0, u.probes) == Reach(u, t, i) < u.probes
    ensures StoreStop(t, u.hash(key), key, now, 0, u.probes) == Reach(u, t, i)
    ensures Slot(u.hash(key), Reach(u, t, i), |t|) == i
  {
    var h := u.hash(key);
    var r := Reach(u, t, i);
    SlotDist(h, i, |t|);
    forall d: nat | d < r ensures !StopsStore(t[Slot(h, d, |t|)], key, now) && !StopsLookup(t[Slot(h, d, |t|)], key) {
      assert t[Slot(h, d, |t|)].Full?;
      DistSlot(h, d, |t|);
    }
  }

  /** Without a copy, the loops stop only at an empty bucket. */
  lemma StopsAtEmpty(u: Setup, t: seq<Bucket>, key: nat, now: nat)
    requires |t| > 0 && NothingExpired(t, now)
    requires forall i :: 0 <= i < |t| && t[i].Full? ==> t[i].item.key != key
    ensures var k := LookupStop(t, u.hash(key), key, 0, u.probes);
      k < u.probes ==> t[Slot(u.hash(key), k, |t|)].Empty?
    ensures var k := StoreStop(t, u.hash(key), key, now, 0, u.probes);
      k < u.probes ==> t[Slot(u.hash(key), k, |t|)].Empty?
  {
  }

  lemma LookupOnMap(u: Setup, w: World, key: nat, now: nat)
    requires IsMap(u, w) && NothingExpired(w.table, now)
    ensures LookupAnswer(w.table, u.hash(key), key, now, u.probes)
         == if key in w.latest then Hit(w.latest[key]) else Miss
  {
    if key in w.latest {
      var i :| 0 <= i < |w.table| && w.table[i] == Full(w.latest[key]);
      StopsAtCopy(u, w.table, key, now, i);
    } else {
      StopsAtEmpty(u, w.table, key, now);
    }
  }

  lemma OverwriteKeepsMap(u: Setup, w: World, key: nat, now: nat, i: nat)
    requires IsMap(u, w) && NothingExpired(w.table, now)
    requires i < |w.table| && w.table[i].Full? && w.table[i].item.key == key
    ensures IsMap(u, Next(u, w, Put(key, now)))
  {
    StopsAtCopy(u, w.table, key, now, i);
    var item := NewItem(u, w, key, now);
    var w' := Next(u, w, Put(key, now));
    assert w'.table == w.table[i := Full(item)] && w'.latest == w.latest[key := item];
    MirrorsAfterWrite(u, w, item, i, w');
  }

  lemma InsertLeavesNoHoles(u: Setup, t: seq<Bucket>, item: Item, now: nat, k: nat)
    requires |t| > 0 && NoHoles(u, t) && k == StoreStop(t, u.hash(item.key), item.key, now, 0, u.probes) < u.probes
    requires k < |t|
    ensures NoHoles(u, t[Slot(u.hash(item.key), k, |t|) := Full(item)])
  {
    var h := u.hash(item.key);
    var t' := t[Slot(h, k, |t|) := Full(item)];
    DistSlot(h, k, |t|);
    forall d: nat | d < k ensures t'[Slot(h, d, |t|)].Full? {
      assert !StopsStore(t[Slot(h, d, |t|)], item.key, now);
    }
  }

  lemma InsertKeepsMap(u: Setup, w: World, key: nat, now: nat)
    requires IsMap(u, w) && NothingExpired(w.table, now) && key !in w.latest
    ensures IsMap(u, Next(u, w, Put(key, now)))
  {
    var h := u.hash(key);
    StopsAtEmpty(u, w.table, key, now);
    StoreStopsInTurn(w.table, h, key, now, u.probes);
    var k := StoreStop(w.table, h, key, now, 0, u.probes);
    var item := NewItem(u, w, key, now);
    var w' := Next(u, w, Put(key, now));
    if k < u.probes {
      var i := Slot(h, k, |w.table|);
      assert w'.table == w.table[i := Full(item)] && w'.latest == w.latest[key := item];
      InsertLeavesNoHoles(u, w.table, item, now, k);
      MirrorsAfterWrite(u, w, item, i, w');
    } else {
      assert w'.table == w.table && w'.latest == w.latest;
    }
  }

  /** Writing the only copy of a key into an empty bucket or over the old copy keeps the mirror. */
  lemma MirrorsAfterWrite(u: Setup, w: World, item: Item, i: nat, w': World)
    requires Mirrors(w) && OneCopy(w.table) && i < |w.table|
    requires w'.table == w.table[i := Full(item)] && w'.latest == w.latest[item.key := item]
    requires w.table[i].Empty? || w.table[i].item.key == item.key
    requires w.table[i].Empty? ==> item.key !in w.latest
    ensures Mirrors(w') && OneCopy(w'.table)
  {
    assert w'.table[i] in w'.table;
    forall key | key in w.latest && key != item.key ensures Full(w.latest[key]) in w'.table {
      var j :| 0 <= j < |w.table| && w.table[j] == Full(w.latest[key]);
      assert w'.table[j] in w'.table;
    }
  }

  lemma CallKeepsMap(u: Setup, w: World, call: Call)
    requires IsMap(u, w) && NothingExpired(w.table, call.now)
    ensures IsMap(u, Next(u, w, call))
  {
    match call
    case Look(key, now) =>
      LookupOnMap(u, w, key, now);
    case Clean(_, _, now) =>
      assert Next(u, w, call).table == w.table;
    case Put(key, now) =>
      if key in w.latest {
        var i :| 0 <= i < |w.table| && w.table[i] == Full(w.latest[key]);
        OverwriteKeepsMap(u, w, key, now, i);
      } else {
        InsertKeepsMap(u, w, key, now);
      }
  }

  lemma {:induction false} CalmHistoryIsMap(u: Setup, n: nat, calls: seq<Call>)
    requires n > 0 && Calm(u, Start(n), calls)
    ensures IsMap(u, After(u, Start(n), calls))
  {
    if calls != [] {
      CalmHistoryIsMap(u, n, calls[..|calls| - 1]);
      CallKeepsMap(u, After(u, Start(n), calls[..|calls| - 1]), calls[|calls| - 1]);
    }
  }

  /**
   While nothing linked has expired, a lookup hits with the payload of the last successful
   store if some store of the key succeeded, and misses otherwise.
   */
  lemma TableIsMap(u: Setup, n: nat, calls: seq<Call>, key: nat, now: nat)
    requires n > 0 && Calm(u, Start(n), calls + [Look(key, now)])
    ensures var w := After(u, Start(n), calls);
      LookupAnswer(w.table, u.hash(key), key, now, u.probes) == if key in w.latest then Hit(w.latest[key]) else Miss
  {
    var all := calls + [Look(key, now)];
    assert all[..|all| - 1] == calls;
    CalmHistoryIsMap(u, n, calls);
    LookupOnMap(u, After(u, Start(n), calls), key, now);
  }
}
