/**
 Any sequence of calls on the table: how the copies of one key stay ordered, why a hit is never
 stale, and when the table is exactly a map.
 */
module CacheHistory {
  import opened CacheTable

  datatype Setup = Setup(hash: nat -> nat, probes: nat, ttl: nat)

  datatype Call =
    | Look(key: nat, now: nat)
    | Put(key: nat, now: nat)
    | Clean(cursor: nat, budget: nat, now: nat)

  /** `latest`: the payload of the most recent successful store of each key. */
  datatype World = World(table: seq<Bucket>, clock: nat, puts: nat, latest: map<nat, Item>)

  function NewItem(u: Setup, w: World, key: nat, now: nat): Item {
    Item(key, now + u.ttl, w.puts)
  }

  function Next(u: Setup, w: World, call: Call): (w': World)
    requires |w.table| > 0
    ensures |w'.table| == |w.table|
  {
    match call
    case Look(key, now) =>
      w.(table := LookupTable(w.table, u.hash(key), key, now, u.probes), clock := now)
    case Put(key, now) =>
      var item := NewItem(u, w, key, now);
      World(StoreTable(w.table, u.hash(key), item, now, u.probes), now, w.puts + 1,
            if StoreAnswer(w.table, u.hash(key), item, now, u.probes).Rejected? then w.latest
            else w.latest[key := item])
    case Clean(cursor, budget, now) =>
      w.(table := SweptTable(w.table, cursor, budget, now), clock := now)
  }

  function Start(n: nat): World {
    World(seq(n, _ => Empty), 0, 0, map[])
  }

  function After(u: Setup, w: World, calls: seq<Call>): (w': World)
    requires |w.table| > 0
    ensures |w'.table| == |w.table|
  {
    if calls == [] then w
    else Next(u, After(u, w, calls[..|calls| - 1]), calls[|calls| - 1])
  }

  /** The time stamps never go back. */
  predicate Chronological(calls: seq<Call>) {
    forall i, j :: 0 <= i < j < |calls| ==> calls[i].now <= calls[j].now
  }

  // ----- the order of copies

  /** How far bucket `i` is from the home of the payload in it. */
  function Reach(u: Setup, t: seq<Bucket>, i: nat): nat
    requires i < |t| && t[i].Full?
  {
    Dist(u.hash(t[i].item.key), i, |t|)
  }

  ghost predicate Known(u: Setup, w: World) {
    forall i :: 0 <= i < |w.table| && w.table[i].Full? ==>
      var it := w.table[i].item;
      && it.key in w.latest
      && it.stamp <= w.latest[it.key].stamp
      && it.expire <= w.latest[it.key].expire
      && (it.stamp == w.latest[it.key].stamp ==> it == w.latest[it.key])
  }

  ghost predicate NewestFirst(u: Setup, t: seq<Bucket>) {
    forall i, j :: 0 <= i < |t| && 0 <= j < |t| && t[i].Full? && t[j].Full? && t[i].item.key == t[j].item.key ==>
      Reach(u, t, i) < Reach(u, t, j) ==> t[i].item.stamp > t[j].item.stamp
  }

  ghost predicate LatestOk(u: Setup, w: World) {
    forall key :: key in w.latest ==>
      && w.latest[key].key == key
      && w.latest[key].stamp < w.puts
      && w.latest[key].expire <= w.clock + u.ttl
      && (Full(w.latest[key]) in w.table || w.latest[key].expire <= w.clock)
  }

  ghost predicate Orderly(u: Setup, w: World) {
    |w.table| > 0 && Known(u, w) && NewestFirst(u, w.table) && LatestOk(u, w)
  }

  /** The loops stop within one turn of the table or not at all. */
  lemma StoreStopsInTurn(t: seq<Bucket>, h: nat, key: nat, now: nat, probes: nat)
    requires |t| > 0
    ensures var k := StoreStop(t, h, key, now, 0, probes); k < probes ==> k < |t|
  {
    var k := StoreStop(t, h, key, now, 0, probes);
    if k < probes && k >= |t| {
      SlotRepeats(h, k - |t|, |t|);
    }
  }

  lemma LookupStopsInTurn(t: seq<Bucket>, h: nat, key: nat, probes: nat)
    requires |t| > 0
    ensures var k := LookupStop(t, h, key, 0, probes); k < probes ==> k < |t|
  {
    var k := LookupStop(t, h, key, 0, probes);
    if k < probes && k >= |t| {
      SlotRepeats(h, k - |t|, |t|);
    }
  }

  /** A store goes in front of every copy of its key. */
  lemma StoreGoesFirst(u: Setup, t: seq<Bucket>, key: nat, now: nat, i: nat)
    requires |t| > 0 && i < |t| && t[i].Full? && t[i].item.key == key
    ensures var h := u.hash(key);
      var k := StoreStop(t, h, key, now, 0, u.probes);
      k < u.probes ==> Dist(h, Slot(h, k, |t|), |t|) <= Reach(u, t, i)
  {
    var h := u.hash(key);
    var k := StoreStop(t, h, key, now, 0, u.probes);
    StoreStopsInTurn(t, h, key, now, u.probes);
    if k < u.probes {
      DistSlot(h, k, |t|);
      SlotDist(h, i, |t|);
    }
  }

  /** The copy a lookup stops at is in front of every other copy of its key. */
  lemma LookupFindsFirst(u: Setup, t: seq<Bucket>, key: nat, i: nat)
    requires |t| > 0 && i < |t| && t[i].Full? && t[i].item.key == key
    ensures var h := u.hash(key);
      var k := LookupStop(t, h, key, 0, u.probes);
      k < u.probes && t[Slot(h, k, |t|)].Full? ==>
        && t[Slot(h, k, |t|)].item.key == key
        && Reach(u, t, Slot(h, k, |t|)) <= Reach(u, t, i)
  {
    var h := u.hash(key);
    var k := LookupStop(t, h, key, 0, u.probes);
    LookupStopsInTurn(t, h, key, u.probes);
    if k < u.probes {
      DistSlot(h, k, |t|);
      SlotDist(h, i, |t|);
    }
  }

  lemma SameReach(h: nat, i: nat, j: nat, n: nat)
    requires i < n && j < n && Dist(h, i, n) == Dist(h, j, n)
    ensures i == j
  {
    SlotDist(h, i, n);
    SlotDist(h, j, n);
  }

  lemma RemovalKeepsLatest(u: Setup, w: World, t: seq<Bucket>, now: nat)
    requires LatestOk(u, w) && w.clock <= now && |t| == |w.table|
    requires forall i :: 0 <= i < |t| ==>
               t[i] == w.table[i] || (t[i] == Empty && w.table[i].Full? && w.table[i].item.expire <= now)
    ensures LatestOk(u, w.(table := t, clock := now))
  {
    forall key | key in w.latest ensures Full(w.latest[key]) in t || w.latest[key].expire <= now {
      if Full(w.latest[key]) in w.table {
        var i :| 0 <= i < |w.table| && w.table[i] == Full(w.latest[key]);
        if t[i] == w.table[i] {
          assert t[i] in t;
        }
      }
    }
  }

  /** Taking out expired payloads keeps the order. */
  lemma RemovalKeepsOrder(u: Setup, w: World, t: seq<Bucket>, now: nat)
    requires Orderly(u, w) && w.clock <= now && |t| == |w.table|
    requires forall i :: 0 <= i < |t| ==>
               t[i] == w.table[i] || (t[i] == Empty && w.table[i].Full? && w.table[i].item.expire <= now)
    ensures Orderly(u, w.(table := t, clock := now))
  {
    RemovalKeepsLatest(u, w, t, now);
    RemovalKeepsNewest(u, w.table, t);
    assert forall i :: 0 <= i < |t| && t[i].Full? ==> t[i] == w.table[i];
  }

  lemma RemovalKeepsNewest(u: Setup, was: seq<Bucket>, t: seq<Bucket>)
    requires NewestFirst(u, was) && |t| == |was|
    requires forall i :: 0 <= i < |t| && t[i].Full? ==> t[i] == was[i]
    ensures NewestFirst(u, t)
  {
    forall i, j | 0 <= i < |t| && 0 <= j < |t| && t[i].Full? && t[j].Full? && t[i].item.key == t[j].item.key
      && Reach(u, t, i) < Reach(u, t, j)
      ensures t[i].item.stamp > t[j].item.stamp
    {
      assert Reach(u, was, i) == Reach(u, t, i) && Reach(u, was, j) == Reach(u, t, j);
    }
  }

  /** A payload put in front of all others of its key, and newer than they are, keeps the copies newest-first. */
  lemma PutFirstKeepsOrder(u: Setup, t: seq<Bucket>, i: nat, item: Item)
    requires NewestFirst(u, t) && i < |t|
    requires forall j :: 0 <= j < |t| && j != i && t[j].Full? && t[j].item.key == item.key ==>
               t[j].item.stamp < item.stamp && Dist(u.hash(item.key), i, |t|) < Reach(u, t, j)
    ensures NewestFirst(u, t[i := Full(item)])
  {
    var t' := t[i := Full(item)];
    assert forall j :: 0 <= j < |t| && j != i && t[j].Full? ==> Reach(u, t', j) == Reach(u, t, j);
  }

  lemma PutIsKnown(u: Setup, w: World, i: nat, item: Item, w': World)
    requires Known(u, w) && i < |w.table|
    requires w'.table == w.table[i := Full(item)] && w'.latest == w.latest[item.key := item]
    requires item.key in w.latest ==> w.latest[item.key].stamp < item.stamp && w.latest[item.key].expire <= item.expire
    ensures Known(u, w')
  {
  }

  lemma StoreKeepsOrder(u: Setup, w: World, key: nat, now: nat)
    requires Orderly(u, w) && w.clock <= now
    ensures Orderly(u, Next(u, w, Put(key, now)))
  {
    var h, item := u.hash(key), NewItem(u, w, key, now);
    var t := w.table;
    var k := StoreStop(t, h, key, now, 0, u.probes);
    var w' := Next(u, w, Put(key, now));
    if k == u.probes {
      assert w' == w.(clock := now, puts := w.puts + 1);
    } else {
      var i := Slot(h, k, |t|);
      forall j | 0 <= j < |t| && j != i && t[j].Full? && t[j].item.key == key
        ensures Dist(h, i, |t|) < Reach(u, t, j)
      {
        StoreGoesFirst(u, t, key, now, j);
        if Dist(h, i, |t|) == Reach(u, t, j) {
          SameReach(h, i, j, |t|);
        }
      }
      PutFirstKeepsOrder(u, t, i, item);
      PutIsKnown(u, w, i, item, w');
      StoreKeepsLatest(u, w, key, now, i);
    }
  }

  /** Whatever a store displaces had expired or is superseded by it. */
  lemma StoreKeepsLatest(u: Setup, w: World, key: nat, now: nat, i: nat)
    requires Orderly(u, w) && w.clock <= now && i < |w.table|
    requires StopsStore(w.table[i], key, now)
    ensures LatestOk(u, World(w.table[i := Full(NewItem(u, w, key, now))], now, w.puts + 1,
                              w.latest[key := NewItem(u, w, key, now)]))
  {
    var item := NewItem(u, w, key, now);
    var t' := w.table[i := Full(item)];
    assert t'[i] in t';
    forall other | other in w.latest && other != key
      ensures Full(w.latest[other]) in t' || w.latest[other].expire <= now
    {
      if Full(w.latest[other]) in w.table {
        var j :| 0 <= j < |w.table| && w.table[j] == Full(w.latest[other]);
        if j != i {
          assert t'[j] in t';
        }
      }
    }
  }

  lemma CallKeepsOrder(u: Setup, w: World, call: Call)
    requires Orderly(u, w) && w.clock <= call.now
    ensures Orderly(u, Next(u, w, call)) && Next(u, w, call).clock == call.now
  {
    match call
    case Look(_, now) => RemovalKeepsOrder(u, w, Next(u, w, call).table, now);
    case Clean(_, _, now) => RemovalKeepsOrder(u, w, Next(u, w, call).table, now);
    case Put(key, now) => StoreKeepsOrder(u, w, key, now);
  }

  /** Over any calls in time order, the copies of each key stay newest-first in probe order. */
  lemma {:induction false} HistoryIsOrderly(u: Setup, n: nat, calls: seq<Call>)
    requires n > 0 && Chronological(calls)
    ensures Orderly(u, After(u, Start(n), calls))
    ensures calls == [] || After(u, Start(n), calls).clock == calls[|calls| - 1].now
    ensures calls == [] ==> After(u, Start(n), calls).clock == 0
  {
    if calls != [] {
      HistoryIsOrderly(u, n, calls[..|calls| - 1]);
      CallKeepsOrder(u, After(u, Start(n), calls[..|calls| - 1]), calls[|calls| - 1]);
    }
  }

  /**
   No stale hit: after any calls in time order, a lookup that hits returns the payload of the
   most recent successful store of its key, whatever was expired, swept, displaced or
   duplicated before.
   */
  lemma NoStaleHit(u: Setup, n: nat, calls: seq<Call>, key: nat, now: nat, item: Item)
    requires n > 0 && Chronological(calls + [Look(key, now)])
    requires LookupAnswer(After(u, Start(n), calls).table, u.hash(key), key, now, u.probes) == Hit(item)
    ensures key in After(u, Start(n), calls).latest && item == After(u, Start(n), calls).latest[key]
    ensures item.expire > now
  {
    var w := After(u, Start(n), calls);
    var all := calls + [Look(key, now)];
    assert forall i, j :: 0 <= i < j < |calls| ==> all[i] == calls[i] && all[j] == calls[j];
    HistoryIsOrderly(u, n, calls);
    assert calls != [] ==> all[|calls| - 1].now <= all[|calls|].now;
    var i := Slot(u.hash(key), LookupStop(w.table, u.hash(key), key, 0, u.probes), n);
    assert w.table[i] == Full(item);
    assert Full(w.latest[key]) in w.table;
    var j :| 0 <= j < |w.table| && w.table[j] == Full(w.latest[key]);
    LookupFindsFirst(u, w.table, key, j);
    if Reach(u, w.table, i) == Reach(u, w.table, j) {
      SameReach(u.hash(key), i, j, n);
    }
  }
}
