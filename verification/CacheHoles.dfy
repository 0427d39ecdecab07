/**
 Once something has expired, a key that is linked and live can be hidden behind a hole. Exactly when a
 lookup finds it, and exactly which tables never hide one.
 */
module CacheHoles {
  import opened CacheTable
  import opened CacheHistory

  // ----- which live keys are found

  /** Every payload is within the probes of its home. */
  ghost predicate InReach(u: Setup, t: seq<Bucket>) {
    forall i :: 0 <= i < |t| && t[i].Full? ==> Reach(u, t, i) < u.probes
  }

  lemma CallKeepsReach(u: Setup, w: World, call: Call)
    requires |w.table| > 0 && InReach(u, w.table)
    ensures InReach(u, Next(u, w, call).table)
  {
    if call.Put? {
      var h := u.hash(call.key);
      var k := StoreStop(w.table, h, call.key, call.now, 0, u.probes);
      StoreStopsInTurn(w.table, h, call.key, call.now, u.probes);
      if k < u.probes {
        DistSlot(h, k, |w.table|);
      }
    }
  }

  lemma {:induction false} HistoryKeepsReach(u: Setup, n: nat, calls: seq<Call>)
    requires n > 0
    ensures InReach(u, After(u, Start(n), calls).table)
  {
    if calls != [] {
      HistoryKeepsReach(u, n, calls[..|calls| - 1]);
      CallKeepsReach(u, After(u, Start(n), calls[..|calls| - 1]), calls[|calls| - 1]);
    }
  }

  /** No bucket on the way from a home position to bucket `i` is empty. */
  ghost predicate NoHoleBefore(t: seq<Bucket>, h: nat, i: nat)
    requires i < |t|
  {
    forall j :: 0 <= j < |t| && Dist(h, j, |t|) < Dist(h, i, |t|) ==> t[j].Full?
  }

  /** The most recent payload of a key is in front of all its other copies. */
  lemma NoCopyBefore(u: Setup, w: World, key: nat, i: nat, d: nat)
    requires Orderly(u, w) && key in w.latest && i < |w.table| && w.table[i] == Full(w.latest[key])
    requires d < Reach(u, w.table, i)
    ensures var b := w.table[Slot(u.hash(key), d, |w.table|)]; b.Full? ==> b.item.key != key
  {
    DistSlot(u.hash(key), d, |w.table|);
  }

  lemma LookupStopsAtHoleOrCopy(u: Setup, w: World, key: nat, i: nat)
    requires Orderly(u, w) && InReach(u, w.table)
    requires key in w.latest && i < |w.table| && w.table[i] == Full(w.latest[key])
    ensures var h := u.hash(key); var k := LookupStop(w.table, h, key, 0, u.probes);
      && k <= Reach(u, w.table, i) < u.probes
      && (k < Reach(u, w.table, i) ==> w.table[Slot(h, k, |w.table|)].Empty?)
      && (k == Reach(u, w.table, i) ==> Slot(h, k, |w.table|) == i)
  {
    var h := u.hash(key);
    var k := LookupStop(w.table, h, key, 0, u.probes);
    SlotDist(h, i, |w.table|);
    assert StopsLookup(w.table[Slot(h, Reach(u, w.table, i), |w.table|)], key);
    if k < Reach(u, w.table, i) {
      NoCopyBefore(u, w, key, i, k);
    }
  }

  lemma LookupGetsThrough(u: Setup, w: World, key: nat, now: nat, i: nat)
    requires Orderly(u, w) && InReach(u, w.table)
    requires key in w.latest && i < |w.table| && w.table[i] == Full(w.latest[key]) && w.latest[key].expire > now
    ensures LookupAnswer(w.table, u.hash(key), key, now, u.probes)
         == if NoHoleBefore(w.table, u.hash(key), i) then Hit(w.latest[key]) else Miss
  {
    var h := u.hash(key);
    var n := |w.table|;
    var k := LookupStop(w.table, h, key, 0, u.probes);
    LookupStopsAtHoleOrCopy(u, w, key, i);
    if k < Reach(u, w.table, i) {
      DistSlot(h, k, n);
      assert !NoHoleBefore(w.table, h, i);
    } else {
      forall j | 0 <= j < n && Dist(h, j, n) < Dist(h, i, n) ensures w.table[j].Full? {
        SlotDist(h, j, n);
        assert !StopsLookup(w.table[Slot(h, Dist(h, j, n), n)], key);
      }
    }
  }

  lemma EarlierCalls(calls: seq<Call>, last: Call)
    requires Chronological(calls + [last])
    ensures Chronological(calls) && (calls != [] ==> calls[|calls| - 1].now <= last.now)
  {
    var all := calls + [last];
    assert forall i, j :: 0 <= i < j < |calls| ==> all[i] == calls[i] && all[j] == calls[j];
    assert calls != [] ==> all[|calls| - 1].now <= all[|calls|].now;
  }

  /**
   Which live keys are found, exactly: after any calls in time order, a lookup of a key whose most recent
   payload is linked in bucket `i` and live hits that payload if no bucket on the way to `i` is
   empty, and misses otherwise.
   */
  lemma LiveKeyIsFound(u: Setup, n: nat, calls: seq<Call>, key: nat, now: nat, i: nat)
    requires n > 0 && i < n && Chronological(calls + [Look(key, now)])
    requires var w := After(u, Start(n), calls);
      key in w.latest && w.table[i] == Full(w.latest[key]) && w.latest[key].expire > now
    ensures var w := After(u, Start(n), calls);
      LookupAnswer(w.table, u.hash(key), key, now, u.probes)
        == if NoHoleBefore(w.table, u.hash(key), i) then Hit(w.latest[key]) else Miss
  {
    EarlierCalls(calls, Look(key, now));
    HistoryIsOrderly(u, n, calls);
    HistoryKeepsReach(u, n, calls);
    LookupGetsThrough(u, After(u, Start(n), calls), key, now, i);
  }

  // ----- which tables never hide a live key

  /** All lookups and stores are of keys below `space`. */
  ghost predicate Within(calls: seq<Call>, space: nat) {
    forall i :: 0 <= i < |calls| && !calls[i].Clean? ==> calls[i].key < space
  }

  /**
   After no calls in time order, with keys below `space`, does a lookup of such a key miss it although its most
   recent payload is linked and live.
   */
  ghost predicate NeverHides(u: Setup, n: nat, space: nat)
    requires n > 0
  {
    forall calls: seq<Call>, key: nat, now: nat ::
      var w := After(u, Start(n), calls);
      Within(calls, space) && key < space && Chronological(calls + [Look(key, now)])
      && key in w.latest && Full(w.latest[key]) in w.table && w.latest[key].expire > now ==>
        LookupAnswer(w.table, u.hash(key), key, now, u.probes) == Hit(w.latest[key])
  }

  predicate Live(b: Bucket, now: nat) {
    b.Full? && b.item.expire > now
  }

  /** In front of a live payload there are only live payloads. */
  ghost predicate Tight(u: Setup, w: World) {
    forall i, j :: 0 <= i < |w.table| && 0 <= j < |w.table| && Live(w.table[i], w.clock) ==>
      Dist(u.hash(w.table[i].item.key), j, |w.table|) < Reach(u, w.table, i) ==> Live(w.table[j], w.clock)
  }

  /** With a time to live of at most 1, what is live was stored at this very time. */
  lemma LivesForATick(u: Setup, w: World, now: nat, i: nat)
    requires Orderly(u, w) && u.ttl <= 1 && w.clock <= now && i < |w.table| && Live(w.table[i], now)
    ensures w.clock == now && u.ttl == 1
  {
    assert w.latest[w.table[i].item.key].expire <= w.clock + u.ttl;
  }

  lemma RemovalKeepsTight(u: Setup, w: World, t: seq<Bucket>, now: nat)
    requires Orderly(u, w) && Tight(u, w) && u.ttl <= 1 && w.clock <= now && |t| == |w.table|
    requires forall i :: 0 <= i < |t| ==>
               t[i] == w.table[i] || (t[i] == Empty && w.table[i].Full? && w.table[i].item.expire <= now)
    ensures Tight(u, w.(table := t, clock := now))
  {
    forall i | 0 <= i < |t| && Live(t[i], now) ensures now == w.clock {
      LivesForATick(u, w, now, i);
    }
  }

  /** A store comes to stand behind live payloads only. */
  lemma StoredBehindLive(u: Setup, t: seq<Bucket>, key: nat, now: nat, j: nat)
    requires |t| > 0 && j < |t|
    requires var k := StoreStop(t, u.hash(key), key, now, 0, u.probes);
      k < u.probes && Dist(u.hash(key), j, |t|) < Dist(u.hash(key), Slot(u.hash(key), k, |t|), |t|)
    ensures t[j].Full? && t[j].item.expire > now
  {
    var h := u.hash(key);
    var k := StoreStop(t, h, key, now, 0, u.probes);
    StoreStopsInTurn(t, h, key, now, u.probes);
    DistSlot(h, k, |t|);
    SlotDist(h, j, |t|);
    assert !StopsStore(t[Slot(h, Dist(h, j, |t|), |t|)], key, now);
  }

  lemma StoreKeepsTight(u: Setup, w: World, key: nat, now: nat)
    requires Orderly(u, w) && Tight(u, w) && u.ttl <= 1 && w.clock <= now
    ensures Tight(u, Next(u, w, Put(key, now)))
  {
    var h, item := u.hash(key), NewItem(u, w, key, now);
    var k := StoreStop(w.table, h, key, now, 0, u.probes);
    if k == u.probes {
      RemovalKeepsTight(u, w, w.table, now);
      assert Next(u, w, Put(key, now)).table == w.table;
    } else {
      var i0 := Slot(h, k, |w.table|);
      var t' := w.table[i0 := Full(item)];
      assert Next(u, w, Put(key, now)).table == t';
      forall i, j | 0 <= i < |t'| && 0 <= j < |t'| && Live(t'[i], now)
        && Dist(u.hash(t'[i].item.key), j, |t'|) < Reach(u, t', i)
        ensures Live(t'[j], now)
      {
        if i == i0 {
          StoredBehindLive(u, w.table, key, now, j);
        } else {
          OldStaysTight(u, w, now, i, j);
        }
      }
    }
  }

  /** A payload that was there before and is still live has live payloads in front of it: the clock has not moved. */
  lemma OldStaysTight(u: Setup, w: World, now: nat, i: nat, j: nat)
    requires Orderly(u, w) && Tight(u, w) && u.ttl <= 1 && w.clock <= now
    requires i < |w.table| && j < |w.table| && Live(w.table[i], now)
    requires Dist(u.hash(w.table[i].item.key), j, |w.table|) < Reach(u, w.table, i)
    ensures Live(w.table[j], now)
  {
    LivesForATick(u, w, now, i);
  }

  lemma {:induction false} HistoryIsTight(u: Setup, n: nat, calls: seq<Call>)
    requires n > 0 && u.ttl <= 1 && Chronological(calls)
    ensures Tight(u, After(u, Start(n), calls))
  {
    if calls != [] {
      var before, call := calls[..|calls| - 1], calls[|calls| - 1];
      var w := After(u, Start(n), before);
      HistoryIsTight(u, n, before);
      HistoryIsOrderly(u, n, before);
      match call
      case Put(key, now) => StoreKeepsTight(u, w, key, now);
      case _ => RemovalKeepsTight(u, w, Next(u, w, call).table, call.now);
    }
  }

  lemma SmallTablesNeverHide(u: Setup, n: nat, calls: seq<Call>, key: nat, now: nat, i: nat)
    requires n > 0 && (u.probes <= 1 || n == 1 || u.ttl <= 1) && Chronological(calls + [Look(key, now)])
    requires var w := After(u, Start(n), calls);
      i < n && key in w.latest && w.table[i] == Full(w.latest[key]) && w.latest[key].expire > now
    ensures NoHoleBefore(After(u, Start(n), calls).table, u.hash(key), i)
  {
    var w := After(u, Start(n), calls);
    EarlierCalls(calls, Look(key, now));
    HistoryIsOrderly(u, n, calls);
    HistoryKeepsReach(u, n, calls);
    if u.probes <= 1 {
      assert Reach(u, w.table, i) < u.probes;
    } else if u.ttl <= 1 {
      HistoryIsTight(u, n, calls);
      assert w.clock <= now;
      assert Reach(u, w.table, i) == Dist(u.hash(key), i, n);
    }
  }

  // ----- keys with homes of their own

  ghost predicate DistinctHomes(u: Setup, n: nat, space: nat)
    requires n > 0
  {
    forall a: nat, b: nat :: a < b < space ==> u.hash(a) % n != u.hash(b) % n
  }

  /** Every payload is of a key below `space` and stands at its home. */
  ghost predicate AllAtHome(u: Setup, t: seq<Bucket>, space: nat) {
    forall i :: 0 <= i < |t| && t[i].Full? ==> t[i].item.key < space && i == u.hash(t[i].item.key) % |t|
  }

  lemma CallKeepsHomes(u: Setup, w: World, call: Call, space: nat)
    requires |w.table| > 0 && DistinctHomes(u, |w.table|, space) && AllAtHome(u, w.table, space)
    requires call.Put? ==> call.key < space
    ensures AllAtHome(u, Next(u, w, call).table, space)
  {
    if call.Put? && u.probes > 0 {
      var home := u.hash(call.key) % |w.table|;
      assert Slot(u.hash(call.key), 0, |w.table|) == home;
      assert StopsStore(w.table[home], call.key, call.now);
      assert StoreStop(w.table, u.hash(call.key), call.key, call.now, 0, u.probes) == 0;
    }
  }

  lemma {:induction false} HistoryKeepsHomes(u: Setup, n: nat, calls: seq<Call>, space: nat)
    requires n > 0 && DistinctHomes(u, n, space) && Within(calls, space)
    ensures AllAtHome(u, After(u, Start(n), calls).table, space)
  {
    if calls != [] {
      HistoryKeepsHomes(u, n, calls[..|calls| - 1], space);
      CallKeepsHomes(u, After(u, Start(n), calls[..|calls| - 1]), calls[|calls| - 1], space);
    }
  }

  lemma OwnHomesNeverHide(u: Setup, n: nat, calls: seq<Call>, space: nat, key: nat, i: nat)
    requires n > 0 && DistinctHomes(u, n, space) && Within(calls, space)
    requires var w := After(u, Start(n), calls); i < n && w.table[i].Full? && w.table[i].item.key == key
    ensures NoHoleBefore(After(u, Start(n), calls).table, u.hash(key), i)
  {
    HistoryKeepsHomes(u, n, calls, space);
    DistSlot(u.hash(key), 0, n);
  }

  /** Of the keys 0 to n, two have the same home among n buckets. */
  lemma CommonHome(hash: nat -> nat, n: nat) returns (a: nat, b: nat)
    requires n > 0
    ensures a < b <= n && hash(a) % n == hash(b) % n
  {
    var homes := seq(n + 1, k requires 0 <= k < n + 1 => hash(k) % n);
    if forall i, j :: 0 <= i < j < |homes| ==> homes[i] != homes[j] {
      TooManyHomes(homes, n);
    }
    a, b :| 0 <= a < b < |homes| && homes[a] == homes[b];
  }

  lemma TooManyHomes(homes: seq<nat>, n: nat)
    requires forall i :: 0 <= i < |homes| ==> homes[i] < n
    requires forall i, j :: 0 <= i < j < |homes| ==> homes[i] != homes[j]
    ensures |homes| <= n
  {
    var used := set i | 0 <= i < |homes| :: homes[i];
    ManyHomes(homes);
    FewBuckets(used, n);
  }

  lemma {:induction false} ManyHomes(homes: seq<nat>)
    requires forall i, j :: 0 <= i < j < |homes| ==> homes[i] != homes[j]
    ensures |set i | 0 <= i < |homes| :: homes[i]| == |homes|
  {
    if homes != [] {
      var rest, last := homes[..|homes| - 1], homes[|homes| - 1];
      ManyHomes(rest);
      assert (set i | 0 <= i < |homes| :: homes[i]) == (set i | 0 <= i < |rest| :: rest[i]) + {last};
    }
  }

  lemma {:induction false} FewBuckets(used: set<nat>, n: nat)
    requires forall i :: i in used ==> i < n
    ensures |used| <= n
  {
    if n > 0 {
      FewBuckets(used - {n - 1}, n - 1);
    } else {
      assert used == {};
    }
  }

  /** Key `b` is stored behind key `a` of the same home; `a` expires and is unlinked while `b` lives on. */
  function HolePuncher(u: Setup, a: nat, b: nat): seq<Call> {
    [Put(a, 0), Put(b, 1), Look(a, u.ttl)]
  }

  lemma FirstStored(u: Setup, n: nat, a: nat)
    requires n > 0 && u.probes > 0
    ensures Next(u, Start(n), Put(a, 0))
         == World(Start(n).table[Slot(u.hash(a), 0, n) := Full(Item(a, u.ttl, 0))], 0, 1, map[a := Item(a, u.ttl, 0)])
  {
    assert StoreStop(Start(n).table, u.hash(a), a, 0, 0, u.probes) == 0;
  }

  lemma SecondStored(u: Setup, n: nat, a: nat, b: nat, w: World)
    requires n > 1 && u.probes > 1 && u.ttl > 1 && a != b && u.hash(a) % n == u.hash(b) % n
    requires w.table == Start(n).table[Slot(u.hash(a), 0, n) := Full(Item(a, u.ttl, 0))] && w.puts == 1
    ensures Next(u, w, Put(b, 1)).table == w.table[Slot(u.hash(b), 1, n) := Full(Item(b, 1 + u.ttl, 1))]
    ensures Next(u, w, Put(b, 1)).latest == w.latest[b := Item(b, 1 + u.ttl, 1)]
    ensures Slot(u.hash(b), 1, n) != Slot(u.hash(b), 0, n) == Slot(u.hash(a), 0, n)
  {
    var h := u.hash(b);
    DistSlot(h, 0, n);
    DistSlot(h, 1, n);
    assert StoreStop(w.table, h, b, 1, 1, u.probes) == 1;
    assert StoreStop(w.table, h, b, 1, 0, u.probes) == 1;
  }

  lemma FirstExpires(u: Setup, n: nat, a: nat, w: World)
    requires n > 0 && u.probes > 0 && |w.table| == n && w.table[Slot(u.hash(a), 0, n)] == Full(Item(a, u.ttl, 0))
    ensures Next(u, w, Look(a, u.ttl)).table == w.table[Slot(u.hash(a), 0, n) := Empty]
    ensures Next(u, w, Look(a, u.ttl)).latest == w.latest
  {
    assert LookupStop(w.table, u.hash(a), a, 0, u.probes) == 0;
  }

  lemma ThreeCalls(u: Setup, n: nat, c1: Call, c2: Call, c3: Call)
    requires n > 0
    ensures After(u, Start(n), [c1, c2, c3]) == Next(u, Next(u, Next(u, Start(n), c1), c2), c3)
  {
    var none: seq<Call> := [];
    assert After(u, Start(n), none) == Start(n);
    assert [c1][..0] == none;
    assert After(u, Start(n), [c1]) == Next(u, Start(n), c1);
    assert [c1, c2][..1] == [c1];
    assert After(u, Start(n), [c1, c2]) == Next(u, Next(u, Start(n), c1), c2);
    assert [c1, c2, c3][..2] == [c1, c2];
  }

  /** Wherever two keys of one home can stand behind each other and live at different times, one hides the other. */
  lemma HoleHidesLiveKey(u: Setup, n: nat, a: nat, b: nat)
    requires n > 1 && u.probes > 1 && u.ttl > 1 && a != b && u.hash(a) % n == u.hash(b) % n
    ensures var w := After(u, Start(n), HolePuncher(u, a, b));
      && Chronological(HolePuncher(u, a, b) + [Look(b, u.ttl)])
      && b in w.latest && Full(w.latest[b]) in w.table && w.latest[b].expire > u.ttl
      && LookupAnswer(w.table, u.hash(b), b, u.ttl, u.probes) == Miss
  {
    var w1 := Next(u, Start(n), Put(a, 0));
    var w2 := Next(u, w1, Put(b, 1));
    var w3 := Next(u, w2, Look(a, u.ttl));
    FirstStored(u, n, a);
    SecondStored(u, n, a, b, w1);
    FirstExpires(u, n, a, w2);
    ThreeCalls(u, n, Put(a, 0), Put(b, 1), Look(a, u.ttl));
    assert w3.table[Slot(u.hash(b), 1, n)] == Full(Item(b, 1 + u.ttl, 1));
    assert LookupStop(w3.table, u.hash(b), b, 0, u.probes) == 0;
  }

  /**
   Which tables never hide a live key, exactly: those that probe at most one bucket, have one
   bucket, or keep payloads for at most one tick, and those whose keys all have different homes.
   */
  lemma NeverHidesExactly(u: Setup, n: nat, space: nat)
    requires n > 0
    ensures NeverHides(u, n, space) <==> u.probes <= 1 || n == 1 || u.ttl <= 1 || DistinctHomes(u, n, space)
  {
    if u.probes <= 1 || n == 1 || u.ttl <= 1 || DistinctHomes(u, n, space) {
      forall calls: seq<Call>, key: nat, now: nat |
        var w := After(u, Start(n), calls);
        Within(calls, space) && key < space && Chronological(calls + [Look(key, now)])
        && key in w.latest && Full(w.latest[key]) in w.table && w.latest[key].expire > now
        ensures var w := After(u, Start(n), calls);
          LookupAnswer(w.table, u.hash(key), key, now, u.probes) == Hit(w.latest[key])
      {
        IsFound(u, n, space, calls, key, now);
      }
    } else {
      var a: nat, b: nat :| a < b < space && u.hash(a) % n == u.hash(b) % n;
      HoleHidesLiveKey(u, n, a, b);
      assert Within(HolePuncher(u, a, b), space);
      assert Chronological(HolePuncher(u, a, b) + [Look(b, u.ttl)]);
    }
  }

  lemma IsFound(u: Setup, n: nat, space: nat, calls: seq<Call>, key: nat, now: nat)
    requires n > 0 && (u.probes <= 1 || n == 1 || u.ttl <= 1 || DistinctHomes(u, n, space))
    requires Within(calls, space) && Chronological(calls + [Look(key, now)])
    requires var w := After(u, Start(n), calls);
      key in w.latest && Full(w.latest[key]) in w.table && w.latest[key].expire > now
    ensures var w := After(u, Start(n), calls);
      LookupAnswer(w.table, u.hash(key), key, now, u.probes) == Hit(w.latest[key])
  {
    var w := After(u, Start(n), calls);
    var i :| 0 <= i < n && w.table[i] == Full(w.latest[key]);
    if DistinctHomes(u, n, space) {
      EarlierCalls(calls, Look(key, now));
      HistoryIsOrderly(u, n, calls);
      OwnHomesNeverHide(u, n, calls, space, key, i);
    } else {
      SmallTablesNeverHide(u, n, calls, key, now, i);
    }
    LiveKeyIsFound(u, n, calls, key, now, i);
  }

  /** With more keys than buckets two have one home, so only the first three remain. */
  lemma MoreKeysThanBuckets(u: Setup, n: nat, space: nat)
    requires 0 < n < space
    ensures NeverHides(u, n, space) <==> u.probes <= 1 || n == 1 || u.ttl <= 1
  {
    var a, b := CommonHome(u.hash, n);
    assert !DistinctHomes(u, n, space);
    NeverHidesExactly(u, n, space);
  }
}
