/**
 The cache table run by one thread: the bucket array updated in place by the probe loops, and
 what the three operations promise about each other over any sequence of calls.
 */
module CacheTable {
  import opened Words

  /** A payload; `stamp` numbers the write attempts, so it identifies the payload. */
  datatype Item = Item(key: nat, expire: nat, stamp: nat)

  datatype Bucket = Empty | Full(item: Item)

  datatype LookupResult = Miss | Hit(item: Item) | Expired(item: Item)

  datatype StoreResult = Rejected | Inserted | Replaced(item: Item)

  // ----- probing

  /** The bucket examined by probe number `k` from home position `h`. */
  function Slot(h: nat, k: nat, n: nat): (i: nat)
    requires n > 0
    ensures i < n
  {
    (h + k) % n
  }

  /** The number of the probe that examines bucket `i`. */
  function Dist(h: nat, i: nat, n: nat): (d: nat)
    requires i < n
    ensures d < n
  {
    (i + n - h % n) % n
  }

  /** Within one turn of the table, probe numbers and buckets determine each other. */
  lemma SlotDist(h: nat, i: nat, n: nat)
    requires i < n
    ensures Slot(h, Dist(h, i, n), n) == i
  {
    var r := h % n;
    var q := h / n;
    assert h == n * q + r;
    if r <= i {
      DivModUnique(1, i - r, n);
      assert i + n - r == n * 1 + (i - r);
      DivModUnique(q, i, n);
      assert h + Dist(h, i, n) == n * q + i;
    } else {
      DivModUnique(0, i + n - r, n);
      DivModUnique(q + 1, i, n);
      assert h + Dist(h, i, n) == n * (q + 1) + i;
    }
  }

  lemma DistSlot(h: nat, k: nat, n: nat)
    requires k < n
    ensures Dist(h, Slot(h, k, n), n) == k
  {
    var r := h % n;
    var q := h / n;
    assert h == n * q + r;
    if r + k < n {
      DivModUnique(q, r + k, n);
      assert h + k == n * q + (r + k);
      DivModUnique(1, k, n);
      assert (r + k) + n - r == n * 1 + k;
    } else {
      DivModUnique(q + 1, r + k - n, n);
      assert h + k == n * (q + 1) + (r + k - n);
      DivModUnique(0, k, n);
    }
  }

  /** After a full turn the probes repeat. */
  lemma SlotRepeats(h: nat, k: nat, n: nat)
    requires n > 0
    ensures Slot(h, k + n, n) == Slot(h, k, n)
  {
    assert h + k == n * ((h + k) / n) + (h + k) % n;
    DivModUnique((h + k) / n + 1, (h + k) % n, n);
    assert h + k + n == n * ((h + k) / n + 1) + (h + k) % n;
  }

  // ----- where the loops stop

  predicate StopsLookup(b: Bucket, key: nat) {
    b.Empty? || b.item.key == key
  }

  predicate StopsStore(b: Bucket, key: nat, now: nat) {
    b.Empty? || b.item.key == key || b.item.expire <= now
  }

  /** The first probe at or after `k` where lookup stops, or `probes`. */
  function LookupStop(t: seq<Bucket>, h: nat, key: nat, k: nat, probes: nat): (r: nat)
    requires |t| > 0 && k <= probes
    ensures k <= r <= probes
    ensures r < probes ==> StopsLookup(t[Slot(h, r, |t|)], key)
    ensures forall j: nat :: k <= j < r ==> !StopsLookup(t[Slot(h, j, |t|)], key)
    decreases probes - k
  {
    if k == probes || StopsLookup(t[Slot(h, k, |t|)], key) then k
    else LookupStop(t, h, key, k + 1, probes)
  }

  function StoreStop(t: seq<Bucket>, h: nat, key: nat, now: nat, k: nat, probes: nat): (r: nat)
    requires |t| > 0 && k <= probes
    ensures k <= r <= probes
    ensures r < probes ==> StopsStore(t[Slot(h, r, |t|)], key, now)
    ensures forall j: nat :: k <= j < r ==> !StopsStore(t[Slot(h, j, |t|)], key, now)
    decreases probes - k
  {
    if k == probes || StopsStore(t[Slot(h, k, |t|)], key, now) then k
    else StoreStop(t, h, key, now, k + 1, probes)
  }

  // ----- what the operations do to the table

  function LookupAnswer(t: seq<Bucket>, h: nat, key: nat, now: nat, probes: nat): LookupResult
    requires |t| > 0
  {
    var k := LookupStop(t, h, key, 0, probes);
    if k == probes || t[Slot(h, k, |t|)].Empty? then Miss
    else
      var item := t[Slot(h, k, |t|)].item;
      if item.expire > now then Hit(item) else Expired(item)
  }

  function LookupTable(t: seq<Bucket>, h: nat, key: nat, now: nat, probes: nat): (r: seq<Bucket>)
    requires |t| > 0
    ensures |r| == |t|
  {
    if LookupAnswer(t, h, key, now, probes).Expired?
    then t[Slot(h, LookupStop(t, h, key, 0, probes), |t|) := Empty]
    else t
  }

  function StoreAnswer(t: seq<Bucket>, h: nat, item: Item, now: nat, probes: nat): StoreResult
    requires |t| > 0
  {
    var k := StoreStop(t, h, item.key, now, 0, probes);
    if k == probes then Rejected
    else match t[Slot(h, k, |t|)]
      case Empty => Inserted
      case Full(was) => Replaced(was)
  }

  function StoreTable(t: seq<Bucket>, h: nat, item: Item, now: nat, probes: nat): (r: seq<Bucket>)
    requires |t| > 0
    ensures |r| == |t|
  {
    var k := StoreStop(t, h, item.key, now, 0, probes);
    if k == probes then t else t[Slot(h, k, |t|) := Full(item)]
  }

  /** Exactly the expired payloads among the `budget` buckets from `cursor` on are gone. */
  function SweptTable(t: seq<Bucket>, cursor: nat, budget: nat, now: nat): (r: seq<Bucket>)
    ensures |r| == |t|
  {
    seq(|t|, i requires 0 <= i < |t| =>
      if Dist(cursor, i, |t|) < budget && t[i].Full? && t[i].item.expire <= now then Empty else t[i])
  }

  function Occupied(t: seq<Bucket>): nat {
    if t == [] then 0 else Occupied(t[..|t| - 1]) + if t[|t| - 1].Full? then 1 else 0
  }

  lemma {:induction false} OccupiedUpdate(t: seq<Bucket>, i: nat, b: Bucket)
    requires i < |t|
    ensures Occupied(t[i := b]) == Occupied(t) - (if t[i].Full? then 1 else 0) + (if b.Full? then 1 else 0)
  {
    var n := |t| - 1;
    if i == n {
      assert t[i := b][..n] == t[..n];
    } else {
      OccupiedUpdate(t[..n], i, b);
      assert t[i := b][..n] == t[..n][i := b];
    }
  }

  // ----- the table itself

  const WORD64: nat := 0x1_0000_0000_0000_0000

  /**
   The bucket count for a requested size: the least power of two that is large enough, and
   2^20 when doubling overflows the 64-bit size.
   */
  method BucketCount(desired: nat) returns (n: nat, ghost exponent: nat)
    requires desired < WORD64
    ensures n == Pow2(exponent)
    ensures desired <= WORD64 / 2 ==> n >= desired && (n == 1 || n / 2 < desired)
    ensures desired > WORD64 / 2 ==> n == 0x10_0000
  {
    n, exponent := 1, 0;
    while n < desired
      invariant exponent <= 63 && n == Pow2(exponent) && n <= WORD64 / 2
      invariant n == 1 || n / 2 < desired
      decreases 64 - exponent
    {
      Doubling(exponent);
      var doubled := (n * 2) % WORD64;
      if doubled == 0 {
        n, exponent := 0x10_0000, 20;
        NamedPowers();
        return;
      }
      n, exponent := doubled, exponent + 1;
    }
  }

  /** Doubling a power of two below 2^64 wraps to 0 only from 2^63. */
  lemma Doubling(e: nat)
    requires e <= 63
    ensures Pow2(e) <= WORD64 / 2
    ensures e < 63 ==> (Pow2(e) * 2) % WORD64 == Pow2(e + 1) != 0 && Pow2(e + 1) <= WORD64 / 2
    ensures e == 63 ==> Pow2(e) == WORD64 / 2 && (Pow2(e) * 2) % WORD64 == 0
  {
    NamedPowers();
    PowMono(e, 63);
    if e < 63 {
      PowMono(e + 1, 63);
    }
  }

  /** `max_probe` with 0 read as 1. */
  function Probes(maxProbe: nat): (r: nat)
    ensures r >= 1
  {
    if maxProbe == 0 then 1 else maxProbe
  }

  class Table {
    const hash: nat -> nat
    const maxProbe: nat
    const buckets: array<Bucket>

    ghost predicate Valid() {
      buckets.Length > 0
    }

    constructor (desired: nat, maxProbe: nat, hash: nat -> nat)
      requires desired < WORD64
      ensures Valid() && fresh(buckets)
      ensures this.hash == hash && this.maxProbe == maxProbe
      ensures exists e: nat :: buckets.Length == Pow2(e)
      ensures desired <= WORD64 / 2 ==>
                buckets.Length >= desired && (buckets.Length == 1 || buckets.Length / 2 < desired)
      ensures desired > WORD64 / 2 ==> buckets.Length == 0x10_0000
      ensures forall b :: b in buckets[..] ==> b == Empty
    {
      var n, e := BucketCount(desired);
      this.hash := hash;
      this.maxProbe := maxProbe;
      this.buckets := new Bucket[n](_ => Empty);
    }

    method Lookup(key: nat, now: nat) returns (r: LookupResult)
      requires Valid()
      modifies buckets
      ensures r == LookupAnswer(old(buckets[..]), hash(key), key, now, Probes(maxProbe))
      ensures buckets[..] == LookupTable(old(buckets[..]), hash(key), key, now, Probes(maxProbe))
    {
      var n := buckets.Length;
      var idx := hash(key) % n;
      var probes := Probes(maxProbe);
      ghost var t := buckets[..];
      var probe := 0;
      while probe < probes
        invariant 0 <= probe <= probes && idx == Slot(hash(key), probe, n)
        invariant buckets[..] == t
        invariant LookupStop(t, hash(key), key, 0, probes) == LookupStop(t, hash(key), key, probe, probes)
      {
        match buckets[idx]
        case Empty =>
          return Miss;
        case Full(item) =>
          if item.key == key {
            if item.expire > now {
              return Hit(item);
            }
            buckets[idx] := Empty;
            return Expired(item);
          }
          NextSlot(hash(key), probe, n);
          idx := (idx + 1) % n;
          probe := probe + 1;
      }
      return Miss;
    }

    method Store(item: Item, now: nat) returns (r: StoreResult, forced: bool)
      requires Valid()
      modifies buckets
      ensures r == StoreAnswer(old(buckets[..]), hash(item.key), item, now, Probes(maxProbe))
      ensures forced <==> r.Replaced? && r.item.key != item.key
      ensures buckets[..] == StoreTable(old(buckets[..]), hash(item.key), item, now, Probes(maxProbe))
    {
      var n := buckets.Length;
      var key := item.key;
      var idx := hash(key) % n;
      var probes := Probes(maxProbe);
      ghost var t := buckets[..];
      var probe := 0;
      while probe < probes
        invariant 0 <= probe <= probes && idx == Slot(hash(key), probe, n)
        invariant buckets[..] == t
        invariant StoreStop(t, hash(key), key, now, 0, probes) == StoreStop(t, hash(key), key, now, probe, probes)
      {
        match buckets[idx]
        case Empty =>
          buckets[idx] := Full(item);
          return Inserted, false;
        case Full(existing) =>
          if existing.key == key || existing.expire <= now {
            buckets[idx] := Full(item);
            return Replaced(existing), existing.key != key;
          }
          NextSlot(hash(key), probe, n);
          idx := (idx + 1) % n;
          probe := probe + 1;
      }
      return Rejected, false;
    }

    /** Sweeps `budget` buckets from the cursor on; `cleaned` is what the call adds to the cleanup count. */
    method Cleanup(cursor: nat, budget: nat, now: nat) returns (next: nat, cleaned: nat)
      requires Valid() && cursor < buckets.Length
      modifies buckets
      ensures next == Slot(cursor, budget, buckets.Length)
      ensures buckets[..] == SweptTable(old(buckets[..]), cursor, budget, now)
      ensures cleaned == Occupied(old(buckets[..])) - Occupied(buckets[..])
    {
      var n := buckets.Length;
      var start := cursor;
      ghost var t := buckets[..];
      cleaned := 0;
      DivModUnique(0, cursor, n);
      assert SweptTable(t, cursor, 0, now) == t;
      var i := 0;
      while i < budget
        invariant 0 <= i <= budget && start == Slot(cursor, i, n)
        invariant buckets[..] == SweptTable(t, cursor, i, now)
        invariant cleaned == Occupied(t) - Occupied(SweptTable(t, cursor, i, now))
      {
        ghost var s := buckets[..];
        SweepOneMore(t, cursor, i, now);
        NextSlot(cursor, i, n);
        var b := buckets[start];
        if b.Full? && b.item.expire <= now {
          buckets[start] := Empty;
          assert buckets[..] == s[start := Empty];
          cleaned := cleaned + 1;
        }
        start := (start + 1) % n;
        i := i + 1;
      }
      DivModUnique(0, start, n);
      next := start % n;
    }
  }

  lemma NextSlot(h: nat, k: nat, n: nat)
    requires n > 0
    ensures (Slot(h, k, n) + 1) % n == Slot(h, k + 1, n)
  {
    ModAdd(h + k, 1, n);
  }

  lemma SweepOneMore(t: seq<Bucket>, cursor: nat, i: nat, now: nat)
    requires |t| > 0
    ensures var s := SweptTable(t, cursor, i, now); var j := Slot(cursor, i, |t|);
      && SweptTable(t, cursor, i + 1, now)
        == (if s[j].Full? && s[j].item.expire <= now then s[j := Empty] else s)
      && Occupied(SweptTable(t, cursor, i + 1, now))
        == Occupied(s) - (if s[j].Full? && s[j].item.expire <= now then 1 else 0)
  {
    var n := |t|;
    var s := SweptTable(t, cursor, i, now);
    var j := Slot(cursor, i, n);
    OccupiedUpdate(s, j, Empty);
    if i < n {
      DistSlot(cursor, i, n);
      forall m | 0 <= m < n && m != j ensures Dist(cursor, m, n) != i {
        SlotDist(cursor, m, n);
      }
    }
  }
}
