/**
 The growing lists of an epoch slot and the two loops of a rotation, on the arrays and the shard
 map they update in place. Items are named by number; `epochOf` gives the epoch id stored in
 each item and `frees` counts how often each has been handed to free().
 */
module RingLists {

  /** Whether a rotation of epoch id `id` over these keys deletes the entry of `key`. */
  predicate Dropped(entries: map<nat, nat>, keys: seq<nat>, id: nat, epochOf: seq<nat>, key: nat) {
    && key in entries && key in keys
    && entries[key] < |epochOf| && epochOf[entries[key]] == id
  }

  /** The shard map after its entries written in epoch `id` under the listed keys are deleted. */
  function Cleaned(entries: map<nat, nat>, keys: seq<nat>, id: nat, epochOf: seq<nat>): map<nat, nat> {
    map key | key in entries && !Dropped(entries, keys, id, epochOf, key) :: entries[key]
  }

  /** The free counts after every listed item has been freed, in order. */
  function FreeEach(frees: seq<nat>, items: seq<nat>): (r: seq<nat>)
    ensures |r| == |frees|
  {
    if items == [] then frees
    else
      var before := FreeEach(frees, items[..|items| - 1]);
      var x := items[|items| - 1];
      if x < |frees| then before[x := before[x] + 1] else before
  }

  function Occurrences(items: seq<nat>, x: nat): nat {
    if items == [] then 0
    else Occurrences(items[..|items| - 1], x) + if items[|items| - 1] == x then 1 else 0
  }

  lemma {:induction false} FreeEachCounts(frees: seq<nat>, items: seq<nat>, x: nat)
    requires x < |frees|
    ensures FreeEach(frees, items)[x] == frees[x] + Occurrences(items, x)
  {
    if items != [] {
      FreeEachCounts(frees, items[..|items| - 1], x);
    }
  }

  lemma {:induction false} OccurrencesOfDistinct(items: seq<nat>, x: nat)
    requires forall i, j :: 0 <= i < j < |items| ==> items[i] != items[j]
    ensures Occurrences(items, x) == if x in items then 1 else 0
  {
    if items != [] {
      var rest, last := items[..|items| - 1], items[|items| - 1];
      OccurrencesOfDistinct(rest, x);
      assert items == rest + [last];
      assert last !in rest;
    }
  }

  /** A list that doubles its array when full; `items` and each shard's `keys` are such lists. */
  class GrowingList {
    var data: array<nat>
    var count: nat

    ghost predicate Valid()
      reads this
    {
      count <= data.Length
    }

    ghost function Contents(): seq<nat>
      requires Valid()
      reads this, data
    {
      data[..count]
    }

    constructor (capacity: nat)
      ensures Valid() && fresh(data) && data.Length == capacity && Contents() == []
    {
      data := new nat[capacity];
      count := 0;
    }

    /**
     Appends `x`; `memory` says whether realloc succeeds when it is needed. A capacity of 0
     grows to 4096. Without memory the list is left as it was.
     */
    method Record(x: nat, memory: bool) returns (recorded: bool)
      requires Valid()
      modifies this, data
      ensures Valid() && (data == old(data) || fresh(data))
      ensures recorded <==> memory || old(count) < old(data.Length)
      ensures Contents() == if recorded then old(Contents()) + [x] else old(Contents())
    {
      if count == data.Length {
        var capacity := if data.Length != 0 then data.Length * 2 else 4096;
        if !memory {
          return false;
        }
        var grown := new nat[capacity];
        for i := 0 to count
          invariant data == old(data) && data[..] == old(data[..]) && count == old(count) <= data.Length
          invariant grown[..i] == data[..i]
        {
          grown[i] := data[i];
        }
        assert grown[..count] == old(Contents());
        data := grown;
      }
      data[count] := x;
      count := count + 1;
      return true;
    }
  }

  class Shard {
    var entries: map<nat, nat>

    constructor ()
      ensures entries == map[]
    {
      entries := map[];
    }
  }

  lemma CleanedOneMore(entries: map<nat, nat>, keys: seq<nat>, k: nat, id: nat, epochOf: seq<nat>)
    requires k < |keys|
    ensures var before := Cleaned(entries, keys[..k], id, epochOf);
      Cleaned(entries, keys[..k + 1], id, epochOf)
        == if Dropped(before, [keys[k]], id, epochOf, keys[k]) then before - {keys[k]} else before
  {
    var before := Cleaned(entries, keys[..k], id, epochOf);
    assert keys[..k + 1] == keys[..k] + [keys[k]];
  }

  /** One shard of a rotation: delete what this epoch wrote under the listed keys, then empty the list. */
  method CleanShard(list: GrowingList, shard: Shard, id: nat, epochOf: seq<nat>) returns (retired: nat)
    requires list.Valid()
    modifies list`count, shard
    ensures list.Valid() && list.data == old(list.data) && list.Contents() == []
    ensures shard.entries == Cleaned(old(shard.entries), old(list.Contents()), id, epochOf)
    ensures retired == |old(shard.entries)| - |shard.entries|
  {
    ghost var was, keys := shard.entries, list.Contents();
    retired := 0;
    var k := 0;
    assert Cleaned(was, keys[..0], id, epochOf) == was;
    while k < list.count
      invariant 0 <= k <= list.count == old(list.count) && list.data == old(list.data) && list.Contents() == keys
      invariant shard.entries == Cleaned(was, keys[..k], id, epochOf)
      invariant retired == |was| - |shard.entries|
    {
      CleanedOneMore(was, keys, k, id, epochOf);
      var key := list.data[k];
      assert key == keys[k];
      if key in shard.entries {
        var x := shard.entries[key];
        if x < |epochOf| && epochOf[x] == id {
          ghost var before := shard.entries;
          shard.entries := shard.entries - {key};
          assert before.Keys == shard.entries.Keys + {key};
          retired := retired + 1;
        }
      }
      k := k + 1;
    }
    assert keys[..k] == keys;
    list.count := 0;
  }

  /** The bulk free of a rotation. */
  method FreeAll(list: GrowingList, frees: array<nat>)
    requires list.Valid() && frees != list.data
    requires forall x :: x in list.Contents() ==> x < frees.Length
    modifies list`count, frees
    ensures list.Valid() && list.data == old(list.data) && list.Contents() == []
    ensures frees[..] == FreeEach(old(frees[..]), old(list.Contents()))
  {
    ghost var items := list.Contents();
    var i := 0;
    while i < list.count
      invariant 0 <= i <= list.count == old(list.count) && list.data == old(list.data) && list.Contents() == items
      invariant frees[..] == FreeEach(old(frees[..]), items[..i])
    {
      assert items[..i + 1][..i] == items[..i];
      assert items[i] in items;
      frees[list.data[i]] := frees[list.data[i]] + 1;
      i := i + 1;
    }
    assert items[..i] == items;
    list.count := 0;
  }
}
