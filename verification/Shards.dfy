/** The sharded buffer: series are spread over a fixed number of maps by id. */
module Shards {
  import opened Words
  import opened Model
  import opened Points
  import opened EngineState
  import opened EngineLemmas

  const NUM_SHARDS := 128

  type Shard = map<uint64, Record>

  function ShardOf(id: uint64): (i: nat)
    ensures i < NUM_SHARDS
  {
    id % NUM_SHARDS
  }

  /** Every series is in the shard of its id and nowhere else. */
  ghost predicate Placed(shards: seq<Shard>) {
    |shards| == NUM_SHARDS && forall i, id :: 0 <= i < |shards| && id in shards[i] ==> ShardOf(id) == i
  }

  /** The flat map: what a lookup by id finds. */
  ghost function MemOf(shards: seq<Shard>): map<uint64, Record>
    requires |shards| == NUM_SHARDS
  {
    map id: uint64 | 0 <= id < 0x1_0000_0000_0000_0000 && id in shards[ShardOf(id)] :: shards[ShardOf(id)][id]
  }

  lemma {:induction false} EmptyShards(shards: seq<Shard>)
    requires |shards| == NUM_SHARDS && forall i :: 0 <= i < |shards| ==> shards[i] == map[]
    ensures Placed(shards) && MemOf(shards) == map[]
  {
  }

  /** Storing a series in the shard of its id stores it in the flat map. */
  lemma {:induction false} PutSeries(shards: seq<Shard>, id: uint64, rec: Record)
    requires Placed(shards)
    ensures
      var i := ShardOf(id);
      var shard: Shard := shards[i][id := rec];
      var shards' := shards[i := shard];
      Placed(shards') && MemOf(shards') == MemOf(shards)[id := rec]
  {
    hide ShardOf;
  }

  lemma {:induction false} DeleteSeries(shards: seq<Shard>, id: uint64)
    requires Placed(shards)
    ensures
      var i := ShardOf(id);
      var shard: Shard := shards[i] - {id};
      var shards' := shards[i := shard];
      Placed(shards') && MemOf(shards') == MemOf(shards) - {id}
  {
    hide ShardOf;
  }

  /** A series is in its shard with the same entry as in the flat map. */
  lemma {:induction false} FromShard(shards: seq<Shard>, i: nat, id: uint64)
    requires Placed(shards) && i < NUM_SHARDS && id in shards[i]
    ensures ShardOf(id) == i && id in MemOf(shards) && MemOf(shards)[id] == shards[i][id]
  {
    hide ShardOf;
  }

  ghost predicate AllSorted(shard: Shard) {
    forall id :: id in shard ==> Sorted(shard[id].points)
  }

  // ---- eviction ----

  /** One shard of an eviction: search the first point after the time, drop the points before
      it, and delete the series when that leaves none. */
  method EvictShard(shard: Shard, upTo: int64) returns (shard': Shard)
    requires AllSorted(shard)
    ensures shard' == Evict(shard, upTo)
  {
    hide FirstAtLeast, Sorted;
    shard' := shard;
    var left := shard.Keys;
    while left != {}
      invariant left <= shard.Keys
      invariant forall id :: id in shard' ==> id in shard
      invariant forall id :: id in left ==> id in shard' && shard'[id] == shard[id]
      invariant forall id :: id in shard && id !in left ==> EvictedEntry(shard, shard', id, upTo)
      decreases left
    {
      var id :| id in left;
      var points := shard[id].points;
      var keepFrom := Search(points, upTo + 1);
      left := left - {id};
      if keepFrom == 0 {
        assert points[0..] == points;
      } else if keepFrom == |points| {
        shard' := shard' - {id};
      } else {
        shard' := shard'[id := shard[id].(points := points[keepFrom..])];
      }
    }
  }

  ghost predicate EvictedEntry(shard: Shard, shard': Shard, id: uint64, upTo: int64)
    requires id in shard
  {
    var kept := After(shard[id].points, upTo);
    if shard[id].points == [] || kept != [] then id in shard' && shard'[id] == shard[id].(points := kept)
    else id !in shard'
  }

  lemma {:induction false} EvictAll(shards: seq<Shard>, shards': seq<Shard>, upTo: int64)
    requires Placed(shards) && |shards'| == NUM_SHARDS
    requires forall i :: 0 <= i < NUM_SHARDS ==> shards'[i] == Evict(shards[i], upTo)
    ensures Placed(shards') && MemOf(shards') == Evict(MemOf(shards), upTo)
  {
    hide ShardOf, After;
    forall i, id | 0 <= i < NUM_SHARDS && id in shards'[i] ensures ShardOf(id) == i {
      assert id in shards[i];
    }
  }

  // ---- retention ----

  /** One shard of retention: trim the points before the cutoff, and delete the series that
      are left without points. */
  method TrimShard(shard: Shard, cutoff: int64) returns (shard': Shard, removed: set<uint64>)
    requires AllSorted(shard)
    ensures shard' == FreshMem(shard, cutoff)
    ensures removed == shard.Keys - shard'.Keys
  {
    hide FirstAtLeast, Sorted;
    shard', removed := shard, {};
    var left := shard.Keys;
    while left != {}
      invariant left <= shard.Keys
      invariant forall id :: id in shard' ==> id in shard
      invariant forall id :: id in left ==> id in shard' && shard'[id] == shard[id]
      invariant forall id :: id in shard && id !in left ==> TrimmedEntry(shard, shard', id, cutoff)
      invariant removed == shard.Keys - shard'.Keys
      decreases left
    {
      var id :| id in left;
      var points := shard[id].points;
      var start := Search(points, cutoff);
      left := left - {id};
      assert points[0..] == points;
      if start > 0 {
        points := points[start..];
        shard' := shard'[id := shard[id].(points := points)];
      }
      if |points| == 0 {
        shard' := shard' - {id};
        removed := removed + {id};
      }
    }
  }

  ghost predicate TrimmedEntry(shard: Shard, shard': Shard, id: uint64, cutoff: int64)
    requires id in shard
  {
    var kept := After(shard[id].points, cutoff - 1);
    if kept != [] then id in shard' && shard'[id] == shard[id].(points := kept) else id !in shard'
  }

  lemma {:induction false} TrimAll(shards: seq<Shard>, shards': seq<Shard>, cutoff: int64)
    requires Placed(shards) && |shards'| == NUM_SHARDS
    requires forall i :: 0 <= i < NUM_SHARDS ==> shards'[i] == FreshMem(shards[i], cutoff)
    ensures Placed(shards') && MemOf(shards') == FreshMem(MemOf(shards), cutoff)
  {
    hide ShardOf, After;
    forall i, id | 0 <= i < NUM_SHARDS && id in shards'[i] ensures ShardOf(id) == i {
      assert id in shards[i];
    }
  }
}
