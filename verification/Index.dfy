/** The metric index: which series of a metric may be in memory, and which metrics exist. */
module Index {
  import opened Words
  import opened Model
  import opened EngineState

  class MetricIndex {
    var idx: map<Str, set<uint64>>

    constructor ()
      ensures idx == map[]
    {
      idx := map[];
    }

    /** Registers a metric without a series, for a chunk directory. */
    method AddMetric(metric: Str)
      modifies this
      ensures idx == if metric in old(idx) then old(idx) else old(idx)[metric := {}]
    {
      if metric !in idx {
        idx := idx[metric := {}];
      }
    }

    /** Lists one id under one metric. */
    method Add(metric: Str, id: uint64)
      modifies this
      ensures idx == IndexAdd(old(idx), metric, id)
      ensures idx.Keys == old(idx).Keys + {metric}
      ensures idx[metric] == Lookup(metric) == old(Lookup(metric)) + {id}
      ensures forall m :: m in idx && m != metric ==> idx[m] == old(idx)[m]
    {
      if metric !in idx {
        idx := idx[metric := {}];
      }
      idx := idx[metric := idx[metric] + {id}];
    }

    /** Removes one id, and the metric when that was its last. */
    method Remove(metric: Str, id: uint64)
      modifies this
      ensures idx == IndexRemove(old(idx), metric, {id})
      ensures Lookup(metric) == old(Lookup(metric)) - {id}
      ensures metric in idx <==> metric in old(idx) && old(idx)[metric] - {id} != {}
      ensures idx - {metric} == old(idx) - {metric}
    {
      if metric in idx {
        var ids := idx[metric] - {id};
        idx := idx[metric := ids];
        if |ids| == 0 {
          idx := idx - {metric};
        }
      }
    }

    /** Every metric once. */
    method List() returns (names: seq<Str>)
      ensures forall m :: m in names <==> m in idx
      ensures forall i, j :: 0 <= i < j < |names| ==> names[i] != names[j]
    {
      names := [];
      var left := idx.Keys;
      while left != {}
        invariant left <= idx.Keys
        invariant forall m :: m in names <==> m in idx && m !in left
        invariant forall i, j :: 0 <= i < j < |names| ==> names[i] != names[j]
        decreases left
      {
        var m :| m in left;
        names := names + [m];
        left := left - {m};
      }
    }

    predicate Has(metric: Str)
      reads this
    {
      metric in idx
    }

    method Drop(metric: Str) returns (ids: set<uint64>)
      modifies this
      ensures idx == old(idx) - {metric}
      ensures ids == if metric in old(idx) then old(idx)[metric] else {}
    {
      if metric !in idx {
        return {};
      }
      ids := idx[metric];
      idx := idx - {metric};
    }

    /** The ids listed under a metric. */
    function Lookup(metric: Str): (ids: set<uint64>)
      reads this
      ensures forall id :: id in ids <==> metric in idx && id in idx[metric]
    {
      if metric in idx then idx[metric] else {}
    }
  }

  /** Removing ids one after the other removes them all. */
  lemma {:induction false} RemoveMore(index: map<Str, set<uint64>>, metric: Str, ids: set<uint64>, id: uint64)
    ensures IndexRemove(IndexRemove(index, metric, ids), metric, {id}) == IndexRemove(index, metric, ids + {id})
  {
    if metric in index && ids != {} {
      assert index[metric] - ids - {id} == index[metric] - (ids + {id});
      if index[metric] - ids == {} {
        assert index[metric] - (ids + {id}) == {};
      }
    } else {
      assert ids == {} ==> ids + {id} == {id};
    }
  }

  lemma {:induction false} OneIdLess(
    ids: set<uint64>, mem: map<uint64, Record>, gone: set<uint64>, id: uint64, m: Str)
    requires gone <= mem.Keys && id in mem && id !in gone
    ensures IdsLeft(ids, mem, gone + {id}, m)
         == if m == mem[id].metric then IdsLeft(ids, mem, gone, m) - {id} else IdsLeft(ids, mem, gone, m)
  {
  }

  lemma {:induction false} OneMoreLoses(mem: map<uint64, Record>, gone: set<uint64>, id: uint64, m: Str)
    requires gone <= mem.Keys && id in mem
    ensures LosesId(mem, gone + {id}, m) <==> LosesId(mem, gone, m) || m == mem[id].metric
  {
    if m == mem[id].metric {
      assert id in gone + {id};
    }
    if LosesId(mem, gone, m) {
      var i :| i in gone && mem[i].metric == m;
      assert i in gone + {id};
    }
  }

  /** Purging ids one after the other purges them all. */
  lemma {:induction false} PurgeMore(
    index: map<Str, set<uint64>>, mem: map<uint64, Record>, gone: set<uint64>, id: uint64)
    requires gone <= mem.Keys && id in mem && id !in gone
    ensures IndexRemove(Purged(index, mem, gone), mem[id].metric, {id}) == Purged(index, mem, gone + {id})
  {
    var metric := mem[id].metric;
    hide LosesId, IdsLeft;
    forall m ensures LosesId(mem, gone + {id}, m) <==> LosesId(mem, gone, m) || m == metric {
      OneMoreLoses(mem, gone, id, m);
    }
    forall m | m in index
      ensures IdsLeft(index[m], mem, gone + {id}, m)
           == if m == metric then IdsLeft(index[m], mem, gone, m) - {id} else IdsLeft(index[m], mem, gone, m)
    {
      OneIdLess(index[m], mem, gone, id, m);
    }
  }

  lemma {:induction false} PurgeNone(index: map<Str, set<uint64>>, mem: map<uint64, Record>)
    ensures Purged(index, mem, {}) == index
  {
    forall m | m in index ensures IdsLeft(index[m], mem, {}, m) == index[m] {}
  }
}
