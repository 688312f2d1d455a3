/**
 * The in-memory metric store (`Storage`): metric name -> (timestamp -> value), both levels
 * insertion-ordered dicts. Values are of an abstract type `V` (Python floats).
 */
module MetricStorage {
  import opened Wrappers
  import opened Assoc

  /** One metric's samples: timestamp -> value, in first-insertion order of timestamps. */
  type Series<V> = Assoc<int, V>

  /** Metric name -> samples, in first-insertion order of metrics. */
  type Store<V> = Assoc<string, Series<V>>

  /**
   * What `Storage` maintains: each metric and each timestamp within a metric at most once,
   * and a metric present only once a sample has been written for it.
   */
  predicate ValidStore<V>(s: Store<V>) {
    DistinctKeys(s) && forall i :: 0 <= i < |s| ==> DistinctKeys(s[i].1) && |s[i].1| > 0
  }

  /** `self._data.get(metric, {})`: the metric's samples, empty when it was never written. */
  function Samples<V>(s: Store<V>, metric: string): Series<V>
  {
    match Lookup(s, metric)
    case Some(vs) => vs
    case None => []
  }

  /**
   * The store after `put(metric, value, timestamp)`: `value` is stored at `timestamp`
   * (replacing any earlier value there), nothing else changes, and the order of metrics and
   * of the metric's timestamps only grows at the end when a new key is written.
   */
  function PutSample<V>(s: Store<V>, metric: string, value: V, timestamp: int): (r: Store<V>)
    ensures Lookup(Samples(r, metric), timestamp) == Some(value)
    ensures forall t :: t != timestamp ==> Lookup(Samples(r, metric), t) == Lookup(Samples(s, metric), t)
    ensures Keys(Samples(r, metric)) == if HasKey(Samples(s, metric), timestamp) then Keys(Samples(s, metric))
                                        else Keys(Samples(s, metric)) + [timestamp]
    ensures forall m :: m != metric ==> Lookup(r, m) == Lookup(s, m)
    ensures Keys(r) == if HasKey(s, metric) then Keys(s) else Keys(s) + [metric]
  {
    var created := if HasKey(s, metric) then s else Set(s, metric, []);
    assert HasKey(created, metric) by {
      assert Lookup(created, metric).Some?;
    }
    assert Keys(created) == if HasKey(s, metric) then Keys(s) else Keys(s) + [metric];
    assert forall m :: m != metric ==> Lookup(created, m) == Lookup(s, m);
    var series := Samples(created, metric);
    assert series == Samples(s, metric);
    var r := Set(created, metric, Set(series, timestamp, value));
    assert Samples(r, metric) == Set(series, timestamp, value);
    forall m | m != metric ensures Lookup(r, m) == Lookup(s, m) {
      assert Lookup(r, m) == Lookup(created, m);
    }
    r
  }

  /** `put` keeps the store's invariant: no duplicate keys at either level, no empty metric. */
  lemma PutSampleValid<V>(s: Store<V>, metric: string, value: V, timestamp: int)
    requires ValidStore(s)
    ensures ValidStore(PutSample(s, metric, value, timestamp))
  {
    var r := PutSample(s, metric, value, timestamp);
    forall i | 0 <= i < |r| ensures DistinctKeys(r[i].1) && |r[i].1| > 0 {
      var m := r[i].0;
      assert Lookup(r, m) == Some(r[i].1);
      if m != metric {
        var j :| 0 <= j < |s| && s[j].0 == m;
        assert Lookup(s, m) == Some(s[j].1);
      } else {
        assert Keys(r[i].1) == Keys(Samples(r, metric));
      }
    }
  }

  /**
   * `get(metric)` on a store value: for "*" one entry per stored metric, in first-insertion
   * order, each holding that metric's samples in first-insertion order (nothing is sorted);
   * for any other name exactly one entry for that name, empty when the name was never written.
   */
  function Query<V>(s: Store<V>, metric: string): (r: Store<V>)
    requires ValidStore(s)
    ensures metric == "*" ==> Keys(r) == Keys(s) && forall i :: 0 <= i < |r| ==> r[i].1 == Samples(s, r[i].0)
    ensures metric != "*" ==> |r| == 1 && r[0].0 == metric && r[0].1 == Samples(s, metric)
    ensures metric != "*" && !HasKey(s, metric) ==> r[0].1 == []
    ensures r == [] <==> metric == "*" && s == []
  {
    if metric == "*" then s else [(metric, Samples(s, metric))]
  }

  /**
   * After `put(metric, value, timestamp)` the metric's samples, which `get(metric)` lists
   * (see `Query`), hold the pair `(timestamp, value)`.
   */
  lemma PutThenGet<V>(s: Store<V>, metric: string, value: V, timestamp: int)
    ensures (timestamp, value) in Samples(PutSample(s, metric, value, timestamp), metric)
  {
    LookupEntry(Samples(PutSample(s, metric, value, timestamp), metric), timestamp);
  }

  /** Writing twice at the same timestamp leaves only the second value: no history is kept. */
  lemma {:induction false} PutOverwrites<V>(s: Store<V>, metric: string, v1: V, v2: V, timestamp: int)
    ensures PutSample(PutSample(s, metric, v1, timestamp), metric, v2, timestamp)
            == PutSample(s, metric, v2, timestamp)
  {
    var created := if HasKey(s, metric) then s else Set(s, metric, []);
    var series := Samples(created, metric);
    var once := PutSample(s, metric, v1, timestamp);
    assert once == Set(created, metric, Set(series, timestamp, v1));
    assert HasKey(once, metric) by {
      assert Lookup(once, metric).Some?;
    }
    assert Samples(once, metric) == Set(series, timestamp, v1);
    SetSet(series, timestamp, v1, v2);
    SetSet(created, metric, Set(series, timestamp, v1), Set(series, timestamp, v2));
  }

  /** The metric store object; `data` is `self._data`. */
  class Storage<V> {
    var data: Store<V>

    predicate Valid()
      reads this
    {
      ValidStore(data)
    }

    constructor ()
      ensures Valid() && data == []
    {
      data := [];
    }

    /** `put(metric, value, timestamp)`: insert or overwrite one sample, in place. */
    method Put(metric: string, value: V, timestamp: int)
      requires Valid()
      modifies this
      ensures Valid()
      ensures data == PutSample(old(data), metric, value, timestamp)
    {
      if !HasKey(data, metric) {
        data := Set(data, metric, []);
      }
      data := Set(data, metric, Set(Samples(data, metric), timestamp, value));
      PutSampleValid(old(data), metric, value, timestamp);
    }

    /** `get(metric)`: the query above, on the current contents. */
    function Get(metric: string): Store<V>
      reads this
      requires Valid()
    {
      Query(data, metric)
    }
  }
}
