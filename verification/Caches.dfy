/**
 * The loader's tables as objects: `ttlCache` and `RequestTracker`. Each keeps, as ghost state, the
 * calls made on it, and answers are specified by those calls alone.
 */
module Caches {
  import opened Bytes
  import opened TtlTable

  /** The answer a lookup of `key` owes its callers after `calls`. */
  ghost predicate IsAnswer<K, V>(ttl: int, calls: seq<Op<K, V>>, key: K, answer: Option<V>) {
    && (answer.Some? <==> exists i: nat :: Supplies(ttl, calls, key, i))
    && forall i: nat :: Supplies(ttl, calls, key, i) ==> answer == Some(calls[i].value)
  }

  lemma LookupAnswers<K, V>(ttl: int, calls: seq<Op<K, V>>, key: K)
    ensures var t := Run(ttl, calls);
            IsAnswer(ttl, calls, key, if key in t then Some(t[key].value) else None)
  {
    TraceLaw(ttl, calls, key);
  }

  lemma RunNext<K, V>(ttl: int, calls: seq<Op<K, V>>, op: Op<K, V>)
    ensures Run(ttl, calls + [op]) == Apply(ttl, Run(ttl, calls), op)
  {
    assert (calls + [op])[..|calls|] == calls;
  }

  class TtlCache<K(==), V> {
    const ttl: int
    var entries: map<K, Entry<V>>
    ghost var calls: seq<Op<K, V>>

    ghost predicate Valid()
      reads this
    {
      entries == Run(ttl, calls)
    }

    /** `newTTLCache` */
    constructor (ttl: int)
      ensures Valid() && calls == [] && this.ttl == ttl
    {
      this.ttl := ttl;
      entries := map[];
      calls := [];
    }

    /** `put` */
    method Put(key: K, value: V, now: int)
      requires Valid()
      modifies this
      ensures Valid() && calls == old(calls) + [Op.Put(key, value, now)]
    {
      RunNext(ttl, calls, Op.Put(key, value, now));
      entries := entries[key := Entry(value, now)];
      calls := calls + [Op.Put(key, value, now)];
    }

    /** `get` */
    method Get(key: K) returns (value: Option<V>)
      requires Valid()
      ensures IsAnswer(ttl, calls, key, value)
    {
      LookupAnswers(ttl, calls, key);
      value := if key in entries then Some(entries[key].value) else None;
    }

    /** `getRefresh` */
    method GetRefresh(key: K, now: int) returns (value: Option<V>)
      requires Valid()
      modifies this
      ensures Valid() && calls == old(calls) + [Refresh(key, now)]
      ensures IsAnswer(ttl, old(calls), key, value)
    {
      LookupAnswers(ttl, calls, key);
      RunNext(ttl, calls, Refresh(key, now));
      calls := calls + [Refresh(key, now)];
      if key !in entries {
        return None;
      }
      value := Some(entries[key].value);
      entries := entries[key := Entry(entries[key].value, now)];
    }

    /** `take` */
    method TakeOut(key: K) returns (value: Option<V>)
      requires Valid()
      modifies this
      ensures Valid() && calls == old(calls) + [Take(key)]
      ensures IsAnswer(ttl, old(calls), key, value)
    {
      LookupAnswers(ttl, calls, key);
      RunNext(ttl, calls, Take(key));
      calls := calls + [Take(key)];
      if key !in entries {
        assert entries - {key} == entries;
        return None;
      }
      value := Some(entries[key].value);
      entries := entries - {key};
    }

    /** `prune` */
    method PruneOld(now: int)
      requires Valid()
      modifies this
      ensures Valid() && calls == old(calls) + [Prune(now)]
    {
      RunNext(ttl, calls, Prune(now));
      entries := Sift(entries, (k: K, e: Entry<V>) => now - e.seen > ttl);
      calls := calls + [Prune(now)];
    }
  }

  /** Start times of in-flight requests. */
  class RequestTracker<K(==)> {
    const ttl: int
    var requests: map<K, int>
    ghost var calls: seq<Op<K, ()>>

    ghost predicate Valid()
      reads this
    {
      && requests.Keys == Run(ttl, calls).Keys
      && (forall k :: k in requests ==> Run(ttl, calls)[k] == Entry((), requests[k]))
      && (forall i :: 0 <= i < |calls| ==> !calls[i].Refresh?)
    }

    /** `NewRequestTracker` */
    constructor (ttl: int)
      ensures Valid() && calls == [] && this.ttl == ttl
    {
      this.ttl := ttl;
      requests := map[];
      calls := [];
    }

    /** `Start` */
    method Start(key: K, now: int)
      requires Valid()
      modifies this
      ensures Valid() && calls == old(calls) + [Put(key, (), now)]
    {
      RunNext(ttl, calls, Put(key, (), now));
      requests := requests[key := now];
      calls := calls + [Put(key, (), now)];
    }

    /** `Finish`: the time since the start that is still open, which it closes. */
    method Finish(key: K, now: int) returns (duration: int, ok: bool)
      requires Valid()
      modifies this
      ensures Valid() && calls == old(calls) + [Take(key)]
      ensures ok <==> exists i: nat :: Supplies(ttl, old(calls), key, i)
      ensures forall i: nat :: Supplies(ttl, old(calls), key, i) ==> duration == now - old(calls)[i].now
      ensures !ok ==> duration == 0
    {
      RunNext(ttl, calls, Take(key));
      StartTimes(ttl, calls, key);
      calls := calls + [Take(key)];
      if key !in requests {
        return 0, false;
      }
      duration, ok := now - requests[key], true;
      requests := requests - {key};
    }

    /** `Prune` */
    method PruneOld(now: int)
      requires Valid()
      modifies this
      ensures Valid() && calls == old(calls) + [Prune(now)]
    {
      RunNext(ttl, calls, Prune(now));
      requests := Sift(requests, (k: K, startedAt: int) => now - startedAt > ttl);
      calls := calls + [Prune(now)];
    }
  }

  /** Without refreshes the stored time is the time of the supplying call. */
  lemma StartTimes<K>(ttl: int, calls: seq<Op<K, ()>>, key: K)
    requires forall i :: 0 <= i < |calls| ==> !calls[i].Refresh?
    ensures key in Run(ttl, calls) <==> exists i: nat :: Supplies(ttl, calls, key, i)
    ensures forall i: nat :: Supplies(ttl, calls, key, i) ==> Run(ttl, calls)[key].seen == calls[i].now
  {
    TraceLaw(ttl, calls, key);
    forall i: nat | Supplies(ttl, calls, key, i)
      ensures Run(ttl, calls)[key].seen == calls[i].now
    {
      UntouchedAge(calls, i, |calls|);
    }
  }
}
