/**
 * Requests and responses paired by key: what the request tracker reports over any interleaving of
 * starts, finishes, sweeps and what does not concern it.
 */
module Pairing {
  import opened Bytes
  import opened TtlTable

  datatype Beat<K> = Began(key: K, now: int) | Ended(key: K, now: int) | Swept(now: int) | Away

  /** What a beat does to the tracker. */
  function CallOf<K>(b: Beat<K>): Op<K, ()> {
    match b
    case Began(key, now) => Put(key, (), now)
    case Ended(key, now) => Take(key)
    case Swept(now) => Prune(now)
    case Away => Idle
  }

  function Calls<K>(bs: seq<Beat<K>>): (r: seq<Op<K, ()>>)
    ensures |r| == |bs|
    ensures forall i :: 0 <= i < |bs| ==> r[i] == CallOf(bs[i]) && !r[i].Refresh?
  {
    seq(|bs|, i requires 0 <= i < |bs| => CallOf(bs[i]))
  }

  function Paired<K>(open: Table<K, ()>, key: K, now: int): Option<int> {
    if key in open then Some(now - open[key].seen) else None
  }

  /** The duration the tracker reports for the end at `j`, if any. */
  function PairedAt<K(==)>(ttl: int, bs: seq<Beat<K>>, j: nat): Option<int>
    requires j < |bs| && bs[j].Ended?
  {
    Paired(Run(ttl, Calls(bs[..j])), bs[j].key, bs[j].now)
  }

  /** Beat `k` neither reuses the key of the start at `i` nor finds it over-age. */
  predicate LeavesOpen<K(==)>(ttl: int, bs: seq<Beat<K>>, i: nat, k: nat)
    requires i < k < |bs| && bs[i].Began?
  {
    match bs[k]
    case Swept(now) => now - bs[i].now <= ttl
    case Away => true
    case _ => bs[k].key != bs[i].key
  }

  lemma LeavesOpenIsSpares<K>(ttl: int, bs: seq<Beat<K>>, j: nat, i: nat, k: nat)
    requires i < k < j <= |bs| && bs[i].Began?
    ensures LeavesOpen(ttl, bs, i, k) <==> Spares(ttl, Calls(bs[..j]), i, k)
  {
    UntouchedAge(Calls(bs[..j]), i, k);
  }

  lemma SuppliedPairs<K>(ttl: int, calls: seq<Op<K, ()>>, key: K, i: nat, now: int)
    requires Supplies(ttl, calls, key, i) && forall j :: 0 <= j < |calls| ==> !calls[j].Refresh?
    ensures Paired(Run(ttl, calls), key, now) == Some(now - calls[i].now)
  {
    SuppliedEntry(ttl, calls, key, i);
    UntouchedAge(calls, i, |calls|);
  }

  /** Whatever satisfies the contract of `Finish` is the paired duration. */
  lemma FinishAnswers<K>(ttl: int, calls: seq<Op<K, ()>>, key: K, now: int, duration: int, ok: bool)
    requires forall i :: 0 <= i < |calls| ==> !calls[i].Refresh?
    requires ok <==> exists i: nat :: Supplies(ttl, calls, key, i)
    requires forall i: nat :: Supplies(ttl, calls, key, i) ==> duration == now - calls[i].now
    ensures Paired(Run(ttl, calls), key, now) == if ok then Some(duration) else None
  {
    if ok {
      var i: nat :| Supplies(ttl, calls, key, i);
      SuppliedPairs(ttl, calls, key, i, now);
    } else if key in Run(ttl, calls) {
      var i := EntrySupplied(ttl, calls, key);
    }
  }

  /** An end is paired with the start at `i` when nothing in between closed or replaced it. */
  lemma PairsWith<K>(ttl: int, bs: seq<Beat<K>>, i: nat, j: nat)
    requires i < j < |bs| && bs[i].Began? && bs[j].Ended? && bs[i].key == bs[j].key
    requires forall k :: i < k < j ==> LeavesOpen(ttl, bs, i, k)
    ensures PairedAt(ttl, bs, j) == Some(bs[j].now - bs[i].now)
  {
    var calls := Calls(bs[..j]);
    forall k | i < k < |calls|
      ensures Spares(ttl, calls, i, k)
    {
      LeavesOpenIsSpares(ttl, bs, j, i, k);
    }
    SuppliedPairs(ttl, calls, bs[j].key, i, bs[j].now);
  }

  /** The other direction: a reported duration always belongs to a start that is still open. */
  lemma PairedIsOpen<K>(ttl: int, bs: seq<Beat<K>>, j: nat) returns (i: nat)
    requires j < |bs| && bs[j].Ended? && PairedAt(ttl, bs, j).Some?
    ensures i < j && bs[i].Began? && bs[i].key == bs[j].key
    ensures forall k :: i < k < j ==> LeavesOpen(ttl, bs, i, k)
    ensures PairedAt(ttl, bs, j) == Some(bs[j].now - bs[i].now)
  {
    var calls := Calls(bs[..j]);
    i := EntrySupplied(ttl, calls, bs[j].key);
    forall k | i < k < j
      ensures LeavesOpen(ttl, bs, i, k)
    {
      assert Spares(ttl, calls, i, k);
      LeavesOpenIsSpares(ttl, bs, j, i, k);
    }
    PairsWith(ttl, bs, i, j);
  }

  lemma NotReused<K>(ttl: int, bs: seq<Beat<K>>, i: nat, k: nat)
    requires i < k < |bs| && bs[i].Began? && bs[k].Ended? && LeavesOpen(ttl, bs, i, k)
    ensures bs[k].key != bs[i].key
  {
  }

  /**
   * Of two starts of one key that overlap, only the later can be paired: the next end takes its start
   * time, and a second end finds nothing.
   */
  lemma OverlapLosesFirst<K>(ttl: int, bs: seq<Beat<K>>, first: nat, second: nat, j: nat, k: nat)
    requires first < second < j < k < |bs| && bs[first].Began? && bs[second].Began? && bs[j].Ended? && bs[k].Ended?
    requires bs[first].key == bs[second].key == bs[j].key == bs[k].key
    requires forall m :: second < m < j ==> LeavesOpen(ttl, bs, second, m)
    requires forall m :: j < m < k ==> bs[m].Swept? || bs[m].Away? || bs[m].key != bs[j].key
    ensures PairedAt(ttl, bs, j) == Some(bs[j].now - bs[second].now)
    ensures PairedAt(ttl, bs, k) == None
  {
    PairsWith(ttl, bs, second, j);
    if PairedAt(ttl, bs, k).Some? {
      var i := PairedIsOpen(ttl, bs, k);
      if i < j {
        NotReused(ttl, bs, i, j);
      }
    }
  }
}
