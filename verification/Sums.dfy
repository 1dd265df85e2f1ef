/** Sums over maps, and counters merged along a relabelling. */
module Sums {

  function Get<K>(m: map<K, nat>, k: K): nat {
    if k in m then m[k] else 0
  }

  ghost function Total<K>(m: map<K, nat>): nat
    decreases |m|
  {
    if m == map[] then 0
    else
      var k :| k in m;
      m[k] + Total(m - {k})
  }

  /** The order of summation does not matter. */
  lemma {:induction false} TotalSplit<K>(m: map<K, nat>, k: K)
    requires k in m
    ensures Total(m) == m[k] + Total(m - {k})
    decreases |m|
  {
    var first :| first in m && Total(m) == m[first] + Total(m - {first});
    if first != k {
      TotalSplit(m - {first}, k);
      TotalSplit(m - {k}, first);
      assert m - {first} - {k} == m - {k} - {first};
    }
  }

  lemma TotalPut<K>(m: map<K, nat>, k: K, n: nat)
    ensures Total(m[k := n]) + Get(m, k) == Total(m) + n
  {
    TotalSplit(m[k := n], k);
    assert m[k := n] - {k} == m - {k};
    if k in m {
      TotalSplit(m, k);
    } else {
      assert m - {k} == m;
    }
  }

  lemma TotalBump<K>(m: map<K, nat>, k: K, n: nat)
    ensures Total(m[k := Get(m, k) + n]) == Total(m) + n
  {
    TotalPut(m, k, Get(m, k) + n);
  }

  // ---- Counters merged along a relabelling ----

  /** The part of `full` that the relabelling sends to `k`. */
  function Fibre<K(==)>(full: map<K, nat>, relabel: K -> K, k: K): map<K, nat> {
    map r | r in full && relabel(r) == k :: full[r]
  }

  /** At `k`, `merged` is `full` added up along the relabelling. */
  ghost predicate MergesAt<K>(merged: map<K, nat>, full: map<K, nat>, relabel: K -> K, k: K) {
    && Get(merged, k) == Total(Fibre(full, relabel, k))
    && (k in merged <==> Fibre(full, relabel, k) != map[])
  }

  /** Counting `n` under `r`, and under the label it is sent to. */
  lemma MergeCount<K>(merged: map<K, nat>, full: map<K, nat>, f: K -> K, r: K, n: nat, k: K)
    requires MergesAt(merged, full, f, k)
    ensures MergesAt(merged[f(r) := Get(merged, f(r)) + n], full[r := Get(full, r) + n], f, k)
  {
    var before, after := Fibre(full, f, k), Fibre(full[r := Get(full, r) + n], f, k);
    if k == f(r) {
      assert after == before[r := Get(before, r) + n];
      TotalBump(before, r, n);
    } else {
      assert after == before;
    }
  }

  // ---- Counters from a log ----

  datatype Count<K> = Count(key: K, n: nat)

  /** The counters a log of counts leaves, each count under the label its key is sent to. */
  function Tallied<K>(log: seq<Count<K>>, f: K -> K): map<K, nat> {
    if log == [] then map[]
    else
      var m := Tallied(log[..|log| - 1], f);
      var to := f(log[|log| - 1].key);
      m[to := Get(m, to) + log[|log| - 1].n]
  }

  function Identity<K>(): K -> K { x => x }

  lemma TalliedMore<K>(log: seq<Count<K>>, f: K -> K, key: K, n: nat)
    ensures Tallied(log + [Count(key, n)], f) == Tallied(log, f)[f(key) := Get(Tallied(log, f), f(key)) + n]
  {
    assert (log + [Count(key, n)])[..|log|] == log;
  }

  /** Tallying by label is tallying by key, and then adding up by label. */
  lemma {:induction false} TalliedMerges<K>(log: seq<Count<K>>, f: K -> K, k: K)
    ensures MergesAt(Tallied(log, f), Tallied(log, Identity()), f, k)
  {
    if log == [] {
      assert Fibre(map[], f, k) == map[];
    } else {
      var init, last := log[..|log| - 1], log[|log| - 1];
      TalliedMerges(init, f, k);
      MergeCount(Tallied(init, f), Tallied(init, Identity()), f, last.key, last.n, k);
    }
  }

  predicate SameOn<K(==)>(log: seq<Count<K>>, f: K -> K, g: K -> K) {
    forall i :: 0 <= i < |log| ==> f(log[i].key) == g(log[i].key)
  }

  lemma {:induction false} TalliedSame<K>(log: seq<Count<K>>, f: K -> K, g: K -> K)
    requires SameOn(log, f, g)
    ensures Tallied(log, f) == Tallied(log, g)
  {
    if log == [] {
    } else {
      TalliedSame(log[..|log| - 1], f, g);
    }
  }

  function Kept<K>(m: map<K, nat>, keep: K -> bool): map<K, nat> {
    map x | x in m && keep(x) :: m[x]
  }

  function KeptLog<K>(log: seq<Count<K>>, keep: K -> bool): seq<Count<K>> {
    if log == [] then []
    else
      var init, last := KeptLog(log[..|log| - 1], keep), log[|log| - 1];
      if keep(last.key) then init + [last] else init
  }

  lemma KeptTotalPut<K>(m: map<K, nat>, k: K, n: nat, keep: K -> bool)
    ensures Total(Kept(m[k := n], keep)) + (if keep(k) then Get(m, k) else 0) == Total(Kept(m, keep)) + if keep(k) then n else 0
  {
    var before, after := Kept(m, keep), Kept(m[k := n], keep);
    if keep(k) {
      assert after == before[k := n] && Get(before, k) == Get(m, k);
      TotalPut(before, k, n);
    } else {
      assert after == before;
    }
  }

  /** Counting adds to the kept part exactly when the key is kept. */
  lemma KeptTotal<K>(m: map<K, nat>, k: K, n: nat, keep: K -> bool)
    ensures Total(Kept(m[k := Get(m, k) + n], keep)) == Total(Kept(m, keep)) + if keep(k) then n else 0
  {
    KeptTotalPut(m, k, Get(m, k) + n, keep);
  }

  /** Dropping whole labels from the counters is dropping their counts from the log. */
  lemma {:induction false} TalliedKept<K(!new)>(log: seq<Count<K>>, f: K -> K, keep: K -> bool)
    requires forall x :: keep(f(x)) == keep(x)
    ensures Tallied(KeptLog(log, keep), f) == Kept(Tallied(log, f), keep)
  {
    if log == [] {
    } else {
      var init, last := log[..|log| - 1], log[|log| - 1];
      TalliedKept(init, f, keep);
      if keep(last.key) {
        TalliedMore(KeptLog(init, keep), f, last.key, last.n);
      }
    }
  }

  lemma {:induction false} KeptLogIn<K>(log: seq<Count<K>>, keep: K -> bool)
    ensures forall c :: c in KeptLog(log, keep) <==> c in log && keep(c.key)
  {
    if log == [] {
    } else {
      KeptLogIn(log[..|log| - 1], keep);
    }
  }
}
