/**
 * Tables whose entries age out: what a map with put, refresh, take and prune holds after any
 * interleaving of calls, stated over the calls alone. `RequestTracker` and `ttlCache` are both
 * such tables.
 */
module TtlTable {

  datatype Entry<V> = Entry(value: V, seen: int)

  /** One call, with the clock reading it made; `Idle` is a call on some other table. */
  datatype Op<K, V> =
    | Put(key: K, value: V, now: int)
    | Refresh(key: K, now: int)
    | Take(key: K)
    | Prune(now: int)
    | Idle

  type Table<K, V> = map<K, Entry<V>>

  function Apply<K(==), V>(ttl: int, t: Table<K, V>, op: Op<K, V>): Table<K, V> {
    match op
    case Put(key, value, now) => t[key := Entry(value, now)]
    case Refresh(key, now) => if key in t then t[key := Entry(t[key].value, now)] else t
    case Take(key) => t - {key}
    case Prune(now) => map k | k in t && now - t[k].seen <= ttl :: t[k]
    case Idle => t
  }

  function Run<K(==), V>(ttl: int, ops: seq<Op<K, V>>): Table<K, V> {
    if ops == [] then map[] else Apply(ttl, Run(ttl, ops[..|ops| - 1]), ops[|ops| - 1])
  }

  // ---- The law of a table, over its call history ----

  /** The last time the entry put by call `i` was put or refreshed before call `end`. */
  function LastTouch<K(==), V>(ops: seq<Op<K, V>>, i: nat, end: nat): int
    requires i < end <= |ops| && ops[i].Put?
    decreases end
  {
    if end == i + 1 then ops[i].now
    else if ops[end - 1].Refresh? && ops[end - 1].key == ops[i].key then ops[end - 1].now
    else LastTouch(ops, i, end - 1)
  }

  /** Call `j` leaves the entry put by call `i` in place. */
  predicate Spares<K(==), V>(ttl: int, ops: seq<Op<K, V>>, i: nat, j: nat)
    requires i < j < |ops| && ops[i].Put?
  {
    match ops[j]
    case Put(key, _, _) => key != ops[i].key
    case Refresh(_, _) => true
    case Take(key) => key != ops[i].key
    case Prune(now) => now - LastTouch(ops, i, j) <= ttl
    case Idle => true
  }

  /** The entry for `key` is the one put by call `i`: not put again, not taken, never over-age at a prune. */
  ghost predicate Supplies<K, V>(ttl: int, ops: seq<Op<K, V>>, key: K, i: nat) {
    && i < |ops| && ops[i].Put? && ops[i].key == key
    && forall j :: i < j < |ops| ==> Spares(ttl, ops, i, j)
  }

  lemma {:induction false} LastTouchPrefix<K, V>(ops: seq<Op<K, V>>, op: Op<K, V>, i: nat, end: nat)
    requires i < end <= |ops| && ops[i].Put?
    ensures LastTouch(ops + [op], i, end) == LastTouch(ops, i, end)
    decreases end
  {
    if end == i + 1 {
    } else {
      LastTouchPrefix(ops, op, i, end - 1);
    }
  }

  /** One more call keeps the supplier exactly when it spares the entry. */
  lemma SuppliesNext<K, V>(ttl: int, ops: seq<Op<K, V>>, op: Op<K, V>, key: K, i: nat)
    requires i < |ops|
    ensures Supplies(ttl, ops + [op], key, i) <==>
            Supplies(ttl, ops, key, i) && Spares(ttl, ops + [op], i, |ops|)
  {
    var more := ops + [op];
    if ops[i].Put? {
      forall j | i < j < |ops|
        ensures Spares(ttl, more, i, j) == Spares(ttl, ops, i, j)
      {
        LastTouchPrefix(ops, op, i, j);
      }
    }
  }

  lemma NotDisplaced<K, V>(ttl: int, ops: seq<Op<K, V>>, key: K, i: nat, j: nat)
    requires Supplies(ttl, ops, key, i) && i < j < |ops|
    ensures (ops[j].Put? || ops[j].Take?) ==> ops[j].key != key
  {
    assert Spares(ttl, ops, i, j);
  }

  /** A supplying call accounts for the entry: its value, and its latest put or refresh. */
  lemma {:induction false} SuppliedEntry<K, V>(ttl: int, ops: seq<Op<K, V>>, key: K, i: nat)
    requires Supplies(ttl, ops, key, i)
    ensures key in Run(ttl, ops)
    ensures Run(ttl, ops)[key] == Entry(ops[i].value, LastTouch(ops, i, |ops|))
    decreases |ops|
  {
    var init, last := ops[..|ops| - 1], ops[|ops| - 1];
    assert ops == init + [last];
    if i < |init| {
      SuppliesNext(ttl, init, last, key, i);
      SuppliedEntry(ttl, init, key, i);
      LastTouchPrefix(init, last, i, |init|);
    }
  }

  /** Every entry has a supplying call. */
  lemma {:induction false} EntrySupplied<K, V>(ttl: int, ops: seq<Op<K, V>>, key: K) returns (i: nat)
    requires key in Run(ttl, ops)
    ensures Supplies(ttl, ops, key, i)
    decreases |ops|
  {
    var init, last := ops[..|ops| - 1], ops[|ops| - 1];
    assert ops == init + [last];
    if last.Put? && last.key == key {
      i := |init|;
    } else {
      i := EntrySupplied(ttl, init, key);
      SuppliedEntry(ttl, init, key, i);
      LastTouchPrefix(init, last, i, |init|);
      SuppliesNext(ttl, init, last, key, i);
    }
  }

  /** The table law: what is stored under a key is what the latest surviving put left there. */
  lemma TraceLaw<K, V>(ttl: int, ops: seq<Op<K, V>>, key: K)
    ensures key in Run(ttl, ops) <==> exists i: nat :: Supplies(ttl, ops, key, i)
    ensures forall i: nat :: Supplies(ttl, ops, key, i) ==>
              key in Run(ttl, ops) && Run(ttl, ops)[key] == Entry(ops[i].value, LastTouch(ops, i, |ops|))
  {
    if key in Run(ttl, ops) {
      var i := EntrySupplied(ttl, ops, key);
    }
    forall i: nat | Supplies(ttl, ops, key, i)
      ensures key in Run(ttl, ops) && Run(ttl, ops)[key] == Entry(ops[i].value, LastTouch(ops, i, |ops|))
    {
      SuppliedEntry(ttl, ops, key, i);
    }
  }

  /** No put is consumed twice: two takes that hit were supplied by different puts. */
  lemma ConsumedOnce<K, V>(ttl: int, ops: seq<Op<K, V>>, j: nat, k: nat, i: nat)
    requires j < k < |ops| && ops[j].Take? && ops[k].Take?
    requires Supplies(ttl, ops[..j], ops[j].key, i)
    ensures !Supplies(ttl, ops[..k], ops[k].key, i)
  {
    assert ops[..j][i] == ops[i] == ops[..k][i];
    if Supplies(ttl, ops[..k], ops[k].key, i) {
      NotDisplaced(ttl, ops[..k], ops[k].key, i, j);
    }
  }

  /** Without refreshes an entry's age counts from its put. */
  lemma {:induction false} UntouchedAge<K, V>(ops: seq<Op<K, V>>, i: nat, end: nat)
    requires i < end <= |ops| && ops[i].Put?
    requires forall j :: i < j < end ==> !ops[j].Refresh?
    ensures LastTouch(ops, i, end) == ops[i].now
    decreases end
  {
    if end == i + 1 {
    } else {
      UntouchedAge(ops, i, end - 1);
    }
  }
}
