/** `histogramValue`: `observe` and `SortedBuckets`, for any configured list of bounds. */
module Histograms {
  import opened Bytes
  import opened Sums

  datatype Hist = Hist(buckets: map<real, nat>, sum: real, count: nat, updatedAt: int)

  const EMPTY: Hist := Hist(map[], 0.0, 0, 0)

  /** The effect of the bucket loop. */
  function Bumped(buckets: map<real, nat>, value: real, bounds: seq<real>): map<real, nat> {
    if bounds == [] then buckets
    else
      var m := Bumped(buckets, value, bounds[..|bounds| - 1]);
      var b := bounds[|bounds| - 1];
      m[b := Get(m, b) + if value <= b then 1 else 0]
  }

  function Observed(h: Hist, value: real, bounds: seq<real>, now: int): Hist {
    Hist(Bumped(h.buckets, value, bounds), h.sum + value, h.count + 1, now)
  }

  /** `observe` */
  method Observe(h: Hist, value: real, bounds: seq<real>, now: int) returns (r: Hist)
    ensures r == Observed(h, value, bounds, now)
  {
    var buckets := h.buckets;
    for i := 0 to |bounds|
      invariant buckets == Bumped(h.buckets, value, bounds[..i])
    {
      assert bounds[..i + 1][..i] == bounds[..i];
      var b := bounds[i];
      if b !in buckets {
        buckets := buckets[b := 0];
      }
      if value <= b {
        buckets := buckets[b := buckets[b] + 1];
      }
    }
    assert bounds[..|bounds|] == bounds;
    r := Hist(buckets, h.sum + value, h.count + 1, now);
  }

  // ---- What the buckets hold after any observations ----

  /** The histogram after a sequence of observations, made at times that do not matter here. */
  function After(values: seq<real>, bounds: seq<real>, now: int): Hist {
    if values == [] then EMPTY
    else Observed(After(values[..|values| - 1], bounds, now), values[|values| - 1], bounds, now)
  }

  /** How many of the values do not exceed a bound. */
  function AtMost(values: seq<real>, bound: real): (n: nat)
    ensures n <= |values|
  {
    if values == [] then 0
    else AtMost(values[..|values| - 1], bound) + if values[|values| - 1] <= bound then 1 else 0
  }

  function Sum(values: seq<real>): real {
    if values == [] then 0.0 else Sum(values[..|values| - 1]) + values[|values| - 1]
  }

  lemma {:induction false} BumpedExact(buckets: map<real, nat>, value: real, bounds: seq<real>, b: real)
    ensures Get(Bumped(buckets, value, bounds), b) ==
            Get(buckets, b) + if value <= b then multiset(bounds)[b] else 0
    ensures b in Bumped(buckets, value, bounds) <==> b in buckets || b in bounds
  {
    if bounds == [] {
    } else {
      var init, last := bounds[..|bounds| - 1], bounds[|bounds| - 1];
      BumpedExact(buckets, value, init, b);
      assert bounds == init + [last];
    }
  }

  /**
   * Exactness: the count at a bound is the bound's multiplicity in the configured list times the
   * number of observations not above it, in whatever order the list is.
   */
  lemma {:induction false} BucketsExact(values: seq<real>, bounds: seq<real>, now: int, b: real)
    ensures var h := After(values, bounds, now);
            && Get(h.buckets, b) == multiset(bounds)[b] * AtMost(values, b)
            && (b in h.buckets <==> values != [] && b in bounds)
            && h.count == |values| && h.sum == Sum(values)
  {
    if values == [] {
    } else {
      var init, last := values[..|values| - 1], values[|values| - 1];
      BucketsExact(init, bounds, now, b);
      BumpedExact(After(init, bounds, now).buckets, last, bounds, b);
      var m := multiset(bounds)[b];
      assert m * (AtMost(init, b) + 1) == m * AtMost(init, b) + m;
    }
  }

  ghost predicate NoDuplicates(bounds: seq<real>) {
    forall b :: multiset(bounds)[b] <= 1
  }

  lemma {:induction false} AtMostMonotone(values: seq<real>, b: real, c: real)
    requires b <= c
    ensures AtMost(values, b) <= AtMost(values, c)
  {
    if values == [] {
    } else {
      AtMostMonotone(values[..|values| - 1], b, c);
    }
  }

  /** With distinct bounds the buckets are cumulative: nondecreasing and never above the total. */
  lemma BucketsCumulative(values: seq<real>, bounds: seq<real>, now: int, b: real, c: real)
    requires NoDuplicates(bounds) && b in bounds && c in bounds && b <= c
    ensures var h := After(values, bounds, now);
            Get(h.buckets, b) <= Get(h.buckets, c) <= h.count
  {
    BucketsExact(values, bounds, now, b);
    BucketsExact(values, bounds, now, c);
    AtMostMonotone(values, b, c);
    assert multiset(bounds)[b] == 1 && multiset(bounds)[c] == 1;
  }

  ghost predicate NeverAboveTotal(bounds: seq<real>, now: int) {
    forall values, b :: Get(After(values, bounds, now).buckets, b) <= |values|
  }

  /** A bucket never exceeds the total, for every history, exactly when the configured bounds are distinct. */
  lemma NeverAboveTotalExact(bounds: seq<real>, now: int)
    ensures NeverAboveTotal(bounds, now) <==> NoDuplicates(bounds)
  {
    if NoDuplicates(bounds) {
      forall values, b
        ensures Get(After(values, bounds, now).buckets, b) <= |values|
      {
        BucketsExact(values, bounds, now, b);
        assert multiset(bounds)[b] <= 1;
      }
    } else {
      var b :| multiset(bounds)[b] > 1;
      BucketsExact([b], bounds, now, b);
      assert AtMost([b], b) == 1;
      assert Get(After([b], bounds, now).buckets, b) > |[b]|;
    }
  }

  // ---- SortedBuckets ----

  datatype Bucket = Bucket(bound: real, count: nat)

  ghost predicate Sorted(s: seq<real>) {
    forall i, j :: 0 <= i < j < |s| ==> s[i] <= s[j]
  }

  lemma Inserted(r: seq<real>, k: nat, x: real)
    requires Sorted(r) && k <= |r|
    requires (forall m :: 0 <= m < k ==> r[m] <= x) && (k < |r| ==> x <= r[k])
    ensures Sorted(r[..k] + [x] + r[k..])
    ensures multiset(r[..k] + [x] + r[k..]) == multiset(r) + multiset{x}
  {
    assert r == r[..k] + r[k..];
    assert forall m :: k <= m < |r| ==> x <= r[m];
  }

  /** `sort.Float64s` */
  method SortReals(s: seq<real>) returns (r: seq<real>)
    ensures Sorted(r) && multiset(r) == multiset(s)
  {
    r := [];
    for i := 0 to |s|
      invariant Sorted(r) && multiset(r) == multiset(s[..i])
    {
      var k := 0;
      while k < |r| && r[k] <= s[i]
        invariant 0 <= k <= |r|
        invariant forall m :: 0 <= m < k ==> r[m] <= s[i]
      {
        k := k + 1;
      }
      assert s[..i + 1] == s[..i] + [s[i]];
      Inserted(r, k, s[i]);
      r := r[..k] + [s[i]] + r[k..];
    }
    assert s[..|s|] == s;
  }

  /** One entry per bound with its count, in strictly increasing order. */
  ghost predicate Exposes(h: Hist, out: seq<Bucket>) {
    && (forall i, j :: 0 <= i < j < |out| ==> out[i].bound < out[j].bound)
    && (forall i :: 0 <= i < |out| ==> out[i].bound in h.buckets && out[i].count == h.buckets[out[i].bound])
    && (forall b :: b in h.buckets ==> exists i :: 0 <= i < |out| && out[i].bound == b)
  }

  /** Each bound once, in any order. */
  ghost predicate ListsOnce(bounds: seq<real>, keys: set<real>) {
    forall b :: multiset(bounds)[b] == if b in keys then 1 else 0
  }

  method BoundsOf(h: Hist) returns (bounds: seq<real>)
    ensures ListsOnce(bounds, h.buckets.Keys)
  {
    bounds := [];
    var todo: set<real> := h.buckets.Keys;
    while todo != {}
      invariant todo <= h.buckets.Keys && ListsOnce(bounds, h.buckets.Keys - todo)
      decreases |todo|
    {
      var b := AnyOf(todo);
      bounds := bounds + [b];
      todo := todo - {b};
    }
  }

  lemma ListedOnce(bounds: seq<real>, keys: set<real>)
    requires Sorted(bounds) && ListsOnce(bounds, keys)
    ensures forall i, j :: 0 <= i < j < |bounds| ==> bounds[i] < bounds[j]
    ensures forall i :: 0 <= i < |bounds| ==> bounds[i] in keys
    ensures forall b :: b in keys ==> exists i :: 0 <= i < |bounds| && bounds[i] == b
  {
    Distinct(bounds);
    forall i | 0 <= i < |bounds|
      ensures bounds[i] in keys
    {
      assert bounds[i] in multiset(bounds);
    }
    forall b | b in keys
      ensures exists i :: 0 <= i < |bounds| && bounds[i] == b
    {
      assert b in multiset(bounds);
    }
  }

  /** `SortedBuckets` */
  method SortedBuckets(h: Hist) returns (out: seq<Bucket>)
    ensures Exposes(h, out)
  {
    var bounds := BoundsOf(h);
    bounds := SortReals(bounds);
    ListedOnce(bounds, h.buckets.Keys);
    out := [];
    for i := 0 to |bounds|
      invariant |out| == i
      invariant forall k :: 0 <= k < i ==> out[k] == Bucket(bounds[k], h.buckets[bounds[k]])
    {
      out := out + [Bucket(bounds[i], h.buckets[bounds[i]])];
    }
    forall b | b in h.buckets
      ensures exists i :: 0 <= i < |out| && out[i].bound == b
    {
      var i :| 0 <= i < |bounds| && bounds[i] == b;
      assert out[i].bound == b;
    }
  }

  /** Occurring at most once means occurring at one place only. */
  lemma Distinct(s: seq<real>)
    requires forall b :: multiset(s)[b] <= 1
    ensures forall i, j :: 0 <= i < j < |s| ==> s[i] != s[j]
  {
    forall i, j | 0 <= i < j < |s|
      ensures s[i] != s[j]
    {
      var x := s[i];
      assert multiset(s)[x] <= 1;
      assert s == s[..i] + [x] + s[i + 1..j] + [s[j]] + s[j + 1..];
    }
  }
}
