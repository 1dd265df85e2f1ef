/**
 * Response-time histograms against request counters. Every timed observation is also counted, but
 * the two live in different maps with different lifetimes; for a container that no prune drops, a
 * histogram never holds more observations than there were requests with its labels.
 */
module ResponseTimes {
  import opened Bytes
  import opened Sums
  import opened Histograms
  import opened StoreModel
  import opened Momentary
  import opened Prefixes
  import opened Cardinality

  predicate Timed(s: Series) { s.kind.Requests? || s.kind.DnsRequests? }

  /** The store observes durations of requests and DNS lookups only. */
  predicate TimesRequests(steps: seq<Step>) {
    forall i :: 0 <= i < |steps| && steps[i].op.Observe? ==> Timed(steps[i].op.raw)
  }

  function OfHist(key: HistKey): Series -> bool {
    (s: Series) => Timed(s) && Times(key, s)
  }

  /** The requests counted under a histogram's labels, over every status. */
  ghost function RequestCount(counters: map<Series, nat>, key: HistKey): nat {
    Total(Kept(counters, OfHist(key)))
  }

  lemma RequestCountAdds(counters: map<Series, nat>, k: Series, n: nat, key: HistKey)
    ensures RequestCount(counters[k := Get(counters, k) + n], key) ==
            RequestCount(counters, key) + if OfHist(key)(k) then n else 0
  {
    KeptTotal(counters, k, n, OfHist(key));
  }

  /** A prune that keeps the container keeps its request counters. */
  lemma RequestCountLive(counters: map<Series, nat>, live: set<string>, key: HistKey)
    ensures RequestCount(LiveCounters(counters, live), key) ==
            if key.container.id in live then RequestCount(counters, key) else 0
  {
    assert Kept(LiveCounters(counters, live), OfHist(key)) ==
           if key.container.id in live then Kept(counters, OfHist(key)) else map[];
  }

  lemma StepRequests(cfg: Config, l: Ledger, op: Op, key: HistKey)
    requires !Drops(op, key.container.id)
    ensures RequestCount(ApplyLedger(cfg, l, op).counters, key) ==
            RequestCount(l.counters, key) +
            if Counts(op) && OfHist(key)(Bind(cfg, l.seen, op.raw).series) then Amount(op) else 0
  {
    if Counts(op) {
      RequestCountAdds(l.counters, Bind(cfg, l.seen, op.raw).series, Amount(op), key);
    } else if op.Prune? && op.live.Some? {
      RequestCountLive(l.counters, op.live.value, key);
    }
  }

  // ---- What a histogram holds ----

  /** The positive durations observed under a key since its histogram last aged out. */
  function Durations(cfg: Config, steps: seq<Step>, key: HistKey): seq<real> {
    if steps == [] then []
    else
      var init, last := steps[..|steps| - 1], steps[|steps| - 1];
      match HistBeat(cfg, init, last, key)
      case Touch(_) => Durations(cfg, init, key) + [last.op.duration]
      case Sweep(now) =>
        var age := Alive(cfg.metricTtl, HistBeats(cfg, init, key));
        if age.Some? && now - age.value <= cfg.metricTtl then Durations(cfg, init, key) else []
      case Quiet => Durations(cfg, init, key)
  }

  ghost predicate SameContent(a: Hist, b: Hist) {
    a.buckets == b.buckets && a.sum == b.sum && a.count == b.count
  }

  function HistAt(hists: map<HistKey, Hist>, key: HistKey): Hist {
    if key in hists then hists[key] else EMPTY
  }

  lemma ObservedContent(h: Hist, values: seq<real>, d: real, bounds: seq<real>, now: int)
    requires SameContent(h, After(values, bounds, 0))
    ensures SameContent(Observed(h, d, bounds, now), After(values + [d], bounds, 0))
  {
    assert (values + [d])[..|values|] == values;
  }

  lemma TouchedContent(cfg: Config, s: State, step: Step, key: HistKey, values: seq<real>)
    requires step.op.Observe? && step.op.duration > 0.0 && Times(key, Bind(cfg, s.ledger.seen, step.op.raw).series)
    requires SameContent(HistAt(s.hists, key), After(values, BucketsFor(cfg, key), 0))
    ensures SameContent(HistAt(ApplyHists(cfg, s, step), key), After(values + [step.op.duration], BucketsFor(cfg, key), 0))
  {
    ObservedContent(HistAt(s.hists, key), values, step.op.duration, BucketsFor(cfg, key), step.now);
  }

  /** In every run, a histogram is the one its durations would give on their own. */
  lemma {:induction false} HistogramOfDurations(cfg: Config, steps: seq<Step>, key: HistKey)
    ensures SameContent(HistAt(Run(cfg, steps).hists, key), After(Durations(cfg, steps, key), BucketsFor(cfg, key), 0))
    decreases |steps|
  {
    if steps == [] {
    } else {
      var init, last := steps[..|steps| - 1], steps[|steps| - 1];
      var s := Run(cfg, init);
      HistogramOfDurations(cfg, init, key);
      HistPresence(cfg, init, key);
      LedgerOfRun(cfg, init);
      if HistBeat(cfg, init, last, key).Touch? {
        TouchedContent(cfg, s, last, key, Durations(cfg, init, key));
      }
    }
  }

  /**
   * So in every run the bucket at each configured bound counts exactly the durations not above it, and
   * the histogram is there exactly while it is alive.
   */
  lemma HistogramExact(cfg: Config, steps: seq<Step>, key: HistKey, b: real)
    ensures var h, ds := HistAt(Run(cfg, steps).hists, key), Durations(cfg, steps, key);
            var bounds := if key.DnsDuration? then cfg.dnsDurationBuckets else cfg.durationBuckets;
            && (key in Run(cfg, steps).hists <==> Alive(cfg.metricTtl, HistBeats(cfg, steps, key)).Some?)
            && Get(h.buckets, b) == multiset(bounds)[b] * AtMost(ds, b) && h.count == |ds| && h.sum == Histograms.Sum(ds)
  {
    HistPresence(cfg, steps, key);
    HistogramOfDurations(cfg, steps, key);
    BucketsExact(Durations(cfg, steps, key), BucketsFor(cfg, key), 0, b);
  }

  /** With distinct bounds configured, what is exposed is cumulative: counts never fall, nor pass the total. */
  lemma ExposedCumulative(cfg: Config, steps: seq<Step>, key: HistKey, out: seq<Bucket>)
    requires key in Run(cfg, steps).hists && Exposes(Run(cfg, steps).hists[key], out)
    requires NoDuplicates(BucketsFor(cfg, key))
    ensures forall i, j :: 0 <= i <= j < |out| ==> out[i].count <= out[j].count <= Run(cfg, steps).hists[key].count
  {
    var h, ds, bounds := Run(cfg, steps).hists[key], Durations(cfg, steps, key), BucketsFor(cfg, key);
    HistogramOfDurations(cfg, steps, key);
    forall i, j | 0 <= i <= j < |out|
      ensures out[i].count <= out[j].count <= h.count
    {
      BucketsExact(ds, bounds, 0, out[i].bound);
      BucketsExact(ds, bounds, 0, out[j].bound);
      BucketsCumulative(ds, bounds, 0, out[i].bound, out[j].bound);
    }
  }

  // ---- Against the requests ----

  /** There are at least as many requests counted as durations held. */
  ghost predicate Covered(cfg: Config, steps: seq<Step>, key: HistKey) {
    HistAt(Run(cfg, steps).hists, key).count <= RequestCount(Run(cfg, steps).ledger.counters, key)
  }

  /** A step that drops the container finds the histogram over age, or not there at all. */
  predicate LeavesNone(cfg: Config, init: seq<Step>, step: Step, key: HistKey) {
    Drops(step.op, key.container.id) ==> Alive(cfg.metricTtl, HistBeats(cfg, init, key) + [Sweep(step.now)]).None?
  }

  /** A histogram is alive exactly while it holds something. */
  lemma {:induction false} AliveTimed(cfg: Config, steps: seq<Step>, key: HistKey)
    ensures Alive(cfg.metricTtl, HistBeats(cfg, steps, key)).Some? <==> Durations(cfg, steps, key) != []
    decreases |steps|
  {
    if steps == [] {
    } else {
      var init, last := steps[..|steps| - 1], steps[|steps| - 1];
      AliveTimed(cfg, init, key);
    }
  }

  lemma DropLeaves(cfg: Config, init: seq<Step>, step: Step, key: HistKey)
    requires step.op.Prune?
    ensures HistAt(Run(cfg, init + [step]).hists, key).count == 0 <==>
            Alive(cfg.metricTtl, HistBeats(cfg, init, key) + [Sweep(step.now)]).None?
  {
    assert (init + [step])[..|init|] == init;
    AliveTimed(cfg, init + [step], key);
    HistogramExact(cfg, init + [step], key, 0.0);
  }

  lemma CoveredStep(cfg: Config, init: seq<Step>, step: Step, key: HistKey)
    requires Covered(cfg, init, key) && (step.op.Observe? ==> Timed(step.op.raw))
    ensures Covered(cfg, init + [step], key) <==> LeavesNone(cfg, init, step, key)
  {
    var s := Run(cfg, init);
    RunNext(cfg, init, step);
    if Drops(step.op, key.container.id) {
      RequestCountLive(s.ledger.counters, step.op.live.value, key);
      DropLeaves(cfg, init, step, key);
    } else {
      StepRequests(cfg, s.ledger, step.op, key);
    }
  }

  ghost predicate CoveredAfter(cfg: Config, steps: seq<Step>, n: nat, key: HistKey) {
    n <= |steps| ==> Covered(cfg, steps[..n], key)
  }

  predicate LeavesNoneAt(cfg: Config, steps: seq<Step>, i: nat, key: HistKey) {
    i < |steps| ==> LeavesNone(cfg, steps[..i], steps[i], key)
  }

  /**
   * For every run and every duration key: the histogram never holds more than was counted, after any
   * step, if and only if every prune that drops the container finds it over age or not there.
   */
  lemma CoveredExactly(cfg: Config, steps: seq<Step>, key: HistKey)
    requires TimesRequests(steps)
    ensures (forall n: nat :: n <= |steps| ==> CoveredAfter(cfg, steps, n, key)) <==>
            (forall i: nat :: i < |steps| ==> LeavesNoneAt(cfg, steps, i, key))
  {
    var law := (n: nat) => CoveredAfter(cfg, steps, n, key);
    var fine := (i: nat) => LeavesNoneAt(cfg, steps, i, key);
    forall n: nat | n < |steps| && law(n)
      ensures law(n + 1) <==> fine(n)
    {
      assert steps[..n + 1] == steps[..n] + [steps[n]];
      CoveredStep(cfg, steps[..n], steps[n], key);
    }
    KeptThroughout(law, fine, |steps|);
    assert forall n: nat :: law(n) == CoveredAfter(cfg, steps, n, key);
    assert forall n: nat :: fine(n) == LeavesNoneAt(cfg, steps, n, key);
  }

  /** In particular, for every response-time key of a container no prune drops. */
  lemma NeverMoreTimedThanCounted(cfg: Config, steps: seq<Step>, key: HistKey)
    requires TimesRequests(steps) && NeverDropped(steps, key.container.id)
    ensures Covered(cfg, steps, key)
  {
    CoveredExactly(cfg, steps, key);
    assert CoveredAfter(cfg, steps, |steps|, key);
    assert steps[..|steps|] == steps;
  }

  /** A timed lookup whose container is dropped at once: one observation, no request. */
  lemma DroppedTooSoon(cfg: Config, c: Container)
    requires cfg.metricTtl >= 0
    ensures !Covered(cfg, [Step(Observe(DnsSeries(c, "", "A", "ok"), 1.0), 0), Step(Prune(Some({})), 0)], DnsDuration(c))
  {
    var raw, key := DnsSeries(c, "", "A", "ok"), DnsDuration(c);
    var look, drop := Step(Observe(raw, 1.0), 0), Step(Prune(Some({})), 0);
    RunTwo(cfg, look, drop);
    assert Run(cfg, [look]).hists[key] == Observed(EMPTY, 1.0, BucketsFor(cfg, key), 0);
    RequestCountLive(Run(cfg, [look]).ledger.counters, {}, key);
  }
}
