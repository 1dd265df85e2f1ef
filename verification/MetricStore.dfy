/**
 * The metric store as an object whose methods update its maps in place. Its ghost history records
 * the calls made, and every method keeps the maps equal to the run of that history, so what is
 * proved of all runs holds of every store.
 */
module MetricStore {
  import opened Bytes
  import opened Labels
  import opened Sums
  import opened Histograms
  import opened StoreModel

  function Prepend(done: seq<Tag>, rest: BoundTags): BoundTags {
    BoundTags(done + rest.tags, rest.seen)
  }

  class Store {
    const cfg: Config
    var counters: map<Series, nat>
    var gauges: map<Series, Sample>
    var hists: map<HistKey, Hist>
    var seen: Seen
    ghost var history: seq<Step>

    ghost function View(): State
      reads this
    {
      State(Ledger(counters, seen), gauges, hists)
    }

    ghost predicate Valid()
      reads this
    {
      View() == Run(cfg, history)
    }

    /** `New` */
    constructor (cfg: Config)
      ensures Valid() && history == [] && this.cfg == cfg
    {
      this.cfg := cfg;
      counters, gauges, hists, seen, history := map[], map[], map[], map[], [];
    }

    // ---- Keys ----

    /** `boundValue` */
    method BoundValue(slot: Slot, value: string, limit: int) returns (text: string)
      modifies `seen
      ensures Bounded(text, seen) == Bound(old(seen), slot, value, limit)
    {
      if value == "" {
        return "";
      }
      if slot !in seen {
        seen := seen[slot := map[]];
      }
      if value in seen[slot] {
        return value;
      }
      if |seen[slot]| >= limit {
        return OVERFLOW;
      }
      seen := seen[slot := seen[slot][value := ()]];
      return value;
    }

    /** `endpointKey`, `sourceKey` and their like: bounds the labels one after the other. */
    method Key(raw: Series) returns (key: Series)
      modifies `seen
      ensures BoundSeries(key, seen) == Bind(cfg, old(seen), raw)
    {
      var id, done := raw.container.id, [];
      for i := 0 to |raw.tags|
        invariant BindTags(cfg, old(seen), id, raw.tags) ==
                  Prepend(done, BindTags(cfg, seen, id, raw.tags[i..]))
      {
        var t := raw.tags[i];
        assert raw.tags[i..][1..] == raw.tags[i + 1..];
        var text := BoundValue(Slot(t.space, id), t.value, Limit(cfg, t.space));
        done := done + [Tag(t.space, text)];
      }
      key := raw.(tags := done);
    }

    // ---- Operations ----

    /** `incEndpoint`, `incSource` and the other increments of a counter. */
    method Add(raw: Series, n: nat, now: int)
      requires Valid()
      modifies this
      ensures Valid() && history == old(history) + [Step(Op.Add(raw, n), now)]
    {
      RunNext(cfg, history, Step(Op.Add(raw, n), now));
      history := history + [Step(Op.Add(raw, n), now)];
      var key := Key(raw);
      counters := counters[key := Get(counters, key) + n];
    }

    /** `ObserveDNS` and `ObserveProtocol` */
    method Observe(raw: Series, duration: real, now: int)
      requires Valid()
      modifies this
      ensures Valid() && history == old(history) + [Step(Op.Observe(raw, duration), now)]
    {
      RunNext(cfg, history, Step(Op.Observe(raw, duration), now));
      history := history + [Step(Op.Observe(raw, duration), now)];
      var key := Key(raw);
      counters := counters[key := Get(counters, key) + 1];
      if duration > 0.0 {
        var histKey := HistOf(key);
        var hist := if histKey in hists then hists[histKey] else EMPTY;
        hist := Histograms.Observe(hist, duration, BucketsFor(cfg, histKey), now);
        hists := hists[histKey := hist];
      }
    }

    /** `IncActiveConnection` and `IncInboundActive` */
    method Raise(raw: Series, now: int)
      requires Valid()
      modifies this
      ensures Valid() && history == old(history) + [Step(Op.Raise(raw), now)]
    {
      RunNext(cfg, history, Step(Op.Raise(raw), now));
      var key := Key(raw);
      var v := Level(gauges, key) + 1;
      gauges := gauges[key := Sample(v, now)];
      history := history + [Step(Op.Raise(raw), now)];
    }

    /** `DecActiveConnection` and `DecInboundActive` */
    method Lower(raw: Series, now: int)
      requires Valid()
      modifies this
      ensures Valid() && history == old(history) + [Step(Op.Lower(raw), now)]
    {
      RunNext(cfg, history, Step(Op.Lower(raw), now));
      history := history + [Step(Op.Lower(raw), now)];
      var key := Key(raw);
      var v := Level(gauges, key);
      if v > 0 {
        v := v - 1;
      }
      gauges := gauges[key := Sample(v, now)];
    }

    /** `SetActiveConnections` and `SetIPFQDN` */
    method Set(raw: Series, value: nat, now: int)
      requires Valid()
      modifies this
      ensures Valid() && history == old(history) + [Step(Op.Set(raw, value), now)]
    {
      RunNext(cfg, history, Step(Op.Set(raw, value), now));
      history := history + [Step(Op.Set(raw, value), now)];
      var key := Key(raw);
      gauges := gauges[key := Sample(value, now)];
    }

    /** `Prune`: momentary series go by age, the rest by liveness; without an answer from the cache they stay. */
    method Prune(live: Option<set<string>>, now: int)
      requires Valid()
      modifies this
      ensures Valid() && history == old(history) + [Step(Op.Prune(live), now)]
    {
      RunNext(cfg, history, Step(Op.Prune(live), now));
      history := history + [Step(Op.Prune(live), now)];
      PruneOld(now);
      if live.Some? {
        DropDead(live.value);
      }
    }

    /** `pruneSeries` and `pruneHistograms` */
    method PruneOld(now: int)
      modifies `gauges, `hists
      ensures gauges == FreshSamples(old(gauges), now, cfg.metricTtl)
      ensures hists == FreshHists(old(hists), now, cfg.metricTtl)
    {
      gauges := Sift(gauges, (k: Series, v: Sample) => now - v.updatedAt > cfg.metricTtl);
      hists := Sift(hists, (k: HistKey, v: Hist) => now - v.updatedAt > cfg.metricTtl);
    }

    method DropDead(live: set<string>)
      modifies `counters, `seen
      ensures counters == LiveCounters(old(counters), live)
      ensures seen == LiveSeen(old(seen), live)
    {
      counters := Sift(counters, (k: Series, v: nat) => k.container.id !in live);
      seen := Sift(seen, (k: Slot, v: Values) => k.containerId !in live);
    }
  }
}
