/**
 * When gauges and histograms are there: they age out on their own, so whether one is present is read
 * off the calls made, the labels they were bound to and the prunes in between.
 */
module Momentary {
  import opened Bytes
  import opened Histograms
  import opened StoreModel

  // ---- Ageing ----

  /** What a call is to one momentary series. */
  datatype Beat = Touch(now: int) | Sweep(now: int) | Quiet

  /** The time of the last touch, if no sweep since a touch came too late for it. */
  function Alive(ttl: int, beats: seq<Beat>): Option<int> {
    if beats == [] then None
    else
      var before := Alive(ttl, beats[..|beats| - 1]);
      match beats[|beats| - 1]
      case Touch(now) => Some(now)
      case Sweep(now) => if before.Some? && now - before.value <= ttl then before else None
      case Quiet => before
  }

  ghost predicate LastTouch(beats: seq<Beat>, i: nat) {
    i < |beats| && beats[i].Touch? && forall j :: i < j < |beats| ==> !beats[j].Touch?
  }

  /** No sweep after the touch at `i` came more than the TTL after it. */
  ghost predicate Spared(ttl: int, beats: seq<Beat>, i: nat) {
    i < |beats| && beats[i].Touch? &&
    forall j :: i < j < |beats| && beats[j].Sweep? ==> beats[j].now - beats[i].now <= ttl
  }

  ghost predicate AliveSince(ttl: int, beats: seq<Beat>, i: nat) {
    LastTouch(beats, i) && Spared(ttl, beats, i)
  }

  lemma AliveNext(ttl: int, beats: seq<Beat>, beat: Beat, i: nat)
    requires !beat.Touch?
    ensures AliveSince(ttl, beats + [beat], i) <==>
            AliveSince(ttl, beats, i) && (beat.Sweep? ==> beat.now - beats[i].now <= ttl)
  {
    var more := beats + [beat];
    assert more[|beats|] == beat && forall j :: 0 <= j < |beats| ==> more[j] == beats[j];
    if AliveSince(ttl, more, i) {
      assert i < |beats|;
    }
  }

  /** Alive exactly when some touch is the last and was spared by every sweep since. */
  lemma {:induction false} AliveExactly(ttl: int, beats: seq<Beat>)
    ensures Alive(ttl, beats).Some? <==> exists i: nat :: AliveSince(ttl, beats, i)
    ensures forall i: nat :: AliveSince(ttl, beats, i) ==> Alive(ttl, beats) == Some(beats[i].now)
  {
    if beats == [] {
    } else {
      var init, last := beats[..|beats| - 1], beats[|beats| - 1];
      assert init + [last] == beats;
      AliveExactly(ttl, init);
      if last.Touch? {
        assert AliveSince(ttl, beats, |init|);
      } else {
        forall i: nat
          ensures AliveSince(ttl, beats, i) <==>
                  AliveSince(ttl, init, i) && (last.Sweep? ==> last.now - init[i].now <= ttl)
        {
          AliveNext(ttl, init, last, i);
        }
      }
    }
  }

  // ---- Gauges and histograms ----

  /** What a call after `init` is to the gauge `k`. */
  function GaugeBeat(cfg: Config, init: seq<Step>, step: Step, k: Series): Beat {
    if step.op.Prune? then Sweep(step.now)
    else if !Counts(step.op) && Bind(cfg, RunLedger(cfg, init).seen, step.op.raw).series == k then Touch(step.now)
    else Quiet
  }

  /** Whether a duration belongs in a histogram: one per container for lookups, one per labels for requests. */
  predicate Times(key: HistKey, s: Series) {
    match key
    case DnsDuration(c) => !s.kind.Requests? && s.container == c
    case RequestDuration(protocol, c, tags) =>
      s.kind.Requests? && s.kind.protocol == protocol && s.container == c && s.tags == tags
  }

  function HistBeat(cfg: Config, init: seq<Step>, step: Step, key: HistKey): Beat {
    if step.op.Prune? then Sweep(step.now)
    else if step.op.Observe? && step.op.duration > 0.0 &&
            Times(key, Bind(cfg, RunLedger(cfg, init).seen, step.op.raw).series) then Touch(step.now)
    else Quiet
  }

  function GaugeBeats(cfg: Config, steps: seq<Step>, k: Series): (r: seq<Beat>)
    ensures |r| == |steps|
  {
    if steps == [] then []
    else
      var init := steps[..|steps| - 1];
      GaugeBeats(cfg, init, k) + [GaugeBeat(cfg, init, steps[|steps| - 1], k)]
  }

  function HistBeats(cfg: Config, steps: seq<Step>, key: HistKey): (r: seq<Beat>)
    ensures |r| == |steps|
  {
    if steps == [] then []
    else
      var init := steps[..|steps| - 1];
      HistBeats(cfg, init, key) + [HistBeat(cfg, init, steps[|steps| - 1], key)]
  }

  function AgeOfGauge(gauges: map<Series, Sample>, k: Series): Option<int> {
    if k in gauges then Some(gauges[k].updatedAt) else None
  }

  function AgeOfHist(hists: map<HistKey, Hist>, key: HistKey): Option<int> {
    if key in hists then Some(hists[key].updatedAt) else None
  }

  /** In every run a gauge is present exactly while it is alive, stamped with its last touch. */
  lemma {:induction false} GaugePresence(cfg: Config, steps: seq<Step>, k: Series)
    ensures AgeOfGauge(Run(cfg, steps).gauges, k) == Alive(cfg.metricTtl, GaugeBeats(cfg, steps, k))
    decreases |steps|
  {
    if steps == [] {
    } else {
      var init, last := steps[..|steps| - 1], steps[|steps| - 1];
      GaugePresence(cfg, init, k);
      LedgerOfRun(cfg, init);
    }
  }

  /** And so is a histogram. */
  lemma {:induction false} HistPresence(cfg: Config, steps: seq<Step>, key: HistKey)
    ensures AgeOfHist(Run(cfg, steps).hists, key) == Alive(cfg.metricTtl, HistBeats(cfg, steps, key))
    decreases |steps|
  {
    if steps == [] {
    } else {
      var init, last := steps[..|steps| - 1], steps[|steps| - 1];
      HistPresence(cfg, init, key);
      LedgerOfRun(cfg, init);
    }
  }

  // ---- What a gauge reads ----

  /** What the calls bound to a gauge have made of it since it was last absent; it does not go below zero. */
  function Reading(cfg: Config, steps: seq<Step>, k: Series): nat {
    if steps == [] then 0
    else
      var init, last := steps[..|steps| - 1], steps[|steps| - 1];
      var before := Reading(cfg, init, k);
      match GaugeBeat(cfg, init, last, k)
      case Quiet => before
      case Sweep(_) => if Alive(cfg.metricTtl, GaugeBeats(cfg, steps, k)).Some? then before else 0
      case Touch(_) =>
        match last.op
        case Raise(_) => before + 1
        case Lower(_) => if before == 0 then 0 else before - 1
        case Set(_, value) => value
        case _ => before
  }

  /** In every run a gauge reads so. */
  lemma {:induction false} GaugeReads(cfg: Config, steps: seq<Step>, k: Series)
    ensures Level(Run(cfg, steps).gauges, k) == Reading(cfg, steps, k)
    decreases |steps|
  {
    if steps == [] {
    } else {
      var init := steps[..|steps| - 1];
      GaugeReads(cfg, init, k);
      GaugePresence(cfg, init, k);
      GaugePresence(cfg, steps, k);
      LedgerOfRun(cfg, init);
    }
  }
}
