/**
 * What a call moves in the store, taken over all labels of a container: the caps merge labels, and totals
 * are the same with them and without. Also which series it touches.
 */
module Totals {
  import opened Sums
  import opened StoreModel

  function OfKind(kind: Kind, c: Container): Series -> bool {
    (s: Series) => s.kind == kind && s.container == c
  }

  /** Everything counted of a kind for a container. */
  ghost function CounterTotal(s: State, kind: Kind, c: Container): nat {
    Total(Kept(s.ledger.counters, OfKind(kind, c)))
  }

  function Levels(gauges: map<Series, Sample>): map<Series, nat> {
    map k | k in gauges :: gauges[k].value
  }

  /** The gauges of a kind added up for a container. */
  ghost function GaugeTotal(s: State, kind: Kind, c: Container): nat {
    Total(Kept(Levels(s.gauges), OfKind(kind, c)))
  }

  predicate About(raw: Series, kind: Kind, c: Container) {
    raw.kind == kind && raw.container == c
  }

  lemma CounterPut(s: State, after: State, k: Series, n: nat, kind: Kind, c: Container)
    requires after.ledger.counters == s.ledger.counters[k := Get(s.ledger.counters, k) + n]
    ensures CounterTotal(after, kind, c) == CounterTotal(s, kind, c) + if About(k, kind, c) then n else 0
  {
    KeptTotal(s.ledger.counters, k, n, OfKind(kind, c));
  }

  /** A counting call moves one total, by what it counts. */
  lemma CountMoves(cfg: Config, s: State, step: Step, kind: Kind, c: Container)
    requires Counts(step.op)
    ensures var after := Apply(cfg, s, step);
            && GaugeTotal(after, kind, c) == GaugeTotal(s, kind, c)
            && CounterTotal(after, kind, c) == CounterTotal(s, kind, c) +
               if About(step.op.raw, kind, c) then (if step.op.Add? then step.op.amount else 1) else 0
  {
    var k := Bind(cfg, s.ledger.seen, step.op.raw).series;
    CounterPut(s, Apply(cfg, s, step), k, if step.op.Add? then step.op.amount else 1, kind, c);
  }

  lemma LevelsPut(gauges: map<Series, Sample>, k: Series, v: Sample)
    ensures Levels(gauges[k := v]) == Levels(gauges)[k := v.value] && Get(Levels(gauges), k) == Level(gauges, k)
  {
  }

  lemma GaugePut(s: State, after: State, k: Series, v: Sample, kind: Kind, c: Container)
    requires after.gauges == s.gauges[k := v]
    ensures GaugeTotal(after, kind, c) + (if About(k, kind, c) then Level(s.gauges, k) else 0) ==
            GaugeTotal(s, kind, c) + if About(k, kind, c) then v.value else 0
  {
    LevelsPut(s.gauges, k, v);
    KeptTotalPut(Levels(s.gauges), k, v.value, OfKind(kind, c));
  }

  /** The series a call writes, as its labels are shown after it. */
  function Written(cfg: Config, s: State, step: Step): Series
    requires !step.op.Prune?
  {
    Relabelled(Apply(cfg, s, step).ledger.seen, step.op.raw)
  }

  /** Raising a gauge moves one total up by one. */
  lemma RaiseMoves(cfg: Config, s: State, step: Step, kind: Kind, c: Container)
    requires step.op.Raise?
    ensures var after := Apply(cfg, s, step);
            && CounterTotal(after, kind, c) == CounterTotal(s, kind, c)
            && GaugeTotal(after, kind, c) == GaugeTotal(s, kind, c) + if About(step.op.raw, kind, c) then 1 else 0
  {
    var k := Bind(cfg, s.ledger.seen, step.op.raw).series;
    GaugePut(s, Apply(cfg, s, step), k, Sample(Level(s.gauges, k) + 1, step.now), kind, c);
  }

  /** Lowering it moves one total down by one, unless the gauge is at zero. */
  lemma LowerMoves(cfg: Config, s: State, step: Step, kind: Kind, c: Container)
    requires step.op.Lower?
    ensures var after := Apply(cfg, s, step);
            && CounterTotal(after, kind, c) == CounterTotal(s, kind, c)
            && GaugeTotal(after, kind, c) +
               (if About(step.op.raw, kind, c) && Level(s.gauges, Written(cfg, s, step)) > 0 then 1 else 0) ==
               GaugeTotal(s, kind, c)
  {
    var k, v := Bind(cfg, s.ledger.seen, step.op.raw).series, Apply(cfg, s, step);
    BindRelabels(cfg, s.ledger.seen, step.op.raw);
    GaugePut(s, v, k, Sample(if Level(s.gauges, k) > 0 then Level(s.gauges, k) - 1 else 0, step.now), kind, c);
  }

  /** The counter or the gauge at `k` has changed. */
  predicate Touched(before: State, after: State, k: Series) {
    Get(after.ledger.counters, k) != Get(before.ledger.counters, k) || Level(after.gauges, k) != Level(before.gauges, k)
  }

  /** A call touches no series but its own. */
  lemma TouchesOwn(cfg: Config, s: State, step: Step, k: Series)
    requires !step.op.Prune? && Touched(s, Apply(cfg, s, step), k)
    ensures k == Written(cfg, s, step)
  {
    BindRelabels(cfg, s.ledger.seen, step.op.raw);
  }

  /** Nor does the next call change how it is shown. */
  lemma WrittenStays(cfg: Config, s: State, step: Step, next: Step)
    requires !step.op.Prune? && !next.op.Prune?
    ensures var after := Apply(cfg, s, step);
            Relabelled(Apply(cfg, after, next).ledger.seen, step.op.raw) == Written(cfg, s, step)
  {
    var seen := Bind(cfg, s.ledger.seen, step.op.raw).seen;
    BindRelabels(cfg, s.ledger.seen, step.op.raw);
    BindGrows(cfg, seen, next.op.raw, step.op.raw.container.id);
    RelabelledForever(cfg, seen, Bind(cfg, seen, next.op.raw).seen, step.op.raw);
  }
}
