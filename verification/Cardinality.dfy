/**
 * Label cardinality. Budgets never exceed their limits, and every label under which something is
 * counted came out of its container's budget. Gauges and histograms are dropped by age only, so they
 * satisfy the same until a prune drops their container; what holds after that is given exactly.
 */
module Cardinality {
  import opened Bytes
  import opened Addresses
  import opened Labels
  import opened StoreModel
  import opened Momentary
  import opened Prefixes

  // ---- Budgets ----

  ghost predicate AllWithin(cfg: Config, seen: Seen) {
    forall slot: Slot :: Within(seen, slot, Limit(cfg, slot.space))
  }

  lemma {:induction false} BindTagsWithin(cfg: Config, seen: Seen, id: string, tags: seq<Tag>, slot: Slot)
    requires Within(seen, slot, Limit(cfg, slot.space))
    ensures Within(BindTags(cfg, seen, id, tags).seen, slot, Limit(cfg, slot.space))
    decreases |tags|
  {
    if tags == [] {
    } else {
      var own := Slot(tags[0].space, id);
      BoundWithin(seen, own, tags[0].value, Limit(cfg, own.space), slot, Limit(cfg, slot.space));
      BindTagsWithin(cfg, Bound(seen, own, tags[0].value, Limit(cfg, own.space)).seen, id, tags[1..], slot);
    }
  }

  /** In every reachable state no budget is overdrawn. */
  lemma {:induction false} BudgetsRespected(cfg: Config, steps: seq<Step>)
    ensures AllWithin(cfg, RunLedger(cfg, steps).seen)
    decreases |steps|
  {
    if steps == [] {
    } else {
      var l, op := RunLedger(cfg, steps[..|steps| - 1]), steps[|steps| - 1].op;
      BudgetsRespected(cfg, steps[..|steps| - 1]);
      forall slot: Slot
        ensures Within(ApplyLedger(cfg, l, op).seen, slot, Limit(cfg, slot.space))
      {
        if !op.Prune? {
          BindTagsWithin(cfg, l.seen, op.raw.container.id, op.raw.tags, slot);
        }
      }
    }
  }

  // ---- Labels ----

  /** Every label is empty, the overflow label, or admitted. */
  predicate AdmittedTags(seen: Seen, id: string, tags: seq<Tag>) {
    forall t :: t in tags ==> t.value in Admitted(seen, Slot(t.space, id)) || t.value in {"", OVERFLOW}
  }

  lemma {:induction false} ShowTagsAdmitted(seen: Seen, id: string, tags: seq<Tag>)
    ensures AdmittedTags(seen, id, ShowTags(seen, id, tags))
  {
    if tags == [] {
    } else {
      ShowTagsAdmitted(seen, id, tags[1..]);
    }
  }

  lemma BindAdmitted(cfg: Config, seen: Seen, raw: Series)
    ensures var b := Bind(cfg, seen, raw); AdmittedTags(b.seen, raw.container.id, b.series.tags)
  {
    BindRelabels(cfg, seen, raw);
    ShowTagsAdmitted(Bind(cfg, seen, raw).seen, raw.container.id, raw.tags);
  }

  predicate AdmittedSeries(seen: Seen, k: Series) {
    AdmittedTags(seen, k.container.id, k.tags)
  }

  /** A series that was fine stays so, unless its container is dropped. */
  lemma StepAdmitted(cfg: Config, l: Ledger, op: Op, k: Series)
    requires AdmittedSeries(l.seen, k) && !Drops(op, k.container.id)
    ensures AdmittedSeries(ApplyLedger(cfg, l, op).seen, k)
  {
    StepGrows(cfg, l, op, k.container.id);
  }

  /** In every reachable state every counter's labels were admitted, and still are. */
  lemma {:induction false} CountersAdmitted(cfg: Config, steps: seq<Step>, k: Series)
    requires k in RunLedger(cfg, steps).counters
    ensures AdmittedSeries(RunLedger(cfg, steps).seen, k)
    decreases |steps|
  {
    if steps == [] {
    } else {
      var l, op := RunLedger(cfg, steps[..|steps| - 1]), steps[|steps| - 1].op;
      if k in l.counters {
        CountersAdmitted(cfg, steps[..|steps| - 1], k);
        StepAdmitted(cfg, l, op, k);
      } else {
        BindAdmitted(cfg, l.seen, op.raw);
      }
    }
  }

  // ---- How many labels there can be ----

  /** The labels of one kind that a container's counters carry. */
  function LabelsUsed(counters: map<Series, nat>, slot: Slot): set<string> {
    set k, t | k in counters && t in k.tags && k.container.id == slot.containerId && t.space == slot.space :: t.value
  }

  /** However many peers a container talks to, it has at most two labels more than its budget. */
  lemma LabelsBounded(cfg: Config, steps: seq<Step>, slot: Slot)
    ensures var limit :=
              if slot.space == Fqdns then cfg.fqdnCeiling
              else if slot.space == Urls then cfg.urlLimit
              else cfg.destinationLimit;
            |LabelsUsed(RunLedger(cfg, steps).counters, slot)| <= (if limit > 0 then limit else 0) + 2
  {
    var l := RunLedger(cfg, steps);
    var allowed := Admitted(l.seen, slot).Keys + {"", OVERFLOW};
    forall k, t | k in l.counters && t in k.tags && k.container.id == slot.containerId && t.space == slot.space
      ensures t.value in allowed
    {
      CountersAdmitted(cfg, steps, k);
    }
    SubsetSize(LabelsUsed(l.counters, slot), allowed);
    BudgetsRespected(cfg, steps);
    assert Within(l.seen, slot, Limit(cfg, slot.space));
    assert |Admitted(l.seen, slot).Keys| == |Admitted(l.seen, slot)|;
  }

  // ---- Momentary series ----

  /** Labels that need no budget. */
  predicate Plain(tags: seq<Tag>) {
    forall t :: t in tags ==> t.value in {"", OVERFLOW}
  }

  /** With its budgets forgotten, a container's labels are admitted only if they need none. */
  lemma DropForgets(seen: Seen, live: set<string>, id: string, tags: seq<Tag>)
    requires id !in live
    ensures AdmittedTags(LiveSeen(seen, live), id, tags) <==> Plain(tags)
  {
    var after := LiveSeen(seen, live);
    assert forall space :: Admitted(after, Slot(space, id)) == map[];
    if AdmittedTags(after, id, tags) {
      forall t | t in tags
        ensures t.value in {"", OVERFLOW}
      {
        assert Admitted(after, Slot(t.space, id)) == map[];
      }
    }
  }

  /** The gauge, if it is there, keeps to the budgets of its container. */
  ghost predicate GaugeKeeps(cfg: Config, steps: seq<Step>, k: Series) {
    k in Run(cfg, steps).gauges ==> AdmittedSeries(Run(cfg, steps).ledger.seen, k)
  }

  /** A step that drops the container finds the gauge over age, or in no need of a budget. */
  predicate GaugeFine(cfg: Config, init: seq<Step>, step: Step, k: Series) {
    Drops(step.op, k.container.id) ==>
      Alive(cfg.metricTtl, GaugeBeats(cfg, init, k) + [Sweep(step.now)]).None? || Plain(k.tags)
  }

  lemma GaugeGrows(cfg: Config, s: State, step: Step, k: Series)
    requires !Drops(step.op, k.container.id) && (k in s.gauges ==> AdmittedSeries(s.ledger.seen, k))
    requires k in Apply(cfg, s, step).gauges
    ensures AdmittedSeries(Apply(cfg, s, step).ledger.seen, k)
  {
    if k in s.gauges {
      StepAdmitted(cfg, s.ledger, step.op, k);
    } else {
      BindAdmitted(cfg, s.ledger.seen, step.op.raw);
    }
  }

  lemma GaugeStep(cfg: Config, init: seq<Step>, step: Step, k: Series)
    requires GaugeKeeps(cfg, init, k)
    ensures GaugeKeeps(cfg, init + [step], k) <==> GaugeFine(cfg, init, step, k)
  {
    var s := Run(cfg, init);
    RunNext(cfg, init, step);
    if Drops(step.op, k.container.id) {
      assert (init + [step])[..|init|] == init;
      GaugePresence(cfg, init + [step], k);
      DropForgets(s.ledger.seen, step.op.live.value, k.container.id, k.tags);
    } else if k in Apply(cfg, s, step).gauges {
      GaugeGrows(cfg, s, step, k);
    }
  }

  ghost predicate GaugeKeepsAfter(cfg: Config, steps: seq<Step>, n: nat, k: Series) {
    n <= |steps| ==> GaugeKeeps(cfg, steps[..n], k)
  }

  predicate GaugeFineAt(cfg: Config, steps: seq<Step>, i: nat, k: Series) {
    i < |steps| ==> GaugeFine(cfg, steps[..i], steps[i], k)
  }

  /**
   * For every run: a gauge keeps to the budgets after every step if and only if every prune that drops
   * its container finds it over age, or labelled with nothing but the empty and the overflow label.
   */
  lemma GaugeKeepsExactly(cfg: Config, steps: seq<Step>, k: Series)
    ensures (forall n: nat :: n <= |steps| ==> GaugeKeepsAfter(cfg, steps, n, k)) <==>
            (forall i: nat :: i < |steps| ==> GaugeFineAt(cfg, steps, i, k))
  {
    var law := (n: nat) => GaugeKeepsAfter(cfg, steps, n, k);
    var fine := (i: nat) => GaugeFineAt(cfg, steps, i, k);
    forall n: nat | n < |steps| && law(n)
      ensures law(n + 1) <==> fine(n)
    {
      assert steps[..n + 1] == steps[..n] + [steps[n]];
      GaugeStep(cfg, steps[..n], steps[n], k);
    }
    KeptThroughout(law, fine, |steps|);
    assert forall n: nat :: law(n) == GaugeKeepsAfter(cfg, steps, n, k);
    assert forall n: nat :: fine(n) == GaugeFineAt(cfg, steps, n, k);
  }

  predicate NeverDropped(steps: seq<Step>, id: string) {
    forall i :: 0 <= i < |steps| ==> !Drops(steps[i].op, id)
  }

  /** In particular, gauges keep to the budget until a prune drops their container. */
  lemma GaugesAdmitted(cfg: Config, steps: seq<Step>, k: Series)
    requires NeverDropped(steps, k.container.id) && k in Run(cfg, steps).gauges
    ensures AdmittedSeries(Run(cfg, steps).ledger.seen, k)
  {
    GaugeKeepsExactly(cfg, steps, k);
    assert GaugeKeepsAfter(cfg, steps, |steps|, k);
    assert steps[..|steps|] == steps;
  }

  // -- Histograms, likewise --

  function HistTags(key: HistKey): seq<Tag> {
    if key.RequestDuration? then key.tags else []
  }

  ghost predicate HistKeeps(cfg: Config, steps: seq<Step>, key: HistKey) {
    key in Run(cfg, steps).hists ==> AdmittedTags(Run(cfg, steps).ledger.seen, key.container.id, HistTags(key))
  }

  predicate HistFine(cfg: Config, init: seq<Step>, step: Step, key: HistKey) {
    Drops(step.op, key.container.id) ==>
      Alive(cfg.metricTtl, HistBeats(cfg, init, key) + [Sweep(step.now)]).None? || Plain(HistTags(key))
  }

  lemma HistGrows(cfg: Config, s: State, step: Step, key: HistKey)
    requires !Drops(step.op, key.container.id)
    requires key in s.hists ==> AdmittedTags(s.ledger.seen, key.container.id, HistTags(key))
    requires key in Apply(cfg, s, step).hists
    ensures AdmittedTags(Apply(cfg, s, step).ledger.seen, key.container.id, HistTags(key))
  {
    if key in s.hists {
      StepGrows(cfg, s.ledger, step.op, key.container.id);
    } else {
      BindAdmitted(cfg, s.ledger.seen, step.op.raw);
    }
  }

  lemma HistStep(cfg: Config, init: seq<Step>, step: Step, key: HistKey)
    requires HistKeeps(cfg, init, key)
    ensures HistKeeps(cfg, init + [step], key) <==> HistFine(cfg, init, step, key)
  {
    var s := Run(cfg, init);
    RunNext(cfg, init, step);
    if Drops(step.op, key.container.id) {
      assert (init + [step])[..|init|] == init;
      HistPresence(cfg, init + [step], key);
      DropForgets(s.ledger.seen, step.op.live.value, key.container.id, HistTags(key));
    } else if key in Apply(cfg, s, step).hists {
      HistGrows(cfg, s, step, key);
    }
  }

  ghost predicate HistKeepsAfter(cfg: Config, steps: seq<Step>, n: nat, key: HistKey) {
    n <= |steps| ==> HistKeeps(cfg, steps[..n], key)
  }

  predicate HistFineAt(cfg: Config, steps: seq<Step>, i: nat, key: HistKey) {
    i < |steps| ==> HistFine(cfg, steps[..i], steps[i], key)
  }

  /** For every run: the same of a histogram's labels. */
  lemma HistKeepsExactly(cfg: Config, steps: seq<Step>, key: HistKey)
    ensures (forall n: nat :: n <= |steps| ==> HistKeepsAfter(cfg, steps, n, key)) <==>
            (forall i: nat :: i < |steps| ==> HistFineAt(cfg, steps, i, key))
  {
    var law := (n: nat) => HistKeepsAfter(cfg, steps, n, key);
    var fine := (i: nat) => HistFineAt(cfg, steps, i, key);
    forall n: nat | n < |steps| && law(n)
      ensures law(n + 1) <==> fine(n)
    {
      assert steps[..n + 1] == steps[..n] + [steps[n]];
      HistStep(cfg, steps[..n], steps[n], key);
    }
    KeptThroughout(law, fine, |steps|);
    assert forall n: nat :: law(n) == HistKeepsAfter(cfg, steps, n, key);
    assert forall n: nat :: fine(n) == HistFineAt(cfg, steps, n, key);
  }

  lemma HistsAdmitted(cfg: Config, steps: seq<Step>, key: HistKey)
    requires NeverDropped(steps, key.container.id) && key in Run(cfg, steps).hists
    ensures AdmittedTags(Run(cfg, steps).ledger.seen, key.container.id, HistTags(key))
  {
    HistKeepsExactly(cfg, steps, key);
    assert HistKeepsAfter(cfg, steps, |steps|, key);
    assert steps[..|steps|] == steps;
  }

  // -- Runs in which they do not --

  lemma RunTwo(cfg: Config, a: Step, b: Step)
    ensures Run(cfg, [a, b]) == Apply(cfg, Run(cfg, [a]), b)
    ensures Run(cfg, [a]) == Apply(cfg, INITIAL, a)
  {
    assert [a, b][..1] == [a] && [a][..0] == [];
  }

  /** A gauge whose label no budget knows any more: raised, and its container dropped at once. */
  lemma GaugeOutlivesBudget(cfg: Config, c: Container, peer: string)
    requires cfg.destinationLimit > 0 && cfg.metricTtl >= 0 && Normalize(cfg.ports, peer) !in {"", OVERFLOW}
    ensures var k := SourceSeries(cfg.ports, InboundActive, c, peer);
            var s := Run(cfg, [Step(Raise(k), 0), Step(Prune(Some({})), 0)]);
            k in s.gauges && !AdmittedSeries(s.ledger.seen, k)
  {
    var shown := Normalize(cfg.ports, peer);
    var k := Series(InboundActive, c, [Tag(Sources, shown)]);
    var up, down := Step(Raise(k), 0), Step(Prune(Some({})), 0);
    RunTwo(cfg, up, down);
    assert BindTags(cfg, map[], c.id, k.tags).tags == [Tag(Sources, shown)] by {
      assert k.tags[1..] == [];
    }
    DropForgets(Run(cfg, [up]).ledger.seen, {}, c.id, k.tags);
    assert k.tags[0].value == shown;
  }

  lemma BindRepeated(cfg: Config, id: string, peer: string)
    requires cfg.destinationLimit > 0 && peer != ""
    ensures var tags := [Tag(Destinations, peer), Tag(Destinations, peer)] + [Tag(Urls, "")];
            BindTags(cfg, map[], id, tags).tags == tags
  {
    var first, second, url := Tag(Destinations, peer), Tag(Destinations, peer), Tag(Urls, "");
    var tags := [first, second] + [url];
    var seen: Seen := map[Slot(Destinations, id) := map[peer := ()]];
    assert tags[1..] == [second, url] && [second, url][1..] == [url] && [url][1..] == [];
    assert BindTags(cfg, seen, id, [url]) == BoundTags([url], seen);
    assert BindTags(cfg, seen, id, [second, url]) == BoundTags([second, url], seen);
  }

  /** A histogram whose labels no budget knows any more: a timed request, and its container dropped at once. */
  lemma HistOutlivesBudget(cfg: Config, c: Container, peer: string)
    requires cfg.destinationLimit > 0 && cfg.metricTtl >= 0 && Normalize(cfg.ports, peer) !in {"", OVERFLOW}
    ensures var raw := RequestSeries(cfg.ports, "http", c, peer, peer, "200", "");
            var s := Run(cfg, [Step(Observe(raw, 1.0), 0), Step(Prune(Some({})), 0)]);
            HistOf(raw) in s.hists && !AdmittedTags(s.ledger.seen, c.id, raw.tags)
  {
    var shown := Normalize(cfg.ports, peer);
    var raw := Series(Requests("http", "200"), c, [Tag(Destinations, shown), Tag(Destinations, shown)] + [Tag(Urls, "")]);
    var look, drop := Step(Observe(raw, 1.0), 0), Step(Prune(Some({})), 0);
    RunTwo(cfg, look, drop);
    BindRepeated(cfg, c.id, shown);
    DropForgets(Run(cfg, [look]).ledger.seen, {}, c.id, raw.tags);
    assert raw.tags[0].value == shown;
  }
}
