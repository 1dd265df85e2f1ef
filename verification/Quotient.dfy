/**
 * The capped store is an exact quotient of an uncapped one: counting the same calls under the labels
 * they came with, no budget involved, the capped counters are the sums of those counts over a single
 * relabelling, the one the admitted values describe at the end.
 */
module Quotient {
  import opened Labels
  import opened Sums
  import opened StoreModel

  type Log = seq<Count<Series>>

  /** What has been counted, and not forgotten with its container since. */
  function NextLog(log: Log, op: Op): Log {
    match op
    case Add(raw, amount) => log + [Count(raw, amount)]
    case Observe(raw, _) => log + [Count(raw, 1)]
    case Prune(live) => if live.Some? then KeptLog(log, OfLive(live.value)) else log
    case _ => log
  }

  function LogOf(steps: seq<Step>): Log {
    if steps == [] then [] else NextLog(LogOf(steps[..|steps| - 1]), steps[|steps| - 1].op)
  }

  /** A counter per address, with no budgets at all. */
  function Uncapped(steps: seq<Step>): map<Series, nat> {
    Tallied(LogOf(steps), Identity())
  }

  // ---- A label, once counted under, stays ----

  ghost predicate AllSettled(cfg: Config, seen: Seen, log: Log) {
    forall i :: 0 <= i < |log| ==> SettledSeries(cfg, seen, log[i].key)
  }

  lemma LabelsBound(cfg: Config, seen: Seen, log: Log, raw: Series)
    requires AllSettled(cfg, seen, log)
    ensures AllSettled(cfg, Bind(cfg, seen, raw).seen, log)
    ensures SameOn(log, Relabel(seen), Relabel(Bind(cfg, seen, raw).seen))
  {
    var after := Bind(cfg, seen, raw).seen;
    forall i | 0 <= i < |log|
      ensures SettledSeries(cfg, after, log[i].key) && Relabelled(after, log[i].key) == Relabelled(seen, log[i].key)
    {
      BindGrows(cfg, seen, raw, log[i].key.container.id);
      RelabelledForever(cfg, seen, after, log[i].key);
    }
  }

  /** Forgetting a container's budgets along with its counters leaves the other labels alone. */
  lemma LabelsPruned(cfg: Config, seen: Seen, log: Log, live: set<string>)
    requires AllSettled(cfg, seen, log)
    ensures AllSettled(cfg, LiveSeen(seen, live), KeptLog(log, OfLive(live)))
    ensures SameOn(KeptLog(log, OfLive(live)), Relabel(seen), Relabel(LiveSeen(seen, live)))
  {
    var kept := KeptLog(log, OfLive(live));
    KeptLogIn(log, OfLive(live));
    forall i | 0 <= i < |kept|
      ensures SettledSeries(cfg, LiveSeen(seen, live), kept[i].key)
      ensures Relabelled(LiveSeen(seen, live), kept[i].key) == Relabelled(seen, kept[i].key)
    {
      assert kept[i] in kept;
      ShowTagsLive(seen, live, kept[i].key.container.id, kept[i].key.tags);
    }
  }

  lemma SettledStep(cfg: Config, l: Ledger, log: Log, op: Op)
    requires AllSettled(cfg, l.seen, log)
    ensures AllSettled(cfg, ApplyLedger(cfg, l, op).seen, NextLog(log, op))
  {
    if !op.Prune? {
      BindRelabels(cfg, l.seen, op.raw);
      LabelsBound(cfg, l.seen, log, op.raw);
    } else if op.live.Some? {
      LabelsPruned(cfg, l.seen, log, op.live.value);
    }
  }

  /** Every label ever counted under is decided, in every run. */
  lemma {:induction false} RunSettled(cfg: Config, steps: seq<Step>)
    ensures AllSettled(cfg, RunLedger(cfg, steps).seen, LogOf(steps))
    decreases |steps|
  {
    if steps == [] {
    } else {
      var init := steps[..|steps| - 1];
      RunSettled(cfg, init);
      SettledStep(cfg, RunLedger(cfg, init), LogOf(init), steps[|steps| - 1].op);
    }
  }

  // ---- The quotient ----

  /** A run's counters are its log, tallied under the labels its budgets show. */
  ghost predicate IsTally(l: Ledger, log: Log) {
    l.counters == Tallied(log, Relabel(l.seen))
  }

  lemma TallyBound(cfg: Config, l: Ledger, log: Log, raw: Series)
    requires AllSettled(cfg, l.seen, log) && IsTally(l, log)
    ensures IsTally(Ledger(l.counters, Bind(cfg, l.seen, raw).seen), log)
  {
    LabelsBound(cfg, l.seen, log, raw);
    TalliedSame(log, Relabel(l.seen), Relabel(Bind(cfg, l.seen, raw).seen));
  }

  lemma TallyCounted(cfg: Config, l: Ledger, log: Log, raw: Series, n: nat)
    requires AllSettled(cfg, l.seen, log) && IsTally(l, log)
    ensures IsTally(CountLedger(cfg, l, raw, n), log + [Count(raw, n)])
  {
    TallyBound(cfg, l, log, raw);
    BindRelabels(cfg, l.seen, raw);
    TalliedMore(log, Relabel(Bind(cfg, l.seen, raw).seen), raw, n);
  }

  lemma TallyPruned(cfg: Config, l: Ledger, log: Log, live: set<string>)
    requires AllSettled(cfg, l.seen, log) && IsTally(l, log)
    ensures IsTally(PruneLedger(l, live), KeptLog(log, OfLive(live)))
  {
    LabelsPruned(cfg, l.seen, log, live);
    TalliedSame(KeptLog(log, OfLive(live)), Relabel(l.seen), Relabel(LiveSeen(l.seen, live)));
    TalliedKept(log, Relabel(l.seen), OfLive(live));
  }

  lemma TallyStep(cfg: Config, l: Ledger, log: Log, op: Op)
    requires AllSettled(cfg, l.seen, log) && IsTally(l, log)
    ensures IsTally(ApplyLedger(cfg, l, op), NextLog(log, op))
  {
    match op
    case Add(raw, amount) => TallyCounted(cfg, l, log, raw, amount);
    case Observe(raw, _) => TallyCounted(cfg, l, log, raw, 1);
    case Prune(live) =>
      if live.Some? {
        TallyPruned(cfg, l, log, live.value);
      }
    case _ => TallyBound(cfg, l, log, op.raw);
  }

  lemma {:induction false} RunTally(cfg: Config, steps: seq<Step>)
    ensures IsTally(RunLedger(cfg, steps), LogOf(steps))
    decreases |steps|
  {
    if steps == [] {
    } else {
      var init, op := steps[..|steps| - 1], steps[|steps| - 1].op;
      RunTally(cfg, init);
      RunSettled(cfg, init);
      TallyStep(cfg, RunLedger(cfg, init), LogOf(init), op);
    }
  }

  /**
   * For every run: one relabelling, read off the values admitted at the end, makes every capped
   * counter the sum of the uncapped counters over its preimage; and there is a capped series exactly
   * where there is something to add up.
   */
  lemma ExactQuotient(cfg: Config, steps: seq<Step>, k: Series)
    ensures MergesAt(RunLedger(cfg, steps).counters, Uncapped(steps), Relabel(RunLedger(cfg, steps).seen), k)
  {
    RunTally(cfg, steps);
    TalliedMerges(LogOf(steps), Relabel(RunLedger(cfg, steps).seen), k);
  }

  // ---- How much ----

  /**
   * What the calls have counted under `k`, their labels shown by `f`, since its container was last
   * dropped: the amount of every addition, and one for every observation.
   */
  function Counted(steps: seq<Step>, f: Series -> Series, k: Series): nat {
    if steps == [] then 0
    else
      var before := Counted(steps[..|steps| - 1], f, k);
      match steps[|steps| - 1].op
      case Add(raw, amount) => if f(raw) == k then before + amount else before
      case Observe(raw, _) => if f(raw) == k then before + 1 else before
      case Prune(live) => if live.Some? && k.container.id !in live.value then 0 else before
      case _ => before
  }

  /** Labels change, containers do not. */
  ghost predicate KeepsContainer(f: Series -> Series) {
    forall s :: f(s).container == s.container
  }

  lemma {:induction false} TalliedIsCounted(steps: seq<Step>, f: Series -> Series, k: Series)
    requires KeepsContainer(f)
    ensures Get(Tallied(LogOf(steps), f), k) == Counted(steps, f, k)
    decreases |steps|
  {
    if steps == [] {
    } else {
      var init, op := steps[..|steps| - 1], steps[|steps| - 1].op;
      TalliedIsCounted(init, f, k);
      match op
      case Add(raw, amount) => TalliedMore(LogOf(init), f, raw, amount);
      case Observe(raw, _) => TalliedMore(LogOf(init), f, raw, 1);
      case Prune(live) =>
        if live.Some? {
          TalliedKept(LogOf(init), f, OfLive(live.value));
        }
      case _ =>
    }
  }

  /** In every run, a counter is what the calls have counted under its labels since its container was last dropped. */
  lemma CounterExact(cfg: Config, steps: seq<Step>, k: Series)
    ensures var l := RunLedger(cfg, steps); Get(l.counters, k) == Counted(steps, Relabel(l.seen), k)
  {
    RunTally(cfg, steps);
    TalliedIsCounted(steps, Relabel(RunLedger(cfg, steps).seen), k);
  }
}
