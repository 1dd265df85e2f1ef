/**
 * Counters never reset: discovery, events and the janitor interleaved in any way. The janitor hands
 * the store the identity cache's ids as they are at that moment.
 */
module Retention {
  import opened Bytes
  import opened StoreModel
  import opened Identity

  datatype Action = Discover(report: Report) | Call(op: Op, at: int) | Janitor(now: int)

  function ReportsOf(actions: seq<Action>): seq<Report> {
    if actions == [] then []
    else
      var init, last := ReportsOf(actions[..|actions| - 1]), actions[|actions| - 1];
      if last.Discover? then init + [last.report] else init
  }

  /** The calls the store sees. */
  function StepsOf(ttl: int, actions: seq<Action>): seq<Step> {
    if actions == [] then []
    else
      var init := actions[..|actions| - 1];
      match actions[|actions| - 1]
      case Discover(_) => StepsOf(ttl, init)
      case Call(op, at) => StepsOf(ttl, init) + [Step(op, at)]
      case Janitor(now) => StepsOf(ttl, init) + [Step(Prune(Some(RunCache(ttl, ReportsOf(init)).Keys)), now)]
  }

  function LedgerAt(cfg: Config, ttl: int, actions: seq<Action>): Ledger {
    RunLedger(cfg, StepsOf(ttl, actions))
  }

  /** Only the janitor prunes. */
  predicate OnlyJanitorPrunes(actions: seq<Action>) {
    forall i :: 0 <= i < |actions| && actions[i].Call? ==> !actions[i].op.Prune?
  }

  predicate Reported(reports: seq<Report>, id: string) {
    exists i :: 0 <= i < |reports| && Lists(reports[i], id)
  }

  /** At every report, the time since the container was last reported is within the TTL. */
  ghost predicate OnTime(ttl: int, reports: seq<Report>, id: string) {
    forall i, j :: 0 <= i < j < |reports| && LastListed(reports[..j], id, i) && !Lists(reports[j], id) ==>
      reports[j].now - reports[i].now <= ttl
  }

  lemma {:induction false} SomeLastListed(reports: seq<Report>, id: string) returns (i: nat)
    requires Reported(reports, id)
    ensures LastListed(reports, id, i)
  {
    var n := |reports| - 1;
    if Lists(reports[n], id) {
      i := n;
    } else {
      assert Reported(reports[..n], id) by {
        var k :| 0 <= k < |reports| && Lists(reports[k], id);
        assert Lists(reports[..n][k], id);
      }
      i := SomeLastListed(reports[..n], id);
    }
  }

  /** A container reported on time is cached. */
  lemma OnTimeCached(ttl: int, reports: seq<Report>, id: string)
    requires Reported(reports, id) && OnTime(ttl, reports, id)
    ensures id in RunCache(ttl, reports)
  {
    var i := SomeLastListed(reports, id);
    forall j | i < j < |reports|
      ensures reports[j].now - reports[i].now <= ttl
    {
      assert LastListed(reports[..j], id, i);
    }
    CachedExactly(ttl, reports, id);
  }

  lemma {:induction false} ReportsPrefix(actions: seq<Action>, i: nat)
    requires i <= |actions|
    ensures ReportsOf(actions[..i]) <= ReportsOf(actions)
    decreases |actions|
  {
    if i < |actions| {
      var init := actions[..|actions| - 1];
      assert init[..i] == actions[..i];
      ReportsPrefix(init, i);
    } else {
      assert actions[..i] == actions;
    }
  }

  lemma OnTimePrefix(ttl: int, early: seq<Report>, reports: seq<Report>, id: string)
    requires early <= reports && OnTime(ttl, reports, id)
    ensures OnTime(ttl, early, id)
  {
    forall i, j | 0 <= i < j < |early| && LastListed(early[..j], id, i) && !Lists(early[j], id)
      ensures early[j].now - early[i].now <= ttl
    {
      assert early[..j] == reports[..j];
    }
  }

  // ---- Counters across one action ----

  /** `k` is still there, and no lower. */
  predicate KeepsUp(before: map<Series, nat>, after: map<Series, nat>, k: Series) {
    k in before ==> k in after && before[k] <= after[k]
  }

  lemma ActionKeepsUp(cfg: Config, ttl: int, actions: seq<Action>, k: Series)
    requires actions != [] && OnlyJanitorPrunes(actions)
    requires k.container.id in RunCache(ttl, ReportsOf(actions[..|actions| - 1]))
    ensures KeepsUp(LedgerAt(cfg, ttl, actions[..|actions| - 1]).counters, LedgerAt(cfg, ttl, actions).counters, k)
  {
    var init, last := actions[..|actions| - 1], actions[|actions| - 1];
    match last
    case Discover(_) =>
    case Call(op, at) =>
    case Janitor(now) =>
      assert actions == init + [Janitor(now)];
  }

  /**
   * If a container is reported on time, then from its first report on each of its counters never
   * disappears and never decreases, whatever else happens.
   */
  lemma {:induction false} CountersNeverReset(cfg: Config, ttl: int, actions: seq<Action>, i: nat, k: Series)
    requires i <= |actions| && OnlyJanitorPrunes(actions)
    requires OnTime(ttl, ReportsOf(actions), k.container.id) && Reported(ReportsOf(actions[..i]), k.container.id)
    ensures KeepsUp(LedgerAt(cfg, ttl, actions[..i]).counters, LedgerAt(cfg, ttl, actions).counters, k)
    decreases |actions|
  {
    if i == |actions| {
      assert actions[..i] == actions;
    } else {
      var init := actions[..|actions| - 1];
      var id := k.container.id;
      assert init[..i] == actions[..i];
      ReportsPrefix(actions, |init|);
      ReportsPrefix(init, i);
      OnTimePrefix(ttl, ReportsOf(init), ReportsOf(actions), id);
      CountersNeverReset(cfg, ttl, init, i, k);
      assert Reported(ReportsOf(init), id) by {
        var early := ReportsOf(init[..i]);
        var j :| 0 <= j < |early| && Lists(early[j], id);
        assert ReportsOf(init)[j] == early[j];
      }
      OnTimeCached(ttl, ReportsOf(init), id);
      ActionKeepsUp(cfg, ttl, actions, k);
    }
  }

  /**
   * When the janitor comes, a counter survives exactly when its container's last report is not over
   * age by any later one; otherwise it is gone, whatever it had counted.
   */
  lemma SurvivesExactly(cfg: Config, ttl: int, actions: seq<Action>, now: int, k: Series)
    ensures var before, after := LedgerAt(cfg, ttl, actions).counters, LedgerAt(cfg, ttl, actions + [Janitor(now)]).counters;
            var reports := ReportsOf(actions);
            && (k in after <==>
                k in before && exists i: nat :: LastListed(reports, k.container.id, i) && Unexpired(ttl, reports, i))
            && (k in after ==> after[k] == before[k])
  {
    CachedExactly(ttl, ReportsOf(actions), k.container.id);
  }
}
