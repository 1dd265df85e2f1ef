/**
 * The metric store as a value: its series, the label budgets they are bound by, and the effect of
 * every operation. The source's counter maps are one map here, keyed by kind and labels; likewise
 * the gauges, the histograms and the `*Seen` maps.
 */
module StoreModel {
  import opened Bytes
  import opened Addresses
  import opened Labels
  import opened Sums
  import opened Histograms

  datatype Container = Container(id: string, name: string, pod: string)

  datatype Config = Config(
    destinationLimit: int,
    fqdnCeiling: int,
    urlLimit: int,
    metricTtl: int,
    durationBuckets: seq<real>,
    dnsDurationBuckets: seq<real>,
    ports: PortPolicy)

  function Limit(cfg: Config, space: Space): int {
    match space
    case Fqdns => cfg.fqdnCeiling
    case Urls => cfg.urlLimit
    case Destinations => cfg.destinationLimit
    case Sources => cfg.destinationLimit
    case Ips => cfg.destinationLimit
  }

  /** Which of the source's maps a series lives in, with the labels that are not bounded. */
  datatype Kind =
    | Successful | Retransmits | BytesSent | BytesReceived | Active
    | Failed
    | Accepts | InboundSent | InboundReceived | InboundActive
    | DnsRequests(requestType: string, status: string)
    | Requests(protocol: string, status: string)
    | IpToFqdn

  /** A bounded label: the budget it draws on, and its value. */
  datatype Tag = Tag(space: Space, value: string)

  /** A time series; its tags stand in the order the source bounds them. */
  datatype Series = Series(kind: Kind, container: Container, tags: seq<Tag>)

  datatype HistKey =
    | DnsDuration(container: Container)
    | RequestDuration(protocol: string, container: Container, tags: seq<Tag>)

  datatype Sample = Sample(value: nat, updatedAt: int)

  /** What lives as long as its container: the counters and the budgets their labels come from. */
  datatype Ledger = Ledger(counters: map<Series, nat>, seen: Seen)

  /** The whole store: the ledger, and the momentary series that age out on their own. */
  datatype State = State(ledger: Ledger, gauges: map<Series, Sample>, hists: map<HistKey, Hist>)

  const INITIAL: State := State(Ledger(map[], map[]), map[], map[])

  // ---- The series a caller names ----

  function DestinationTags(ports: PortPolicy, destination: string, actual: string): seq<Tag> {
    [Tag(Destinations, Normalize(ports, destination)), Tag(Destinations, Normalize(ports, actual))]
  }

  /** `endpointKey`: the destination stands in for a missing translated one. */
  function EndpointSeries(ports: PortPolicy, kind: Kind, c: Container, destination: string, actual: string): Series {
    Series(kind, c, DestinationTags(ports, destination, if actual == "" then destination else actual))
  }

  function FailedSeries(ports: PortPolicy, c: Container, destination: string): Series {
    Series(Failed, c, [Tag(Destinations, Normalize(ports, destination))])
  }

  /** `sourceKey` */
  function SourceSeries(ports: PortPolicy, kind: Kind, c: Container, source: string): Series {
    Series(kind, c, [Tag(Sources, Normalize(ports, source))])
  }

  function DnsSeries(c: Container, domain: string, requestType: string, status: string): Series {
    Series(DnsRequests(requestType, status), c, [Tag(Fqdns, domain)])
  }

  function RequestSeries(
    ports: PortPolicy, protocol: string, c: Container, destination: string, actual: string, status: string, url: string): Series
  {
    Series(Requests(protocol, status), c, DestinationTags(ports, destination, actual) + [Tag(Urls, url)])
  }

  function IpFqdnSeries(c: Container, ip: string, fqdn: string): Series {
    Series(IpToFqdn, c, [Tag(Fqdns, fqdn), Tag(Ips, ip)])
  }

  // ---- Operations ----

  /** A call on the store; `raw` holds the labels before they are bounded. */
  datatype Op =
    | Add(raw: Series, amount: nat)
    | Observe(raw: Series, duration: real)
    | Raise(raw: Series)
    | Lower(raw: Series)
    | Set(raw: Series, value: nat)
    | Prune(live: Option<set<string>>)

  datatype Step = Step(op: Op, now: int)

  datatype BoundTags = BoundTags(tags: seq<Tag>, seen: Seen)

  /** Every label is bounded in turn, each against the budgets the one before it left. */
  function BindTags(cfg: Config, seen: Seen, id: string, tags: seq<Tag>): BoundTags
    decreases |tags|
  {
    if tags == [] then BoundTags([], seen)
    else
      var t := tags[0];
      var x := Bound(seen, Slot(t.space, id), t.value, Limit(cfg, t.space));
      var rest := BindTags(cfg, x.seen, id, tags[1..]);
      BoundTags([Tag(t.space, x.text)] + rest.tags, rest.seen)
  }

  datatype BoundSeries = BoundSeries(series: Series, seen: Seen)

  /** The series an operation writes. */
  function Bind(cfg: Config, seen: Seen, s: Series): BoundSeries {
    var b := BindTags(cfg, seen, s.container.id, s.tags);
    BoundSeries(s.(tags := b.tags), b.seen)
  }

  /** The histogram a counted call observes into: DNS durations are kept per container only. */
  function HistOf(s: Series): HistKey {
    match s.kind
    case Requests(protocol, _) => RequestDuration(protocol, s.container, s.tags)
    case _ => DnsDuration(s.container)
  }

  function BucketsFor(cfg: Config, k: HistKey): seq<real> {
    if k.DnsDuration? then cfg.dnsDurationBuckets else cfg.durationBuckets
  }

  function Level(gauges: map<Series, Sample>, s: Series): nat {
    if s in gauges then gauges[s].value else 0
  }

  function FreshHists(m: map<HistKey, Hist>, now: int, ttl: int): map<HistKey, Hist> {
    map k | k in m && now - m[k].updatedAt <= ttl :: m[k]
  }

  function FreshSamples(m: map<Series, Sample>, now: int, ttl: int): map<Series, Sample> {
    map k | k in m && now - m[k].updatedAt <= ttl :: m[k]
  }

  function OfLive(live: set<string>): Series -> bool {
    (s: Series) => s.container.id in live
  }

  function LiveCounters(m: map<Series, nat>, live: set<string>): map<Series, nat> {
    Kept(m, OfLive(live))
  }

  function LiveSeen(m: Seen, live: set<string>): Seen {
    map k | k in m && k.containerId in live :: m[k]
  }

  predicate Counts(op: Op) { op.Add? || op.Observe? }

  /** How much a call adds to its counter. */
  function Amount(op: Op): nat {
    match op
    case Add(_, amount) => amount
    case Observe(_, _) => 1
    case _ => 0
  }

  function CountLedger(cfg: Config, l: Ledger, raw: Series, n: nat): Ledger {
    var b := Bind(cfg, l.seen, raw);
    Ledger(l.counters[b.series := Get(l.counters, b.series) + n], b.seen)
  }

  function PruneLedger(l: Ledger, live: set<string>): Ledger {
    Ledger(LiveCounters(l.counters, live), LiveSeen(l.seen, live))
  }

  function ApplyLedger(cfg: Config, l: Ledger, op: Op): Ledger {
    if Counts(op) then CountLedger(cfg, l, op.raw, Amount(op))
    else if !op.Prune? then Ledger(l.counters, Bind(cfg, l.seen, op.raw).seen)
    else if op.live.Some? then PruneLedger(l, op.live.value)
    else l
  }

  /** A gauge's next value. Lowering stops at zero. */
  function NextLevel(op: Op, level: nat): nat {
    match op
    case Raise(_) => level + 1
    case Lower(_) => if level > 0 then level - 1 else 0
    case Set(_, v) => v
    case _ => level
  }

  function ApplyGauges(cfg: Config, s: State, step: Step): map<Series, Sample> {
    if step.op.Prune? then FreshSamples(s.gauges, step.now, cfg.metricTtl)
    else if Counts(step.op) then s.gauges
    else
      var k := Bind(cfg, s.ledger.seen, step.op.raw).series;
      s.gauges[k := Sample(NextLevel(step.op, Level(s.gauges, k)), step.now)]
  }

  function ApplyHists(cfg: Config, s: State, step: Step): map<HistKey, Hist> {
    if step.op.Prune? then FreshHists(s.hists, step.now, cfg.metricTtl)
    else if step.op.Observe? && step.op.duration > 0.0 then
      var k := HistOf(Bind(cfg, s.ledger.seen, step.op.raw).series);
      var h := if k in s.hists then s.hists[k] else EMPTY;
      s.hists[k := Observed(h, step.op.duration, BucketsFor(cfg, k), step.now)]
    else s.hists
  }

  function Apply(cfg: Config, s: State, step: Step): State {
    State(ApplyLedger(cfg, s.ledger, step.op), ApplyGauges(cfg, s, step), ApplyHists(cfg, s, step))
  }

  function Run(cfg: Config, steps: seq<Step>): State {
    if steps == [] then INITIAL else Apply(cfg, Run(cfg, steps[..|steps| - 1]), steps[|steps| - 1])
  }

  lemma RunNext(cfg: Config, steps: seq<Step>, step: Step)
    ensures Run(cfg, steps + [step]) == Apply(cfg, Run(cfg, steps), step)
  {
    assert (steps + [step])[..|steps|] == steps;
  }

  /** The ledger does not depend on the momentary series, nor on the clock. */
  function RunLedger(cfg: Config, steps: seq<Step>): Ledger {
    if steps == [] then INITIAL.ledger
    else ApplyLedger(cfg, RunLedger(cfg, steps[..|steps| - 1]), steps[|steps| - 1].op)
  }

  lemma {:induction false} LedgerOfRun(cfg: Config, steps: seq<Step>)
    ensures Run(cfg, steps).ledger == RunLedger(cfg, steps)
    decreases |steps|
  {
    if steps == [] {
    } else {
      LedgerOfRun(cfg, steps[..|steps| - 1]);
    }
  }

  // ---- What binding means ----

  /** Labels as the budgets show them. */
  function ShowTags(seen: Seen, id: string, tags: seq<Tag>): seq<Tag> {
    if tags == [] then []
    else [Tag(tags[0].space, Shown(seen, Slot(tags[0].space, id), tags[0].value))] + ShowTags(seen, id, tags[1..])
  }

  function Relabelled(seen: Seen, s: Series): Series {
    s.(tags := ShowTags(seen, s.container.id, s.tags))
  }

  /** How the budgets show a series. */
  function Relabel(seen: Seen): Series -> Series {
    (s: Series) => Relabelled(seen, s)
  }

  predicate SettledTags(cfg: Config, seen: Seen, id: string, tags: seq<Tag>) {
    forall t :: t in tags ==> Settled(seen, Slot(t.space, id), t.value, Limit(cfg, t.space))
  }

  predicate SettledSeries(cfg: Config, seen: Seen, s: Series) {
    SettledTags(cfg, seen, s.container.id, s.tags)
  }

  /** Every budget of a container only grows. */
  ghost predicate GrowsFor(cfg: Config, before: Seen, after: Seen, id: string) {
    forall space :: Grows(before, after, Slot(space, id), Limit(cfg, space))
  }

  lemma {:induction false} BindTagsGrow(cfg: Config, seen: Seen, id: string, tags: seq<Tag>, slot: Slot)
    ensures Grows(seen, BindTags(cfg, seen, id, tags).seen, slot, Limit(cfg, slot.space))
    decreases |tags|
  {
    if tags == [] {
    } else {
      var own := Slot(tags[0].space, id);
      var mid := Bound(seen, own, tags[0].value, Limit(cfg, own.space)).seen;
      BoundGrows(seen, own, tags[0].value, Limit(cfg, own.space), slot, Limit(cfg, slot.space));
      BindTagsGrow(cfg, mid, id, tags[1..], slot);
    }
  }

  /** Binding a series lets every container's budgets only grow. */
  lemma BindGrows(cfg: Config, seen: Seen, s: Series, id: string)
    ensures GrowsFor(cfg, seen, Bind(cfg, seen, s).seen, id)
  {
    forall space
      ensures Grows(seen, Bind(cfg, seen, s).seen, Slot(space, id), Limit(cfg, space))
    {
      BindTagsGrow(cfg, seen, s.container.id, s.tags, Slot(space, id));
    }
  }

  lemma {:induction false} ShowTagsForever(cfg: Config, before: Seen, after: Seen, id: string, tags: seq<Tag>)
    requires SettledTags(cfg, before, id, tags) && GrowsFor(cfg, before, after, id)
    ensures SettledTags(cfg, after, id, tags)
    ensures ShowTags(after, id, tags) == ShowTags(before, id, tags)
    decreases |tags|
  {
    if tags == [] {
    } else {
      SettledForever(before, after, Slot(tags[0].space, id), tags[0].value, Limit(cfg, tags[0].space));
      ShowTagsForever(cfg, before, after, id, tags[1..]);
    }
  }

  /** A settled series keeps its labels for as long as its container's budgets only grow. */
  lemma RelabelledForever(cfg: Config, before: Seen, after: Seen, s: Series)
    requires SettledSeries(cfg, before, s) && GrowsFor(cfg, before, after, s.container.id)
    ensures SettledSeries(cfg, after, s)
    ensures Relabelled(after, s) == Relabelled(before, s)
  {
    ShowTagsForever(cfg, before, after, s.container.id, s.tags);
  }

  lemma {:induction false} BindTagsShow(cfg: Config, seen: Seen, id: string, tags: seq<Tag>)
    ensures var b := BindTags(cfg, seen, id, tags);
            b.tags == ShowTags(b.seen, id, tags) && SettledTags(cfg, b.seen, id, tags)
    decreases |tags|
  {
    if tags == [] {
    } else {
      var own := Slot(tags[0].space, id);
      var mid := Bound(seen, own, tags[0].value, Limit(cfg, own.space)).seen;
      BoundShows(seen, own, tags[0].value, Limit(cfg, own.space));
      BindTagsShow(cfg, mid, id, tags[1..]);
      BindTagsGrow(cfg, mid, id, tags[1..], own);
      SettledForever(mid, BindTags(cfg, seen, id, tags).seen, own, tags[0].value, Limit(cfg, own.space));
    }
  }

  /** Labels are served in order: each is bounded against the budgets as those before it left them. */
  lemma {:induction false} BindTagsInOrder(cfg: Config, seen: Seen, id: string, tags: seq<Tag>, i: nat)
    requires i < |tags|
    ensures var b := BindTags(cfg, seen, id, tags);
            var before := BindTags(cfg, seen, id, tags[..i]).seen;
            && |b.tags| == |tags| && b.tags[i].space == tags[i].space
            && b.tags[i].value == Bound(before, Slot(tags[i].space, id), tags[i].value, Limit(cfg, tags[i].space)).text
    decreases |tags|
  {
    var mid := Bound(seen, Slot(tags[0].space, id), tags[0].value, Limit(cfg, tags[0].space)).seen;
    if i == 0 {
      assert tags[..0] == [];
    } else {
      assert tags[..i][1..] == tags[1..][..i - 1];
      BindTagsInOrder(cfg, mid, id, tags[1..], i - 1);
    }
    if |tags| > 1 {
      BindTagsInOrder(cfg, mid, id, tags[1..], 0);
    }
  }

  /** The series written is the relabelling by the budgets as the operation leaves them. */
  lemma BindRelabels(cfg: Config, seen: Seen, s: Series)
    ensures var b := Bind(cfg, seen, s);
            b.series == Relabelled(b.seen, s) && SettledSeries(cfg, b.seen, s)
  {
    BindTagsShow(cfg, seen, s.container.id, s.tags);
  }

  /** A prune that keeps a container keeps its labels. */
  lemma {:induction false} ShowTagsLive(seen: Seen, live: set<string>, id: string, tags: seq<Tag>)
    requires id in live
    ensures ShowTags(LiveSeen(seen, live), id, tags) == ShowTags(seen, id, tags)
  {
    if tags == [] {
    } else {
      ShowTagsLive(seen, live, id, tags[1..]);
    }
  }

  /** Budgets of a container shrink only when a prune drops it. */
  predicate Drops(op: Op, id: string) {
    op.Prune? && op.live.Some? && id !in op.live.value
  }

  lemma StepGrows(cfg: Config, l: Ledger, op: Op, id: string)
    requires !Drops(op, id)
    ensures GrowsFor(cfg, l.seen, ApplyLedger(cfg, l, op).seen, id)
  {
    if !op.Prune? {
      BindGrows(cfg, l.seen, op.raw, id);
    }
  }
}
