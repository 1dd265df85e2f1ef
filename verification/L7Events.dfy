/**
 * Application payloads on their way into the pairing tables and the store: `handleProtocolRequest` and
 * `handleProtocolResponse` as what they add to the traffic and to the store, and what a response moves there.
 */
module L7Events {
  import opened Addresses
  import opened StoreModel
  import opened Totals
  import opened L7Pairing
  import opened Pairing
  import opened HttpLabels
  import L7Parsing
  import ResponseTimes

  function Seconds(nanoseconds: int): real {
    nanoseconds as real / 1_000_000_000.0
  }

  /** The duration a response reports: the paired one, or the event's own. */
  function DurationOf(key: Keying, hs: seq<Happening>, e: L7Event, elapsed: int): int
    requires e.direction.Response?
  {
    var paired := Paired(Starts(key, hs), key(e), e.now);
    if paired.Some? then paired.value else elapsed
  }

  /** The observation a response makes, under the URL held for its flow. */
  function ResponseStep(
    ports: PortPolicy, key: Keying, hs: seq<Happening>, e: L7Event, c: Container, elapsed: int, status: string): Step
    requires e.direction.Response?
  {
    var url := LabelOf(Urls(hs), e);
    Step(Observe(RequestSeries(ports, L7Parsing.Name(e.protocol), c, e.destination, e.actual, status, url),
                 Seconds(DurationOf(key, hs, e, elapsed))), e.now)
  }

  /** By `PairedBy`, that duration is the one pairing over the traffic gives. */
  lemma DurationIsPaired(key: Keying, hs: seq<Happening>, e: L7Event, elapsed: int, at: int)
    requires e.direction.Response?
    ensures var paired := PairedBy(key, hs + [Traffic(e, "", at)], |hs|);
            DurationOf(key, hs, e, elapsed) == if paired.Some? then paired.value else elapsed
  {
    PairedFromStarts(key, hs, e, at);
  }

  /** What a classified payload does to the traffic. */
  function TrafficOf(e: L7Event, url: string, at: int): Happening {
    Traffic(e, if e.direction.Request? then url else "", at)
  }

  /** What it adds to the store. */
  function L7Steps(
    ports: PortPolicy, key: Keying, hs: seq<Happening>, e: L7Event, c: Container, elapsed: int, status: string): seq<Step>
  {
    if e.direction.Request? then [] else [ResponseStep(ports, key, hs, e, c, elapsed, status)]
  }

  // ---- What a response moves ----

  /** Where a response is counted, before labels are bounded. */
  function AnsweredSeries(
    ports: PortPolicy, hs: seq<Happening>, e: L7Event, c: Container, status: string): Series
  {
    var protocol :=
      match e.protocol
      case Http => "http"
      case Postgres => "postgres"
      case Redis => "redis"
      case Kafka => "kafka";
    Series(Requests(protocol, status), c,
      [Tag(Labels.Destinations, Normalize(ports, e.destination)), Tag(Labels.Destinations, Normalize(ports, e.actual)),
       Tag(Labels.Urls, if e.protocol.Http? then LabelOf(Urls(hs), e) else "")])
  }

  lemma StepAnswers(
    ports: PortPolicy, key: Keying, hs: seq<Happening>, e: L7Event, c: Container, elapsed: int, status: string)
    requires e.direction.Response?
    ensures var step := ResponseStep(ports, key, hs, e, c, elapsed, status);
            step.op.Observe? && step.op.raw == AnsweredSeries(ports, hs, e, c, status)
  {
  }

  /** One call moves one counter, of the series it names, by one. */
  ghost predicate CountsOne(before: State, after: State, raw: Series) {
    && (forall k, d :: CounterTotal(after, k, d) == CounterTotal(before, k, d) + if About(raw, k, d) then 1 else 0)
    && (forall k, d :: GaugeTotal(after, k, d) == GaugeTotal(before, k, d))
    && (forall s :: Touched(before, after, s) ==> s == Relabelled(after.ledger.seen, raw))
  }

  lemma ObserveCountsOne(cfg: Config, s: State, step: Step)
    requires step.op.Observe?
    ensures CountsOne(s, Apply(cfg, s, step), step.op.raw)
  {
    var after := Apply(cfg, s, step);
    forall k, d
      ensures CounterTotal(after, k, d) == CounterTotal(s, k, d) + if About(step.op.raw, k, d) then 1 else 0
      ensures GaugeTotal(after, k, d) == GaugeTotal(s, k, d)
    {
      CountMoves(cfg, s, step, k, d);
    }
    forall k | Touched(s, after, k)
      ensures k == Relabelled(after.ledger.seen, step.op.raw)
    {
      TouchesOwn(cfg, s, step, k);
    }
  }

  /** A response adds one request under its protocol, status, addresses and URL, and moves nothing else. */
  lemma ResponseCounted(
    cfg: Config, history: seq<Step>, key: Keying, hs: seq<Happening>, e: L7Event, c: Container, elapsed: int, status: string)
    requires e.direction.Response?
    ensures var step := ResponseStep(cfg.ports, key, hs, e, c, elapsed, status);
            CountsOne(Run(cfg, history), Run(cfg, history + [step]), AnsweredSeries(cfg.ports, hs, e, c, status))
  {
    var step := ResponseStep(cfg.ports, key, hs, e, c, elapsed, status);
    StepAnswers(cfg.ports, key, hs, e, c, elapsed, status);
    RunNext(cfg, history, step);
    ObserveCountsOne(cfg, Run(cfg, history), step);
  }

  /** A histogram holds one duration more, of so many nanoseconds; one that is not positive is left out. */
  ghost predicate TimesOne(before: State, after: State, key: HistKey, nanoseconds: int) {
    var h, more := ResponseTimes.HistAt(before.hists, key), ResponseTimes.HistAt(after.hists, key);
    && more.count == h.count + (if nanoseconds > 0 then 1 else 0)
    && (more.sum - h.sum) * 1_000_000_000.0 == (if nanoseconds > 0 then nanoseconds as real else 0.0)
  }

  lemma ObserveTimesOne(cfg: Config, s: State, raw: Series, nanoseconds: int, now: int)
    requires raw.kind.Requests?
    ensures var after := Apply(cfg, s, Step(Observe(raw, Seconds(nanoseconds)), now));
            var shown := Relabelled(after.ledger.seen, raw);
            TimesOne(s, after, RequestDuration(raw.kind.protocol, raw.container, shown.tags), nanoseconds)
  {
    BindRelabels(cfg, s.ledger.seen, raw);
  }

  /** And one duration: the time since the request it is paired with, or the event's own. */
  lemma ResponseTimed(
    cfg: Config, history: seq<Step>, key: Keying, hs: seq<Happening>, e: L7Event, c: Container, elapsed: int, status: string,
    at: int)
    requires e.direction.Response?
    ensures var after := Run(cfg, history + [ResponseStep(cfg.ports, key, hs, e, c, elapsed, status)]);
            var raw := AnsweredSeries(cfg.ports, hs, e, c, status);
            var shown := Relabelled(after.ledger.seen, raw);
            var paired := PairedBy(key, hs + [Traffic(e, "", at)], |hs|);
            TimesOne(Run(cfg, history), after, RequestDuration(raw.kind.protocol, c, shown.tags),
                     if paired.Some? then paired.value else elapsed)
  {
    var raw := AnsweredSeries(cfg.ports, hs, e, c, status);
    StepAnswers(cfg.ports, key, hs, e, c, elapsed, status);
    DurationIsPaired(key, hs, e, elapsed, at);
    RunNext(cfg, history, ResponseStep(cfg.ports, key, hs, e, c, elapsed, status));
    ObserveTimesOne(cfg, Run(cfg, history), raw, DurationOf(key, hs, e, elapsed), e.now);
  }
}
