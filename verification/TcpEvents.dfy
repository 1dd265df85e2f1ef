/**
 * TCP events on their way into the store: `dispatchTCP` once container and addresses are known, and what
 * an event moves there. Totals are taken over all labels of a container, so the caps do not matter to them.
 */
module TcpEvents {
  import opened Addresses
  import opened Labels
  import opened StoreModel
  import opened Totals
  import MetricStore
  import TcpState
  import ActiveGauge

  datatype TcpKind =
    | Outbound(event: TcpState.Event)
    | Retransmit | Sent | Received
    | InboundAccept | InboundClose | InboundSent | InboundReceived

  /** `dispatchTCP`: the store calls of an event, its container and addresses found already. */
  function TcpSteps(
    ports: PortPolicy, kind: TcpKind, c: Container, dst: string, actual: string, value: nat, now: int): seq<Step>
  {
    match kind
    case Outbound(event) => ActiveGauge.Dispatched(event, EndpointSeries(ports, StoreModel.Active, c, dst, actual), now)
    case Retransmit => [Step(Add(EndpointSeries(ports, Retransmits, c, dst, actual), 1), now)]
    case Sent => [Step(Add(EndpointSeries(ports, BytesSent, c, dst, actual), value), now)]
    case Received => [Step(Add(EndpointSeries(ports, BytesReceived, c, dst, actual), value), now)]
    case InboundAccept =>
      [Step(Add(SourceSeries(ports, Accepts, c, dst), 1), now),
       Step(Raise(SourceSeries(ports, StoreModel.InboundActive, c, dst)), now)]
    case InboundClose => [Step(Lower(SourceSeries(ports, StoreModel.InboundActive, c, dst)), now)]
    case InboundSent => [Step(Add(SourceSeries(ports, StoreModel.InboundSent, c, dst), value), now)]
    case InboundReceived => [Step(Add(SourceSeries(ports, StoreModel.InboundReceived, c, dst), value), now)]
  }

  /** A failed connect is counted under the destination alone. */
  lemma FailedOfEndpoint(ports: PortPolicy, c: Container, destination: string, actual: string)
    ensures Series(Failed, c, EndpointSeries(ports, StoreModel.Active, c, destination, actual).tags[..1]) ==
            FailedSeries(ports, c, destination)
  {
  }

  method RecordOutbound(store: MetricStore.Store, event: TcpState.Event, endpoint: Series, failed: Series, now: int)
    requires store.Valid()
    requires endpoint.tags != [] && failed == Series(Failed, endpoint.container, endpoint.tags[..1])
    modifies store
    ensures store.Valid() && store.history == old(store.history) + ActiveGauge.Dispatched(event, endpoint, now)
  {
    match event
    case Listening =>
    case Connect =>
      store.Add(endpoint.(kind := Successful), 1, now);
      store.Raise(endpoint, now);
    case FailedConnect => store.Add(failed, 1, now);
    case CloseEvent => store.Lower(endpoint, now);
  }

  method RecordTcp(
    store: MetricStore.Store, kind: TcpKind, c: Container, dst: string, actual: string, value: nat, now: int)
    requires store.Valid()
    modifies store
    ensures store.Valid() && store.history == old(store.history) + TcpSteps(store.cfg.ports, kind, c, dst, actual, value, now)
  {
    var ports := store.cfg.ports;
    match kind
    case Outbound(event) =>
      FailedOfEndpoint(ports, c, dst, actual);
      RecordOutbound(store, event, EndpointSeries(ports, StoreModel.Active, c, dst, actual), FailedSeries(ports, c, dst), now);
    case Retransmit => store.Add(EndpointSeries(ports, Retransmits, c, dst, actual), 1, now);
    case Sent => store.Add(EndpointSeries(ports, BytesSent, c, dst, actual), value, now);
    case Received => store.Add(EndpointSeries(ports, BytesReceived, c, dst, actual), value, now);
    case InboundAccept =>
      store.Add(SourceSeries(ports, Accepts, c, dst), 1, now);
      store.Raise(SourceSeries(ports, StoreModel.InboundActive, c, dst), now);
    case InboundClose => store.Lower(SourceSeries(ports, StoreModel.InboundActive, c, dst), now);
    case InboundSent => store.Add(SourceSeries(ports, StoreModel.InboundSent, c, dst), value, now);
    case InboundReceived => store.Add(SourceSeries(ports, StoreModel.InboundReceived, c, dst), value, now);
  }

  // ---- What an event moves ----

  /** What a counter of a kind gains by an event. */
  function Gain(metric: Kind, kind: TcpKind, value: nat): nat {
    match metric
    case Successful => if kind == Outbound(TcpState.Connect) then 1 else 0
    case Failed => if kind == Outbound(TcpState.FailedConnect) then 1 else 0
    case Retransmits => if kind == Retransmit then 1 else 0
    case BytesSent => if kind == Sent then value else 0
    case BytesReceived => if kind == Received then value else 0
    case Accepts => if kind == InboundAccept then 1 else 0
    case InboundSent => if kind == TcpKind.InboundSent then value else 0
    case InboundReceived => if kind == TcpKind.InboundReceived then value else 0
    case _ => 0
  }

  /** Which gauge goes up. */
  predicate GoesUp(metric: Kind, kind: TcpKind) {
    || (metric == StoreModel.Active && kind == Outbound(TcpState.Connect))
    || (metric == InboundActive && kind == InboundAccept)
  }

  predicate GoesDown(metric: Kind, kind: TcpKind) {
    || (metric == StoreModel.Active && kind == Outbound(TcpState.CloseEvent))
    || (metric == InboundActive && kind == InboundClose)
  }

  /**
   * The labels a metric goes by: the peer as a source for inbound connections, the destination for failed
   * ones, and the destination with its translation, or itself twice, for the others.
   */
  function PeerSeries(ports: PortPolicy, metric: Kind, c: Container, dst: string, actual: string): Series {
    var inbound := metric in {Accepts, StoreModel.InboundSent, StoreModel.InboundReceived, InboundActive};
    Series(metric, c,
      if inbound then [Tag(Sources, Normalize(ports, dst))]
      else if metric == Failed then [Tag(Destinations, Normalize(ports, dst))]
      else [Tag(Destinations, Normalize(ports, dst)), Tag(Destinations, Normalize(ports, if actual == "" then dst else actual))])
  }

  /** An event as its addresses were found. */
  datatype Found = Found(ports: PortPolicy, kind: TcpKind, c: Container, dst: string, actual: string, value: nat)

  ghost predicate CountersMoved(before: State, after: State, e: Found) {
    forall k, d :: CounterTotal(after, k, d) == CounterTotal(before, k, d) + if d == e.c then Gain(k, e.kind, e.value) else 0
  }

  ghost predicate GaugesMoved(before: State, after: State, e: Found) {
    forall k, d ::
      GaugeTotal(after, k, d) + (if d == e.c && GoesDown(k, e.kind) && Level(before.gauges, ShownPeer(after, e, k)) > 0 then 1 else 0) ==
      GaugeTotal(before, k, d) + if d == e.c && GoesUp(k, e.kind) then 1 else 0
  }

  function ShownPeer(after: State, e: Found, metric: Kind): Series {
    Relabelled(after.ledger.seen, PeerSeries(e.ports, metric, e.c, e.dst, e.actual))
  }

  ghost predicate OnlyPeerTouched(before: State, after: State, e: Found) {
    forall s :: Touched(before, after, s) ==> s == ShownPeer(after, e, s.kind)
  }

  /** Conservation: each total moves by what the event says, no other does, and only under the event's labels. */
  ghost predicate Conserved(before: State, after: State, e: Found) {
    CountersMoved(before, after, e) && GaugesMoved(before, after, e) && OnlyPeerTouched(before, after, e)
  }

  // -- One call --

  /** The event is about one counter, and no gauge. */
  ghost predicate CountsOnly(e: Found, metric: Kind, n: nat) {
    forall k :: Gain(k, e.kind, e.value) == (if k == metric then n else 0) && !GoesUp(k, e.kind) && !GoesDown(k, e.kind)
  }

  /** It is about a gauge that goes down. */
  ghost predicate LowersOnly(e: Found, metric: Kind) {
    forall k :: Gain(k, e.kind, e.value) == 0 && !GoesUp(k, e.kind) && (GoesDown(k, e.kind) <==> k == metric)
  }

  /** It is about one counter, and a gauge that goes up. */
  ghost predicate CountsAndRaises(e: Found, metric: Kind, gauge: Kind) {
    forall k ::
      && Gain(k, e.kind, e.value) == (if k == metric then 1 else 0)
      && (GoesUp(k, e.kind) <==> k == gauge) && !GoesDown(k, e.kind)
  }

  function Peer(e: Found, metric: Kind): Series {
    PeerSeries(e.ports, metric, e.c, e.dst, e.actual)
  }

  lemma OneCount(cfg: Config, s: State, metric: Kind, n: nat, now: int, e: Found)
    requires CountsOnly(e, metric, n)
    ensures Conserved(s, Apply(cfg, s, Step(Add(Peer(e, metric), n), now)), e)
  {
    var step := Step(Add(Peer(e, metric), n), now);
    var after := Apply(cfg, s, step);
    forall k, d
      ensures CounterTotal(after, k, d) == CounterTotal(s, k, d) + if d == e.c then Gain(k, e.kind, e.value) else 0
      ensures GaugeTotal(after, k, d) == GaugeTotal(s, k, d)
    {
      CountMoves(cfg, s, step, k, d);
    }
    forall k | Touched(s, after, k)
      ensures k == ShownPeer(after, e, k.kind)
    {
      TouchesOwn(cfg, s, step, k);
    }
  }

  lemma OneDown(cfg: Config, s: State, metric: Kind, now: int, e: Found)
    requires LowersOnly(e, metric)
    ensures Conserved(s, Apply(cfg, s, Step(Lower(Peer(e, metric)), now)), e)
  {
    var step := Step(Lower(Peer(e, metric)), now);
    var after := Apply(cfg, s, step);
    forall k, d
      ensures CounterTotal(after, k, d) == CounterTotal(s, k, d)
      ensures GaugeTotal(after, k, d) +
              (if d == e.c && GoesDown(k, e.kind) && Level(s.gauges, ShownPeer(after, e, k)) > 0 then 1 else 0) ==
              GaugeTotal(s, k, d)
    {
      LowerMoves(cfg, s, step, k, d);
    }
    forall k | Touched(s, after, k)
      ensures k == ShownPeer(after, e, k.kind)
    {
      TouchesOwn(cfg, s, step, k);
    }
  }

  lemma CountAndUp(cfg: Config, s: State, metric: Kind, gauge: Kind, now: int, e: Found)
    requires CountsAndRaises(e, metric, gauge)
    ensures var mid := Apply(cfg, s, Step(Add(Peer(e, metric), 1), now));
            Conserved(s, Apply(cfg, mid, Step(Raise(Peer(e, gauge)), now)), e)
  {
    var count, up := Step(Add(Peer(e, metric), 1), now), Step(Raise(Peer(e, gauge)), now);
    var mid := Apply(cfg, s, count);
    var after := Apply(cfg, mid, up);
    forall k, d
      ensures CounterTotal(after, k, d) == CounterTotal(s, k, d) + if d == e.c then Gain(k, e.kind, e.value) else 0
      ensures GaugeTotal(after, k, d) == GaugeTotal(s, k, d) + if d == e.c && GoesUp(k, e.kind) then 1 else 0
    {
      CountMoves(cfg, s, count, k, d);
      RaiseMoves(cfg, mid, up, k, d);
    }
    WrittenStays(cfg, s, count, up);
    forall k | Touched(s, after, k)
      ensures k == ShownPeer(after, e, k.kind)
    {
      if Touched(s, mid, k) {
        TouchesOwn(cfg, s, count, k);
      } else {
        TouchesOwn(cfg, mid, up, k);
      }
    }
  }

  // -- Every event --

  lemma RunTwoMore(cfg: Config, history: seq<Step>, first: Step, second: Step)
    ensures Run(cfg, history + [first, second]) == Apply(cfg, Apply(cfg, Run(cfg, history), first), second)
  {
    RunNext(cfg, history, first);
    RunNext(cfg, history + [first], second);
    assert history + [first, second] == history + [first] + [second];
  }

  function StepsFor(e: Found, now: int): seq<Step> {
    TcpSteps(e.ports, e.kind, e.c, e.dst, e.actual, e.value, now)
  }

  lemma CountConserves(cfg: Config, history: seq<Step>, e: Found, metric: Kind, n: nat, now: int)
    requires CountsOnly(e, metric, n) && StepsFor(e, now) == [Step(Add(Peer(e, metric), n), now)]
    ensures Conserved(Run(cfg, history), Run(cfg, history + StepsFor(e, now)), e)
  {
    RunNext(cfg, history, Step(Add(Peer(e, metric), n), now));
    OneCount(cfg, Run(cfg, history), metric, n, now, e);
  }

  lemma DownConserves(cfg: Config, history: seq<Step>, e: Found, metric: Kind, now: int)
    requires LowersOnly(e, metric) && StepsFor(e, now) == [Step(Lower(Peer(e, metric)), now)]
    ensures Conserved(Run(cfg, history), Run(cfg, history + StepsFor(e, now)), e)
  {
    RunNext(cfg, history, Step(Lower(Peer(e, metric)), now));
    OneDown(cfg, Run(cfg, history), metric, now, e);
  }

  lemma UpConserves(cfg: Config, history: seq<Step>, e: Found, metric: Kind, gauge: Kind, now: int)
    requires CountsAndRaises(e, metric, gauge)
    requires StepsFor(e, now) == [Step(Add(Peer(e, metric), 1), now), Step(Raise(Peer(e, gauge)), now)]
    ensures Conserved(Run(cfg, history), Run(cfg, history + StepsFor(e, now)), e)
  {
    RunTwoMore(cfg, history, Step(Add(Peer(e, metric), 1), now), Step(Raise(Peer(e, gauge)), now));
    CountAndUp(cfg, Run(cfg, history), metric, gauge, now, e);
  }

  lemma OutboundConserves(cfg: Config, history: seq<Step>, e: Found, now: int)
    requires e.kind.Outbound?
    ensures Conserved(Run(cfg, history), Run(cfg, history + StepsFor(e, now)), e)
  {
    match e.kind.event
    case Listening =>
      assert history + [] == history;
    case Connect =>
      UpConserves(cfg, history, e, Successful, StoreModel.Active, now);
    case FailedConnect =>
      FailedOfEndpoint(e.ports, e.c, e.dst, e.actual);
      CountConserves(cfg, history, e, Failed, 1, now);
    case CloseEvent =>
      DownConserves(cfg, history, e, StoreModel.Active, now);
  }

  lemma InboundConserves(cfg: Config, history: seq<Step>, e: Found, now: int)
    requires !e.kind.Outbound? && e.kind !in {Retransmit, Sent, Received}
    ensures Conserved(Run(cfg, history), Run(cfg, history + StepsFor(e, now)), e)
  {
    match e.kind
    case InboundAccept =>
      UpConserves(cfg, history, e, Accepts, InboundActive, now);
    case InboundClose =>
      DownConserves(cfg, history, e, InboundActive, now);
    case InboundSent =>
      CountConserves(cfg, history, e, StoreModel.InboundSent, e.value, now);
    case InboundReceived =>
      CountConserves(cfg, history, e, StoreModel.InboundReceived, e.value, now);
  }

  /** After its calls, an event has moved what it is about, and nothing else. */
  lemma TcpConserves(cfg: Config, history: seq<Step>, e: Found, now: int)
    ensures Conserved(Run(cfg, history), Run(cfg, history + StepsFor(e, now)), e)
  {
    match e.kind
    case Outbound(_) => OutboundConserves(cfg, history, e, now);
    case Retransmit =>
      CountConserves(cfg, history, e, Retransmits, 1, now);
    case Sent =>
      CountConserves(cfg, history, e, BytesSent, e.value, now);
    case Received =>
      CountConserves(cfg, history, e, BytesReceived, e.value, now);
    case _ => InboundConserves(cfg, history, e, now);
  }
}
