/**
 * Pairing of application-level requests and responses: the correlation tokens of
 * `protocol_dispatch.go` and `kafka.go`, and which request each response is timed against.
 */
module L7Pairing {
  import opened Bytes
  import opened Decimal
  import opened Pairing

  datatype Protocol = Http | Postgres | Redis | Kafka
  datatype Direction = Request | Response

  /** The tracker's ageing limit, in nanoseconds. */
  const TRACKER_TTL: int := 30_000_000_000

  type Int32 = n: int | -0x8000_0000 <= n < 0x8000_0000

  // ---- Kafka headers ----

  function Uint32(buf: Text, at: nat): (r: nat)
    requires at + 4 <= |buf|
    ensures r < 0x1_0000_0000
  {
    Uint16(buf, at) * 0x1_0000 + Uint16(buf, at + 2)
  }

  /** `int32(u)` and `int16(u)`: two's complement. */
  function ToInt32(u: nat): Int32
    requires u < 0x1_0000_0000
  {
    if u < 0x8000_0000 then u else u - 0x1_0000_0000
  }

  function ToInt16(u: nat): int
    requires u < 0x1_0000
  {
    if u < 0x8000 then u else u - 0x1_0000
  }

  datatype KafkaRequestHeader = KafkaRequestHeader(apiKey: int, apiVersion: int, correlationId: Int32)

  /** `ParseKafkaRequestHeader` */
  function ParseKafkaRequest(p: Text): Option<KafkaRequestHeader> {
    if |p| < 12 then None
    else Some(KafkaRequestHeader(ToInt16(Uint16(p, 4)), ToInt16(Uint16(p, 6)), ToInt32(Uint32(p, 8))))
  }

  /** `ParseKafkaResponseCorrelationID` */
  function ParseKafkaResponse(p: Text): Option<Int32> {
    if |p| < 8 then None else Some(ToInt32(Uint32(p, 4)))
  }

  /** The correlation id a frame carries, read at the place its direction puts it. */
  function KafkaId(dir: Direction, p: Text): Option<Int32> {
    match dir
    case Response => ParseKafkaResponse(p)
    case Request =>
      var header := ParseKafkaRequest(p);
      if header.Some? then Some(header.value.correlationId) else None
  }

  function Token(id: Int32): string {
    "kafka:" + FormatInt(id)
  }

  /** `protocolCorrelation`, with `kafkaCorrelation` */
  function ProtocolCorrelation(proto: Protocol, dir: Direction, p: Text): string {
    if proto.Kafka? && KafkaId(dir, p).Some? then Token(KafkaId(dir, p).value) else ""
  }

  function EncodeInt32(n: Int32): (r: Text)
    ensures |r| == 4
  {
    var u := if n < 0 then n + 0x1_0000_0000 else n;
    [u / 0x100_0000, u / 0x1_0000 % 256, u / 256 % 256, u % 256]
  }

  lemma Int32RoundTrip(before: Text, n: Int32, after: Text)
    ensures var p := before + EncodeInt32(n) + after;
            |before| + 4 <= |p| && ToInt32(Uint32(p, |before|)) == n
  {
    var p := before + EncodeInt32(n) + after;
    var u := if n < 0 then n + 0x1_0000_0000 else n;
    assert Uint16(p, |before|) == u / 0x1_0000;
    assert Uint16(p, |before| + 2) == u % 0x1_0000;
  }

  /** Both layouts yield the id that was sent: after size, key and version, or after the size alone. */
  lemma KafkaIdRoundTrip(size: Text, keyAndVersion: Text, id: Int32, body: Text)
    requires |size| == 4 && |keyAndVersion| == 4
    ensures KafkaId(Request, size + keyAndVersion + EncodeInt32(id) + body) == Some(id)
    ensures KafkaId(Response, size + EncodeInt32(id) + body) == Some(id)
  {
    Int32RoundTrip(size + keyAndVersion, id, body);
    Int32RoundTrip(size, id, body);
  }

  lemma TokenInjective(a: Int32, b: Int32)
    ensures Token(a) == Token(b) <==> a == b
  {
    assert Token(a)[6..] == FormatInt(a) && Token(b)[6..] == FormatInt(b);
    FormatIntInjective(a, b);
  }

  // ---- Requests and responses ----

  datatype RequestKey = RequestKey(
    containerId: string, destination: string, actualDestination: string, correlationId: string, protocol: Protocol)

  /** A classified payload; `actual` is the destination after address translation. */
  datatype L7Event = L7Event(
    containerId: string, destination: string, actual: string,
    protocol: Protocol, direction: Direction, payload: Text, now: int)

  /** The key both handlers build: the destination stands in for a missing token. */
  function KeyOf(e: L7Event): RequestKey {
    var token := ProtocolCorrelation(e.protocol, e.direction, e.payload);
    RequestKey(e.containerId, e.destination, e.actual, if token == "" then e.destination else token, e.protocol)
  }

  /** How events are keyed; `Keys` is what the handlers do. */
  type Keying = L7Event -> RequestKey

  function Keys(): Keying {
    (e: L7Event) => KeyOf(e)
  }

  /**
   * What happens, in order: classified payloads, with the URL an HTTP request was seen to carry and the
   * clock reading when it was kept, and the sweeps of the table of starts and of the table of URLs. The
   * handlers come to one table after the other; a sweep in between stands before the payload if it is of
   * the table they come to last, and after it otherwise.
   */
  datatype Happening =
    | Traffic(event: L7Event, url: string, at: int)
    | SweepStarts(now: int)
    | SweepUrls(now: int)

  function BeatOf(key: Keying, h: Happening): Beat<RequestKey> {
    match h
    case SweepStarts(now) => Swept(now)
    case SweepUrls(_) => Away
    case Traffic(e, _, _) => if e.direction.Request? then Began(key(e), e.now) else Ended(key(e), e.now)
  }

  function Beats(key: Keying, hs: seq<Happening>): (r: seq<Beat<RequestKey>>)
    ensures |r| == |hs|
    ensures forall i :: 0 <= i < |hs| ==> r[i] == BeatOf(key, hs[i])
  {
    seq(|hs|, i requires 0 <= i < |hs| => BeatOf(key, hs[i]))
  }

  predicate IsResponse(hs: seq<Happening>, j: nat) {
    j < |hs| && hs[j].Traffic? && hs[j].event.direction.Response?
  }

  predicate IsRequest(hs: seq<Happening>, i: nat) {
    i < |hs| && hs[i].Traffic? && hs[i].event.direction.Request?
  }

  function PairedBy(key: Keying, hs: seq<Happening>, j: nat): Option<int>
    requires IsResponse(hs, j)
  {
    PairedAt(TRACKER_TTL, Beats(key, hs), j)
  }

  /** The duration reported for the response at `j`, if it is paired. */
  function PairedDuration(hs: seq<Happening>, j: nat): Option<int>
    requires IsResponse(hs, j)
  {
    PairedBy(Keys(), hs, j)
  }

  predicate SameFlow(a: L7Event, b: L7Event) {
    a.containerId == b.containerId && a.destination == b.destination && a.actual == b.actual && a.protocol == b.protocol
  }

  /** The id a happening carries in the Kafka flow of `e`, if it belongs to that flow. */
  function FlowId(e: L7Event, h: Happening): Option<Int32> {
    if h.Traffic? && SameFlow(h.event, e) then KafkaId(h.event.direction, h.event.payload) else None
  }

  /** In a Kafka flow, keys coincide exactly when ids do. */
  lemma KafkaKeys(a: L7Event, b: L7Event, id: Int32)
    requires a.protocol.Kafka? && KafkaId(a.direction, a.payload) == Some(id)
    requires a.destination != Token(id)
    ensures KeyOf(b) == KeyOf(a) <==> SameFlow(b, a) && KafkaId(b.direction, b.payload) == Some(id)
  {
    var other := KafkaId(b.direction, b.payload);
    assert Token(id) != "";
    if b.protocol.Kafka? && other.Some? {
      assert Token(other.value) != "";
      TokenInjective(other.value, id);
    }
  }

  /** A request and its response: one key, and nothing in between touches it. */
  ghost predicate OpenBetween(key: Keying, hs: seq<Happening>, i: nat, j: nat) {
    && i < j && IsRequest(hs, i) && IsResponse(hs, j) && key(hs[i].event) == key(hs[j].event)
    && forall k :: i < k < j ==> LeavesOpen(TRACKER_TTL, Beats(key, hs), i, k)
  }

  lemma OpenPairs(key: Keying, hs: seq<Happening>, i: nat, j: nat)
    requires OpenBetween(key, hs, i, j)
    ensures PairedBy(key, hs, j) == Some(hs[j].event.now - hs[i].event.now)
  {
    PairsWith(TRACKER_TTL, Beats(key, hs), i, j);
  }

  /** Ids distinct while in flight, and no over-age sweep, between a Kafka request and its response. */
  predicate Pipelined(hs: seq<Happening>, i: nat, j: nat, id: Int32) {
    && i < j && IsRequest(hs, i) && IsResponse(hs, j) && hs[i].event.protocol.Kafka?
    && FlowId(hs[i].event, hs[i]) == Some(id) && FlowId(hs[i].event, hs[j]) == Some(id)
    && (forall k :: i < k < j ==> FlowId(hs[i].event, hs[k]) != Some(id))
    && (forall k :: i < k < j && hs[k].SweepStarts? ==> hs[k].now - hs[i].event.now <= TRACKER_TTL)
  }

  lemma PipelinedIsOpen(hs: seq<Happening>, i: nat, j: nat, id: Int32)
    requires Pipelined(hs, i, j, id) && hs[i].event.destination != Token(id)
    ensures OpenBetween(Keys(), hs, i, j)
  {
    KafkaKeys(hs[i].event, hs[j].event, id);
    forall k | i < k < j
      ensures LeavesOpen(TRACKER_TTL, Beats(Keys(), hs), i, k)
    {
      if hs[k].Traffic? {
        KafkaKeys(hs[i].event, hs[k].event, id);
      }
    }
  }

  /** Destinations are rendered from socket tuples: empty, an IPv4 address, or a bracketed IPv6 one. */
  predicate FromTuple(destination: string) {
    destination == "" || destination[0] == '[' || '0' <= destination[0] <= '9'
  }

  /**
   * Pipelining: a Kafka response is paired with its own request, in whatever order the responses
   * come and whatever else is going on.
   */
  lemma KafkaPipelining(hs: seq<Happening>, i: nat, j: nat, id: Int32)
    requires Pipelined(hs, i, j, id) && FromTuple(hs[i].event.destination)
    ensures PairedDuration(hs, j) == Some(hs[j].event.now - hs[i].event.now)
  {
    PipelinedIsOpen(hs, i, j, id);
    OpenPairs(Keys(), hs, i, j);
  }

  /** Without a token, a flow is a key. */
  lemma PlainKeys(a: L7Event, b: L7Event)
    requires !a.protocol.Kafka?
    ensures KeyOf(b) == KeyOf(a) <==> SameFlow(b, a)
  {
  }

  lemma KeyedOverlap(key: Keying, hs: seq<Happening>, first: nat, second: nat, j: nat, k: nat)
    requires first < second < j < k && IsRequest(hs, first) && IsRequest(hs, second) && IsResponse(hs, j) && IsResponse(hs, k)
    requires key(hs[first].event) == key(hs[second].event) == key(hs[j].event) == key(hs[k].event)
    requires forall m :: second < m < j ==> LeavesOpen(TRACKER_TTL, Beats(key, hs), second, m)
    requires forall m :: j < m < k ==> !hs[m].Traffic? || key(hs[m].event) != key(hs[j].event)
    ensures PairedBy(key, hs, j) == Some(hs[j].event.now - hs[second].event.now)
    ensures PairedBy(key, hs, k) == None
  {
    OverlapLosesFirst(TRACKER_TTL, Beats(key, hs), first, second, j, k);
  }

  /** Nothing of the flow of `e` happens at `m`, and no sweep comes too late for it. */
  predicate Elsewhere(e: L7Event, h: Happening) {
    match h
    case SweepStarts(now) => now - e.now <= TRACKER_TTL
    case SweepUrls(_) => true
    case Traffic(other, _, _) => !SameFlow(other, e)
  }

  /**
   * Every other protocol correlates by destination alone, so of two requests of one flow that overlap
   * the first is lost: the next response is timed from the second, and the one after from neither.
   */
  lemma PlainOverlap(hs: seq<Happening>, first: nat, second: nat, j: nat, k: nat)
    requires first < second < j < k && IsRequest(hs, first) && IsRequest(hs, second) && IsResponse(hs, j) && IsResponse(hs, k)
    requires !hs[first].event.protocol.Kafka? && SameFlow(hs[second].event, hs[first].event)
    requires SameFlow(hs[j].event, hs[first].event) && SameFlow(hs[k].event, hs[first].event)
    requires forall m :: second < m < j ==> Elsewhere(hs[second].event, hs[m])
    requires forall m :: j < m < k ==> !hs[m].Traffic? || !SameFlow(hs[m].event, hs[first].event)
    ensures PairedDuration(hs, j) == Some(hs[j].event.now - hs[second].event.now)
    ensures PairedDuration(hs, k) == None
  {
    var e := hs[first].event;
    forall m | first <= m <= k && hs[m].Traffic?
      ensures Keys()(hs[m].event) == Keys()(e) <==> SameFlow(hs[m].event, e)
    {
      PlainKeys(e, hs[m].event);
    }
    forall m | second < m < j
      ensures LeavesOpen(TRACKER_TTL, Beats(Keys(), hs), second, m)
    {
      assert Elsewhere(hs[second].event, hs[m]);
    }
    KeyedOverlap(Keys(), hs, first, second, j, k);
  }
}
