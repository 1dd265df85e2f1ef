/**
 * What the dispatcher reads off an application payload: the protocol, the URL and the status. HTTP/2 and
 * Kafka are parsed as modelled here; the other parsers are parameters.
 */
module L7Parsing {
  import opened Bytes
  import opened L7Pairing
  import opened HpackScanner
  import opened Http2Frames

  /** The port registry, and the parsers that are not modelled. */
  datatype Parsers = Parsers(
    port: nat -> Option<Protocol>,
    httpUrl: Text -> Option<string>,
    httpStatus: Text -> Option<string>,
    postgresStatus: Text -> string,
    redisStatus: Text -> string)

  function Name(p: Protocol): string {
    match p
    case Http => "http"
    case Postgres => "postgres"
    case Redis => "redis"
    case Kafka => "kafka"
  }

  /** The protocol registered for a port, the destination's before the source's. */
  function Registered(p: Parsers, sourcePort: nat, destinationPort: nat): Option<Protocol> {
    if p.port(destinationPort).Some? then p.port(destinationPort) else p.port(sourcePort)
  }

  /** `sniffProtocol` */
  function Sniffed(p: Parsers, direction: Direction, payload: Text): Option<Protocol> {
    match direction
    case Request => if p.httpUrl(payload).Some? || PREFACE <= payload then Some(Http) else None
    case Response => if p.httpStatus(payload).Some? || StatusOf(payload).Some? then Some(Http) else None
  }

  /** The URL of an HTTP request, or nothing. */
  function UrlOf(p: Parsers, payload: Text): string {
    if p.httpUrl(payload).Some? then p.httpUrl(payload).value else ""
  }

  /** `protocolStatus` */
  function ProtocolStatus(p: Parsers, protocol: Protocol, payload: Text): string {
    match protocol
    case Http =>
      if p.httpStatus(payload).Some? then p.httpStatus(payload).value
      else if StatusOf(payload).Some? then AsLabel(StatusOf(payload).value)
      else ""
    case Postgres => p.postgresStatus(payload)
    case Redis => p.redisStatus(payload)
    case Kafka => if ParseKafkaResponse(payload).Some? then "ok" else "unknown"
  }

  /** `NormalizeStatus` */
  function NormalizeStatus(protocol: Protocol, raw: string): string {
    if raw == "" then "unknown"
    else if protocol.Http? then raw
    else if raw in {"ok", "error", "timeout"} then raw
    else "unknown"
  }

  /** The status a response is counted under. */
  function StatusLabel(p: Parsers, protocol: Protocol, payload: Text): string {
    NormalizeStatus(protocol, ProtocolStatus(p, protocol, payload))
  }

  /** Short of HTTP, there are four statuses. */
  lemma StatusesBounded(p: Parsers, protocol: Protocol, payload: Text)
    ensures !protocol.Http? ==> StatusLabel(p, protocol, payload) in {"ok", "error", "timeout", "unknown"}
    ensures StatusLabel(p, protocol, payload) != ""
  {
  }

  /** A request is taken for HTTP by its request line or the HTTP/2 preface, a response by its status. */
  lemma SniffedExactly(p: Parsers, direction: Direction, payload: Text)
    ensures Sniffed(p, direction, payload) in {None, Some(Http)}
    ensures direction.Request? ==>
              (Sniffed(p, direction, payload).Some? <==>
               p.httpUrl(payload).Some? || AsText("PRI * HTTP/2.0\r\n\r\nSM\r\n\r\n") <= payload)
    ensures direction.Response? ==>
              (Sniffed(p, direction, payload).Some? <==>
               p.httpStatus(payload).Some? || StatusOf(payload).Some?)
  {
    PrefaceIs();
  }

  /** What the parsers say, if it is one of the statuses of the protocol; a Kafka frame that is long enough is fine. */
  lemma StatusLabelExactly(p: Parsers, payload: Text)
    ensures var s := p.postgresStatus(payload);
            StatusLabel(p, Postgres, payload) == if s in {"ok", "error", "timeout"} then s else "unknown"
    ensures var s := p.redisStatus(payload);
            StatusLabel(p, Redis, payload) == if s in {"ok", "error", "timeout"} then s else "unknown"
    ensures StatusLabel(p, Kafka, payload) == if |payload| >= 8 then "ok" else "unknown"
    ensures var s := p.httpStatus(payload);
            s.Some? ==> StatusLabel(p, Http, payload) == if s.value != "" then s.value else "unknown"
  {
  }

  /**
   * From the wire to the label: an HTTP/2 response of at most fifteen other frames and a HEADERS frame is
   * labelled with the first status among the first 64 of its fields, and with "unknown" if there is none.
   */
  lemma Http2Labelled(
    p: Parsers, frames: seq<Frame>, h: Headers, fields: seq<Field>, trailing: Text, payload: Text)
    requires AllWellFormed(frames) && NoneHeaders(frames) && |frames| < 16
    requires WellFormedHeaders(h) && h.fragment == EncodeFields(fields)
    requires payload == EncodeFrames(frames, EncodeFrame(HeadersAsFrame(h)) + trailing) && !(AsText(MAGIC) <= payload)
    requires p.httpStatus(payload).None?
    ensures var first := FirstStatus(fields, 64);
            && StatusLabel(p, Http, payload) == (if first.Some? then AsLabel(first.value) else "unknown")
            && Sniffed(p, Response, payload) == (if first.Some? then Some(Http) else None)
  {
    FramingInverts(frames, h, trailing, payload);
    ScanInvertsEncoding(fields, 64);
    FirstStatusText(fields, 64);
  }
}
