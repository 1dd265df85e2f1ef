/**
 * The event loader: it resolves containers and translated addresses, keeps the pairing tables, and
 * turns kernel events into calls on the store. Its objects record their own histories, so contracts
 * here say what each event adds to them.
 */
module EventLoader {
  import opened Bytes
  import opened StoreModel
  import opened Caches
  import opened L7Pairing
  import opened Pairing
  import opened HttpLabels
  import opened Identity
  import DnsEvents
  import DnsResponse
  import opened L7Events
  import opened TcpEvents

  const FIVE_MINUTES: int := 300_000_000_000
  const THIRTY_SECONDS: int := 30_000_000_000

  const NO_CONTAINER := Container("", "", "")

  /** `SocketTuple`; ports and family as numbers, addresses as octets. */
  datatype Tuple = Tuple(
    sourceAddress: Text, destinationAddress: Text, sourcePort: nat, destinationPort: nat, family: nat)

  const FAMILY_IPV6: nat := 10

  /** An IPv4 address mapped into IPv6: ten zero octets, two of ones, and the address. */
  predicate IsMapped(a: Text) {
    |a| == 16 && (forall i :: 0 <= i < 10 ==> a[i] == 0) && a[10] == 255 && a[11] == 255
  }

  predicate IsIpv6(t: Tuple) {
    t.family == FAMILY_IPV6 && !IsMapped(t.destinationAddress)
  }

  /** What is left to the parameters: the text of endpoints and addresses, and the parsers not modelled. */
  datatype Surroundings = Surroundings(
    endpoint: (Text, nat, nat) -> string, ipText: DnsResponse.Ip -> string, parsers: L7Parsing.Parsers)

  /** Exactly the tuples of family 10 whose destination is not an IPv4 address in disguise. */
  lemma Ipv6Exactly(t: Tuple)
    ensures IsIpv6(t) <==>
            t.family == 10 &&
            forall v4: Text :: |v4| == 4 ==> t.destinationAddress != [0, 0, 0, 0, 0, 0, 0, 0, 0, 0, 255, 255] + v4
  {
    var a := t.destinationAddress;
    if IsMapped(a) {
      assert a == [0, 0, 0, 0, 0, 0, 0, 0, 0, 0, 255, 255] + a[12..];
    }
  }

  function Destination(around: Surroundings, t: Tuple): string {
    around.endpoint(t.destinationAddress, t.destinationPort, t.family)
  }

  function Source(around: Surroundings, t: Tuple): string {
    around.endpoint(t.sourceAddress, t.sourcePort, t.family)
  }

  // ---- Containers and translations ----

  /** What the translation table makes of an address: the latest surviving mapping, or the address itself. */
  ghost predicate Resolves(ttl: int, calls: seq<TtlTable.Op<string, string>>, dst: string, actual: string) {
    && (forall i: nat :: TtlTable.Supplies(ttl, calls, dst, i) ==> actual == calls[i].value)
    && ((forall i: nat :: !TtlTable.Supplies(ttl, calls, dst, i)) ==> actual == dst)
  }

  /** `toLabels` */
  function ToLabels(r: Record): Container {
    Container(r.id, r.name, r.pod)
  }

  predicate InCgroup(byId: Records, id: string, cgroup: nat) {
    cgroup > 0 && id in byId && byId[id].cgroup == cgroup
  }

  predicate HasPid(byId: Records, id: string, pid: nat) {
    pid > 0 && id in byId && byId[id].pid == pid
  }

  /** The labels of a cached container. */
  predicate HasLabels(byId: Records, id: string, c: Container) {
    id in byId && c == Container(byId[id].id, byId[id].name, byId[id].pod)
  }

  /** The container of an event: by cgroup if that is known, else by process, else none. */
  ghost predicate Owns(byId: Records, cgroup: nat, pid: nat, c: Container) {
    if exists id :: InCgroup(byId, id, cgroup) then exists id :: InCgroup(byId, id, cgroup) && HasLabels(byId, id, c)
    else if exists id :: HasPid(byId, id, pid) then exists id :: HasPid(byId, id, pid) && HasLabels(byId, id, c)
    else c == Container("", "", "")
  }

  /** A captured payload; the clock is read for the event, and again when a URL is kept. */
  datatype Capture = Capture(
    cgroup: nat, pid: nat, tuple: Tuple, direction: Direction, payload: Text, elapsed: int, now: int, at: int)

  class Loader {
    const around: Surroundings
    const dropIpv6: bool
    const keying: Keying
    const identity: Cache
    const store: MetricStore.Store
    const translations: TtlCache<string, string>
    const tracker: RequestTracker<RequestKey>
    const flows: TtlCache<Tuple, Protocol>
    const urls: TtlCache<UrlKey, string>
    /** The traffic and the sweeps the two pairing tables have seen. */
    ghost var happenings: seq<Happening>

    ghost predicate Valid()
      reads this, identity, store, translations, tracker, flows, urls
    {
      && identity.Valid() && store.Valid() && translations.Valid() && flows.Valid()
      && TimerValid() && UrlsValid() && keying == Keys()
    }

    /** The tracker holds the starts the traffic leaves. */
    ghost predicate TimerValid()
      reads this, tracker
    {
      tracker.Valid() && tracker.ttl == TRACKER_TTL && TtlTable.Run(TRACKER_TTL, tracker.calls) == Starts(keying, happenings)
    }

    /** The URL table holds the URLs it leaves. */
    ghost predicate UrlsValid()
      reads this, urls
    {
      urls.Valid() && urls.ttl == TRACKER_TTL && urls.entries == Urls(happenings)
    }

    /** `NewLoader` */
    constructor (identity: Cache, store: MetricStore.Store, around: Surroundings, dropIpv6: bool)
      requires identity.Valid() && store.Valid()
      ensures Valid() && this.identity == identity && this.store == store
      ensures this.around == around && this.dropIpv6 == dropIpv6
      ensures happenings == [] && fresh(translations) && fresh(tracker) && fresh(flows) && fresh(urls)
      ensures translations.calls == [] && flows.calls == [] && urls.calls == [] && tracker.calls == []
      ensures translations.ttl == 300_000_000_000 && flows.ttl == 300_000_000_000
      ensures tracker.ttl == 30_000_000_000 && urls.ttl == 30_000_000_000
    {
      this.identity, this.store, this.around, this.dropIpv6 := identity, store, around, dropIpv6;
      keying, happenings := Keys(), [];
      translations := new TtlCache(FIVE_MINUTES);
      tracker := new RequestTracker(TRACKER_TTL);
      flows := new TtlCache(FIVE_MINUTES);
      urls := new TtlCache(THIRTY_SECONDS);
    }

    /** `resolveContainer` */
    method ResolveContainer(cgroup: nat, pid: nat) returns (c: Container)
      requires Valid()
      ensures Owns(identity.byId, cgroup, pid, c)
    {
      if cgroup != 0 {
        var hit := identity.ByCgroupId(cgroup);
        if hit.Some? {
          ghost var id :| id in identity.byId && identity.byId[id] == hit.value;
          assert InCgroup(identity.byId, id, cgroup) && HasLabels(identity.byId, id, ToLabels(hit.value));
          return ToLabels(hit.value);
        }
      }
      if pid != 0 {
        var hit := identity.ByPid(pid);
        if hit.Some? {
          ghost var id :| id in identity.byId && identity.byId[id] == hit.value;
          assert HasPid(identity.byId, id, pid) && HasLabels(identity.byId, id, ToLabels(hit.value));
          return ToLabels(hit.value);
        }
      }
      return NO_CONTAINER;
    }

    /** `actualDestination` */
    method ActualDestination(dst: string) returns (actual: string)
      requires Valid()
      ensures Resolves(translations.ttl, translations.calls, dst, actual)
    {
      var known := translations.Get(dst);
      actual := if known.Some? then known.value else dst;
    }

    /** `dispatchNAT` */
    method DispatchNat(orig: Tuple, reply: Tuple, now: int)
      requires Valid()
      modifies translations
      ensures Valid()
      ensures var original := around.endpoint(orig.destinationAddress, orig.destinationPort, orig.family);
              var actual := around.endpoint(reply.sourceAddress, reply.sourcePort, reply.family);
              translations.calls == old(translations.calls) +
              if (dropIpv6 && (IsIpv6(orig) || IsIpv6(reply))) || original == "" || actual == "" || original == actual then []
              else [TtlTable.Put(original, actual, now)]
    {
      if dropIpv6 && (IsIpv6(orig) || IsIpv6(reply)) {
        return;
      }
      var original, actual := Destination(around, orig), Source(around, reply);
      if original == "" || actual == "" || original == actual {
        return;
      }
      translations.Put(original, actual, now);
    }

    /** `dispatchTCP` */
    method DispatchTcp(kind: TcpKind, cgroup: nat, pid: nat, tuple: Tuple, value: nat, now: int)
      returns (ghost c: Container, ghost actual: string)
      requires Valid()
      modifies store
      ensures Valid() && (dropIpv6 && IsIpv6(tuple) ==> store.history == old(store.history))
      ensures !(dropIpv6 && IsIpv6(tuple)) ==>
                var dst := around.endpoint(tuple.destinationAddress, tuple.destinationPort, tuple.family);
                && Owns(identity.byId, cgroup, pid, c) && Resolves(translations.ttl, translations.calls, dst, actual)
                && store.history == old(store.history) + TcpSteps(store.cfg.ports, kind, c, dst, actual, value, now)
                && Conserved(old(store.View()), store.View(), Found(store.cfg.ports, kind, c, dst, actual, value))
    {
      c, actual := NO_CONTAINER, "";
      if dropIpv6 && IsIpv6(tuple) {
        return;
      }
      var container := ResolveContainer(cgroup, pid);
      var dst := Destination(around, tuple);
      var translated := ActualDestination(dst);
      c, actual := container, translated;
      RecordTcp(store, kind, container, dst, translated, value, now);
      TcpConserves(store.cfg, old(store.history), Found(store.cfg.ports, kind, container, dst, translated, value), now);
    }

    /** `dispatchDNS` */
    method DispatchDns(direction: Direction, cgroup: nat, pid: nat, payload: Text, now: int) returns (ghost c: Container)
      requires Valid()
      modifies store
      ensures Valid() && (direction.Request? || c.id == "" ==> store.history == old(store.history))
      ensures direction.Response? ==>
                && Owns(identity.byId, cgroup, pid, c)
                && store.history == old(store.history) +
                   DnsEvents.DnsSteps(c, around.ipText, dropIpv6, DnsResponse.Parse(payload), now)
    {
      c := NO_CONTAINER;
      if direction.Request? {
        return;
      }
      var container := ResolveContainer(cgroup, pid);
      c := container;
      DnsEvents.RecordPayload(store, container, around.ipText, dropIpv6, payload, now);
    }

    // ---- Application payloads ----

    /**
     * The classification in `dispatchL7`: a registered port decides; otherwise the verdict cached for
     * the flow, which this use keeps alive; otherwise what the payload looks like, which is cached.
     */
    method Classify(flow: Tuple, registered: Option<Protocol>, sniffed: Option<Protocol>, now: int)
      returns (protocol: Option<Protocol>, ghost cached: Option<Protocol>)
      requires Valid()
      modifies flows
      ensures Valid() && IsAnswer(flows.ttl, old(flows.calls), flow, cached)
      ensures protocol == if registered.Some? then registered else if cached.Some? then cached else sniffed
      ensures flows.calls == old(flows.calls) +
              if registered.Some? then []
              else if cached.None? && sniffed.Some? then [TtlTable.Refresh(flow, now), TtlTable.Put(flow, sniffed.value, now)]
              else [TtlTable.Refresh(flow, now)]
    {
      if registered.Some? {
        var known := flows.Get(flow);
        return registered, known;
      }
      var known := flows.GetRefresh(flow, now);
      cached := known;
      if known.Some? {
        return known, cached;
      }
      if sniffed.Some? {
        flows.Put(flow, sniffed.value, now);
      }
      protocol := sniffed;
    }

    method StartTimer(e: L7Event, ghost h: Happening)
      requires TimerValid() && h.Traffic? && h.event == e && e.direction.Request?
      modifies tracker
      ensures tracker.Valid() && TtlTable.Run(TRACKER_TTL, tracker.calls) == Starts(keying, happenings + [h])
    {
      StartsNext(keying, happenings, h);
      Caches.RunNext(tracker.ttl, tracker.calls, TtlTable.Put(keying(e), (), e.now));
      tracker.Start(keying(e), e.now);
    }

    method KeepUrl(e: L7Event, url: string, at: int)
      requires UrlsValid() && e.direction.Request?
      modifies urls
      ensures urls.Valid() && urls.entries == Urls(happenings + [Traffic(e, url, at)])
    {
      UrlsNext(happenings, Traffic(e, url, at));
      if e.protocol.Http? && url != "" {
        Caches.RunNext(urls.ttl, urls.calls, TtlTable.Put(UrlKeyOf(e), url, at));
        urls.Put(UrlKeyOf(e), url, at);
      }
    }

    /** `handleProtocolRequest`; `url` is what the HTTP request line and Host header gave, if anything. */
    method HandleProtocolRequest(e: L7Event, url: string, at: int)
      requires Valid() && e.direction.Request?
      modifies this, tracker, urls
      ensures Valid() && happenings == old(happenings) + [Traffic(e, url, at)]
    {
      ghost var h := Traffic(e, url, at);
      StartTimer(e, h);
      ghost var calls := tracker.calls;
      KeepUrl(e, url, at);
      happenings := happenings + [h];
      assert tracker.calls == calls;
    }

    method StopTimer(e: L7Event, elapsed: int, ghost h: Happening) returns (duration: int)
      requires TimerValid() && h.Traffic? && h.event == e && e.direction.Response?
      modifies tracker
      ensures tracker.Valid() && TtlTable.Run(TRACKER_TTL, tracker.calls) == Starts(keying, happenings + [h])
      ensures duration == DurationOf(keying, happenings, e, elapsed)
    {
      StartsNext(keying, happenings, h);
      ghost var calls := tracker.calls;
      Caches.RunNext(tracker.ttl, calls, TtlTable.Take(keying(e)));
      var length, ok := tracker.Finish(keying(e), e.now);
      FinishAnswers(TRACKER_TTL, calls, keying(e), e.now, length, ok);
      duration := if ok then length else elapsed;
    }

    method TakeUrl(e: L7Event, ghost at: int) returns (url: string)
      requires UrlsValid() && e.direction.Response?
      modifies urls
      ensures urls.Valid() && urls.entries == Urls(happenings + [Traffic(e, "", at)])
      ensures url == LabelOf(Urls(happenings), e)
    {
      UrlsNext(happenings, Traffic(e, "", at));
      url := LabelOf(urls.entries, e);
      if e.protocol.Http? {
        Caches.RunNext(urls.ttl, urls.calls, TtlTable.Take(UrlKeyOf(e)));
        var _ := urls.TakeOut(UrlKeyOf(e));
      }
    }

    /** Takes the request's start and its URL out of their tables. */
    method FinishRequest(e: L7Event, elapsed: int, at: int) returns (duration: int, url: string)
      requires Valid() && e.direction.Response?
      modifies this, tracker, urls
      ensures Valid() && happenings == old(happenings) + [Traffic(e, "", at)]
      ensures duration == DurationOf(keying, old(happenings), e, elapsed)
      ensures url == LabelOf(Urls(old(happenings)), e)
    {
      ghost var h := Traffic(e, "", at);
      duration := StopTimer(e, elapsed, h);
      ghost var calls := tracker.calls;
      url := TakeUrl(e, at);
      happenings := happenings + [h];
      assert tracker.calls == calls;
    }

    /**
     * `handleProtocolResponse`: one observation, of the paired duration when there is one and of the
     * event's own otherwise, under the URL left for its flow.
     */
    method HandleProtocolResponse(e: L7Event, c: Container, elapsed: int, status: string, at: int)
      requires Valid() && e.direction.Response? && c.id == e.containerId
      modifies this, tracker, urls, store
      ensures Valid() && happenings == old(happenings) + [Traffic(e, "", at)]
      ensures store.history == old(store.history) +
              [ResponseStep(store.cfg.ports, keying, old(happenings), e, c, elapsed, status)]
    {
      var duration, url := FinishRequest(e, elapsed, at);
      var raw := RequestSeries(store.cfg.ports, L7Parsing.Name(e.protocol), c, e.destination, e.actual, status, url);
      store.Observe(raw, Seconds(duration), e.now);
    }

    /** The switch on the direction. */
    method HandlePayload(e: L7Event, c: Container, url: string, elapsed: int, status: string, at: int)
      requires Valid() && c.id == e.containerId
      modifies this, tracker, urls, store
      ensures Valid() && happenings == old(happenings) + [TrafficOf(e, url, at)]
      ensures store.history == old(store.history) + L7Steps(store.cfg.ports, keying, old(happenings), e, c, elapsed, status)
    {
      match e.direction
      case Request => HandleProtocolRequest(e, url, at);
      case Response => HandleProtocolResponse(e, c, elapsed, status, at);
    }

    /** The protocol of a payload: its ports', or the one cached for the flow, or what it looks like. */
    function ProtocolOf(w: Capture, cached: Option<Protocol>): Option<Protocol> {
      var ports := around.parsers.port;
      if ports(w.tuple.destinationPort).Some? then ports(w.tuple.destinationPort)
      else if ports(w.tuple.sourcePort).Some? then ports(w.tuple.sourcePort)
      else if cached.Some? then cached
      else L7Parsing.Sniffed(around.parsers, w.direction, w.payload)
    }

    /** The URL a request was seen to carry. */
    function UrlIn(w: Capture): string {
      var url := around.parsers.httpUrl(w.payload);
      if w.direction.Request? && url.Some? then url.value else ""
    }

    /** `dispatchL7` on a payload of a known container. */
    method DispatchOwned(w: Capture, c: Container, dst: string, actual: string)
      returns (ghost cached: Option<Protocol>, ghost protocol: Option<Protocol>)
      requires Valid()
      modifies this, tracker, flows, urls, store
      ensures Valid() && IsAnswer(flows.ttl, old(flows.calls), w.tuple, cached)
      ensures protocol == ProtocolOf(w, cached)
      ensures protocol.None? ==> happenings == old(happenings) && store.history == old(store.history)
      ensures protocol.Some? ==>
                var e := L7Event(c.id, dst, actual, protocol.value, w.direction, w.payload, w.now);
                && happenings == old(happenings) + [Traffic(e, UrlIn(w), w.at)]
                && store.history == old(store.history) + L7Steps(store.cfg.ports, keying, old(happenings), e, c, w.elapsed,
                                                                 L7Parsing.StatusLabel(around.parsers, e.protocol, w.payload))
    {
      var registered := L7Parsing.Registered(around.parsers, w.tuple.sourcePort, w.tuple.destinationPort);
      var verdict;
      verdict, cached := Classify(w.tuple, registered, L7Parsing.Sniffed(around.parsers, w.direction, w.payload), w.now);
      protocol := verdict;
      if verdict.Some? {
        HandlePayload(L7Event(c.id, dst, actual, verdict.value, w.direction, w.payload, w.now), c,
          L7Parsing.UrlOf(around.parsers, w.payload), w.elapsed,
          L7Parsing.StatusLabel(around.parsers, verdict.value, w.payload), w.at);
      }
    }

    /**
     * `dispatchL7`: dropped traffic, a payload of no container and one of no protocol leave no trace but
     * in the table of flows; any other joins the traffic under its translated address, with an
     * observation if it is a response.
     */
    method DispatchL7(w: Capture)
      returns (ghost c: Container, ghost cached: Option<Protocol>, ghost protocol: Option<Protocol>, ghost actual: string)
      requires Valid()
      modifies this, tracker, flows, urls, store
      ensures Valid()
      ensures dropIpv6 && IsIpv6(w.tuple) ==> protocol == None
      ensures !(dropIpv6 && IsIpv6(w.tuple)) ==> Owns(identity.byId, w.cgroup, w.pid, c) && (c.id == "" ==> protocol == None)
      ensures !(dropIpv6 && IsIpv6(w.tuple)) && c.id != "" ==>
                && Resolves(translations.ttl, translations.calls, Destination(around, w.tuple), actual)
                && IsAnswer(flows.ttl, old(flows.calls), w.tuple, cached)
                && protocol == ProtocolOf(w, cached)
      ensures protocol.None? ==> happenings == old(happenings) && store.history == old(store.history)
      ensures protocol.Some? ==>
                var dst := Destination(around, w.tuple);
                var e := L7Event(c.id, dst, actual, protocol.value, w.direction, w.payload, w.now);
                && happenings == old(happenings) + [Traffic(e, UrlIn(w), w.at)]
                && store.history == old(store.history) + L7Steps(store.cfg.ports, keying, old(happenings), e, c, w.elapsed,
                                                                 L7Parsing.StatusLabel(around.parsers, e.protocol, w.payload))
    {
      c, cached, protocol, actual := NO_CONTAINER, None, None, "";
      if dropIpv6 && IsIpv6(w.tuple) {
        return;
      }
      var container := ResolveContainer(w.cgroup, w.pid);
      c := container;
      if container.id == "" {
        return;
      }
      var dst := Destination(around, w.tuple);
      var translated := ActualDestination(dst);
      actual := translated;
      cached, protocol := DispatchOwned(w, container, dst, translated);
    }

    // ---- The janitor, one table at a time ----

    method PruneTranslations(now: int)
      requires Valid()
      modifies translations
      ensures Valid() && translations.calls == old(translations.calls) + [TtlTable.Prune(now)]
    {
      translations.PruneOld(now);
    }

    method PruneFlows(now: int)
      requires Valid()
      modifies flows
      ensures Valid() && flows.calls == old(flows.calls) + [TtlTable.Prune(now)]
    {
      flows.PruneOld(now);
    }

    method PruneUrls(now: int)
      requires Valid()
      modifies this, urls
      ensures Valid() && happenings == old(happenings) + [SweepUrls(now)]
    {
      StartsNext(keying, happenings, SweepUrls(now));
      SweepUrlTable(now);
      happenings := happenings + [SweepUrls(now)];
    }

    method SweepUrlTable(now: int)
      requires UrlsValid()
      modifies urls
      ensures urls.Valid() && urls.entries == Urls(happenings + [SweepUrls(now)])
    {
      UrlsNext(happenings, SweepUrls(now));
      Caches.RunNext(urls.ttl, urls.calls, TtlTable.Prune(now));
      urls.PruneOld(now);
    }

    method PruneTracker(now: int)
      requires Valid()
      modifies this, tracker
      ensures Valid() && happenings == old(happenings) + [SweepStarts(now)]
    {
      UrlsNext(happenings, SweepStarts(now));
      SweepTimers(now);
      happenings := happenings + [SweepStarts(now)];
    }

    method SweepTimers(now: int)
      requires TimerValid()
      modifies tracker
      ensures tracker.Valid() && TtlTable.Run(TRACKER_TTL, tracker.calls) == Starts(keying, happenings + [SweepStarts(now)])
    {
      StartsNext(keying, happenings, SweepStarts(now));
      Caches.RunNext(tracker.ttl, tracker.calls, TtlTable.Prune(now));
      tracker.PruneOld(now);
    }
  }
}
