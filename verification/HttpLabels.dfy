/**
 * Which request an HTTP response is timed from, and which one it is labelled with. The start time and
 * the URL sit in two tables: every request replaces the one, but only a request whose URL could be
 * parsed replaces the other, and the janitor sweeps them one after the other.
 */
module HttpLabels {
  import opened Bytes
  import opened Pairing
  import opened L7Pairing

  datatype UrlKey = UrlKey(containerId: string, destination: string, actualDestination: string)

  function UrlKeyOf(e: L7Event): UrlKey {
    UrlKey(e.containerId, e.destination, e.actual)
  }

  type UrlTable = TtlTable.Table<UrlKey, string>

  /** What a happening does to the table of URLs. */
  function NextUrls(t: UrlTable, h: Happening): UrlTable {
    match h
    case SweepStarts(_) => t
    case SweepUrls(now) => TtlTable.Apply(TRACKER_TTL, t, TtlTable.Prune(now))
    case Traffic(e, url, at) =>
      if !e.protocol.Http? then t
      else if e.direction.Response? then TtlTable.Apply(TRACKER_TTL, t, TtlTable.Take(UrlKeyOf(e)))
      else if url != "" then TtlTable.Apply(TRACKER_TTL, t, TtlTable.Put(UrlKeyOf(e), url, at))
      else t
  }

  function Urls(hs: seq<Happening>): UrlTable {
    if hs == [] then map[] else NextUrls(Urls(hs[..|hs| - 1]), hs[|hs| - 1])
  }

  /** The label a response of `e` gets. */
  function LabelOf(t: UrlTable, e: L7Event): string {
    if e.protocol.Http? && UrlKeyOf(e) in t then t[UrlKeyOf(e)].value else ""
  }

  lemma UrlsNext(hs: seq<Happening>, h: Happening)
    ensures Urls(hs + [h]) == NextUrls(Urls(hs), h)
  {
    assert (hs + [h])[..|hs|] == hs;
  }

  /** The start times held after some traffic. */
  function Starts(key: Keying, hs: seq<Happening>): TtlTable.Table<RequestKey, ()> {
    TtlTable.Run(TRACKER_TTL, Calls(Beats(key, hs)))
  }

  lemma StartsNext(key: Keying, hs: seq<Happening>, h: Happening)
    ensures Starts(key, hs + [h]) == TtlTable.Apply(TRACKER_TTL, Starts(key, hs), CallOf(BeatOf(key, h)))
  {
    var calls := Calls(Beats(key, hs + [h]));
    assert calls[..|hs|] == Calls(Beats(key, hs));
  }

  /** A sweep of the starts leaves the URLs alone, so it may as well come on the other side of any payload. */
  lemma StartSweepApart(hs: seq<Happening>, h: Happening, now: int)
    ensures Urls(hs + [SweepStarts(now)] + [h]) == Urls(hs + [h] + [SweepStarts(now)])
  {
    UrlsNext(hs + [SweepStarts(now)], h);
    UrlsNext(hs, SweepStarts(now));
    UrlsNext(hs + [h], SweepStarts(now));
    UrlsNext(hs, h);
  }

  /** And the other way round. */
  lemma UrlSweepApart(key: Keying, hs: seq<Happening>, h: Happening, now: int)
    ensures Starts(key, hs + [SweepUrls(now)] + [h]) == Starts(key, hs + [h] + [SweepUrls(now)])
  {
    StartsNext(key, hs + [SweepUrls(now)], h);
    StartsNext(key, hs, SweepUrls(now));
    StartsNext(key, hs + [h], SweepUrls(now));
    StartsNext(key, hs, h);
  }

  // ---- The requests behind the two tables ----

  /** One more happening, the `n`-th: the request held until now, and the one held after it. */
  function Next(e: L7Event, held: Option<nat>, h: Happening, n: nat, takes: bool, over: bool): Option<nat> {
    if !h.Traffic? then if over then None else held
    else if !SameFlow(h.event, e) then held
    else if h.event.direction.Response? then None
    else if takes then Some(n)
    else held
  }

  predicate StartOver(hs: seq<Happening>, held: Option<nat>, h: Happening) {
    held.Some? && IsRequest(hs, held.value) && h.SweepStarts? && h.now - hs[held.value].event.now > TRACKER_TTL
  }

  predicate UrlOver(hs: seq<Happening>, held: Option<nat>, h: Happening) {
    held.Some? && IsRequest(hs, held.value) && h.SweepUrls? && h.now - hs[held.value].at > TRACKER_TTL
  }

  /** The request of the flow of `e` whose start is kept. */
  function OpenRequest(hs: seq<Happening>, e: L7Event): (r: Option<nat>)
    ensures r.Some? ==> IsRequest(hs, r.value) && SameFlow(hs[r.value].event, e)
  {
    if hs == [] then None
    else
      var init, last := hs[..|hs| - 1], hs[|hs| - 1];
      var held := OpenRequest(init, e);
      Next(e, held, last, |init|, true, StartOver(init, held, last))
  }

  /** The request of the flow of `e` whose URL is kept. */
  function OpenUrl(hs: seq<Happening>, e: L7Event): (r: Option<nat>)
    ensures r.Some? ==> IsRequest(hs, r.value) && SameFlow(hs[r.value].event, e) && hs[r.value].url != ""
  {
    if hs == [] then None
    else
      var init, last := hs[..|hs| - 1], hs[|hs| - 1];
      var held := OpenUrl(init, e);
      Next(e, held, last, |init|, last.Traffic? && last.url != "", UrlOver(init, held, last))
  }

  function Lookup<K, V>(t: TtlTable.Table<K, V>, key: K): Option<TtlTable.Entry<V>> {
    if key in t then Some(t[key]) else None
  }

  function UrlEntry(hs: seq<Happening>, held: Option<nat>): Option<TtlTable.Entry<string>>
    requires held.Some? ==> IsRequest(hs, held.value)
  {
    if held.Some? then Some(TtlTable.Entry(hs[held.value].url, hs[held.value].at)) else None
  }

  function StartEntry(hs: seq<Happening>, held: Option<nat>): Option<TtlTable.Entry<()>>
    requires held.Some? ==> IsRequest(hs, held.value)
  {
    if held.Some? then Some(TtlTable.Entry((), hs[held.value].event.now)) else None
  }

  /** One more happening, to a table that held the URL of `held`. */
  lemma UrlStep(hs: seq<Happening>, h: Happening, e: L7Event, t: UrlTable, held: Option<nat>)
    requires e.protocol.Http? && (held.Some? ==> IsRequest(hs, held.value))
    requires Lookup(t, UrlKeyOf(e)) == UrlEntry(hs, held)
    ensures var next := Next(e, held, h, |hs|, h.Traffic? && h.url != "", UrlOver(hs, held, h));
            && (next.Some? ==> IsRequest(hs + [h], next.value))
            && Lookup(NextUrls(t, h), UrlKeyOf(e)) == UrlEntry(hs + [h], next)
  {
  }

  /** The URL table holds, for every HTTP flow, the URL of the latest request that had one and was not used up. */
  lemma {:induction false} UrlsHold(hs: seq<Happening>, e: L7Event)
    requires e.protocol.Http?
    ensures Lookup(Urls(hs), UrlKeyOf(e)) == UrlEntry(hs, OpenUrl(hs, e))
    decreases |hs|
  {
    if hs == [] {
    } else {
      var init, last := hs[..|hs| - 1], hs[|hs| - 1];
      UrlsHold(init, e);
      UrlStep(init, last, e, Urls(init), OpenUrl(init, e));
      assert init + [last] == hs;
    }
  }

  /** How a flow is keyed when it has no tokens. */
  predicate KeyedByFlow(key: Keying, hs: seq<Happening>, e: L7Event) {
    forall i :: 0 <= i < |hs| && hs[i].Traffic? ==> (key(hs[i].event) == key(e) <==> SameFlow(hs[i].event, e))
  }

  /** One more happening, to a table that held the start of `held`. */
  lemma StartStep(
    key: Keying, hs: seq<Happening>, h: Happening, e: L7Event, t: TtlTable.Table<RequestKey, ()>, held: Option<nat>)
    requires held.Some? ==> IsRequest(hs, held.value)
    requires Lookup(t, key(e)) == StartEntry(hs, held)
    requires h.Traffic? ==> (key(h.event) == key(e) <==> SameFlow(h.event, e))
    ensures var next := Next(e, held, h, |hs|, true, StartOver(hs, held, h));
            && (next.Some? ==> IsRequest(hs + [h], next.value))
            && Lookup(TtlTable.Apply(TRACKER_TTL, t, CallOf(BeatOf(key, h))), key(e)) == StartEntry(hs + [h], next)
  {
  }

  /** The tracker holds, for such a flow, the start of the latest request that was not used up. */
  lemma {:induction false} StartsHold(key: Keying, hs: seq<Happening>, e: L7Event)
    requires KeyedByFlow(key, hs, e)
    ensures Lookup(Starts(key, hs), key(e)) == StartEntry(hs, OpenRequest(hs, e))
    decreases |hs|
  {
    if hs == [] {
    } else {
      var init, last := hs[..|hs| - 1], hs[|hs| - 1];
      StartsHold(key, init, e);
      StartsNext(key, init, last);
      StartStep(key, init, last, e, Starts(key, init), OpenRequest(init, e));
      assert init + [last] == hs;
    }
  }

  // ---- Timed and labelled ----

  /** No sweep of the URLs since the request at `i` came over the TTL after it. */
  predicate UrlSpared(hs: seq<Happening>, i: nat)
    requires i < |hs| && hs[i].Traffic?
  {
    forall k :: i < k < |hs| && hs[k].SweepUrls? ==> hs[k].now - hs[i].at <= TRACKER_TTL
  }

  lemma UrlSparedNext(hs: seq<Happening>, h: Happening, i: nat)
    requires i < |hs| && hs[i].Traffic?
    ensures UrlSpared(hs + [h], i) <==> UrlSpared(hs, i) && (h.SweepUrls? ==> h.now - hs[i].at <= TRACKER_TTL)
  {
    var more := hs + [h];
    assert more[|hs|] == h && forall k :: 0 <= k < |hs| ==> more[k] == hs[k];
  }

  /**
   * The kept URL is that of the kept start exactly when that request had one and no sweep of the URLs
   * has found it over age; otherwise it is an earlier request's, if there is one at all.
   */
  lemma {:induction false} KeptTogether(hs: seq<Happening>, e: L7Event)
    requires OpenRequest(hs, e).Some?
    ensures var i, m := OpenRequest(hs, e).value, OpenUrl(hs, e);
            && (m == Some(i) <==> hs[i].url != "" && UrlSpared(hs, i))
            && (m.Some? ==> m.value <= i)
    decreases |hs|
  {
    var init, last := hs[..|hs| - 1], hs[|hs| - 1];
    var i := OpenRequest(hs, e).value;
    assert init + [last] == hs;
    if i < |init| {
      KeptTogether(init, e);
      UrlSparedNext(init, last, i);
    }
  }

  lemma PairedFromStarts(key: Keying, hs: seq<Happening>, e: L7Event, at: int)
    requires e.direction.Response?
    ensures PairedBy(key, hs + [Traffic(e, "", at)], |hs|) == Paired(Starts(key, hs), key(e), e.now)
  {
    assert Beats(key, hs + [Traffic(e, "", at)])[..|hs|] == Beats(key, hs);
  }

  lemma TimedFrom(key: Keying, hs: seq<Happening>, e: L7Event, at: int)
    requires KeyedByFlow(key, hs, e) && e.direction.Response? && OpenRequest(hs, e).Some?
    ensures PairedBy(key, hs + [Traffic(e, "", at)], |hs|) == Some(e.now - hs[OpenRequest(hs, e).value].event.now)
  {
    StartsHold(key, hs, e);
    PairedFromStarts(key, hs, e, at);
  }

  lemma LabelledWith(hs: seq<Happening>, e: L7Event)
    requires e.protocol.Http?
    ensures LabelOf(Urls(hs), e) == if OpenUrl(hs, e).Some? then hs[OpenUrl(hs, e).value].url else ""
  {
    UrlsHold(hs, e);
  }

  /**
   * An HTTP response that is paired at all is timed from the latest request of its flow, and labelled
   * with that request's URL exactly if it had one and no sweep of the URLs found it over age; otherwise
   * with what an earlier request left, or with nothing.
   */
  lemma TimedAndLabelled(hs: seq<Happening>, e: L7Event, at: int)
    requires e.protocol.Http? && e.direction.Response? && OpenRequest(hs, e).Some?
    ensures var i, m := OpenRequest(hs, e).value, OpenUrl(hs, e);
            && PairedDuration(hs + [Traffic(e, "", at)], |hs|) == Some(e.now - hs[i].event.now)
            && LabelOf(Urls(hs), e) == (if m.Some? then hs[m.value].url else "")
            && (m == Some(i) <==> hs[i].url != "" && UrlSpared(hs, i)) && (m.Some? ==> m.value <= i)
  {
    TimedFrom(Keys(), hs, e, at);
    LabelledWith(hs, e);
    KeptTogether(hs, e);
  }

  /** Two requests, the second with no URL to be seen: timed from the second, labelled with the first. */
  lemma Mislabelled(e: L7Event, first: L7Event, second: L7Event, url: string, at: int)
    requires e.protocol.Http? && SameFlow(first, e) && SameFlow(second, e) && url != ""
    requires e.direction.Response? && first.direction.Request? && second.direction.Request?
    ensures var hs := [Traffic(first, url, at), Traffic(second, "", at)];
            && PairedDuration(hs + [Traffic(e, "", at)], 2) == Some(e.now - second.now)
            && LabelOf(Urls(hs), e) == url
  {
    var a, b := Traffic(first, url, at), Traffic(second, "", at);
    assert [a, b][..1] == [a] && [a][..0] == [];
    assert OpenRequest([a], e) == Some(0) && OpenUrl([a], e) == Some(0);
    TimedAndLabelled([a, b], e, at);
  }

  /** A response between the two sweeps of one round: timed from its request, whose URL is gone already. */
  lemma BetweenSweeps(e: L7Event, request: L7Event, url: string, at: int, now: int)
    requires e.protocol.Http? && SameFlow(request, e) && e.direction.Response? && request.direction.Request?
    requires url != "" && now - at > TRACKER_TTL
    ensures var hs := [Traffic(request, url, at), SweepUrls(now)];
            && PairedDuration(hs + [Traffic(e, "", now)], 2) == Some(e.now - request.now)
            && LabelOf(Urls(hs), e) == ""
  {
    var a, b := Traffic(request, url, at), SweepUrls(now);
    assert [a, b][..1] == [a] && [a][..0] == [];
    assert OpenRequest([a], e) == Some(0) && OpenUrl([a], e) == Some(0);
    TimedAndLabelled([a, b], e, now);
  }
}
