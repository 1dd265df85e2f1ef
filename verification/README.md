# pnet-exporter in Dafny

pnet-exporter watches a node's containers through eBPF probes and exports per-container network
metrics to Prometheus. This project models the four parts of it with the most state and branching,
and proves what they promise over every input and every run.

**The metric store** (`Labels`, `StoreModel`, `MetricStore`, `Quotient`, `Momentary`, `Cardinality`,
`Histograms`, `ResponseTimes`, `Totals`, `Addresses`, `Sums`) keeps counters, gauges and histograms under labels
that are capped per container: a label value is admitted while its budget has room and shown as `~other`
afterwards. `StoreModel.Run` is the effect of a sequence of calls; the class `MetricStore.Store` updates
its maps in place and stays equal to the run of its own call history, so every theorem about runs holds
of every store. The centre is `Quotient.ExactQuotient`: the capped counters are an exact quotient of
counters kept with no caps at all; `Quotient.CounterExact` says what every counter amounts to. **The identity cache** (`Identity`, `Retention`) decides which
containers the janitor may forget, and `Retention.CountersNeverReset` says when counters survive it.

**The HTTP/2 status scanner** (`HpackInteger`, `HpackStatic`, `StatusDigits`, `HpackScanner`,
`Http2Frames`) is proved to invert encoders written from RFC 7541 and RFC 7540, on whole
payloads and on captures cut anywhere.

**The DNS response parser** (`DnsName`, `DnsResponse`) is proved sound and complete for a name relation
after section 4.1.4 of RFC 1035, to read back every message laid out by that section, through chains of
compression pointers of any length, and never to invent data on a cut.

**The connection lifecycle** (`TcpState`, `ActiveGauge`, `ConnectCounters`, `TcpEvents`) follows
connections from the kernel handler through the dispatcher to the gauge and the counters, with reservations and insertions failing at any point, socket
addresses reused, and prunes and other calls on the store in between. **Request pairing** (`TtlTable`,
`Caches`, `Pairing`, `L7Pairing`, `HttpLabels`, `L7Parsing`, `L7Events`, `DnsEvents`, `EventLoader`) specifies the
ageing tables over their call histories alone, and says which request every response is timed against
and which one it is labelled with.

Each mutex-held method is one atomic step, and the janitors' steps come anywhere between those of the one
goroutine that consumes events. Clock readings are parameters (nanoseconds, unbounded and
not assumed monotone), and so are ring-buffer reservations and map insertions that may fail. Go's map
iteration order is an arbitrary choice. Bytes are integers below 256, with masks and shifts written as
`%` and `/`. Counters and gauges are naturals, durations and bucket bounds reals.

Properties that turned out to hold only under a condition are stated with that condition, both ways,
and mostly with an input that misses it. These, and the places where code and documentation part:

- Gauges and histograms are dropped by age and not with their container, so after a prune that drops it
  they can carry labels no budget knows (`Cardinality.GaugeKeepsExactly`, `HistKeepsExactly`, with
  `GaugeOutlivesBudget` and `HistOutlivesBudget`), and a histogram can hold more observations than there
  are requests (`ResponseTimes.CoveredExactly`, `DroppedTooSoon`).
- The active gauge is right after every step exactly when every close is shown under the labels of the
  connection it ends, no call changes the labels of an outstanding connection, and no prune finds such a
  connection's gauge over age or drops its container while its labels need a budget
  (`ActiveGauge.GaugeLawExactly`). It fails when a translated address appears while a connection is open
  (`ActiveGauge.TranslationAppears`), and when nothing touches the gauge of an open connection for longer than the TTL
  (`ActiveGauge.IdleConnectionLost`).
- An HTTP response is labelled with the URL of the request it is timed from exactly when that request's
  URL could be parsed and no sweep of the URL table found it over age; otherwise with an earlier
  request's, or with none (`HttpLabels.TimedAndLabelled`, with `Mislabelled` and `BetweenSweeps`).
- A DNS name is read back exactly when it goes through at most eight pointers, and a message up to the
  first name that does not (`DnsResponse.NameRoundTrip`, `ParseInvertsEncoding`).
- A bucket can exceed the total count exactly when the configured bounds repeat, which configuration
  loading allows (`Histograms.NeverAboveTotalExact`).
- The comment on `huffmanEncodeDigits` says every digit has the 5-bit code of its value in appendix B of
  RFC 7541. Only 0, 1 and 2 do; the model packs as the code does, `StatusDigits.RfcAgreement` says the
  packing agrees with the appendix exactly on such strings, and `StatusDigits.ConformingPeer` that a
  status packed by the appendix is then found, or missed, but never misread.
- Only name index 8 counts as `:status` in a literal field, although indices 9 to 14 name it too.
- A cut HEADERS frame with PADDED or PRIORITY can show a status the whole frame does not have.
  `Http2Frames.CutExact` gives the lengths for which this is impossible, in both directions, and
  `Http2Frames.UnsafeCaptureMisleads` a capture for each of the others.
- `readName` takes length bytes 64 to 191, reserved in RFC 1035, for ordinary label lengths.
- Every protocol but Kafka correlates by destination alone, so overlapping requests lose the first
  (`L7Pairing.PlainOverlap`).

## Model

| member | source | states |
|---|---|---|
| `Labels.BoundShows` | internal/store/store.go:654-669 | the label handed out is the one the admitted values imply (admitted: itself; otherwise `~other`), and from then on it is decided |
| `Labels.BoundGrows` | internal/store/store.go:654-669 | asking for a label touches no other budget; its own only gains values, and none once full |
| `Labels.SettledForever` | internal/store/store.go:654-669 | a decided value keeps its label for as long as the budget only grows |
| `Labels.BoundWithin` | internal/store/store.go:654-669 | no budget goes over its limit |
| `Addresses.NormalizeIdempotent` | internal/store/store.go:623-644 | a collapsed address is not collapsed again |
| `Addresses.NormalizeMerges` | internal/store/store.go:623-644 | two addresses become one label exactly when they are dynamic ports of one host, or that host's collapsed form |
| `Addresses.JoinInjective` | internal/store/store.go:644 | distinct hosts stay distinct once joined with the port label |
| `Addresses.SplitExactly` | internal/store/store.go:627-630 | splitting host and port takes exactly the two written forms, plain and in brackets, and inverts them |
| `Addresses.NormalizeExactly` | internal/store/store.go:623-644 | an address changes if and only if collapsing is on and it is a host, in either form, with a decimal port in the dynamic range; it then shows the host with `dyn_ports` |
| `StoreModel.BindRelabels` | internal/store/store.go:596-621 | the series an operation writes is its labels as the budgets show them after the operation, all of them decided |
| `StoreModel.BindTagsInOrder` | internal/store/store.go:596-621 | the labels of a key are served in order: each is bounded against the budgets as those before it left them |
| `StoreModel.BindGrows` | internal/store/store.go:596-621 | a write only grows the budgets of every container |
| `StoreModel.RelabelledForever` | internal/store/store.go:596-669 | a decided series keeps its labels while its container's budgets only grow |
| `StoreModel.StepGrows` | internal/store/store.go:475-586 | a container's budgets shrink only at a prune that drops it |
| `StoreModel.LedgerOfRun` | internal/store/store.go:131-357 | counters and budgets do not depend on gauges, histograms or the clock |
| `MetricStore.Store.constructor` | internal/store/store.go:71-102 | an empty store, the run of no calls |
| `MetricStore.Store.BoundValue` | internal/store/store.go:654-669 | the label and the new budget are those of the bound function |
| `MetricStore.Store.Key` | internal/store/store.go:596-621 | the labels of a key are bounded in turn, each against the budgets the last one left |
| `MetricStore.Store.Add` | internal/store/store.go:131-151 | the state stays the run of the history, which gains this counting call, so that `CounterExact` and `CountMoves` say by how much it counts (also `AddBytes*`, lines 191-203, and the inbound counters, 313-357) |
| `MetricStore.Store.Observe` | internal/store/store.go:212-273 | likewise for `ObserveDNS` and `ObserveProtocol`: a count, and an observation when the duration is positive |
| `MetricStore.Store.Raise` | internal/store/store.go:156-164 | likewise for a gauge going up (also `IncInboundActive`, lines 321-329) |
| `MetricStore.Store.Lower` | internal/store/store.go:169-179 | likewise for a gauge going down, clamped at zero (also `DecInboundActive`, lines 333-343) |
| `MetricStore.Store.Set` | internal/store/store.go:184-189 | likewise for an overwritten gauge (also `SetIPFQDN`, lines 232-241) |
| `MetricStore.Store.Prune` | internal/store/store.go:475-586 | likewise for a prune: momentary series by age, counters and budgets by liveness, and nothing more without a live set |
| `MetricStore.Store.PruneOld` | internal/store/store.go:725-739 | exactly the samples and histograms within the TTL remain |
| `MetricStore.Store.DropDead` | internal/store/store.go:495-585 | exactly the counters and budgets of live containers remain |
| `Bytes.Sift` | internal/store/store.go:725-755 | a deletion loop over a map, in any order, keeps exactly the entries not to be dropped; the sweeps of the other tables are the same loop |
| `Sums.TalliedMerges` | internal/store/store.go:588-594 | counting by label is counting by key and then adding up by label, for any log and any relabelling |
| `Quotient.RunSettled` | internal/store/store.go:588-669 | in every run, every label counted under since its container was last dropped is decided |
| `Quotient.RunTally` | internal/store/store.go:475-669 | in every run, the counters are the log of counts tallied under the labels the final budgets show |
| `Quotient.ExactQuotient` | internal/store/store.go:475-669 | in every run and for every series, the capped counter is the sum of the uncapped per-address counters over the preimage of one relabelling read off the final budgets, and it is present exactly when that preimage is not empty |
| `Quotient.CounterExact` | internal/store/store.go:588-594 | in every run a counter is the sum of the amounts added, and one for each observation, by the calls shown under its labels since its container was last dropped |
| `Totals.CountMoves` | internal/store/store.go:588-594 | a counting call moves the total of its kind and container by its amount, or by one, and no other total |
| `Totals.RaiseMoves` | internal/store/store.go:156-164 | raising a gauge moves one total up by one |
| `Totals.LowerMoves` | internal/store/store.go:169-179 | lowering it moves one total down by one, unless the gauge is at zero |
| `Totals.TouchesOwn` | internal/store/store.go:596-621 | a call changes no series but the one its labels are shown as |
| `Cardinality.BudgetsRespected` | internal/store/store.go:654-669 | in every reachable state every budget is within its limit |
| `Cardinality.CountersAdmitted` | internal/store/store.go:475-669 | in every reachable state every label of a counter is empty, `~other`, or currently admitted |
| `Cardinality.LabelsBounded` | internal/store/store.go:475-669 | in every reachable state a container's counters carry at most limit plus two distinct labels of a kind |
| `Cardinality.GaugesAdmitted` | internal/store/store.go:479-486 | gauges keep to the budgets until a prune drops their container |
| `Cardinality.HistsAdmitted` | internal/store/store.go:479-486 | so do response-time histograms |
| `Momentary.AliveExactly` | internal/store/store.go:725-739 | a momentary series is alive exactly when some touch is its last and no sweep since came over the TTL after it |
| `Momentary.GaugePresence` | internal/store/store.go:156-189 | in every run a gauge is present exactly while the calls, their bound labels and the prunes make it alive, stamped with its last touch |
| `Momentary.GaugeReads` | internal/store/store.go:156-189 | and it reads what the calls bound to it have made of it since it was last absent: ups, downs that stop at zero, and overwritten values |
| `Momentary.HistPresence` | internal/store/store.go:212-273 | and so is a histogram |
| `Cardinality.GaugeKeepsExactly` | internal/store/store.go:475-586 | in every run a gauge keeps to the budgets after every step if and only if every prune that drops its container finds it over age, or with no label but the empty and the overflow one |
| `Cardinality.HistKeepsExactly` | internal/store/store.go:475-586 | in every run, the same of a histogram |
| `Cardinality.HistOutlivesBudget` | internal/store/store.go:479-585 | a run that leaves a histogram under labels no budget knows |
| `Cardinality.GaugeOutlivesBudget` | internal/store/store.go:479-585 | a run that leaves a gauge under a label no budget knows |
| `Histograms.Observe` | internal/store/store.go:694-709 | the loop over the bounds computes the observation function |
| `Histograms.BucketsExact` | internal/store/store.go:694-709 | after any observations the count at a bound is its multiplicity in the configured list times the number of observations not above it; count and sum are exact |
| `Histograms.BucketsCumulative` | internal/store/store.go:694-709 | with distinct bounds, counts do not decrease with the bound and never exceed the total |
| `Histograms.NeverAboveTotalExact` | internal/config/config.go:301-325 | no bucket ever exceeds the total, for every history, if and only if the configured bounds are distinct |
| `Histograms.SortReals` | internal/store/store.go:711-716 | a sorted permutation |
| `Histograms.SortedBuckets` | internal/store/store.go:711-723 | one entry per bound with its count, in strictly increasing order |
| `ResponseTimes.NeverMoreTimedThanCounted` | internal/store/store.go:212-273 | for every run and every duration key of a container no prune drops, the histogram's count is at most the sum over statuses of the request counters with its labels |
| `ResponseTimes.HistogramExact` | internal/store/store.go:212-273 | in every run, prunes included, a histogram is there exactly while it is alive, and its count, sum and every bucket are exact for the positive durations observed since it last aged out, over the bounds configured for its kind |
| `ResponseTimes.CoveredExactly` | internal/store/store.go:475-586 | in every run the histogram holds no more than was counted, after every step, if and only if every prune that drops the container finds it over age or not there |
| `ResponseTimes.ExposedCumulative` | internal/store/store.go:711-723 | what `SortedBuckets` exposes of a histogram of any run has counts that never fall and never pass the total, if the configured bounds are distinct |
| `ResponseTimes.DroppedTooSoon` | internal/store/store.go:475-586 | a run in which it fails |
| `Identity.RecordedExact` | internal/identity/identity.go:39-45 | a listed container is recorded as last listed and stamped with the report's time; the others are untouched |
| `Identity.CachedExactly` | internal/identity/identity.go:35-57 | after any reports, a container is cached if and only if it was listed and no later report came over the TTL after its last listing; the cached time is that listing's |
| `Identity.Cache.constructor` | internal/identity/identity.go:26-33 | an empty cache with empty indexes |
| `Identity.Renew` | internal/identity/identity.go:39-54 | the two loops compute the replacement function that `CachedExactly` is about |
| `Identity.Cache.Replace` | internal/identity/identity.go:35-57 | the cache stays the run of its reports, and both indexes stay sound and complete |
| `Identity.Reindex` | internal/identity/identity.go:107-119 | every index entry leads to a cached container with that positive key, and every such container's key is indexed |
| `Identity.Cache.ByPid` | internal/identity/identity.go:59-69 | a hit if and only if some cached container has that positive process id, and then one that has it |
| `Identity.Cache.ByCgroupId` | internal/identity/identity.go:71-81 | the same by cgroup |
| `Identity.Cache.LiveContainerIds` | internal/identity/identity.go:96-105 | exactly the containers whose last listing has not expired |
| `Retention.OnTimeCached` | internal/identity/identity.go:35-57 | a container reported on time is cached |
| `Retention.CountersNeverReset` | internal/store/store.go:475-560 | in any interleaving of discovery, calls and janitor, a container reported on time keeps each of its counters from the first report on: never gone, never lower |
| `Retention.SurvivesExactly` | internal/store/store.go:488-560 | at a janitor run a counter survives, unchanged, if and only if its container's last listing has not expired |
| `HpackInteger.HpackInt` | internal/protocol/http.go:321-342 | the shift-and-add loop computes the decoding function, and returns zeros when it fails |
| `HpackInteger.RoundTrip` | internal/protocol/http.go:321-342 | for every value, prefix width, flags and suffix, the encoding of section 5.1 of RFC 7541 decodes to the value and its length if and only if the value is below mask plus 2^42 |
| `HpackInteger.DecodeBounds` | internal/protocol/http.go:321-342 | every accepted integer takes 1 to 7 bytes, is under that bound, and cannot overflow 64 bits with its length |
| `HpackInteger.DecodeExtends` | internal/protocol/http.go:321-342 | more input does not change an accepted integer |
| `StatusDigits.HuffmanEncodeDigits` | internal/protocol/http.go:282-301 | the 64-bit accumulator packs any digit string five bits a digit and pads with ones |
| `StatusDigits.PackInjective` | internal/protocol/http.go:282-301 | packing is injective on digit strings of any lengths |
| `StatusDigits.RfcAgreement` | internal/protocol/http.go:279-301 | it agrees with appendix B and section 5.2 of RFC 7541 if and only if every digit is 0, 1 or 2 |
| `StatusDigits.BuildHttpStatusCodes` | internal/protocol/http.go:263-269 | exactly the texts of 100 to 599 |
| `StatusDigits.StatusTextIs` | internal/protocol/http.go:263-269 | those texts are the decimal renderings |
| `StatusDigits.BuildHuffmanStatusTable` | internal/protocol/http.go:271-277 | the table is the lookup function below |
| `StatusDigits.HuffmanStatusExact` | internal/protocol/http.go:307-311 | a value is looked up as a status if and only if it is that status packed |
| `StatusDigits.StatusValueExact` | internal/protocol/http.go:307-316 | a value is a status if and only if it renders a code from 100 to 599, packed when it is flagged so |
| `StatusDigits.ConformingPeer` | internal/protocol/http.go:307-316 | a digit string packed by appendix B is found exactly when it is a status of digits up to 2, and never as another |
| `HpackScanner.FieldRoundTrip` | internal/protocol/http.go:174-251 | every field form of sections 6.1 to 6.3 of RFC 7541 is read back as its status, as its length, or as malformed when an integer is too large |
| `HpackScanner.IndexedExactly` | internal/protocol/http.go:110-118 | for every index and suffix, an indexed field is read as a status if and only if appendix A of RFC 7541 has that status at the index |
| `HpackScanner.ReadField` | internal/protocol/http.go:176-211 | one round of the walk is the four-way switch function |
| `HpackScanner.FindStatus` | internal/protocol/http.go:174-214 | the walk computes the scan function, and on the encoding of any list of fields it returns the first status among the first 64 |
| `HpackScanner.ScanInvertsEncoding` | internal/protocol/http.go:174-251 | for every list of fields, the scan of its encoding is the first among the first n that is a status of appendix A or a literal with a valid value under the lowest index of that name, and none otherwise |
| `HpackScanner.ScanExtends` | internal/protocol/http.go:174-251 | a status found in a prefix of a block is the status of the whole block |
| `Http2Frames.ParseHttp2Status` | internal/protocol/http.go:130-169 | the frame loop computes the status function |
| `Http2Frames.HeaderBlockInverts` | internal/protocol/http.go:147-159 | stripping padding and priority leaves the header block fragment, for any mix of the flags |
| `Http2Frames.SkipsOtherFrames` | internal/protocol/http.go:136-167 | any number of other frames are stepped over while the budget of frames lasts |
| `Http2Frames.FramingInverts` | internal/protocol/http.go:130-169 | with or without preface, other frames, HEADERS, anything: the status is that of the fragment, or none from the sixteenth other frame on |
| `Http2Frames.CutHeaders` | internal/protocol/http.go:130-169 | the HEADERS frame found in a cut is the one in the whole, with a prefix of its payload |
| `Http2Frames.UnsafeCutMisleads` | internal/protocol/http.go:147-159 | every unsafe pair of lengths has a payload on which the cut shows status 200 and the whole shows none |
| `Http2Frames.UnsafeCaptureMisleads` | internal/protocol/http.go:130-169 | and, for lengths a frame can have, a capture whose cut parses to 200 and which parses to nothing as a whole |
| `Http2Frames.CutExact` | internal/protocol/http.go:147-159 | a cut HEADERS payload agrees with the whole for every content if and only if flags, pad length and the two lengths make the cut safe |
| `Http2Frames.PlainCutIsSafe` | internal/protocol/http.go:147-159 | without PADDED and PRIORITY every cut is safe |
| `Http2Frames.TruncationSafe` | internal/protocol/http.go:130-169 | a status found in any cut of a payload is the status of the whole if its HEADERS frame was cut safely |
| `DnsName.ReadName` | internal/protocol/dns.go:103-147 | the loop computes the reading function |
| `DnsName.ReadExact` | internal/protocol/dns.go:103-147 | reading succeeds if and only if a terminator is reached through at most 8 pointers, with the dotted labels in order and the offset past the first pointer or the terminator |
| `DnsName.CycleRejected` | internal/protocol/dns.go:105-133 | every name that runs into a pointer cycle is rejected |
| `DnsName.ReadBounds` | internal/protocol/dns.go:103-147 | a name is at most nine times the payload, and ends inside it |
| `DnsName.ReadExtends` | internal/protocol/dns.go:103-147 | more payload does not change a name that was read |
| `DnsResponse.ParseDnsResponse` | internal/protocol/dns.go:32-101 | the two loops compute the parsing function, and a payload is parsed if and only if it begins with a header, laid out by section 4.1.1 of RFC 1035, whose response bit is set |
| `DnsResponse.ParsedExactly` | internal/protocol/dns.go:33-40 | the same of the parsing function; every twelve octets are a header |
| `DnsResponse.HeaderReads` | internal/protocol/dns.go:36-47 | response bit, response code and the two counts are read off any header |
| `DnsResponse.TrimmedOwner` | internal/protocol/dns.go:56-59 | without its last dot a name is its labels, pointed-to ones included, with dots between them |
| `DnsResponse.ReadQuestions` | internal/protocol/dns.go:51-62 | the question loop, with the offset it stops at and whether it gave up |
| `DnsResponse.ReadAnswers` | internal/protocol/dns.go:63-99 | the answer loop |
| `DnsResponse.TruncationSafe` | internal/protocol/dns.go:32-101 | for every cut of at least 12 bytes, questions and answers are prefixes of those of the whole, with the same status |
| `DnsResponse.OutputBounded` | internal/protocol/dns.go:49-101 | 5 per question plus 15 per answer fits in the payload after the header, and neither exceeds its claimed count |
| `DnsResponse.NameRoundTrip` | internal/protocol/dns.go:103-147 | a name sent in any form of section 4.1.4, through chains of pointers, is read back if and only if it takes no more pointers than are left |
| `DnsResponse.ParseInvertsEncoding` | internal/protocol/dns.go:32-101 | a response message of header, questions and records parses to exactly those questions and to the A and AAAA records, "ok" exactly for response code zero, whatever compression its names use, up to the first name that takes more than eight pointers |
| `TtlTable.TraceLaw` | internal/ebpf/ttlcache.go:26-95 | over any interleaving, what is stored under a key is what its latest put left if it was not taken and never over age at a prune, refreshes moving the age |
| `TtlTable.ConsumedOnce` | internal/ebpf/ttlcache.go:67-81 | no put answers two takes |
| `Caches.TtlCache.Put` | internal/ebpf/ttlcache.go:26-33 | the entries stay the run of the calls, which gain this put |
| `Caches.TtlCache.Get` | internal/ebpf/ttlcache.go:36-45 | the answer the call history owes |
| `Caches.TtlCache.GetRefresh` | internal/ebpf/ttlcache.go:49-64 | the same answer, and the history gains a refresh |
| `Caches.TtlCache.TakeOut` | internal/ebpf/ttlcache.go:67-81 | the same answer, and the history gains a take |
| `Caches.TtlCache.PruneOld` | internal/ebpf/ttlcache.go:84-95 | the history gains a prune |
| `Caches.RequestTracker.Start` | internal/protocol/correlation.go:30-34 | the history gains a start |
| `Caches.RequestTracker.Finish` | internal/protocol/correlation.go:36-46 | hits if and only if some start of the key is still open, and returns the time since that start |
| `Caches.RequestTracker.PruneOld` | internal/protocol/correlation.go:48-57 | the history gains a prune |
| `Pairing.PairsWith` | internal/protocol/correlation.go:30-57 | an end is timed from a start if nothing between them reused the key or swept it over age |
| `Pairing.PairedIsOpen` | internal/protocol/correlation.go:30-57 | conversely, a reported time always belongs to such a start |
| `Pairing.OverlapLosesFirst` | internal/protocol/correlation.go:30-46 | of two overlapping starts of one key the first is lost |
| `L7Pairing.KafkaIdRoundTrip` | internal/protocol/kafka.go:11-33 | both header layouts yield the correlation id that was sent |
| `L7Pairing.TokenInjective` | internal/ebpf/protocol_dispatch.go:36-51 | tokens are equal exactly when ids are |
| `L7Pairing.KafkaKeys` | internal/ebpf/protocol_dispatch.go:25-51 | in a Kafka flow, request keys coincide exactly when flow and id do |
| `L7Pairing.KafkaPipelining` | internal/ebpf/loader.go:316-356 | with ids distinct in flight and no over-age sweep, every Kafka response is timed from its own request, in any order and among any other traffic |
| `L7Pairing.PlainOverlap` | internal/ebpf/loader.go:316-356 | for the other protocols the first of two overlapping requests is lost |
| `HttpLabels.StartsHold` | internal/ebpf/loader.go:316-356 | after any traffic the tracker holds, for a flow, the start of its latest request not used up or over age |
| `HttpLabels.UrlsHold` | internal/ebpf/loader.go:331-366 | and the URL table the URL of the latest request that had one and was not used up or over age |
| `HttpLabels.TimedAndLabelled` | internal/ebpf/loader.go:316-376 | a paired HTTP response is timed from the latest request of its flow, and labelled with that request's URL if and only if it had one and no sweep of the URLs found it over age; otherwise with an earlier request's or none |
| `HttpLabels.Mislabelled` | internal/ebpf/loader.go:316-376 | two requests after which a response is timed from the second and labelled with the first |
| `HttpLabels.BetweenSweeps` | internal/ebpf/loader_linux.go:269-270 | a response between the sweep of the URLs and the sweep of the starts is timed from its request and labelled with nothing |
| `HttpLabels.StartSweepApart` | internal/ebpf/loader_linux.go:269-270 | a sweep of the starts may as well come on the other side of any payload for the URL table, so one between the two calls of a handler is covered |
| `HttpLabels.UrlSweepApart` | internal/ebpf/loader_linux.go:269-270 | and the other way round |
| `TcpState.SocketHandler.constructor` | bpf/tcp_state.bpf.c:16-21 | no socket is tracked |
| `TcpState.SocketHandler.Handle` | bpf/tcp_state.bpf.c:23-80 | the tracked sockets stay the run of the transitions, and the event is exactly the one `EventExactly` describes, with the reservation or the insertion failing |
| `TcpState.EventExactly` | bpf/tcp_state.bpf.c:30-68 | after any transitions: given a reservation, a connect exactly for SYN_SENT to ESTABLISHED, a failure exactly for SYN_SENT to CLOSE, a listen exactly for a move into LISTEN, and a close exactly for any other move to CLOSE since an announced and inserted connect |
| `TcpState.Conservation` | bpf/tcp_state.bpf.c:23-80 | for every sequence of transitions and losses, sockets reused or not, and every grouping of connections, connects less closes is the number of tracked connections plus the anomalies |
| `TcpState.TrackedSince` | bpf/tcp_state.bpf.c:23-80 | for every sequence of transitions and losses, a socket is tracked exactly when a connect was announced and inserted on it, and neither a close nor another such connect came since; and under that connect's name |
| `TcpState.CloseHasConnect` | bpf/tcp_state.bpf.c:30-65 | every close event follows the connect event that began the connection it ends |
| `TcpState.ConnectEndsOnce` | bpf/tcp_state.bpf.c:30-65 | and no connect is ended twice |
| `TcpState.CloseCounted` | bpf/tcp_state.bpf.c:30-65 | by group: a tracked connection has a connect in its group that no close has used up |
| `TcpState.NoAnomalyExactly` | bpf/tcp_state.bpf.c:30-65 | the anomalies of a group vanish if and only if none of its connections was announced and not inserted, displaced by another on its socket, or closed without a reservation |
| `TcpState.TrackedIsOpen` | bpf/tcp_state.bpf.c:5-80 | with nothing lost and SYN_SENT entered only from CLOSE, a socket is tracked under a name exactly when it connected under it and has not closed since |
| `TcpState.NoAnomalies` | bpf/tcp_state.bpf.c:23-80 | and there are no anomalies |
| `ActiveGauge.HandledIsRun` | internal/ebpf/loader.go:189-215 | the calls the dispatcher makes for a transition's event are those of actions a run may have |
| `ActiveGauge.LawStep` | internal/store/store.go:156-179 | if every gauge is the number of connections outstanding under its labels, an action keeps that so if and only if a condition on the state before it holds |
| `ActiveGauge.GaugeLawExactly` | internal/store/store.go:156-179 | over every interleaving of transitions, losses, reuse of sockets, calls and prunes, every gauge is the number of tracked connections plus anomalies under its labels after every action, if and only if every action met that condition |
| `ActiveGauge.GaugeLaw` | internal/ebpf/loader.go:189-215 | without prunes, if and only if every close was shown under the labels of the connection it ends |
| `ActiveGauge.TranslationAppears` | internal/ebpf/loader.go:189-215 | a run in which the law fails: a translation appears while the connection is open |
| `ActiveGauge.IdleConnectionLost` | internal/store/store.go:475-486 | another: a prune finds the gauge of an open connection over age |
| `ActiveGauge.ClampNeverFires` | internal/store/store.go:166-179 | as long as the condition is met, by the close too, a close event finds its gauge above zero |
| `ActiveGauge.GaugeCountsOpen` | internal/ebpf/loader.go:189-215 | with nothing lost as well and SYN_SENT entered only from CLOSE, the gauge counts the open outbound connections |
| `ConnectCounters.ConnectsExact` | internal/ebpf/loader.go:209-213 | over every interleaving of transitions, losses, other calls and prunes, the failed counter of a destination is the number of its refused connections, and the successful counter of an endpoint that of the answered ones |
| `TcpEvents.TcpConserves` | internal/ebpf/loader.go:189-235 | conservation by kind: every total of the container moves by what the event says (bytes sent and received, retransmits, connects, failures, accepts, inbound bytes, both gauges), no other total moves, and only series with the labels of the peer change |
| `EventLoader.Loader.constructor` | internal/ebpf/loader.go:154-167 | empty tables with the source's TTLs, and requests keyed as the handlers key them |
| `EventLoader.Loader.ResolveContainer` | internal/ebpf/loader.go:519-539 | the container found by cgroup, else by process, else empty labels |
| `EventLoader.Loader.ActualDestination` | internal/ebpf/loader.go:182-187 | the latest surviving translation of the address, or the address |
| `EventLoader.Loader.DispatchNat` | internal/ebpf/loader.go:237-249 | a translation is recorded unless it is of dropped traffic, an end is missing or nothing is translated |
| `EventLoader.Loader.DispatchTcp` | internal/ebpf/loader.go:189-235 | an event that is not dropped adds to the history exactly its calls, under its container and the translated address, and moves the totals of the store's maps by exactly what it says |
| `EventLoader.Loader.Classify` | internal/ebpf/loader.go:262-279 | a registered port decides, else the flow's cached verdict, which stays alive, else the payload's, which is cached |
| `EventLoader.Loader.HandleProtocolRequest` | internal/ebpf/loader.go:316-339 | the request joins the traffic, which the tracker and the URL table stay equal to |
| `EventLoader.Loader.HandleProtocolResponse` | internal/ebpf/loader.go:341-376 | one observation of the duration pairing gives, or of the event's own, under the URL held for the flow; both tables stay equal to the traffic |
| `EventLoader.Loader.DispatchL7` | internal/ebpf/loader.go:251-287 | dropped traffic and payloads of no container or no protocol are not recorded; any other joins the traffic under its container and translated address, and a response adds one observation of its paired duration, URL and status |
| `EventLoader.Loader.PruneTranslations` | internal/ebpf/loader_linux.go:267 | the history of translations gains a prune |
| `EventLoader.Loader.PruneFlows` | internal/ebpf/loader_linux.go:268 | the history of flows gains a prune |
| `EventLoader.Loader.PruneUrls` | internal/ebpf/loader_linux.go:269 | the traffic gains a sweep of the URLs, and both tables stay equal to it |
| `EventLoader.Loader.PruneTracker` | internal/ebpf/loader_linux.go:270 | the traffic gains a sweep of the starts, and both tables stay equal to it |
| `EventLoader.Loader.DispatchDns` | internal/ebpf/loader.go:378-457 | a response payload adds exactly one lookup per question parsed and one mapping per address, IPv6 ones not when those are dropped, or nothing without a container or a parsed response |
| `L7Events.DurationIsPaired` | internal/ebpf/loader.go:353-356 | the duration a response reports is the one pairing over the traffic gives, or its own |
| `L7Events.ResponseCounted` | internal/ebpf/loader.go:341-376 | a response adds one request under its protocol, status, addresses and URL, and moves no other total and no other series |
| `L7Events.ResponseTimed` | internal/ebpf/loader.go:353-376 | and one duration to the histogram with its labels: the nanoseconds since the request it is paired with, or its own, as seconds |
| `EventLoader.Ipv6Exactly` | internal/ebpf/events.go:73-78 | IPv6 traffic is family 10 with a destination that is no IPv4 address in IPv6 form |
| `DnsEvents.TypeNameInjective` | internal/protocol/dns.go:149-172 | record types are told apart by their names |
| `DnsEvents.TypeNamed` | internal/protocol/dns.go:149-172 | a record type goes by the name of the RFC that assigns it, and the others by their number |
| `DnsEvents.DroppedByName` | internal/ebpf/loader.go:426-429 | a question is dropped by its type exactly when it is by its name |
| `DnsEvents.MessageCounted` | internal/ebpf/loader.go:409-437 | from the wire to the counters: after a response message every counter has gained one for each question sent that goes by its labels, under "ok" exactly for response code zero |
| `DnsEvents.AnswersMapped` | internal/ebpf/loader.go:438-455 | every address answered is mapped to its name afterwards, IPv6 ones not when those are dropped |
| `L7Parsing.StatusesBounded` | internal/protocol/classifier.go:66-81 | a status label is never empty, and one of four short of HTTP |
| `L7Parsing.StatusLabelExactly` | internal/ebpf/protocol_dispatch.go:56-79 | which status each protocol is counted under |
| `L7Parsing.SniffedExactly` | internal/ebpf/loader.go:296-314 | a request is taken for HTTP exactly by its request line or the HTTP/2 preface, a response exactly by its status |
| `L7Parsing.Http2Labelled` | internal/ebpf/protocol_dispatch.go:58-64 | from the wire to the label: an HTTP/2 response of frames is counted under the first status among its fields, and "unknown" without one |

## Left out

- eBPF loading, attachment, ring-buffer reading and the other BPF programs, `tcp_inbound.bpf.c` among them: kernel plumbing, and a weaker copy of the outbound machine.
- The capacity of `outbound_socks`: a refused insertion is a parameter, whatever its reason, so the results cover a full map and more.
- The delay between a transition and the dispatch of its event: an action of the gauge law is both, and one reader consumes events in order.
- Event record decoding (`internal/ebpf/events.go`): fixed-offset reads; an event comes with its fields.
- EventLoader.Loader.DispatchL7: the registry of ports, the text of endpoints, and the HTTP/1, Postgres and Redis parsers are parameters of the loader, single lookups, rendering and one-branch string checks.
- EventLoader.Loader.DispatchDns: the text of an address is a parameter of the loader.
- EventLoader.Loader.DispatchTcp: the listen event makes no call, as the map of listening sockets is not modelled.
- The statistics counters of the loader, and out-of-memory events.
- Prometheus collectors, `Snapshot`, configuration loading, the HTTP server, /proc and cgroup readers, discovery and the prober.
- Listen, latency, OOM, delay and resource-usage series: maps written whole, without bounded labels.
- `updatedAt` of counters: nothing reads it.
- Nil receivers of the TTL cache, which only partially built loaders have.
- float64 rounding: sums and bounds are reals, and counts are naturals.
- The store's separate maps are one map per lifetime, keyed by kind and labels; the one to three labels of a key are bounded by a loop over them.
