/** DNS payloads on their way into the store: `dispatchDNS` once the container is known, and `dnsTypeName`. */
module DnsEvents {
  import opened Bytes
  import opened Decimal
  import opened Labels
  import opened Sums
  import opened StoreModel
  import opened Quotient
  import MetricStore
  import opened DnsResponse

  /** `dnsTypeName` */
  function TypeName(kind: nat): string {
    match kind
    case 1 => "A"
    case 28 => "AAAA"
    case 5 => "CNAME"
    case 15 => "MX"
    case 16 => "TXT"
    case 33 => "SRV"
    case 12 => "PTR"
    case 2 => "NS"
    case 6 => "SOA"
    case _ => "TYPE" + FormatNat(kind)
  }

  predicate IsNamed(kind: nat) {
    kind in {1, 2, 5, 6, 12, 15, 16, 28, 33}
  }

  lemma UnnamedLong(kind: nat)
    requires !IsNamed(kind)
    ensures TypeName(kind) == "TYPE" + FormatNat(kind) && |TypeName(kind)| >= 5
    ensures TypeName(kind)[0] == 'T' && TypeName(kind)[1] == 'Y'
  {
  }

  /** The types with a name: section 3.2.2 of RFC 1035, RFC 2782 and RFC 3596. */
  predicate IsType(name: string, value: nat) {
    || (name == "A" && value == 1)
    || (name == "NS" && value == 2)
    || (name == "CNAME" && value == 5)
    || (name == "SOA" && value == 6)
    || (name == "PTR" && value == 12)
    || (name == "MX" && value == 15)
    || (name == "TXT" && value == 16)
    || (name == "AAAA" && value == 28)
    || (name == "SRV" && value == 33)
  }

  /** A type goes by its name, and by its number if it has none. */
  lemma TypeNamed(name: string, value: nat)
    ensures IsType(name, value) ==> TypeName(value) == name
    ensures (forall n :: !IsType(n, value)) ==> TypeName(value) == "TYPE" + FormatNat(value)
  {
    assert IsNamed(value) ==> IsType(TypeName(value), value);
  }

  /** Types are told apart by their names. */
  lemma TypeNameInjective(a: nat, b: nat)
    ensures TypeName(a) == TypeName(b) <==> a == b
  {
    if !IsNamed(a) && !IsNamed(b) {
      assert TypeName(a)[4..] == FormatNat(a) && TypeName(b)[4..] == FormatNat(b);
      ParseFormat(a);
      ParseFormat(b);
    } else if !IsNamed(a) {
      UnnamedLong(a);
    } else if !IsNamed(b) {
      UnnamedLong(b);
    }
  }

  type IpText = Ip -> string

  function QuestionSeries(c: Container, good: bool, q: Question): Series {
    DnsSeries(c, AsLabel(q.name), TypeName(q.kind), if good then "ok" else "error")
  }

  function AnswerSeries(c: Container, ipText: IpText, a: Answer): Series {
    IpFqdnSeries(c, ipText(a.ip), AsLabel(a.name))
  }

  /** A question to be counted: not one for IPv6 addresses when those are dropped. */
  predicate QuestionKept(drop: bool, q: Question) { !(drop && q.kind == TYPE_AAAA) }

  predicate AnswerKept(drop: bool, a: Answer) { !(drop && a.ip.V6?) }

  /** By name, as the source tests it. */
  lemma DroppedByName(q: Question)
    ensures QuestionKept(true, q) <==> TypeName(q.kind) != "AAAA"
  {
    TypeNameInjective(q.kind, TYPE_AAAA);
  }

  function QuestionSteps(c: Container, drop: bool, good: bool, qs: seq<Question>, now: int): seq<Step> {
    if qs == [] then []
    else
      var q := qs[|qs| - 1];
      QuestionSteps(c, drop, good, qs[..|qs| - 1], now) +
      if QuestionKept(drop, q) then [Step(Observe(QuestionSeries(c, good, q), 0.0), now)] else []
  }

  function AnswerSteps(c: Container, ipText: IpText, drop: bool, answers: seq<Answer>, now: int): seq<Step> {
    if answers == [] then []
    else
      var a := answers[|answers| - 1];
      AnswerSteps(c, ipText, drop, answers[..|answers| - 1], now) +
      if AnswerKept(drop, a) then [Step(Op.Set(AnswerSeries(c, ipText, a), 1), now)] else []
  }

  lemma QuestionStepsNext(c: Container, drop: bool, good: bool, qs: seq<Question>, now: int, i: nat, raw: Series)
    requires i < |qs| && raw == QuestionSeries(c, good, qs[i])
    ensures QuestionSteps(c, drop, good, qs[..i + 1], now) ==
            QuestionSteps(c, drop, good, qs[..i], now) + if QuestionKept(drop, qs[i]) then [Step(Observe(raw, 0.0), now)] else []
  {
    var more := qs[..i + 1];
    assert more[..i] == qs[..i] && more[i] == qs[i] && |more| == i + 1;
  }

  lemma AnswerStepsNext(c: Container, ipText: IpText, drop: bool, answers: seq<Answer>, now: int, i: nat, raw: Series)
    requires i < |answers| && raw == AnswerSeries(c, ipText, answers[i])
    ensures AnswerSteps(c, ipText, drop, answers[..i + 1], now) ==
            AnswerSteps(c, ipText, drop, answers[..i], now) + if AnswerKept(drop, answers[i]) then [Step(Op.Set(raw, 1), now)] else []
  {
    assert answers[..i + 1][..i] == answers[..i];
  }

  /** What a DNS payload adds to the store: a lookup per question, and a mapping per address. */
  function DnsSteps(c: Container, ipText: IpText, drop: bool, outcome: Outcome, now: int): seq<Step> {
    if c.id == "" || outcome.NotResponse? || !outcome.ok then []
    else
      QuestionSteps(c, drop, outcome.response.good, outcome.response.questions, now) +
      AnswerSteps(c, ipText, drop, outcome.response.answers, now)
  }

  method RecordQuestions(store: MetricStore.Store, c: Container, drop: bool, good: bool, qs: seq<Question>, now: int)
    requires store.Valid()
    modifies store
    ensures store.Valid() && store.history == old(store.history) + QuestionSteps(c, drop, good, qs, now)
  {
    for i := 0 to |qs|
      invariant store.Valid() && store.history == old(store.history) + QuestionSteps(c, drop, good, qs[..i], now)
    {
      var raw := QuestionSeries(c, good, qs[i]);
      QuestionStepsNext(c, drop, good, qs, now, i, raw);
      Rejoin(old(store.history), QuestionSteps(c, drop, good, qs[..i], now),
        if QuestionKept(drop, qs[i]) then [Step(Observe(raw, 0.0), now)] else []);
      if QuestionKept(drop, qs[i]) {
        store.Observe(raw, 0.0, now);
      }
    }
    assert qs[..|qs|] == qs;
  }

  method RecordAnswers(store: MetricStore.Store, c: Container, ipText: IpText, drop: bool, answers: seq<Answer>, now: int)
    requires store.Valid()
    modifies store
    ensures store.Valid() && store.history == old(store.history) + AnswerSteps(c, ipText, drop, answers, now)
  {
    for i := 0 to |answers|
      invariant store.Valid() && store.history == old(store.history) + AnswerSteps(c, ipText, drop, answers[..i], now)
    {
      var raw := AnswerSeries(c, ipText, answers[i]);
      AnswerStepsNext(c, ipText, drop, answers, now, i, raw);
      Rejoin(old(store.history), AnswerSteps(c, ipText, drop, answers[..i], now),
        if AnswerKept(drop, answers[i]) then [Step(Op.Set(raw, 1), now)] else []);
      if AnswerKept(drop, answers[i]) {
        store.Set(raw, 1, now);
      }
    }
    assert answers[..|answers|] == answers;
  }

  method RecordOutcome(store: MetricStore.Store, c: Container, ipText: IpText, drop: bool, outcome: Outcome, now: int)
    requires store.Valid()
    modifies store
    ensures store.Valid() && store.history == old(store.history) + DnsSteps(c, ipText, drop, outcome, now)
  {
    if c.id == "" || outcome.NotResponse? || !outcome.ok {
      return;
    }
    RecordQuestions(store, c, drop, outcome.response.good, outcome.response.questions, now);
    RecordAnswers(store, c, ipText, drop, outcome.response.answers, now);
    Rejoin(old(store.history), QuestionSteps(c, drop, outcome.response.good, outcome.response.questions, now),
      AnswerSteps(c, ipText, drop, outcome.response.answers, now));
  }

  method RecordPayload(store: MetricStore.Store, c: Container, ipText: IpText, drop: bool, payload: Text, now: int)
    requires store.Valid()
    modifies store
    ensures store.Valid() && store.history == old(store.history) + DnsSteps(c, ipText, drop, Parse(payload), now)
  {
    var outcome := ParseDnsResponse(payload);
    RecordOutcome(store, c, ipText, drop, outcome, now);
  }

  // ---- From the wire to the counters ----

  /** Where a question is counted, before labels are bounded. */
  function AskedSeries(c: Container, good: bool, q: Question): Series {
    Series(DnsRequests(TypeName(q.kind), if good then "ok" else "error"), c, [Tag(Fqdns, AsLabel(q.name))])
  }

  /** The questions shown as `k` by `f`, but those for IPv6 addresses when they are dropped. */
  function Asked(c: Container, drop: bool, good: bool, qs: seq<Question>, f: Series -> Series, k: Series): nat {
    if qs == [] then 0
    else
      var q := qs[|qs| - 1];
      Asked(c, drop, good, qs[..|qs| - 1], f, k) +
      if !(drop && TypeName(q.kind) == "AAAA") && f(AskedSeries(c, good, q)) == k then 1 else 0
  }

  lemma {:induction false} QuestionsCounted(
    steps: seq<Step>, c: Container, drop: bool, good: bool, qs: seq<Question>, now: int, f: Series -> Series, k: Series)
    ensures Counted(steps + QuestionSteps(c, drop, good, qs, now), f, k) ==
            Counted(steps, f, k) + Asked(c, drop, good, qs, f, k)
    decreases |qs|
  {
    if qs == [] {
      assert steps + [] == steps;
    } else {
      var init, q := qs[..|qs| - 1], qs[|qs| - 1];
      var before := steps + QuestionSteps(c, drop, good, init, now);
      QuestionsCounted(steps, c, drop, good, init, now, f, k);
      if drop {
        DroppedByName(q);
      }
      if QuestionKept(drop, q) {
        var step := Step(Observe(QuestionSeries(c, good, q), 0.0), now);
        assert steps + QuestionSteps(c, drop, good, qs, now) == before + [step];
      } else {
        assert QuestionSteps(c, drop, good, qs, now) == QuestionSteps(c, drop, good, init, now);
      }
    }
  }

  lemma {:induction false} AnswersNotCounted(
    steps: seq<Step>, c: Container, ipText: IpText, drop: bool, answers: seq<Answer>, now: int, f: Series -> Series, k: Series)
    ensures Counted(steps + AnswerSteps(c, ipText, drop, answers, now), f, k) == Counted(steps, f, k)
    decreases |answers|
  {
    if answers == [] {
      assert steps + [] == steps;
    } else {
      var init, a := answers[..|answers| - 1], answers[|answers| - 1];
      var before := steps + AnswerSteps(c, ipText, drop, init, now);
      AnswersNotCounted(steps, c, ipText, drop, init, now, f, k);
      if AnswerKept(drop, a) {
        var step := Step(Op.Set(AnswerSeries(c, ipText, a), 1), now);
        assert steps + AnswerSteps(c, ipText, drop, answers, now) == before + [step];
      } else {
        assert AnswerSteps(c, ipText, drop, answers, now) == AnswerSteps(c, ipText, drop, init, now);
      }
    }
  }

  lemma OutcomeCounted(
    steps: seq<Step>, c: Container, ipText: IpText, drop: bool, outcome: Outcome, now: int, f: Series -> Series, k: Series)
    requires c.id != "" && outcome.Parsed? && (outcome.ok || outcome.response.questions == [])
    ensures Counted(steps + DnsSteps(c, ipText, drop, outcome, now), f, k) ==
            Counted(steps, f, k) + Asked(c, drop, outcome.response.good, outcome.response.questions, f, k)
  {
    if outcome.ok {
      var r := outcome.response;
      var asked, mapped := QuestionSteps(c, drop, r.good, r.questions, now), AnswerSteps(c, ipText, drop, r.answers, now);
      QuestionsCounted(steps, c, drop, r.good, r.questions, now, f, k);
      AnswersNotCounted(steps + asked, c, ipText, drop, r.answers, now, f, k);
      Rejoin(steps, asked, mapped);
    } else {
      assert steps + [] == steps;
    }
  }

  /**
   * From the wire to the counters: after a response message, every counter is what was counted before it
   * and one more for every question sent that goes by its labels, under "ok" exactly if the response code
   * is zero; up to the first name that takes more than eight pointers.
   */
  lemma MessageCounted(
    cfg: Config, history: seq<Step>, c: Container, ipText: IpText, drop: bool, now: int,
    p: Text, h: Header, qs: seq<SentQuestion>, qAt: seq<nat>, rs: seq<SentRecord>, rAt: seq<nat>, k: Series)
    requires c.id != "" && Carries(p, h, qs, qAt, rs, rAt)
    ensures var steps := history + DnsSteps(c, ipText, drop, Parse(p), now);
            var l := RunLedger(cfg, steps);
            var f := Relabel(l.seen);
            Get(l.counters, k) ==
            Counted(history, f, k) + Asked(c, drop, h.responseCode == 0, SentQuestions(LeadingQuestions(qs)), f, k)
  {
    var steps := history + DnsSteps(c, ipText, drop, Parse(p), now);
    var f := Relabel(RunLedger(cfg, steps).seen);
    ParseInvertsEncoding(p, h, qs, qAt, rs, rAt);
    OutcomeCounted(history, c, ipText, drop, Parse(p), now, f, k);
    CounterExact(cfg, steps, k);
  }

  /** A name is mapped to an address, under labels that are decided. */
  ghost predicate Maps(cfg: Config, s: State, raw: Series) {
    Level(s.gauges, Relabelled(s.ledger.seen, raw)) == 1 && SettledSeries(cfg, s.ledger.seen, raw)
  }

  lemma MappingMade(cfg: Config, steps: seq<Step>, raw: Series, now: int)
    ensures Maps(cfg, Run(cfg, steps + [Step(Op.Set(raw, 1), now)]), raw)
  {
    RunNext(cfg, steps, Step(Op.Set(raw, 1), now));
    BindRelabels(cfg, Run(cfg, steps).ledger.seen, raw);
  }

  lemma MappingStays(cfg: Config, steps: seq<Step>, raw: Series, other: Series, now: int)
    requires Maps(cfg, Run(cfg, steps), raw)
    ensures Maps(cfg, Run(cfg, steps + [Step(Op.Set(other, 1), now)]), raw)
  {
    var seen := Run(cfg, steps).ledger.seen;
    RunNext(cfg, steps, Step(Op.Set(other, 1), now));
    BindGrows(cfg, seen, other, raw.container.id);
    RelabelledForever(cfg, seen, Bind(cfg, seen, other).seen, raw);
  }

  /** Where an address is mapped, before labels are bounded. */
  function MappedSeries(c: Container, ipText: IpText, a: Answer): Series {
    Series(IpToFqdn, c, [Tag(Fqdns, AsLabel(a.name)), Tag(Ips, ipText(a.ip))])
  }

  lemma AnswerStepsMore(history: seq<Step>, c: Container, ipText: IpText, drop: bool, answers: seq<Answer>, now: int)
    requires answers != []
    ensures var init, a := answers[..|answers| - 1], answers[|answers| - 1];
            history + AnswerSteps(c, ipText, drop, answers, now) ==
            history + AnswerSteps(c, ipText, drop, init, now) +
            if drop && a.ip.V6? then [] else [Step(Op.Set(MappedSeries(c, ipText, a), 1), now)]
  {
  }

  ghost predicate MapsAll(cfg: Config, s: State, c: Container, ipText: IpText, drop: bool, answers: seq<Answer>) {
    forall i :: 0 <= i < |answers| && !(drop && answers[i].ip.V6?) ==> Maps(cfg, s, MappedSeries(c, ipText, answers[i]))
  }

  lemma MapsAllMore(cfg: Config, steps: seq<Step>, c: Container, ipText: IpText, drop: bool, answers: seq<Answer>, now: int)
    requires answers != [] && MapsAll(cfg, Run(cfg, steps), c, ipText, drop, answers[..|answers| - 1])
    ensures var last := MappedSeries(c, ipText, answers[|answers| - 1]);
            MapsAll(cfg, Run(cfg, steps + [Step(Op.Set(last, 1), now)]), c, ipText, drop, answers)
  {
    var init, last := answers[..|answers| - 1], MappedSeries(c, ipText, answers[|answers| - 1]);
    var after := Run(cfg, steps + [Step(Op.Set(last, 1), now)]);
    forall i | 0 <= i < |answers| && !(drop && answers[i].ip.V6?)
      ensures Maps(cfg, after, MappedSeries(c, ipText, answers[i]))
    {
      if i < |init| {
        assert init[i] == answers[i];
        MappingStays(cfg, steps, MappedSeries(c, ipText, answers[i]), last, now);
      } else {
        MappingMade(cfg, steps, last, now);
      }
    }
  }

  /** Every address answered is mapped to its name afterwards, but IPv6 ones when they are dropped. */
  lemma {:induction false} AnswersMapped(
    cfg: Config, history: seq<Step>, c: Container, ipText: IpText, drop: bool, answers: seq<Answer>, now: int)
    ensures MapsAll(cfg, Run(cfg, history + AnswerSteps(c, ipText, drop, answers, now)), c, ipText, drop, answers)
    decreases |answers|
  {
    if answers == [] {
    } else {
      var init, a := answers[..|answers| - 1], answers[|answers| - 1];
      var before := history + AnswerSteps(c, ipText, drop, init, now);
      AnswersMapped(cfg, history, c, ipText, drop, init, now);
      AnswerStepsMore(history, c, ipText, drop, answers, now);
      if drop && a.ip.V6? {
        assert before + [] == before;
      } else {
        MapsAllMore(cfg, before, c, ipText, drop, answers, now);
      }
    }
  }
}
