/** `ParseDNSResponse`: sections 4.1.1 to 4.1.3 of RFC 1035 on captures that may be cut short. */
module DnsResponse {
  import opened Bytes
  import opened DnsName

  const HEADER_LENGTH: nat := 12
  const TYPE_A: nat := 1
  const TYPE_AAAA: nat := 28

  datatype Ip = V4(octets: Text) | V6(octets: Text)
  /** `kind` is the 16-bit query type. */
  datatype Question = Question(name: Text, kind: nat)
  datatype Answer = Answer(name: Text, ip: Ip)

  /** `good` is the status label: "ok" for response code zero, "error" for any other. */
  datatype Response = Response(good: bool, questions: seq<Question>, answers: seq<Answer>)

  /** `strings.TrimSuffix(name, ".")` */
  function TrimDot(name: Text): Text {
    if name != [] && name[|name| - 1] == DOT then name[..|name| - 1] else name
  }

  /** One question at `offset`: the entry and the offset after it. */
  function QuestionAt(p: Text, offset: nat): Option<(Question, nat)> {
    match Read(p, offset, 0)
    case None => None
    case Some(n) =>
      if n.next + 4 > |p| then None
      else Some((Question(TrimDot(n.text), Uint16(p, n.next)), n.next + 4))
  }

  /** One resource record at `offset`: its address if it carries one, and the offset after it. */
  function RecordAt(p: Text, offset: nat): Option<(Option<Answer>, nat)> {
    match Read(p, offset, 0)
    case None => None
    case Some(n) =>
      if n.next + 10 > |p| then None
      else
        var kind, length, start := Uint16(p, n.next), Uint16(p, n.next + 8), n.next + 10;
        if start + length > |p| then None
        else
          var data := p[start..start + length];
          var answer :=
            if kind == TYPE_A && length == 4 then Some(Answer(TrimDot(n.text), V4(data)))
            else if kind == TYPE_AAAA && length == 16 then Some(Answer(TrimDot(n.text), V6(data)))
            else None;
          Some((answer, start + length))
  }

  /** The questions read, where reading stopped, and whether it stopped for lack of questions or bytes. */
  datatype QuestionRun = QuestionRun(questions: seq<Question>, offset: nat, intact: bool)

  function Questions(p: Text, offset: nat, count: nat): (r: QuestionRun)
    decreases count
  {
    if count == 0 || offset >= |p| then QuestionRun([], offset, true)
    else
      match QuestionAt(p, offset)
      case None => QuestionRun([], offset, false)
      case Some((q, next)) =>
        var rest := Questions(p, next, count - 1);
        rest.(questions := [q] + rest.questions)
  }

  /** A record without an address adds nothing. */
  function Add(a: Option<Answer>, rest: seq<Answer>): (r: seq<Answer>)
    ensures |r| == |rest| + (if a.Some? then 1 else 0)
  {
    if a.Some? then [a.value] + rest else rest
  }

  function Answers(p: Text, offset: nat, count: nat): (r: seq<Answer>)
    decreases count
  {
    if count == 0 || offset >= |p| then []
    else
      match RecordAt(p, offset)
      case None => []
      case Some((answer, next)) => Add(answer, Answers(p, next, count - 1))
  }

  predicate IsResponse(p: Text) {
    |p| >= HEADER_LENGTH && p[2] >= 128
  }

  datatype Outcome = NotResponse | Parsed(response: Response, ok: bool)

  function Parse(p: Text): (r: Outcome) {
    if !IsResponse(p) then NotResponse
    else
      var good := p[3] % 16 == 0;
      var run := Questions(p, HEADER_LENGTH, Uint16(p, 4));
      if !run.intact then Parsed(Response(good, run.questions, []), run.questions != [])
      else Parsed(Response(good, run.questions, Answers(p, run.offset, Uint16(p, 6))), true)
  }

  /** `ParseDNSResponse` */
  method ParseDnsResponse(p: Text) returns (outcome: Outcome)
    ensures outcome == Parse(p)
    ensures outcome.Parsed? <==> exists h :: At(p, 0, EncodeHeader(h)) && h.response
  {
    ParsedExactly(p);
    if |p| < HEADER_LENGTH {
      return NotResponse;
    }
    if p[2] < 128 {
      return NotResponse;
    }
    var good := p[3] % 16 == 0;
    var run := ReadQuestions(p, Uint16(p, 4));
    if !run.intact {
      return Parsed(Response(good, run.questions, []), run.questions != []);
    }
    var answers := ReadAnswers(p, run.offset, Uint16(p, 6));
    return Parsed(Response(good, run.questions, answers), true);
  }

  method ReadQuestion(p: Text, offset: nat) returns (r: Option<(Question, nat)>)
    ensures r == QuestionAt(p, offset)
  {
    var name, next, ok := ReadName(p, offset);
    if !ok || next + 4 > |p| {
      return None;
    }
    return Some((Question(TrimDot(name), Uint16(p, next)), next + 4));
  }

  method ReadRecord(p: Text, offset: nat) returns (r: Option<(Option<Answer>, nat)>)
    ensures r == RecordAt(p, offset)
  {
    var name, next, ok := ReadName(p, offset);
    if !ok || next + 10 > |p| {
      return None;
    }
    var kind, length, data := Uint16(p, next), Uint16(p, next + 8), next + 10;
    if data + length > |p| {
      return None;
    }
    var answer: Option<Answer> := None;
    if kind == TYPE_A && length == 4 {
      answer := Some(Answer(TrimDot(name), V4(p[data..data + 4])));
    } else if kind == TYPE_AAAA && length == 16 {
      answer := Some(Answer(TrimDot(name), V6(p[data..data + 16])));
    }
    return Some((answer, data + length));
  }

  /** The question loop. */
  method ReadQuestions(p: Text, count: nat) returns (run: QuestionRun)
    ensures run == Questions(p, HEADER_LENGTH, count)
  {
    var questions: seq<Question>, offset: nat, left: nat := [], HEADER_LENGTH, count;
    while left > 0 && offset < |p|
      invariant Questions(p, HEADER_LENGTH, count) == Continue(questions, Questions(p, offset, left))
    {
      var step := ReadQuestion(p, offset);
      if step.None? {
        return QuestionRun(questions, offset, false);
      }
      Rejoin(questions, [step.value.0], Questions(p, step.value.1, left - 1).questions);
      questions := questions + [step.value.0];
      offset := step.value.1;
      left := left - 1;
    }
    return QuestionRun(questions, offset, true);
  }

  ghost function Continue(done: seq<Question>, rest: QuestionRun): QuestionRun {
    QuestionRun(done + rest.questions, rest.offset, rest.intact)
  }

  lemma AnswersDone(p: Text, offset: nat, left: nat)
    requires left == 0 || offset >= |p| || RecordAt(p, offset).None?
    ensures Answers(p, offset, left) == []
  {
  }

  /** One record more. */
  lemma AnswersTake(p: Text, offset: nat, left: nat, done: seq<Answer>, answer: Option<Answer>, next: nat)
    requires left > 0 && offset < |p| && RecordAt(p, offset) == Some((answer, next))
    ensures done + Answers(p, offset, left) ==
            (if answer.Some? then done + [answer.value] else done) + Answers(p, next, left - 1)
  {
    var rest := Answers(p, next, left - 1);
    if answer.Some? {
      Rejoin(done, [answer.value], rest);
    }
  }

  /** The answer loop. */
  method ReadAnswers(p: Text, start: nat, count: nat) returns (answers: seq<Answer>)
    ensures answers == Answers(p, start, count)
  {
    var offset: nat, left: nat := start, count;
    answers := [];
    while left > 0 && offset < |p|
      invariant Answers(p, start, count) == answers + Answers(p, offset, left)
    {
      var step := ReadRecord(p, offset);
      if step.None? {
        AnswersDone(p, offset, left);
        return;
      }
      AnswersTake(p, offset, left, answers, step.value.0, step.value.1);
      if step.value.0.Some? {
        answers := answers + [step.value.0.value];
      }
      offset := step.value.1;
      left := left - 1;
    }
    AnswersDone(p, offset, left);
  }

  // ---- Truncation never invents data ----

  lemma QuestionExtends(p: Text, more: Text, offset: nat)
    requires QuestionAt(p, offset).Some?
    ensures QuestionAt(p + more, offset) == QuestionAt(p, offset)
  {
    ReadExtends(p, more, offset, 0);
  }

  lemma RecordExtends(p: Text, more: Text, offset: nat)
    requires RecordAt(p, offset).Some?
    ensures RecordAt(p + more, offset) == RecordAt(p, offset)
  {
    ReadExtends(p, more, offset, 0);
    var next := Read(p, offset, 0).value.next;
    var start, length := next + 10, Uint16(p, next + 8);
    assert (p + more)[start..start + length] == p[start..start + length];
  }

  lemma {:induction false} QuestionsExtend(p: Text, more: Text, offset: nat, count: nat)
    ensures Questions(p, offset, count).questions <= Questions(p + more, offset, count).questions
    ensures var run := Questions(p, offset, count);
            run.intact && run.offset < |p| ==> Questions(p + more, offset, count) == run
    decreases count
  {
    if count == 0 || offset >= |p| || QuestionAt(p, offset).None? {
    } else {
      QuestionExtends(p, more, offset);
      var (q, next) := QuestionAt(p, offset).value;
      QuestionsExtend(p, more, next, count - 1);
    }
  }

  lemma {:induction false} AnswersExtend(p: Text, more: Text, offset: nat, count: nat)
    ensures Answers(p, offset, count) <= Answers(p + more, offset, count)
    decreases count
  {
    if count == 0 || offset >= |p| || RecordAt(p, offset).None? {
    } else {
      RecordExtends(p, more, offset);
      var (answer, next) := RecordAt(p, offset).value;
      AnswersExtend(p, more, next, count - 1);
    }
  }

  /** What a cut of at least a header yields is a prefix of what the whole yields, with the same status. */
  lemma TruncationSafe(p: Text, more: Text)
    requires |p| >= HEADER_LENGTH
    ensures Parse(p).Parsed? <==> Parse(p + more).Parsed?
    ensures Parse(p).Parsed? ==>
              var c, w := Parse(p).response, Parse(p + more).response;
              && c.good == w.good
              && c.questions <= w.questions
              && c.answers <= w.answers
  {
    var questions, answers := Uint16(p, 4), Uint16(p, 6);
    assert Uint16(p + more, 4) == questions && Uint16(p + more, 6) == answers;
    var run := Questions(p, HEADER_LENGTH, questions);
    QuestionsExtend(p, more, HEADER_LENGTH, questions);
    if IsResponse(p) {
      if run.intact && run.offset < |p| {
        AnswersExtend(p, more, run.offset, answers);
      } else {
        assert Parse(p).response.answers == [];
      }
    }
  }

  // ---- Bounds ----

  lemma StepBounds(p: Text, offset: nat)
    ensures QuestionAt(p, offset).Some? ==> offset + 5 <= QuestionAt(p, offset).value.1 <= |p|
    ensures RecordAt(p, offset).Some? ==>
              offset + (if RecordAt(p, offset).value.0.Some? then 15 else 11) <= RecordAt(p, offset).value.1 <= |p|
  {
    if Read(p, offset, 0).Some? {
      ReadBounds(p, offset);
    }
  }

  lemma {:induction false} QuestionsBounded(p: Text, offset: nat, count: nat)
    requires offset <= |p|
    ensures offset + 5 * |Questions(p, offset, count).questions| <= Questions(p, offset, count).offset <= |p|
    ensures |Questions(p, offset, count).questions| <= count
    decreases count
  {
    if count == 0 || offset >= |p| {
    } else {
      StepBounds(p, offset);
      if QuestionAt(p, offset).Some? {
        QuestionsBounded(p, QuestionAt(p, offset).value.1, count - 1);
      }
    }
  }

  lemma {:induction false} AnswersBounded(p: Text, offset: nat, count: nat)
    requires offset <= |p|
    ensures 15 * |Answers(p, offset, count)| <= |p| - offset
    ensures |Answers(p, offset, count)| <= count
    decreases count
  {
    if count == 0 || offset >= |p| {
    } else {
      StepBounds(p, offset);
      if RecordAt(p, offset).Some? {
        AnswersBounded(p, RecordAt(p, offset).value.1, count - 1);
      }
    }
  }

  /** Output is bounded by the bytes seen, whatever the header's counts claim. */
  lemma OutputBounded(p: Text)
    requires Parse(p).Parsed?
    ensures 5 * |Parse(p).response.questions| + 15 * |Parse(p).response.answers| <= |p| - HEADER_LENGTH
    ensures |Parse(p).response.questions| <= Uint16(p, 4)
    ensures |Parse(p).response.answers| <= Uint16(p, 6)
  {
    QuestionsBounded(p, HEADER_LENGTH, Uint16(p, 4));
    AnswersBounded(p, Questions(p, HEADER_LENGTH, Uint16(p, 4)).offset, Uint16(p, 6));
  }

  // ---- Round trip ----

  /** A label as the parser understands one; RFC 1035 stops at 63 octets. */
  type LabelText = l: Text | 1 <= |l| < 192 witness [97]

  function EncodeLabels(labels: seq<LabelText>): Text {
    if labels == [] then [] else [|labels[0]|] + (labels[0] + EncodeLabels(labels[1..]))
  }

  function NameText(labels: seq<LabelText>): Text {
    if labels == [] then [] else labels[0] + [DOT] + NameText(labels[1..])
  }

  function EncodeUint16(n: nat): Text
    requires n < 0x1_0000
  {
    [n / 256, n % 256]
  }

  type Word = n: nat | n < 0x1_0000

  /**
   * The three forms of section 4.1.4: labels ending in a zero octet, labels ending in a pointer,
   * and a pointer alone. `rest` is the name that stands at `target`, which may end in a pointer too.
   */
  datatype SentName =
    | Inline(labels: seq<LabelText>)
    | Compressed(labels: seq<LabelText>, target: nat, rest: SentName)

  function OwnerText(n: SentName): Text {
    match n
    case Inline(labels) => NameText(labels)
    case Compressed(labels, _, rest) => NameText(labels) + OwnerText(rest)
  }

  /** The labels of a name, its own and those it points to. */
  function OwnerLabels(n: SentName): seq<LabelText> {
    match n
    case Inline(labels) => labels
    case Compressed(labels, _, rest) => labels + OwnerLabels(rest)
  }

  /** Labels with a dot between any two of them. */
  function Dotted(labels: seq<LabelText>): Text {
    if labels == [] then []
    else if |labels| == 1 then labels[0]
    else labels[0] + [46] + Dotted(labels[1..])
  }

  lemma {:induction false} NameTextDots(labels: seq<LabelText>)
    requires labels != []
    ensures NameText(labels) == Dotted(labels) + [DOT]
  {
    if |labels| == 1 {
      assert NameText(labels[1..]) == [];
    } else {
      NameTextDots(labels[1..]);
      Rejoin(labels[0] + [DOT], Dotted(labels[1..]), [DOT]);
    }
  }

  lemma {:induction false} NameTextAppends(a: seq<LabelText>, b: seq<LabelText>)
    ensures NameText(a + b) == NameText(a) + NameText(b)
  {
    if a == [] {
      assert a + b == b;
    } else {
      NameTextAppends(a[1..], b);
      assert (a + b)[1..] == a[1..] + b;
      Rejoin(a[0] + [DOT], NameText(a[1..]), NameText(b));
    }
  }

  lemma {:induction false} OwnerTextIs(n: SentName)
    ensures OwnerText(n) == NameText(OwnerLabels(n))
  {
    match n
    case Inline(_) =>
    case Compressed(labels, _, rest) =>
      OwnerTextIs(rest);
      NameTextAppends(labels, OwnerLabels(rest));
  }

  /** Without the last dot, a name is its labels with dots between them. */
  lemma TrimmedOwner(n: SentName)
    ensures TrimDot(OwnerText(n)) == Dotted(OwnerLabels(n))
  {
    OwnerTextIs(n);
    if OwnerLabels(n) != [] {
      NameTextDots(OwnerLabels(n));
    }
  }

  /** How many pointers lead through the name. */
  function Depth(n: SentName): nat {
    match n
    case Inline(_) => 0
    case Compressed(_, _, rest) => 1 + Depth(rest)
  }

  predicate Readable(n: SentName) {
    Depth(n) <= 8
  }

  predicate Addressable(n: SentName) {
    n.Compressed? ==> n.target < 0x4000
  }

  function EncodePointer(target: nat): (r: Text)
    requires target < 0x4000
    ensures |r| == 2
  {
    [192 + target / 256, target % 256]
  }

  function EncodeEnding(n: SentName): (r: Text)
    requires Addressable(n)
  {
    match n
    case Inline(_) => [0]
    case Compressed(_, target, _) => EncodePointer(target)
  }

  /** The octets a name takes where it stands; what it points to stands elsewhere. */
  function NameLength(n: SentName): (r: nat)
    ensures r >= 1
  {
    |EncodeLabels(n.labels)| + if n.Inline? then 1 else 2
  }

  datatype SentQuestion = SentQuestion(name: SentName, kind: Word)
  datatype SentRecord = SentRecord(name: SentName, kind: Word, data: Text)

  function SentQuestionView(q: SentQuestion): Question {
    Question(Dotted(OwnerLabels(q.name)), q.kind)
  }

  /** The address a record carries, if any: types 1 and 28 are A and AAAA. */
  function SentAnswer(r: SentRecord): Option<Answer> {
    if r.kind == 1 && |r.data| == 4 then Some(Answer(Dotted(OwnerLabels(r.name)), V4(r.data)))
    else if r.kind == 28 && |r.data| == 16 then Some(Answer(Dotted(OwnerLabels(r.name)), V6(r.data)))
    else None
  }

  function SentQuestions(qs: seq<SentQuestion>): seq<Question> {
    if qs == [] then [] else [SentQuestionView(qs[0])] + SentQuestions(qs[1..])
  }

  function SentAnswers(rs: seq<SentRecord>): seq<Answer> {
    if rs == [] then []
    else if SentAnswer(rs[0]).Some? then [SentAnswer(rs[0]).value] + SentAnswers(rs[1..])
    else SentAnswers(rs[1..])
  }

  /** The questions before the first whose name takes too many pointers. */
  function LeadingQuestions(qs: seq<SentQuestion>): (r: seq<SentQuestion>)
    ensures r <= qs
    ensures r == qs <==> forall i :: 0 <= i < |qs| ==> Readable(qs[i].name)
  {
    if qs == [] || !Readable(qs[0].name) then [] else [qs[0]] + LeadingQuestions(qs[1..])
  }

  function LeadingRecords(rs: seq<SentRecord>): (r: seq<SentRecord>)
    ensures r <= rs
    ensures r == rs <==> forall i :: 0 <= i < |rs| ==> Readable(rs[i].name)
  {
    if rs == [] || !Readable(rs[0].name) then [] else [rs[0]] + LeadingRecords(rs[1..])
  }

  // -- Layout in a payload --

  /** The bytes `e` stand at `offset` of `p`. */
  predicate At(p: Text, offset: nat, e: Text) {
    offset + |e| <= |p| && p[offset..offset + |e|] == e
  }

  /** A name stands at `offset`, and what it points to stands where it points, and so on. */
  predicate NameLaidOut(p: Text, offset: nat, n: SentName)
    decreases n
  {
    && Addressable(n)
    && At(p, offset, EncodeLabels(n.labels))
    && At(p, offset + |EncodeLabels(n.labels)|, EncodeEnding(n))
    && (n.Compressed? ==> NameLaidOut(p, n.target, n.rest))
  }

  /** Section 4.1.2: the name, the type, and two octets of class. */
  predicate QuestionLaidOut(p: Text, offset: nat, q: SentQuestion, next: nat) {
    && NameLaidOut(p, offset, q.name)
    && var body := offset + NameLength(q.name);
       At(p, body, EncodeUint16(q.kind)) && next == body + 4 <= |p|
  }

  /** Section 4.1.3 behind the name: the type, six octets of class and time to live, the length, and the data. */
  predicate RecordBody(p: Text, body: nat, r: SentRecord, next: nat) {
    && |r.data| < 0x1_0000
    && At(p, body, EncodeUint16(r.kind))
    && At(p, body + 8, EncodeUint16(|r.data|))
    && At(p, body + 10, r.data)
    && next == body + 10 + |r.data|
  }

  predicate RecordLaidOut(p: Text, offset: nat, r: SentRecord, next: nat) {
    NameLaidOut(p, offset, r.name) && RecordBody(p, offset + NameLength(r.name), r, next)
  }

  type Nibble = n: nat | n < 16
  type Reserved = n: nat | n < 8

  /** Section 4.1.1; the four counts are of questions, answers, authorities and additional records. */
  datatype Header = Header(
    id: Word, response: bool, opcode: Nibble, authoritative: bool, truncated: bool, recursionDesired: bool,
    recursionAvailable: bool, reserved: Reserved, responseCode: Nibble, qd: Word, an: Word, ns: Word, ar: Word)

  function Bit(on: bool, weight: nat): nat {
    if on then weight else 0
  }

  function FlagsHigh(h: Header): Byte {
    Bit(h.response, 128) + h.opcode * 8 + Bit(h.authoritative, 4) + Bit(h.truncated, 2) + Bit(h.recursionDesired, 1)
  }

  function FlagsLow(h: Header): Byte {
    Bit(h.recursionAvailable, 128) + h.reserved * 16 + h.responseCode
  }

  function EncodeHeader(h: Header): (r: Text)
    ensures |r| == 12
  {
    EncodeUint16(h.id) + [FlagsHigh(h), FlagsLow(h)]
    + EncodeUint16(h.qd) + EncodeUint16(h.an) + EncodeUint16(h.ns) + EncodeUint16(h.ar)
  }

  /**
   * A message in a payload: a response header, then questions and records back to back, the i-th
   * from `qAt[i]` to `qAt[i + 1]` and from `rAt[i]` to `rAt[i + 1]`, then anything.
   */
  ghost predicate Carries(
    p: Text, h: Header, qs: seq<SentQuestion>, qAt: seq<nat>, rs: seq<SentRecord>, rAt: seq<nat>)
  {
    && At(p, 0, EncodeHeader(h)) && h.response && h.qd == |qs| && h.an == |rs|
    && |qAt| == |qs| + 1 && qAt[0] == 12
    && |rAt| == |rs| + 1 && rAt[0] == qAt[|qs|]
    && (forall i :: 0 <= i < |qs| ==> QuestionLaidOut(p, qAt[i], qs[i], qAt[i + 1]))
    && (forall i :: 0 <= i < |rs| ==> RecordLaidOut(p, rAt[i], rs[i], rAt[i + 1]))
  }

  lemma AtParts(p: Text, offset: nat, a: Text, b: Text)
    requires At(p, offset, a + b)
    ensures At(p, offset, a) && At(p, offset + |a|, b)
  {
    assert p[offset..offset + |a|] == (a + b)[..|a|] == a;
    assert p[offset + |a|..offset + |a| + |b|] == (a + b)[|a|..] == b;
  }

  lemma OctetAt(p: Text, offset: nat, b: Byte)
    requires At(p, offset, [b])
    ensures offset < |p| && p[offset] == b
  {
    assert p[offset] == p[offset..offset + 1][0];
  }

  lemma Uint16At(p: Text, offset: nat, n: Word)
    requires At(p, offset, EncodeUint16(n))
    ensures offset + 2 <= |p| && Uint16(p, offset) == n
  {
    assert p[offset] == p[offset..offset + 2][0] && p[offset + 1] == p[offset..offset + 2][1];
  }

  /** What labels in front make of the name after them. */
  function Prefixed(front: Text, ending: Option<Name>): Option<Name> {
    match ending
    case None => None
    case Some(n) => Some(Name(front + n.text, n.next))
  }

  lemma ReadLabel(p: Text, offset: nat, l: LabelText, jumps: nat)
    requires jumps <= MAX_JUMPS && At(p, offset, [|l|]) && At(p, offset + 1, l)
    ensures Read(p, offset, jumps) == Prefixed(l + [DOT], Read(p, offset + 1 + |l|, jumps))
  {
    OctetAt(p, offset, |l|);
  }

  lemma PointerAt(p: Text, offset: nat, target: nat)
    requires target < 0x4000 && At(p, offset, EncodePointer(target))
    ensures offset + 2 <= |p| && IsPointer(p[offset]) && Target(p, offset) == target
  {
    assert p[offset] == p[offset..offset + 2][0] && p[offset + 1] == p[offset..offset + 2][1];
  }

  /** What a pointer after `front` makes of the name found where it leads. */
  function Pointed(front: Text, found: Option<Name>, next: nat): Option<Name> {
    match found
    case None => None
    case Some(n) => Some(Name(front + n.text, next))
  }

  lemma ReadPointer(p: Text, offset: nat, target: nat, jumps: nat)
    requires jumps <= MAX_JUMPS && target < 0x4000 && At(p, offset, EncodePointer(target))
    ensures Read(p, offset, jumps) ==
            if jumps == MAX_JUMPS then None else Pointed([], Read(p, target, jumps + 1), offset + 2)
  {
    PointerAt(p, offset, target);
    assert jumps < MAX_JUMPS && Read(p, target, jumps + 1).Some? ==>
             [] + Read(p, target, jumps + 1).value.text == Read(p, target, jumps + 1).value.text;
  }

  lemma FirstLabelAt(p: Text, offset: nat, labels: seq<LabelText>)
    requires labels != [] && At(p, offset, EncodeLabels(labels))
    ensures At(p, offset, [|labels[0]|]) && At(p, offset + 1, labels[0])
    ensures At(p, offset + 1 + |labels[0]|, EncodeLabels(labels[1..]))
    ensures |EncodeLabels(labels)| == 1 + |labels[0]| + |EncodeLabels(labels[1..])|
  {
    var first: Text, tail := [|labels[0]|], EncodeLabels(labels[1..]);
    AtParts(p, offset, first, labels[0] + tail);
    AtParts(p, offset + 1, labels[0], tail);
  }

  lemma PrefixedTwice(a: Text, b: Text, ending: Option<Name>)
    ensures Prefixed(a, Prefixed(b, ending)) == Prefixed(a + b, ending)
  {
    if ending.Some? {
      Rejoin(a, b, ending.value.text);
    }
  }

  lemma PrefixedNothing(ending: Option<Name>)
    ensures Prefixed([], ending) == ending
  {
    if ending.Some? {
      assert [] + ending.value.text == ending.value.text;
    }
  }

  lemma LabelStep(p: Text, offset: nat, l: LabelText, front: Text, end: nat, jumps: nat)
    requires jumps <= MAX_JUMPS && At(p, offset, [|l|]) && At(p, offset + 1, l)
    requires Read(p, offset + 1 + |l|, jumps) == Prefixed(front, Read(p, end, jumps))
    ensures Read(p, offset, jumps) == Prefixed(l + [DOT] + front, Read(p, end, jumps))
  {
    ReadLabel(p, offset, l, jumps);
    PrefixedTwice(l + [DOT], front, Read(p, end, jumps));
  }

  /** The labels from `offset` up to `end` are read as `front` of what stands there. */
  ghost predicate ReadsUpTo(p: Text, offset: nat, front: Text, end: nat, jumps: nat)
    requires jumps <= MAX_JUMPS
  {
    Read(p, offset, jumps) == Prefixed(front, Read(p, end, jumps))
  }

  lemma LabelsStep(p: Text, offset: nat, labels: seq<LabelText>, end: nat, jumps: nat)
    requires jumps <= MAX_JUMPS && labels != [] && At(p, offset, [|labels[0]|]) && At(p, offset + 1, labels[0])
    requires ReadsUpTo(p, offset + 1 + |labels[0]|, NameText(labels[1..]), end, jumps)
    ensures ReadsUpTo(p, offset, NameText(labels), end, jumps)
  {
    LabelStep(p, offset, labels[0], NameText(labels[1..]), end, jumps);
  }

  /** Labels in front of whatever follows them. */
  lemma {:induction false} LabelsRoundTrip(p: Text, offset: nat, labels: seq<LabelText>, jumps: nat)
    requires jumps <= MAX_JUMPS && At(p, offset, EncodeLabels(labels))
    ensures ReadsUpTo(p, offset, NameText(labels), offset + |EncodeLabels(labels)|, jumps)
    decreases |labels|
  {
    if labels == [] {
      PrefixedNothing(Read(p, offset, jumps));
    } else {
      FirstLabelAt(p, offset, labels);
      LabelsRoundTrip(p, offset + 1 + |labels[0]|, labels[1..], jumps);
      LabelsStep(p, offset, labels, offset + |EncodeLabels(labels)|, jumps);
    }
  }

  lemma EndingRoundTrip(p: Text, offset: nat, n: SentName, jumps: nat)
    requires jumps <= MAX_JUMPS && n.Inline? && At(p, offset, EncodeEnding(n))
    ensures Read(p, offset, jumps) == Some(Name([], offset + 1))
  {
    OctetAt(p, offset, 0);
  }

  /** What reading a laid-out name gives once `jumps` pointers have been followed. */
  function ReadBack(n: SentName, next: nat, jumps: nat): Option<Name> {
    if jumps + Depth(n) <= MAX_JUMPS then Some(Name(OwnerText(n), next)) else None
  }

  lemma ReadBackPointed(n: SentName, found: nat, next: nat, jumps: nat)
    requires n.Compressed? && jumps < MAX_JUMPS
    ensures Pointed(NameText(n.labels), ReadBack(n.rest, found, jumps + 1), next) == ReadBack(n, next, jumps)
  {
  }

  lemma InlineRoundTrip(p: Text, offset: nat, n: SentName, jumps: nat)
    requires jumps <= MAX_JUMPS && n.Inline? && NameLaidOut(p, offset, n)
    ensures Read(p, offset, jumps) == ReadBack(n, offset + NameLength(n), jumps)
  {
    LabelsRoundTrip(p, offset, n.labels, jumps);
    EndingRoundTrip(p, offset + |EncodeLabels(n.labels)|, n, jumps);
    assert NameText(n.labels) + [] == NameText(n.labels);
  }

  lemma PointedPrefixed(front: Text, found: Option<Name>, next: nat)
    ensures Prefixed(front, Pointed([], found, next)) == Pointed(front, found, next)
  {
    if found.Some? {
      assert [] + found.value.text == found.value.text;
    }
  }

  /** A name that ends in a pointer, in terms of what stands where it points. */
  lemma PointerStep(p: Text, offset: nat, front: Text, end: nat, target: nat, jumps: nat)
    requires jumps <= MAX_JUMPS && target < 0x4000 && At(p, end, EncodePointer(target))
    requires Read(p, offset, jumps) == Prefixed(front, Read(p, end, jumps))
    ensures Read(p, offset, jumps) ==
            if jumps == MAX_JUMPS then None else Pointed(front, Read(p, target, jumps + 1), end + 2)
  {
    ReadPointer(p, end, target, jumps);
    if jumps < MAX_JUMPS {
      PointedPrefixed(front, Read(p, target, jumps + 1), end + 2);
    }
  }

  lemma CompressedStep(p: Text, offset: nat, labels: seq<LabelText>, end: nat, target: nat, jumps: nat)
    requires jumps <= MAX_JUMPS && target < 0x4000 && end == offset + |EncodeLabels(labels)|
    requires At(p, offset, EncodeLabels(labels)) && At(p, end, EncodePointer(target))
    ensures Read(p, offset, jumps) ==
            if jumps == MAX_JUMPS then None else Pointed(NameText(labels), Read(p, target, jumps + 1), end + 2)
  {
    LabelsRoundTrip(p, offset, labels, jumps);
    PointerStep(p, offset, NameText(labels), end, target, jumps);
  }

  /** A reader that goes through the parts of a name one at a time. */
  ghost predicate ReadsName(read: (nat, nat) -> Option<Name>, offset: nat, n: SentName, jumps: nat)
    decreases n
  {
    if n.Inline? then read(offset, jumps) == ReadBack(n, offset + NameLength(n), jumps)
    else if jumps >= MAX_JUMPS then read(offset, jumps) == None
    else
      && ReadsName(read, n.target, n.rest, jumps + 1)
      && read(offset, jumps) == Pointed(NameText(n.labels), read(n.target, jumps + 1), offset + NameLength(n))
  }

  lemma {:induction false} NameChain(read: (nat, nat) -> Option<Name>, offset: nat, n: SentName, jumps: nat)
    requires ReadsName(read, offset, n, jumps)
    ensures read(offset, jumps) == ReadBack(n, offset + NameLength(n), jumps)
    decreases n
  {
    if n.Inline? || jumps >= MAX_JUMPS {
    } else {
      NameChain(read, n.target, n.rest, jumps + 1);
      ReadBackPointed(n, n.target + NameLength(n.rest), offset + NameLength(n), jumps);
    }
  }

  function Reader(p: Text): (nat, nat) -> Option<Name> {
    (offset: nat, jumps: nat) => if jumps <= MAX_JUMPS then Read(p, offset, jumps) else None
  }

  lemma {:induction false} LaidOutNameReads(p: Text, offset: nat, n: SentName, jumps: nat)
    requires jumps <= MAX_JUMPS && NameLaidOut(p, offset, n)
    ensures ReadsName(Reader(p), offset, n, jumps)
    decreases n
  {
    if n.Inline? {
      InlineRoundTrip(p, offset, n, jumps);
    } else {
      CompressedStep(p, offset, n.labels, offset + |EncodeLabels(n.labels)|, n.target, jumps);
      if jumps < MAX_JUMPS {
        LaidOutNameReads(p, n.target, n.rest, jumps + 1);
      }
    }
  }

  /**
   * Every form of a name is read back, through as many pointers as it takes, if and only if they are
   * no more than the code follows.
   */
  lemma NameRoundTrip(p: Text, offset: nat, n: SentName, jumps: nat)
    requires jumps <= MAX_JUMPS && NameLaidOut(p, offset, n)
    ensures Read(p, offset, jumps) == ReadBack(n, offset + NameLength(n), jumps)
  {
    LaidOutNameReads(p, offset, n, jumps);
    NameChain(Reader(p), offset, n, jumps);
  }

  predicate QuestionReads(p: Text, offset: nat, q: SentQuestion, next: nat) {
    offset < |p| && QuestionAt(p, offset) == if Readable(q.name) then Some((SentQuestionView(q), next)) else None
  }

  predicate RecordReads(p: Text, offset: nat, r: SentRecord, next: nat) {
    offset < |p| && RecordAt(p, offset) == if Readable(r.name) then Some((SentAnswer(r), next)) else None
  }

  lemma QuestionRoundTrip(p: Text, offset: nat, q: SentQuestion, next: nat)
    requires QuestionLaidOut(p, offset, q, next)
    ensures QuestionReads(p, offset, q, next)
  {
    NameRoundTrip(p, offset, q.name, 0);
    TrimmedOwner(q.name);
    Uint16At(p, offset + NameLength(q.name), q.kind);
  }

  lemma RecordBodyReads(p: Text, offset: nat, r: SentRecord, body: nat, next: nat)
    requires RecordBody(p, body, r, next) && offset < |p| && Read(p, offset, 0) == ReadBack(r.name, body, 0)
    ensures RecordReads(p, offset, r, next)
  {
    TrimmedOwner(r.name);
    Uint16At(p, body, r.kind);
    Uint16At(p, body + 8, |r.data|);
  }

  lemma RecordRoundTrip(p: Text, offset: nat, r: SentRecord, next: nat)
    requires RecordLaidOut(p, offset, r, next)
    ensures RecordReads(p, offset, r, next)
  {
    NameRoundTrip(p, offset, r.name, 0);
    RecordBodyReads(p, offset, r, offset + NameLength(r.name), next);
  }

  /** One more question in front of a run. */
  function Push(q: Question, run: QuestionRun): QuestionRun {
    run.(questions := [q] + run.questions)
  }

  lemma QuestionsStep(p: Text, offset: nat, q: SentQuestion, next: nat, count: nat)
    requires QuestionReads(p, offset, q, next) && count > 0
    ensures Questions(p, offset, count) ==
            if Readable(q.name) then Push(SentQuestionView(q), Questions(p, next, count - 1))
            else QuestionRun([], offset, false)
  {
  }

  lemma AnswersStep(p: Text, offset: nat, r: SentRecord, next: nat, count: nat)
    requires RecordReads(p, offset, r, next) && count > 0
    ensures Answers(p, offset, count) ==
            if Readable(r.name) then Add(SentAnswer(r), Answers(p, next, count - 1)) else []
  {
  }

  /** What a question loop leaves when its entries stand at `at`. */
  function ChainedQuestions(qs: seq<SentQuestion>, at: seq<nat>): QuestionRun
    requires |at| == |qs| + 1
  {
    var good := LeadingQuestions(qs);
    QuestionRun(SentQuestions(good), at[|good|], good == qs)
  }

  lemma ChainedStep(qs: seq<SentQuestion>, at: seq<nat>)
    requires |at| == |qs| + 1 && qs != []
    ensures ChainedQuestions(qs, at) ==
            if Readable(qs[0].name) then Push(SentQuestionView(qs[0]), ChainedQuestions(qs[1..], at[1..]))
            else QuestionRun([], at[0], false)
  {
    if Readable(qs[0].name) {
      var rest := LeadingQuestions(qs[1..]);
      assert ([qs[0]] + rest)[1..] == rest;
      assert qs == [qs[0]] + qs[1..];
    }
  }

  /** A loop that takes in entries one at a time, at offsets `at`. */
  ghost predicate ReadsQuestions(loop: (nat, nat) -> QuestionRun, qs: seq<SentQuestion>, at: seq<nat>)
    requires |at| == |qs| + 1
  {
    if qs == [] then loop(at[0], 0) == QuestionRun([], at[0], true)
    else
      && ReadsQuestions(loop, qs[1..], at[1..])
      && loop(at[0], |qs|) ==
         if Readable(qs[0].name) then Push(SentQuestionView(qs[0]), loop(at[1], |qs| - 1))
         else QuestionRun([], at[0], false)
  }

  ghost predicate ReadsRecords(loop: (nat, nat) -> seq<Answer>, rs: seq<SentRecord>, at: seq<nat>)
    requires |at| == |rs| + 1
  {
    if rs == [] then loop(at[0], 0) == []
    else
      && ReadsRecords(loop, rs[1..], at[1..])
      && loop(at[0], |rs|) == if Readable(rs[0].name) then Add(SentAnswer(rs[0]), loop(at[1], |rs| - 1)) else []
  }

  /** Questions that follow each other are read, up to the first name that takes too many pointers. */
  lemma {:induction false} QuestionChain(loop: (nat, nat) -> QuestionRun, qs: seq<SentQuestion>, at: seq<nat>)
    requires |at| == |qs| + 1 && ReadsQuestions(loop, qs, at)
    ensures loop(at[0], |qs|) == ChainedQuestions(qs, at)
    decreases |qs|
  {
    if qs == [] {
    } else {
      QuestionChain(loop, qs[1..], at[1..]);
      ChainedStep(qs, at);
    }
  }

  /** Records likewise. */
  lemma {:induction false} RecordChain(loop: (nat, nat) -> seq<Answer>, rs: seq<SentRecord>, at: seq<nat>)
    requires |at| == |rs| + 1 && ReadsRecords(loop, rs, at)
    ensures loop(at[0], |rs|) == SentAnswers(LeadingRecords(rs))
    decreases |rs|
  {
    if rs == [] {
    } else {
      RecordChain(loop, rs[1..], at[1..]);
      assert ([rs[0]] + LeadingRecords(rs[1..]))[1..] == LeadingRecords(rs[1..]);
    }
  }

  function QuestionLoop(p: Text): (nat, nat) -> QuestionRun {
    (offset: nat, count: nat) => Questions(p, offset, count)
  }

  function AnswerLoop(p: Text): (nat, nat) -> seq<Answer> {
    (offset: nat, count: nat) => Answers(p, offset, count)
  }

  lemma {:induction false} LaidOutQuestionsRead(p: Text, qs: seq<SentQuestion>, at: seq<nat>)
    requires |at| == |qs| + 1
    requires forall i :: 0 <= i < |qs| ==> QuestionLaidOut(p, at[i], qs[i], at[i + 1])
    ensures ReadsQuestions(QuestionLoop(p), qs, at)
    decreases |qs|
  {
    if qs == [] {
    } else {
      LaidOutQuestionsRead(p, qs[1..], at[1..]);
      QuestionRoundTrip(p, at[0], qs[0], at[1]);
      QuestionsStep(p, at[0], qs[0], at[1], |qs|);
    }
  }

  lemma {:induction false} LaidOutRecordsRead(p: Text, rs: seq<SentRecord>, at: seq<nat>)
    requires |at| == |rs| + 1
    requires forall i :: 0 <= i < |rs| ==> RecordLaidOut(p, at[i], rs[i], at[i + 1])
    ensures ReadsRecords(AnswerLoop(p), rs, at)
    decreases |rs|
  {
    if rs == [] {
    } else {
      LaidOutRecordsRead(p, rs[1..], at[1..]);
      RecordRoundTrip(p, at[0], rs[0], at[1]);
      AnswersStep(p, at[0], rs[0], at[1], |rs|);
    }
  }

  // -- Headers --

  /** What the parser reads off a header. */
  lemma HeaderReads(p: Text, h: Header)
    requires At(p, 0, EncodeHeader(h))
    ensures |p| >= 12 && (p[2] >= 128 <==> h.response) && p[3] % 16 == h.responseCode
    ensures Uint16(p, 4) == h.qd && Uint16(p, 6) == h.an
  {
    var e := EncodeHeader(h);
    assert forall i :: 0 <= i < 12 ==> p[i] == p[0..12][i];
    assert p[2] == e[2] == FlagsHigh(h) && p[3] == e[3] == FlagsLow(h);
    assert Uint16(p, 4) == Uint16(e, 4) && Uint16(p, 6) == Uint16(e, 6);
  }

  /** The header the first twelve octets of a payload are. */
  function HeaderOf(p: Text): Header
    requires |p| >= 12
  {
    Header(Uint16(p, 0), p[2] >= 128, p[2] / 8 % 16, p[2] / 4 % 2 == 1, p[2] / 2 % 2 == 1, p[2] % 2 == 1,
           p[3] >= 128, p[3] / 16 % 8, p[3] % 16, Uint16(p, 4), Uint16(p, 6), Uint16(p, 8), Uint16(p, 10))
  }

  lemma OctetOfBits(b: Byte)
    ensures b == Bit(b >= 128, 128) + b / 8 % 16 * 8 + Bit(b / 4 % 2 == 1, 4) + Bit(b / 2 % 2 == 1, 2) + Bit(b % 2 == 1, 1)
  {
    assert b == 2 * (b / 2) + b % 2 && b / 2 == 2 * (b / 4) + b / 2 % 2 && b / 4 == 2 * (b / 8) + b / 4 % 2;
  }

  lemma HeaderOfEncodes(p: Text)
    requires |p| >= 12
    ensures At(p, 0, EncodeHeader(HeaderOf(p)))
  {
    OctetOfBits(p[2]);
  }

  /** A payload is parsed exactly if it begins with a header that has the response bit set. */
  lemma ParsedExactly(p: Text)
    ensures Parse(p).Parsed? <==> exists h :: At(p, 0, EncodeHeader(h)) && h.response
  {
    if Parse(p).Parsed? {
      HeaderOfEncodes(p);
    }
    if h :| At(p, 0, EncodeHeader(h)) && h.response {
      HeaderReads(p, h);
    }
  }

  /**
   * Parsing inverts the encoding of every response, whatever compression its names use: everything
   * comes back if no name takes more than eight pointers, and otherwise exactly what stands before the
   * first such name, with answers only if every question was read.
   */
  lemma ParseInvertsEncoding(
    p: Text, h: Header, qs: seq<SentQuestion>, qAt: seq<nat>, rs: seq<SentRecord>, rAt: seq<nat>)
    requires Carries(p, h, qs, qAt, rs, rAt)
    ensures var read, good := LeadingQuestions(qs), h.responseCode == 0;
            Parse(p) ==
            if read == qs then Parsed(Response(good, SentQuestions(qs), SentAnswers(LeadingRecords(rs))), true)
            else Parsed(Response(good, SentQuestions(read), []), read != [])
  {
    HeaderReads(p, h);
    LaidOutQuestionsRead(p, qs, qAt);
    QuestionChain(QuestionLoop(p), qs, qAt);
    LaidOutRecordsRead(p, rs, rAt);
    RecordChain(AnswerLoop(p), rs, rAt);
  }
}
