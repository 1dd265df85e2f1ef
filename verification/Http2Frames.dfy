/**
 * The HTTP/2 frame walk: `ParseHTTP2Status` against sections 3.5, 4.1 and 6.2 of RFC 7540,
 * on whole and on truncated captures.
 */
module Http2Frames {
  import opened Bytes
  import opened HpackInteger
  import opened StatusDigits
  import opened HpackScanner

  /** The client connection preface, "PRI * HTTP/2.0", two line ends, "SM", two line ends. */
  const PREFACE: Text :=
    [80, 82, 73, 32, 42, 32, 72, 84, 84, 80, 47, 50, 46, 48, 13, 10, 13, 10, 83, 77, 13, 10, 13, 10]

  const HEADER_LENGTH: nat := 9
  const HEADERS_TYPE: Byte := 1
  const MAX_FRAMES: nat := 16

  predicate Padded(flags: Byte) { flags / 8 % 2 == 1 }

  predicate Prioritized(flags: Byte) { flags / 32 % 2 == 1 }

  function Length24(buf: Text): (r: nat)
    requires |buf| >= 3
  {
    buf[0] as int * 65536 + buf[1] as int * 256 + buf[2]
  }

  /** The payload of the frame at the front of `buf`, cut where the capture ends. */
  function FramePayload(buf: Text): (r: Text)
    requires |buf| >= HEADER_LENGTH
    ensures |r| <= |buf| - HEADER_LENGTH
  {
    var body := buf[HEADER_LENGTH..];
    if Length24(buf) > |body| then body else body[..Length24(buf)]
  }

  /** The part of a HEADERS payload that is scanned, after the padding and priority rules of the code. */
  function HeaderBlock(flags: Byte, frame: Text): (r: Text) {
    var unpadded :=
      if Padded(flags) && |frame| > 0 then
        var rest := frame[1..];
        if frame[0] <= |rest| then rest[..|rest| - frame[0]] else rest
      else frame;
    if Prioritized(flags) && |unpadded| >= 5 then unpadded[5..] else unpadded
  }

  datatype HeadersFrame = HeadersFrame(flags: Byte, payload: Text)

  /** The first HEADERS frame among the first `n` frames. */
  function FirstHeaders(buf: Text, n: nat): (r: Option<HeadersFrame>)
    decreases |buf|
  {
    if |buf| < HEADER_LENGTH || n == 0 then None
    else
      var frame := FramePayload(buf);
      if buf[3] == HEADERS_TYPE then Some(HeadersFrame(buf[4], frame))
      else
        var next := HEADER_LENGTH + |frame|;
        if next >= |buf| then None else FirstHeaders(buf[next..], n - 1)
  }

  function WithoutPreface(payload: Text): Text {
    if PREFACE <= payload then payload[|PREFACE|..] else payload
  }

  /** The status of a captured payload. */
  function StatusOf(payload: Text): (r: Option<Text>) {
    match FirstHeaders(WithoutPreface(payload), MAX_FRAMES)
    case None => None
    case Some(h) => Scan(HeaderBlock(h.flags, h.payload), MAX_FIELDS)
  }

  /** `ParseHTTP2Status` */
  method ParseHttp2Status(payload: Text) returns (status: Option<Text>)
    ensures status == StatusOf(payload)
  {
    var buf := WithoutPreface(payload);
    var iter := 0;
    while |buf| >= HEADER_LENGTH && iter < MAX_FRAMES
      invariant 0 <= iter <= MAX_FRAMES
      invariant FirstHeaders(WithoutPreface(payload), MAX_FRAMES) == FirstHeaders(buf, MAX_FRAMES - iter)
      decreases |buf|
    {
      var frame := FramePayload(buf);
      if buf[3] == HEADERS_TYPE {
        status := FindStatus(HeaderBlock(buf[4], frame));
        return;
      }
      var next := HEADER_LENGTH + |frame|;
      if next >= |buf| {
        break;
      }
      buf := buf[next..];
      iter := iter + 1;
    }
    status := None;
  }

  // ---- Sections 4.1 and 6.2: what a peer sends ----

  /** Section 3.5: what a client opens a connection with. */
  const MAGIC: string := "PRI * HTTP/2.0\r\n\r\nSM\r\n\r\n"

  lemma PrefaceIs()
    ensures AsText(MAGIC) == PREFACE
  {
    assert |MAGIC| == 24;
  }

  datatype Frame = Frame(kind: Byte, flags: Byte, stream: Text, payload: Text)

  predicate WellFormed(f: Frame) {
    |f.stream| == 4 && |f.payload| < 0x100_0000
  }

  function EncodeFrame(f: Frame): (r: Text)
    requires WellFormed(f)
    ensures |r| == HEADER_LENGTH + |f.payload|
  {
    var n := |f.payload|;
    [n / 65536, n / 256 % 256, n % 256, f.kind, f.flags] + f.stream + f.payload
  }

  predicate AllWellFormed(frames: seq<Frame>) {
    forall i :: 0 <= i < |frames| ==> WellFormed(frames[i])
  }

  predicate NoneHeaders(frames: seq<Frame>) {
    forall i :: 0 <= i < |frames| ==> frames[i].kind != 0x1
  }

  function Joined(parts: seq<Text>, tail: Text): (r: Text)
    ensures |r| >= |tail|
  {
    if parts == [] then tail else parts[0] + Joined(parts[1..], tail)
  }

  function EncodeAll(frames: seq<Frame>): (r: seq<Text>)
    requires AllWellFormed(frames)
    ensures |r| == |frames| && forall i :: 0 <= i < |frames| ==> r[i] == EncodeFrame(frames[i])
  {
    seq(|frames|, i requires 0 <= i < |frames| => EncodeFrame(frames[i]))
  }

  /** Frames one after the other, and then `tail`. */
  function EncodeFrames(frames: seq<Frame>, tail: Text): Text
    requires AllWellFormed(frames)
  {
    Joined(EncodeAll(frames), tail)
  }

  /** A HEADERS frame; `padding` and `priority` are sent only when the flags say so. */
  datatype Headers = Headers(flags: Byte, stream: Text, padding: Text, priority: Text, fragment: Text)

  /** Whether a flag of weight `bit` is set. */
  predicate HasFlag(flags: Byte, bit: nat)
    requires bit > 0
  {
    flags / bit % 2 == 1
  }

  /** Section 6.2; PADDED is 0x8 and PRIORITY 0x20. */
  function HeadersPayload(h: Headers): Text
    requires |h.padding| < 256
  {
    (if HasFlag(h.flags, 0x8) then [|h.padding|] else [])
    + (if HasFlag(h.flags, 0x20) then h.priority else [])
    + h.fragment
    + (if HasFlag(h.flags, 0x8) then h.padding else [])
  }

  predicate WellFormedHeaders(h: Headers) {
    |h.padding| < 256 && |h.priority| == 5 && WellFormed(HeadersAsFrame(h))
  }

  function HeadersAsFrame(h: Headers): Frame
    requires |h.padding| < 256
  {
    Frame(0x1, h.flags, h.stream, HeadersPayload(h))
  }

  lemma FrameRoundTrip(f: Frame, suffix: Text)
    requires WellFormed(f)
    ensures var buf := EncodeFrame(f) + suffix;
            buf[3] == f.kind && buf[4] == f.flags && FramePayload(buf) == f.payload
  {
    var buf := EncodeFrame(f) + suffix;
    assert Length24(buf) == |f.payload|;
    assert buf[HEADER_LENGTH..] == f.payload + suffix;
  }

  /** Stripping padding and priority leaves the header block fragment. */
  lemma HeaderBlockInverts(h: Headers)
    requires WellFormedHeaders(h)
    ensures HeaderBlock(h.flags, HeadersPayload(h)) == h.fragment
  {
    var payload := HeadersPayload(h);
    var priority := if Prioritized(h.flags) then h.priority else [];
    if Padded(h.flags) {
      assert payload[1..] == priority + h.fragment + h.padding;
      assert payload[1..][..|payload[1..]| - payload[0]] == priority + h.fragment;
    } else {
      assert payload == priority + h.fragment;
    }
    assert (priority + h.fragment)[|priority|..] == h.fragment;
  }

  lemma StepOver(f: Frame, rest: Text, n: nat)
    requires WellFormed(f) && f.kind != HEADERS_TYPE && rest != [] && n > 0
    ensures FirstHeaders(EncodeFrame(f) + rest, n) == FirstHeaders(rest, n - 1)
  {
    FrameRoundTrip(f, rest);
    assert (EncodeFrame(f) + rest)[|EncodeFrame(f)|..] == rest;
  }

  /** `part` in front of anything costs one step of the budget, and changes nothing else. */
  ghost predicate Passed<T(!new)>(f: (Text, nat) -> T, part: Text) {
    forall rest, n: nat :: rest != [] && n > 0 ==> f(part + rest, n) == f(rest, n - 1)
  }

  lemma {:induction false} PassedAll<T(!new)>(f: (Text, nat) -> T, parts: seq<Text>, tail: Text, n: nat)
    requires tail != [] && forall i :: 0 <= i < |parts| ==> Passed(f, parts[i])
    ensures f(Joined(parts, tail), n) ==
            if |parts| <= n then f(tail, n - |parts|) else f(Joined(parts[n..], tail), 0)
    decreases |parts|
  {
    if parts == [] || n == 0 {
    } else {
      var rest := parts[1..];
      assert Passed(f, parts[0]);
      assert f(parts[0] + Joined(rest, tail), n) == f(Joined(rest, tail), n - 1);
      PassedAll(f, rest, tail, n - 1);
      if |parts| > n {
        assert rest[n - 1..] == parts[n..];
      }
    }
  }

  function Finder(): (Text, nat) -> Option<HeadersFrame> {
    (buf: Text, n: nat) => FirstHeaders(buf, n)
  }

  lemma FramePassed(f: Frame)
    requires WellFormed(f) && f.kind != HEADERS_TYPE
    ensures Passed(Finder(), EncodeFrame(f))
  {
    forall rest, n: nat | rest != [] && n > 0
      ensures FirstHeaders(EncodeFrame(f) + rest, n) == FirstHeaders(rest, n - 1)
    {
      StepOver(f, rest, n);
    }
  }

  lemma AllPassed(frames: seq<Frame>)
    requires AllWellFormed(frames) && NoneHeaders(frames)
    ensures forall i :: 0 <= i < |frames| ==> Passed(Finder(), EncodeAll(frames)[i])
  {
    forall i | 0 <= i < |frames|
      ensures Passed(Finder(), EncodeAll(frames)[i])
    {
      FramePassed(frames[i]);
    }
  }

  lemma SkipsParts(parts: seq<Text>, tail: Text, n: nat)
    requires tail != [] && forall i :: 0 <= i < |parts| ==> Passed(Finder(), parts[i])
    ensures FirstHeaders(Joined(parts, tail), n) == if |parts| <= n then FirstHeaders(tail, n - |parts|) else None
  {
    PassedAll(Finder(), parts, tail, n);
  }

  /** Other frames in front are stepped over; the budget is spent on them. */
  lemma SkipsOtherFrames(frames: seq<Frame>, tail: Text, n: nat)
    requires AllWellFormed(frames) && NoneHeaders(frames) && tail != []
    ensures FirstHeaders(EncodeFrames(frames, tail), n) ==
            if |frames| <= n then FirstHeaders(tail, n - |frames|) else None
  {
    AllPassed(frames);
    SkipsParts(EncodeAll(frames), tail, n);
  }

  /** At most fifteen other frames, then HEADERS, then anything: the fragment is what gets scanned. */
  lemma FramingInverts(frames: seq<Frame>, h: Headers, trailing: Text, payload: Text)
    requires AllWellFormed(frames) && NoneHeaders(frames)
    requires WellFormedHeaders(h)
    requires var sent := EncodeFrames(frames, EncodeFrame(HeadersAsFrame(h)) + trailing);
             payload == AsText(MAGIC) + sent || (payload == sent && !(AsText(MAGIC) <= payload))
    ensures StatusOf(payload) == if |frames| < 16 then Scan(h.fragment, 64) else None
  {
    var tail := EncodeFrame(HeadersAsFrame(h)) + trailing;
    var sent := EncodeFrames(frames, tail);
    PrefaceIs();
    assert (PREFACE + sent)[|PREFACE|..] == sent;
    assert WithoutPreface(payload) == sent;
    SkipsOtherFrames(frames, tail, MAX_FRAMES);
    FrameRoundTrip(HeadersAsFrame(h), trailing);
    HeaderBlockInverts(h);
  }

  // ---- Truncated captures ----

  lemma Comparable(p: Text, cut: Text, more: Text)
    requires p <= cut + more
    ensures p <= cut || cut <= p
  {
    assert cut == (cut + more)[..|cut|];
  }

  lemma PayloadExtends(buf: Text, more: Text)
    requires |buf| >= HEADER_LENGTH
    ensures var whole := buf + more;
            && whole[3] == buf[3] && whole[4] == buf[4] && FramePayload(buf) <= FramePayload(whole)
            && (HEADER_LENGTH + |FramePayload(buf)| < |buf| ==> FramePayload(whole) == FramePayload(buf))
  {
    DropPrefix(buf, more, HEADER_LENGTH);
    assert Length24(buf + more) == Length24(buf);
  }

  /** A HEADERS frame found in a cut is the one found in the whole, with a prefix of its payload. */
  lemma {:induction false} FirstHeadersExtends(buf: Text, more: Text, n: nat)
    requires FirstHeaders(buf, n).Some?
    ensures FirstHeaders(buf + more, n).Some?
    ensures FirstHeaders(buf + more, n).value.flags == FirstHeaders(buf, n).value.flags
    ensures FirstHeaders(buf, n).value.payload <= FirstHeaders(buf + more, n).value.payload
    decreases |buf|
  {
    var whole := buf + more;
    PayloadExtends(buf, more);
    if buf[3] != HEADERS_TYPE {
      var next := HEADER_LENGTH + |FramePayload(buf)|;
      DropPrefix(buf, more, next);
      FirstHeadersExtends(buf[next..], more, n - 1);
    }
  }

  /** A cut inside the preface looks like one huge frame of another type. */
  lemma CutPreface(cut: Text, n: nat)
    requires cut <= PREFACE && cut != PREFACE
    ensures FirstHeaders(cut, n).None?
  {
    if |cut| >= HEADER_LENGTH && n > 0 {
      assert cut[0] == 80 && cut[1] == 82 && cut[2] == 73 && cut[3] == 32;
      assert Length24(cut) > |cut|;
    }
  }

  lemma CutHeaders(cut: Text, more: Text)
    requires FirstHeaders(WithoutPreface(cut), MAX_FRAMES).Some?
    ensures var c := FirstHeaders(WithoutPreface(cut), MAX_FRAMES).value;
            var w := FirstHeaders(WithoutPreface(cut + more), MAX_FRAMES);
            w.Some? && w.value.flags == c.flags && c.payload <= w.value.payload
  {
    var whole := cut + more;
    if PREFACE <= cut {
      assert PREFACE <= whole;
      assert whole[|PREFACE|..] == cut[|PREFACE|..] + more;
      FirstHeadersExtends(cut[|PREFACE|..], more, MAX_FRAMES);
    } else if PREFACE <= whole {
      Comparable(PREFACE, cut, more);
      CutPreface(cut, MAX_FRAMES);
    } else {
      FirstHeadersExtends(cut, more, MAX_FRAMES);
    }
  }

  /** Length of the payload left after the padding rule, not counting the pad-length byte. */
  function UnpaddedLength(flags: Byte, pad: nat, length: nat): (r: nat) {
    if Padded(flags) && length > 0 then
      if pad <= length - 1 then length - 1 - pad else length - 1
    else length
  }

  /** Where the scan starts in what the padding rule left. */
  function ScanStart(flags: Byte, unpadded: nat): (r: nat)
    ensures r <= unpadded
  {
    if Prioritized(flags) && unpadded >= 5 then 5 else 0
  }

  /**
   * Whether a HEADERS payload of `whole` bytes may be cut to `cut` bytes: either nothing is left
   * to scan, or the scan starts at the same byte and the cut did not turn padding into fields.
   */
  predicate SafeCut(flags: Byte, pad: nat, whole: nat, cut: nat) {
    var x, y := UnpaddedLength(flags, pad, cut), UnpaddedLength(flags, pad, whole);
    x == ScanStart(flags, x) || (ScanStart(flags, x) == ScanStart(flags, y) && x <= y)
  }

  /** The block of a payload in terms of its content after the pad-length byte. */
  lemma HeaderBlockSlice(flags: Byte, frame: Text)
    ensures var content := if Padded(flags) && |frame| > 0 then frame[1..] else frame;
            var pad := if |frame| > 0 then frame[0] else 0;
            var x := UnpaddedLength(flags, pad, |frame|);
            x <= |content| && HeaderBlock(flags, frame) == content[ScanStart(flags, x)..x]
  {
    var content := if Padded(flags) && |frame| > 0 then frame[1..] else frame;
    var x := UnpaddedLength(flags, if |frame| > 0 then frame[0] else 0, |frame|);
    assert content[..x][ScanStart(flags, x)..] == content[ScanStart(flags, x)..x];
  }

  /** In a safe cut the scanned bytes are a prefix, or there are none. */
  lemma SafeCutIsPrefix(flags: Byte, frame: Text, cut: nat)
    requires cut <= |frame|
    requires SafeCut(flags, if |frame| > 0 then frame[0] else 0, |frame|, cut)
    ensures HeaderBlock(flags, frame[..cut]) <= HeaderBlock(flags, frame)
  {
    HeaderBlockSlice(flags, frame[..cut]);
    HeaderBlockSlice(flags, frame);
    if cut == 0 {
    } else {
      assert frame[..cut][1..] == frame[1..][..cut - 1];
    }
  }

  ghost predicate CutAgrees(flags: Byte, frame: Text, cut: nat)
    requires cut <= |frame|
  {
    var found := Scan(HeaderBlock(flags, frame[..cut]), MAX_FIELDS);
    found.Some? ==> Scan(HeaderBlock(flags, frame), MAX_FIELDS) == found
  }

  ghost predicate Shape(flags: Byte, pad: Byte, whole: nat, frame: Text) {
    |frame| == whole && (Padded(flags) && whole > 0 ==> frame[0] == pad)
  }

  lemma SafeCutAgrees(flags: Byte, frame: Text, cut: nat)
    requires cut <= |frame|
    requires SafeCut(flags, if |frame| > 0 then frame[0] else 0, |frame|, cut)
    ensures CutAgrees(flags, frame, cut)
  {
    SafeCutIsPrefix(flags, frame, cut);
    var c, w := HeaderBlock(flags, frame[..cut]), HeaderBlock(flags, frame);
    assert w == c + w[|c|..];
    if Scan(c, MAX_FIELDS).Some? {
      ScanExtends(c, w[|c|..], MAX_FIELDS);
    }
  }

  // ---- Contents that mislead a cut ----

  const SHORT_FIELD: Field := Indexed(2)
  const LONG_FIELD: Field := NewLiteral(WithoutIndexing, StringLiteral([], false), StringLiteral([0, 0, 0, 0], false))
  const STATUS_200_FIELD: Text := [0x88]

  /** Fields without a status that take `k` bytes: few enough of them to stay within the walk's budget. */
  function FillerFields(k: nat): (r: seq<Field>)
    ensures k < 7 ==> |r| == k
    ensures 7 * |r| <= k + 36
  {
    if k == 0 then [] else if k < 7 then [SHORT_FIELD] + FillerFields(k - 1) else [LONG_FIELD] + FillerFields(k - 7)
  }

  lemma {:induction false} FillerLength(k: nat)
    ensures |EncodeFields(FillerFields(k))| == k
  {
    if k == 0 {
    } else {
      var fields := FillerFields(k);
      FillerLength(if k < 7 then k - 1 else k - 7);
      assert fields[1..] == FillerFields(if k < 7 then k - 1 else k - 7);
    }
  }

  function Filler(k: nat): (r: Text)
    ensures |r| == k
  {
    FillerLength(k);
    EncodeFields(FillerFields(k))
  }

  predicate AllSkipped(fields: seq<Field>) {
    forall i :: 0 <= i < |fields| ==> FieldFits(fields[i]) && FieldStatus(fields[i]).None?
  }

  lemma {:induction false} FillerSkipped(k: nat)
    ensures AllSkipped(FillerFields(k))
  {
    if k == 0 {
    } else {
      FillerSkipped(if k < 7 then k - 1 else k - 7);
    }
  }

  lemma {:induction false} SkippedFirst(a: seq<Field>, b: seq<Field>, n: nat)
    requires AllSkipped(a)
    ensures FirstStatus(a + b, n) == if |a| <= n then FirstStatus(b, n - |a|) else None
    decreases |a|
  {
    if a == [] {
      assert a + b == b;
    } else if n > 0 {
      assert (a + b)[1..] == a[1..] + b;
      SkippedFirst(a[1..], b, n - 1);
    }
  }

  lemma {:induction false} EncodeFieldsConcat(a: seq<Field>, b: seq<Field>)
    ensures EncodeFields(a + b) == EncodeFields(a) + EncodeFields(b)
    decreases |a|
  {
    if a == [] {
      assert a + b == b;
    } else {
      assert (a + b)[1..] == a[1..] + b;
      EncodeFieldsConcat(a[1..], b);
      Rejoin(EncodeField(a[0]), EncodeFields(a[1..]), EncodeFields(b));
    }
  }

  lemma Finds200(rest: Text, n: nat)
    requires n > 0
    ensures Scan(STATUS_200_FIELD + rest, n) == Some(StatusText(200))
  {
    assert (STATUS_200_FIELD + rest)[0] == 0x88;
    assert ScanField(STATUS_200_FIELD + rest) == Status(StatusText(200));
  }

  lemma Encodes200(rest: seq<Field>)
    ensures EncodeFields([Indexed(8)] + rest) == STATUS_200_FIELD + EncodeFields(rest)
  {
    assert ([Indexed(8)] + rest)[1..] == rest;
    assert Encode(8, 7, 1) == STATUS_200_FIELD;
  }

  lemma FirstIs200(rest: seq<Field>, n: nat)
    requires n > 0
    ensures FirstStatus([Indexed(8)] + rest, n) == Some(StatusText(200))
  {
    StaticAgrees(8);
  }

  /** `k` filler bytes followed by the indexed field for status 200. */
  lemma FillerThen200(k: nat, m: nat, n: nat)
    requires k <= 255 && n >= 64
    ensures Scan(Filler(k) + (STATUS_200_FIELD + Filler(m)), n) == Some(StatusText(200))
  {
    var before, after := FillerFields(k), [Indexed(8)] + FillerFields(m);
    Encodes200(FillerFields(m));
    EncodeFieldsConcat(before, after);
    ScanInvertsEncoding(before + after, n);
    FillerSkipped(k);
    SkippedFirst(before, after, n);
    FirstIs200(FillerFields(m), n - |before|);
  }

  lemma NoStatusInFiller(k: nat, n: nat)
    ensures Scan(Filler(k), n) == None
  {
    ScanInvertsEncoding(FillerFields(k), n);
    FillerSkipped(k);
    SkippedFirst(FillerFields(k), [], n);
    assert FillerFields(k) + [] == FillerFields(k);
  }

  /** A content with `k` filler bytes and then the field for status 200 after `start`. */
  lemma ContentAt(start: nat, k: nat, length: nat, x: nat) returns (content: Text)
    requires start + k < x <= length
    ensures |content| == length
    ensures content[start..x] == Filler(k) + (STATUS_200_FIELD + Filler(x - start - k - 1))
    ensures content[start..start + k] == Filler(k)
  {
    var field := STATUS_200_FIELD + Filler(x - start - k - 1);
    content := Filler(start) + (Filler(k) + field + Filler(length - x));
    MiddlePrefix(Filler(start), Filler(k), field, Filler(length - x));
    Middle(Filler(start), Filler(k) + field, Filler(length - x));
  }

  /** Such a content has a status where the cut looks, and none in the first `k` bytes of it. */
  lemma MisleadingAt(start: nat, k: nat, length: nat, x: nat) returns (content: Text)
    requires k <= 255 && start + k < x <= length
    ensures |content| == length
    ensures Scan(content[start..x], MAX_FIELDS) == Some(StatusText(200))
    ensures Scan(content[start..start + k], MAX_FIELDS) == None
  {
    content := ContentAt(start, k, length, x);
    FillerThen200(k, x - start - k - 1, MAX_FIELDS);
    NoStatusInFiller(k, MAX_FIELDS);
  }

  function WithPadByte(flags: Byte, pad: Byte, content: Text): Text {
    if Padded(flags) then [pad] + content else content
  }

  /** The blocks of a payload and of its cut, as slices of the content. */
  lemma CutBlocks(flags: Byte, pad: Byte, content: Text, cut: nat)
    requires (if Padded(flags) then 1 else 0) <= cut <= |WithPadByte(flags, pad, content)|
    ensures var frame := WithPadByte(flags, pad, content);
            var x, y := UnpaddedLength(flags, pad, cut), UnpaddedLength(flags, pad, |frame|);
            && x <= |content| && y <= |content|
            && HeaderBlock(flags, frame[..cut]) == content[ScanStart(flags, x)..x]
            && HeaderBlock(flags, frame) == content[ScanStart(flags, y)..y]
  {
    var frame := WithPadByte(flags, pad, content);
    var x := UnpaddedLength(flags, pad, cut);
    HeaderBlockSlice(flags, frame[..cut]);
    HeaderBlockSlice(flags, frame);
    if Padded(flags) {
      assert frame[1..] == content && frame[..cut][1..] == content[..cut - 1];
      SliceOfTake(content, cut - 1, ScanStart(flags, x), x);
    } else {
      SliceOfTake(content, cut, ScanStart(flags, x), x);
    }
  }

  lemma SliceOfTake(content: Text, n: nat, i: nat, j: nat)
    requires i <= j <= n <= |content|
    ensures content[..n][i..j] == content[i..j]
  {
  }

  /** The cut ends inside the priority fields and scans them. */
  lemma MisleadingPriority(x: nat, y: nat, length: nat) returns (content: Text)
    requires 0 < x < 5 <= y <= length
    ensures |content| == length
    ensures Scan(content[0..x], MAX_FIELDS) == Some(StatusText(200))
    ensures Scan(content[5..y], MAX_FIELDS) == None
  {
    var head := STATUS_200_FIELD + Filler(4);
    content := head + (Filler(y - 5) + Filler(length - y));
    Middle(head, Filler(y - 5), Filler(length - y));
    NoStatusInFiller(y - 5, MAX_FIELDS);
    assert content[0..x] == STATUS_200_FIELD + content[1..x];
    Finds200(content[1..x], MAX_FIELDS);
  }

  /** Padding the cut could not strip makes room for a priority field the whole does not have. */
  lemma MisleadingPadding(x: nat, y: nat, length: nat) returns (content: Text)
    requires y < 5 < x <= length
    ensures |content| == length
    ensures Scan(content[5..x], MAX_FIELDS) == Some(StatusText(200))
    ensures Scan(content[0..y], MAX_FIELDS) == None
  {
    var hit := STATUS_200_FIELD + Filler(x - 6);
    var head := Filler(y) + Filler(5 - y);
    content := head + (hit + Filler(length - x));
    Middle(head, hit, Filler(length - x));
    Finds200(Filler(x - 6), MAX_FIELDS);
    assert content[0..y] == Filler(y);
    NoStatusInFiller(y, MAX_FIELDS);
  }

  /** The cut scans from byte `s`, the whole from `w`: a content that only misleads the cut. */
  lemma MisleadingContent(s: nat, x: nat, w: nat, y: nat, length: nat) returns (content: Text)
    requires s < x <= length && w <= y <= length
    requires (s == w && y < x && y - s <= 255) || (s == 0 && w == 5 && x < 5) || (s == 5 && w == 0 && y < 5)
    ensures |content| == length
    ensures Scan(content[s..x], MAX_FIELDS) == Some(StatusText(200))
    ensures Scan(content[w..y], MAX_FIELDS) == None
  {
    if s == w {
      content := MisleadingAt(s, y - s, length, x);
    } else if s == 0 {
      content := MisleadingPriority(x, y, length);
    } else {
      content := MisleadingPadding(x, y, length);
    }
  }

  /** Every unsafe pair of lengths has a payload on which the cut reports a status the whole does not. */
  lemma UnsafeCutMisleads(flags: Byte, pad: Byte, whole: nat, cut: nat) returns (frame: Text)
    requires cut <= whole && !SafeCut(flags, pad, whole, cut)
    ensures Shape(flags, pad, whole, frame)
    ensures Scan(HeaderBlock(flags, frame[..cut]), MAX_FIELDS) == Some(StatusText(200))
    ensures Scan(HeaderBlock(flags, frame), MAX_FIELDS) == None
  {
    var x, y := UnpaddedLength(flags, pad, cut), UnpaddedLength(flags, pad, whole);
    var length := if Padded(flags) then whole - 1 else whole;
    var content := MisleadingContent(ScanStart(flags, x), x, ScanStart(flags, y), y, length);
    frame := WithPadByte(flags, pad, content);
    CutBlocks(flags, pad, content, cut);
  }

  lemma NoPreface(buf: Text)
    requires |buf| > 3 && buf[3] != 32
    ensures WithoutPreface(buf) == buf
  {
    assert PREFACE[3] == 32;
  }

  lemma CutFrame(f: Frame, cut: nat, capture: Text)
    requires WellFormed(f) && cut <= |f.payload| && capture == EncodeFrame(f)[..HEADER_LENGTH + cut]
    ensures capture[3] == f.kind && capture[4] == f.flags && FramePayload(capture) == f.payload[..cut]
  {
    assert capture[HEADER_LENGTH..] == f.payload[..cut];
    assert Length24(capture) == |f.payload|;
  }

  /** A capture that is one HEADERS frame, whole or cut short, is that frame's payload, whole or cut short. */
  lemma CaptureOfFrame(f: Frame, cut: nat)
    requires WellFormed(f) && f.kind == HEADERS_TYPE && cut <= |f.payload|
    ensures StatusOf(EncodeFrame(f)[..HEADER_LENGTH + cut]) == Scan(HeaderBlock(f.flags, f.payload[..cut]), MAX_FIELDS)
  {
    var capture := EncodeFrame(f)[..HEADER_LENGTH + cut];
    CutFrame(f, cut, capture);
    NoPreface(capture);
  }

  /**
   * So every unsafe pair of lengths a frame can have comes from a capture and a cut of it on which the
   * cut reports a status and the whole reports none.
   */
  lemma UnsafeCaptureMisleads(flags: Byte, pad: Byte, whole: nat, cut: nat, stream: Text) returns (capture: Text)
    requires cut <= whole < 0x100_0000 && |stream| == 4 && !SafeCut(flags, pad, whole, cut)
    ensures |capture| == HEADER_LENGTH + whole && StatusOf(capture) == None
    ensures StatusOf(capture[..HEADER_LENGTH + cut]) == Some(StatusText(200))
  {
    var payload := UnsafeCutMisleads(flags, pad, whole, cut);
    var f := Frame(HEADERS_TYPE, flags, stream, payload);
    capture := EncodeFrame(f);
    CaptureOfFrame(f, cut);
    CaptureOfFrame(f, whole);
    assert capture[..HEADER_LENGTH + whole] == capture && payload[..whole] == payload;
  }

  /**
   * Exactly when a cut HEADERS payload can be trusted: the status found in the cut is the status
   * of the whole for every content of these lengths if and only if the cut is safe.
   */
  lemma CutExact(flags: Byte, pad: Byte, whole: nat, cut: nat)
    requires cut <= whole
    ensures (forall frame :: Shape(flags, pad, whole, frame) ==> CutAgrees(flags, frame, cut))
            <==> SafeCut(flags, pad, whole, cut)
  {
    if SafeCut(flags, pad, whole, cut) {
      forall frame | Shape(flags, pad, whole, frame)
        ensures CutAgrees(flags, frame, cut)
      {
        SafeCutAgrees(flags, frame, cut);
      }
    } else {
      var frame := UnsafeCutMisleads(flags, pad, whole, cut);
    }
  }

  /** Without PADDED and PRIORITY every cut is safe. */
  lemma PlainCutIsSafe(flags: Byte, pad: nat, whole: nat, cut: nat)
    requires cut <= whole && !Padded(flags) && !Prioritized(flags)
    ensures SafeCut(flags, pad, whole, cut)
  {
  }

  /** The whole capture: a status found in a cut is the status of the whole if its HEADERS frame was cut safely. */
  lemma TruncationSafe(cut: Text, more: Text)
    requires StatusOf(cut).Some?
    ensures var c := FirstHeaders(WithoutPreface(cut), MAX_FRAMES).value;
            var w := FirstHeaders(WithoutPreface(cut + more), MAX_FRAMES);
            && w.Some?
            && (SafeCut(c.flags, if |c.payload| > 0 then c.payload[0] else 0, |w.value.payload|, |c.payload|)
                ==> StatusOf(cut + more) == StatusOf(cut))
  {
    CutHeaders(cut, more);
    var c := FirstHeaders(WithoutPreface(cut), MAX_FRAMES).value;
    var w := FirstHeaders(WithoutPreface(cut + more), MAX_FRAMES).value;
    assert w.payload[..|c.payload|] == c.payload;
    if |c.payload| > 0 &&
       SafeCut(c.flags, c.payload[0], |w.payload|, |c.payload|) {
      SafeCutAgrees(c.flags, w.payload, |c.payload|);
    }
  }
}
