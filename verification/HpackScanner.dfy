/**
 * The HPACK header-block walk: `hpackString`, `hpackLiteralStatus` and `hpackFindStatus`
 * against the field representations of sections 5.2 and 6 of RFC 7541.
 */
module HpackScanner {
  import opened Bytes
  import opened HpackInteger
  import opened HpackStatic
  import opened StatusDigits

  /** `hpackFindStatus` gives up after this many fields. */
  const MAX_FIELDS: nat := 64

  /** The static-table index of `:status` that the literal forms are matched against. */
  const STATUS_NAME_INDEX: nat := 8

  datatype StringLiteral = StringLiteral(bytes: Text, huffman: bool)

  datatype ParsedString = ParsedString(literal: StringLiteral, length: nat)

  /** `hpackString` */
  function ParseString(buf: Text): (r: Option<ParsedString>)
    ensures r.Some? ==> 1 <= r.value.length <= |buf|
  {
    if buf == [] then None
    else
      match Decode(buf, 7)
      case None => None
      case Some(d) =>
        DecodeBounds(buf, 7);
        var end := d.length + d.value;
        if end > |buf| then None
        else Some(ParsedString(StringLiteral(buf[d.length..end], buf[0] >= 128), end))
  }

  /** What one field at the front of a block tells the walk. */
  datatype FieldScan = Malformed | Status(text: Text) | Skip(length: nat)

  /** `hpackLiteralStatus` */
  function ScanLiteral(buf: Text, p: Prefix): (r: FieldScan)
    ensures r.Skip? ==> 1 <= r.length <= |buf|
  {
    match Decode(buf, p)
    case None => Malformed
    case Some(index) =>
      DecodeBounds(buf, p);
      var afterName :=
        if index.value != 0 then Some(index.length)
        else
          match ParseString(buf[index.length..])
          case None => None
          case Some(name) => Some(index.length + name.length);
      match afterName
      case None => Malformed
      case Some(pos) =>
        match ParseString(buf[pos..])
        case None => Malformed
        case Some(value) =>
          var status := StatusValue(value.literal.bytes, value.literal.huffman);
          if index.value == STATUS_NAME_INDEX && status.Some? then Status(status.value)
          else Skip(pos + value.length)
  }

  /** `http2StaticStatus` */
  function StaticStatus(index: nat): (r: Option<Text>) {
    if index == 8 then Some(StatusText(200))
    else if index == 9 then Some(StatusText(204))
    else if index == 10 then Some(StatusText(206))
    else if index == 11 then Some(StatusText(304))
    else if index == 12 then Some(StatusText(400))
    else if index == 13 then Some(StatusText(404))
    else if index == 14 then Some(StatusText(500))
    else None
  }

  /** One round of the walk: the four-way switch on the first byte. */
  function ScanField(block: Text): (r: FieldScan)
    requires block != []
    ensures r.Skip? ==> 1 <= r.length <= |block|
  {
    var b := block[0];
    if b >= 128 then
      match Decode(block, 7)
      case None => Malformed
      case Some(d) =>
        DecodeBounds(block, 7);
        if StaticStatus(d.value).Some? then Status(StaticStatus(d.value).value) else Skip(d.length)
    else if b >= 64 then ScanLiteral(block, 6)
    else if b >= 32 then
      match Decode(block, 5)
      case None => Malformed
      case Some(d) =>
        DecodeBounds(block, 5);
        Skip(d.length)
    else ScanLiteral(block, 4)
  }

  /** The status found among the first `n` fields of a block. */
  function Scan(block: Text, n: nat): (r: Option<Text>)
    decreases |block|
  {
    if block == [] || n == 0 then None
    else
      match ScanField(block)
      case Malformed => None
      case Status(text) => Some(text)
      case Skip(length) => Scan(block[length..], n - 1)
  }

  /** The body of the `hpackFindStatus` switch. */
  method ReadField(block: Text) returns (field: FieldScan)
    requires block != []
    ensures field == ScanField(block)
  {
    if block[0] >= 128 {
      var index, n, ok := HpackInt(block, 7);
      if !ok {
        return Malformed;
      }
      var fixed := StaticStatus(index);
      return if fixed.Some? then Status(fixed.value) else Skip(n);
    } else if 32 <= block[0] < 64 {
      var size, n, ok := HpackInt(block, 5);
      return if ok then Skip(n) else Malformed;
    } else {
      return ScanLiteral(block, if block[0] >= 64 then 6 else 4);
    }
  }

  /** `hpackFindStatus`; `rest` is `block[i:]`. */
  method FindStatus(block: Text) returns (status: Option<Text>)
    ensures status == Scan(block, MAX_FIELDS)
    ensures forall fields :: block == EncodeFields(fields) ==> status == FirstStatus(fields, 64)
  {
    ScanIsFirst(block, Scan(block, MAX_FIELDS));
    var rest, iter := block, 0;
    while rest != [] && iter < MAX_FIELDS
      invariant 0 <= iter <= MAX_FIELDS
      invariant Scan(block, MAX_FIELDS) == Scan(rest, MAX_FIELDS - iter)
      decreases |rest|
    {
      var field := ReadField(rest);
      match field
      case Malformed => return None;
      case Status(text) => return Some(text);
      case Skip(length) =>
        rest := rest[length..];
        iter := iter + 1;
    }
    return None;
  }

  // ---- Section 6: the representations a peer may send ----

  datatype Mode = Incremental | WithoutIndexing | NeverIndexed

  type NameIndex = n: nat | n >= 1 witness 1

  datatype Field =
    | Indexed(index: nat)
    | NamedLiteral(mode: Mode, nameIndex: NameIndex, value: StringLiteral)
    | NewLiteral(mode: Mode, name: StringLiteral, value: StringLiteral)
    | SizeUpdate(size: nat)

  function ModePrefix(mode: Mode): Prefix {
    if mode.Incremental? then 6 else 4
  }

  function ModeFlags(mode: Mode): nat {
    if mode.WithoutIndexing? then 0 else 1
  }

  function EncodeString(s: StringLiteral): Text {
    Encode(|s.bytes|, 7, if s.huffman then 1 else 0) + s.bytes
  }

  function EncodeIndex(mode: Mode, index: nat): (r: Text)
    ensures |r| >= 1
  {
    Encode(index, ModePrefix(mode), ModeFlags(mode))
  }

  function EncodeField(f: Field): Text {
    match f
    case Indexed(index) => Encode(index, 7, 1)
    case NamedLiteral(mode, index, value) => EncodeIndex(mode, index) + EncodeString(value)
    case NewLiteral(mode, name, value) => EncodeIndex(mode, 0) + (EncodeString(name) + EncodeString(value))
    case SizeUpdate(size) => Encode(size, 5, 1)
  }

  function EncodeFields(fields: seq<Field>): Text {
    if fields == [] then [] else EncodeField(fields[0]) + EncodeFields(fields[1..])
  }

  /** Whether every integer in the field is below the decoder's ceiling. */
  predicate FieldFits(f: Field) {
    match f
    case Indexed(index) => Fits(index, 7)
    case NamedLiteral(mode, index, value) => Fits(index, ModePrefix(mode)) && Fits(|value.bytes|, 7)
    case NewLiteral(_, name, value) => Fits(|name.bytes|, 7) && Fits(|value.bytes|, 7)
    case SizeUpdate(size) => Fits(size, 5)
  }

  /** The status a field carries, if the scanner recognises it as one. */
  function FieldStatus(f: Field): Option<Text> {
    match f
    case Indexed(index) => StatusEntry(index)
    case NamedLiteral(_, index, value) =>
      if NamesStatus(index) then StatusValue(value.bytes, value.huffman) else None
    case NewLiteral(_, _, _) => None
    case SizeUpdate(_) => None
  }

  /** The first status among the first `n` fields, the list ending early at an oversized integer. */
  function FirstStatus(fields: seq<Field>, n: nat): Option<Text> {
    if fields == [] || n == 0 || !FieldFits(fields[0]) then None
    else if FieldStatus(fields[0]).Some? then FieldStatus(fields[0])
    else FirstStatus(fields[1..], n - 1)
  }

  /** The flag bits survive in the first byte, which is what the scanner switches on. */
  lemma FirstByteRange(v: nat, p: Prefix, flags: nat)
    requires (flags + 1) * (Mask(p) + 1) <= 256
    ensures flags * (Mask(p) + 1) <= Encode(v, p, flags)[0] < (flags + 1) * (Mask(p) + 1)
  {
    assert (flags + 1) * (Mask(p) + 1) == flags * (Mask(p) + 1) + Mask(p) + 1;
  }

  lemma StringRoundTrip(s: StringLiteral, suffix: Text)
    ensures ParseString(EncodeString(s) + suffix) ==
            if Fits(|s.bytes|, 7) then Some(ParsedString(s, |EncodeString(s)|)) else None
  {
    var flags := if s.huffman then 1 else 0;
    var head := Encode(|s.bytes|, 7, flags);
    var buf := EncodeString(s) + suffix;
    assert buf == head + (s.bytes + suffix);
    RoundTrip(|s.bytes|, 7, flags, s.bytes + suffix);
    FirstByteRange(|s.bytes|, 7, flags);
    if Fits(|s.bytes|, 7) {
      assert buf[|head|..|head| + |s.bytes|] == s.bytes;
    }
  }

  /** What a literal is read as, once its integers and strings are known. */
  lemma LiteralParts(buf: Text, p: Prefix, index: Decoded, pos: nat)
    requires Decode(buf, p) == Some(index) && index.length <= pos <= |buf|
    requires if index.value != 0 then pos == index.length
             else index.length <= |buf| && ParseString(buf[index.length..]).Some? &&
                  pos == index.length + ParseString(buf[index.length..]).value.length
    ensures var value := ParseString(buf[pos..]);
            ScanLiteral(buf, p) ==
            if value.None? then Malformed
            else
              var status := StatusValue(value.value.literal.bytes, value.value.literal.huffman);
              if index.value == STATUS_NAME_INDEX && status.Some? then Status(status.value)
              else Skip(pos + value.value.length)
  {
  }

  lemma NamedLiteralRoundTrip(mode: Mode, index: NameIndex, value: StringLiteral, suffix: Text)
    ensures ScanLiteral(EncodeIndex(mode, index) + (EncodeString(value) + suffix), ModePrefix(mode)) ==
            if !Fits(index, ModePrefix(mode)) || !Fits(|value.bytes|, 7) then Malformed
            else if index == STATUS_NAME_INDEX && StatusValue(value.bytes, value.huffman).Some?
            then Status(StatusValue(value.bytes, value.huffman).value)
            else Skip(|EncodeIndex(mode, index)| + |EncodeString(value)|)
  {
    var head, tail := EncodeIndex(mode, index), EncodeString(value) + suffix;
    RoundTrip(index, ModePrefix(mode), ModeFlags(mode), tail);
    if Fits(index, ModePrefix(mode)) {
      DropHead(head, tail);
      LiteralParts(head + tail, ModePrefix(mode), Decoded(index, |head|), |head|);
      StringRoundTrip(value, suffix);
    }
  }

  lemma NewLiteralParts(head: Text, n: Text, rest: Text, p: Prefix)
    requires Decode(head + (n + rest), p) == Some(Decoded(0, |head|))
    ensures var name, value := ParseString(n + rest), ParseString(rest);
            && (name.None? ==> ScanLiteral(head + (n + rest), p) == Malformed)
            && (name.Some? && name.value.length == |n| ==>
                ScanLiteral(head + (n + rest), p) ==
                if value.None? then Malformed else Skip(|head| + |n| + value.value.length))
  {
    DropHead(head, n + rest);
    DropHeads(head, n, rest);
  }

  lemma NewLiteralRoundTrip(mode: Mode, name: StringLiteral, value: StringLiteral, suffix: Text)
    ensures ScanLiteral(EncodeIndex(mode, 0) + (EncodeString(name) + (EncodeString(value) + suffix)), ModePrefix(mode)) ==
            if !Fits(|name.bytes|, 7) || !Fits(|value.bytes|, 7) then Malformed
            else Skip(|EncodeIndex(mode, 0)| + |EncodeString(name)| + |EncodeString(value)|)
  {
    var head, n, rest := EncodeIndex(mode, 0), EncodeString(name), EncodeString(value) + suffix;
    RoundTrip(0, ModePrefix(mode), ModeFlags(mode), n + rest);
    StringRoundTrip(name, rest);
    StringRoundTrip(value, suffix);
    NewLiteralParts(head, n, rest, ModePrefix(mode));
  }

  /** The switch sends a literal to the reader of its mode. */
  lemma LiteralDispatch(mode: Mode, index: nat, rest: Text)
    ensures ScanField(EncodeIndex(mode, index) + rest) == ScanLiteral(EncodeIndex(mode, index) + rest, ModePrefix(mode))
  {
    FirstByteRange(index, ModePrefix(mode), ModeFlags(mode));
  }

  lemma DecimalText(code: nat, s: string)
    requires 100 <= code <= 599 && s == [(48 + code / 100) as char, (48 + code / 10 % 10) as char, (48 + code % 10) as char]
    ensures AsText(s) == StatusText(code) && AsLabel(StatusText(code)) == s
  {
  }

  /** The scanner's entry at `index` is the static table's. */
  predicate SameStatus(index: nat) {
    && StaticStatus(index) == StatusEntry(index)
    && (StatusEntry(index).Some? ==> AsLabel(StatusEntry(index).value) == Table(index).value.value)
  }

  lemma SameSuccess(index: nat)
    requires 8 <= index <= 10
    ensures SameStatus(index)
  {
    DecimalText(200, "200");
    DecimalText(204, "204");
    DecimalText(206, "206");
  }

  lemma SameOther(index: nat)
    requires 11 <= index <= 14
    ensures SameStatus(index)
  {
    DecimalText(304, "304");
    DecimalText(400, "400");
    DecimalText(404, "404");
    DecimalText(500, "500");
  }

  lemma StaticAgrees(index: nat)
    ensures SameStatus(index)
  {
    StatusEntries(index);
    if 8 <= index <= 10 {
      SameSuccess(index);
    } else if 11 <= index <= 14 {
      SameOther(index);
    }
  }

  lemma IndexedRoundTrip(index: nat, suffix: Text)
    ensures ScanField(Encode(index, 7, 1) + suffix) ==
            if !Fits(index, 7) then Malformed
            else if StatusEntry(index).Some? then Status(StatusEntry(index).value)
            else Skip(|Encode(index, 7, 1)|)
  {
    FirstByteRange(index, 7, 1);
    RoundTrip(index, 7, 1, suffix);
    StaticAgrees(index);
  }

  /** An indexed field is read as a status exactly if the static table has that status at its index. */
  lemma IndexedExactly(index: nat, suffix: Text, value: string)
    ensures var field := ScanField(Encode(index, 7, 1) + suffix);
            field.Status? && AsLabel(field.text) == value <==> Table(index) == Some(Entry(":status", value))
  {
    IndexedRoundTrip(index, suffix);
    StaticAgrees(index);
    StatusEntries(index);
  }

  lemma SizeUpdateRoundTrip(size: nat, suffix: Text)
    ensures ScanField(Encode(size, 5, 1) + suffix) == if Fits(size, 5) then Skip(|Encode(size, 5, 1)|) else Malformed
  {
    FirstByteRange(size, 5, 1);
    RoundTrip(size, 5, 1, suffix);
  }

  /** What a field tells the walk. */
  function FieldMeaning(f: Field): FieldScan {
    if !FieldFits(f) then Malformed
    else if FieldStatus(f).Some? then Status(FieldStatus(f).value)
    else Skip(|EncodeField(f)|)
  }

  /** One encoded field is read as exactly the field that was written. */
  lemma FieldRoundTrip(f: Field, suffix: Text)
    ensures EncodeField(f) != []
    ensures ScanField(EncodeField(f) + suffix) == FieldMeaning(f)
  {
    match f
    case Indexed(index) => IndexedRoundTrip(index, suffix);
    case NamedLiteral(mode, index, value) =>
      Rejoin(EncodeIndex(mode, index), EncodeString(value), suffix);
      LiteralDispatch(mode, index, EncodeString(value) + suffix);
      NamedLiteralRoundTrip(mode, index, value, suffix);
      StatusEntries(index);
    case NewLiteral(mode, name, value) =>
      Rejoin(EncodeIndex(mode, 0), EncodeString(name) + EncodeString(value), suffix);
      Rejoin(EncodeString(name), EncodeString(value), suffix);
      LiteralDispatch(mode, 0, EncodeString(name) + (EncodeString(value) + suffix));
      NewLiteralRoundTrip(mode, name, value, suffix);
    case SizeUpdate(size) => SizeUpdateRoundTrip(size, suffix);
  }

  /** What the walk returns for a field, given what it would return for the rest. */
  function Verdict(field: FieldScan, rest: Option<Text>): Option<Text> {
    match field
    case Malformed => None
    case Status(text) => Some(text)
    case Skip(_) => rest
  }

  /** The walk takes in the field at the front, and goes on after it. */
  lemma ScanFirst(f: Field, rest: Text, n: nat)
    requires n > 0
    ensures Scan(EncodeField(f) + rest, n) == Verdict(FieldMeaning(f), Scan(rest, n - 1))
  {
    FieldRoundTrip(f, rest);
    DropHead(EncodeField(f), rest);
  }

  /** A walk that takes fields one at a time. */
  ghost predicate WalksFields(walk: (Text, nat) -> Option<Text>) {
    && (forall block, n: nat :: block == [] || n == 0 ==> walk(block, n) == None)
    && (forall f, rest, n: nat :: n > 0 ==> walk(EncodeField(f) + rest, n) == Verdict(FieldMeaning(f), walk(rest, n - 1)))
  }

  lemma {:induction false} WalkInvertsEncoding(walk: (Text, nat) -> Option<Text>, fields: seq<Field>, n: nat)
    requires WalksFields(walk)
    ensures walk(EncodeFields(fields), n) == FirstStatus(fields, n)
    decreases |fields|
  {
    if fields == [] || n == 0 {
    } else {
      WalkInvertsEncoding(walk, fields[1..], n - 1);
      assert walk(EncodeField(fields[0]) + EncodeFields(fields[1..]), n) ==
             Verdict(FieldMeaning(fields[0]), walk(EncodeFields(fields[1..]), n - 1));
    }
  }

  function Scanner(): (Text, nat) -> Option<Text> {
    (block: Text, n: nat) => Scan(block, n)
  }

  lemma ScannerWalks()
    ensures WalksFields(Scanner())
  {
    forall f, rest, n: nat | n > 0
      ensures Scan(EncodeField(f) + rest, n) == Verdict(FieldMeaning(f), Scan(rest, n - 1))
    {
      ScanFirst(f, rest, n);
    }
  }

  /** The walk inverts the encoding of every header list. */
  lemma ScanInvertsEncoding(fields: seq<Field>, n: nat)
    ensures Scan(EncodeFields(fields), n) == FirstStatus(fields, n)
  {
    ScannerWalks();
    WalkInvertsEncoding(Scanner(), fields, n);
  }

  /** A status found is the text of a code. */
  lemma {:induction false} FirstStatusText(fields: seq<Field>, n: nat)
    ensures FirstStatus(fields, n).Some? ==> IsStatusText(FirstStatus(fields, n).value)
    decreases |fields|
  {
    if fields == [] || n == 0 || !FieldFits(fields[0]) {
    } else if FieldStatus(fields[0]).Some? {
      if fields[0].Indexed? {
        StaticAgrees(fields[0].index);
      }
    } else {
      FirstStatusText(fields[1..], n - 1);
    }
  }

  /** What `hpackFindStatus` owes a block that is an encoding. */
  lemma ScanIsFirst(block: Text, found: Option<Text>)
    requires found == Scan(block, MAX_FIELDS)
    ensures forall fields :: block == EncodeFields(fields) ==> found == FirstStatus(fields, 64)
  {
    forall fields | block == EncodeFields(fields)
      ensures found == FirstStatus(fields, 64)
    {
      ScanInvertsEncoding(fields, 64);
    }
  }

  // ---- Truncated captures ----

  lemma StringExtends(buf: Text, more: Text)
    requires ParseString(buf).Some?
    ensures ParseString(buf + more) == ParseString(buf)
  {
    DecodeExtends(buf, more, 7);
    var d := Decode(buf, 7).value;
    assert (buf + more)[d.length..d.length + d.value] == buf[d.length..d.length + d.value];
  }

  lemma LiteralExtends(buf: Text, more: Text, p: Prefix)
    requires !ScanLiteral(buf, p).Malformed?
    ensures ScanLiteral(buf + more, p) == ScanLiteral(buf, p)
  {
    DecodeExtends(buf, more, p);
    DecodeBounds(buf, p);
    var index := Decode(buf, p).value;
    var pos := index.length;
    DropPrefix(buf, more, pos);
    if index.value == 0 {
      StringExtends(buf[pos..], more);
      pos := pos + ParseString(buf[pos..]).value.length;
      DropPrefix(buf, more, pos);
    }
    StringExtends(buf[pos..], more);
    LiteralParts(buf, p, index, pos);
    LiteralParts(buf + more, p, index, pos);
  }

  lemma FieldExtends(block: Text, more: Text)
    requires block != [] && !ScanField(block).Malformed?
    ensures ScanField(block + more) == ScanField(block)
  {
    assert (block + more)[0] == block[0];
    if block[0] >= 128 {
      DecodeExtends(block, more, 7);
    } else if block[0] >= 64 {
      LiteralExtends(block, more, 6);
    } else if block[0] >= 32 {
      DecodeExtends(block, more, 5);
    } else {
      LiteralExtends(block, more, 4);
    }
  }

  /** A field that is skipped in a cut is skipped in the whole, and the walk goes on after it. */
  lemma SkipExtends(block: Text, more: Text, n: nat, length: nat)
    requires block != [] && n > 0 && ScanField(block) == Skip(length)
    ensures Scan(block, n) == Scan(block[length..], n - 1)
    ensures Scan(block + more, n) == Scan(block[length..] + more, n - 1)
  {
    FieldExtends(block, more);
    DropPrefix(block, more, length);
  }

  lemma FoundExtends(block: Text, more: Text, n: nat)
    requires block != [] && n > 0 && ScanField(block).Status?
    ensures Scan(block + more, n) == Scan(block, n)
  {
    FieldExtends(block, more);
  }

  /** A status found in a truncated block is the status of the whole block. */
  lemma {:induction false} ScanExtends(block: Text, more: Text, n: nat)
    ensures Scan(block, n).Some? ==> Scan(block + more, n) == Scan(block, n)
    decreases |block|
  {
    if block == [] || n == 0 {
    } else {
      match ScanField(block)
      case Malformed =>
      case Status(_) => FoundExtends(block, more, n);
      case Skip(length) =>
        SkipExtends(block, more, n, length);
        ScanExtends(block[length..], more, n - 1);
    }
  }
}
