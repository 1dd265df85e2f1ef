/** `readName`: DNS names with compression pointers (section 4.1.4 of RFC 1035). */
module DnsName {
  import opened Bytes

  /** Compression pointers followed before a name is given up. */
  const MAX_JUMPS: nat := 8

  const DOT: Byte := 46

  /** A name's text, every label followed by a dot, and the offset just past it. */
  datatype Name = Name(text: Text, next: nat)

  predicate IsPointer(b: Byte) { b >= 192 }

  /** Where the pointer at `offset` leads: the low 14 bits. */
  function Target(p: Text, offset: nat): (r: nat)
    requires offset + 1 < |p|
  {
    p[offset] as int % 64 * 256 + p[offset + 1]
  }

  /** The name at `offset` when `jumps` pointers have been followed already. */
  function Read(p: Text, offset: nat, jumps: nat): (r: Option<Name>)
    requires jumps <= MAX_JUMPS
    decreases MAX_JUMPS - jumps, |p| - offset
  {
    if offset >= |p| then None
    else if p[offset] == 0 then Some(Name([], offset + 1))
    else if IsPointer(p[offset]) then
      if offset + 1 >= |p| || jumps + 1 > MAX_JUMPS then None
      else
        match Read(p, Target(p, offset), jumps + 1)
        case None => None
        case Some(n) => Some(Name(n.text, offset + 2))
    else
      var end := offset + 1 + p[offset];
      if end > |p| then None
      else
        match Read(p, end, jumps)
        case None => None
        case Some(n) => Some(Name(p[offset + 1..end] + [DOT] + n.text, n.next))
  }

  /** `readName` */
  method ReadName(p: Text, start: nat) returns (name: Text, next: nat, ok: bool)
    ensures ok <==> Read(p, start, 0).Some?
    ensures ok ==> Read(p, start, 0) == Some(Name(name, next))
    ensures !ok ==> name == [] && next == 0
  {
    var offset, jumps := start, 0;
    var final: int := -1;
    name := [];
    assert Read(p, start, 0).Some? ==> name + Read(p, start, 0).value.text == Read(p, start, 0).value.text;
    while true
      invariant 0 <= jumps <= MAX_JUMPS && 0 <= offset
      invariant Read(p, start, 0) ==
                match Read(p, offset, jumps)
                case None => None
                case Some(n) => Some(Name(name + n.text, if final < 0 then n.next else final))
      decreases MAX_JUMPS - jumps, |p| - offset
    {
      if offset >= |p| {
        return [], 0, false;
      }
      var length := p[offset];
      if length == 0 {
        offset := offset + 1;
        break;
      }
      if IsPointer(length) {
        if offset + 1 >= |p| {
          return [], 0, false;
        }
        var target := Target(p, offset);
        if jumps + 1 > MAX_JUMPS {
          return [], 0, false;
        }
        if final < 0 {
          final := offset + 2;
        }
        offset := target;
        jumps := jumps + 1;
        continue;
      }
      if offset + 1 + length > |p| {
        return [], 0, false;
      }
      var piece := p[offset + 1..offset + 1 + length];
      ghost var rest := Read(p, offset + 1 + length, jumps);
      if rest.Some? {
        assert name + (piece + [DOT] + rest.value.text) == name + piece + [DOT] + rest.value.text;
      }
      name := name + piece + [DOT];
      offset := offset + 1 + length;
    }
    assert name + [] == name;
    if final < 0 {
      final := offset;
    }
    return name, final, true;
  }

  // ---- The name relation of section 4.1.4 ----

  /** The steps of a name: labels and pointers up to the terminating zero. */
  datatype Walk = Stop | Label(rest: Walk) | Jump(rest: Walk)

  /**
   * A finite walk from `offset` to a terminator. Length bytes 64 to 191, reserved by the RFC,
   * count as labels, as they do in the parser.
   */
  predicate Walks(p: Text, offset: nat, w: Walk)
    decreases w
  {
    offset < |p| &&
    match w
    case Stop => p[offset] == 0
    case Label(rest) =>
      0 < p[offset] < 192 && offset + 1 + p[offset] <= |p| && Walks(p, offset + 1 + p[offset], rest)
    case Jump(rest) =>
      IsPointer(p[offset]) && offset + 1 < |p| && Walks(p, Target(p, offset), rest)
  }

  function WalkText(p: Text, offset: nat, w: Walk): Text
    requires Walks(p, offset, w)
    decreases w
  {
    match w
    case Stop => []
    case Label(rest) =>
      var end := offset + 1 + p[offset];
      p[offset + 1..end] + [DOT] + WalkText(p, end, rest)
    case Jump(rest) => WalkText(p, Target(p, offset), rest)
  }

  /** Just past the first pointer, or past the terminator when there is none. */
  function WalkNext(p: Text, offset: nat, w: Walk): nat
    requires Walks(p, offset, w)
    decreases w
  {
    match w
    case Stop => offset + 1
    case Label(rest) => WalkNext(p, offset + 1 + p[offset], rest)
    case Jump(_) => offset + 2
  }

  function Jumps(w: Walk): nat {
    match w
    case Stop => 0
    case Label(rest) => Jumps(rest)
    case Jump(rest) => 1 + Jumps(rest)
  }

  function Steps(w: Walk): nat {
    match w
    case Stop => 0
    case Label(rest) => 1 + Steps(rest)
    case Jump(rest) => 1 + Steps(rest)
  }

  lemma {:induction false} ReadComplete(p: Text, offset: nat, jumps: nat, w: Walk)
    requires Walks(p, offset, w) && jumps <= MAX_JUMPS
    ensures Read(p, offset, jumps) ==
            if jumps + Jumps(w) <= MAX_JUMPS
            then Some(Name(WalkText(p, offset, w), WalkNext(p, offset, w)))
            else None
    decreases w
  {
    match w
    case Stop =>
    case Label(rest) => ReadComplete(p, offset + 1 + p[offset], jumps, rest);
    case Jump(rest) =>
      if jumps < MAX_JUMPS {
        ReadComplete(p, Target(p, offset), jumps + 1, rest);
      }
  }

  lemma {:induction false} ReadSound(p: Text, offset: nat, jumps: nat) returns (w: Walk)
    requires jumps <= MAX_JUMPS && Read(p, offset, jumps).Some?
    ensures Walks(p, offset, w) && jumps + Jumps(w) <= MAX_JUMPS
    decreases MAX_JUMPS - jumps, |p| - offset
  {
    if p[offset] == 0 {
      w := Stop;
    } else if IsPointer(p[offset]) {
      var rest := ReadSound(p, Target(p, offset), jumps + 1);
      w := Jump(rest);
    } else {
      var rest := ReadSound(p, offset + 1 + p[offset], jumps);
      w := Label(rest);
    }
  }

  /** Sound and complete: a name is read exactly when a walk of at most eight pointers ends it. */
  lemma ReadExact(p: Text, offset: nat, n: Name)
    ensures Read(p, offset, 0) == Some(n) <==>
            exists w :: Walks(p, offset, w) && Jumps(w) <= 8
                        && n == Name(WalkText(p, offset, w), WalkNext(p, offset, w))
  {
    if Read(p, offset, 0) == Some(n) {
      var w := ReadSound(p, offset, 0);
      ReadComplete(p, offset, 0, w);
    }
    if w :| Walks(p, offset, w) && Jumps(w) <= MAX_JUMPS
            && n == Name(WalkText(p, offset, w), WalkNext(p, offset, w)) {
      ReadComplete(p, offset, 0, w);
    }
  }

  // ---- Pointer cycles ----

  /** Where one label or pointer leads. */
  function Successor(p: Text, offset: nat): Option<nat> {
    if offset >= |p| || p[offset] == 0 then None
    else if IsPointer(p[offset]) then (if offset + 1 < |p| then Some(Target(p, offset)) else None)
    else Some(offset + 1 + p[offset])
  }

  function Follow(p: Text, offset: nat, n: nat): Option<nat>
    decreases n
  {
    if n == 0 then Some(offset)
    else
      match Successor(p, offset)
      case None => None
      case Some(o) => Follow(p, o, n - 1)
  }

  lemma {:induction false} WalkUnique(p: Text, offset: nat, v: Walk, w: Walk)
    requires Walks(p, offset, v) && Walks(p, offset, w)
    ensures v == w
    decreases v
  {
    match v
    case Stop =>
    case Label(rest) => WalkUnique(p, offset + 1 + p[offset], rest, w.rest);
    case Jump(rest) => WalkUnique(p, Target(p, offset), rest, w.rest);
  }

  lemma {:induction false} WalkFollows(p: Text, offset: nat, w: Walk, n: nat) returns (v: Walk)
    requires Walks(p, offset, w) && Follow(p, offset, n).Some?
    ensures Walks(p, Follow(p, offset, n).value, v) && Steps(w) == n + Steps(v)
    decreases n
  {
    if n == 0 {
      v := w;
    } else {
      v := WalkFollows(p, Successor(p, offset).value, w.rest, n - 1);
    }
  }

  /** A name that runs into a cycle of labels and pointers is rejected. */
  lemma CycleRejected(p: Text, offset: nat, lead: nat, cycle: nat)
    requires cycle >= 1 && Follow(p, offset, lead).Some?
    requires Follow(p, Follow(p, offset, lead).value, cycle) == Follow(p, offset, lead)
    ensures Read(p, offset, 0).None?
  {
    if Read(p, offset, 0).Some? {
      var w := ReadSound(p, offset, 0);
      var entry := Follow(p, offset, lead).value;
      var v := WalkFollows(p, offset, w, lead);
      var again := WalkFollows(p, entry, v, cycle);
      WalkUnique(p, entry, v, again);
    }
  }

  // ---- Bounds and truncation ----

  /** Work is bounded by the bytes present: at most nine passes over the payload. */
  lemma ReadBounds(p: Text, offset: nat)
    requires Read(p, offset, 0).Some?
    ensures offset < Read(p, offset, 0).value.next <= |p|
    ensures |Read(p, offset, 0).value.text| <= 9 * |p|
  {
    ReadBoundsFrom(p, offset, 0);
  }

  lemma {:induction false} ReadBoundsFrom(p: Text, offset: nat, jumps: nat)
    requires jumps <= MAX_JUMPS && Read(p, offset, jumps).Some?
    ensures offset < Read(p, offset, jumps).value.next <= |p|
    ensures |Read(p, offset, jumps).value.text| <= |p| - offset + (MAX_JUMPS - jumps) * |p|
    decreases MAX_JUMPS - jumps, |p| - offset
  {
    if p[offset] == 0 {
      assert (MAX_JUMPS - jumps) * |p| >= 0;
    } else if IsPointer(p[offset]) {
      ReadBoundsFrom(p, Target(p, offset), jumps + 1);
      assert (MAX_JUMPS - jumps) * |p| == (MAX_JUMPS - jumps - 1) * |p| + |p|;
    } else {
      ReadBoundsFrom(p, offset + 1 + p[offset], jumps);
    }
  }

  /** A name read from a cut is the name in the whole. */
  lemma {:induction false} ReadExtends(p: Text, more: Text, offset: nat, jumps: nat)
    requires jumps <= MAX_JUMPS && Read(p, offset, jumps).Some?
    ensures Read(p + more, offset, jumps) == Read(p, offset, jumps)
    decreases MAX_JUMPS - jumps, |p| - offset
  {
    var whole := p + more;
    assert whole[offset] == p[offset];
    if p[offset] == 0 {
    } else if IsPointer(p[offset]) {
      assert whole[offset + 1] == p[offset + 1];
      ReadExtends(p, more, Target(p, offset), jumps + 1);
    } else {
      var end := offset + 1 + p[offset];
      assert whole[offset + 1..end] == p[offset + 1..end];
      ReadExtends(p, more, end, jumps);
    }
  }
}
