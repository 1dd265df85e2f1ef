/** HPACK variable-length integers: `hpackInt` against section 5.1 of RFC 7541. */
module HpackInteger {
  import opened Bytes

  /** One past the largest amount that can follow a saturated prefix: six 7-bit groups. */
  const TAIL_LIMIT: nat := 0x400_0000_0000

  datatype Decoded = Decoded(value: nat, length: nat)

  /** Prefix widths of section 5.1. */
  type Prefix = p: int | 1 <= p <= 8 witness 5

  function Mask(p: Prefix): (m: nat)
    ensures 1 <= m <= 255
  {
    [1, 3, 7, 15, 31, 63, 127, 255][p - 1]
  }

  /** The 7-bit groups from index `i` on, least significant first. At most six are accepted. */
  function DecodeTail(buf: Text, i: nat): (r: Option<Decoded>)
    requires 1 <= i
    decreases |buf| - i
  {
    if i >= |buf| || i > 6 then None
    else if buf[i] < 128 then Some(Decoded(buf[i], i + 1))
    else
      match DecodeTail(buf, i + 1)
      case None => None
      case Some(d) => Some(Decoded(buf[i] - 128 + 128 * d.value, d.length))
  }

  /** What the integer at the front of `buf` stands for. */
  function Decode(buf: Text, p: Prefix): (r: Option<Decoded>) {
    if buf == [] then None
    else
      var low := buf[0] % (Mask(p) + 1);
      if low < Mask(p) then Some(Decoded(low, 1))
      else
        match DecodeTail(buf, 1)
        case None => None
        case Some(d) => Some(Decoded(Mask(p) + d.value, d.length))
  }

  /** The integer so far, with the groups still to come. */
  function Pending(value: nat, scale: nat, tail: Option<Decoded>): Option<Decoded> {
    match tail
    case None => None
    case Some(d) => Some(Decoded(value + scale * d.value, d.length))
  }

  /** `hpackInt`: the shift-and-add loop. */
  method HpackInt(buf: Text, p: Prefix) returns (value: nat, length: nat, ok: bool)
    ensures ok <==> Decode(buf, p).Some?
    ensures ok ==> Decode(buf, p) == Some(Decoded(value, length))
    ensures !ok ==> value == 0 && length == 0
  {
    if |buf| == 0 {
      return 0, 0, false;
    }
    value := buf[0] % (Mask(p) + 1);
    if value < Mask(p) {
      return value, 1, true;
    }
    var shift, i := 0, 1;
    while true
      invariant 1 <= i <= 7
      invariant Decode(buf, p) == Pending(value, Pow2(shift), DecodeTail(buf, i))
      decreases 7 - i
    {
      if i >= |buf| || i > 6 {
        return 0, 0, false;
      }
      var b := buf[i];
      Group(buf, i, value, Pow2(shift));
      value := value + b % 128 * Pow2(shift);
      if b < 128 {
        return value, i + 1, true;
      }
      SevenMore(shift);
      shift := shift + 7;
      i := i + 1;
    }
  }

  /** Taking in one group. */
  lemma Group(buf: Text, i: nat, value: nat, scale: nat)
    requires 1 <= i <= 6 && i < |buf|
    ensures Pending(value, scale, DecodeTail(buf, i)) ==
            if buf[i] < 128 then Some(Decoded(value + buf[i] % 128 * scale, i + 1))
            else Pending(value + buf[i] % 128 * scale, 128 * scale, DecodeTail(buf, i + 1))
  {
    var rest := DecodeTail(buf, i + 1);
    if buf[i] >= 128 && rest.Some? {
      Regroup(value, scale, buf[i], rest.value.value);
    }
  }

  lemma SevenMore(n: nat)
    ensures Pow2(n + 7) == 128 * Pow2(n)
  {
    assert Pow2(n + 7) == 2 * Pow2(n + 6) == 4 * Pow2(n + 5) == 8 * Pow2(n + 4);
    assert Pow2(n + 4) == 2 * Pow2(n + 3) == 4 * Pow2(n + 2) == 8 * Pow2(n + 1);
  }

  lemma Regroup(value: nat, scale: nat, b: Byte, rest: nat)
    requires b >= 128
    ensures value + scale * (b - 128 + 128 * rest) == value + b % 128 * scale + 128 * scale * rest
  {
    assert scale * (b - 128 + 128 * rest) == scale * (b - 128) + scale * (128 * rest);
  }

  // ---- The encoder of section 5.1, and the round trip ----

  function EncodeTail(x: nat): (r: Text)
    ensures |r| >= 1
  {
    if x < 128 then [x] else [x % 128 + 128] + EncodeTail(x / 128)
  }

  /** `flags` are the bits above the prefix in the first byte. */
  function Encode(v: nat, p: Prefix, flags: nat): (r: Text)
    requires (flags + 1) * (Mask(p) + 1) <= 256
    ensures |r| >= 1
  {
    if v < Mask(p) then [flags * (Mask(p) + 1) + v]
    else [flags * (Mask(p) + 1) + Mask(p)] + EncodeTail(v - Mask(p))
  }

  /** How much the groups from index `i` on can carry. */
  function TailRoom(i: nat): (r: nat)
    requires i <= 7
    ensures r >= 1
    decreases 7 - i
  {
    if i == 7 then 1 else 128 * TailRoom(i + 1)
  }

  /** Whether an integer is small enough for the decoder's seven-byte ceiling. */
  predicate Fits(v: nat, p: Prefix) {
    v < Mask(p) + TAIL_LIMIT
  }

  lemma {:induction false} TailRoundTrip(before: Text, x: nat, suffix: Text)
    requires 1 <= |before| <= 7
    ensures DecodeTail(before + EncodeTail(x) + suffix, |before|) ==
            if x < TailRoom(|before|) && |before| < 7
            then Some(Decoded(x, |before| + |EncodeTail(x)|))
            else None
    decreases 7 - |before|
  {
    var buf := before + EncodeTail(x) + suffix;
    if |before| < 7 {
      if x < 128 {
        assert buf[|before|] == x;
      } else {
        var b: Byte := x % 128 + 128;
        assert before + [b] + EncodeTail(x / 128) + suffix == buf;
        TailRoundTrip(before + [b], x / 128, suffix);
        assert buf[|before|] == b;
      }
    }
  }

  /** Decoding inverts encoding for every integer, prefix, flag bits and following bytes. */
  lemma RoundTrip(v: nat, p: Prefix, flags: nat, suffix: Text)
    requires (flags + 1) * (Mask(p) + 1) <= 256
    ensures Decode(Encode(v, p, flags) + suffix, p) ==
            if Fits(v, p) then Some(Decoded(v, |Encode(v, p, flags)|)) else None
  {
    var size := Mask(p) + 1;
    var buf := Encode(v, p, flags) + suffix;
    var low := if v < Mask(p) then v else Mask(p);
    FirstByte(flags, p, low);
    if v >= Mask(p) {
      var first: Text := [flags * size + Mask(p)];
      assert buf == first + EncodeTail(v - Mask(p)) + suffix;
      TailRoundTrip(first, v - Mask(p), suffix);
    }
  }

  lemma FirstByteNarrow(flags: nat, p: Prefix, low: nat)
    requires p <= 4 && low <= Mask(p) && (flags + 1) * (Mask(p) + 1) <= 256
    ensures flags * (Mask(p) + 1) + low < 256 && (flags * (Mask(p) + 1) + low) % (Mask(p) + 1) == low
  {
    if p == 1 {
    } else if p == 2 {
    } else if p == 3 {
    } else {
    }
  }

  lemma FirstByteWide(flags: nat, p: Prefix, low: nat)
    requires p > 4 && low <= Mask(p) && (flags + 1) * (Mask(p) + 1) <= 256
    ensures flags * (Mask(p) + 1) + low < 256 && (flags * (Mask(p) + 1) + low) % (Mask(p) + 1) == low
  {
    if p == 5 {
    } else if p == 6 {
    } else if p == 7 {
    } else {
    }
  }

  lemma FirstByte(flags: nat, p: Prefix, low: nat)
    requires low <= Mask(p) && (flags + 1) * (Mask(p) + 1) <= 256
    ensures 0 <= flags * (Mask(p) + 1) + low < 256
    ensures (flags * (Mask(p) + 1) + low) % (Mask(p) + 1) == low
  {
    if p <= 4 {
      FirstByteNarrow(flags, p, low);
    } else {
      FirstByteWide(flags, p, low);
    }
  }

  /** Every accepted input uses one to seven bytes and stays far below 63 bits. */
  lemma DecodeBounds(buf: Text, p: Prefix)
    requires Decode(buf, p).Some?
    ensures 1 <= Decode(buf, p).value.length <= 7
    ensures Decode(buf, p).value.length <= |buf|
    ensures Fits(Decode(buf, p).value.value, p)
    ensures Decode(buf, p).value.value + Decode(buf, p).value.length < 0x7fff_ffff_ffff_ffff
  {
    if DecodeTail(buf, 1).Some? {
      TailBounds(buf, 1);
    }
  }

  lemma {:induction false} TailBounds(buf: Text, i: nat)
    requires 1 <= i <= 7 && DecodeTail(buf, i).Some?
    ensures i < DecodeTail(buf, i).value.length <= 7
    ensures DecodeTail(buf, i).value.length <= |buf|
    ensures DecodeTail(buf, i).value.value < TailRoom(i)
    decreases 7 - i
  {
    if buf[i] < 128 {
    } else {
      TailBounds(buf, i + 1);
    }
  }

  /** A decoded integer does not depend on the bytes after it. */
  lemma DecodeExtends(buf: Text, more: Text, p: Prefix)
    requires Decode(buf, p).Some?
    ensures Decode(buf + more, p) == Decode(buf, p)
  {
    if DecodeTail(buf, 1).Some? {
      TailExtends(buf, more, 1);
    }
  }

  lemma {:induction false} TailExtends(buf: Text, more: Text, i: nat)
    requires 1 <= i && DecodeTail(buf, i).Some?
    ensures DecodeTail(buf + more, i) == DecodeTail(buf, i)
    decreases |buf| - i
  {
    if buf[i] < 128 {
    } else {
      TailExtends(buf, more, i + 1);
    }
  }
}
