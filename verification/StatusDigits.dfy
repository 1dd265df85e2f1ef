/**
 * The precomputed status tables: `huffmanEncodeDigits`, `buildHTTPStatusCodes`,
 * `buildHuffmanStatusTable` and `hpackStatusValue`, measured against section 5.2
 * and appendix B of RFC 7541.
 */
module StatusDigits {
  import opened Bytes
  import opened Decimal

  type Digit = d: int | 0 <= d <= 9
  type Bits = seq<bool>

  /** The low `n` bits of `v`, most significant first. */
  function BitsOf(v: nat, n: nat): (r: Bits)
    ensures |r| == n
  {
    if n == 0 then [] else BitsOf(v / 2, n - 1) + [v % 2 == 1]
  }

  function ToBits(bytes: Text): (r: Bits)
    ensures |r| == 8 * |bytes|
  {
    if bytes == [] then [] else BitsOf(bytes[0], 8) + ToBits(bytes[1..])
  }

  function FromBits(bits: Bits): (r: nat) {
    if bits == [] then 0
    else 2 * FromBits(bits[..|bits| - 1]) + if bits[|bits| - 1] then 1 else 0
  }

  function Ones(n: nat): (r: Bits)
    ensures |r| == n
    ensures forall i :: 0 <= i < n ==> r[i]
  {
    seq(n, _ => true)
  }

  /** How many bits complete the last octet. */
  function Padding(n: nat): (r: nat)
    ensures r < 8 && (n + r) % 8 == 0
  {
    (8 - n % 8) % 8
  }

  /** The octet holding eight bits. */
  function Octet(bits: Bits): (r: Byte)
    requires |bits| == 8
    ensures BitsOf(r, 8) == bits
  {
    FromBitsRange(bits);
    Pow2Of8();
    BitsOfFromBits(bits);
    FromBits(bits)
  }

  /** Section 5.2: fill the last octet with the most significant bits of EOS, which are ones. */
  function Pack(bits: Bits): (r: Text)
    decreases |bits|
  {
    if bits == [] then []
    else if |bits| < 8 then [Octet(bits + Ones(8 - |bits|))]
    else [Octet(bits[..8])] + Pack(bits[8..])
  }

  lemma PackWhole(bits: Bits)
    requires |bits| >= 8
    ensures ToBits(Pack(bits)) == bits[..8] + ToBits(Pack(bits[8..]))
  {
    ToBitsHead(Octet(bits[..8]), Pack(bits[8..]));
  }

  lemma PackLast(bits: Bits)
    requires 0 < |bits| < 8
    ensures ToBits(Pack(bits)) == bits + Ones(8 - |bits|)
  {
    ToBitsHead(Octet(bits + Ones(8 - |bits|)), []);
  }

  lemma {:induction false} PackBits(bits: Bits)
    ensures ToBits(Pack(bits)) == bits + Ones(Padding(|bits|))
    decreases |bits|
  {
    if bits == [] {
      assert bits + Ones(0) == [];
    } else if |bits| < 8 {
      PackLast(bits);
    } else {
      PackBits(bits[8..]);
      PackWhole(bits);
      PackBitsStep(bits);
    }
  }

  lemma PackBitsStep(bits: Bits)
    requires |bits| >= 8
    ensures bits + Ones(Padding(|bits|)) == bits[..8] + (bits[8..] + Ones(Padding(|bits[8..]|)))
  {
    Rejoin(bits[..8], bits[8..], Ones(Padding(|bits[8..]|)));
    assert bits[..8] + bits[8..] == bits;
  }

  lemma {:induction false} FromBitsRange(bits: Bits)
    ensures FromBits(bits) < Pow2(|bits|)
  {
    if bits == [] {
    } else {
      FromBitsRange(bits[..|bits| - 1]);
    }
  }

  lemma ToBitsHead(b: Byte, rest: Text)
    ensures ToBits([b] + rest) == BitsOf(b, 8) + ToBits(rest)
  {
    assert ([b] + rest)[1..] == rest;
  }

  lemma {:induction false} BitsOfFromBits(bits: Bits)
    ensures BitsOf(FromBits(bits), |bits|) == bits
  {
    if bits == [] {
    } else {
      var init := bits[..|bits| - 1];
      BitsOfFromBits(init);
      assert FromBits(bits) / 2 == FromBits(init);
      assert bits == init + [bits[|bits| - 1]];
    }
  }

  lemma {:induction false} FromBitsOf(v: nat, n: nat)
    requires v < Pow2(n)
    ensures FromBits(BitsOf(v, n)) == v
  {
    if n == 0 {
    } else {
      FromBitsOf(v / 2, n - 1);
    }
  }

  lemma {:induction false} ToBitsInjective(a: Text, b: Text)
    requires ToBits(a) == ToBits(b)
    ensures a == b
  {
    if a != [] && b != [] {
      SameSplit(BitsOf(a[0], 8), ToBits(a[1..]), BitsOf(b[0], 8), ToBits(b[1..]));
      Pow2Of8();
      FromBitsOf(a[0], 8);
      FromBitsOf(b[0], 8);
      ToBitsInjective(a[1..], b[1..]);
    }
  }

  lemma Pow2Of8()
    ensures Pow2(1) == 2 && Pow2(2) == 4 && Pow2(3) == 8 && Pow2(4) == 16
    ensures Pow2(5) == 32 && Pow2(6) == 64 && Pow2(8) == 256
  {
    assert Pow2(3) == 2 * Pow2(2);
    assert Pow2(5) == 4 * Pow2(3);
    assert Pow2(8) == 4 * Pow2(6);
  }

  lemma {:induction false} ToBitsAppend(a: Text, b: Byte)
    ensures ToBits(a + [b]) == ToBits(a) + BitsOf(b, 8)
  {
    if a == [] {
      assert a + [b] == [b];
    } else {
      ToBitsAppend(a[1..], b);
      assert (a + [b])[1..] == a[1..] + [b];
    }
  }

  // ---- Shifts ----

  /** `v >> n` */
  function ShiftRight(v: nat, n: nat): nat {
    if n == 0 then v else ShiftRight(v / 2, n - 1)
  }

  /** `v<<n | (1<<n - 1)`: the vacated low bits are ones. */
  function ShiftInOnes(v: nat, n: nat): nat {
    if n == 0 then v else 2 * ShiftInOnes(v, n - 1) + 1
  }

  /** Conversion to an `n`-bit word: the low `n` bits of `v`. */
  function Truncate(v: nat, n: nat): nat {
    if n == 0 then 0 else 2 * Truncate(v / 2, n - 1) + v % 2
  }

  lemma {:induction false} TruncateRange(v: nat, n: nat)
    ensures Truncate(v, n) < Pow2(n)
  {
    if n == 0 {
    } else {
      TruncateRange(v / 2, n - 1);
    }
  }

  /** `byte(v)` */
  function ToByte(v: nat): Byte {
    Pow2Of8();
    TruncateRange(v, 8);
    Truncate(v, 8)
  }

  lemma {:induction false} ConcatBits(high: nat, low: nat, n: nat, m: nat)
    requires low < Pow2(m)
    ensures BitsOf(high * Pow2(m) + low, n + m) == BitsOf(high, n) + BitsOf(low, m)
    decreases m
  {
    if m == 0 {
    } else {
      ConcatBits(high, low / 2, n, m - 1);
      Doubled(high, Pow2(m - 1), low);
    }
  }

  lemma Doubled(high: nat, scale: nat, low: nat)
    ensures (high * (2 * scale) + low) / 2 == high * scale + low / 2
    ensures (high * (2 * scale) + low) % 2 == low % 2
  {
    var half := high * scale;
    assert high * (2 * scale) == 2 * half;
  }

  lemma {:induction false} SplitBits(v: nat, high: nat, low: nat)
    ensures BitsOf(v, high + low) == BitsOf(ShiftRight(v, low), high) + BitsOf(v, low)
    decreases low
  {
    if low == 0 {
      assert BitsOf(v, high) + [] == BitsOf(v, high);
    } else {
      SplitBits(v / 2, high, low - 1);
      Rejoin(BitsOf(ShiftRight(v, low), high), BitsOf(v / 2, low - 1), [v % 2 == 1]);
    }
  }

  lemma {:induction false} ShiftInOnesBits(v: nat, n: nat, pad: nat)
    ensures BitsOf(ShiftInOnes(v, pad), n + pad) == BitsOf(v, n) + Ones(pad)
    decreases pad
  {
    if pad == 0 {
      assert BitsOf(v, n) + [] == BitsOf(v, n);
    } else {
      ShiftInOnesBits(v, n, pad - 1);
      Rejoin(BitsOf(v, n), Ones(pad - 1), [true]);
    }
  }

  lemma {:induction false} TruncateBits(v: nat, width: nat, n: nat)
    requires n <= width
    ensures BitsOf(Truncate(v, width), n) == BitsOf(v, n)
    decreases n
  {
    if n == 0 {
    } else {
      TruncateBits(v / 2, width - 1, n - 1);
    }
  }

  // ---- huffmanEncodeDigits ----

  /** Five bits per digit, as the table builder packs them. */
  function FiveBit(digits: seq<Digit>): (r: Bits)
    ensures |r| == 5 * |digits|
  {
    if digits == [] then [] else BitsOf(digits[0], 5) + FiveBit(digits[1..])
  }

  /** Reading codes off the front, or adding one at the back. */
  lemma {:induction false} CodeAppend(all: seq<Digit> -> Bits, code: Digit -> Bits, digits: seq<Digit>, d: Digit)
    requires all([]) == [] && forall s: seq<Digit> :: s != [] ==> all(s) == code(s[0]) + all(s[1..])
    ensures all(digits + [d]) == all(digits) + code(d)
  {
    if digits == [] {
      assert [d][1..] == [] && digits + [d] == [d] && code(d) + [] == [] + code(d);
    } else {
      CodeAppend(all, code, digits[1..], d);
      assert (digits + [d])[1..] == digits[1..] + [d];
      Rejoin(code(digits[0]), all(digits[1..]), code(d));
    }
  }

  lemma FiveBitAppend(digits: seq<Digit>, d: Digit)
    ensures FiveBit(digits + [d]) == FiveBit(digits) + BitsOf(d, 5)
  {
    CodeAppend(s => FiveBit(s), (x: Digit) => BitsOf(x, 5), digits, d);
  }

  lemma AppendDigit(bits: nat, count: nat, d: Digit)
    requires count < 8
    ensures BitsOf(Truncate(32 * bits + d, 64), count + 5) == BitsOf(bits, count) + BitsOf(d, 5)
  {
    TruncateBits(32 * bits + d, 64, count + 5);
    Pow2Of8();
    ConcatBits(bits, d, count, 5);
  }

  /** The bytes written and the `count` pending bits are the digits read so far. */
  ghost predicate Holds(out: Text, bits: nat, count: nat, digits: seq<Digit>) {
    ToBits(out) + BitsOf(bits, count) == FiveBit(digits)
  }

  lemma FiveBitTake(digits: seq<Digit>, i: nat)
    requires i < |digits|
    ensures FiveBit(digits[..i + 1]) == FiveBit(digits[..i]) + BitsOf(digits[i], 5)
  {
    FiveBitAppend(digits[..i], digits[i]);
    assert digits[..i + 1] == digits[..i] + [digits[i]];
  }

  /** An accumulator `next` that has taken in one more digit. */
  lemma HoldsNextDigit(out: Text, bits: nat, next: nat, count: nat, digits: seq<Digit>, i: nat)
    requires i < |digits| && Holds(out, bits, count, digits[..i])
    requires BitsOf(next, count + 5) == BitsOf(bits, count) + BitsOf(digits[i], 5)
    ensures Holds(out, next, count + 5, digits[..i + 1])
  {
    FiveBitTake(digits, i);
  }

  lemma TakesDigit(out: Text, bits: nat, count: nat, digits: seq<Digit>, i: nat)
    requires i < |digits| && count < 8 && Holds(out, bits, count, digits[..i])
    ensures Holds(out, Truncate(32 * bits + digits[i], 64), count + 5, digits[..i + 1])
  {
    AppendDigit(bits, count, digits[i]);
    HoldsNextDigit(out, bits, Truncate(32 * bits + digits[i], 64), count, digits, i);
  }

  lemma HoldsNextByte(out: Text, bits: nat, count: nat, digits: seq<Digit>)
    requires Holds(out, bits, count + 8, digits)
    ensures Holds(out + [ToByte(ShiftRight(bits, count))], bits, count, digits)
  {
    SplitBits(bits, 8, count);
    ToBitsAppend(out, ToByte(ShiftRight(bits, count)));
    TruncateBits(ShiftRight(bits, count), 8, 8);
    Rejoin(ToBits(out), BitsOf(ShiftRight(bits, count), 8), BitsOf(bits, count));
  }

  lemma PaddedOctet(bits: nat, count: nat)
    requires count < 8
    ensures BitsOf(ToByte(ShiftInOnes(bits, 8 - count)), 8) == BitsOf(bits, count) + Ones(8 - count)
  {
    TruncateBits(ShiftInOnes(bits, 8 - count), 8, 8);
    ShiftInOnesBits(bits, count, 8 - count);
  }

  lemma PackUnique(out: Text, bits: Bits, pad: nat)
    requires pad < 8 && ToBits(out) == bits + Ones(pad)
    ensures out == Pack(bits)
  {
    PackBits(bits);
    assert |bits| + pad == 8 * |out|;
    ToBitsInjective(out, Pack(bits));
  }

  lemma HoldsPadded(out: Text, bits: nat, count: nat, digits: seq<Digit>)
    requires 0 < count < 8 && Holds(out, bits, count, digits)
    ensures out + [ToByte(ShiftInOnes(bits, 8 - count))] == Pack(FiveBit(digits))
  {
    var last := ToByte(ShiftInOnes(bits, 8 - count));
    ToBitsAppend(out, last);
    PaddedOctet(bits, count);
    Rejoin(ToBits(out), BitsOf(bits, count), Ones(8 - count));
    PackUnique(out + [last], FiveBit(digits), 8 - count);
  }

  lemma HoldsWhole(out: Text, bits: nat, digits: seq<Digit>)
    requires Holds(out, bits, 0, digits)
    ensures out == Pack(FiveBit(digits))
  {
    assert ToBits(out) == FiveBit(digits) + Ones(0);
    PackUnique(out, FiveBit(digits), 0);
  }

  /** `huffmanEncodeDigits` on the digit values of its argument, with the 64-bit accumulator. */
  method HuffmanEncodeDigits(digits: seq<Digit>) returns (out: Text)
    ensures out == Pack(FiveBit(digits))
  {
    out := [];
    var bits: nat, count: nat := 0, 0;
    for i := 0 to |digits|
      invariant count < 8
      invariant Holds(out, bits, count, digits[..i])
    {
      TakesDigit(out, bits, count, digits, i);
      bits := Truncate(32 * bits + digits[i], 64);
      count := count + 5;
      while count >= 8
        invariant count <= 12
        invariant Holds(out, bits, count, digits[..i + 1])
      {
        count := count - 8;
        HoldsNextByte(out, bits, count, digits[..i + 1]);
        out := out + [ToByte(ShiftRight(bits, count))];
      }
    }
    assert digits[..|digits|] == digits;
    if count > 0 {
      var pad := 8 - count;
      HoldsPadded(out, bits, count, digits);
      out := out + [ToByte(ShiftInOnes(bits, pad))];
    } else {
      HoldsWhole(out, bits, digits);
    }
  }

  lemma FiveBitHead(s: seq<Digit>, j: nat)
    requires s != []
    ensures FiveBit(s) + Ones(j) == BitsOf(s[0], 5) + (FiveBit(s[1..]) + Ones(j))
  {
  }

  lemma BitsOfDigit(a: Digit, b: nat)
    requires b < 32 && BitsOf(a, 5) == BitsOf(b, 5)
    ensures a == b
  {
    Pow2Of8();
    FromBitsOf(a, 5);
    FromBitsOf(b, 5);
  }

  lemma NoDigitInOnes(d: Digit, rest: Bits, n: nat)
    ensures BitsOf(d, 5) + rest != [] + Ones(n)
  {
    DigitStartsLow(d);
    assert (BitsOf(d, 5) + rest)[0] == BitsOf(d, 5)[0];
  }

  /** Padding never hides a digit: five ones are not a digit. */
  lemma {:induction false} FiveBitCancels(s: seq<Digit>, j: nat, t: seq<Digit>, k: nat)
    requires FiveBit(s) + Ones(j) == FiveBit(t) + Ones(k)
    ensures s == t
    decreases |s| + |t|
  {
    if s != [] && t != [] {
      FiveBitHead(s, j);
      FiveBitHead(t, k);
      SameSplit(BitsOf(s[0], 5), FiveBit(s[1..]) + Ones(j), BitsOf(t[0], 5), FiveBit(t[1..]) + Ones(k));
      BitsOfDigit(s[0], t[0]);
      FiveBitCancels(s[1..], j, t[1..], k);
    } else if s != [] {
      FiveBitHead(s, j);
      NoDigitInOnes(s[0], FiveBit(s[1..]) + Ones(j), k);
    } else if t != [] {
      FiveBitHead(t, k);
      NoDigitInOnes(t[0], FiveBit(t[1..]) + Ones(k), j);
    }
  }

  lemma DigitStartsLow(d: nat)
    requires d < 16
    ensures !BitsOf(d, 5)[0]
  {
    Pow2Of8();
    ConcatBits(0, d, 1, 4);
    assert BitsOf(0, 1) == [false];
  }

  /** The packing is injective over decimal strings of any, also different, lengths. */
  lemma PackInjective(s: seq<Digit>, t: seq<Digit>)
    requires Pack(FiveBit(s)) == Pack(FiveBit(t))
    ensures s == t
  {
    PackBits(FiveBit(s));
    PackBits(FiveBit(t));
    FiveBitCancels(s, Padding(|FiveBit(s)|), t, Padding(|FiveBit(t)|));
  }

  // ---- Appendix B of RFC 7541 ----

  /** The code of an ASCII digit: five bits for 0, 1 and 2, six for 3 to 9. */
  function RfcCode(d: Digit): Bits {
    if d <= 2 then BitsOf(d, 5) else BitsOf(22 + d, 6)
  }

  function RfcBits(digits: seq<Digit>): Bits {
    if digits == [] then [] else RfcCode(digits[0]) + RfcBits(digits[1..])
  }

  /** What a conforming peer sends for a decimal string. */
  function RfcPack(digits: seq<Digit>): Text {
    Pack(RfcBits(digits))
  }

  /** The digits the packing gets right. */
  predicate Short(digits: seq<Digit>) {
    forall i :: 0 <= i < |digits| ==> digits[i] <= 2
  }

  /** Read five bits at a time, a six-bit code starts with 12 to 15: no digit. */
  lemma RfcCodeShape(d: Digit)
    ensures !RfcCode(d)[0]
    ensures d > 2 ==> RfcCode(d) == BitsOf((22 + d) / 2, 5) + [(22 + d) % 2 == 1]
  {
    if d <= 2 {
      DigitStartsLow(d);
    } else {
      DigitStartsLow((22 + d) / 2);
    }
  }

  lemma NoRfcCodeInOnes(d: Digit, rest: Bits, n: nat)
    ensures RfcCode(d) + rest != [] + Ones(n)
  {
    RfcCodeShape(d);
    assert (RfcCode(d) + rest)[0] == RfcCode(d)[0];
  }

  lemma {:induction false} RfcMatches(s: seq<Digit>, j: nat, t: seq<Digit>, k: nat)
    requires RfcBits(s) + Ones(j) == FiveBit(t) + Ones(k)
    ensures s == t && Short(s)
    decreases |s| + |t|
  {
    if s != [] {
      RfcCodeShape(s[0]);
    }
    if t != [] {
      FiveBitHead(t, k);
    }
    if s == [] && t != [] {
      NoDigitInOnes(t[0], FiveBit(t[1..]) + Ones(k), j);
    } else if s != [] && t == [] {
      NoRfcCodeInOnes(s[0], RfcBits(s[1..]) + Ones(j), k);
    } else if s != [] && t != [] {
      var rest := RfcBits(s[1..]) + Ones(j);
      if s[0] > 2 {
        var v := s[0] as int + 22;
        Rejoin(BitsOf(v / 2, 5), [v % 2 == 1], rest);
        SameSplit(BitsOf(v / 2, 5), [v % 2 == 1] + rest, BitsOf(t[0], 5), FiveBit(t[1..]) + Ones(k));
        BitsOfDigit(t[0], v / 2);
      } else {
        SameSplit(BitsOf(s[0], 5), rest, BitsOf(t[0], 5), FiveBit(t[1..]) + Ones(k));
        BitsOfDigit(s[0], t[0]);
        RfcMatches(s[1..], j, t[1..], k);
      }
    }
  }

  lemma {:induction false} ShortBits(digits: seq<Digit>)
    requires Short(digits)
    ensures RfcBits(digits) == FiveBit(digits)
  {
    if digits == [] {
    } else {
      ShortBits(digits[1..]);
    }
  }

  /** The table's packing is RFC 7541's exactly for strings over 0, 1 and 2. */
  lemma RfcAgreement(digits: seq<Digit>)
    ensures Pack(FiveBit(digits)) == RfcPack(digits) <==> Short(digits)
  {
    if Short(digits) {
      ShortBits(digits);
    }
    if Pack(FiveBit(digits)) == RfcPack(digits) {
      PackBits(FiveBit(digits));
      PackBits(RfcBits(digits));
      RfcMatches(digits, Padding(|RfcBits(digits)|), digits, Padding(|FiveBit(digits)|));
    }
  }

  // ---- The status tables ----

  function Ascii(digits: seq<Digit>): (r: Text)
    ensures |r| == |digits|
  {
    seq(|digits|, i requires 0 <= i < |digits| => digits[i] as int + 48)
  }

  /** `strconv.Itoa` on a three-digit code. */
  function StatusText(code: nat): (r: Text)
    requires 100 <= code <= 599
    ensures IsStatusText(r)
  {
    [48 + code / 100, 48 + code / 10 % 10, 48 + code % 10]
  }

  /** The text of a code between 100 and 599. */
  predicate IsStatusText(t: Text) {
    |t| == 3 && 49 <= t[0] <= 53 && 48 <= t[1] <= 57 && 48 <= t[2] <= 57
  }

  function TextDigits(t: Text): (r: seq<Digit>)
    requires IsStatusText(t)
    ensures Ascii(r) == t
  {
    [t[0] - 48, t[1] - 48, t[2] - 48]
  }

  /** `buildHTTPStatusCodes` */
  method BuildHttpStatusCodes() returns (codes: set<Text>)
    ensures forall t :: t in codes <==> IsStatusText(t)
  {
    codes := {};
    for code := 100 to 600
      invariant forall t :: t in codes ==> IsStatusText(t)
      invariant forall c :: 100 <= c < code ==> StatusText(c) in codes
    {
      codes := codes + {StatusText(code)};
    }
    forall t | IsStatusText(t)
      ensures t in codes
    {
      var c := CodeOf(t);
    }
  }

  lemma CodeOf(t: Text) returns (c: nat)
    requires IsStatusText(t)
    ensures 100 <= c < 600 && StatusText(c) == t
  {
    var a, b, d := (t[0] - 48) as int, (t[1] - 48) as int, (t[2] - 48) as int;
    c := 100 * a + 10 * b + d;
    DecimalDigits(a, b, d);
  }

  lemma DecimalDigits(a: nat, b: nat, d: nat)
    requires b <= 9 && d <= 9
    ensures var c := 100 * a + 10 * b + d; c / 100 == a && c / 10 % 10 == b && c % 10 == d
  {
    assert (100 * a + 10 * b + d) / 10 == 10 * a + b;
  }

  lemma FormatThree(code: nat)
    requires 100 <= code <= 599
    ensures FormatNat(code) == [DigitChar(code / 100), DigitChar(code / 10 % 10), DigitChar(code % 10)]
  {
    var tens := code / 10;
    assert FormatNat(code) == FormatNat(tens) + [DigitChar(code % 10)];
    assert FormatNat(tens) == FormatNat(tens / 10) + [DigitChar(tens % 10)];
    assert FormatNat(tens / 10) == [DigitChar(tens / 10)] && tens / 10 == code / 100;
  }

  /** The text of a code is its decimal rendering. */
  lemma StatusTextIs(code: nat)
    requires 100 <= code <= 599
    ensures AsLabel(StatusText(code)) == FormatNat(code)
  {
    FormatThree(code);
  }

  /** The status a Huffman-flagged value stands for: three five-bit digits and a closing one bit. */
  function HuffmanStatus(value: Text): (r: Option<Text>)
    ensures r.Some? ==> IsStatusText(r.value)
  {
    if |value| != 2 then None
    else
      var x, y := value[0], value[1];
      var a, b, c := x / 8, x % 8 * 4 + y / 64, y / 2 % 32;
      if y % 2 == 1 && 1 <= a <= 5 && b <= 9 && c <= 9 then Some([48 + a, 48 + b, 48 + c]) else None
  }

  lemma ThreeDigitBits(a: Digit, b: Digit, c: Digit)
    ensures FiveBit([a, b, c]) == BitsOf(a, 5) + BitsOf(b, 5) + BitsOf(c, 5)
  {
    FiveBitAppend([a, b], c);
    FiveBitAppend([a], b);
    FiveBitAppend([], a);
    assert [a] + [b] == [a, b] && [a, b] + [c] == [a, b, c] && [] + [a] == [a];
  }

  lemma ConcatDigit(high: nat, low: nat, n: nat)
    requires low < 32
    ensures BitsOf(32 * high + low, n + 5) == BitsOf(high, n) + BitsOf(low, 5)
  {
    Pow2Of8();
    ConcatBits(high, low, n, 5);
  }

  lemma ThreeDigitValue(a: Digit, b: Digit, c: Digit)
    ensures FiveBit([a, b, c]) == BitsOf(32 * (32 * a + b) + c, 15)
  {
    ThreeDigitBits(a, b, c);
    ConcatDigit(a, b, 5);
    ConcatDigit(32 * a + b, c, 10);
  }

  /** Three digits and a closing one bit, in two octets. */
  function Octets(a: int, b: int, c: int): Text
    requires 0 <= a <= 9 && 0 <= b <= 9 && 0 <= c <= 9
  {
    [8 * a + b / 4, b % 4 * 64 + 2 * c + 1]
  }

  lemma TwoOctets(x: Byte, y: Byte)
    ensures ToBits([x, y]) == BitsOf(256 * x + y, 16)
  {
    ToBitsHead(x, [y]);
    ToBitsHead(y, []);
    assert [x] + [y] == [x, y] && [y] + [] == [y] && BitsOf(y, 8) + [] == BitsOf(y, 8);
    Pow2Of8();
    ConcatBits(x, y, 8, 8);
  }

  lemma OctetsOf(x: Byte, y: Byte, w: nat, bits: Bits)
    requires 256 * x + y == 2 * w + 1 && bits == BitsOf(w, 15)
    ensures ToBits([x, y]) == bits + Ones(1)
  {
    TwoOctets(x, y);
  }

  lemma OctetsHold(a: Digit, b: Digit, c: Digit, x: Byte, y: Byte)
    requires [x, y] == Octets(a, b, c)
    ensures ToBits([x, y]) == FiveBit([a, b, c]) + Ones(1)
  {
    ThreeDigitValue(a, b, c);
    OctetsOf(x, y, 32 * (32 * a + b) + c, FiveBit([a, b, c]));
  }

  lemma ThreeDigits(a: Digit, b: Digit, c: Digit)
    ensures Pack(FiveBit([a, b, c])) == Octets(a, b, c)
  {
    var x: Byte, y: Byte := 8 * a + b / 4, b % 4 * 64 + 2 * c + 1;
    OctetsHold(a, b, c, x, y);
    PackUnique([x, y], FiveBit([a, b, c]), 1);
  }

  /** Digits and octets determine each other. */
  lemma UnpackThree(value: Text, a: Digit, b: Digit, c: Digit)
    requires |value| == 2
    ensures value == Octets(a, b, c) <==>
            && value[0] / 8 == a && value[0] % 8 * 4 + value[1] / 64 == b
            && value[1] / 2 % 32 == c && value[1] % 2 == 1
  {
    var x, y := value[0] as int, value[1] as int;
    assert value == [x, y];
    UnpackOctets(x, y, a, b, c);
  }

  lemma UnpackOctets(x: nat, y: nat, a: nat, b: nat, c: nat)
    requires x < 256 && y < 256 && b <= 9 && c <= 9
    ensures x == 8 * a + b / 4 && y == b % 4 * 64 + 2 * c + 1 <==>
            x / 8 == a && x % 8 * 4 + y / 64 == b && y / 2 % 32 == c && y % 2 == 1
  {
  }

  /** Looking a packed status up gives back the status that was packed, and nothing else hits. */
  lemma HuffmanStatusExact(value: Text, t: Text)
    ensures HuffmanStatus(value) == Some(t) <==> IsStatusText(t) && value == Pack(FiveBit(TextDigits(t)))
  {
    if IsStatusText(t) {
      var d := TextDigits(t);
      assert d == [d[0], d[1], d[2]];
      ThreeDigits(d[0], d[1], d[2]);
      StatusOctets(value, t);
    }
  }

  lemma StatusOctets(value: Text, t: Text)
    requires IsStatusText(t)
    ensures var d := TextDigits(t);
            HuffmanStatus(value) == Some(t) <==> value == Octets(d[0], d[1], d[2])
  {
    var d := TextDigits(t);
    if |value| == 2 {
      UnpackThree(value, d[0], d[1], d[2]);
      assert t == [48 + d[0] as int, 48 + d[1] as int, 48 + d[2] as int];
    }
  }

  /**
   * `buildHuffmanStatusTable`: the iteration order over the code set is arbitrary, and
   * because the packing is injective it makes no difference.
   */
  method BuildHuffmanStatusTable(codes: set<Text>) returns (table: map<Text, Text>)
    requires forall t :: t in codes <==> IsStatusText(t)
    ensures forall v :: v in table <==> HuffmanStatus(v).Some?
    ensures forall v :: v in table ==> HuffmanStatus(v) == Some(table[v])
  {
    table := map[];
    var todo := codes;
    while todo != {}
      invariant todo <= codes
      invariant forall v :: v in table ==> HuffmanStatus(v) == Some(table[v])
      invariant forall t :: t in codes - todo ==> Pack(FiveBit(TextDigits(t))) in table
      decreases |todo|
    {
      var code :| code in todo;
      var packed := HuffmanEncodeDigits(TextDigits(code));
      HuffmanStatusExact(packed, code);
      table := table[packed := code];
      todo := todo - {code};
    }
    forall v | HuffmanStatus(v).Some?
      ensures v in table
    {
      HuffmanStatusExact(v, HuffmanStatus(v).value);
    }
  }

  /** `hpackStatusValue` */
  function StatusValue(value: Text, huffman: bool): (r: Option<Text>)
    ensures r.Some? ==> IsStatusText(r.value)
  {
    if huffman then HuffmanStatus(value)
    else if IsStatusText(value) then Some(value)
    else None
  }

  /**
   * A conforming peer's Huffman-coded decimal string is resolved exactly when it is a status
   * code written with the digits 0, 1 and 2, and is never resolved to a different code.
   */
  lemma ConformingPeer(digits: seq<Digit>)
    ensures HuffmanStatus(RfcPack(digits)) ==
            if IsStatusText(Ascii(digits)) && Short(digits) then Some(Ascii(digits)) else None
  {
    var value := RfcPack(digits);
    if HuffmanStatus(value).Some? {
      var t := HuffmanStatus(value).value;
      HuffmanStatusExact(value, t);
      var d := TextDigits(t);
      PackBits(FiveBit(d));
      PackBits(RfcBits(digits));
      RfcMatches(digits, Padding(|RfcBits(digits)|), d, Padding(|FiveBit(d)|));
    }
    if IsStatusText(Ascii(digits)) && Short(digits) {
      assert digits == TextDigits(Ascii(digits));
      RfcAgreement(digits);
      HuffmanStatusExact(value, Ascii(digits));
    }
  }

  /**
   * A value is resolved to a status exactly if it is the decimal rendering of a code from 100 to 599, or,
   * when flagged as Huffman-coded, that rendering packed.
   */
  lemma StatusValueExact(value: Text, huffman: bool, t: Text)
    ensures StatusValue(value, huffman) == Some(t) <==>
            && (exists code :: 100 <= code <= 599 && AsLabel(t) == FormatNat(code))
            && IsStatusText(t) && value == (if huffman then Pack(FiveBit(TextDigits(t))) else t)
  {
    if IsStatusText(t) {
      var code := CodeOf(t);
      StatusTextIs(code);
      HuffmanStatusExact(value, t);
    }
  }
}
