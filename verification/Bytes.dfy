/** Bytes, byte strings and the option type shared by the wire parsers. */
module Bytes {

  /** One octet. Masks and shifts on it are written with `/` and `%`. */
  type Byte = b: int | 0 <= b < 256

  /** A Go string or byte slice: a sequence of octets. */
  type Text = seq<Byte>

  /** A Go string as a label: octet for octet. */
  function AsLabel(t: Text): (r: string)
    ensures |r| == |t|
  {
    seq(|t|, i requires 0 <= i < |t| => t[i] as char)
  }

  /** The octets of a string of such characters. */
  function AsText(s: string): (r: Text)
    ensures |r| == |s|
  {
    seq(|s|, i requires 0 <= i < |s| => if s[i] as int < 256 then s[i] as int else 0)
  }

  datatype Option<+T> = None | Some(value: T)

  function Pow2(n: nat): (r: nat)
    ensures r >= 1
  {
    if n == 0 then 1 else 2 * Pow2(n - 1)
  }

  /** Big-endian 16-bit read, as `binary.BigEndian.Uint16`. */
  function Uint16(buf: Text, at: nat): (r: nat)
    requires at + 2 <= |buf|
    ensures r < 0x1_0000
  {
    buf[at] as int * 256 + buf[at + 1]
  }

  // ---- Sequences ----

  lemma Rejoin<T>(a: seq<T>, b: seq<T>, c: seq<T>)
    ensures a + (b + c) == (a + b) + c
  {
  }

  lemma SameSplit<T>(a: seq<T>, x: seq<T>, b: seq<T>, y: seq<T>)
    requires a + x == b + y && |a| == |b|
    ensures a == b && x == y
  {
    assert a == (a + x)[..|a|] && x == (a + x)[|a|..];
    assert b == (b + y)[..|b|] && y == (b + y)[|b|..];
  }

  lemma DropPrefix<T>(a: seq<T>, b: seq<T>, i: nat)
    requires i <= |a|
    ensures (a + b)[i..] == a[i..] + b
  {
  }

  lemma Middle<T>(a: seq<T>, b: seq<T>, c: seq<T>)
    ensures (a + (b + c))[|a|..|a| + |b|] == b
  {
  }

  lemma MiddlePrefix<T>(a: seq<T>, b: seq<T>, b': seq<T>, c: seq<T>)
    ensures (a + (b + b' + c))[|a|..|a| + |b|] == b
  {
  }

  lemma DropHead<T>(a: seq<T>, b: seq<T>)
    ensures (a + b)[|a|..] == b
  {
  }

  lemma DropHeads<T>(a: seq<T>, b: seq<T>, c: seq<T>)
    ensures (a + (b + c))[|a| + |b|..] == c
  {
  }

  lemma SubsetSize<T>(a: set<T>, b: set<T>)
    requires a <= b
    ensures |a| <= |b|
    ensures a != b ==> |a| < |b|
  {
    assert b == a + (b - a);
  }

  /** The next key of a map iteration, which may be any of those left. */
  method AnyOf<T(==)>(s: set<T>) returns (x: T)
    requires s != {}
    ensures x in s
  {
    x :| x in s;
  }

  /** The deletion loop: map iteration in any order, removing what `drop` says. */
  method Sift<K(==), V>(m: map<K, V>, drop: (K, V) -> bool) returns (kept: map<K, V>)
    ensures kept == map k | k in m && !drop(k, m[k]) :: m[k]
  {
    kept := m;
    var todo := m.Keys;
    while todo != {}
      invariant todo <= m.Keys && kept.Keys <= m.Keys
      invariant forall k :: k in kept ==> kept[k] == m[k]
      invariant forall k :: k in m ==> (k in kept <==> k in todo || !drop(k, m[k]))
      decreases |todo|
    {
      var k := AnyOf(todo);
      if drop(k, m[k]) {
        kept := kept - {k};
      }
      todo := todo - {k};
    }
  }
}
