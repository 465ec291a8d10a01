/** Bytes and the unsigned integers that struct reads from them. */
module Bytes {

  type byte = x: int | 0 <= x < 256

  /** Byte order of a struct format: '!' and '>' are Big, '<' is Little. */
  datatype Order = Big | Little

  function Pow256(k: nat): (p: nat)
    ensures p >= 1
  {
    if k == 0 then 1 else 256 * Pow256(k - 1)
  }

  /** The unsigned integer whose big-endian encoding is s. */
  function BigEndian(s: seq<byte>): (n: nat)
    ensures n < Pow256(|s|)
  {
    if s == [] then 0 else BigEndian(s[..|s| - 1]) * 256 + s[|s| - 1]
  }

  /** The unsigned integer whose little-endian encoding is s. */
  function LittleEndian(s: seq<byte>): (n: nat)
    ensures n < Pow256(|s|)
  {
    if s == [] then 0 else s[0] + 256 * LittleEndian(s[1..])
  }

  function Unsigned(order: Order, s: seq<byte>): (n: nat)
    ensures n < Pow256(|s|)
  {
    match order
    case Big => BigEndian(s)
    case Little => LittleEndian(s)
  }

  /** The w-byte big-endian encoding of n. */
  function BigEndianBytes(n: nat, w: nat): (s: seq<byte>)
    requires n < Pow256(w)
    ensures |s| == w
  {
    if w == 0 then [] else BigEndianBytes(n / 256, w - 1) + [n % 256]
  }

  /** The w-byte little-endian encoding of n. */
  function LittleEndianBytes(n: nat, w: nat): (s: seq<byte>)
    requires n < Pow256(w)
    ensures |s| == w
  {
    if w == 0 then [] else [n % 256] + LittleEndianBytes(n / 256, w - 1)
  }

  function Encode(order: Order, n: nat, w: nat): (s: seq<byte>)
    requires n < Pow256(w)
    ensures |s| == w
  {
    match order
    case Big => BigEndianBytes(n, w)
    case Little => LittleEndianBytes(n, w)
  }

  /** Decoding undoes encoding, in both byte orders. */
  lemma {:induction false} BigEndianOfBytes(n: nat, w: nat)
    requires n < Pow256(w)
    ensures BigEndian(BigEndianBytes(n, w)) == n
  {
    if w > 0 {
      var s := BigEndianBytes(n, w);
      assert s[..|s| - 1] == BigEndianBytes(n / 256, w - 1);
      BigEndianOfBytes(n / 256, w - 1);
    }
  }

  lemma {:induction false} LittleEndianOfBytes(n: nat, w: nat)
    requires n < Pow256(w)
    ensures LittleEndian(LittleEndianBytes(n, w)) == n
  {
    if w > 0 {
      var s := LittleEndianBytes(n, w);
      assert s[1..] == LittleEndianBytes(n / 256, w - 1);
      LittleEndianOfBytes(n / 256, w - 1);
    }
  }

  lemma UnsignedOfEncode(order: Order, n: nat, w: nat)
    requires n < Pow256(w)
    ensures Unsigned(order, Encode(order, n, w)) == n
  {
    match order
    case Big => BigEndianOfBytes(n, w);
    case Little => LittleEndianOfBytes(n, w);
  }

  /** Encoding undoes decoding: every w-byte string is the encoding of its value. */
  lemma {:induction false} BytesOfBigEndian(s: seq<byte>)
    ensures BigEndianBytes(BigEndian(s), |s|) == s
  {
    if s != [] {
      var n := BigEndian(s);
      var p := s[..|s| - 1];
      assert n / 256 == BigEndian(p) && n % 256 == s[|s| - 1];
      BytesOfBigEndian(p);
      assert p + [s[|s| - 1]] == s;
    }
  }

  lemma {:induction false} BytesOfLittleEndian(s: seq<byte>)
    ensures LittleEndianBytes(LittleEndian(s), |s|) == s
  {
    if s != [] {
      var n := LittleEndian(s);
      assert n % 256 == s[0] && n / 256 == LittleEndian(s[1..]);
      BytesOfLittleEndian(s[1..]);
      assert [s[0]] + s[1..] == s;
    }
  }

  lemma BigEndian2(s: seq<byte>)
    requires |s| == 2
    ensures BigEndian(s) == s[0] as int * 256 + s[1]
  {
    assert s[..1][..0] == [];
  }

  lemma BigEndian4(s: seq<byte>)
    requires |s| == 4
    ensures BigEndian(s) == ((s[0] as int * 256 + s[1]) * 256 + s[2]) * 256 + s[3]
  {
    var p := s[..3];
    assert p[..2] == s[..2];
    BigEndian2(s[..2]);
  }

  lemma LittleEndian4(s: seq<byte>)
    requires |s| == 4
    ensures LittleEndian(s) == ((s[3] as int * 256 + s[2]) * 256 + s[1]) * 256 + s[0]
  {
    var a := s[1..];
    var b := a[1..];
    var c := b[1..];
    assert LittleEndian(c) == s[3] by { assert c[1..] == []; }
    assert LittleEndian(b) == s[2] as int + 256 * (s[3] as int);
    assert LittleEndian(a) == s[1] as int + 256 * LittleEndian(b);
  }

  // Slices of concatenations, stated once for every element type.

  lemma SplitConcat<T>(a: seq<T>, b: seq<T>)
    ensures (a + b)[..|a|] == a && (a + b)[0..|a|] == a && (a + b)[|a|..] == b
  {
  }

  lemma TakeDrop<T>(s: seq<T>, k: nat)
    requires k <= |s|
    ensures s[..k] + s[k..] == s
  {
  }
}
