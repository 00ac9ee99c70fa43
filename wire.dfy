/** Bytes, little-endian integers and Python's clamping slice. */
module Wire {

  /** An octet on the wire. */
  type byte = x: int | 0 <= x < 256

  /** The number of distinct values an n-byte field can hold. */
  function Pow256(n: nat): (p: nat)
    ensures p >= 1
  {
    if n == 0 then 1 else 256 * Pow256(n - 1)
  }

  /** int.from_bytes(s, byteorder='little', signed=False). */
  function LeValue(s: seq<byte>): nat
  {
    if |s| == 0 then 0 else s[0] + 256 * LeValue(s[1..])
  }

  /** v.to_bytes(n, 'little', signed=False) for a value that fits in n bytes. */
  function LeBytes(v: nat, n: nat): (s: seq<byte>)
    requires v < Pow256(n)
    ensures |s| == n
  {
    if n == 0 then [] else [v % 256] + LeBytes(v / 256, n - 1)
  }

  /** An n-byte unsigned decode is always below 256^n. */
  lemma {:induction false} LeValueBound(s: seq<byte>)
    ensures LeValue(s) < Pow256(|s|)
  {
    if |s| > 0 {
      LeValueBound(s[1..]);
    }
  }

  /** Decoding what was encoded gives the value back. */
  lemma {:induction false} LeRoundTrip(v: nat, n: nat)
    requires v < Pow256(n)
    ensures LeValue(LeBytes(v, n)) == v
  {
    if n > 0 {
      LeRoundTrip(v / 256, n - 1);
      assert LeBytes(v, n)[1..] == LeBytes(v / 256, n - 1);
    }
  }

  /** Encoding what was decoded gives the bytes back: the layout is a bijection. */
  lemma {:induction false} LeBytesOfValue(s: seq<byte>)
    ensures LeValue(s) < Pow256(|s|)
    ensures LeBytes(LeValue(s), |s|) == s
  {
    LeValueBound(s);
    if |s| > 0 {
      LeBytesOfValue(s[1..]);
      assert (s[0] + 256 * LeValue(s[1..])) / 256 == LeValue(s[1..]);
    }
  }

  lemma ConcatAssoc<T>(a: seq<T>, b: seq<T>, c: seq<T>)
    ensures a + (b + c) == (a + b) + c
  {
  }

  function Min(a: nat, b: nat): nat
  {
    if a <= b then a else b
  }

  /**
   * Python's s[a:b] for 0 <= a <= b: both ends are clamped to the length,
   * so a read past the end silently yields fewer elements.
   */
  function Slice<T>(s: seq<T>, a: nat, b: nat): (r: seq<T>)
    requires a <= b
    ensures b <= |s| ==> r == s[a..b]
    ensures a < b && |s| < b ==> |r| < b - a
    ensures |r| <= b - a && |r| <= |s|
    ensures a <= |s| ==> r == s[a..Min(b, |s|)]
    ensures |s| <= a ==> r == []
  {
    s[Min(a, |s|)..Min(b, |s|)]
  }
}
