/** Bytes and big-endian numbers, shared by the codecs of the cross-chain bridge. */
module Bytes {
  type Byte = x: int | 0 <= x < 256

  /** The number whose big-endian digits in base 256 are `b`. */
  function BytesValue(b: seq<Byte>): nat {
    if b == [] then 0 else BytesValue(b[..|b| - 1]) * 256 + b[|b| - 1]
  }

  function Pow256(n: nat): nat { if n == 0 then 1 else 256 * Pow256(n - 1) }

  /** `to_be_bytes` of an n-byte unsigned integer. */
  function ToBytes(v: nat, n: nat): (b: seq<Byte>)
    ensures |b| == n
  {
    if n == 0 then [] else ToBytes(v / 256, n - 1) + [v % 256]
  }

  lemma {:induction false} ToBytesValue(v: nat, n: nat)
    requires v < Pow256(n)
    ensures BytesValue(ToBytes(v, n)) == v
  {
    if n > 0 {
      ToBytesValue(v / 256, n - 1);
      assert ToBytes(v, n)[..n - 1] == ToBytes(v / 256, n - 1);
    }
  }

  /** Two strings of one length that stand for the same number are the same. */
  lemma {:induction false} SameValueSameBytes(a: seq<Byte>, b: seq<Byte>)
    requires |a| == |b| && BytesValue(a) == BytesValue(b)
    ensures a == b
  {
    if a != [] {
      SameValueSameBytes(a[..|a| - 1], b[..|b| - 1]);
      assert a == a[..|a| - 1] + [a[|a| - 1]] && b == b[..|b| - 1] + [b[|b| - 1]];
    }
  }

  lemma AppendValue(b: seq<Byte>, x: Byte)
    ensures BytesValue(b + [x]) == BytesValue(b) * 256 + x
  {
    assert (b + [x])[..|b|] == b;
  }

  function Zeros(n: nat): (b: seq<Byte>)
    ensures |b| == n && forall i :: 0 <= i < n ==> b[i] == 0
  {
    seq(n, _ => 0)
  }
}
