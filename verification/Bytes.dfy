/** Byte strings and the little-endian numbers they stand for (signer/tsed25519/internal/util). */
module Bytes {

  type Byte = b: int | 0 <= b < 256

  /** The number a little-endian byte string encodes. */
  function LE(b: seq<Byte>): nat {
    if b == [] then 0 else b[0] + 256 * LE(b[1..])
  }

  function Pow256(n: nat): (p: nat)
    ensures p > 0
  {
    if n == 0 then 1 else 256 * Pow256(n - 1)
  }

  lemma {:induction false} LEBound(b: seq<Byte>)
    ensures LE(b) < Pow256(|b|)
  {
    if b != [] {
      LEBound(b[1..]);
    }
  }

  lemma {:induction false} LEAppend(a: seq<Byte>, b: seq<Byte>)
    ensures LE(a + b) == LE(a) + Pow256(|a|) * LE(b)
  {
    if a == [] {
      assert a + b == b;
    } else {
      assert (a + b)[1..] == a[1..] + b;
      LEAppend(a[1..], b);
      assert Pow256(|a|) * LE(b) == 256 * (Pow256(|a| - 1) * LE(b));
    }
  }

  /** Two byte strings of one length that encode the same number are equal. */
  lemma {:induction false} LEInjective(a: seq<Byte>, b: seq<Byte>)
    requires |a| == |b| && LE(a) == LE(b)
    ensures a == b
  {
    if a != [] {
      var x, y := LE(a[1..]), LE(b[1..]);
      assert a[0] + 256 * x == b[0] + 256 * y;
      assert x == y && a[0] == b[0];
      LEInjective(a[1..], b[1..]);
      assert a == [a[0]] + a[1..] && b == [b[0]] + b[1..];
    }
  }

  function Zeros(n: nat): (z: seq<Byte>)
    ensures |z| == n
  {
    seq(n, _ => 0)
  }

  lemma {:induction false} LEZeros(n: nat)
    ensures LE(Zeros(n)) == 0
  {
    if n > 0 {
      assert Zeros(n)[1..] == Zeros(n - 1);
      LEZeros(n - 1);
    }
  }

  function Reversed(s: seq<Byte>): (r: seq<Byte>)
    ensures |r| == |s|
    ensures forall k :: 0 <= k < |s| ==> r[k] == s[|s| - 1 - k]
  {
    seq(|s|, k requires 0 <= k < |s| => s[|s| - 1 - k])
  }

  lemma {:induction false} ReversedTwice(s: seq<Byte>)
    ensures Reversed(Reversed(s)) == s
  {
  }

  /** Reverse: swaps the two halves of a copy in place, from the middle outwards. */
  method Reverse(src: seq<Byte>) returns (out: seq<Byte>)
    ensures out == Reversed(src)
  {
    var n := |src|;
    var dst := new Byte[n](i requires 0 <= i < n => src[i]);
    var i := n / 2 - 1;
    while i >= 0
      invariant -1 <= i <= n / 2 - 1
      invariant forall k :: 0 <= k <= i ==> dst[k] == src[k]
      invariant forall k :: n - 1 - i <= k < n ==> dst[k] == src[k]
      invariant forall k :: i < k < n - 1 - i ==> dst[k] == src[n - 1 - k]
    {
      var opp := n - 1 - i;
      dst[i], dst[opp] := dst[opp], dst[i];
      i := i - 1;
    }
    out := dst[..];
    assert out == Reversed(src);
  }

  /** math/big's Bytes: the shortest big-endian encoding, which is empty for zero. */
  function BigBytes(n: nat): (b: seq<Byte>)
    ensures LE(Reversed(b)) == n
    ensures b != [] ==> b[0] != 0
  {
    if n == 0 then []
    else
      var b := BigBytes(n / 256) + [n % 256];
      assert Reversed(b) == [n % 256] + Reversed(BigBytes(n / 256));
      b
  }

  lemma {:induction false} BigBytesLength(n: nat, k: nat)
    requires n < Pow256(k)
    ensures |BigBytes(n)| <= k
  {
    if n != 0 {
      BigBytesLength(n / 256, k - 1);
    }
  }

  /** copy into a freshly made slice of n bytes. */
  function CopyInto(n: nat, src: seq<Byte>): (dst: seq<Byte>)
    ensures |dst| == n
  {
    if |src| <= n then src + Zeros(n - |src|) else src[..n]
  }

  /** How a scalar leaves the arithmetic: reversed big-endian bytes copied into 32. */
  function ScalarBytes(n: nat): (b: seq<Byte>)
    ensures |b| == 32
  {
    CopyInto(32, Reversed(BigBytes(n)))
  }

  lemma {:induction false} CopyIntoValue(n: nat, k: nat)
    requires n < Pow256(k)
    ensures LE(CopyInto(k, Reversed(BigBytes(n)))) == n
  {
    BigBytesLength(n, k);
    var r := Reversed(BigBytes(n));
    LEAppend(r, Zeros(k - |r|));
    LEZeros(k - |r|);
  }

  /** Any number below 256^32 survives the trip through a 32-byte scalar. */
  lemma {:induction false} ScalarBytesValue(n: nat)
    requires n < Pow256(32)
    ensures LE(ScalarBytes(n)) == n
  {
    CopyIntoValue(n, 32);
  }
}
