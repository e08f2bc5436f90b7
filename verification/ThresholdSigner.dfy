/**
 The soft threshold signer (signer/threshold_signer_soft.go): summing nonces, signing with a
 share and combining partial signatures into one that satisfies the verification equation of
 section 5.1.7 of RFC 8032.
 */
module ThresholdSigner {
  import opened Wrappers
  import opened Bytes
  import opened Group
  import opened GoInt
  import opened Omega
  import opened Interpolation
  import opened Modular
  import opened Shares
  import ScalarOps
  import BaseMult

  /** The curve group, its precomputed table, and the 32-byte encoding of points. */
  datatype Curve<!P(!new)> =
    Curve(group: Group<P>, table: seq<seq<P>>, base: P, encode: P -> seq<Byte>, decode: seq<Byte> -> P)

  ghost predicate ValidCurve<P(!new)>(c: Curve<P>) {
    && Abelian(c.group)
    && BaseMult.Table(c.group, c.table, c.base)
    && Mul(c.group, L, c.base) == c.group.zero
    && (forall p :: |c.encode(p)| == 32 && c.decode(c.encode(p)) == p)
  }

  // ---------------------------------------------------------------- scalars and elements

  function SumOf(scalars: seq<seq<Byte>>, n: nat): nat
    requires n <= |scalars|
  {
    if n == 0 then 0 else SumOf(scalars, n - 1) + LE(scalars[n - 1])
  }

  method AddScalars(scalars: seq<seq<Byte>>) returns (out: seq<Byte>)
    ensures |out| == 32 && LE(out) == SumOf(scalars, |scalars|) % L
  {
    var result: nat := 0;
    for i := 0 to |scalars|
      invariant result == SumOf(scalars, i)
    {
      var reversed := Reverse(scalars[i]);
      ReversedTwice(scalars[i]);
      result := result + LE(Reversed(reversed));
    }
    result := result % L;
    out := ScalarBytes(result);
    Pow256At32();
    ScalarBytesValue(result);
  }

  /** The sum of the points the non-empty elements encode. */
  function PointSum<P(!new)>(c: Curve<P>, elements: seq<seq<Byte>>, n: nat): P
    requires n <= |elements|
  {
    if n == 0 then c.group.zero
    else if elements[n - 1] == [] then PointSum(c, elements, n - 1)
    else c.group.add(c.decode(CopyInto(32, elements[n - 1])), PointSum(c, elements, n - 1))
  }

  method AddElements<P(!new)>(c: Curve<P>, elements: seq<seq<Byte>>) returns (element: seq<Byte>)
    requires ValidCurve(c)
    ensures |element| == 32 && c.decode(element) == PointSum(c, elements, |elements|)
    ensures element == c.encode(PointSum(c, elements, |elements|))
  {
    var out := c.group.zero;
    for i := 0 to |elements|
      invariant out == PointSum(c, elements, i)
    {
      if elements[i] != [] {
        out := c.group.add(c.decode(CopyInto(32, elements[i])), out);
      }
    }
    element := c.encode(out);
  }

  lemma {:induction false} CopyShort(src: seq<Byte>, n: nat)
    requires |src| <= n
    ensures LE(CopyInto(n, src)) == LE(src)
  {
    LEAppend(src, Zeros(n - |src|));
    LEZeros(n - |src|);
  }

  /** A reduced scalar leaves the top bit of its last byte clear. */
  lemma {:induction false} ReducedTopByte(b: seq<Byte>)
    requires |b| == 32 && LE(b) < L
    ensures b[31] <= 127
  {
    assert b == b[..31] + [b[31]];
    LEAppend(b[..31], [b[31]]);
    assert LE([b[31]]) == b[31] + 256 * LE([]);
    assert Pow256(31) * 256 == Pow256(32);
    Pow256At32();
  }

  /** The scalar, reduced modulo L, times the base point; more than 64 bytes are cut. */
  method ScalarMultiplyBase<P(!new)>(c: Curve<P>, scalar: seq<Byte>) returns (element: seq<Byte>)
    requires ValidCurve(c)
    ensures |element| == 32
    ensures |scalar| <= 64 ==> c.decode(element) == Mul(c.group, LE(scalar) % L, c.base)
  {
    var orig := CopyInto(64, scalar);
    if |scalar| <= 64 {
      CopyShort(scalar, 64);
    }
    var reduced := ScalarOps.ScReduce(orig);
    ReducedTopByte(reduced);
    var a := BaseMult.GeScalarMultBase(c.group, c.table, c.base, reduced);
    element := c.encode(a);
  }

  // ---------------------------------------------------------------- signing

  /** The Schnorr response to challenge k with key a and nonce r, before reduction. */
  function Response(k: int, a: int, r: int): int {
    k * a + r
  }

  ghost predicate Digest(hash: seq<Byte> -> seq<Byte>) {
    forall m :: |hash(m)| == 64
  }

  method SignWithShare(hash: seq<Byte> -> seq<Byte>, message: seq<Byte>, share: seq<Byte>, ephemeralShare: seq<Byte>,
                       publicKey: seq<Byte>, ephemeralPublic: seq<Byte>)
    returns (signature: seq<Byte>)
    requires Digest(hash) && |share| >= 32 && |ephemeralShare| >= 32
    ensures |signature| == 32
    ensures LE(signature)
         == (LE(hash(ephemeralPublic + publicKey + message)) % L * LE(share[..32]) + LE(ephemeralShare[..32])) % L
  {
    var digest := hash(ephemeralPublic + publicKey + message);
    var digestReduced := ScalarOps.ScReduce(digest);
    signature := ScalarOps.ScMulAdd(digestReduced, share[..32], ephemeralShare[..32]);
  }

  datatype Nonce = Nonce(id: int, share: seq<Byte>, pubKey: seq<Byte>)
  datatype Nonces = Nonces(pubKey: seq<Byte>, shares: seq<seq<Byte>>)
  datatype PartialSignature = PartialSignature(id: Int64, signature: seq<Byte>)
  datatype Signer = Signer(privateKeyShard: seq<Byte>, pubKey: seq<Byte>, threshold: nat, total: nat)
  datatype Error = OutOfBounds | TooShort(id: int, length: nat) | Mismatch

  function ShareParts(nonces: seq<Nonce>): (parts: seq<seq<Byte>>)
    ensures |parts| == |nonces|
  {
    seq(|nonces|, i requires 0 <= i < |nonces| => nonces[i].share)
  }

  function PubKeys(nonces: seq<Nonce>): (keys: seq<seq<Byte>>)
    ensures |keys| == |nonces|
  {
    seq(|nonces|, i requires 0 <= i < |nonces| => nonces[i].pubKey)
  }

  /** The bounds checks are there for a summand that is not reduced; the sum always is. */
  method SumNonces<P(!new)>(c: Curve<P>, nonces: seq<Nonce>) returns (r: Result<(seq<Byte>, seq<Byte>), Error>)
    requires ValidCurve(c)
    ensures r.Ok? && |r.value.0| == 32
    ensures LE(r.value.0) == SumOf(ShareParts(nonces), |nonces|) % L
    ensures r.value.1 == c.encode(PointSum(c, PubKeys(nonces), |nonces|))
  {
    var shareParts, publicKeys := [], [];
    for i := 0 to |nonces|
      invariant |shareParts| == |publicKeys| == i
      invariant forall k :: 0 <= k < i ==> shareParts[k] == nonces[k].share && publicKeys[k] == nonces[k].pubKey
    {
      shareParts := shareParts + [nonces[i].share];
      publicKeys := publicKeys + [nonces[i].pubKey];
    }
    assert shareParts == ShareParts(nonces) && publicKeys == PubKeys(nonces);
    var nonceShare := AddScalars(shareParts);
    var noncePub := AddElements(c, publicKeys);
    var minimal := ScalarOps.ScMinimal(nonceShare);
    r := if |nonceShare| == 32 && minimal then Ok((nonceShare, noncePub)) else Err(OutOfBounds);
  }

  /** A partial signature: the summed nonce key, then the share of the response. */
  ghost predicate IsPartial<P(!new)>(c: Curve<P>, hash: seq<Byte> -> seq<Byte>, s: Signer, nonces: seq<Nonce>,
                                     payload: seq<Byte>, signature: seq<Byte>)
    requires |s.privateKeyShard| >= 32
  {
    && |signature| == 64
    && signature[..32] == c.encode(PointSum(c, PubKeys(nonces), |nonces|))
    && LE(signature[32..])
       == Response(LE(hash(signature[..32] + s.pubKey + payload)) % L, LE(s.privateKeyShard[..32]),
                   SumOf(ShareParts(nonces), |nonces|) % L) % L
  }

  method Sign<P(!new)>(c: Curve<P>, hash: seq<Byte> -> seq<Byte>, s: Signer, nonces: seq<Nonce>, payload: seq<Byte>)
    returns (r: Result<seq<Byte>, Error>)
    requires ValidCurve(c) && Digest(hash) && |s.privateKeyShard| >= 32
    ensures r.Ok? && IsPartial(c, hash, s, nonces, payload, r.value)
  {
    // SumNonces never reports an error, so its result is used directly.
    var sum := SumNonces(c, nonces);
    var (nonceShare, noncePub) := sum.value;
    assert nonceShare[..32] == nonceShare;
    var sig := SignWithShare(hash, payload, s.privateKeyShard, nonceShare, s.pubKey, noncePub);
    var out := noncePub + sig;
    assert out[..32] == noncePub && out[32..] == sig;
    return Ok(out);
  }

  /** Nonces for every cosigner: the secret and the coefficients are the randomness drawn. */
  method GenerateNonces<P(!new)>(c: Curve<P>, secret: seq<Byte>, random: seq<nat>, threshold: nat, total: nat)
    returns (nonces: Nonces)
    requires ValidCurve(c) && |secret| == 32
    requires 1 <= threshold <= 255 && total <= 255
    requires |random| == threshold - 1 && forall j :: 0 <= j < |random| ==> random[j] < L
    ensures |nonces.pubKey| == 32 && c.decode(nonces.pubKey) == Mul(c.group, LE(secret) % L, c.base)
    ensures |nonces.shares| == total
    ensures forall i :: 0 <= i < total ==> IsShare(Polynomial(secret, random), i + 1, nonces.shares[i])
  {
    var pubKey := ScalarMultiplyBase(c, secret);
    var shares := DealShares(secret, random, threshold, total);
    nonces := Nonces(pubKey, shares);
  }

  // ---------------------------------------------------------------- combining

  /** What the loop reports about signature i. */
  function Fault(sigs: seq<PartialSignature>, i: nat): Option<Error>
    requires i < |sigs|
  {
    if |sigs[i].signature| <= 32 then Some(TooShort(sigs[i].id, |sigs[i].signature|))
    else if |sigs[0].signature| > 32 && sigs[i].signature[..32] != sigs[0].signature[..32] then Some(Mismatch)
    else None
  }

  function SigIds(sigs: seq<PartialSignature>): (ids: seq<Int64>)
    ensures |ids| == |sigs|
  {
    seq(|sigs|, i requires 0 <= i < |sigs| => sigs[i].id)
  }

  function ShareSigs(sigs: seq<PartialSignature>): (shares: seq<seq<Byte>>)
    ensures |shares| == |sigs|
  {
    seq(|sigs|, i requires 0 <= i < |sigs| =>
      if |sigs[i].signature| > 32 then sigs[i].signature[32..] else [])
  }

  ghost predicate Faultless(sigs: seq<PartialSignature>, n: nat)
    requires n <= |sigs|
  {
    forall i :: 0 <= i < n ==> Fault(sigs, i) == None
  }

  /** No fault is exactly: all signatures are longer than their nonce key, and the nonce keys are equal. */
  lemma {:induction false} FaultlessMeans(sigs: seq<PartialSignature>)
    ensures Faultless(sigs, |sigs|) <==>
      && (forall i :: 0 <= i < |sigs| ==> |sigs[i].signature| > 32)
      && (forall i, j :: 0 <= i < j < |sigs| ==> sigs[i].signature[..32] == sigs[j].signature[..32])
  {
    if Faultless(sigs, |sigs|) {
      forall i | 0 <= i < |sigs|
        ensures |sigs[i].signature| > 32 && |sigs[0].signature| > 32 && sigs[i].signature[..32] == sigs[0].signature[..32]
      {
        assert Fault(sigs, i) == None && Fault(sigs, 0) == None;
      }
    }
  }

  /** The nonce key of the first signature and the combined shares, or the first fault found. */
  method CombineSignatures(s: Signer, sigs: seq<PartialSignature>) returns (r: Result<seq<Byte>, Error>)
    requires s.total <= 255
    ensures r.Ok? <==> Faultless(sigs, |sigs|)
    ensures r.Err? ==> exists i :: 0 <= i < |sigs| && Faultless(sigs, i) && Fault(sigs, i) == Some(r.error)
    ensures r.Ok? && sigs != [] ==>
      |r.value| == 64 && |sigs[0].signature| > 32 && r.value[..32] == sigs[0].signature[..32]
      && LE(r.value[32..]) == CombinedValue(s.total, SigIds(sigs), ShareNumbers(ShareSigs(sigs)))
    ensures r.Ok? && sigs == [] ==> |r.value| == 32
  {
    var sigIds: seq<Int64> := [];
    var shareSigs := [];
    var ephPub := [];
    for i := 0 to |sigs|
      invariant |sigIds| == |shareSigs| == i && Faultless(sigs, i)
      invariant i == 0 ==> ephPub == []
      invariant i > 0 ==> |sigs[0].signature| > 32 && ephPub == sigs[0].signature[..32]
      invariant forall k :: 0 <= k < i ==> sigIds[k] == sigs[k].id
      invariant forall k :: 0 <= k < i ==> |sigs[k].signature| > 32 && shareSigs[k] == sigs[k].signature[32..]
    {
      var sig := sigs[i];
      if |sig.signature| <= 32 {
        assert Fault(sigs, i).Some?;
        return Err(TooShort(sig.id, |sig.signature|));
      }
      sigIds := sigIds + [sig.id];
      if i == 0 {
        ephPub := sig.signature[..32];
      } else if sig.signature[..32] != ephPub {
        assert Fault(sigs, i).Some?;
        return Err(Mismatch);
      }
      shareSigs := shareSigs + [sig.signature[32..]];
    }
    assert sigIds == SigIds(sigs) && shareSigs == ShareSigs(sigs);
    var combinedSig := CombineShares(s.total, sigIds, shareSigs);
    var out := ephPub + combinedSig;
    assert out[|ephPub|..] == combinedSig && out[..|ephPub|] == ephPub;
    return Ok(out);
  }
}
