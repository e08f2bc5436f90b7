/**
 What the parser refuses (signer/proto/cosigner.pb.go): numbers that do not end, tags that cannot
 be, fields of the wrong wire type, and lengths that lead out of the data.
 */
module WireErrors {
  import opened Wrappers
  import opened GoInt
  import opened Bytes
  import opened Wire
  import opened WireParser
  import opened WireSkip

  /** All the bytes from i up to j say that the number goes on. */
  predicate GoesOn(data: seq<Byte>, i: nat, j: nat) {
    i <= j <= |data| && forall k :: i <= k < j ==> data[k] >= 128
  }

  /** A number is refused exactly if it goes on to the end of the data, or for ten bytes. */
  lemma {:induction false} NumberRefused(data: seq<Byte>, i: nat, k: nat)
    requires i <= |data| && k <= 10
    ensures var r := ReadVarint(data, i, k);
      && (r == Err(IntOverflow) <==> GoesOn(data, i, i + 10 - k))
      && (r == Err(UnexpectedEOF) <==> |data| < i + 10 - k && GoesOn(data, i, |data|))
      && (r.Err? ==> r.error == IntOverflow || r.error == UnexpectedEOF)
    decreases |data| - i
  {
    if k < 10 && i < |data| && data[i] >= 128 {
      NumberRefused(data, i + 1, k + 1);
    }
  }

  lemma {:induction false} TagNumber(num: nat, wireType: nat)
    requires num < 0x1000_0000 && wireType < 8
    ensures ((8 * num + wireType) % TWO64) / 8 == num && Int32(num) == num
  {
  }

  /** An end of a group, a field number zero, and a known field of the wrong wire type are refused, whatever follows. */
  lemma {:induction false} TagRefused(schema: Schema, data: seq<Byte>, i: nat, num: nat, wireType: nat)
    requires num < 0x1000_0000 && wireType < 8 && i <= |data| && StandsAt(data, i, TagBytes(num, wireType))
    ensures wireType == 4 ==> Next(schema, data, i) == Err(EndGroup)
    ensures wireType != 4 && num == 0 ==> Next(schema, data, i) == Err(IllegalTag)
    ensures wireType != 4 && num > 0 && schema(num).Some? && wireType != (if schema(num).value.VarintKind? then 0 else 2) ==>
      Next(schema, data, i) == Err(WrongWireType)
  {
    TagAt(data, i, num, wireType);
    TagNumber(num, wireType);
  }

  /** A length that leads beyond the data is refused, and one that is no int64 too. */
  lemma {:induction false} LengthRefused(data: seq<Byte>, i: nat, num: int, n: nat)
    requires n < TWO64 && StandsAt(data, i, Varint(n)) && |data| < TWO63
    ensures var start, r := i + |Varint(n)|, NextChunk(data, i, num);
      && (r.Ok? <==> start + n <= |data|)
      && (r == Err(UnexpectedEOF) <==> |data| < start + n < TWO63)
      && (r == Err(InvalidLength) <==> start + n >= TWO63)
      && (r.Ok? ==> r.value == (Chunk(num, data[start..start + n]), start + n))
  {
    ReadAt(data, i, n);
    assert n % TWO64 == n;
    if n < TWO63 {
      LengthBack(n);
    } else {
      WrapCongruent(n, n - TWO64, 1);
      WrapSmall(n - TWO64);
    }
  }
}
