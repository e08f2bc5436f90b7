/**
 The bytes of every message, tag by tag (signer/proto/cosigner.pb.go): what another implementation
 of the same messages would read.
 */
module WireLayout {
  import opened Wrappers
  import opened GoInt
  import opened Bytes
  import opened Wire
  import opened WireParser
  import opened WireMessages

  // ---------------------------------------------------------------- varints

  /** The number the low seven bits of the bytes stand for, least significant group first. */
  function GroupValue(b: seq<Byte>): nat {
    if b == [] then 0 else b[0] as int % 128 + 128 * GroupValue(b[1..])
  }

  /** A varint: groups of seven bits with the high bit set on all but the last, and no group to spare. */
  lemma {:induction false} VarintLayout(v: nat)
    ensures GroupValue(Varint(v)) == v
    ensures forall k :: 0 <= k < |Varint(v)| - 1 ==> Varint(v)[k] >= 128
    ensures Varint(v)[|Varint(v)| - 1] < 128 && (v > 0 ==> Varint(v)[|Varint(v)| - 1] > 0)
  {
    var b := Varint(v);
    if v < 128 {
      assert b[1..] == [];
    } else {
      VarintLayout(v / 128);
      assert b[1..] == Varint(v / 128);
    }
  }

  // ---------------------------------------------------------------- fields on the wire

  /** A number that is not zero: its tag and its 64-bit pattern. */
  function IntOnWire(tag: Byte, x: int): seq<Byte>
    requires -0x8000_0000_0000_0000 <= x < 0x8000_0000_0000_0000
  {
    if x == 0 then [] else [tag] + Varint(if x < 0 then x + 0x1_0000_0000_0000_0000 else x)
  }

  /** Bytes that are not empty: their tag, their length and themselves. */
  function BytesOnWire(tag: Byte, b: Data): seq<Byte> {
    if b == [] then [] else RecordOnWire(tag, b)
  }

  function RecordOnWire(tag: Byte, b: Data): seq<Byte> {
    [tag] + Varint(|b|) + b
  }

  function NonceOnWire(m: Nonce): seq<Byte> {
    IntOnWire(0x08, m.sourceID) + (IntOnWire(0x10, m.destinationID) + (BytesOnWire(0x1a, m.pubKey)
    + (BytesOnWire(0x22, m.share) + BytesOnWire(0x2a, m.signature))))
  }

  function NoncesOnWire(tag: Byte, ns: seq<Nonce>): seq<Byte> {
    if ns == [] then [] else RecordOnWire(tag, NonceOnWire(ns[0])) + NoncesOnWire(tag, ns[1..])
  }

  function HRSTOnWire(m: HRST): seq<Byte> {
    IntOnWire(0x08, m.height) + (IntOnWire(0x10, m.round) + (IntOnWire(0x18, m.step) + IntOnWire(0x20, m.timestamp)))
  }

  lemma {:induction false} OneField(f: Field)
    ensures Encode([f]) == EncodeField(f)
  {
    assert [f][1..] == [];
  }

  lemma {:induction false} IntLayout(num: nat, x: int)
    requires -0x8000_0000_0000_0000 <= x < 0x8000_0000_0000_0000 && 1 <= num < 16
    ensures Encode(IntPart(num, x)) == IntOnWire(8 * num, x)
  {
    if x != 0 {
      OneField(IntField(num, U64(x)));
    }
  }

  lemma {:induction false} BytesLayout(num: nat, b: Data)
    requires 1 <= num < 16
    ensures Encode(BytesPart(num, b)) == BytesOnWire(8 * num + 2, b)
  {
    if b != [] {
      OneField(BytesField(num, b));
    }
  }

  lemma {:induction false} NonceLayout(m: Nonce)
    ensures Encode(NonceFields(m)) == NonceOnWire(m)
  {
    IntLayout(1, m.sourceID);
    IntLayout(2, m.destinationID);
    BytesLayout(3, m.pubKey);
    BytesLayout(4, m.share);
    BytesLayout(5, m.signature);
    var f4 := BytesPart(4, m.share) + BytesPart(5, m.signature);
    var f3 := BytesPart(3, m.pubKey) + f4;
    EncodeAppend(BytesPart(4, m.share), BytesPart(5, m.signature));
    EncodeAppend(BytesPart(3, m.pubKey), f4);
    EncodeAppend(IntPart(2, m.destinationID), f3);
    EncodeAppend(IntPart(1, m.sourceID), IntPart(2, m.destinationID) + f3);
  }

  lemma {:induction false} NoncesLayout(num: nat, ns: seq<Nonce>)
    requires 1 <= num < 16
    ensures Encode(NoncesPart(num, ns)) == NoncesOnWire(8 * num + 2, ns)
  {
    if ns != [] {
      NoncesLayout(num, ns[1..]);
      NonceLayout(ns[0]);
      var fs := NoncesPart(num, ns);
      assert fs[1..] == NoncesPart(num, ns[1..]);
    }
  }

  lemma {:induction false} HRSTLayout(m: HRST)
    ensures Encode(HRSTFields(m)) == HRSTOnWire(m)
  {
    IntLayout(1, m.height);
    IntLayout(2, m.round);
    IntLayout(3, m.step);
    IntLayout(4, m.timestamp);
    var f3 := IntPart(3, m.step) + IntPart(4, m.timestamp);
    EncodeAppend(IntPart(3, m.step), IntPart(4, m.timestamp));
    EncodeAppend(IntPart(2, m.round), f3);
    EncodeAppend(IntPart(1, m.height), IntPart(2, m.round) + f3);
  }

  lemma {:induction false} BlockLayout(m: Block)
    ensures Encode(BlockFields(m))
         == IntOnWire(0x08, m.height) + (IntOnWire(0x10, m.round) + (IntOnWire(0x18, m.step)
            + (BytesOnWire(0x22, m.signBytes) + (BytesOnWire(0x2a, m.voteExtSignBytes) + IntOnWire(0x30, m.timestamp)))))
  {
    IntLayout(1, m.height);
    IntLayout(2, m.round);
    IntLayout(3, m.step);
    BytesLayout(4, m.signBytes);
    BytesLayout(5, m.voteExtSignBytes);
    IntLayout(6, m.timestamp);
    var f5 := BytesPart(5, m.voteExtSignBytes) + IntPart(6, m.timestamp);
    var f4 := BytesPart(4, m.signBytes) + f5;
    var f3 := IntPart(3, m.step) + f4;
    EncodeAppend(BytesPart(5, m.voteExtSignBytes), IntPart(6, m.timestamp));
    EncodeAppend(BytesPart(4, m.signBytes), f5);
    EncodeAppend(IntPart(3, m.step), f4);
    EncodeAppend(IntPart(2, m.round), f3);
    EncodeAppend(IntPart(1, m.height), IntPart(2, m.round) + f3);
  }

  lemma {:induction false} UUIDNonceLayout(m: UUIDNonce)
    ensures Encode(UUIDNonceFields(m)) == BytesOnWire(0x0a, m.uuid) + NoncesOnWire(0x12, m.nonces)
  {
    BytesLayout(1, m.uuid);
    NoncesLayout(2, m.nonces);
    EncodeAppend(BytesPart(1, m.uuid), NoncesPart(2, m.nonces));
  }

  lemma {:induction false} HRSTPartLayout(h: Option<HRST>)
    ensures Encode(HRSTPart(3, h)) == if h.Some? then RecordOnWire(0x1a, HRSTOnWire(h.value)) else []
  {
    if h.Some? {
      HRSTLayout(h.value);
      OneField(MessageField(3, HRSTFields(h.value)));
    }
  }

  function TailOnWire(m: SetNoncesAndSignRequest): seq<Byte> {
    BytesOnWire(0x2a, m.voteExtUuid) + (NoncesOnWire(0x32, m.voteExtNonces)
    + (BytesOnWire(0x3a, m.voteExtSignBytes) + BytesOnWire(0x42, m.chainID)))
  }

  lemma {:induction false} TailLayout(m: SetNoncesAndSignRequest)
    ensures Encode(RequestTail(m)) == TailOnWire(m)
  {
    BytesLayout(5, m.voteExtUuid);
    NoncesLayout(6, m.voteExtNonces);
    BytesLayout(7, m.voteExtSignBytes);
    BytesLayout(8, m.chainID);
    var f7 := BytesPart(7, m.voteExtSignBytes) + BytesPart(8, m.chainID);
    EncodeAppend(BytesPart(7, m.voteExtSignBytes), BytesPart(8, m.chainID));
    EncodeAppend(NoncesPart(6, m.voteExtNonces), f7);
    EncodeAppend(BytesPart(5, m.voteExtUuid), NoncesPart(6, m.voteExtNonces) + f7);
  }

  lemma {:induction false} RequestLayout(m: SetNoncesAndSignRequest)
    ensures Encode(RequestFields(m))
         == BytesOnWire(0x0a, m.uuid) + (NoncesOnWire(0x12, m.nonces)
            + ((if m.hrst.Some? then RecordOnWire(0x1a, HRSTOnWire(m.hrst.value)) else [])
               + (BytesOnWire(0x22, m.signBytes) + TailOnWire(m))))
  {
    BytesLayout(1, m.uuid);
    NoncesLayout(2, m.nonces);
    HRSTPartLayout(m.hrst);
    BytesLayout(4, m.signBytes);
    TailLayout(m);
    var f4 := BytesPart(4, m.signBytes) + RequestTail(m);
    var f3 := HRSTPart(3, m.hrst) + f4;
    EncodeAppend(BytesPart(4, m.signBytes), RequestTail(m));
    EncodeAppend(HRSTPart(3, m.hrst), f4);
    EncodeAppend(NoncesPart(2, m.nonces), f3);
    EncodeAppend(BytesPart(1, m.uuid), NoncesPart(2, m.nonces) + f3);
    assert RequestFields(m) == BytesPart(1, m.uuid) + (NoncesPart(2, m.nonces) + f3);
  }
}
