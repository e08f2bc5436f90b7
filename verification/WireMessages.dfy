/** The messages themselves (signer/proto/cosigner.pb.go): their fields, and their round trips. */
module WireMessages {
  import opened Wrappers
  import opened GoInt
  import opened Bytes
  import opened Wire
  import opened WireParser

  type Int32Value = x: int | -0x8000_0000 <= x < 0x8000_0000
  type Data = seq<Byte>

  datatype Block = Block(
    height: Int64, round: Int64, step: Int32Value, signBytes: Data, voteExtSignBytes: Data, timestamp: Int64)

  datatype HRST = HRST(height: Int64, round: Int64, step: Int32Value, timestamp: Int64)

  datatype Nonce = Nonce(sourceID: Int32Value, destinationID: Int32Value, pubKey: Data, share: Data, signature: Data)

  datatype UUIDNonce = UUIDNonce(uuid: Data, nonces: seq<Nonce>)

  datatype SetNoncesAndSignRequest = SetNoncesAndSignRequest(
    uuid: Data, nonces: seq<Nonce>, hrst: Option<HRST>, signBytes: Data,
    voteExtUuid: Data, voteExtNonces: seq<Nonce>, voteExtSignBytes: Data, chainID: Data)

  const EmptyBlock := Block(0, 0, 0, [], [], 0)
  const EmptyHRST := HRST(0, 0, 0, 0)
  const EmptyNonce := Nonce(0, 0, [], [], [])
  const EmptyUUIDNonce := UUIDNonce([], [])
  const EmptyRequest := SetNoncesAndSignRequest([], [], None, [], [], [], [], [])

  // ---------------------------------------------------------------- fields, in order

  /** An integer is written unless it is zero; a negative one as its 64-bit pattern. */
  function IntPart(num: nat, x: int): seq<Field> {
    if x != 0 then [IntField(num, U64(x))] else []
  }

  function BytesPart(num: nat, b: Data): seq<Field> {
    if |b| > 0 then [BytesField(num, b)] else []
  }

  function NoncesPart(num: nat, ns: seq<Nonce>): seq<Field> {
    if ns == [] then [] else [MessageField(num, NonceFields(ns[0]))] + NoncesPart(num, ns[1..])
  }

  function BlockFields(m: Block): seq<Field> {
    IntPart(1, m.height) + (IntPart(2, m.round) + (IntPart(3, m.step)
    + (BytesPart(4, m.signBytes) + (BytesPart(5, m.voteExtSignBytes) + IntPart(6, m.timestamp)))))
  }

  function HRSTFields(m: HRST): seq<Field> {
    IntPart(1, m.height) + (IntPart(2, m.round) + (IntPart(3, m.step) + IntPart(4, m.timestamp)))
  }

  function NonceFields(m: Nonce): seq<Field> {
    IntPart(1, m.sourceID) + (IntPart(2, m.destinationID)
    + (BytesPart(3, m.pubKey) + (BytesPart(4, m.share) + BytesPart(5, m.signature))))
  }

  function UUIDNonceFields(m: UUIDNonce): seq<Field> {
    BytesPart(1, m.uuid) + NoncesPart(2, m.nonces)
  }

  function HRSTPart(num: nat, h: Option<HRST>): seq<Field> {
    if h.Some? then [MessageField(num, HRSTFields(h.value))] else []
  }

  function RequestFields(m: SetNoncesAndSignRequest): seq<Field> {
    BytesPart(1, m.uuid) + (NoncesPart(2, m.nonces) + (HRSTPart(3, m.hrst) + (BytesPart(4, m.signBytes)
    + (BytesPart(5, m.voteExtUuid) + (NoncesPart(6, m.voteExtNonces)
    + (BytesPart(7, m.voteExtSignBytes) + BytesPart(8, m.chainID)))))))
  }

  // ---------------------------------------------------------------- the switches

  function BlockSchema(num: int): Option<Kind> {
    if num in {1, 2, 3, 6} then Some(VarintKind) else if num in {4, 5} then Some(BytesKind) else None
  }

  function SetBlock(m: Block, t: Token): Result<Block, Error> {
    match t
    case Int(1, v) => Ok(m.(height := Wrap(v)))
    case Int(2, v) => Ok(m.(round := Wrap(v)))
    case Int(3, v) => Ok(m.(step := Int32(v)))
    case Chunk(4, b) => Ok(m.(signBytes := b))
    case Chunk(5, b) => Ok(m.(voteExtSignBytes := b))
    case Int(6, v) => Ok(m.(timestamp := Wrap(v)))
    case _ => Ok(m)
  }

  function HRSTSchema(num: int): Option<Kind> {
    if num in {1, 2, 3, 4} then Some(VarintKind) else None
  }

  function SetHRST(m: HRST, t: Token): Result<HRST, Error> {
    match t
    case Int(1, v) => Ok(m.(height := Wrap(v)))
    case Int(2, v) => Ok(m.(round := Wrap(v)))
    case Int(3, v) => Ok(m.(step := Int32(v)))
    case Int(4, v) => Ok(m.(timestamp := Wrap(v)))
    case _ => Ok(m)
  }

  function NonceSchema(num: int): Option<Kind> {
    if num in {1, 2} then Some(VarintKind) else if num in {3, 4, 5} then Some(BytesKind) else None
  }

  function SetNonce(m: Nonce, t: Token): Result<Nonce, Error> {
    match t
    case Int(1, v) => Ok(m.(sourceID := Int32(v)))
    case Int(2, v) => Ok(m.(destinationID := Int32(v)))
    case Chunk(3, b) => Ok(m.(pubKey := b))
    case Chunk(4, b) => Ok(m.(share := b))
    case Chunk(5, b) => Ok(m.(signature := b))
    case _ => Ok(m)
  }

  function ParseNonce(b: Data): Result<Nonce, Error> {
    Parse(NonceSchema, SetNonce, b, 0, EmptyNonce)
  }

  function UUIDNonceSchema(num: int): Option<Kind> {
    if num in {1, 2} then Some(BytesKind) else None
  }

  function SetUUIDNonce(m: UUIDNonce, t: Token): Result<UUIDNonce, Error> {
    match t
    case Chunk(1, b) => Ok(m.(uuid := b))
    case Chunk(2, b) =>
      (match ParseNonce(b)
       case Err(e) => Err(e)
       case Ok(n) => Ok(m.(nonces := m.nonces + [n])))
    case _ => Ok(m)
  }

  function RequestSchema(num: int): Option<Kind> {
    if 1 <= num <= 8 then Some(BytesKind) else None
  }

  function SetRequest(m: SetNoncesAndSignRequest, t: Token): Result<SetNoncesAndSignRequest, Error> {
    match t
    case Chunk(1, b) => Ok(m.(uuid := b))
    case Chunk(2, b) =>
      (match ParseNonce(b)
       case Err(e) => Err(e)
       case Ok(n) => Ok(m.(nonces := m.nonces + [n])))
    case Chunk(3, b) =>
      (match Parse(HRSTSchema, SetHRST, b, 0, if m.hrst.Some? then m.hrst.value else EmptyHRST)
       case Err(e) => Err(e)
       case Ok(h) => Ok(m.(hrst := Some(h))))
    case Chunk(4, b) => Ok(m.(signBytes := b))
    case Chunk(5, b) => Ok(m.(voteExtUuid := b))
    case Chunk(6, b) =>
      (match ParseNonce(b)
       case Err(e) => Err(e)
       case Ok(n) => Ok(m.(voteExtNonces := m.voteExtNonces + [n])))
    case Chunk(7, b) => Ok(m.(voteExtSignBytes := b))
    case Chunk(8, b) => Ok(m.(chainID := b))
    case _ => Ok(m)
  }

  // ---------------------------------------------------------------- storing part by part

  lemma {:induction false} StoreAppend<M>(set_: Switch<M>, a: seq<Field>, b: seq<Field>, m: M, m': M)
    requires StoreAll(set_, a, m) == Ok(m')
    ensures StoreAll(set_, a + b, m) == StoreAll(set_, b, m')
  {
    if a == [] {
      assert a + b == b;
    } else {
      assert (a + b)[1..] == a[1..] + b;
      StoreAppend(set_, a[1..], b, set_(m, TokenOf(a[0])).value, m');
    }
  }

  /** Storing an integer part and then the rest; a zero is not written and leaves the message alone. */
  lemma {:induction false} ThenInt<M>(set_: Switch<M>, num: nat, x: int, rest: seq<Field>, m: M, m': M)
    requires if x == 0 then m' == m else set_(m, Int(num, U64(x))) == Ok(m')
    ensures StoreAll(set_, IntPart(num, x) + rest, m) == StoreAll(set_, rest, m')
  {
    assert IntPart(num, x) == [] || IntPart(num, x)[1..] == [];
    StoreAppend(set_, IntPart(num, x), rest, m, m');
  }

  lemma {:induction false} ThenBytes<M>(set_: Switch<M>, num: nat, b: Data, rest: seq<Field>, m: M, m': M)
    requires if b == [] then m' == m else set_(m, Chunk(num, b)) == Ok(m')
    ensures StoreAll(set_, BytesPart(num, b) + rest, m) == StoreAll(set_, rest, m')
  {
    assert BytesPart(num, b) == [] || BytesPart(num, b)[1..] == [];
    StoreAppend(set_, BytesPart(num, b), rest, m, m');
  }

  lemma {:induction false} Last(fs: seq<Field>)
    ensures fs + [] == fs
  {
  }

  ghost predicate AllKnown(schema: Schema, fs: seq<Field>) {
    forall k :: 0 <= k < |fs| ==> Known(schema, fs[k])
  }

  lemma {:induction false} KnownAppend(schema: Schema, a: seq<Field>, b: seq<Field>)
    requires AllKnown(schema, a) && AllKnown(schema, b)
    ensures AllKnown(schema, a + b)
  {
  }

  // ---------------------------------------------------------------- round trips

  lemma {:induction false} BlockKnown(m: Block)
    ensures AllKnown(BlockSchema, BlockFields(m))
  {
  }

  lemma {:induction false} HRSTKnown(m: HRST)
    ensures AllKnown(HRSTSchema, HRSTFields(m))
  {
  }

  lemma {:induction false} NonceKnown(m: Nonce)
    ensures AllKnown(NonceSchema, NonceFields(m))
  {
  }

  lemma {:induction false} BlockStores(m: Block)
    ensures StoreAll(SetBlock, BlockFields(m), EmptyBlock) == Ok(m)
  {
    Int64Back(m.height);
    Int64Back(m.round);
    Int32Back(m.step);
    Int64Back(m.timestamp);
    var b1 := EmptyBlock.(height := m.height);
    var b2 := b1.(round := m.round);
    var b3 := b2.(step := m.step);
    var b4 := b3.(signBytes := m.signBytes);
    var b5 := b4.(voteExtSignBytes := m.voteExtSignBytes);
    var f5 := BytesPart(5, m.voteExtSignBytes) + IntPart(6, m.timestamp);
    var f4 := BytesPart(4, m.signBytes) + f5;
    var f3 := IntPart(3, m.step) + f4;
    ThenInt(SetBlock, 1, m.height, IntPart(2, m.round) + f3, EmptyBlock, b1);
    ThenInt(SetBlock, 2, m.round, f3, b1, b2);
    ThenInt(SetBlock, 3, m.step, f4, b2, b3);
    ThenBytes(SetBlock, 4, m.signBytes, f5, b3, b4);
    ThenBytes(SetBlock, 5, m.voteExtSignBytes, IntPart(6, m.timestamp), b4, b5);
    ThenInt(SetBlock, 6, m.timestamp, [], b5, m);
    Last(IntPart(6, m.timestamp));
  }

  /** Marshalling a block and parsing the bytes gives the block back, negative numbers included. */
  lemma {:induction false} BlockRoundTrip(m: Block)
    requires |Encode(BlockFields(m))| < TWO63
    ensures Parse(BlockSchema, SetBlock, Encode(BlockFields(m)), 0, EmptyBlock) == Ok(m)
  {
    BlockKnown(m);
    ParseEncoded(BlockSchema, SetBlock, BlockFields(m), EmptyBlock);
    BlockStores(m);
  }

  lemma {:induction false} HRSTRoundTrip(m: HRST)
    requires |Encode(HRSTFields(m))| < TWO63
    ensures Parse(HRSTSchema, SetHRST, Encode(HRSTFields(m)), 0, EmptyHRST) == Ok(m)
  {
    HRSTKnown(m);
    ParseEncoded(HRSTSchema, SetHRST, HRSTFields(m), EmptyHRST);
    Int64Back(m.height);
    Int64Back(m.round);
    Int32Back(m.step);
    Int64Back(m.timestamp);
    var b1 := EmptyHRST.(height := m.height);
    var b2 := b1.(round := m.round);
    var b3 := b2.(step := m.step);
    var f3 := IntPart(3, m.step) + IntPart(4, m.timestamp);
    ThenInt(SetHRST, 1, m.height, IntPart(2, m.round) + f3, EmptyHRST, b1);
    ThenInt(SetHRST, 2, m.round, f3, b1, b2);
    ThenInt(SetHRST, 3, m.step, IntPart(4, m.timestamp), b2, b3);
    ThenInt(SetHRST, 4, m.timestamp, [], b3, m);
    Last(IntPart(4, m.timestamp));
  }

  lemma {:induction false} NonceStores(m: Nonce)
    ensures StoreAll(SetNonce, NonceFields(m), EmptyNonce) == Ok(m)
  {
    Int32Back(m.sourceID);
    Int32Back(m.destinationID);
    var b1 := EmptyNonce.(sourceID := m.sourceID);
    var b2 := b1.(destinationID := m.destinationID);
    var b3 := b2.(pubKey := m.pubKey);
    var b4 := b3.(share := m.share);
    var f4 := BytesPart(4, m.share) + BytesPart(5, m.signature);
    var f3 := BytesPart(3, m.pubKey) + f4;
    ThenInt(SetNonce, 1, m.sourceID, IntPart(2, m.destinationID) + f3, EmptyNonce, b1);
    ThenInt(SetNonce, 2, m.destinationID, f3, b1, b2);
    ThenBytes(SetNonce, 3, m.pubKey, f4, b2, b3);
    ThenBytes(SetNonce, 4, m.share, BytesPart(5, m.signature), b3, b4);
    ThenBytes(SetNonce, 5, m.signature, [], b4, m);
    Last(BytesPart(5, m.signature));
  }

  lemma {:induction false} NonceRoundTrip(m: Nonce)
    requires |Encode(NonceFields(m))| < TWO63
    ensures ParseNonce(Encode(NonceFields(m))) == Ok(m)
  {
    NonceKnown(m);
    ParseEncoded(NonceSchema, SetNonce, NonceFields(m), EmptyNonce);
    NonceStores(m);
  }

  // ---------------------------------------------------------------- repeated nonces

  /** What a nested message takes fits in what the whole takes. */
  lemma {:induction false} NestedFits(fs: seq<Field>, k: nat)
    requires k < |fs| && fs[k].MessageField?
    ensures |Encode(fs[k].fields)| <= |Encode(fs)|
    decreases fs
  {
    if k > 0 {
      NestedFits(fs[1..], k - 1);
    }
  }

  lemma {:induction false} EncodeAppend(a: seq<Field>, b: seq<Field>)
    ensures Encode(a + b) == Encode(a) + Encode(b)
  {
    if a == [] {
      assert a + b == b;
    } else {
      assert (a + b)[1..] == a[1..] + b;
      EncodeAppend(a[1..], b);
    }
  }

  function Added<M>(parsed: Result<Nonce, Error>, add: (M, Nonce) -> M, m: M): Result<M, Error> {
    match parsed
    case Err(e) => Err(e)
    case Ok(n) => Ok(add(m, n))
  }

  /** The switch appends parsed nonces to a list of the message, with this field number. */
  ghost predicate Appends<M(!new)>(set_: Switch<M>, num: nat, add: (M, Nonce) -> M) {
    forall m, b :: set_(m, Chunk(num, b)) == Added(ParseNonce(b), add, m)
  }

  function AddAll<M>(add: (M, Nonce) -> M, m: M, ns: seq<Nonce>): M {
    if ns == [] then m else AddAll(add, add(m, ns[0]), ns[1..])
  }

  /** Storing a repeated field appends its nonces one by one, in order. */
  lemma {:induction false} ThenNonces<M(!new)>(set_: Switch<M>, num: nat, add: (M, Nonce) -> M, ns: seq<Nonce>,
                                              rest: seq<Field>, m: M)
    requires Appends(set_, num, add) && |Encode(NoncesPart(num, ns))| < TWO63
    ensures StoreAll(set_, NoncesPart(num, ns) + rest, m) == StoreAll(set_, rest, AddAll(add, m, ns))
  {
    if ns == [] {
      assert NoncesPart(num, ns) + rest == rest;
    } else {
      var fs := NoncesPart(num, ns);
      assert (fs + rest)[1..] == NoncesPart(num, ns[1..]) + rest && (fs + rest)[0] == fs[0];
      NestedFits(fs, 0);
      NonceRoundTrip(ns[0]);
      assert fs[1..] == NoncesPart(num, ns[1..]);
      ThenNonces(set_, num, add, ns[1..], rest, add(m, ns[0]));
    }
  }

  lemma {:induction false} NoncesKnown(schema: Schema, num: nat, ns: seq<Nonce>)
    requires 1 <= num < 16 && schema(num) == Some(BytesKind)
    ensures AllKnown(schema, NoncesPart(num, ns))
  {
    if ns != [] {
      NoncesKnown(schema, num, ns[1..]);
      assert NoncesPart(num, ns)[1..] == NoncesPart(num, ns[1..]);
    }
  }

  function AddToUUID(m: UUIDNonce, n: Nonce): UUIDNonce {
    m.(nonces := m.nonces + [n])
  }

  lemma {:induction false} AddedToUUID(m: UUIDNonce, ns: seq<Nonce>)
    ensures AddAll(AddToUUID, m, ns) == m.(nonces := m.nonces + ns)
    decreases ns
  {
    if ns == [] {
      assert m.nonces + ns == m.nonces;
    } else {
      AddedToUUID(AddToUUID(m, ns[0]), ns[1..]);
      assert m.nonces + [ns[0]] + ns[1..] == m.nonces + ns;
    }
  }

  lemma {:induction false} UUIDNonceRoundTrip(m: UUIDNonce)
    requires |Encode(UUIDNonceFields(m))| < TWO63
    ensures Parse(UUIDNonceSchema, SetUUIDNonce, Encode(UUIDNonceFields(m)), 0, EmptyUUIDNonce) == Ok(m)
  {
    NoncesKnown(UUIDNonceSchema, 2, m.nonces);
    assert AllKnown(UUIDNonceSchema, UUIDNonceFields(m));
    ParseEncoded(UUIDNonceSchema, SetUUIDNonce, UUIDNonceFields(m), EmptyUUIDNonce);
    EncodeAppend(BytesPart(1, m.uuid), NoncesPart(2, m.nonces));
    var b1 := EmptyUUIDNonce.(uuid := m.uuid);
    ThenBytes(SetUUIDNonce, 1, m.uuid, NoncesPart(2, m.nonces), EmptyUUIDNonce, b1);
    ThenNonces(SetUUIDNonce, 2, AddToUUID, m.nonces, [], b1);
    Last(NoncesPart(2, m.nonces));
    AddedToUUID(b1, m.nonces);
    assert [] + m.nonces == m.nonces;
  }

  // ---------------------------------------------------------------- the request

  function AddNonce(m: SetNoncesAndSignRequest, n: Nonce): SetNoncesAndSignRequest {
    m.(nonces := m.nonces + [n])
  }

  function AddExtNonce(m: SetNoncesAndSignRequest, n: Nonce): SetNoncesAndSignRequest {
    m.(voteExtNonces := m.voteExtNonces + [n])
  }

  lemma {:induction false} AddedNonces(m: SetNoncesAndSignRequest, ns: seq<Nonce>)
    ensures AddAll(AddNonce, m, ns) == m.(nonces := m.nonces + ns)
    decreases ns
  {
    if ns == [] {
      assert m.nonces + ns == m.nonces;
    } else {
      AddedNonces(AddNonce(m, ns[0]), ns[1..]);
      assert m.nonces + [ns[0]] + ns[1..] == m.nonces + ns;
    }
  }

  lemma {:induction false} AddedExtNonces(m: SetNoncesAndSignRequest, ns: seq<Nonce>)
    ensures AddAll(AddExtNonce, m, ns) == m.(voteExtNonces := m.voteExtNonces + ns)
    decreases ns
  {
    if ns == [] {
      assert m.voteExtNonces + ns == m.voteExtNonces;
    } else {
      AddedExtNonces(AddExtNonce(m, ns[0]), ns[1..]);
      assert m.voteExtNonces + [ns[0]] + ns[1..] == m.voteExtNonces + ns;
    }
  }

  lemma {:induction false} ThenHRST(h: Option<HRST>, rest: seq<Field>, m: SetNoncesAndSignRequest)
    requires m.hrst.None? && |Encode(HRSTPart(3, h))| < TWO63
    ensures StoreAll(SetRequest, HRSTPart(3, h) + rest, m) == StoreAll(SetRequest, rest, m.(hrst := h))
  {
    var fs := HRSTPart(3, h);
    if h.Some? {
      NestedFits(fs, 0);
      HRSTRoundTrip(h.value);
      assert fs[1..] == [];
    }
    StoreAppend(SetRequest, fs, rest, m, m.(hrst := h));
  }

  /** The second half of the request: everything from the extension UUID on. */
  function RequestTail(m: SetNoncesAndSignRequest): seq<Field> {
    BytesPart(5, m.voteExtUuid) + (NoncesPart(6, m.voteExtNonces)
    + (BytesPart(7, m.voteExtSignBytes) + BytesPart(8, m.chainID)))
  }

  lemma {:induction false} TailStores(m: SetNoncesAndSignRequest, b4: SetNoncesAndSignRequest)
    requires b4 == SetNoncesAndSignRequest(m.uuid, m.nonces, m.hrst, m.signBytes, [], [], [], [])
    requires |Encode(NoncesPart(6, m.voteExtNonces))| < TWO63
    ensures StoreAll(SetRequest, RequestTail(m), b4) == Ok(m)
  {
    var b5 := b4.(voteExtUuid := m.voteExtUuid);
    var b6 := b5.(voteExtNonces := m.voteExtNonces);
    var b7 := b6.(voteExtSignBytes := m.voteExtSignBytes);
    var f7 := BytesPart(7, m.voteExtSignBytes) + BytesPart(8, m.chainID);
    ThenBytes(SetRequest, 5, m.voteExtUuid, NoncesPart(6, m.voteExtNonces) + f7, b4, b5);
    ThenNonces(SetRequest, 6, AddExtNonce, m.voteExtNonces, f7, b5);
    AddedExtNonces(b5, m.voteExtNonces);
    assert [] + m.voteExtNonces == m.voteExtNonces;
    ThenBytes(SetRequest, 7, m.voteExtSignBytes, BytesPart(8, m.chainID), b6, b7);
    ThenBytes(SetRequest, 8, m.chainID, [], b7, m);
    Last(BytesPart(8, m.chainID));
  }

  lemma {:induction false} HeadStores(m: SetNoncesAndSignRequest, rest: seq<Field>)
    requires |Encode(NoncesPart(2, m.nonces))| < TWO63
    ensures StoreAll(SetRequest, BytesPart(1, m.uuid) + (NoncesPart(2, m.nonces) + rest), EmptyRequest)
         == StoreAll(SetRequest, rest, EmptyRequest.(uuid := m.uuid, nonces := m.nonces))
  {
    var b1 := EmptyRequest.(uuid := m.uuid);
    ThenBytes(SetRequest, 1, m.uuid, NoncesPart(2, m.nonces) + rest, EmptyRequest, b1);
    ThenNonces(SetRequest, 2, AddNonce, m.nonces, rest, b1);
    AddedNonces(b1, m.nonces);
    assert [] + m.nonces == m.nonces;
  }

  lemma {:induction false} RequestStores(m: SetNoncesAndSignRequest)
    requires |Encode(NoncesPart(2, m.nonces))| < TWO63 && |Encode(HRSTPart(3, m.hrst))| < TWO63
    requires |Encode(NoncesPart(6, m.voteExtNonces))| < TWO63
    ensures StoreAll(SetRequest, RequestFields(m), EmptyRequest) == Ok(m)
  {
    var b2 := EmptyRequest.(uuid := m.uuid, nonces := m.nonces);
    var b3 := b2.(hrst := m.hrst);
    var b4 := b3.(signBytes := m.signBytes);
    var f4 := BytesPart(4, m.signBytes) + RequestTail(m);
    HeadStores(m, HRSTPart(3, m.hrst) + f4);
    ThenHRST(m.hrst, f4, b2);
    ThenBytes(SetRequest, 4, m.signBytes, RequestTail(m), b3, b4);
    TailStores(m, b4);
  }

  lemma {:induction false} PartsFit(a: seq<Field>, b: seq<Field>)
    ensures |Encode(a)| <= |Encode(a + b)| && |Encode(b)| <= |Encode(a + b)|
  {
    EncodeAppend(a, b);
  }

  /** A signing request survives the wire with all its nonces, in order. */
  lemma {:induction false} RequestRoundTrip(m: SetNoncesAndSignRequest)
    requires |Encode(RequestFields(m))| < TWO63
    ensures Parse(RequestSchema, SetRequest, Encode(RequestFields(m)), 0, EmptyRequest) == Ok(m)
  {
    NoncesKnown(RequestSchema, 2, m.nonces);
    NoncesKnown(RequestSchema, 6, m.voteExtNonces);
    RequestKnown(m);
    ParseEncoded(RequestSchema, SetRequest, RequestFields(m), EmptyRequest);
    var f7 := BytesPart(7, m.voteExtSignBytes) + BytesPart(8, m.chainID);
    var f6 := NoncesPart(6, m.voteExtNonces) + f7;
    var f4 := BytesPart(4, m.signBytes) + RequestTail(m);
    var f3 := HRSTPart(3, m.hrst) + f4;
    var f2 := NoncesPart(2, m.nonces) + f3;
    PartsFit(BytesPart(1, m.uuid), f2);
    PartsFit(NoncesPart(2, m.nonces), f3);
    PartsFit(HRSTPart(3, m.hrst), f4);
    PartsFit(BytesPart(4, m.signBytes), RequestTail(m));
    PartsFit(BytesPart(5, m.voteExtUuid), f6);
    PartsFit(NoncesPart(6, m.voteExtNonces), f7);
    RequestStores(m);
  }

  lemma {:induction false} RequestKnown(m: SetNoncesAndSignRequest)
    requires AllKnown(RequestSchema, NoncesPart(2, m.nonces)) && AllKnown(RequestSchema, NoncesPart(6, m.voteExtNonces))
    ensures AllKnown(RequestSchema, RequestFields(m))
  {
    var f7 := BytesPart(7, m.voteExtSignBytes) + BytesPart(8, m.chainID);
    KnownAppend(RequestSchema, NoncesPart(6, m.voteExtNonces), f7);
    KnownAppend(RequestSchema, BytesPart(5, m.voteExtUuid), NoncesPart(6, m.voteExtNonces) + f7);
    KnownAppend(RequestSchema, BytesPart(4, m.signBytes), RequestTail(m));
    KnownAppend(RequestSchema, HRSTPart(3, m.hrst), BytesPart(4, m.signBytes) + RequestTail(m));
    var f3 := HRSTPart(3, m.hrst) + (BytesPart(4, m.signBytes) + RequestTail(m));
    KnownAppend(RequestSchema, NoncesPart(2, m.nonces), f3);
    KnownAppend(RequestSchema, BytesPart(1, m.uuid), NoncesPart(2, m.nonces) + f3);
  }
}
