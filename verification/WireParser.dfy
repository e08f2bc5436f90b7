/** Reading messages: tag dispatch, field by field, with unknown fields skipped (signer/proto/cosigner.pb.go). */
module WireParser {
  import opened Wrappers
  import opened GoInt
  import opened Bytes
  import opened Residues
  import opened Modular
  import opened Wire

  const TWO31: int := 0x8000_0000
  const TWO32: int := 0x1_0000_0000

  /** The low 32 bits of a 64-bit pattern, as an int32. */
  function Int32(v: nat): int {
    (v + TWO31) % TWO32 - TWO31
  }

  /** The 64-bit pattern of a signed integer, as uint64(x) makes it. */
  function U64(x: int): (v: nat)
    ensures v < TWO64
  {
    x % TWO64
  }

  lemma {:induction false} Int64Back(x: Int64)
    ensures Wrap(U64(x)) == x
  {
    WrapCongruent(x, U64(x), x / TWO64);
    WrapSmall(x);
  }

  lemma {:induction false} Int32Back(x: int)
    requires -TWO31 <= x < TWO31
    ensures Int32(U64(x)) == x
  {
    if x < 0 {
      ShiftByMultiple(x, x + TWO64, -1, TWO64);
      SmallResidue(x + TWO64, TWO64);
      ShiftByMultiple(x + TWO64 + TWO31, x + TWO31, TWO32, TWO32);
    } else {
      SmallResidue(x, TWO64);
    }
    SmallResidue(x + TWO31, TWO32);
  }

  // ---------------------------------------------------------------- skipping

  /** The end of the field that starts at i, inside depth open groups. */
  function SkipAt(data: seq<Byte>, i: nat, depth: nat): (r: Result<nat, Error>)
    ensures r.Ok? ==> i < r.value
    decreases if i < |data| then |data| - i else 0
  {
    if i >= |data| then Err(UnexpectedEOF)
    else
      match SkipOne(data, i, depth)
      case Err(e) => Err(e)
      case Ok((next, d)) =>
        if next >= TWO63 then Err(InvalidLength)
        else if d == 0 then Ok(next)
        else SkipAt(data, next, d)
  }

  /** One tag and what it announces: where that ends, and how many groups are open then. */
  function SkipOne(data: seq<Byte>, i: nat, depth: nat): (r: Result<(nat, nat), Error>)
    ensures r.Ok? ==> i < r.value.0
  {
    match ReadVarint(data, i, 0)
    case Err(e) => Err(e)
    case Ok((wire, at)) =>
      var wireType := (wire % TWO64) % 8;
      if wireType == 0 then
        match ReadVarint(data, at, 0)
        case Err(e) => Err(e)
        case Ok((_, next)) => Ok((next, depth))
      else if wireType == 1 then Ok((at + 8, depth))
      else if wireType == 2 then
        match ReadVarint(data, at, 0)
        case Err(e) => Err(e)
        case Ok((v, next)) =>
          var length := Wrap(v % TWO64);
          if length < 0 then Err(InvalidLength) else Ok((next + length, depth))
      else if wireType == 3 then Ok((at, depth + 1))
      else if wireType == 4 then if depth == 0 then Err(UnexpectedEndOfGroup) else Ok((at, depth - 1))
      else if wireType == 5 then Ok((at + 4, depth))
      else Err(IllegalWireType)
  }

  method SkipCosigner(data: seq<Byte>) returns (r: Result<nat, Error>)
    ensures r == SkipAt(data, 0, 0)
  {
    var index, depth := 0, 0;
    while index < |data|
      invariant SkipAt(data, 0, 0) == SkipAt(data, index, depth)
      decreases |data| - index
    {
      ghost var start := index;
      var wire := DecodeVarint(data, index);
      if wire.Err? {
        return Err(wire.error);
      }
      index := wire.value.1;
      var wireType := wire.value.0 % 8;
      if wireType == 0 {
        var v := DecodeVarint(data, index);
        if v.Err? {
          return Err(v.error);
        }
        index := v.value.1;
      } else if wireType == 1 {
        index := index + 8;
      } else if wireType == 2 {
        var v := DecodeVarint(data, index);
        if v.Err? {
          return Err(v.error);
        }
        var length := Wrap(v.value.0);
        if length < 0 {
          return Err(InvalidLength);
        }
        index := v.value.1 + length;
      } else if wireType == 3 {
        depth := depth + 1;
      } else if wireType == 4 {
        if depth == 0 {
          return Err(UnexpectedEndOfGroup);
        }
        depth := depth - 1;
      } else if wireType == 5 {
        index := index + 4;
      } else {
        return Err(IllegalWireType);
      }
      if index >= TWO63 {
        return Err(InvalidLength);
      }
      if depth == 0 {
        return Ok(index);
      }
    }
    return Err(UnexpectedEOF);
  }

  // ---------------------------------------------------------------- one field

  datatype Kind = VarintKind | BytesKind

  /** Which fields a message has, and how each is written. */
  type Schema = int -> Option<Kind>

  datatype Token = Int(num: int, value: nat) | Chunk(num: int, bytes: seq<Byte>) | Unknown

  function Next(schema: Schema, data: seq<Byte>, i: nat): (r: Result<(Token, nat), Error>)
    requires i <= |data|
    ensures r.Ok? ==> i < r.value.1 <= |data|
  {
    match ReadVarint(data, i, 0)
    case Err(e) => Err(e)
    case Ok((w, at)) =>
      var wire := w % TWO64;
      var fieldNum, wireType := Int32(wire / 8), wire % 8;
      if wireType == 4 then Err(EndGroup)
      else if fieldNum <= 0 then Err(IllegalTag)
      else
        match schema(fieldNum)
        case Some(VarintKind) => if wireType != 0 then Err(WrongWireType) else NextInt(data, at, fieldNum)
        case Some(BytesKind) => if wireType != 2 then Err(WrongWireType) else NextChunk(data, at, fieldNum)
        case None => NextUnknown(data, i)
  }

  function NextInt(data: seq<Byte>, at: nat, num: int): (r: Result<(Token, nat), Error>)
    ensures r.Ok? ==> at < r.value.1 <= |data|
  {
    match ReadVarint(data, at, 0)
    case Err(e) => Err(e)
    case Ok((v, next)) => Ok((Int(num, v % TWO64), next))
  }

  function NextChunk(data: seq<Byte>, at: nat, num: int): (r: Result<(Token, nat), Error>)
    ensures r.Ok? ==> at < r.value.1 <= |data|
  {
    match ReadVarint(data, at, 0)
    case Err(e) => Err(e)
    case Ok((v, start)) =>
      var length := Wrap(v % TWO64);
      if length < 0 || start + length >= TWO63 then Err(InvalidLength)
      else if start + length > |data| then Err(UnexpectedEOF)
      else Ok((Chunk(num, data[start..start + length]), start + length))
  }

  function NextUnknown(data: seq<Byte>, i: nat): (r: Result<(Token, nat), Error>)
    requires i <= |data|
    ensures r.Ok? ==> i < r.value.1 <= |data|
  {
    match SkipAt(data[i..], 0, 0)
    case Err(e) => Err(e)
    case Ok(n) =>
      if i + n >= TWO63 then Err(InvalidLength)
      else if i + n > |data| then Err(UnexpectedEOF)
      else Ok((Unknown, i + n))
  }

  // ---------------------------------------------------------------- whole messages

  /** The message's field switch: stores a token, or reports what a nested message is wrong about. */
  type Switch<!M> = (M, Token) -> Result<M, Error>

  function Parse<M>(schema: Schema, set_: Switch<M>, data: seq<Byte>, i: nat, m: M): Result<M, Error>
    requires i <= |data|
    decreases |data| - i
  {
    if i == |data| then Ok(m)
    else
      match Next(schema, data, i)
      case Err(e) => Err(e)
      case Ok((Unknown, next)) => Parse(schema, set_, data, next, m)
      case Ok((token, next)) =>
        match set_(m, token)
        case Err(e) => Err(e)
        case Ok(m') => Parse(schema, set_, data, next, m')
  }

  /** The part of the loop that reads one field: its tag, its value, or all of it if it is unknown. */
  method ReadField(schema: Schema, data: seq<Byte>, preIndex: nat) returns (r: Result<(Token, nat), Error>)
    requires preIndex <= |data|
    ensures r == Next(schema, data, preIndex)
  {
    var wire := DecodeVarint(data, preIndex);
    if wire.Err? {
      return Err(wire.error);
    }
    var index := wire.value.1;
    var fieldNum, wireType := Int32(wire.value.0 / 8), wire.value.0 % 8;
    if wireType == 4 {
      return Err(EndGroup);
    }
    if fieldNum <= 0 {
      return Err(IllegalTag);
    }
    match schema(fieldNum)
    case Some(VarintKind) =>
      if wireType != 0 {
        return Err(WrongWireType);
      }
      var v := DecodeVarint(data, index);
      if v.Err? {
        return Err(v.error);
      }
      return Ok((Int(fieldNum, v.value.0), v.value.1));
    case Some(BytesKind) =>
      if wireType != 2 {
        return Err(WrongWireType);
      }
      r := ReadChunk(data, index, fieldNum);
    case None =>
      var skippy := SkipCosigner(data[preIndex..]);
      if skippy.Err? {
        return Err(skippy.error);
      }
      if preIndex + skippy.value >= TWO63 {
        return Err(InvalidLength);
      }
      if preIndex + skippy.value > |data| {
        return Err(UnexpectedEOF);
      }
      return Ok((Unknown, preIndex + skippy.value));
  }

  method ReadChunk(data: seq<Byte>, index: nat, num: int) returns (r: Result<(Token, nat), Error>)
    requires index <= |data|
    ensures r == NextChunk(data, index, num)
  {
    var v := DecodeVarint(data, index);
    if v.Err? {
      return Err(v.error);
    }
    var length := Wrap(v.value.0);
    if length < 0 {
      return Err(InvalidLength);
    }
    var postIndex := v.value.1 + length;
    if postIndex >= TWO63 {
      return Err(InvalidLength);
    }
    if postIndex > |data| {
      return Err(UnexpectedEOF);
    }
    return Ok((Chunk(num, data[v.value.1..postIndex]), postIndex));
  }

  /** The generated parsing loop: a field, the switch on its number, and on to the next. */
  method Unmarshal<M>(schema: Schema, set_: Switch<M>, data: seq<Byte>, empty: M) returns (r: Result<M, Error>)
    ensures r == Parse(schema, set_, data, 0, empty)
  {
    var index, m := 0, empty;
    while index < |data|
      invariant index <= |data|
      invariant Parse(schema, set_, data, 0, empty) == Parse(schema, set_, data, index, m)
      decreases |data| - index
    {
      var field := ReadField(schema, data, index);
      if field.Err? {
        return Err(field.error);
      }
      index := field.value.1;
      if field.value.0.Unknown? {
        continue;
      }
      var stored := set_(m, field.value.0);
      if stored.Err? {
        return Err(stored.error);
      }
      m := stored.value;
    }
    return Ok(m);
  }

  // ---------------------------------------------------------------- reading back

  /** What the parser makes of a field that was written. */
  function TokenOf(f: Field): Token {
    match f
    case IntField(num, value) => Int(num, value)
    case BytesField(num, bytes) => Chunk(num, bytes)
    case MessageField(num, fields) => Chunk(num, Encode(fields))
  }

  /** The field is one of the message's, written the way its schema says. */
  predicate Known(schema: Schema, f: Field) {
    && 1 <= f.num < 16
    && schema(f.num) == Some(if f.IntField? then VarintKind else BytesKind)
    && (f.IntField? ==> f.value < TWO64)
  }

  /** The field stands in the data at i. */
  ghost predicate Stands(data: seq<Byte>, i: nat, part: seq<Byte>) {
    i + |part| <= |data| && data[i..i + |part|] == part
  }

  lemma {:induction false} StandsSplit(data: seq<Byte>, i: nat, a: seq<Byte>, b: seq<Byte>)
    requires Stands(data, i, a + b)
    ensures Stands(data, i, a) && Stands(data, i + |a|, b)
  {
    var c := a + b;
    assert data[i..i + |a|] == data[i..i + |c|][..|a|] == a;
    assert data[i + |a|..i + |c|] == data[i..i + |c|][|a|..] == b;
  }

  lemma {:induction false} ReadBackAt(data: seq<Byte>, i: nat, v: nat)
    requires Stands(data, i, Varint(v)) && v < TWO64
    ensures ReadVarint(data, i, 0) == Ok((v, i + |Varint(v)|)) && v % TWO64 == v
  {
    TenBytes(v);
    ReadBack(data, i, v, 0);
    SmallResidue(v, TWO64);
  }

  lemma {:induction false} ReadTag(data: seq<Byte>, i: nat, num: nat, wireType: nat)
    requires 1 <= num < 16 && wireType in {0, 2} && Stands(data, i, [Tag(num, wireType)])
    ensures ReadVarint(data, i, 0) == Ok((8 * num + wireType, i + 1))
    ensures var wire := (8 * num + wireType) % TWO64; Int32(wire / 8) == num && wire % 8 == wireType
  {
    assert data[i] == data[i..i + 1][0];
    SmallResidue(8 * num + wireType, TWO64);
    SmallResidue(num + TWO31, TWO32);
  }

  lemma {:induction false} NextReadsInt(schema: Schema, data: seq<Byte>, i: nat, num: nat, value: nat)
    requires Known(schema, IntField(num, value)) && Stands(data, i, EncodeField(IntField(num, value)))
    ensures Next(schema, data, i) == Ok((Int(num, value), i + |EncodeField(IntField(num, value))|))
  {
    StandsSplit(data, i, [Tag(num, 0)], Varint(value));
    ReadTag(data, i, num, 0);
    ReadBackAt(data, i + 1, value);
  }

  lemma {:induction false} NextReadsChunk(schema: Schema, data: seq<Byte>, i: nat, num: nat, bytes: seq<Byte>)
    requires 1 <= num < 16 && schema(num) == Some(BytesKind) && |data| < TWO63
    requires Stands(data, i, [Tag(num, 2)] + Varint(|bytes|) + bytes)
    ensures Next(schema, data, i) == Ok((Chunk(num, bytes), i + |[Tag(num, 2)] + Varint(|bytes|) + bytes|))
  {
    StandsSplit(data, i, [Tag(num, 2)] + Varint(|bytes|), bytes);
    StandsSplit(data, i, [Tag(num, 2)], Varint(|bytes|));
    ReadTag(data, i, num, 2);
    ReadBackAt(data, i + 1, |bytes|);
    WrapSmall(|bytes|);
  }

  lemma {:induction false} NextReadsField(schema: Schema, data: seq<Byte>, i: nat, f: Field)
    requires Known(schema, f) && Stands(data, i, EncodeField(f)) && |data| < TWO63
    ensures Next(schema, data, i) == Ok((TokenOf(f), i + |EncodeField(f)|))
  {
    match f
    case IntField(num, value) => NextReadsInt(schema, data, i, num, value);
    case BytesField(num, bytes) => NextReadsChunk(schema, data, i, num, bytes);
    case MessageField(num, fields) => NextReadsChunk(schema, data, i, num, Encode(fields));
  }

  /** Storing the fields one after the other. */
  function StoreAll<M>(set_: Switch<M>, fs: seq<Field>, m: M): Result<M, Error> {
    if fs == [] then Ok(m)
    else
      match set_(m, TokenOf(fs[0]))
      case Err(e) => Err(e)
      case Ok(m') => StoreAll(set_, fs[1..], m')
  }

  /** A field of some later version: not one of this message's. */
  predicate Foreign(schema: Schema, f: Field) {
    1 <= f.num < 16 && schema(f.num).None? && (f.IntField? ==> f.value < TWO64)
  }

  /** A whole field is skipped, whatever it is. */
  lemma {:induction false} SkipsField(data: seq<Byte>, f: Field)
    requires Stands(data, 0, EncodeField(f)) && 1 <= f.num < 16 && |data| < TWO63
    requires f.IntField? ==> f.value < TWO64
    ensures SkipAt(data, 0, 0) == Ok(|EncodeField(f)|)
  {
    match f
    case IntField(num, value) =>
      StandsSplit(data, 0, [Tag(num, 0)], Varint(value));
      ReadTag(data, 0, num, 0);
      ReadBackAt(data, 1, value);
    case BytesField(num, bytes) => SkipsChunk(data, num, bytes);
    case MessageField(num, fields) => SkipsChunk(data, num, Encode(fields));
  }

  lemma {:induction false} SkipsChunk(data: seq<Byte>, num: nat, bytes: seq<Byte>)
    requires Stands(data, 0, [Tag(num, 2)] + Varint(|bytes|) + bytes) && 1 <= num < 16 && |data| < TWO63
    ensures SkipAt(data, 0, 0) == Ok(|[Tag(num, 2)] + Varint(|bytes|) + bytes|)
  {
    StandsSplit(data, 0, [Tag(num, 2)] + Varint(|bytes|), bytes);
    StandsSplit(data, 0, [Tag(num, 2)], Varint(|bytes|));
    ReadTag(data, 0, num, 2);
    ReadBackAt(data, 1, |bytes|);
    WrapSmall(|bytes|);
  }

  lemma {:induction false} TagOf(data: seq<Byte>, i: nat, f: Field)
    requires Stands(data, i, EncodeField(f)) && 1 <= f.num < 16
    ensures var wireType := if f.IntField? then 0 else 2;
      ReadVarint(data, i, 0) == Ok((8 * f.num + wireType, i + 1))
      && Int32(((8 * f.num + wireType) % TWO64) / 8) == f.num && ((8 * f.num + wireType) % TWO64) % 8 == wireType
  {
  }

  lemma {:induction false} NextSkipsForeign(schema: Schema, data: seq<Byte>, i: nat, f: Field)
    requires Foreign(schema, f) && Stands(data, i, EncodeField(f)) && |data| < TWO63
    ensures Next(schema, data, i) == Ok((Unknown, i + |EncodeField(f)|))
  {
    TagOf(data, i, f);
    var rest := data[i..];
    assert rest[0..|EncodeField(f)|] == data[i..i + |EncodeField(f)|];
    SkipsField(rest, f);
  }

  /** The fields that are the message's own, in order. */
  function Recognized(schema: Schema, fs: seq<Field>): seq<Field> {
    if fs == [] then []
    else if schema(fs[0].num).Some? then [fs[0]] + Recognized(schema, fs[1..])
    else Recognized(schema, fs[1..])
  }

  /** One step of the parser, given what stands next. */
  lemma {:induction false} ParseOne<M>(schema: Schema, set_: Switch<M>, data: seq<Byte>, i: nat, m: M, token: Token, next: nat)
    requires i < |data| && Next(schema, data, i) == Ok((token, next))
    ensures token.Unknown? ==> Parse(schema, set_, data, i, m) == Parse(schema, set_, data, next, m)
    ensures !token.Unknown? && set_(m, token).Ok? ==>
      Parse(schema, set_, data, i, m) == Parse(schema, set_, data, next, set_(m, token).value)
    ensures !token.Unknown? && set_(m, token).Err? ==> Parse(schema, set_, data, i, m) == Err(set_(m, token).error)
  {
  }

  lemma {:induction false} StoreOne<M>(set_: Switch<M>, f: Field, rest: seq<Field>, m: M)
    ensures set_(m, TokenOf(f)).Ok? ==>
      StoreAll(set_, [f] + rest, m) == StoreAll(set_, rest, set_(m, TokenOf(f)).value)
    ensures set_(m, TokenOf(f)).Err? ==> StoreAll(set_, [f] + rest, m) == Err(set_(m, TokenOf(f)).error)
  {
  }

  /** Parsing what was written stores every field of the message once, in order, and ignores the others. */
  lemma {:induction false} ParseStores<M>(schema: Schema, set_: Switch<M>, data: seq<Byte>, i: nat, fs: seq<Field>, m: M)
    requires |data| < TWO63 && i <= |data| && data[i..] == Encode(fs)
    requires forall k :: 0 <= k < |fs| ==> Known(schema, fs[k]) || Foreign(schema, fs[k])
    ensures Parse(schema, set_, data, i, m) == StoreAll(set_, Recognized(schema, fs), m)
    decreases fs
  {
    if fs != [] {
      var f, n := fs[0], |EncodeField(fs[0])|;
      FirstField(data, i, fs);
      if Foreign(schema, f) {
        NextSkipsForeign(schema, data, i, f);
        ParseOne(schema, set_, data, i, m, Unknown, i + n);
        ParseStores(schema, set_, data, i + n, fs[1..], m);
      } else {
        NextReadsField(schema, data, i, f);
        ParseOne(schema, set_, data, i, m, TokenOf(f), i + n);
        StoreOne(set_, f, Recognized(schema, fs[1..]), m);
        if set_(m, TokenOf(f)).Ok? {
          ParseStores(schema, set_, data, i + n, fs[1..], set_(m, TokenOf(f)).value);
        }
      }
    }
  }

  lemma {:induction false} FirstField(data: seq<Byte>, i: nat, fs: seq<Field>)
    requires i <= |data| && data[i..] == Encode(fs) && fs != []
    ensures Stands(data, i, EncodeField(fs[0])) && i < i + |EncodeField(fs[0])| <= |data|
    ensures data[i + |EncodeField(fs[0])|..] == Encode(fs[1..])
  {
  }

  lemma {:induction false} AllRecognized(schema: Schema, fs: seq<Field>)
    requires forall k :: 0 <= k < |fs| ==> Known(schema, fs[k])
    ensures Recognized(schema, fs) == fs
  {
    if fs != [] {
      AllRecognized(schema, fs[1..]);
    }
  }

  /** The parser on a whole encoded message. */
  lemma {:induction false} ParseEncoded<M>(schema: Schema, set_: Switch<M>, fs: seq<Field>, empty: M)
    requires |Encode(fs)| < TWO63 && forall k :: 0 <= k < |fs| ==> Known(schema, fs[k])
    ensures Parse(schema, set_, Encode(fs), 0, empty) == StoreAll(set_, fs, empty)
  {
    assert Encode(fs)[0..] == Encode(fs);
    ParseStores(schema, set_, Encode(fs), 0, fs, empty);
    AllRecognized(schema, fs);
  }
}
