/**
 The Protocol Buffers encoding the cosigners speak (signer/proto/cosigner.pb.go): base-128
 varints, length-delimited records, a marshaller that fills a buffer from the back, and a
 tag-dispatch parser. The generated code repeats one scheme for every message; here it is
 written once, over the fields of a message and the switch that stores a field.
 */
module Wire {
  import opened Wrappers
  import opened GoInt
  import opened Bytes
  import opened Modular

  datatype Error =
    | IntOverflow | UnexpectedEOF | InvalidLength | EndGroup | IllegalTag | WrongWireType | UnexpectedEndOfGroup | IllegalWireType

  // ---------------------------------------------------------------- varints

  function Varint(v: nat): (b: seq<Byte>)
    ensures |b| >= 1
  {
    if v < 128 then [v] else [v % 128 + 128] + Varint(v / 128)
  }

  /** Bits needed to write x. */
  function Len64(x: nat): nat {
    if x == 0 then 0 else 1 + Len64(x / 2)
  }

  /** x | 1 */
  function OrOne(x: nat): nat {
    if x % 2 == 0 then x + 1 else x
  }

  /** sovCosigner: the size of a varint from the bit length. */
  function Sov(x: nat): nat {
    (Len64(OrOne(x)) + 6) / 7
  }

  lemma {:induction false} LenOrOne(x: nat)
    requires x >= 1
    ensures Len64(OrOne(x)) == Len64(x)
  {
    assert OrOne(x) / 2 == x / 2;
  }

  lemma {:induction false} LenByThree(x: nat)
    requires x >= 8
    ensures Len64(x) == 3 + Len64(x / 8)
  {
    assert x / 2 / 2 / 2 == x / 8;
    assert Len64(x / 2) == 1 + Len64(x / 2 / 2);
  }

  lemma {:induction false} LenBySeven(x: nat)
    requires x >= 128
    ensures Len64(x) == 7 + Len64(x / 128)
  {
    var y := x / 8;
    LenByThree(x);
    LenByThree(y);
    assert y / 8 / 2 == x / 128;
  }

  lemma {:induction false} LenBelow(x: nat, n: nat)
    requires x < Pow2(n)
    ensures Len64(x) <= n
  {
    if x > 0 {
      LenBelow(x / 2, n - 1);
    }
  }

  function Pow2(n: nat): nat {
    if n == 0 then 1 else 2 * Pow2(n - 1)
  }

  lemma {:induction false} LenSmall(x: nat)
    requires 1 <= x < 128
    ensures 1 <= Len64(x) <= 7
  {
    assert Pow2(7) == 128;
    LenBelow(x, 7);
  }

  /** The size computed from the bit length is the number of bytes written. */
  lemma {:induction false} SovIsLength(v: nat)
    ensures Sov(v) == |Varint(v)|
  {
    if v < 128 {
      LenSmall(OrOne(v));
    } else {
      SovIsLength(v / 128);
      LenBySeven(OrOne(v));
      assert OrOne(v) / 128 == v / 128;
      LenOrOne(v / 128);
    }
  }

  method SovCosigner(x: nat) returns (n: nat)
    ensures n == |Varint(x)|
  {
    SovIsLength(x);
    n := Sov(x);
  }

  lemma {:induction false} VarintTail(code: seq<Byte>, k: nat, rest: nat)
    requires k <= |code| && Varint(rest) == code[k..]
    ensures k < |code| && (rest < 128 ==> code[k] == rest && k + 1 == |code|)
    ensures rest >= 128 ==> code[k] == rest % 128 + 128 && k + 1 < |code| && Varint(rest / 128) == code[k + 1..]
  {
    assert code[k] == code[k..][0] && code[k + 1..] == code[k..][1..];
  }

  /** Writes the varint so that it ends at offset, and returns where it begins. */
  method EncodeVarint(a: array<Byte>, offset: nat, v: nat) returns (base: nat)
    requires |Varint(v)| <= offset <= a.Length
    modifies a
    ensures base == offset - |Varint(v)|
    ensures a[base..offset] == Varint(v)
    ensures a[..base] == old(a[..base]) && a[offset..] == old(a[offset..])
  {
    var size := SovCosigner(v);
    base := offset - size;
    var o, rest := base, v;
    ghost var code := Varint(v);
    while rest >= 128
      invariant base <= o < offset && Varint(rest) == code[o - base..]
      invariant a[base..o] == code[..o - base]
      invariant a[..base] == old(a[..base]) && a[offset..] == old(a[offset..])
    {
      VarintTail(code, o - base, rest);
      var low := rest % 128 + 128;
      a[o] := low;
      assert a[base..o + 1] == a[base..o] + [low] == code[..o + 1 - base];
      rest := rest / 128;
      o := o + 1;
    }
    VarintTail(code, o - base, rest);
    a[o] := rest;
    assert a[base..o + 1] == a[base..o] + [rest] == code;
  }

  /** The groups from i on, the k-th first: ten groups at most. */
  function ReadVarint(data: seq<Byte>, i: nat, k: nat): (r: Result<(nat, nat), Error>)
    ensures r.Ok? ==> i < r.value.1 <= |data|
    decreases |data| - i
  {
    if k >= 10 then Err(IntOverflow)
    else if i >= |data| then Err(UnexpectedEOF)
    else if data[i] < 128 then Ok((data[i], i + 1))
    else
      match ReadVarint(data, i + 1, k + 1)
      case Err(e) => Err(e)
      case Ok((v, next)) => Ok((data[i] - 128 + 128 * v, next))
  }

  function Weight(g: nat, scale: nat): nat {
    g * scale
  }

  /** A reading that continues one whose lower groups amount to sum, scale being the next group's weight. */
  ghost function Continued(r: Result<(nat, nat), Error>, sum: nat, scale: nat): Result<(nat, nat), Error> {
    match r
    case Err(e) => Err(e)
    case Ok((v, next)) => Ok((sum + Weight(v, scale), next))
  }

  lemma {:induction false} Regroup(scale: nat, g: nat, v: nat)
    ensures Weight(g + 128 * v, scale) == Weight(g, scale) + Weight(v, scale * 128)
  {
    assert (g + 128 * v) * scale == g * scale + (128 * v) * scale;
    assert (128 * v) * scale == v * (scale * 128);
  }

  lemma {:induction false} Accumulate(v: nat, sum: nat, x: nat)
    requires v == sum % TWO64
    ensures (v + x) % TWO64 == (sum + x) % TWO64
  {
    ModTwice(sum, TWO64);
    AddCongruent(v, sum, x, x, TWO64);
  }

  /** One more group: the last one ends the number, any other leaves the rest to be read at a higher weight. */
  lemma {:induction false} OneGroup(data: seq<Byte>, index: nat, k: nat, v: nat, sum: nat, scale: nat)
    requires index < |data| && k < 10 && v == sum % TWO64
    ensures var b: int := data[index];
      var sum' := sum + Weight(b % 128, scale);
      && (v + Weight(b % 128, scale)) % TWO64 == sum' % TWO64
      && Continued(ReadVarint(data, index, k), sum, scale)
         == if b < 128 then Ok((sum', index + 1)) else Continued(ReadVarint(data, index + 1, k + 1), sum', scale * 128)
  {
    var b: int := data[index];
    Accumulate(v, sum, Weight(b % 128, scale));
    if b >= 128 {
      var rest := ReadVarint(data, index + 1, k + 1);
      if rest.Ok? {
        Regroup(scale, b - 128, rest.value.0);
      }
    }
  }

  /**
   The same with an accumulator and a growing shift. The groups do not overlap, so or-ing one
   in adds it; bits beyond the 64th are lost.
   */
  method DecodeVarint(data: seq<Byte>, from: nat) returns (r: Result<(nat, nat), Error>)
    requires from <= |data|
    ensures r == match ReadVarint(data, from, 0)
                 case Err(e) => Err(e)
                 case Ok((v, next)) => Ok((v % TWO64, next))
  {
    var index := from;
    var v: nat := 0;
    var scale: nat := 1;
    ghost var sum: nat := 0;
    var k := 0;
    while true
      invariant from <= index <= |data| && k <= 10
      invariant v == sum % TWO64
      invariant ReadVarint(data, from, 0) == Continued(ReadVarint(data, index, k), sum, scale)
      decreases |data| - index
    {
      if k >= 10 {
        return Err(IntOverflow);
      }
      if index >= |data| {
        return Err(UnexpectedEOF);
      }
      var b: int := data[index];
      OneGroup(data, index, k, v, sum, scale);
      v := (v + Weight(b % 128, scale)) % TWO64;
      sum := sum + Weight(b % 128, scale);
      index := index + 1;
      if b < 128 {
        return Ok((v, index));
      }
      scale := scale * 128;
      k := k + 1;
    }
  }

  /** Reading back what was written, wherever it stands. */
  lemma {:induction false} ReadBack(data: seq<Byte>, i: nat, v: nat, k: nat)
    requires i + |Varint(v)| <= |data| && data[i..i + |Varint(v)|] == Varint(v)
    requires k + |Varint(v)| <= 10
    ensures ReadVarint(data, i, k) == Ok((v, i + |Varint(v)|))
    decreases v
  {
    var n := |Varint(v)|;
    assert data[i] == data[i..i + n][0];
    if v >= 128 {
      assert data[i + 1..i + n] == data[i..i + n][1..] == Varint(v / 128);
      ReadBack(data, i + 1, v / 128, k + 1);
    }
  }

  /** 64-bit values take at most ten bytes. */
  lemma {:induction false} VarintSize(v: nat, n: nat, bound: nat)
    requires n >= 1 && v < bound && bound <= Groups(n)
    ensures |Varint(v)| <= n
  {
    if v >= 128 {
      VarintSize(v / 128, n - 1, Groups(n - 1));
    }
  }

  function Groups(n: nat): nat {
    if n == 0 then 1 else 128 * Groups(n - 1)
  }

  lemma {:induction false} TenBytes(v: nat)
    requires v < TWO64
    ensures |Varint(v)| <= 10
  {
    assert Groups(5) == 0x8_0000_0000;
    assert Groups(10) == 0x40_0000_0000_0000_0000;
    VarintSize(v, 10, TWO64);
  }

  // ---------------------------------------------------------------- writing messages

  /** A field that is present: fields with their default value are left out of a message. */
  datatype Field =
    | IntField(num: nat, value: nat)
    | BytesField(num: nat, bytes: seq<Byte>)
    | MessageField(num: nat, fields: seq<Field>)

  /** Field number and wire type in one byte, for the field numbers below 16 these messages use. */
  function Tag(num: nat, wireType: nat): Byte {
    (8 * num + wireType) % 128
  }

  function EncodeField(f: Field): (b: seq<Byte>)
    decreases f
  {
    match f
    case IntField(num, value) => [Tag(num, 0)] + Varint(value)
    case BytesField(num, bytes) => [Tag(num, 2)] + Varint(|bytes|) + bytes
    case MessageField(num, fields) => var e := Encode(fields); [Tag(num, 2)] + Varint(|e|) + e
  }

  function Encode(fs: seq<Field>): (b: seq<Byte>)
    decreases fs
  {
    if fs == [] then [] else EncodeField(fs[0]) + Encode(fs[1..])
  }

  /** Size, as the generated code sums it up. */
  function Size(fs: seq<Field>): nat
    decreases fs
  {
    if fs == [] then 0 else SizeField(fs[0]) + Size(fs[1..])
  }

  function SizeField(f: Field): nat
    decreases f
  {
    match f
    case IntField(_, value) => 1 + Sov(value)
    case BytesField(_, bytes) => 1 + |bytes| + Sov(|bytes|)
    case MessageField(_, fields) => var l := Size(fields); 1 + l + Sov(l)
  }

  /** The size computed beforehand is exactly what the encoding takes. */
  lemma {:induction false} SizeIsLength(fs: seq<Field>)
    ensures Size(fs) == |Encode(fs)|
    decreases fs
  {
    if fs != [] {
      SizeFieldIsLength(fs[0]);
      SizeIsLength(fs[1..]);
    }
  }

  lemma {:induction false} SizeFieldIsLength(f: Field)
    ensures SizeField(f) == |EncodeField(f)|
    decreases f
  {
    match f
    case IntField(_, value) => SovIsLength(value);
    case BytesField(_, bytes) => SovIsLength(|bytes|);
    case MessageField(_, fields) =>
      SizeIsLength(fields);
      SovIsLength(Size(fields));
  }

  lemma {:induction false} EncodeFrom(fs: seq<Field>, k: nat)
    requires k < |fs|
    ensures Encode(fs[k..]) == EncodeField(fs[k]) + Encode(fs[k + 1..])
  {
    assert fs[k..][1..] == fs[k + 1..];
  }

  /** Copies bytes so that they end at offset. */
  method PutBytes(a: array<Byte>, offset: nat, bytes: seq<Byte>) returns (i: nat)
    requires |bytes| <= offset <= a.Length
    modifies a
    ensures i == offset - |bytes| && a[i..offset] == bytes
    ensures a[..i] == old(a[..i]) && a[offset..] == old(a[offset..])
  {
    i := offset - |bytes|;
    for m := 0 to |bytes|
      invariant a[i..i + m] == bytes[..m]
      invariant a[..i] == old(a[..i]) && a[offset..] == old(a[offset..])
    {
      a[i + m] := bytes[m];
      assert a[i..i + m + 1] == a[i..i + m] + [bytes[m]];
    }
  }

  /** The tag and the length in front of what stands at i..j. */
  method PutHeader(a: array<Byte>, i: nat, j: nat, num: nat, ghost body: seq<Byte>) returns (h: nat)
    requires i <= j <= a.Length && 1 + |Varint(j - i)| <= i && a[i..j] == body
    modifies a
    ensures h == i - 1 - |Varint(j - i)|
    ensures a[h..j] == [Tag(num, 2)] + Varint(j - i) + body
    ensures a[..h] == old(a[..h]) && a[j..] == old(a[j..])
  {
    h := EncodeVarint(a, i, j - i);
    assert a[i..] == old(a[i..]);
    assert a[i..j] == a[i..][..j - i] == old(a[i..])[..j - i] == body;
    assert a[j..] == a[i..][j - i..] == old(a[i..])[j - i..] == old(a[j..]);
    h := h - 1;
    a[h] := Tag(num, 2);
    assert a[h..j] == [a[h]] + a[h + 1..i] + a[i..j];
  }

  /** One field, ending at offset; a nested message is marshalled in place in front of the offset. */
  method PutField(a: array<Byte>, offset: nat, f: Field) returns (i: nat)
    requires |EncodeField(f)| <= offset <= a.Length
    modifies a
    ensures i == offset - |EncodeField(f)| && a[i..offset] == EncodeField(f)
    ensures a[..i] == old(a[..i]) && a[offset..] == old(a[offset..])
    decreases f, 0
  {
    match f
    case IntField(num, value) =>
      i := EncodeVarint(a, offset, value);
      i := i - 1;
      a[i] := Tag(num, 0);
      assert a[i..offset] == [a[i]] + a[i + 1..offset];
    case BytesField(num, bytes) =>
      i := PutBytes(a, offset, bytes);
      i := PutHeader(a, i, offset, num, bytes);
    case MessageField(num, fields) =>
      var size := MarshalToSizedBuffer(a, offset, fields);
      i := PutHeader(a, offset - size, offset, num, Encode(fields));
  }

  /** Fills the end of a[..n] from the back: the last field first. */
  method MarshalToSizedBuffer(a: array<Byte>, n: nat, fs: seq<Field>) returns (size: nat)
    requires |Encode(fs)| <= n <= a.Length
    modifies a
    ensures size == |Encode(fs)| && a[n - size..n] == Encode(fs)
    ensures a[..n - size] == old(a[..n - size]) && a[n..] == old(a[n..])
    decreases fs, 1
  {
    var i := n;
    assert fs[|fs|..] == [];
    for k := |fs| downto 0
      invariant i == n - |Encode(fs[k..])| && |Encode(fs)| >= |Encode(fs[k..])|
      invariant a[i..n] == Encode(fs[k..])
      invariant a[..i] == old(a[..i]) && a[n..] == old(a[n..])
    {
      EncodeFrom(fs, k);
      EncodeShrinks(fs, k);
      ghost var was := a[..];
      var h := PutField(a, i, fs[k]);
      KeepTail(was, a[..], i, n);
      assert a[h..n] == a[h..i] + a[i..n];
      i := h;
    }
    assert fs[0..] == fs;
    size := n - i;
  }

  lemma {:induction false} EncodeShrinks(fs: seq<Field>, k: nat)
    requires k <= |fs|
    ensures |Encode(fs)| >= |Encode(fs[k..])|
  {
    if k == 0 {
      assert fs[0..] == fs;
    } else {
      assert fs[1..][k - 1..] == fs[k..];
      EncodeShrinks(fs[1..], k - 1);
    }
  }

  lemma {:induction false} KeepTail(was: seq<Byte>, now: seq<Byte>, i: nat, n: nat)
    requires i <= n <= |was| == |now| && was[i..] == now[i..]
    ensures was[i..n] == now[i..n] && was[n..] == now[n..]
  {
    assert was[i..n] == was[i..][..n - i] && was[n..] == was[i..][n - i..];
    assert now[i..n] == now[i..][..n - i] && now[n..] == now[i..][n - i..];
  }

  /** Marshal: a buffer of exactly the computed size, filled to the first byte. */
  method Marshal(fs: seq<Field>) returns (data: seq<Byte>)
    ensures data == Encode(fs) && |data| == Size(fs)
  {
    SizeIsLength(fs);
    var size := Size(fs);
    var a := new Byte[size](_ => 0);
    var n := MarshalToSizedBuffer(a, size, fs);
    data := a[..];
    assert a[..] == a[size - n..size];
  }
}
