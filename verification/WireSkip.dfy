/**
 Fields a parser does not know (signer/proto/cosigner.pb.go skipCosigner): whatever was written, in
 any of the wire types and with groups nested to any depth, is passed over exactly.
 */
module WireSkip {
  import opened Wrappers
  import opened GoInt
  import opened Bytes
  import opened Residues
  import opened Modular
  import opened Wire
  import opened WireParser

  /** A field of any wire type; the tag number is that of the field. */
  datatype Item =
    | Number(num: nat, value: nat)
    | Eight(num: nat, fixed: seq<Byte>)
    | Counted(num: nat, bytes: seq<Byte>)
    | Group(num: nat, items: seq<Item>)
    | Four(num: nat, fixed: seq<Byte>)

  /** Tag numbers and values fit their widths. */
  ghost predicate WellFormed(f: Item)
    decreases f
  {
    f.num < 0x2000_0000 &&
    match f
    case Number(_, v) => v < TWO64
    case Eight(_, b) => |b| == 8
    case Counted(_, b) => |b| < TWO63
    case Group(_, items) => forall k :: 0 <= k < |items| ==> WellFormed(items[k])
    case Four(_, b) => |b| == 4
  }

  function TagBytes(num: nat, wireType: nat): seq<Byte> {
    Varint(8 * num + wireType)
  }

  function ItemBytes(f: Item): (b: seq<Byte>)
    ensures |b| >= 1
    decreases f
  {
    match f
    case Number(num, v) => TagBytes(num, 0) + Varint(v)
    case Eight(num, b) => TagBytes(num, 1) + b
    case Counted(num, b) => TagBytes(num, 2) + (Varint(|b|) + b)
    case Group(num, items) => TagBytes(num, 3) + (AllBytes(items) + TagBytes(num, 4))
    case Four(num, b) => TagBytes(num, 5) + b
  }

  function AllBytes(items: seq<Item>): seq<Byte>
    decreases items
  {
    if items == [] then [] else ItemBytes(items[0]) + AllBytes(items[1..])
  }

  /** The bytes stand in the data from i on. */
  ghost predicate StandsAt(data: seq<Byte>, i: nat, b: seq<Byte>) {
    i + |b| <= |data| && data[i..i + |b|] == b
  }

  lemma {:induction false} SplitAt(data: seq<Byte>, i: nat, a: seq<Byte>, b: seq<Byte>)
    requires StandsAt(data, i, a + b)
    ensures StandsAt(data, i, a) && StandsAt(data, i + |a|, b)
  {
    assert data[i..i + |a|] == data[i..i + |a + b|][..|a|];
    assert data[i + |a|..i + |a| + |b|] == data[i..i + |a + b|][|a|..];
  }

  lemma {:induction false} ReadAt(data: seq<Byte>, i: nat, v: nat)
    requires v < TWO64 && StandsAt(data, i, Varint(v))
    ensures ReadVarint(data, i, 0) == Ok((v, i + |Varint(v)|))
  {
    TenBytes(v);
    ReadBack(data, i, v, 0);
  }

  /** The tag is read back, and its low three bits are the wire type. */
  lemma {:induction false} TagAt(data: seq<Byte>, i: nat, num: nat, wireType: nat)
    requires num < 0x2000_0000 && wireType < 8 && StandsAt(data, i, TagBytes(num, wireType))
    ensures ReadVarint(data, i, 0) == Ok((8 * num + wireType, i + |TagBytes(num, wireType)|))
    ensures ((8 * num + wireType) % TWO64) % 8 == wireType
  {
    ReadAt(data, i, 8 * num + wireType);
    SmallResidue(8 * num + wireType, TWO64);
  }

  lemma {:induction false} SkipNumber(data: seq<Byte>, i: nat, depth: nat, num: nat, v: nat)
    requires num < 0x2000_0000 && v < TWO64 && StandsAt(data, i, TagBytes(num, 0) + Varint(v))
    ensures SkipOne(data, i, depth) == Ok((i + |TagBytes(num, 0) + Varint(v)|, depth))
  {
    SplitAt(data, i, TagBytes(num, 0), Varint(v));
    TagAt(data, i, num, 0);
    ReadAt(data, i + |TagBytes(num, 0)|, v);
  }

  lemma {:induction false} SkipFixed(data: seq<Byte>, i: nat, depth: nat, num: nat, wireType: nat, b: seq<Byte>)
    requires num < 0x2000_0000 && ((wireType == 1 && |b| == 8) || (wireType == 5 && |b| == 4))
    requires StandsAt(data, i, TagBytes(num, wireType) + b)
    ensures SkipOne(data, i, depth) == Ok((i + |TagBytes(num, wireType) + b|, depth))
  {
    SplitAt(data, i, TagBytes(num, wireType), b);
    TagAt(data, i, num, wireType);
  }

  lemma {:induction false} LengthBack(n: nat)
    requires n < TWO63
    ensures Wrap(n % TWO64) == n
  {
    SmallResidue(n, TWO64);
    WrapSmall(n);
  }

  lemma {:induction false} CountedStep(data: seq<Byte>, i: nat, depth: nat, wire: nat, at: nat, n: nat, next: nat)
    requires n < TWO63 && (wire % TWO64) % 8 == 2
    requires ReadVarint(data, i, 0) == Ok((wire, at)) && ReadVarint(data, at, 0) == Ok((n, next))
    ensures SkipOne(data, i, depth) == Ok((next + n, depth))
  {
    LengthBack(n);
  }

  lemma {:induction false} SkipCounted(data: seq<Byte>, i: nat, depth: nat, num: nat, b: seq<Byte>)
    requires num < 0x2000_0000 && |b| < TWO63 && StandsAt(data, i, TagBytes(num, 2) + (Varint(|b|) + b))
    ensures SkipOne(data, i, depth) == Ok((i + |TagBytes(num, 2) + (Varint(|b|) + b)|, depth))
  {
    SplitAt(data, i, TagBytes(num, 2), Varint(|b|) + b);
    TagAt(data, i, num, 2);
    var at := i + |TagBytes(num, 2)|;
    SplitAt(data, at, Varint(|b|), b);
    ReadAt(data, at, |b|);
    CountedStep(data, i, depth, 8 * num + 2, at, |b|, at + |Varint(|b|)|);
  }

  /** One field that is not a group. */
  lemma {:induction false} SkipOneFlat(data: seq<Byte>, i: nat, depth: nat, f: Item)
    requires WellFormed(f) && !f.Group? && StandsAt(data, i, ItemBytes(f))
    ensures SkipOne(data, i, depth) == Ok((i + |ItemBytes(f)|, depth))
  {
    match f
    case Number(num, v) => SkipNumber(data, i, depth, num, v);
    case Eight(num, b) => SkipFixed(data, i, depth, num, 1, b);
    case Counted(num, b) => SkipCounted(data, i, depth, num, b);
    case Four(num, b) => SkipFixed(data, i, depth, num, 5, b);
  }

  /** One tag at i and what it announces end at next, with this many groups open then. */
  ghost predicate Stepped(data: seq<Byte>, i: nat, depth: nat, next: nat, open: nat) {
    i < |data| && next < TWO63 && SkipOne(data, i, depth) == Ok((next, open))
  }

  /** What skipping from a place comes to, inside so many groups. */
  type Skip = (nat, nat) -> Result<nat, Error>

  /** What is left once everything up to next is behind. */
  function Rest(skip: Skip, next: nat, depth: nat): Result<nat, Error> {
    if depth == 0 then Ok(next) else skip(next, depth)
  }

  /** It goes on from tag to tag, as skipCosigner does. */
  ghost predicate TagByTag(data: seq<Byte>, skip: Skip) {
    forall i, depth, next, open :: Stepped(data, i, depth, next, open) ==> skip(i, depth) == Rest(skip, next, open)
  }

  lemma {:induction false} OpenGroup(data: seq<Byte>, skip: Skip, i: nat, depth: nat, num: nat)
    requires TagByTag(data, skip) && num < 0x2000_0000 && |data| < TWO63 && StandsAt(data, i, TagBytes(num, 3))
    ensures skip(i, depth) == skip(i + |TagBytes(num, 3)|, depth + 1)
  {
    TagAt(data, i, num, 3);
    assert Stepped(data, i, depth, i + |TagBytes(num, 3)|, depth + 1);
  }

  lemma {:induction false} CloseGroup(data: seq<Byte>, skip: Skip, i: nat, depth: nat, num: nat)
    requires TagByTag(data, skip) && num < 0x2000_0000 && |data| < TWO63 && StandsAt(data, i, TagBytes(num, 4))
    ensures skip(i, depth + 1) == Rest(skip, i + |TagBytes(num, 4)|, depth)
  {
    TagAt(data, i, num, 4);
    assert Stepped(data, i, depth + 1, i + |TagBytes(num, 4)|, depth);
  }

  /** A group whose contents are passed over is passed over. */
  lemma {:induction false} SkipGroup(data: seq<Byte>, skip: Skip, i: nat, depth: nat, num: nat, inner: seq<Byte>)
    requires TagByTag(data, skip) && num < 0x2000_0000 && |data| < TWO63
    requires StandsAt(data, i, TagBytes(num, 3) + (inner + TagBytes(num, 4)))
    requires skip(i + |TagBytes(num, 3)|, depth + 1) == skip(i + |TagBytes(num, 3)| + |inner|, depth + 1)
    ensures skip(i, depth) == Rest(skip, i + |TagBytes(num, 3) + (inner + TagBytes(num, 4))|, depth)
  {
    var open, close := TagBytes(num, 3), TagBytes(num, 4);
    SplitAt(data, i, open, inner + close);
    SplitAt(data, i + |open|, inner, close);
    OpenGroup(data, skip, i, depth, num);
    CloseGroup(data, skip, i + |open| + |inner|, depth, num);
  }

  lemma {:induction false} InnerStands(data: seq<Byte>, i: nat, open: seq<Byte>, inner: seq<Byte>, close: seq<Byte>)
    requires StandsAt(data, i, open + (inner + close))
    ensures StandsAt(data, i + |open|, inner)
  {
    SplitAt(data, i, open, inner + close);
    SplitAt(data, i + |open|, inner, close);
  }

  lemma {:induction false} SkipFlat(data: seq<Byte>, skip: Skip, i: nat, depth: nat, f: Item)
    requires TagByTag(data, skip) && WellFormed(f) && !f.Group? && |data| < TWO63 && StandsAt(data, i, ItemBytes(f))
    ensures skip(i, depth) == Rest(skip, i + |ItemBytes(f)|, depth)
  {
    SkipOneFlat(data, i, depth, f);
    assert Stepped(data, i, depth, i + |ItemBytes(f)|, depth);
  }

  lemma {:induction false} GroupBytes(f: Item)
    requires f.Group?
    ensures ItemBytes(f) == TagBytes(f.num, 3) + (AllBytes(f.items) + TagBytes(f.num, 4))
  {
  }

  /** Skipping a field of any kind leaves the end of it, or what comes after it in the open group. */
  lemma {:induction false} SkipItem(data: seq<Byte>, skip: Skip, i: nat, depth: nat, f: Item)
    requires TagByTag(data, skip) && WellFormed(f) && |data| < TWO63 && StandsAt(data, i, ItemBytes(f))
    ensures skip(i, depth) == Rest(skip, i + |ItemBytes(f)|, depth)
    decreases f
  {
    if f.Group? {
      GroupBytes(f);
      InnerStands(data, i, TagBytes(f.num, 3), AllBytes(f.items), TagBytes(f.num, 4));
      SkipItems(data, skip, i + |TagBytes(f.num, 3)|, depth, f.items);
      SkipGroup(data, skip, i, depth, f.num, AllBytes(f.items));
    } else {
      SkipFlat(data, skip, i, depth, f);
    }
  }

  lemma {:induction false} FirstOf(items: seq<Item>)
    requires items != []
    ensures AllBytes(items) == ItemBytes(items[0]) + AllBytes(items[1..])
  {
  }

  /** The fields inside a group, one after the other. */
  lemma {:induction false} SkipItems(data: seq<Byte>, skip: Skip, i: nat, depth: nat, items: seq<Item>)
    requires TagByTag(data, skip) && |data| < TWO63 && StandsAt(data, i, AllBytes(items))
    requires forall k :: 0 <= k < |items| ==> WellFormed(items[k])
    ensures skip(i, depth + 1) == skip(i + |AllBytes(items)|, depth + 1)
    decreases items
  {
    if items != [] {
      var first, rest := ItemBytes(items[0]), AllBytes(items[1..]);
      FirstOf(items);
      SplitAt(data, i, first, rest);
      SkipItem(data, skip, i, depth + 1, items[0]);
      SkipItems(data, skip, i + |first|, depth, items[1..]);
    }
  }

  lemma {:induction false} SkipAtGoesTagByTag(data: seq<Byte>)
    ensures TagByTag(data, (i, depth) => SkipAt(data, i, depth))
  {
  }

  /** Skipping from the start of a field ends exactly behind it, whatever follows. */
  lemma {:induction false} SkipsExactly(f: Item, rest: seq<Byte>)
    requires WellFormed(f) && |ItemBytes(f) + rest| < TWO63
    ensures SkipAt(ItemBytes(f) + rest, 0, 0) == Ok(|ItemBytes(f)|)
  {
    var data := ItemBytes(f) + rest;
    assert data[0..0 + |ItemBytes(f)|] == ItemBytes(f);
    SkipAtGoesTagByTag(data);
    SkipItem(data, (i, depth) => SkipAt(data, i, depth), 0, 0, f);
  }
}
