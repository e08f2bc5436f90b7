/**
 GeScalarMultBase (signer/edwards25519/edwards25519.go): the signed radix-16 recoding, the
 constant-time table lookup and the two-pass sum, over any abelian group whose table holds
 base[i][j] = (j + 1) * 256^i * B.
 */
module BaseMult {
  import opened Bytes
  import opened Group

  ghost predicate Int8(x: int) {
    -128 <= x < 128
  }

  // ----- radix 16

  /** t * 16^i */
  function Shift4(t: int, i: nat): int {
    if i == 0 then t else 16 * Shift4(t, i - 1)
  }

  lemma {:induction false} Shift4Plus(a: int, b: int, i: nat)
    ensures Shift4(a + b, i) == Shift4(a, i) + Shift4(b, i)
  {
    if i > 0 {
      Shift4Plus(a, b, i - 1);
    }
  }

  lemma {:induction false} Shift4Times(t: int, k: int, i: nat)
    ensures Shift4(t * k, i) == k * Shift4(t, i)
  {
    if i > 0 {
      Shift4Times(t, k, i - 1);
      assert k * (16 * Shift4(t, i - 1)) == 16 * (k * Shift4(t, i - 1));
    }
  }

  /** The value of the first n digits. */
  function Digits(e: seq<int>, n: nat): int
    requires n <= |e|
  {
    if n == 0 then 0 else Digits(e, n - 1) + Shift4(e[n - 1], n - 1)
  }

  lemma {:induction false} DigitsFrame(e: seq<int>, f: seq<int>, n: nat)
    requires n <= |e| && n <= |f| && forall j :: 0 <= j < n ==> e[j] == f[j]
    ensures Digits(e, n) == Digits(f, n)
  {
    if n > 0 {
      DigitsFrame(e, f, n - 1);
    }
  }

  lemma {:induction false} Pow256IsShift4(i: nat, t: int)
    ensures t * Pow256(i) == Shift4(t, 2 * i)
  {
    if i > 0 {
      Pow256IsShift4(i - 1, t);
      assert t * Pow256(i) == 256 * (t * Pow256(i - 1));
      assert Shift4(t, 2 * i) == 16 * (16 * Shift4(t, 2 * i - 2));
    }
  }

  lemma {:induction false} NibbleStep(a: seq<Byte>, i: nat, e: seq<int>)
    requires i < |a| && |e| >= 2 * i + 2
    requires e[2 * i] == a[i] % 16 && e[2 * i + 1] == a[i] / 16
    requires Digits(e, 2 * i) == LE(a[..i])
    ensures Digits(e, 2 * i + 2) == LE(a[..i + 1])
  {
    assert a[..i + 1] == a[..i] + [a[i]];
    LEAppend(a[..i], [a[i]]);
    assert LE([a[i]]) == a[i];
    var lo, hi: int := a[i] % 16, a[i] / 16;
    var whole: int := a[i];
    Pow256IsShift4(i, whole);
    assert Digits(e, 2 * i + 2) == Digits(e, 2 * i) + Shift4(lo, 2 * i) + Shift4(hi, 2 * i + 1);
    Shift4Plus(lo, 16 * hi, 2 * i);
    Shift4Times(hi, 16, 2 * i);
    assert whole == lo + 16 * hi && hi * 16 == 16 * hi;
    assert Pow256(i) * whole == whole * Pow256(i);
  }

  /** Splits the scalar into 64 nibbles. */
  method Nibbles(a: seq<Byte>) returns (e: array<int>)
    requires |a| == 32 && a[31] <= 127
    ensures fresh(e) && e.Length == 64 && (forall j :: 0 <= j < 64 ==> 0 <= e[j] <= 15) && e[63] <= 7
    ensures Digits(e[..], 64) == LE(a)
  {
    e := new int[64](_ => 0);
    var i := 0;
    while i < 32
      invariant 0 <= i <= 32
      invariant forall j :: 0 <= j < 64 ==> 0 <= e[j] <= 15
      invariant i == 32 ==> e[63] <= 7
      invariant Digits(e[..], 2 * i) == LE(a[..i])
    {
      ghost var e0 := e[..];
      e[2 * i] := a[i] % 16;
      e[2 * i + 1] := a[i] / 16;
      DigitsFrame(e0, e[..], 2 * i);
      NibbleStep(a, i, e[..]);
      i := i + 1;
    }
    assert a[..32] == a;
  }

  /** Moves the digits from 0..15 into -8..8 with a running carry; the value is kept. */
  method Recode(e: array<int>)
    requires e.Length == 64 && (forall j :: 0 <= j < 64 ==> 0 <= e[j] <= 15) && e[63] <= 7
    modifies e
    ensures forall j :: 0 <= j < 64 ==> -8 <= e[j] <= 8
    ensures Digits(e[..], 64) == old(Digits(e[..], 64))
  {
    ghost var e0 := e[..];
    var carry := 0;
    var i := 0;
    while i < 63
      invariant 0 <= i <= 63 && 0 <= carry <= 1
      invariant forall j :: 0 <= j < i ==> -8 <= e[j] <= 7
      invariant forall j :: i <= j < 64 ==> e[j] == e0[j]
      invariant Digits(e[..], i) + Shift4(carry, i) == Digits(e0, i)
    {
      ghost var before, c0 := e[..], carry;
      assert Int8(e[i] + carry) && Int8(e[i] + carry + 8);
      e[i] := e[i] + carry;
      carry := (e[i] + 8) / 16;
      e[i] := e[i] - carry * 16;
      DigitsFrame(before, e[..], i);
      assert e[i] + 16 * carry == e0[i] + c0;
      Shift4Plus(e[i], 16 * carry, i);
      Shift4Plus(e0[i], c0, i);
      Shift4Times(carry, 16, i);
      i := i + 1;
    }
    ghost var before := e[..];
    e[63] := e[63] + carry;
    DigitsFrame(before, e[..], 63);
    Shift4Plus(e0[63], carry, 63);
  }

  // ----- constant-time selection

  /** equal: the top bit of (b xor c) - 1 in 32 bits. */
  function EqualBit(b: bv32, c: bv32): bv32 {
    ((b ^ c) - 1) >> 31
  }

  /** For non-negative int32 arguments the top bit is set exactly when they are equal. */
  lemma {:induction false} EqualBitCorrect(b: bv32, c: bv32)
    requires b < 0x8000_0000 && c < 0x8000_0000
    ensures EqualBit(b, c) == if b == c then 1 else 0
  {
  }

  /** A digit magnitude as a 32-bit word. */
  function Word(x: int): bv32
    requires 0 <= x <= 8
  {
    if x == 0 then 0 else if x == 1 then 1 else if x == 2 then 2 else if x == 3 then 3 else if x == 4 then 4
    else if x == 5 then 5 else if x == 6 then 6 else if x == 7 then 7 else 8
  }

  function Equal(b: int, c: int): (r: bool)
    requires 0 <= b <= 8 && 0 <= c <= 8
    ensures r == (b == c)
  {
    EqualBitCorrect(Word(b), Word(c));
    EqualBit(Word(b), Word(c)) == 1
  }

  /** One word of FeCMove: f ^= -b & (f ^ g). */
  function MoveWord(f: bv32, g: bv32, b: bv32): bv32 {
    f ^ ((0 - b) & (f ^ g))
  }

  lemma {:induction false} MoveWordCorrect(f: bv32, g: bv32, b: bv32)
    requires b == 0 || b == 1
    ensures MoveWord(f, g, b) == if b == 1 then g else f
  {
    var x := f ^ g;
    if b == 1 {
      assert 0 - b == 0xFFFF_FFFF && 0xFFFF_FFFF & x == x;
      assert f ^ (f ^ g) == g;
    } else {
      assert 0 - b == 0 && 0 & x == 0;
    }
  }

  /** FeCMove: all ten limbs move over, or none. */
  method FeCMove(f: array<bv32>, g: array<bv32>, b: bv32)
    requires f.Length == 10 && g.Length == 10 && (b == 0 || b == 1)
    modifies f
    ensures f[..] == if b == 1 then g[..] else old(f[..])
  {
    ghost var f0 := f[..];
    for i := 0 to 10
      invariant forall k :: 0 <= k < i ==> f[k] == if b == 1 then g[k] else f0[k]
      invariant forall k :: i <= k < 10 ==> f[k] == f0[k]
    {
      MoveWordCorrect(f[i], g[i], b);
      f[i] := MoveWord(f[i], g[i], b);
    }
  }

  /** negative: the sign bit of an int32, by an arithmetic shift of 31. */
  function Negative(b: int): (r: int)
    requires -0x8000_0000 <= b < 0x8000_0000
    ensures r == if b < 0 then 1 else 0
  {
    b / 0x8000_0000 % 2
  }

  /** b - (((-n) & b) << 1) for n the sign bit of b: masking with -1 keeps b, masking with 0 clears it. */
  function Magnitude(b: int): (r: int)
    requires -0x4000_0000 <= b < 0x4000_0000
    ensures r == if b < 0 then -b else b
  {
    var masked := if Negative(b) == 1 then b else 0;
    b - masked * 2
  }

  /** The multiples of B the precomputed table must hold. */
  ghost predicate Table<P(!new)>(g: Group<P>, base: seq<seq<P>>, B: P) {
    && |base| == 32
    && (forall i :: 0 <= i < 32 ==> |base[i]| == 8)
    && (forall i, j :: 0 <= i < 32 && 0 <= j < 8 ==> base[i][j] == Mul(g, (j + 1) * Pow256(i), B))
  }

  /** Scans all eight entries of row pos and keeps the one that matches |b|, then negates if b < 0. */
  method SelectPoint<P(!new)>(g: Group<P>, base: seq<seq<P>>, ghost B: P, pos: nat, b: int) returns (t: P)
    requires Abelian(g) && Table(g, base, B) && pos < 32 && -8 <= b <= 8
    ensures t == Mul(g, b * Pow256(pos), B)
  {
    var bAbs := Magnitude(b);
    t := g.zero;
    var i := 0;
    while i < 8
      invariant 0 <= i <= 8
      invariant t == if 1 <= bAbs <= i then base[pos][bAbs - 1] else g.zero
    {
      if Equal(bAbs, i + 1) {
        t := base[pos][i];
      }
      i := i + 1;
    }
    assert t == Mul(g, bAbs * Pow256(pos), B) by {
      if bAbs == 0 {
        assert bAbs * Pow256(pos) == 0;
      } else {
        assert base[pos][bAbs - 1] == Mul(g, (bAbs - 1 + 1) * Pow256(pos), B);
      }
    }
    if Negative(b) == 1 {
      t := g.neg(t);
      MulNeg(g, bAbs * Pow256(pos), B);
      assert -(bAbs * Pow256(pos)) == b * Pow256(pos);
    }
  }

  // ----- the two-pass sum

  /** The digits at odd (r == 1) or even (r == 0) positions below 2 k + r, each at its own power of 256. */
  function Half(e: seq<int>, r: nat, k: nat): int
    requires |e| == 64 && r < 2 && k <= 32
  {
    if k == 0 then 0 else Half(e, r, k - 1) + e[2 * (k - 1) + r] * Pow256(k - 1)
  }

  /** Sixteen times the odd half plus the even half is the whole number. */
  lemma {:induction false} HalvesValue(e: seq<int>, k: nat)
    requires |e| == 64 && k <= 32
    ensures 16 * Half(e, 1, k) + Half(e, 0, k) == Digits(e, 2 * k)
  {
    if k > 0 {
      HalvesValue(e, k - 1);
      var lo, hi := e[2 * (k - 1)], e[2 * (k - 1) + 1];
      Pow256IsShift4(k - 1, lo);
      Pow256IsShift4(k - 1, hi);
      assert Digits(e, 2 * k) == Digits(e, 2 * k - 2) + Shift4(lo, 2 * k - 2) + Shift4(hi, 2 * k - 1);
    }
  }

  /** One pass: adds the selected multiple for every second digit to h. */
  method AddHalf<P(!new)>(g: Group<P>, base: seq<seq<P>>, ghost B: P, e: array<int>, r: nat, start: P, ghost n: int)
    returns (h: P)
    requires Abelian(g) && Table(g, base, B) && r < 2
    requires e.Length == 64 && forall j :: 0 <= j < 64 ==> -8 <= e[j] <= 8
    requires start == Mul(g, n, B)
    ensures h == Mul(g, n + Half(e[..], r, 32), B)
  {
    h := start;
    var i := r;
    while i < 64
      invariant r <= i <= 64 + r && i % 2 == r
      invariant h == Mul(g, n + Half(e[..], r, (i - r) / 2), B)
    {
      var t := SelectPoint(g, base, B, i / 2, e[i]);
      MulAdd(g, n + Half(e[..], r, i / 2), e[i] * Pow256(i / 2), B);
      h := g.add(h, t);
      i := i + 2;
    }
  }

  method Double<P(!new)>(g: Group<P>, p: P, ghost n: int, ghost B: P) returns (q: P)
    requires Abelian(g) && p == Mul(g, n, B)
    ensures q == Mul(g, 2 * n, B)
  {
    MulAdd(g, n, n, B);
    q := g.add(p, p);
  }

  /** h = a * B for every scalar whose top bit is clear. */
  method GeScalarMultBase<P(!new)>(g: Group<P>, base: seq<seq<P>>, ghost B: P, a: seq<Byte>) returns (h: P)
    requires Abelian(g) && Table(g, base, B)
    requires |a| == 32 && a[31] <= 127
    ensures h == Mul(g, LE(a), B)
  {
    var e := Nibbles(a);
    Recode(e);
    h := AddHalf(g, base, B, e, 1, g.zero, 0);
    ghost var odd := Half(e[..], 1, 32);
    h := Double(g, h, odd, B);
    h := Double(g, h, 2 * odd, B);
    h := Double(g, h, 4 * odd, B);
    h := Double(g, h, 8 * odd, B);
    h := AddHalf(g, base, B, e, 0, h, 16 * odd);
    HalvesValue(e[..], 32);
  }
}
