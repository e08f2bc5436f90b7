/** Canonical encoding of field elements: FeToBytes and FeFromBytes (signer/edwards25519/edwards25519.go). */
module FieldBytes {
  import opened Bytes
  import opened FieldLimbs
  import Residues
  import opened S = ScalarOps

  // ----- the quotient estimate

  /** The running estimate before limb k is added. */
  function Estimate(h: seq<int>, k: nat): int
    requires |h| == 10 && k <= 10
  {
    if k == 0 then (19 * h[9] + 16777216) / 33554432
    else (h[k - 1] + Estimate(h, k - 1)) / Radix(k - 1)
  }

  function TopWeight(k: nat): int
    requires k <= 10
  {
    if k == 10 then 0x8000000000000000000000000000000000000000000000000000000000000000 else Weight(k)
  }

  lemma {:induction false} TopWeightStep(k: nat)
    requires k < 10
    ensures TopWeight(k + 1) == TopWeight(k) * Radix(k)
  {
    if k < 5 {
      if k == 0 {} else if k == 1 {} else if k == 2 {} else if k == 3 {} else {}
    } else {
      if k == 5 {} else if k == 6 {} else if k == 7 {} else if k == 8 {} else {}
    }
  }

  /** One floor of the nested estimate is a floor of the whole. */
  lemma {:induction false} NestedFloor(s: int, w: int, q: int, x: int, r: int)
    requires w > 0 && r > 0 && w * q <= s < w * (q + 1)
    ensures var q' := (x + q) / r; (w * r) * q' <= s + w * x < (w * r) * (q' + 1)
  {
    var q' := (x + q) / r;
    var m := (x + q) % r;
    assert x + q == r * q' + m;
    assert w * (x + q) == w * (r * q') + w * m;
    assert w * (r * q') == (w * r) * q';
    assert 0 <= w * m && w * (m + 1) <= w * r;
    assert w * (q + 1) + w * x == w * (r * q') + w * (m + 1);
    assert (w * r) * (q' + 1) == (w * r) * q' + w * r;
  }

  lemma {:induction false} EstimateFloor(h: seq<int>, k: nat)
    requires |h| == 10 && k <= 10
    ensures var s := Sum(h, k) + Estimate(h, 0);
            TopWeight(k) * Estimate(h, k) <= s < TopWeight(k) * (Estimate(h, k) + 1)
  {
    if k > 0 {
      EstimateFloor(h, k - 1);
      NestedFloor(Sum(h, k - 1) + Estimate(h, 0), TopWeight(k - 1), Estimate(h, k - 1), h[k - 1], Radix(k - 1));
      TopWeightStep(k - 1);
    }
  }

  /** The input bound of FeToBytes: 1.1 * 2^25, 1.1 * 2^24, and so on. */
  ghost predicate ToBytesInput(h: seq<int>) {
    |h| == 10 && forall j :: 0 <= j < 10 ==>
      if j % 2 == 0 then -36909875 <= h[j] <= 36909875 else -18454937 <= h[j] <= 18454937
  }

  lemma {:induction false} Magnitude(h: seq<int>)
    requires ToBytesInput(h)
    ensures var v := FVal(h);
            0x4000000000000000000000000000000000000000000000000000000000 * h[9] - 0x4000000000000000000000000000000000000000000000000000000000 < v < 0x4000000000000000000000000000000000000000000000000000000000 * h[9] + 0x4000000000000000000000000000000000000000000000000000000000
  {
    FValIs(h);
  }

  /** The estimate is the exact floor of h / p. */
  lemma {:induction false} EstimateExact(h: seq<int>)
    requires ToBytesInput(h)
    ensures FVal(h) / P == Estimate(h, 10) && -1 <= Estimate(h, 10) <= 0
    ensures FVal(h) - Estimate(h, 10) * P == FVal(h) % P
  {
    var v, q, q0 := FVal(h), Estimate(h, 10), Estimate(h, 0);
    EstimateFloor(h, 10);
    Magnitude(h);
    assert -12 <= q0 <= 12;
    assert -1 <= q <= 0;
    assert h[9] == 0 ==> q0 == 0;
    assert h[9] >= 1 ==> v > 0;
    assert h[9] <= -1 ==> v < 0;
    Residues.ModUnique(v, q, v - q * P, P);
  }

  // ----- writing the bytes

  /** Every limb is a digit of its radix. */
  ghost predicate FieldDigits(h: seq<int>) {
    |h| == 10 && forall j :: 0 <= j < 10 ==> 0 <= h[j] < Radix(j)
  }

  function PackLow(h: seq<int>): (b: seq<Byte>)
    requires FieldDigits(h)
    ensures |b| == 16
  {
    [ Low(h[0]), Low(h[0] / 256), Low(h[0] / 65536), Join(h[0] / 16777216, h[1], 4),
      Low(h[1] / 64), Low(h[1] / 16384), Join(h[1] / 4194304, h[2], 8), Low(h[2] / 32),
      Low(h[2] / 8192), Join(h[2] / 2097152, h[3], 32), Low(h[3] / 8), Low(h[3] / 2048),
      Join(h[3] / 524288, h[4], 64), Low(h[4] / 4), Low(h[4] / 1024), Low(h[4] / 262144) ]
  }

  function PackHigh(h: seq<int>): (b: seq<Byte>)
    requires FieldDigits(h)
    ensures |b| == 16
  {
    [ Low(h[5]), Low(h[5] / 256), Low(h[5] / 65536), Join(h[5] / 16777216, h[6], 2),
      Low(h[6] / 128), Low(h[6] / 32768), Join(h[6] / 8388608, h[7], 8), Low(h[7] / 32),
      Low(h[7] / 8192), Join(h[7] / 2097152, h[8], 16), Low(h[8] / 16), Low(h[8] / 4096),
      Join(h[8] / 1048576, h[9], 64), Low(h[9] / 4), Low(h[9] / 1024), Low(h[9] / 262144) ]
  }

  lemma {:induction false} PackLowBytes(h: seq<int>)
    requires FieldDigits(h)
    ensures var b := PackLow(h);
      && At(b, 0) == h[0] % 256
      && At(b, 1) == h[0] / 256 % 256
      && At(b, 2) == h[0] / 65536 % 256
      && At(b, 3) == h[0] / 16777216 + 4 * (h[1] % 64)
      && At(b, 4) == h[1] / 64 % 256
      && At(b, 5) == h[1] / 16384 % 256
      && At(b, 6) == h[1] / 4194304 + 8 * (h[2] % 32)
      && At(b, 7) == h[2] / 32 % 256
      && At(b, 8) == h[2] / 8192 % 256
      && At(b, 9) == h[2] / 2097152 + 32 * (h[3] % 8)
      && At(b, 10) == h[3] / 8 % 256
      && At(b, 11) == h[3] / 2048 % 256
      && At(b, 12) == h[3] / 524288 + 64 * (h[4] % 4)
      && At(b, 13) == h[4] / 4 % 256
      && At(b, 14) == h[4] / 1024 % 256
      && At(b, 15) == h[4] / 262144
  {
    JoinBy4(h[0] / 16777216, h[1]);
    JoinBy8(h[1] / 4194304, h[2]);
    JoinBy32(h[2] / 2097152, h[3]);
    JoinBy64(h[3] / 524288, h[4]);
    DivMod(h[4] / 262144, 256, 0, h[4] / 262144);
  }

  lemma {:induction false} PackLowSum(x0: int, x1: int, x2: int, x3: int, x4: int)
    ensures (x0 % 256)
         + 0x100 * (x0 / 256 % 256)
         + 0x10000 * (x0 / 65536 % 256)
         + 0x1000000 * (x0 / 16777216 + 4 * (x1 % 64))
         + 0x100000000 * (x1 / 64 % 256)
         + 0x10000000000 * (x1 / 16384 % 256)
         + 0x1000000000000 * (x1 / 4194304 + 8 * (x2 % 32))
         + 0x100000000000000 * (x2 / 32 % 256)
         + 0x10000000000000000 * (x2 / 8192 % 256)
         + 0x1000000000000000000 * (x2 / 2097152 + 32 * (x3 % 8))
         + 0x100000000000000000000 * (x3 / 8 % 256)
         + 0x10000000000000000000000 * (x3 / 2048 % 256)
         + 0x1000000000000000000000000 * (x3 / 524288 + 64 * (x4 % 4))
         + 0x100000000000000000000000000 * (x4 / 4 % 256)
         + 0x10000000000000000000000000000 * (x4 / 1024 % 256)
         + 0x1000000000000000000000000000000 * (x4 / 262144)
         == x0 + 0x4000000 * x1 + 0x8000000000000 * x2 + 0x20000000000000000000 * x3 + 0x40000000000000000000000000 * x4
  {
    Chop(x0, 1); Chop(x0, 256); Chop(x0, 65536); Chop(x1, 64);
    Chop(x1, 16384); Chop(x2, 32); Chop(x2, 8192); Chop(x3, 8);
    Chop(x3, 2048); Chop(x4, 4); Chop(x4, 1024);
  }

  lemma {:induction false} PackHighBytes(h: seq<int>)
    requires FieldDigits(h)
    ensures var b := PackHigh(h);
      && At(b, 0) == h[5] % 256
      && At(b, 1) == h[5] / 256 % 256
      && At(b, 2) == h[5] / 65536 % 256
      && At(b, 3) == h[5] / 16777216 + 2 * (h[6] % 128)
      && At(b, 4) == h[6] / 128 % 256
      && At(b, 5) == h[6] / 32768 % 256
      && At(b, 6) == h[6] / 8388608 + 8 * (h[7] % 32)
      && At(b, 7) == h[7] / 32 % 256
      && At(b, 8) == h[7] / 8192 % 256
      && At(b, 9) == h[7] / 2097152 + 16 * (h[8] % 16)
      && At(b, 10) == h[8] / 16 % 256
      && At(b, 11) == h[8] / 4096 % 256
      && At(b, 12) == h[8] / 1048576 + 64 * (h[9] % 4)
      && At(b, 13) == h[9] / 4 % 256
      && At(b, 14) == h[9] / 1024 % 256
      && At(b, 15) == h[9] / 262144
  {
    JoinBy2(h[5] / 16777216, h[6]);
    JoinBy8(h[6] / 8388608, h[7]);
    JoinBy16(h[7] / 2097152, h[8]);
    JoinBy64(h[8] / 1048576, h[9]);
    DivMod(h[9] / 262144, 256, 0, h[9] / 262144);
  }

  lemma {:induction false} PackHighSum(x0: int, x1: int, x2: int, x3: int, x4: int)
    ensures (x0 % 256)
         + 0x100 * (x0 / 256 % 256)
         + 0x10000 * (x0 / 65536 % 256)
         + 0x1000000 * (x0 / 16777216 + 2 * (x1 % 128))
         + 0x100000000 * (x1 / 128 % 256)
         + 0x10000000000 * (x1 / 32768 % 256)
         + 0x1000000000000 * (x1 / 8388608 + 8 * (x2 % 32))
         + 0x100000000000000 * (x2 / 32 % 256)
         + 0x10000000000000000 * (x2 / 8192 % 256)
         + 0x1000000000000000000 * (x2 / 2097152 + 16 * (x3 % 16))
         + 0x100000000000000000000 * (x3 / 16 % 256)
         + 0x10000000000000000000000 * (x3 / 4096 % 256)
         + 0x1000000000000000000000000 * (x3 / 1048576 + 64 * (x4 % 4))
         + 0x100000000000000000000000000 * (x4 / 4 % 256)
         + 0x10000000000000000000000000000 * (x4 / 1024 % 256)
         + 0x1000000000000000000000000000000 * (x4 / 262144)
         == x0 + 0x2000000 * x1 + 0x8000000000000 * x2 + 0x10000000000000000000 * x3 + 0x40000000000000000000000000 * x4
  {
    Chop(x0, 1); Chop(x0, 256); Chop(x0, 65536); Chop(x1, 128);
    Chop(x1, 32768); Chop(x2, 32); Chop(x2, 8192); Chop(x3, 16);
    Chop(x3, 4096); Chop(x4, 4); Chop(x4, 1024);
  }

  lemma {:induction false} LE2(u: seq<Byte>)
    requires |u| == 2
    ensures LE(u) == At(u, 0) + 256 * At(u, 1)
  {
    assert LE(u[1..]) == At(u, 1) + 256 * LE(u[2..]) by { assert u[1..][1..] == u[2..]; }
  }

  lemma {:induction false} Split16(s: seq<Byte>)
    requires |s| == 16
    ensures LE(s) == LE(s[..7]) + 0x100_0000_0000_0000 * (LE(s[7..14]) + 0x100_0000_0000_0000 * LE(s[14..]))
  {
    Pow256At7();
    assert s == s[..7] + s[7..] && s[7..] == s[7..14] + s[14..];
    LEAppend(s[..7], s[7..]);
    LEAppend(s[7..14], s[14..]);
  }

  lemma {:induction false} LE16(s: seq<Byte>)
    requires |s| == 16
    ensures LE(s) == At(s, 0) + 0x100 * At(s, 1) + 0x10000 * At(s, 2) + 0x1000000 * At(s, 3) + 0x100000000 * At(s, 4) +
         0x10000000000 * At(s, 5) + 0x1000000000000 * At(s, 6) + 0x100000000000000 * At(s, 7) +
         0x10000000000000000 * At(s, 8) + 0x1000000000000000000 * At(s, 9) + 0x100000000000000000000 *
         At(s, 10) + 0x10000000000000000000000 * At(s, 11) + 0x1000000000000000000000000 * At(s, 12) +
         0x100000000000000000000000000 * At(s, 13) + 0x10000000000000000000000000000 * At(s, 14) +
         0x1000000000000000000000000000000 * At(s, 15)
  {
    Split16(s);
    LE7(s[..7]);
    LE7(s[7..14]);
    LE2(s[14..]);
  }

  lemma {:induction false} Pow256At16()
    ensures Pow256(16) == 0x1_0000_0000_0000_0000_0000_0000_0000_0000
  {
    Pow256Plus(8, 8);
    assert Pow256(8) == 0x1_0000_0000_0000_0000;
  }

  lemma {:induction false} PackLowValue(h: seq<int>)
    requires FieldDigits(h)
    ensures LE(PackLow(h)) == Sum(h, 5)
  {
    PackLowBytes(h);
    LE16(PackLow(h));
    PackLowSum(h[0], h[1], h[2], h[3], h[4]);
    assert Sum(h, 1) == h[0] && Sum(h, 3) == Sum(h, 1) + Weight(1) * h[1] + Weight(2) * h[2];
  }

  lemma {:induction false} HighWeights(h: seq<int>)
    requires |h| == 10
    ensures FVal(h) - Sum(h, 5) == 0x1_0000_0000_0000_0000_0000_0000_0000_0000
              * (h[5] + 0x2000000 * h[6] + 0x8000000000000 * h[7] + 0x10000000000000000000 * h[8] + 0x40000000000000000000000000 * h[9])
  {
    assert Sum(h, 7) == Sum(h, 5) + Weight(5) * h[5] + Weight(6) * h[6];
    assert Sum(h, 9) == Sum(h, 7) + Weight(7) * h[7] + Weight(8) * h[8];
    assert FVal(h) == Sum(h, 9) + Weight(9) * h[9];
  }

  lemma {:induction false} PackHighValue(h: seq<int>)
    requires FieldDigits(h)
    ensures 0x1_0000_0000_0000_0000_0000_0000_0000_0000 * LE(PackHigh(h)) == FVal(h) - Sum(h, 5)
  {
    PackHighBytes(h);
    LE16(PackHigh(h));
    PackHighSum(h[5], h[6], h[7], h[8], h[9]);
    HighWeights(h);
  }

  /** The 32 bytes written encode exactly the digits. */
  lemma {:induction false} PackValue(h: seq<int>)
    requires FieldDigits(h)
    ensures LE(PackLow(h) + PackHigh(h)) == FVal(h)
  {
    PackLowValue(h);
    PackHighValue(h);
    LEAppend(PackLow(h), PackHigh(h));
    Pow256At16();
  }

  lemma {:induction false} DigitsRange(h: seq<int>)
    requires FieldDigits(h)
    ensures 0 <= FVal(h) < 0x8000000000000000000000000000000000000000000000000000000000000000
  {
    FValIs(h);
  }

  /** The floor carry out of limb i. */
  method FloorCarry(h: array<int>, i: nat)
    requires h.Length == 10 && i < 9
    requires -0x1000_0000 <= h[i] <= 0x1000_0000 && -0x800_0000 <= h[i + 1] <= 0x800_0000
    requires forall j :: 0 <= j < i ==> 0 <= h[j] < Radix(j)
    modifies h
    ensures forall j :: 0 <= j <= i ==> 0 <= h[j] < Radix(j)
    ensures -0x1000_0000 <= h[i + 1] <= 0x1000_0000
    ensures forall j :: i + 1 < j < 10 ==> h[j] == old(h[j])
    ensures FVal(h[..]) == old(FVal(h[..]))
  {
    ghost var h0 := h[..];
    var c := if i % 2 == 0 then h[i] / 67108864 else h[i] / 33554432;
    assert 0 <= h[i] - c * Radix(i) < Radix(i) && -8 <= c <= 8;
    assert Int32(h[i + 1] + c) && Int32(c * Radix(i));
    h[i + 1] := h[i + 1] + c;
    h[i] := h[i] - c * Radix(i);
    assert h[..] == Move(h0, i, c);
    MoveValue(h0, i, c);
  }

  /** Floor carries out of every limb; the carry out of the top is dropped. */
  method FloorPass(h: array<int>)
    requires h.Length == 10 && forall j :: 0 <= j < 10 ==> -0x800_0000 <= h[j] <= 0x800_0000
    modifies h
    ensures FieldDigits(h[..])
    ensures exists c :: FVal(h[..]) == old(FVal(h[..])) - Dropped(c)
  {
    FloorCarry(h, 0);
    FloorCarry(h, 1);
    FloorCarry(h, 2);
    FloorCarry(h, 3);
    FloorCarry(h, 4);
    FloorCarry(h, 5);
    FloorCarry(h, 6);
    FloorCarry(h, 7);
    FloorCarry(h, 8);
    ghost var h0 := h[..];
    var c := h[9] / 33554432;
    h[9] := h[9] - c * 33554432;
    assert h[..] == h0[9 := h0[9] - c * 33554432];
    DropTop(h0, c);
    assert FVal(h[..]) == FVal(h0) - Dropped(c);
  }

  /** What the carry out of the top limb is worth. */
  function Dropped(c: int): int {
    0x8000000000000000000000000000000000000000000000000000000000000000 * c
  }

  lemma {:induction false} DropTop(h: seq<int>, c: int)
    requires |h| == 10
    ensures FVal(h[9 := h[9] - c * 33554432]) == FVal(h) - Dropped(c)
  {
    FValIs(h);
    FValIs(h[9 := h[9] - c * 33554432]);
  }

  lemma {:induction false} AddLow(h: seq<int>, d: int)
    requires |h| == 10
    ensures FVal(h[0 := h[0] + d]) == FVal(h) + d
  {
    FValIs(h);
    FValIs(h[0 := h[0] + d]);
  }

  /** After adding 19 q and carrying, the digits are exactly h - q p: the dropped carry is q. */
  lemma {:induction false} RemainderLeft(v: int, q: int, final: int, c: int)
    requires 0 <= v - q * P < P && 0 <= final < 0x8000000000000000000000000000000000000000000000000000000000000000
    requires final == v + 19 * q - Dropped(c)
    ensures final == v - q * P && c == q
  {
  }

  /** The eleven shifts of the estimate, in int32. */
  method Quotient(f: seq<int>) returns (q: int)
    requires ToBytesInput(f)
    ensures q == Estimate(f, 10)
  {
    assert Int32(19 * f[9] + 16777216);
    q := (19 * f[9] + 16777216) / 33554432;
    assert q == Estimate(f, 0);
    q := (f[0] + q) / 67108864;
    assert q == Estimate(f, 1);
    q := (f[1] + q) / 33554432;
    assert q == Estimate(f, 2);
    q := (f[2] + q) / 67108864;
    assert q == Estimate(f, 3);
    q := (f[3] + q) / 33554432;
    assert q == Estimate(f, 4);
    q := (f[4] + q) / 67108864;
    assert q == Estimate(f, 5);
    q := (f[5] + q) / 33554432;
    assert q == Estimate(f, 6);
    q := (f[6] + q) / 67108864;
    assert q == Estimate(f, 7);
    q := (f[7] + q) / 33554432;
    assert q == Estimate(f, 8);
    q := (f[8] + q) / 67108864;
    assert q == Estimate(f, 9);
    q := (f[9] + q) / 33554432;
  }

  /** Writes the unique canonical encoding of h mod p. */
  method FeToBytes(f: seq<int>) returns (s: seq<Byte>)
    requires ToBytesInput(f)
    ensures |s| == 32 && LE(s) == FVal(f) % P
  {
    var q := Quotient(f);
    EstimateExact(f);
    var h := new int[10](i requires 0 <= i < 10 => f[i]);
    assert h[..] == f;
    h[0] := h[0] + 19 * q;
    assert h[..] == f[0 := f[0] + 19 * q];
    AddLow(f, 19 * q);
    FloorPass(h);
    ghost var c :| FVal(h[..]) == FVal(f) + 19 * q - Dropped(c);
    DigitsRange(h[..]);
    RemainderLeft(FVal(f), q, FVal(h[..]), c);
    s := PackLow(h[..]) + PackHigh(h[..]);
    PackValue(h[..]);
  }

  // ----- reading the bytes

  function UnpackField(b: seq<Byte>): (h: seq<int>)
    requires |b| == 32
    ensures |h| == 10
  {
    [ Load4(b, 0), Load3(b, 4) * 64, Load3(b, 7) * 32, Load3(b, 10) * 8, Load3(b, 13) * 4,
      Load4(b, 16), Load3(b, 20) * 128, Load3(b, 23) * 32, Load3(b, 26) * 16, Load3(b, 29) % 8388608 * 4 ]
  }

  lemma {:induction false} ClearTop(b: seq<Byte>)
    requires |b| == 32
    ensures Load3(b, 29) % 8388608 == Load3(b, 29) - 8388608 * (At(b, 31) / 128)
  {
    DivMod(Load3(b, 29), 8388608, At(b, 31) / 128, At(b, 29) + 256 * At(b, 30) + 65536 * (At(b, 31) % 128));
  }

  lemma {:induction false} UnpackLowSum(b: seq<Byte>)
    requires |b| == 32
    ensures Sum(UnpackField(b), 5) == LE(b[..16])
  {
    var h := UnpackField(b);
    LE16(b[..16]);
    assert Sum(h, 1) == h[0] && Sum(h, 3) == Sum(h, 1) + Weight(1) * h[1] + Weight(2) * h[2];
    assert Sum(h, 5) == Sum(h, 3) + Weight(3) * h[3] + Weight(4) * h[4];
  }

  lemma {:induction false} UnpackHighSum(b: seq<Byte>)
    requires |b| == 32
    ensures FVal(UnpackField(b)) - Sum(UnpackField(b), 5)
         == 0x1_0000_0000_0000_0000_0000_0000_0000_0000 * LE(b[16..]) - Dropped(At(b, 31) / 128)
  {
    HighWeights(UnpackField(b));
    ClearTop(b);
    LE16(b[16..]);
  }

  lemma {:induction false} UnpackFieldSum(b: seq<Byte>)
    requires |b| == 32
    ensures FVal(UnpackField(b)) == LE(b) - Dropped(At(b, 31) / 128)
  {
    UnpackLowSum(b);
    UnpackHighSum(b);
    assert b == b[..16] + b[16..];
    LEAppend(b[..16], b[16..]);
    Pow256At16();
  }

  /** Reads a field element, ignoring the top bit of the last byte. */
  method FeFromBytes(src: seq<Byte>) returns (h: seq<int>)
    requires |src| == 32
    ensures Carried(h)
    ensures FVal(h) % P == (LE(src) - Dropped(src[31] / 128)) % P
  {
    UnpackFieldSum(src);
    h := FeCombine(UnpackField(src));
  }

  /** The encoding of a reduced value has its top bit clear, so reading it back gives the value. */
  lemma {:induction false} TopBitClear(b: seq<Byte>)
    requires |b| == 32 && LE(b) < P
    ensures b[31] < 128
  {
    assert b == b[..31] + [b[31]];
    LEAppend(b[..31], [b[31]]);
    Pow256Plus(16, 15);
    Pow256At16();
    Pow256Plus(8, 7);
    Pow256At7();
    assert Pow256(8) == 0x1_0000_0000_0000_0000;
    assert LE([b[31]]) == b[31];
  }

  /** FeFromBytes after FeToBytes returns the same field element, in the canonical bytes of its residue. */
  method RoundTrip(f: seq<int>) returns (s: seq<Byte>, h: seq<int>)
    requires ToBytesInput(f)
    ensures |s| == 32 && LE(s) == FVal(f) % P
    ensures Carried(h) && FVal(h) % P == FVal(f) % P
  {
    s := FeToBytes(f);
    TopBitClear(s);
    h := FeFromBytes(s);
    Residues.ModUnique(LE(s), 0, LE(s), P);
  }

  /** No other 32 bytes below p encode the same element. */
  lemma {:induction false} CanonicalUnique(s: seq<Byte>, other: seq<Byte>, v: int)
    requires |s| == 32 && |other| == 32
    requires LE(s) == v % P && LE(other) % P == v % P && LE(other) < P
    ensures other == s
  {
    Residues.ModUnique(LE(other), 0, LE(other), P);
    LEInjective(other, s);
  }
}
