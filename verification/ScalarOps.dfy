/**
 ScReduce, ScMulAdd and ScMinimal (signer/edwards25519/edwards25519.go): byte strings in,
 byte strings out, with the limb arithmetic of ScalarLimbs between.
 */
module ScalarOps {
  import opened Bytes
  import opened ScalarLimbs
  import Residues

  // ----- unpacking 21-bit limbs

  function At(b: seq<Byte>, i: nat): (x: int)
    requires i < |b|
    ensures 0 <= x < 256
  {
    b[i]
  }

  function Load3(b: seq<Byte>, i: nat): int
    requires i + 3 <= |b|
  {
    At(b, i) + 256 * At(b, i + 1) + 65536 * At(b, i + 2)
  }

  function Load4(b: seq<Byte>, i: nat): int
    requires i + 4 <= |b|
  {
    At(b, i) + 256 * At(b, i + 1) + 65536 * At(b, i + 2) + 16777216 * At(b, i + 3)
  }

  /** The eight limbs packed in the 21 bytes at o: masking with 2097151 keeps the low 21 bits. */
  function Unpack8(b: seq<Byte>, o: nat): (s: seq<int>)
    requires o + 21 <= |b|
    ensures |s| == 8
  {
    [ Load3(b, o) % 2097152,
      Load4(b, o + 2) / 32 % 2097152,
      Load3(b, o + 5) / 4 % 2097152,
      Load4(b, o + 7) / 128 % 2097152,
      Load4(b, o + 10) / 16 % 2097152,
      Load3(b, o + 13) / 2 % 2097152,
      Load4(b, o + 15) / 64 % 2097152,
      Load3(b, o + 18) / 8 % 2097152 ]
  }

  lemma {:induction false} DivMod(n: int, d: int, q: int, r: int)
    requires d > 0 && n == d * q + r && 0 <= r < d
    ensures n / d == q && n % d == r
  {
    Apart(d, q - n / d);
    assert d * (q - n / d) == n % d - r;
  }

  lemma {:induction false} Apart(d: int, k: int)
    requires d > 0
    ensures k == 0 || d * k >= d || d * k <= -d
  {
    if k >= 1 {
      assert d * k == d + d * (k - 1) && d * (k - 1) >= 0;
    } else if k <= -1 {
      assert d * k == -d + d * (k + 1) && d * (k + 1) <= 0;
    }
  }

  /** Shifting right by the power d and masking with 2097151 leaves the 21 bits low. */
  lemma {:induction false} CutAt(n: int, d: int, low: int, high: int, r: int)
    requires d > 0 && n == d * (low + 2097152 * high) + r && 0 <= r < d && 0 <= low < 2097152
    ensures n / d % 2097152 == low
  {
    DivMod(n, d, low + 2097152 * high, r);
    DivMod(low + 2097152 * high, 2097152, high, low);
  }

  lemma {:induction false} Cut3By1(b: seq<Byte>, i: nat)
    requires i + 3 <= |b|
    ensures Load3(b, i) % 2097152 == At(b, i) + 256 * At(b, i + 1) + 65536 * (At(b, i + 2) % 32)
  {
    var x, y := At(b, i), At(b, i + 2);
    CutAt(Load3(b, i), 1, x + 256 * At(b, i + 1) + 65536 * (y % 32), y / 32, 0);
  }

  lemma {:induction false} Cut4By32(b: seq<Byte>, i: nat)
    requires i + 4 <= |b|
    ensures Load4(b, i) / 32 % 2097152
         == At(b, i) / 32 + 8 * At(b, i + 1) + 2048 * At(b, i + 2) + 524288 * (At(b, i + 3) % 4)
  {
    var x, y := At(b, i), At(b, i + 3);
    CutAt(Load4(b, i), 32, x / 32 + 8 * At(b, i + 1) + 2048 * At(b, i + 2) + 524288 * (y % 4), y / 4, x % 32);
  }

  lemma {:induction false} Cut3By4(b: seq<Byte>, i: nat)
    requires i + 3 <= |b|
    ensures Load3(b, i) / 4 % 2097152 == At(b, i) / 4 + 64 * At(b, i + 1) + 16384 * (At(b, i + 2) % 128)
  {
    var x, y := At(b, i), At(b, i + 2);
    CutAt(Load3(b, i), 4, x / 4 + 64 * At(b, i + 1) + 16384 * (y % 128), y / 128, x % 4);
  }

  lemma {:induction false} Cut4By128(b: seq<Byte>, i: nat)
    requires i + 4 <= |b|
    ensures Load4(b, i) / 128 % 2097152
         == At(b, i) / 128 + 2 * At(b, i + 1) + 512 * At(b, i + 2) + 131072 * (At(b, i + 3) % 16)
  {
    var x, y := At(b, i), At(b, i + 3);
    CutAt(Load4(b, i), 128, x / 128 + 2 * At(b, i + 1) + 512 * At(b, i + 2) + 131072 * (y % 16), y / 16, x % 128);
  }

  lemma {:induction false} Cut4By16(b: seq<Byte>, i: nat)
    requires i + 4 <= |b|
    ensures Load4(b, i) / 16 % 2097152
         == At(b, i) / 16 + 16 * At(b, i + 1) + 4096 * At(b, i + 2) + 1048576 * (At(b, i + 3) % 2)
  {
    var x, y := At(b, i), At(b, i + 3);
    CutAt(Load4(b, i), 16, x / 16 + 16 * At(b, i + 1) + 4096 * At(b, i + 2) + 1048576 * (y % 2), y / 2, x % 16);
  }

  lemma {:induction false} Cut3By2(b: seq<Byte>, i: nat)
    requires i + 3 <= |b|
    ensures Load3(b, i) / 2 % 2097152 == At(b, i) / 2 + 128 * At(b, i + 1) + 32768 * (At(b, i + 2) % 64)
  {
    var x, y := At(b, i), At(b, i + 2);
    CutAt(Load3(b, i), 2, x / 2 + 128 * At(b, i + 1) + 32768 * (y % 64), y / 64, x % 2);
  }

  lemma {:induction false} Cut4By64(b: seq<Byte>, i: nat)
    requires i + 4 <= |b|
    ensures Load4(b, i) / 64 % 2097152
         == At(b, i) / 64 + 4 * At(b, i + 1) + 1024 * At(b, i + 2) + 262144 * (At(b, i + 3) % 8)
  {
    var x, y := At(b, i), At(b, i + 3);
    CutAt(Load4(b, i), 64, x / 64 + 4 * At(b, i + 1) + 1024 * At(b, i + 2) + 262144 * (y % 8), y / 8, x % 64);
  }

  lemma {:induction false} Cut3By8(b: seq<Byte>, i: nat)
    requires i + 3 <= |b|
    ensures Load3(b, i) / 8 % 2097152 == At(b, i) / 8 + 32 * At(b, i + 1) + 8192 * At(b, i + 2)
  {
    var x, y := At(b, i), At(b, i + 2);
    CutAt(Load3(b, i), 8, x / 8 + 32 * At(b, i + 1) + 8192 * y, 0, x % 8);
  }

  lemma {:induction false} LE7(s: seq<Byte>)
    requires |s| == 7
    ensures LE(s) == At(s, 0) + 0x100 * At(s, 1) + 0x1_0000 * At(s, 2) + 0x100_0000 * At(s, 3)
                   + 0x1_0000_0000 * At(s, 4) + 0x100_0000_0000 * At(s, 5) + 0x1_0000_0000_0000 * At(s, 6)
  {
    assert LE(s) == At(s, 0) + 256 * LE(s[1..]);
    assert LE(s[1..]) == At(s, 1) + 256 * LE(s[2..]) by { assert s[1..][1..] == s[2..]; }
    assert LE(s[2..]) == At(s, 2) + 256 * LE(s[3..]) by { assert s[2..][1..] == s[3..]; }
    assert LE(s[3..]) == At(s, 3) + 256 * LE(s[4..]) by { assert s[3..][1..] == s[4..]; }
    assert LE(s[4..]) == At(s, 4) + 256 * LE(s[5..]) by { assert s[4..][1..] == s[5..]; }
    assert LE(s[5..]) == At(s, 5) + 256 * LE(s[6..]) by { assert s[5..][1..] == s[6..]; }
    assert LE(s[6..]) == At(s, 6) + 256 * LE(s[7..]) by { assert s[6..][1..] == s[7..]; }
  }

  lemma {:induction false} Pow256At7()
    ensures Pow256(7) == 0x100_0000_0000_0000
  {
  }

  lemma {:induction false} LE21(b: seq<Byte>, o: nat)
    requires o + 21 <= |b|
    ensures LE(b[o..o + 21]) == LE(b[o..o + 7]) + 0x100_0000_0000_0000 * LE(b[o + 7..o + 14])
                              + 0x1_0000_0000_0000_0000_0000_0000_0000 * LE(b[o + 14..o + 21])
  {
    Pow256At7();
    assert b[o..o + 21] == b[o..o + 7] + b[o + 7..o + 21];
    LEAppend(b[o..o + 7], b[o + 7..o + 21]);
    assert b[o + 7..o + 21] == b[o + 7..o + 14] + b[o + 14..o + 21];
    LEAppend(b[o + 7..o + 14], b[o + 14..o + 21]);
  }

  lemma {:induction false} Val8(s: seq<int>)
    requires |s| == 8
    ensures Val(s, 8) == s[0] + 0x200000 * s[1] + 0x40000000000 * s[2] + 0x8000000000000000 * s[3] + 0x1000000000000000000000 * s[4] + 0x200000000000000000000000000 * s[5] + 0x40000000000000000000000000000000 * s[6] + 0x8000000000000000000000000000000000000 * s[7]
  {
    ShiftTimes(1, s[0], 0); ShiftTimes(1, s[1], 1); ShiftTimes(1, s[2], 2); ShiftTimes(1, s[3], 3); ShiftTimes(1, s[4], 4); ShiftTimes(1, s[5], 5);
    ShiftTimes(1, s[6], 6); ShiftTimes(1, s[7], 7);
    assert Val(s, 1) == Shift(s[0], 0);
    assert Val(s, 3) == Val(s, 1) + Shift(s[1], 1) + Shift(s[2], 2);
    assert Val(s, 5) == Val(s, 3) + Shift(s[3], 3) + Shift(s[4], 4);
    assert Val(s, 7) == Val(s, 5) + Shift(s[5], 5) + Shift(s[6], 6);
  }

  /** The bit fields of eight limbs and of the 21 bytes they share add up to the same number. */
  lemma {:induction false} FieldsSum(x0: int, x1: int, x2: int, x3: int, x4: int, x5: int, x6: int, x7: int, x8: int, x9: int, x10: int, x11: int, x12: int, x13: int, x14: int, x15: int, x16: int, x17: int, x18: int, x19: int, x20: int)
    ensures (x0 + 256 * x1 + 65536 * (x2 % 32))
         + 0x200000 * (x2 / 32 + 8 * x3 + 2048 * x4 + 524288 * (x5 % 4))
         + 0x40000000000 * (x5 / 4 + 64 * x6 + 16384 * (x7 % 128))
         + 0x8000000000000000 * (x7 / 128 + 2 * x8 + 512 * x9 + 131072 * (x10 % 16))
         + 0x1000000000000000000000 * (x10 / 16 + 16 * x11 + 4096 * x12 + 1048576 * (x13 % 2))
         + 0x200000000000000000000000000 * (x13 / 2 + 128 * x14 + 32768 * (x15 % 64))
         + 0x40000000000000000000000000000000 * (x15 / 64 + 4 * x16 + 1024 * x17 + 262144 * (x18 % 8))
         + 0x8000000000000000000000000000000000000 * (x18 / 8 + 32 * x19 + 8192 * x20)
         == x0 + 0x100 * x1 + 0x10000 * x2 + 0x1000000 * x3 + 0x100000000 * x4 + 0x10000000000 * x5 +
         0x1000000000000 * x6 + 0x100000000000000 * x7 + 0x10000000000000000 * x8 + 0x1000000000000000000 *
         x9 + 0x100000000000000000000 * x10 + 0x10000000000000000000000 * x11 + 0x1000000000000000000000000 *
         x12 + 0x100000000000000000000000000 * x13 + 0x10000000000000000000000000000 * x14 +
         0x1000000000000000000000000000000 * x15 + 0x100000000000000000000000000000000 * x16 +
         0x10000000000000000000000000000000000 * x17 + 0x1000000000000000000000000000000000000 * x18 +
         0x100000000000000000000000000000000000000 * x19 + 0x10000000000000000000000000000000000000000 * x20
  {
  }

  lemma {:induction false} Unpack8Limbs(b: seq<Byte>, o: nat)
    requires o + 21 <= |b|
    ensures var s := Unpack8(b, o);
      && s[0] == At(b, o) + 256 * At(b, o + 1) + 65536 * (At(b, o + 2) % 32)
      && s[1] == At(b, o + 2) / 32 + 8 * At(b, o + 3) + 2048 * At(b, o + 4) + 524288 * (At(b, o + 5) % 4)
      && s[2] == At(b, o + 5) / 4 + 64 * At(b, o + 6) + 16384 * (At(b, o + 7) % 128)
      && s[3] == At(b, o + 7) / 128 + 2 * At(b, o + 8) + 512 * At(b, o + 9) + 131072 * (At(b, o + 10) % 16)
      && s[4] == At(b, o + 10) / 16 + 16 * At(b, o + 11) + 4096 * At(b, o + 12) + 1048576 * (At(b, o + 13) % 2)
      && s[5] == At(b, o + 13) / 2 + 128 * At(b, o + 14) + 32768 * (At(b, o + 15) % 64)
      && s[6] == At(b, o + 15) / 64 + 4 * At(b, o + 16) + 1024 * At(b, o + 17) + 262144 * (At(b, o + 18) % 8)
      && s[7] == At(b, o + 18) / 8 + 32 * At(b, o + 19) + 8192 * At(b, o + 20)
  {
    Cut3By1(b, o);
    Cut4By32(b, o + 2);
    Cut3By4(b, o + 5);
    Cut4By128(b, o + 7);
    Cut4By16(b, o + 10);
    Cut3By2(b, o + 13);
    Cut4By64(b, o + 15);
    Cut3By8(b, o + 18);
  }

  lemma {:induction false} BytesSum(b: seq<Byte>, o: nat)
    requires o + 21 <= |b|
    ensures LE(b[o..o + 21]) == At(b, o) + 0x100 * At(b, o + 1) + 0x10000 * At(b, o + 2) + 0x1000000 * At(b, o + 3) + 0x100000000 *
         At(b, o + 4) + 0x10000000000 * At(b, o + 5) + 0x1000000000000 * At(b, o + 6) + 0x100000000000000 *
         At(b, o + 7) + 0x10000000000000000 * At(b, o + 8) + 0x1000000000000000000 * At(b, o + 9) +
         0x100000000000000000000 * At(b, o + 10) + 0x10000000000000000000000 * At(b, o + 11) +
         0x1000000000000000000000000 * At(b, o + 12) + 0x100000000000000000000000000 * At(b, o + 13) +
         0x10000000000000000000000000000 * At(b, o + 14) + 0x1000000000000000000000000000000 * At(b, o + 15) +
         0x100000000000000000000000000000000 * At(b, o + 16) + 0x10000000000000000000000000000000000 * At(b, o + 17) +
         0x1000000000000000000000000000000000000 * At(b, o + 18) + 0x100000000000000000000000000000000000000 *
         At(b, o + 19) + 0x10000000000000000000000000000000000000000 * At(b, o + 20)
  {
    LE21(b, o);
    LE7(b[o..o + 7]);
    LE7(b[o + 7..o + 14]);
    LE7(b[o + 14..o + 21]);
  }

  lemma {:induction false} Unpack8Value(b: seq<Byte>, o: nat)
    requires o + 21 <= |b|
    ensures Val(Unpack8(b, o), 8) == LE(b[o..o + 21])
  {
    Val8(Unpack8(b, o));
    Unpack8Limbs(b, o);
    BytesSum(b, o);
    FieldsSum(At(b, o), At(b, o + 1), At(b, o + 2), At(b, o + 3), At(b, o + 4), At(b, o + 5), At(b, o + 6), At(b, o + 7), At(b, o + 8), At(b, o + 9), At(b, o + 10), At(b, o + 11), At(b, o + 12), At(b, o + 13), At(b, o + 14), At(b, o + 15), At(b, o + 16), At(b, o + 17), At(b, o + 18), At(b, o + 19), At(b, o + 20));
  }

  lemma {:induction false} ValAppend(a: seq<int>, b: seq<int>, n: nat)
    requires n <= |b|
    ensures Val(a + b, |a| + n) == Val(a, |a|) + Shift(Val(b, n), |a|)
  {
    if n == 0 {
      ValPrefix(a, b, |a|);
      ShiftTimes(0, 0, |a|);
    } else {
      ValAppend(a, b, n - 1);
      ShiftPlus(Val(b, n - 1), Shift(b[n - 1], n - 1), |a|);
      ShiftUp(b[n - 1], n - 1, |a|);
    }
  }

  lemma {:induction false} ValPrefix(a: seq<int>, b: seq<int>, n: nat)
    requires n <= |a|
    ensures Val(a + b, n) == Val(a, n)
  {
    if n > 0 {
      ValPrefix(a, b, n - 1);
    }
  }

  lemma {:induction false} Pow256At21()
    ensures Pow256(21) == Shift(1, 8)
  {
    Pow256At7();
    Pow256Plus(7, 7);
    Pow256Plus(14, 7);
  }

  lemma {:induction false} Associate(x: int, y: int)
    ensures 256 * (x * y) == (256 * x) * y
  {
  }

  lemma {:induction false} Pow256Plus(m: nat, n: nat)
    ensures Pow256(m + n) == Pow256(m) * Pow256(n)
  {
    if m > 0 {
      Pow256Plus(m - 1, n);
      Associate(Pow256(m - 1), Pow256(n));
    }
  }

  lemma {:induction false} Split21(b: seq<Byte>)
    requires |b| >= 21
    ensures LE(b) == LE(b[..21]) + Shift(LE(b[21..]), 8)
  {
    assert b == b[..21] + b[21..];
    LEAppend(b[..21], b[21..]);
    Pow256At21();
    ShiftTimes(1, LE(b[21..]), 8);
  }

  /** The 24 limbs ScReduce starts from: the last one keeps its top bits. */
  function UnpackWide(b: seq<Byte>): (s: seq<int>)
    requires |b| == 64
    ensures |s| == 24
  {
    Unpack8(b, 0) + (Unpack8(b, 21) + Unpack8(b, 42)[7 := Load4(b, 60) / 8])
  }

  function ScalarTop(b: seq<Byte>): (s: seq<int>)
    requires |b| == 32
    ensures |s| == 4
  {
    [Load3(b, 21) % 2097152, Load4(b, 23) / 32 % 2097152, Load3(b, 26) / 4 % 2097152, Load4(b, 28) / 128]
  }

  /** The 12 limbs of a 32-byte scalar: the last one keeps its top bits. */
  function UnpackScalar(b: seq<Byte>): (s: seq<int>)
    requires |b| == 32
    ensures |s| == 12
  {
    Unpack8(b, 0) + ScalarTop(b)
  }

  lemma {:induction false} LastWideLimb(b: seq<Byte>)
    requires |b| == 64
    ensures Load4(b, 60) / 8 == Unpack8(b, 42)[7] + 2097152 * At(b, 63)
  {
    Cut3By8(b, 60);
    DivMod(Load4(b, 60), 8, Unpack8(b, 42)[7] + 2097152 * At(b, 63), At(b, 60) % 8);
  }

  /** Eight limbs for the first 21 bytes, and the rest of the limbs for the rest of the bytes. */
  lemma {:induction false} PrependGroup(g: seq<int>, rest: seq<int>, b: seq<Byte>)
    requires |g| == 8 && |b| >= 21
    requires Val(g, 8) == LE(b[..21]) && Val(rest, |rest|) == LE(b[21..])
    ensures Val(g + rest, |g + rest|) == LE(b)
  {
    Split21(b);
    ValAppend(g, rest, |rest|);
  }

  lemma {:induction false} WideTopValue(b: seq<Byte>)
    requires |b| == 64
    ensures Val(Unpack8(b, 42)[7 := Load4(b, 60) / 8], 8) == LE(b[42..])
  {
    var g := Unpack8(b, 42);
    Unpack8Value(b, 42);
    LastWideLimb(b);
    ValUpdate(g, 7, 2097152 * At(b, 63), 8);
    ShiftTimes(At(b, 63), 2097152, 7);
    Split21(b[42..]);
    assert b[42..][..21] == b[42..63] && b[42..][21..] == [b[63]];
  }

  lemma {:induction false} UnpackWideValue(b: seq<Byte>)
    requires |b| == 64
    ensures Val(UnpackWide(b), 24) == LE(b)
  {
    var top := Unpack8(b, 42)[7 := Load4(b, 60) / 8];
    WideTopValue(b);
    Unpack8Value(b, 21);
    assert b[21..][..21] == b[21..42] && b[21..][21..] == b[42..];
    PrependGroup(Unpack8(b, 21), top, b[21..]);
    Unpack8Value(b, 0);
    assert b[..21] == b[0..21];
    PrependGroup(Unpack8(b, 0), Unpack8(b, 21) + top, b);
  }

  lemma {:induction false} LE11(s: seq<Byte>)
    requires |s| == 11
    ensures LE(s) == At(s, 0) + 0x100 * At(s, 1) + 0x1_0000 * At(s, 2) + 0x100_0000 * At(s, 3)
                   + 0x1_0000_0000 * At(s, 4) + 0x100_0000_0000 * At(s, 5) + 0x1_0000_0000_0000 * At(s, 6)
                   + 0x100_0000_0000_0000 * (At(s, 7) + 0x100 * At(s, 8) + 0x1_0000 * At(s, 9) + 0x100_0000 * At(s, 10))
  {
    var hi := s[7..];
    assert s == s[..7] + hi;
    LEAppend(s[..7], hi);
    Pow256At7();
    LE7(s[..7]);
    assert LE(hi) == At(hi, 0) + 256 * LE(hi[1..]);
    assert LE(hi[1..]) == At(hi, 1) + 256 * LE(hi[2..]) by { assert hi[1..][1..] == hi[2..]; }
    assert LE(hi[2..]) == At(hi, 2) + 256 * LE(hi[3..]) by { assert hi[2..][1..] == hi[3..]; }
    assert LE(hi[3..]) == At(hi, 3) + 256 * LE(hi[4..]) by { assert hi[3..][1..] == hi[4..]; }
  }

  lemma {:induction false} Val4(s: seq<int>)
    requires |s| == 4
    ensures Val(s, 4) == s[0] + 0x20_0000 * s[1] + 0x400_0000_0000 * s[2] + 0x8000_0000_0000_0000 * s[3]
  {
    ShiftTimes(1, s[0], 0); ShiftTimes(1, s[1], 1); ShiftTimes(1, s[2], 2); ShiftTimes(1, s[3], 3);
    assert Val(s, 1) == Shift(s[0], 0);
    assert Val(s, 3) == Val(s, 1) + Shift(s[1], 1) + Shift(s[2], 2);
  }

  lemma {:induction false} LastScalarLimb(b: seq<Byte>)
    requires |b| == 32
    ensures Load4(b, 28) / 128 == At(b, 28) / 128 + 2 * At(b, 29) + 512 * At(b, 30) + 131072 * At(b, 31)
  {
    var x := At(b, 28);
    DivMod(Load4(b, 28), 128, x / 128 + 2 * At(b, 29) + 512 * At(b, 30) + 131072 * At(b, 31), x % 128);
  }

  lemma {:induction false} ScalarTopValue(b: seq<Byte>)
    requires |b| == 32
    ensures Val(ScalarTop(b), 4) == LE(b[21..])
  {
    Val4(ScalarTop(b));
    Cut3By1(b, 21);
    Cut4By32(b, 23);
    Cut3By4(b, 26);
    LastScalarLimb(b);
    LE11(b[21..]);
  }

  lemma {:induction false} UnpackScalarValue(b: seq<Byte>)
    requires |b| == 32
    ensures Val(UnpackScalar(b), 12) == LE(b)
  {
    Unpack8Value(b, 0);
    ScalarTopValue(b);
    assert b[..21] == b[0..21];
    PrependGroup(Unpack8(b, 0), ScalarTop(b), b);
  }

  // ----- packing reduced limbs into bytes

  /** Go's conversion to byte keeps the low eight bits. */
  function Low(x: int): Byte {
    x % 256
  }

  /** byte(lo | hi << k) with w == 2^k: lo lies below bit k, so the or is a sum. */
  function Join(lo: int, hi: int, w: int): Byte
    requires 0 <= lo < w
  {
    (lo + hi * w) % 256
  }

  function Pack8(s: seq<int>): (b: seq<Byte>)
    requires |s| >= 8 && Digits(s, 8)
    ensures |b| == 21
  {
    [ Low(s[0]), Low(s[0] / 256), Join(s[0] / 65536, s[1], 32),
      Low(s[1] / 8), Low(s[1] / 2048), Join(s[1] / 524288, s[2], 4),
      Low(s[2] / 64), Join(s[2] / 16384, s[3], 128), Low(s[3] / 2),
      Low(s[3] / 512), Join(s[3] / 131072, s[4], 16), Low(s[4] / 16),
      Low(s[4] / 4096), Join(s[4] / 1048576, s[5], 2), Low(s[5] / 128),
      Join(s[5] / 32768, s[6], 64), Low(s[6] / 4), Low(s[6] / 1024),
      Join(s[6] / 262144, s[7], 8), Low(s[7] / 32), Low(s[7] / 8192) ]
  }

  function PackTop(s: seq<int>): (b: seq<Byte>)
    requires |s| >= 12 && Digits(s, 11) && 0 <= s[11] <= 2097152
    ensures |b| == 11
  {
    [ Low(s[8]), Low(s[8] / 256), Join(s[8] / 65536, s[9], 32),
      Low(s[9] / 8), Low(s[9] / 2048), Join(s[9] / 524288, s[10], 4),
      Low(s[10] / 64), Join(s[10] / 16384, s[11], 128), Low(s[11] / 2),
      Low(s[11] / 512), Low(s[11] / 131072) ]
  }

  lemma {:induction false} Distribute(a: int, k: int, m: int)
    ensures a * (256 * k + m) == (a * 256) * k + a * m
  {
  }

  lemma {:induction false} ScaledBelow(a: int, m: int, r: int)
    requires a > 0 && 0 <= m < 256 && 0 <= r < a
    ensures 0 <= a * m + r < a * 256
  {
    assert 0 <= a * m <= a * 255;
  }

  lemma {:induction false} Chop(x: int, a: int)
    requires a > 0
    ensures x == x % a + a * (x / a % 256) + (a * 256) * (x / (a * 256))
  {
    var q, r := x / a, x % a;
    var k, m := q / 256, q % 256;
    Distribute(a, k, m);
    ScaledBelow(a, m, r);
    DivMod(x, a * 256, k, a * m + r);
  }

  lemma {:induction false} JoinBy32(lo: int, hi: int)
    requires 0 <= lo < 32
    ensures Join(lo, hi, 32) == lo + 32 * (hi % 8)
  {
    DivMod(lo + hi * 32, 256, hi / 8, lo + 32 * (hi % 8));
  }

  lemma {:induction false} JoinBy4(lo: int, hi: int)
    requires 0 <= lo < 4
    ensures Join(lo, hi, 4) == lo + 4 * (hi % 64)
  {
    DivMod(lo + hi * 4, 256, hi / 64, lo + 4 * (hi % 64));
  }

  lemma {:induction false} JoinBy128(lo: int, hi: int)
    requires 0 <= lo < 128
    ensures Join(lo, hi, 128) == lo + 128 * (hi % 2)
  {
    DivMod(lo + hi * 128, 256, hi / 2, lo + 128 * (hi % 2));
  }

  lemma {:induction false} JoinBy16(lo: int, hi: int)
    requires 0 <= lo < 16
    ensures Join(lo, hi, 16) == lo + 16 * (hi % 16)
  {
    DivMod(lo + hi * 16, 256, hi / 16, lo + 16 * (hi % 16));
  }

  lemma {:induction false} JoinBy2(lo: int, hi: int)
    requires 0 <= lo < 2
    ensures Join(lo, hi, 2) == lo + 2 * (hi % 128)
  {
    DivMod(lo + hi * 2, 256, hi / 128, lo + 2 * (hi % 128));
  }

  lemma {:induction false} JoinBy64(lo: int, hi: int)
    requires 0 <= lo < 64
    ensures Join(lo, hi, 64) == lo + 64 * (hi % 4)
  {
    DivMod(lo + hi * 64, 256, hi / 4, lo + 64 * (hi % 4));
  }

  lemma {:induction false} JoinBy8(lo: int, hi: int)
    requires 0 <= lo < 8
    ensures Join(lo, hi, 8) == lo + 8 * (hi % 32)
  {
    DivMod(lo + hi * 8, 256, hi / 32, lo + 8 * (hi % 32));
  }

  lemma {:induction false} Pack8Bytes(s: seq<int>)
    requires |s| >= 8 && Digits(s, 8)
    ensures var b := Pack8(s);
      && At(b, 0) == s[0] % 256
      && At(b, 1) == s[0] / 256 % 256
      && At(b, 2) == s[0] / 65536 + 32 * (s[1] % 8)
      && At(b, 3) == s[1] / 8 % 256
      && At(b, 4) == s[1] / 2048 % 256
      && At(b, 5) == s[1] / 524288 + 4 * (s[2] % 64)
      && At(b, 6) == s[2] / 64 % 256
      && At(b, 7) == s[2] / 16384 + 128 * (s[3] % 2)
      && At(b, 8) == s[3] / 2 % 256
      && At(b, 9) == s[3] / 512 % 256
      && At(b, 10) == s[3] / 131072 + 16 * (s[4] % 16)
      && At(b, 11) == s[4] / 16 % 256
      && At(b, 12) == s[4] / 4096 % 256
      && At(b, 13) == s[4] / 1048576 + 2 * (s[5] % 128)
      && At(b, 14) == s[5] / 128 % 256
      && At(b, 15) == s[5] / 32768 + 64 * (s[6] % 4)
      && At(b, 16) == s[6] / 4 % 256
      && At(b, 17) == s[6] / 1024 % 256
      && At(b, 18) == s[6] / 262144 + 8 * (s[7] % 32)
      && At(b, 19) == s[7] / 32 % 256
      && At(b, 20) == s[7] / 8192 % 256
  {
    JoinBy32(s[0] / 65536, s[1]);
    JoinBy4(s[1] / 524288, s[2]);
    JoinBy128(s[2] / 16384, s[3]);
    JoinBy16(s[3] / 131072, s[4]);
    JoinBy2(s[4] / 1048576, s[5]);
    JoinBy64(s[5] / 32768, s[6]);
    JoinBy8(s[6] / 262144, s[7]);
  }

  lemma {:induction false} LimbsSum(x0: int, x1: int, x2: int, x3: int, x4: int, x5: int, x6: int, x7: int)
    requires 0 <= x7 < 2097152
    ensures (x0 % 256)
         + 0x100 * (x0 / 256 % 256)
         + 0x10000 * (x0 / 65536 + 32 * (x1 % 8))
         + 0x1000000 * (x1 / 8 % 256)
         + 0x100000000 * (x1 / 2048 % 256)
         + 0x10000000000 * (x1 / 524288 + 4 * (x2 % 64))
         + 0x1000000000000 * (x2 / 64 % 256)
         + 0x100000000000000 * (x2 / 16384 + 128 * (x3 % 2))
         + 0x10000000000000000 * (x3 / 2 % 256)
         + 0x1000000000000000000 * (x3 / 512 % 256)
         + 0x100000000000000000000 * (x3 / 131072 + 16 * (x4 % 16))
         + 0x10000000000000000000000 * (x4 / 16 % 256)
         + 0x1000000000000000000000000 * (x4 / 4096 % 256)
         + 0x100000000000000000000000000 * (x4 / 1048576 + 2 * (x5 % 128))
         + 0x10000000000000000000000000000 * (x5 / 128 % 256)
         + 0x1000000000000000000000000000000 * (x5 / 32768 + 64 * (x6 % 4))
         + 0x100000000000000000000000000000000 * (x6 / 4 % 256)
         + 0x10000000000000000000000000000000000 * (x6 / 1024 % 256)
         + 0x1000000000000000000000000000000000000 * (x6 / 262144 + 8 * (x7 % 32))
         + 0x100000000000000000000000000000000000000 * (x7 / 32 % 256)
         + 0x10000000000000000000000000000000000000000 * (x7 / 8192 % 256)
         == x0 + 0x200000 * x1 + 0x40000000000 * x2 + 0x8000000000000000 * x3 + 0x1000000000000000000000 * x4 + 0x200000000000000000000000000 * x5 + 0x40000000000000000000000000000000 * x6 + 0x8000000000000000000000000000000000000 * x7
  {
    Chop(x0, 1); Chop(x0, 256); Chop(x1, 8); Chop(x1, 2048);
    Chop(x2, 64); Chop(x3, 2); Chop(x3, 512); Chop(x4, 16);
    Chop(x4, 4096); Chop(x5, 128); Chop(x6, 4); Chop(x6, 1024);
    Chop(x7, 32); Chop(x7, 8192);
  }

  lemma {:induction false} Pack8Value(s: seq<int>)
    requires |s| >= 8 && Digits(s, 8)
    ensures LE(Pack8(s)) == Val(s, 8)
  {
    var b := Pack8(s);
    Pack8Bytes(s);
    BytesSum(b, 0);
    assert b[0..21] == b;
    LimbsSum(s[0], s[1], s[2], s[3], s[4], s[5], s[6], s[7]);
    Val8(s[..8]);
    assert s == s[..8] + s[8..];
    ValPrefix(s[..8], s[8..], 8);
  }

  lemma {:induction false} TopByte(x: int)
    requires 0 <= x <= 2097152
    ensures Low(x / 131072) == x / 131072
  {
    DivMod(x / 131072, 256, 0, x / 131072);
  }

  lemma {:induction false} PackTopBytes(s: seq<int>)
    requires |s| >= 12 && Digits(s, 11) && 0 <= s[11] <= 2097152
    ensures var b := PackTop(s);
      && At(b, 0) == s[8] % 256
      && At(b, 1) == s[8] / 256 % 256
      && At(b, 2) == s[8] / 65536 + 32 * (s[9] % 8)
      && At(b, 3) == s[9] / 8 % 256
      && At(b, 4) == s[9] / 2048 % 256
      && At(b, 5) == s[9] / 524288 + 4 * (s[10] % 64)
      && At(b, 6) == s[10] / 64 % 256
      && At(b, 7) == s[10] / 16384 + 128 * (s[11] % 2)
      && At(b, 8) == s[11] / 2 % 256
      && At(b, 9) == s[11] / 512 % 256
      && At(b, 10) == s[11] / 131072
  {
    TopByte(s[11]);
    JoinBy32(s[8] / 65536, s[9]);
    JoinBy4(s[9] / 524288, s[10]);
    JoinBy128(s[10] / 16384, s[11]);
  }

  lemma {:induction false} TopLimbsSum(y0: int, y1: int, y2: int, y3: int)
    ensures (y0 % 256)
         + 0x100 * (y0 / 256 % 256)
         + 0x10000 * (y0 / 65536 + 32 * (y1 % 8))
         + 0x1000000 * (y1 / 8 % 256)
         + 0x100000000 * (y1 / 2048 % 256)
         + 0x10000000000 * (y1 / 524288 + 4 * (y2 % 64))
         + 0x1000000000000 * (y2 / 64 % 256)
         + 0x100000000000000 * (y2 / 16384 + 128 * (y3 % 2))
         + 0x10000000000000000 * (y3 / 2 % 256)
         + 0x1000000000000000000 * (y3 / 512 % 256)
         + 0x100000000000000000000 * (y3 / 131072)
         == y0 + 0x200000 * y1 + 0x40000000000 * y2 + 0x8000000000000000 * y3
  {
    Chop(y0, 1); Chop(y0, 256); Chop(y1, 8); Chop(y1, 2048);
    Chop(y2, 64); Chop(y3, 2); Chop(y3, 512);
  }

  lemma {:induction false} PackTopValue(s: seq<int>)
    requires |s| >= 12 && Digits(s, 11) && 0 <= s[11] <= 2097152
    ensures LE(PackTop(s)) == Val(s[8..12], 4)
  {
    PackTopBytes(s);
    LE11(PackTop(s));
    TopLimbsSum(s[8], s[9], s[10], s[11]);
    Val4(s[8..12]);
  }

  /** The 32 output bytes encode exactly the twelve limbs. */
  lemma {:induction false} PackValue(s: seq<int>)
    requires |s| >= 12 && Digits(s, 11) && 0 <= s[11] <= 2097152
    ensures LE(Pack8(s) + PackTop(s)) == Val(s, 12)
  {
    Pack8Value(s);
    PackTopValue(s);
    var b := Pack8(s) + PackTop(s);
    assert b[..21] == Pack8(s) && b[21..] == PackTop(s);
    PrependGroup(s[..8], s[8..12], b) by {
      assert s == s[..8] + s[8..];
      ValPrefix(s[..8], s[8..], 8);
    }
    assert s == s[..12] + s[12..] && s[..12] == s[..8] + s[8..12];
    ValPrefix(s[..12], s[12..], 12);
  }

  // ----- the schoolbook product

  /** Rows 0 to r - 1 of column k of the product: the sum of a[i] * b[k - i] over i < r. */
  function Column(a: seq<int>, b: seq<int>, k: nat, r: nat): int
    requires r <= |a|
  {
    if r == 0 then 0
    else Column(a, b, k, r - 1) + if 0 <= k - (r - 1) < |b| then a[r - 1] * b[k - (r - 1)] else 0
  }

  function Columns(a: seq<int>, b: seq<int>, r: nat): (c: seq<int>)
    requires r <= |a|
    ensures |c| == 24
  {
    seq(24, k requires 0 <= k < 24 => Column(a, b, k, r))
  }

  function RowOf(x: int, b: seq<int>, r: nat): (c: seq<int>)
    ensures |c| == 24
  {
    seq(24, k requires 0 <= k < 24 => if 0 <= k - r < |b| then x * b[k - r] else 0)
  }

  lemma {:induction false} ValSum(c: seq<int>, d: seq<int>, e: seq<int>, n: nat)
    requires n <= |c| == |d| == |e|
    requires forall k :: 0 <= k < n ==> e[k] == c[k] + d[k]
    ensures Val(e, n) == Val(c, n) + Val(d, n)
  {
    if n > 0 {
      ValSum(c, d, e, n - 1);
      ShiftPlus(c[n - 1], d[n - 1], n - 1);
    }
  }

  lemma {:induction false} RowValue(x: int, b: seq<int>, r: nat, n: nat)
    requires n <= |b| && r + n <= 24
    ensures Val(RowOf(x, b, r), r + n) == Shift(x * Val(b, n), r)
  {
    var c := RowOf(x, b, r);
    if n == 0 {
      ValZeros(c, 0, r);
      assert x * Val(b, 0) == 0;
      ShiftTimes(0, 0, r);
    } else {
      RowValue(x, b, r, n - 1);
      var v, w := Val(b, n - 1), Shift(b[n - 1], n - 1);
      assert x * (v + w) == x * v + x * w;
      ShiftPlus(x * v, x * w, r);
      ShiftTimes(b[n - 1], x, n - 1);
      ShiftUp(x * b[n - 1], n - 1, r);
      assert x * b[n - 1] == b[n - 1] * x;
    }
  }

  /** The columns of the first r rows add up to the product with the first r limbs of a. */
  lemma {:induction false} ColumnsValue(a: seq<int>, b: seq<int>, r: nat)
    requires |a| == |b| == 12 && r <= 12
    ensures Val(Columns(a, b, r), 24) == Val(a, r) * Val(b, 12)
  {
    if r == 0 {
      ValZeros(Columns(a, b, 0), 0, 24);
    } else {
      ColumnsValue(a, b, r - 1);
      var x, y := a[r - 1], Val(b, 12);
      var row := RowOf(x, b, r - 1);
      ValSum(Columns(a, b, r - 1), row, Columns(a, b, r), 24);
      RowValue(x, b, r - 1, 12);
      ValZeros(row, r + 11, 24);
      ShiftTimes(x, y, r - 1);
      assert (Val(a, r - 1) + Shift(x, r - 1)) * y == Val(a, r - 1) * y + y * Shift(x, r - 1);
    }
  }

  lemma {:induction false} ProductBound(x: int, y: int, m: int, n: int)
    requires 0 <= x <= m && 0 <= y <= n
    ensures 0 <= x * y <= m * n
  {
    assert x * y <= x * n <= m * n;
  }

  /** Limbs of a scalar: 21 bits, except that the last keeps 25. */
  ghost predicate ScalarLimbs12(s: seq<int>) {
    |s| == 12 && Digits(s, 11) && 0 <= s[11] < 0x200_0000
  }

  lemma {:induction false} ColumnBound(a: seq<int>, b: seq<int>, k: nat, r: nat)
    requires ScalarLimbs12(a) && ScalarLimbs12(b) && r <= 11
    ensures 0 <= Column(a, b, k, r) <= r * 0x4000_0000_0000
  {
    if r > 0 {
      ColumnBound(a, b, k, r - 1);
      if 0 <= k - (r - 1) < 12 {
        ProductBound(a[r - 1], b[k - (r - 1)], 0x20_0000, 0x200_0000);
      }
    }
  }

  lemma {:induction false} ColumnTotal(a: seq<int>, b: seq<int>, k: nat)
    requires ScalarLimbs12(a) && ScalarLimbs12(b)
    ensures 0 <= Column(a, b, k, 12) <= 0x7_0000_0000_0000
  {
    ColumnBound(a, b, k, 11);
    if 0 <= k - 11 < 12 {
      ProductBound(a[11], b[k - 11], 0x200_0000, 0x200_0000);
    }
  }

  lemma {:induction false} UnpackWideBounds(b: seq<Byte>)
    requires |b| == 64
    ensures forall j :: 0 <= j < 24 ==> 0 <= UnpackWide(b)[j] < 0x2000_0000
  {
    LastWideLimb(b);
  }

  lemma {:induction false} UnpackScalarBounds(b: seq<Byte>)
    requires |b| == 32
    ensures ScalarLimbs12(UnpackScalar(b))
  {
    LastScalarLimb(b);
  }

  /** The 512-bit input modulo L, fully reduced. */
  method ScReduce(s: seq<Byte>) returns (out: seq<Byte>)
    requires |s| == 64
    ensures |out| == 32 && LE(out) == LE(s) % L
  {
    var limbs := UnpackWide(s);
    UnpackWideBounds(s);
    UnpackWideValue(s);
    var t := new int[24](i requires 0 <= i < 24 => limbs[i]);
    assert t[..] == limbs;
    Reduce(t);
    out := Pack8(t[..]) + PackTop(t[..]);
    PackValue(t[..]);
  }

  /** Rounding carries out of limbs 0, 2, ..., 22 and then 1, 3, ..., 21. */
  method CarryProduct(s: array<int>)
    requires s.Length == 24 && Bounded(s, 0, 23, 0x8_0000_0000_0000) && s[23] == 0
    modifies s
    ensures Bounded(s, 0, 24, 0x1_0000_0000)
    ensures Val(s[..], 24) == old(Val(s[..], 24))
  {
    RoundCarry(s, 0, 0x8_0000_0000_0000, 0x8_0000_0000_0000);
    RoundCarry(s, 2, 0x8_0000_0000_0000, 0x8_0000_0000_0000);
    RoundCarry(s, 4, 0x8_0000_0000_0000, 0x8_0000_0000_0000);
    RoundCarry(s, 6, 0x8_0000_0000_0000, 0x8_0000_0000_0000);
    RoundCarry(s, 8, 0x8_0000_0000_0000, 0x8_0000_0000_0000);
    RoundCarry(s, 10, 0x8_0000_0000_0000, 0x8_0000_0000_0000);
    RoundCarry(s, 12, 0x8_0000_0000_0000, 0x8_0000_0000_0000);
    RoundCarry(s, 14, 0x8_0000_0000_0000, 0x8_0000_0000_0000);
    RoundCarry(s, 16, 0x8_0000_0000_0000, 0x8_0000_0000_0000);
    RoundCarry(s, 18, 0x8_0000_0000_0000, 0x8_0000_0000_0000);
    RoundCarry(s, 20, 0x8_0000_0000_0000, 0x8_0000_0000_0000);
    RoundCarry(s, 22, 0x8_0000_0000_0000, 0x0);
    RoundCarry(s, 1, 0x8_0000_4000_0001, 0x10_0000);
    RoundCarry(s, 3, 0x8_0000_4000_0001, 0x10_0000);
    RoundCarry(s, 5, 0x8_0000_4000_0001, 0x10_0000);
    RoundCarry(s, 7, 0x8_0000_4000_0001, 0x10_0000);
    RoundCarry(s, 9, 0x8_0000_4000_0001, 0x10_0000);
    RoundCarry(s, 11, 0x8_0000_4000_0001, 0x10_0000);
    RoundCarry(s, 13, 0x8_0000_4000_0001, 0x10_0000);
    RoundCarry(s, 15, 0x8_0000_4000_0001, 0x10_0000);
    RoundCarry(s, 17, 0x8_0000_4000_0001, 0x10_0000);
    RoundCarry(s, 19, 0x8_0000_4000_0001, 0x10_0000);
    RoundCarry(s, 21, 0x8_0000_4000_0001, 0x10_0000);
  }

  /** The 23 product columns with c added in, carried once. */
  method Product(a: seq<Byte>, b: seq<Byte>, c: seq<Byte>) returns (s: array<int>)
    requires |a| == |b| == |c| == 32
    ensures fresh(s) && s.Length == 24 && Bounded(s, 0, 24, 0x1_0000_0000)
    ensures Val(s[..], 24) == LE(a) * LE(b) + LE(c)
  {
    var x, y, z := UnpackScalar(a), UnpackScalar(b), UnpackScalar(c);
    UnpackScalarBounds(a); UnpackScalarBounds(b); UnpackScalarBounds(c);
    s := new int[24](k requires 0 <= k < 24 => Column(x, y, k, 12) + if k < 12 then z[k] else 0);
    ghost var columns := s[..];
    ProductBounds(x, y, z, columns);
    CarryProduct(s);
    ProductValue(x, y, z, columns);
    UnpackScalarValue(a); UnpackScalarValue(b); UnpackScalarValue(c);
  }

  /** a * b + c modulo L, fully reduced, for any 32-byte inputs. */
  method ScMulAdd(a: seq<Byte>, b: seq<Byte>, c: seq<Byte>) returns (out: seq<Byte>)
    requires |a| == |b| == |c| == 32
    ensures |out| == 32 && LE(out) == (LE(a) * LE(b) + LE(c)) % L
  {
    var s := Product(a, b, c);
    Reduce(s);
    out := Pack8(s[..]) + PackTop(s[..]);
    PackValue(s[..]);
  }

  lemma {:induction false} ProductBounds(a: seq<int>, b: seq<int>, c: seq<int>, s: seq<int>)
    requires ScalarLimbs12(a) && ScalarLimbs12(b) && ScalarLimbs12(c) && |s| == 24
    requires forall k :: 0 <= k < 24 ==> s[k] == Column(a, b, k, 12) + if k < 12 then c[k] else 0
    ensures forall k :: 0 <= k < 24 ==> 0 <= s[k] <= 0x8_0000_0000_0000 && Int64(s[k])
    ensures s[23] == 0
  {
    forall k | 0 <= k < 24
      ensures 0 <= s[k] <= 0x8_0000_0000_0000
    {
      ColumnTotal(a, b, k);
    }
    LastColumn(a, b, 12);
  }

  lemma {:induction false} LastColumn(a: seq<int>, b: seq<int>, r: nat)
    requires |a| == |b| == 12 && r <= 12
    ensures Column(a, b, 23, r) == 0
  {
    if r > 0 {
      LastColumn(a, b, r - 1);
    }
  }

  lemma {:induction false} ProductValue(a: seq<int>, b: seq<int>, c: seq<int>, s: seq<int>)
    requires |a| == |b| == |c| == 12 && |s| == 24
    requires forall k :: 0 <= k < 24 ==> s[k] == Column(a, b, k, 12) + if k < 12 then c[k] else 0
    ensures Val(s, 24) == Val(a, 12) * Val(b, 12) + Val(c, 12)
  {
    var wide := c + seq(12, _ => 0);
    ColumnsValue(a, b, 12);
    ValSum(Columns(a, b, 12), wide, s, 24);
    ValZeros(wide, 12, 24);
    ValPrefix(c, seq(12, _ => 0), 12);
  }

  // ----- comparison with the order

  /** The order as four little-endian 64-bit words. */
  const Order: seq<nat> := [0x5812631a5cf5d3ed, 0x14def9dea2f79cd6, 0, 0x1000000000000000]

  /** The i-th 64-bit little-endian word of a scalar. */
  function Word(b: seq<Byte>, i: nat): nat
    requires 8 * i + 8 <= |b|
  {
    LE(b[8 * i..8 * i + 8])
  }

  lemma {:induction false} WordBound(b: seq<Byte>, i: nat)
    requires 8 * i + 8 <= |b|
    ensures Word(b, i) < 0x1_0000_0000_0000_0000
  {
    LEBound(b[8 * i..8 * i + 8]);
    assert Pow256(8) == 0x1_0000_0000_0000_0000;
  }

  lemma {:induction false} WordsValue(b: seq<Byte>)
    requires |b| == 32
    ensures LE(b) == Word(b, 0) + 0x1_0000_0000_0000_0000 * (Word(b, 1)
                   + 0x1_0000_0000_0000_0000 * (Word(b, 2) + 0x1_0000_0000_0000_0000 * Word(b, 3)))
  {
    assert Pow256(8) == 0x1_0000_0000_0000_0000;
    LEAppend(b[0..8], b[8..]);
    LEAppend(b[8..16], b[16..]);
    LEAppend(b[16..24], b[24..32]);
    assert b == b[0..8] + b[8..] && b[8..] == b[8..16] + b[16..] && b[16..] == b[16..24] + b[24..32];
  }

  /** Accepts exactly the scalars below L: the words are compared from the top. */
  method ScMinimal(scalar: seq<Byte>) returns (ok: bool)
    requires |scalar| == 32
    ensures ok == (LE(scalar) < L)
  {
    WordsValue(scalar);
    WordBound(scalar, 0); WordBound(scalar, 1); WordBound(scalar, 2); WordBound(scalar, 3);
    var i := 3;
    while true
      invariant 0 <= i <= 3
      invariant forall k :: i < k <= 3 ==> Word(scalar, k) == Order[k]
      decreases i
    {
      var v := Word(scalar, i);
      if v > Order[i] {
        return false;
      } else if v < Order[i] {
        break;
      } else if i == 0 {
        return false;
      }
      i := i - 1;
    }
    return true;
  }

  /** A value below L written in 32 bytes is accepted by ScMinimal; no other 32 bytes encode it. */
  lemma {:induction false} ReducedIsCanonical(out: seq<Byte>, other: seq<Byte>, x: int)
    requires |out| == 32 && |other| == 32
    requires LE(out) == x % L && LE(other) % L == x % L
    ensures LE(out) < L
    ensures other == out <==> LE(other) < L
  {
    if LE(other) < L {
      Residues.ModUnique(LE(other), 0, LE(other), L);
      LEInjective(other, out);
    }
  }
}
