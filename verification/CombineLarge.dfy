/**
 Combining with more than 33 cosigners (signer/tsed25519/ed25519.go): the coefficients are larger
 than L there, and still combining recovers every secret only if no numerator overflows. From 34
 to 65 cosigners the int64 coefficients cannot add up to total! modulo L; from 66 on they are zero.
 */
module CombineLarge {
  import opened GoInt
  import opened Omega
  import opened Interpolation
  import opened Residues
  import opened Modular
  import opened Shares
  import opened CombineExact
  import ClusterConfig
  import Sets

  // ---------------------------------------------------------------- coefficients add up to total!

  /** The sum of the first j coefficients as calcOmega computes them. */
  function OmegaSum(ids: seq<Int64>, delta: nat, j: nat): int
    requires j <= |ids|
  {
    if j == 0 then 0 else OmegaSum(ids, delta, j - 1) + CodeOmega(ids[j - 1], ids, delta)
  }

  lemma {:induction false} OmegaSumBound(ids: seq<Int64>, delta: nat, j: nat)
    requires j <= |ids|
    ensures -(j * TWO63) <= OmegaSum(ids, delta, j) <= j * TWO63
  {
    if j > 0 {
      OmegaSumBound(ids, delta, j - 1);
    }
  }

  function Ones(n: nat): (vs: seq<int>)
    ensures |vs| == n && forall i :: 0 <= i < n ==> vs[i] == 1
  {
    seq(n, _ => 1)
  }

  lemma {:induction false} OnesSum(ids: seq<Int64>, delta: nat, j: nat)
    requires j <= |ids|
    ensures PartialSum(ids, delta, Ones(|ids|), j) % L == OmegaSum(ids, delta, j) % L
  {
    if j > 0 {
      OnesSum(ids, delta, j - 1);
      var w := CodeOmega(ids[j - 1], ids, delta);
      ModTwice(w, L);
      AddCongruent(PartialSum(ids, delta, Ones(|ids|), j - 1), OmegaSum(ids, delta, j - 1), w % L, w, L);
    }
  }

  /** The constant polynomial 1 is recovered only if the coefficients add up to total! modulo L. */
  lemma {:induction false} OmegasSumToFactorial(total: nat, ids: seq<Int64>)
    requires total <= 255 && Players(ids, total) && ids != [] && RecoversAll(total, ids)
    ensures OmegaSum(ids, Factorial(total), |ids|) % L == Factorial(total) % L
  {
    var f, vs := Factorial(total), Ones(|ids|);
    forall i | 0 <= i < |ids| ensures vs[i] % L == Eval([1], ids[i]) % L {
      assert [1][1..] == [] && Eval([], ids[i]) == 0;
    }
    assert OnPolynomial(ids, vs, [1]);
    DeltaInvertible(total);
    UndoInverse(PartialSum(ids, f, vs, |ids|), f, InverseOrSelf(f), 1);
    OnesSum(ids, f, |ids|);
  }

  /** total! is not within 2^80 of a multiple of L. */
  predicate Far(n: nat) {
    0x1_0000_0000_0000_0000_0000 < Factorial(n) % L < L - 0x1_0000_0000_0000_0000_0000
  }

  lemma {:induction false} SmallIsNear(x: int)
    requires -0x1_0000_0000_0000_0000_0000 < x < 0x1_0000_0000_0000_0000_0000
    ensures x % L < 0x1_0000_0000_0000_0000_0000 || x % L > L - 0x1_0000_0000_0000_0000_0000
  {
  }

  lemma {:induction false} PlayersCount(ids: seq<int>, n: nat)
    requires Players(ids, n)
    ensures |ids| <= n
  {
    ClusterConfig.DistinctCount(ids);
    Sets.SubsetSize(ClusterConfig.IDSet(ids), ClusterConfig.Interval(n));
  }

  lemma {:induction false} FarMeansLost(total: nat, ids: seq<Int64>)
    requires total <= 255 && Players(ids, total) && ids != [] && Far(total)
    ensures !RecoversAll(total, ids)
  {
    if RecoversAll(total, ids) {
      OmegasSumToFactorial(total, ids);
      OmegaSumBound(ids, Factorial(total), |ids|);
      PlayersCount(ids, total);
      SmallIsNear(OmegaSum(ids, Factorial(total), |ids|));
    }
  }

  lemma {:induction false} Far34To38()
    requires Factorial(33) == 8683317618811886495518194401280000000
    ensures Factorial(38) == 523022617466601111760007224100074291200000000
    ensures forall n :: 34 <= n <= 38 ==> Far(n)
  {
    assert Factorial(34) == 295232799039604140847618609643520000000;
    assert Factorial(35) == 10333147966386144929666651337523200000000;
    assert Factorial(36) == 371993326789901217467999448150835200000000;
    assert Factorial(37) == 13763753091226345046315979581580902400000000;
    assert Factorial(38) == 523022617466601111760007224100074291200000000;
    assert Far(34) && Far(35) && Far(36) && Far(37) && Far(38);
  }

  lemma {:induction false} Far39To43()
    requires Factorial(38) == 523022617466601111760007224100074291200000000
    ensures Factorial(43) == 60415263063373835637355132068513997507264512000000000
    ensures forall n :: 39 <= n <= 43 ==> Far(n)
  {
    assert Factorial(39) == 20397882081197443358640281739902897356800000000;
    assert Factorial(40) == 815915283247897734345611269596115894272000000000;
    assert Factorial(41) == 33452526613163807108170062053440751665152000000000;
    assert Factorial(42) == 1405006117752879898543142606244511569936384000000000;
    assert Factorial(43) == 60415263063373835637355132068513997507264512000000000;
    assert Far(39) && Far(40) && Far(41) && Far(42) && Far(43);
  }

  lemma {:induction false} Far44To48()
    requires Factorial(43) == 60415263063373835637355132068513997507264512000000000
    ensures Factorial(48) == 12413915592536072670862289047373375038521486354677760000000000
    ensures forall n :: 44 <= n <= 48 ==> Far(n)
  {
    assert Factorial(44) == 2658271574788448768043625811014615890319638528000000000;
    assert Factorial(45) == 119622220865480194561963161495657715064383733760000000000;
    assert Factorial(46) == 5502622159812088949850305428800254892961651752960000000000;
    assert Factorial(47) == 258623241511168180642964355153611979969197632389120000000000;
    assert Factorial(48) == 12413915592536072670862289047373375038521486354677760000000000;
    assert Far(44) && Far(45) && Far(46) && Far(47) && Far(48);
  }

  lemma {:induction false} Far49To53()
    requires Factorial(48) == 12413915592536072670862289047373375038521486354677760000000000
    ensures Factorial(53) == 4274883284060025564298013753389399649690343788366813724672000000000000
    ensures forall n :: 49 <= n <= 53 ==> Far(n)
  {
    assert Factorial(49) == 608281864034267560872252163321295376887552831379210240000000000;
    assert Factorial(50) == 30414093201713378043612608166064768844377641568960512000000000000;
    assert Factorial(51) == 1551118753287382280224243016469303211063259720016986112000000000000;
    assert Factorial(52) == 80658175170943878571660636856403766975289505440883277824000000000000;
    assert Factorial(53) == 4274883284060025564298013753389399649690343788366813724672000000000000;
    assert Far(49) && Far(50) && Far(51) && Far(52) && Far(53);
  }

  lemma {:induction false} Far54To58()
    requires Factorial(53) == 4274883284060025564298013753389399649690343788366813724672000000000000
    ensures Factorial(58) == 2350561331282878571829474910515074683828862318181142924420699914240000000000000
    ensures forall n :: 54 <= n <= 58 ==> Far(n)
  {
    assert Factorial(54) == 230843697339241380472092742683027581083278564571807941132288000000000000;
    assert Factorial(55) == 12696403353658275925965100847566516959580321051449436762275840000000000000;
    assert Factorial(56) == 710998587804863451854045647463724949736497978881168458687447040000000000000;
    assert Factorial(57) == 40526919504877216755680601905432322134980384796226602145184481280000000000000;
    assert Factorial(58) == 2350561331282878571829474910515074683828862318181142924420699914240000000000000;
    assert Far(54) && Far(55) && Far(56) && Far(57) && Far(58);
  }

  lemma {:induction false} Far59To63()
    requires Factorial(58) == 2350561331282878571829474910515074683828862318181142924420699914240000000000000
    ensures Factorial(63) == 1982608315404440064116146708361898137544773690227268628106279599612729753600000000000000
    ensures forall n :: 59 <= n <= 63 ==> Far(n)
  {
    assert Factorial(59) == 138683118545689835737939019720389406345902876772687432540821294940160000000000000;
    assert Factorial(60) == 8320987112741390144276341183223364380754172606361245952449277696409600000000000000;
    assert Factorial(61) == 507580213877224798800856812176625227226004528988036003099405939480985600000000000000;
    assert Factorial(62) == 31469973260387937525653122354950764088012280797258232192163168247821107200000000000000;
    assert Factorial(63) == 1982608315404440064116146708361898137544773690227268628106279599612729753600000000000000;
    assert Far(59) && Far(60) && Far(61) && Far(62) && Far(63);
  }

  lemma {:induction false} Far64To65()
    requires Factorial(63) == 1982608315404440064116146708361898137544773690227268628106279599612729753600000000000000
    ensures Factorial(65) == 8247650592082470666723170306785496252186258551345437492922123134388955774976000000000000000
    ensures forall n :: 64 <= n <= 65 ==> Far(n)
  {
    assert Factorial(64) == 126886932185884164103433389335161480802865516174545192198801894375214704230400000000000000;
    assert Factorial(65) == 8247650592082470666723170306785496252186258551345437492922123134388955774976000000000000000;
    assert Far(64) && Far(65);
  }

  lemma {:induction false} AllFar(n: nat)
    requires 34 <= n <= 65
    ensures Far(n)
  {
    Factorial33();
    Far34To38();
    Far39To43();
    Far44To48();
    Far49To53();
    Far54To58();
    Far59To63();
    Far64To65();
  }

  // ---------------------------------------------------------------- numerators that wrap to zero

  lemma {:induction false} DividedZero(id: Int64, ids: seq<Int64>, k: nat)
    requires k <= |ids|
    ensures Divided(id, ids, 0, k) == 0
  {
    if k > 0 {
      DividedZero(id, ids, k - 1);
    }
  }

  lemma {:induction false} WrapsToZero(p: int)
    requires p % TWO64 == 0
    ensures Wrap(p) == 0
  {
    WrapCongruent(p, 0, p / TWO64);
  }

  lemma {:induction false} OthersInvertible(id: int, ids: seq<int>, n: nat, k: nat) returns (v: int)
    requires n <= 255 && Players(ids, n) && k <= |ids|
    ensures (Others(id, ids, k) * v) % L == 1
  {
    if k == 0 {
      v := 1;
    } else {
      v := OthersInvertible(id, ids, n, k - 1);
      if ids[k - 1] != id {
        SmallFactors();
        var u := SmallInverse(255, ids[k - 1]);
        InverseProduct(Others(id, ids, k - 1), v, ids[k - 1], u);
        v := v * u;
      }
    }
  }

  lemma {:induction false} NotZeroModulo(p: int, v: int, c: int, d: int)
    requires (p * v) % L == 1 && c * d == p
    ensures c % L != 0
  {
    if c % L == 0 {
      TimesCongruent(c, 0, d, L);
      TimesCongruent(p, 0, v, L);
    }
  }

  /** A numerator that is a multiple of 2^64 leaves its cosigner out of the sum: some secret is lost. */
  lemma {:induction false} LostNumerator(total: nat, ids: seq<Int64>, i: nat)
    requires total <= 255 && Players(ids, total) && i < |ids|
    requires (Factorial(total) * Others(ids[i], ids, |ids|)) % TWO64 == 0
    ensures !RecoversAll(total, ids)
  {
    var f, o := Factorial(total), Others(ids[i], ids, |ids|);
    WrapsToZero(f * o);
    DividedZero(ids[i], ids, |ids|);
    assert CodeOmega(ids[i], ids, f) == 0;
    CoefficientExact(ids[i], ids, total);
    DeltaInvertible(total);
    var v := OthersInvertible(ids[i], ids, total, |ids|);
    InverseProduct(f, InverseOrSelf(f), o, v);
    NotZeroModulo(f * o, InverseOrSelf(f) * v, Coefficient(ids[i], ids, total), Differences(ids[i], ids, |ids|));
    RecoversIffOmegasRight(total, ids);
  }

  lemma {:induction false} Factorial66()
    ensures Factorial(66) == 29508998276462666387539681488424100249079032081810725125003770233154296875 * TWO64
  {
    Factorial33();
    Far34To38();
    Far39To43();
    Far44To48();
    Far49To53();
    Far54To58();
    Far59To63();
    Far64To65();
  }

  lemma {:induction false} MultipleTimes(k: int, q: int, m: nat)
    requires m > 0
    ensures (q * (k * m)) % m == 0
  {
    assert q * (k * m) == (q * k) * m;
    ShiftByMultiple((q * k) * m, 0, q * k, m);
  }

  lemma {:induction false} FactorialMultiple(n: nat)
    requires n >= 66
    ensures Factorial(n) % TWO64 == 0
  {
    if n == 66 {
      Factorial66();
      MultipleTimes(29508998276462666387539681488424100249079032081810725125003770233154296875, 1, TWO64);
    } else {
      FactorialMultiple(n - 1);
      MultipleTimes(Factorial(n - 1) / TWO64, n, TWO64);
    }
  }

  /** From 66 cosigners on, no set of them recovers every secret. */
  lemma {:induction false} NeverFrom66(total: nat, ids: seq<Int64>)
    requires 66 <= total <= 255 && Players(ids, total) && ids != []
    ensures !RecoversAll(total, ids)
  {
    FactorialMultiple(total);
    MultipleTimes(Factorial(total) / TWO64, Others(ids[0], ids, |ids|), TWO64);
    Commute(Others(ids[0], ids, |ids|), Factorial(total));
    LostNumerator(total, ids, 0);
  }

  // ---------------------------------------------------------------- the exact condition

  lemma {:induction false} NeverFitsFrom34(total: nat, ids: seq<int>)
    requires total >= 34 && Players(ids, total) && ids != []
    ensures !Fits(total, ids)
  {
    Factorial33();
    FactorialOrder(33, total);
    OthersPositive(ids[0], ids, total, |ids|);
    GrowOrder(1, Others(ids[0], ids, |ids|), Factorial(total));
  }

  /**
   The exact condition, for every number of cosigners a configuration can have: combining recovers
   every secret if and only if no numerator of calcOmega overflows an int64.
   */
  lemma {:induction false} RecoversExactlyIfFits(total: nat, ids: seq<Int64>)
    requires total <= 255 && Players(ids, total)
    ensures RecoversAll(total, ids) <==> Fits(total, ids)
  {
    if total <= 33 {
      RecoversIffFitsTo33(total, ids);
    } else if ids != [] {
      NeverFitsFrom34(total, ids);
      if total <= 65 {
        AllFar(total);
        FarMeansLost(total, ids);
      } else {
        NeverFrom66(total, ids);
      }
    }
  }
}
