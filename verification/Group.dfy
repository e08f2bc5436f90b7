/** Abelian groups and integer multiples of their elements: the curve group is used through these laws alone. */
module Group {

  datatype Group<!P(!new)> = Group(zero: P, add: (P, P) -> P, neg: P -> P)

  /** The laws of an abelian group at three elements. */
  ghost predicate Laws<P(!new)>(g: Group<P>, a: P, b: P, c: P) {
    && g.add(a, b) == g.add(b, a)
    && g.add(g.add(a, b), c) == g.add(a, g.add(b, c))
    && g.add(a, g.zero) == a
    && g.add(a, g.neg(a)) == g.zero
  }

  ghost predicate Abelian<P(!new)>(g: Group<P>) {
    forall a, b, c :: Laws(g, a, b, c)
  }

  /** n times p for n >= 0. */
  function Times<P(!new)>(g: Group<P>, n: nat, p: P): P {
    if n == 0 then g.zero else g.add(Times(g, n - 1, p), p)
  }

  /** n times p for any integer n. */
  function Mul<P(!new)>(g: Group<P>, n: int, p: P): P {
    if n >= 0 then Times(g, n, p) else g.neg(Times(g, -n, p))
  }

  lemma {:induction false} Cancel<P(!new)>(g: Group<P>, a: P, b: P, c: P)
    requires Abelian(g) && g.add(a, c) == g.add(b, c)
    ensures a == b
  {
    assert Laws(g, a, c, g.neg(c)) && Laws(g, b, c, g.neg(c)) && Laws(g, c, c, c);
  }

  /** The inverse is unique. */
  lemma {:induction false} InverseUnique<P(!new)>(g: Group<P>, a: P, b: P)
    requires Abelian(g) && g.add(a, b) == g.zero
    ensures a == g.neg(b)
  {
    assert Laws(g, b, g.neg(b), b);
    Cancel(g, a, g.neg(b), b);
  }

  lemma {:induction false} MulStep<P(!new)>(g: Group<P>, n: int, p: P)
    requires Abelian(g)
    ensures Mul(g, n + 1, p) == g.add(Mul(g, n, p), p)
  {
    if n < 0 {
      var t := Times(g, -n - 1, p);
      var u := g.add(t, p);
      assert Times(g, -n, p) == u;
      assert Laws(g, g.neg(u), p, t) && Laws(g, p, t, t) && Laws(g, u, g.neg(u), u);
      InverseUnique(g, g.add(g.neg(u), p), t);
      if n == -1 {
        assert Laws(g, g.zero, g.zero, g.zero);
        InverseUnique(g, g.zero, g.zero);
      }
    }
  }

  lemma {:induction false} MulAdd<P(!new)>(g: Group<P>, m: int, n: int, p: P)
    requires Abelian(g)
    ensures Mul(g, m + n, p) == g.add(Mul(g, m, p), Mul(g, n, p))
    decreases if n >= 0 then n else -n
  {
    var x := Mul(g, m, p);
    if n == 0 {
      assert Laws(g, x, x, x);
    } else if n > 0 {
      MulAdd(g, m, n - 1, p);
      MulStep(g, m + n - 1, p);
      MulStep(g, n - 1, p);
      assert Laws(g, x, Mul(g, n - 1, p), p);
    } else {
      MulAdd(g, m, n + 1, p);
      MulStep(g, m + n, p);
      MulStep(g, n, p);
      assert Laws(g, x, Mul(g, n, p), p);
      Cancel(g, Mul(g, m + n, p), g.add(x, Mul(g, n, p)), p);
    }
  }

  lemma {:induction false} MulNeg<P(!new)>(g: Group<P>, n: int, p: P)
    requires Abelian(g)
    ensures Mul(g, -n, p) == g.neg(Mul(g, n, p))
  {
    MulAdd(g, -n, n, p);
    InverseUnique(g, Mul(g, -n, p), Mul(g, n, p));
  }

  lemma {:induction false} MulMul<P(!new)>(g: Group<P>, m: nat, n: int, p: P)
    requires Abelian(g)
    ensures Mul(g, m * n, p) == Mul(g, m, Mul(g, n, p))
  {
    if m > 0 {
      MulMul(g, m - 1, n, p);
      assert m * n == (m - 1) * n + n;
      MulAdd(g, (m - 1) * n, n, p);
      MulStep(g, m - 1, Mul(g, n, p));
    } else {
      assert m * n == 0;
    }
  }
}
