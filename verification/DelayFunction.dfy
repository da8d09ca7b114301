/**
 The Wesolowski verifiable delay function of the cMix layer. `BigUint` values are naturals and
 `modpow` is exponentiation followed by a remainder.
 */
module DelayFunction {

  /** The public prime 2^128 + 51 shared by prover and verifier. */
  const L_PRIME: nat := 340282366920938463463374607431768211507

  function Pow(x: nat, e: nat): nat
  {
    if e == 0 then 1 else x * Pow(x, e - 1)
  }

  function ModPow(x: nat, e: nat, n: nat): nat
    requires n > 0
  {
    Pow(x, e) % n
  }

  // ---------- Arithmetic of powers and remainders ----------

  lemma {:induction false} PowAdd(x: nat, a: nat, b: nat)
    ensures Pow(x, a + b) == Pow(x, a) * Pow(x, b)
    decreases a
  {
    if a == 0 {
    } else {
      PowAdd(x, a - 1, b);
      Associate(x, Pow(x, a - 1), Pow(x, b));
    }
  }

  lemma {:induction false} PowMul(x: nat, a: nat, b: nat)
    ensures Pow(x, a * b) == Pow(Pow(x, a), b)
    decreases b
  {
    if b == 0 {
    } else {
      PowMul(x, a, b - 1);
      Step(a, b);
      PowAdd(x, a, a * (b - 1));
    }
  }

  lemma Associate(x: int, y: int, z: int)
    ensures x * (y * z) == (x * y) * z
  {
  }

  lemma Step(a: int, b: int)
    ensures a * b == a + a * (b - 1)
  {
  }

  lemma Quotient(a: nat, n: nat)
    requires n > 0
    ensures a == n * (a / n) + a % n
  {
  }

  /** Adding a multiple of the modulus does not change the remainder. */
  lemma {:induction false} ShiftMod(a: nat, k: nat, n: nat)
    requires n > 0
    ensures (n * k + a) % n == a % n
    decreases k
  {
    if k == 0 {
    } else {
      ShiftMod(a, k - 1, n);
      Step(n, k);
      var b := n * (k - 1) + a;
      OneShift(b, n);
    }
  }

  lemma OneShift(b: nat, n: nat)
    requires n > 0
    ensures (b + n) % n == b % n
  {
    var q, r := b / n, b % n;
    Quotient(b, n);
    Step(n, q + 1);
    Unique(b + n, n, q + 1, r);
  }

  lemma Unique(b: nat, n: nat, q: nat, r: nat)
    requires n > 0 && r < n && b == n * q + r
    ensures b % n == r
  {
    Quotient(b, n);
    var q' := b / n;
    if q < q' {
      Gap(n, q, q');
    } else if q' < q {
      Gap(n, q', q);
    }
  }

  lemma Gap(n: nat, a: nat, b: nat)
    requires a < b
    ensures n * a + n <= n * b
  {
    var k := b - a - 1;
    GapSum(n, a, k);
  }

  lemma GapSum(n: nat, a: nat, k: nat)
    ensures n * (a + k + 1) == n * a + n * k + n
    ensures n * k >= 0
  {
  }

  /** A factor may be reduced before multiplying. */
  lemma MulMod(a: nat, b: nat, n: nat)
    requires n > 0
    ensures (a % n) * b % n == a * b % n
    ensures b * (a % n) % n == a * b % n
  {
    var q, r := a / n, a % n;
    Quotient(a, n);
    Expand(n, q, r, b);
    ShiftMod(r * b, q * b, n);
  }

  lemma Expand(n: nat, q: nat, r: nat, b: nat)
    ensures (n * q + r) * b == n * (q * b) + r * b
  {
    assert (n * q + r) * b == (n * q) * b + r * b;
    Associate(n, q, b);
  }

  lemma {:induction false} PowMod(x: nat, e: nat, n: nat)
    requires n > 0
    ensures Pow(x % n, e) % n == Pow(x, e) % n
    decreases e
  {
    if e == 0 {
    } else {
      var y := x % n;
      PowMod(x, e - 1, n);
      MulMod(Pow(y, e - 1), y, n);
      MulMod(Pow(x, e - 1), y, n);
      MulMod(x, Pow(x, e - 1), n);
    }
  }

  // ---------- Evaluation, proof, verification ----------

  /** What `t` squarings of `x` compute: nothing is reduced when there is no squaring at all. */
  function Output(x: nat, n: nat, t: nat): nat
    requires n > 0
  {
    if t == 0 then x else Pow(x, Pow(2, t)) % n
  }

  lemma SquareOutput(x: nat, n: nat, t: nat)
    requires n > 0
    ensures ModPow(Output(x, n, t), 2, n) == Output(x, n, t + 1)
    ensures Output(x, n, t) * Output(x, n, t) % n == Output(x, n, t + 1)
  {
    var p := Pow(2, t);
    assert Pow(2, t + 1) == 2 * p;
    PowMul(x, p, 2);
    var y := Output(x, n, t);
    Square(y);
    if t != 0 {
      PowMod(Pow(x, p), 2, n);
    }
  }

  lemma Square(y: nat)
    ensures Pow(y, 2) == y * y
  {
    assert Pow(y, 2) == y * Pow(y, 1) == y * (y * Pow(y, 0));
  }

  /** Repeated squaring through `modpow`. */
  method Eval(x: nat, n: nat, t: nat) returns (y: nat)
    requires n > 0
    ensures y == Output(x, n, t)
  {
    y := x;
    for i := 0 to t
      invariant y == Output(x, n, i)
    {
      SquareOutput(x, n, i);
      y := ModPow(y, 2, n);
    }
  }

  /** Repeated squaring by multiplication and remainder: the same value as `Eval`. */
  method FastPow2(x: nat, n: nat, t: nat) returns (y: nat)
    requires n > 0
    ensures y == Output(x, n, t)
  {
    y := x;
    for i := 0 to t
      invariant y == Output(x, n, i)
    {
      SquareOutput(x, n, i);
      y := (y * y) % n;
    }
  }

  /** The proof element: `x` to the quotient of `2^t` by the prime. */
  function ProofElement(x: nat, n: nat, t: nat): nat
    requires n > 0
  {
    var r := Pow(2, t) % L_PRIME;
    Quotient(Pow(2, t), L_PRIME);
    var q := (Pow(2, t) - r) / L_PRIME;
    ModPow(x, q, n)
  }

  method Prove(x: nat, n: nat, t: nat) returns (y: nat, pi: nat)
    requires n > 0
    ensures y == Output(x, n, t) && pi == ProofElement(x, n, t)
    ensures Verify(x, y, pi, n, t) <==> t > 0 || x < n
  {
    y := Eval(x, n, t);
    pi := ProofElement(x, n, t);
    Completeness(x, n, t);
  }

  /** The faster prover returns the same pair, so its proofs verify under the same condition. */
  method ProveMont(x: nat, n: nat, t: nat) returns (y: nat, pi: nat)
    requires n > 0
    ensures y == Output(x, n, t) && pi == ProofElement(x, n, t)
    ensures Verify(x, y, pi, n, t) <==> t > 0 || x < n
  {
    y := FastPow2(x, n, t);
    pi := ProofElement(x, n, t);
    Completeness(x, n, t);
  }

  predicate Verify(x: nat, y: nat, pi: nat, n: nat, t: nat)
    requires n > 0
  {
    var r := Pow(2, t) % L_PRIME;
    var a := ModPow(pi, L_PRIME, n);
    var b := if r == 0 then 1 else ModPow(x, r, n);
    (a * b) % n == y
  }

  /** What the verifier accepts, for any claimed output and any proof element, honest or not. */
  lemma AcceptedProofs(x: nat, y: nat, pi: nat, n: nat, t: nat)
    requires n > 0
    ensures Verify(x, y, pi, n, t) <==> Pow(pi, L_PRIME) * Pow(x, Pow(2, t) % L_PRIME) % n == y
  {
    ResidueNonZero(t);
    ReduceBoth(Pow(pi, L_PRIME), Pow(x, Pow(2, t) % L_PRIME), n);
  }

  lemma ReduceBoth(a: nat, b: nat, n: nat)
    requires n > 0
    ensures (a % n) * (b % n) % n == a * b % n
  {
    MulMod(a, b % n, n);
    MulMod(b, a, n);
    assert b * a == a * b;
  }

  /** For an honest proof element, what the verifier computes is always `x^(2^t) mod n`. */
  lemma VerifierComputesPower(x: nat, n: nat, t: nat, y: nat)
    requires n > 0
    ensures Verify(x, y, ProofElement(x, n, t), n, t) <==> y == Pow(x, Pow(2, t)) % n
  {
    var e, pi := Pow(2, t), ProofElement(x, n, t);
    var r, q := e % L_PRIME, e / L_PRIME;
    Quotient(e, L_PRIME);
    ExactDivision(q, L_PRIME);
    assert pi == ModPow(x, q, n);
    PowMod(Pow(x, q), L_PRIME, n);
    PowMul(x, q, L_PRIME);
    var a, b := Pow(x, q * L_PRIME), Pow(x, r);
    PowAdd(x, q * L_PRIME, r);
    assert a * b == Pow(x, e);
    MulMod(a, b, n);
    MulMod(b, a % n, n);
  }

  lemma ExactDivision(q: nat, l: nat)
    requires l > 0
    ensures l * q / l == q
  {
    Quotient(l * q, l);
    Unique(l * q, l, q, 0);
    var q' := l * q / l;
    if q < q' {
      Gap(l, q, q');
    } else if q' < q {
      Gap(l, q', q);
    }
  }

  /**
   Honest proofs verify exactly when at least one squaring is done or the input is already
   reduced: with `t == 0` the evaluator returns `x` itself, which the verifier compares with
   `x mod n`.
   */
  lemma Completeness(x: nat, n: nat, t: nat)
    requires n > 0
    ensures Verify(x, Output(x, n, t), ProofElement(x, n, t), n, t) <==> t > 0 || x < n
  {
    VerifierComputesPower(x, n, t, Output(x, n, t));
    if t == 0 {
      assert Pow(x, 1) == x * Pow(x, 0) == x;
      Reduced(x, n);
    }
  }

  lemma Reduced(x: nat, n: nat)
    requires n > 0
    ensures x % n == x <==> x < n
  {
  }

  /** The smallest failing case: modulus 1, input 1, no squarings. */
  lemma UnreducedInputFails()
    ensures !Verify(1, Output(1, 1, 0), ProofElement(1, 1, 0), 1, 0)
  {
    Completeness(1, 1, 0);
  }

  /** The verifier's branch for a zero residue is never taken: the prime is odd. */
  lemma {:induction false} ResidueNonZero(t: nat)
    ensures Pow(2, t) % L_PRIME != 0
  {
    if t == 0 {
    } else {
      ResidueNonZero(t - 1);
      DoubleResidue(Pow(2, t - 1), L_PRIME);
    }
  }

  lemma DoubleResidue(m: nat, l: nat)
    requires l % 2 == 1 && m % l != 0
    ensures 2 * m % l != 0
  {
    var q, r := m / l, m % l;
    Quotient(m, l);
    assert 2 * m == l * (2 * q) + 2 * r by { assert l * (2 * q) == 2 * (l * q); }
    if 2 * r < l {
      Unique(2 * m, l, 2 * q, 2 * r);
    } else {
      Step(l, 2 * q + 1);
      Unique(2 * m, l, 2 * q + 1, 2 * r - l);
    }
  }
}
