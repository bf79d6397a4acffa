/** The greatest factorial of a machine word, found with a multiply-then-divide overflow test. */
module Factorial {

  const WORD_MIN: int := -0x8000_0000
  const WORD_MAX: int := 0x7fff_ffff

  predicate Fits(x: int) { WORD_MIN <= x <= WORD_MAX }

  type Word = x: int | WORD_MIN <= x <= WORD_MAX

  // --- The two instructions -------------------------------------------------------------------

  /** The low 32 bits of a number, read as a word. */
  function Wrap(p: int): Word {
    (p + 0x8000_0000) % 0x1_0000_0000 - 0x8000_0000
  }

  function Mul(a: Word, b: Word): Word {
    Wrap(a * b)
  }

  function Abs(x: int): (r: nat) {
    if x < 0 then -x else x
  }

  function Quotient(a: nat, b: nat): (q: nat)
    requires b > 0
    ensures q * b <= a < q * b + b
  {
    a / b
  }

  /** Division that truncates towards zero. */
  function Truncated(a: int, b: int): int
    requires b != 0
  {
    var q: int := Quotient(Abs(a), Abs(b));
    if (a < 0) == (b < 0) then q else -q
  }

  /** Signed division never traps: by zero it gives -1, and the one quotient too large for a
      word gives the dividend back. */
  function Div(a: Word, b: Word): Word {
    if b == 0 then -1
    else if a == WORD_MIN && b == -1 then WORD_MIN
    else
      TruncatedFits(a, b);
      Truncated(a, b)
  }

  lemma TruncatedFits(a: Word, b: Word)
    requires b != 0 && !(a == WORD_MIN && b == -1)
    ensures Fits(Truncated(a, b))
  {
    QuotientShrinks(Quotient(Abs(a), Abs(b)), Abs(a), Abs(b));
  }

  lemma QuotientShrinks(q: nat, a: nat, b: nat)
    requires b > 0 && q * b <= a
    ensures q <= a && (b > 1 ==> 2 * q <= a)
  {
    assert q <= q * b;
    if b > 1 {
      assert q * b == 2 * q + q * (b - 2);
    }
  }

  /** The product is right modulo 2^32. */
  lemma MulIs(a: Word, b: Word)
    ensures (a * b - Mul(a, b)) % 0x1_0000_0000 == 0
  {
    WrapIs(a * b);
  }

  lemma WrapIs(p: int)
    ensures (p - Wrap(p)) % 0x1_0000_0000 == 0
  {
  }

  /** What division leaves over is smaller than the divisor and has the dividend's sign, which is
      what truncation means; and the two cases without such a quotient. */
  lemma DivIs(a: Word, b: Word)
    ensures b == 0 ==> Div(a, b) == -1
    ensures a == WORD_MIN && b == -1 ==> Div(a, b) == WORD_MIN
    ensures b != 0 && !(a == WORD_MIN && b == -1) ==>
      var rest := a - Div(a, b) * b;
      Abs(rest) < Abs(b) && (a >= 0 ==> rest >= 0) && (a <= 0 ==> rest <= 0)
  {
    if b != 0 && !(a == WORD_MIN && b == -1) {
      SignsOut(Quotient(Abs(a), Abs(b)), b);
    }
  }

  // --- The test -------------------------------------------------------------------------------

  function CheckOverflow(n: Word, f: Word): (a0: int) {
    if Div(Mul(n, f), n) != f then 1 else 0
  }

  lemma SignsOut(q: int, b: int)
    ensures (-q) * b == -(q * b) && q * (-b) == -(q * b)
  {
  }

  /** What truncation leaves over is smaller than the divisor. */
  lemma TruncatedRemainder(a: int, b: int)
    requires b != 0
    ensures Abs(a - Truncated(a, b) * b) < Abs(b)
  {
    SignsOut(Quotient(Abs(a), Abs(b)), b);
  }

  /** The quotient is the only number of the dividend's sign that leaves so little over. */
  lemma TruncatedExact(a: int, q: int, b: int)
    requires b != 0 && a == q * b
    ensures Truncated(a, b) == q
  {
    TruncatedRemainder(a, b);
    CloseMultiples(q, Truncated(a, b), b);
  }

  lemma CloseMultiples(q: int, t: int, b: int)
    requires Abs(q * b - t * b) < Abs(b)
    ensures t == q
  {
    assert q * b - t * b == (q - t) * b;
    SmallMultiple(q - t, b);
  }

  lemma SmallMultiple(d: int, b: int)
    requires Abs(d * b) < Abs(b)
    ensures d == 0
  {
    if d > 0 {
      SmallPositive(d, b);
    } else if d < 0 {
      SignsOut(d, b);
      SmallPositive(-d, b);
    }
  }

  lemma SmallPositive(d: int, b: int)
    requires d > 0 && b != 0
    ensures Abs(d * b) >= Abs(b)
  {
    assert d * b == (d - 1) * b + b;
    if b > 0 {
      assert (d - 1) * b >= 0;
    } else {
      assert (d - 1) * b <= 0;
    }
  }

  lemma UnwrappedProduct(n: Word, f: Word)
    requires Fits(n * f)
    ensures Mul(n, f) == n * f
  {
    WrapFits(n * f);
  }

  lemma WrapFits(p: int)
    requires Fits(p)
    ensures Wrap(p) == p
  {
  }

  lemma WrapMovesFar(p: int)
    requires !Fits(p)
    ensures Abs(Wrap(p) - p) >= 0x1_0000_0000
  {
  }

  /** A wrapped product is off by at least 2^32, which no word can leave over as a remainder. */
  lemma WrappedGivesItselfAway(n: Word, f: Word)
    requires n != 0 && !Fits(n * f)
    ensures Truncated(Mul(n, f), n) != f
  {
    TruncatedRemainder(Mul(n, f), n);
    WrapMovesFar(n * f);
    assert f * n == n * f;
  }

  /** The test is exact on all words but two families: a zero factor, where only -1 passes, and
      the one pair whose product and quotient both wrap. */
  lemma CheckExactIff(n: Word, f: Word)
    ensures (CheckOverflow(n, f) == 0 <==> Fits(n * f)) <==> !((n == 0 && f != -1) || (n == -1 && f == WORD_MIN))
  {
    if n == 0 {
      UnwrappedProduct(n, f);
    } else if n == -1 && f == WORD_MIN {
      assert Mul(n, f) == WORD_MIN;
    } else if Fits(n * f) {
      UnwrappedProduct(n, f);
      assert n * f == f * n;
      TruncatedExact(n * f, f, n);
      assert n == -1 ==> n * f + f == 0;
    } else {
      WrappedGivesItselfAway(n, f);
      assert n == -1 ==> n * f + f == 0;
    }
  }

  /** The use the program makes of it. */
  lemma CheckExact(n: Word, f: Word)
    requires n > 0
    ensures CheckOverflow(n, f) == if Fits(n * f) then 0 else 1
  {
    CheckExactIff(n, f);
  }

  // --- The search -----------------------------------------------------------------------------

  function Fact(n: nat): nat {
    if n == 0 then 1 else n * Fact(n - 1)
  }

  lemma {:induction false} FactPositive(n: nat)
    ensures Fact(n) >= 1
  {
    if n > 0 {
      FactPositive(n - 1);
      assert n * Fact(n - 1) >= 1;
    }
  }

  lemma {:induction false} FactMonotone(m: nat, n: nat)
    requires m <= n
    ensures Fact(m) <= Fact(n)
    decreases n
  {
    if m < n {
      FactMonotone(m, n - 1);
      FactPositive(n - 1);
      assert n * Fact(n - 1) >= Fact(n - 1);
    }
  }

  /** From two on, every factorial is at least twice the last. */
  lemma FactDoubles(n: nat)
    requires n >= 2
    ensures Fact(n) >= 2 * Fact(n - 1) >= 2
  {
    FactPositive(n - 1);
    assert n * Fact(n - 1) >= 2 * Fact(n - 1);
  }

  predicate GreatestFitting(n: nat) {
    Fits(Fact(n)) && !Fits(Fact(n + 1))
  }

  /** Nothing above fits either, so n bounds all the arguments that fit. */
  lemma GreatestMeans(n: nat, m: nat)
    requires GreatestFitting(n)
    ensures Fits(Fact(m)) <==> m <= n
  {
    FactPositive(m);
    if m <= n {
      FactMonotone(m, n);
    } else {
      FactPositive(n + 1);
      FactMonotone(n + 1, m);
    }
  }

  lemma TwelveIsGreatest()
    ensures GreatestFitting(12) && Fact(12) == 479001600
  {
    assert Fact(6) == 720;
    assert Fact(12) == 12 * (11 * (10 * (9 * (8 * (7 * Fact(6))))));
    assert Fact(13) == 13 * Fact(12);
  }

  /** The loop ends, with the greatest argument whose factorial fits and that factorial. */
  method FactorialSearch() returns (a0: Word, a1: Word)
    ensures a0 == 12 && a1 == Fact(12)
    ensures forall m: nat :: Fits(Fact(m)) <==> m <= a0
  {
    var t0: Word, t1: Word := 1, 1;
    var overflow := 0;
    TwelveIsGreatest();
    while true
      invariant 1 <= t0 && t1 == Fact(t0)
      decreases WORD_MAX - t1
    {
      FactDoubles(t0 + 1);
      GreatestMeans(12, t0);
      t0 := t0 + 1;
      CheckExact(t0, t1);
      overflow := CheckOverflow(t0, t1);
      if overflow != 0 {
        break;
      }
      UnwrappedProduct(t0, t1);
      t1 := Mul(t1, t0);
    }
    a0 := t0 - 1;
    a1 := t1;
    forall m: nat ensures Fits(Fact(m)) <==> m <= 12 {
      GreatestMeans(12, m);
    }
    GreatestMeans(12, t0);
    GreatestMeans(12, t0 - 1);
  }
}
