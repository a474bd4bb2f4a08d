/**
 Python's `round(n / d)` for natural numbers, as it is computed: the quotient rounded to 53 binary
 digits (IEEE 754 binary64, ties to even), then rounded to an integer (ties to even). Exponents
 are unbounded.
 */
module Binary64 {
  const TWO_52: nat := 0x10_0000_0000_0000
  const TWO_53: nat := 0x20_0000_0000_0000

  /** `n * 2^k` */
  function Shift(n: nat, k: nat): nat {
    if k == 0 then n else 2 * Shift(n, k - 1)
  }

  /** Quotient and remainder. */
  function DivMod(n: nat, d: nat): (nat, nat)
    requires d > 0
  {
    if n < d then (0, n)
    else
      var (q, rest) := DivMod(n - d, d);
      (q + 1, rest)
  }

  /** The integer nearest to `n / d`, the even one when two are equally near. */
  function Nearest(n: nat, d: nat): nat
    requires d > 0
  {
    var (q, rest) := DivMod(n, d);
    if 2 * rest < d || (2 * rest == d && q % 2 == 0) then q else q + 1
  }

  /** `mantissa * 2^(up - down)`, where at least one of the two exponents is zero. */
  datatype Float = Float(mantissa: nat, up: nat, down: nat)

  /** How often the quotient has to be doubled to have 53 digits before the point. */
  function Doublings(n: nat, d: nat): nat
    requires n > 0 && d > 0
    decreases TWO_52 * d - n
  {
    if n >= TWO_52 * d then 0 else 1 + Doublings(2 * n, d)
  }

  /** How often it has to be halved to have no more than 53. */
  function Halvings(n: nat, d: nat): nat
    requires d > 0
    decreases n - d
  {
    if n < TWO_53 * d then 0 else 1 + Halvings(n, 2 * d)
  }

  /** `n / d` */
  function Divide(n: nat, d: nat): Float
    requires d > 0
  {
    if n == 0 then Float(0, 0, 0)
    else
      var (down, up) := (Doublings(n, d), Halvings(n, d));
      ShiftPositive(d, up);
      Float(Nearest(Shift(n, down), Shift(d, up)), up, down)
  }

  /** `round(f)` */
  function Round(f: Float): nat {
    ShiftPositive(1, f.down);
    Nearest(Shift(f.mantissa, f.up), Shift(1, f.down))
  }

  lemma {:induction false} ShiftPositive(n: nat, k: nat)
    requires n > 0
    ensures Shift(n, k) >= n
  {
    if k > 0 {
      ShiftPositive(n, k - 1);
    }
  }

  lemma {:induction false} ShiftIs(n: nat, k: nat)
    ensures Shift(n, k) == n * Shift(1, k)
  {
    if k > 0 {
      ShiftIs(n, k - 1);
    }
  }

  lemma {:induction false} ShiftInside(n: nat, k: nat)
    ensures Shift(2 * n, k) == 2 * Shift(n, k)
  {
    if k > 0 {
      ShiftInside(n, k - 1);
    }
  }

  // Scaling

  /** At least `k` doublings as long as `k - 1` of them do not reach the digits. */
  lemma {:induction false} ManyDoublings(n: nat, d: nat, k: nat)
    requires n > 0 && d > 0 && k > 0 && Shift(n, k - 1) < TWO_52 * d
    ensures Doublings(n, d) >= k
    decreases k
  {
    ShiftPositive(n, k - 1);
    if k > 1 {
      ShiftInside(n, k - 2);
      ManyDoublings(2 * n, d, k - 1);
    }
  }

  lemma {:induction false} HalvingsIs(n: nat, d: nat)
    requires d > 0 && n >= TWO_53 * d
    ensures n >= TWO_52 * Shift(d, Halvings(n, d))
    decreases n - d
  {
    var k := Halvings(n, 2 * d);
    ShiftInside(d, k);
    if n >= TWO_53 * (2 * d) {
      HalvingsIs(n, 2 * d);
    }
  }

  // Rounding

  lemma {:induction false} DivModIs(n: nat, d: nat)
    requires d > 0
    ensures var (q, rest) := DivMod(n, d); n == d * q + rest && rest < d
  {
    if n >= d {
      DivModIs(n - d, d);
      assert d * (DivMod(n - d, d).0 + 1) == d * DivMod(n - d, d).0 + d;
    }
  }

  lemma {:induction false} DivModOf(d: nat, q: nat, rest: nat)
    requires rest < d
    ensures DivMod(d * q + rest, d) == (q, rest)
  {
    if q > 0 {
      assert d * q == d * (q - 1) + d;
      DivModOf(d, q - 1, rest);
    }
  }

  ghost predicate Within(x: int, bound: nat) { x <= bound && -x <= bound }

  lemma NearestIs(n: nat, d: nat)
    requires d > 0
    ensures Within(2 * (d * Nearest(n, d) - n), d)
  {
    DivModIs(n, d);
    assert d * (DivMod(n, d).0 + 1) == d * DivMod(n, d).0 + d;
  }

  lemma NearestExact(d: nat, m: nat)
    requires d > 0
    ensures Nearest(d * m, d) == m
  {
    DivModOf(d, m, 0);
  }

  lemma NearestHalf(d: nat, m: nat)
    requires d > 0
    ensures Nearest(d * (2 * m + 1), 2 * d) % 2 == 0
  {
    assert d * (2 * m + 1) == (2 * d) * m + d;
    DivModOf(2 * d, m, d);
  }

  lemma MulMonotone(d: nat, x: int, y: int)
    requires x <= y
    ensures d * x <= d * y
  {
  }

  lemma AtMost(p: nat, x: int)
    requires p > 0 && p * x <= 50 * p + 50
    ensures x <= 100 && (p > 5 && x % 10 == 0 ==> x <= 50)
  {
    if x > 100 {
      MulMonotone(p, 101, x);
    } else if p > 5 && x % 10 == 0 && x > 50 {
      MulMonotone(p, 60, x);
    }
  }

  lemma ErrorProduct(n: nat, p: nat, q: nat, r: nat, x: int)
    requires Within(2 * (100 * q - n * p), 100) && Within(2 * (p * r - q), p) && x == 100 * r - n
    ensures Within(p * x, 50 * p + 50)
  {
    assert p * x == 100 * (p * r) - n * p;
  }

  lemma ErrorBound(p: nat, x: int)
    requires p > 0 && Within(p * x, 50 * p + 50)
    ensures Within(x, 100) && (p > 5 && x % 10 == 0 ==> Within(x, 50))
  {
    AtMost(p, x);
    assert p * -x == -(p * x);
    AtMost(p, -x);
  }

  lemma TenthsOf(n: nat, r: nat, x: int)
    requires x == 100 * r - n
    ensures n % 10 == 0 ==> x % 10 == 0
  {
  }

  lemma ErrorTotal(n: nat, p: nat, q: nat, r: nat)
    requires p > 0 && Within(2 * (100 * q - n * p), 100) && Within(2 * (p * r - q), p)
    ensures Within(100 * r - n, 100) && (p > 5 && n % 10 == 0 ==> Within(100 * r - n, 50))
  {
    var x := 100 * r - n;
    ErrorProduct(n, p, q, r, x);
    ErrorBound(p, x);
    TenthsOf(n, r, x);
  }

  /** What two roundings of `n / 100`, to multiples of `1 / p` and to integers, leave as an error,
      in hundredths. */
  lemma TwoRoundings(n: nat, p: nat, scaled: nat, r: nat)
    requires p > 0 && scaled == n * p && r == Nearest(Nearest(scaled, 100), p)
    ensures Within(100 * r - n, 100) && (p > 5 && n % 10 == 0 ==> Within(100 * r - n, 50))
  {
    var q := Nearest(scaled, 100);
    NearestIs(scaled, 100);
    NearestIs(q, p);
    ErrorTotal(n, p, q, r);
  }

  // round(n / 100)

  /** `round(n / 100)` */
  function Rounded(n: nat): nat { Round(Divide(n, 100)) }

  /** Below 2^53 there is no halving, so these are the two roundings. */
  lemma RoundedTwice(n: nat, k: nat)
    requires 0 < n < TWO_53 * 100 && k == Doublings(n, 100)
    ensures Shift(1, k) > 0
    ensures Rounded(n) == Nearest(Nearest(Shift(n, k), 100), Shift(1, k))
  {
    ShiftPositive(1, k);
    assert Halvings(n, 100) == 0;
  }

  lemma ThreePlaces(n: nat)
    requires n > 0 && 4 * n < TWO_52 * 100
    ensures Doublings(n, 100) >= 3 && Shift(1, Doublings(n, 100)) >= 8
  {
    assert Shift(n, 1) == 2 * n && Shift(n, 2) == 4 * n;
    assert Shift(1, 1) == 2 && Shift(1, 2) == 4 && Shift(1, 3) == 8;
    ManyDoublings(n, 100, 3);
    ShiftMonotone(3, Doublings(n, 100));
  }

  lemma {:induction false} ShiftMonotone(j: nat, k: nat)
    requires j <= k
    ensures Shift(1, j) <= Shift(1, k)
  {
    if j < k {
      ShiftMonotone(j, k - 1);
    }
  }

  /** The result is off by no more than one; on tenths and with three binary places to spare, by no
      more than a half. */
  lemma HundredthsBound(n: nat)
    requires n < TWO_53 * 100
    ensures var x := 100 * Rounded(n) - n;
            Within(x, 100) && (n % 10 == 0 && 4 * n < TWO_52 * 100 ==> Within(x, 50))
  {
    if n > 0 {
      var k := Doublings(n, 100);
      RoundedTwice(n, k);
      ShiftIs(n, k);
      TwoRoundings(n, Shift(1, k), Shift(n, k), Rounded(n));
      if 4 * n < TWO_52 * 100 {
        ThreePlaces(n);
      }
    } else {
      assert Rounded(0) == 0;
    }
  }

  /** A half is a binary fraction, so it is still a half after the first rounding and goes to the
      even side. */
  lemma HalvesGoEven(n: nat)
    requires n % 100 == 50 && 4 * n < TWO_52 * 100
    ensures Rounded(n) % 2 == 0
  {
    ThreePlaces(n);
    var k := Doublings(n, 100);
    RoundedTwice(n, k);
    ShiftIs(n, k);
    EvenOf(n, Shift(1, k - 1), Shift(n, k), Rounded(n));
  }

  lemma EvenOf(n: nat, h: nat, scaled: nat, r: nat)
    requires n % 100 == 50 && h > 0 && scaled == n * (2 * h) && r == Nearest(Nearest(scaled, 100), 2 * h)
    ensures r % 2 == 0
  {
    var m := n / 100;
    assert n == 100 * m + 50;
    assert n * (2 * h) == 100 * (h * (2 * m + 1));
    NearestExact(100, h * (2 * m + 1));
    NearestHalf(h, m);
  }

  /** Up to 2^50 the detour through binary64 does not show: tenths are rounded as they are. */
  lemma RoundsExactly(n: nat)
    requires n % 10 == 0 && 4 * n < TWO_52 * 100
    ensures Rounded(n) == Nearest(n, 100)
  {
    HundredthsBound(n);
    if n % 100 == 50 {
      HalvesGoEven(n);
    }
    OnlyNearest(n, Rounded(n));
  }

  lemma OnlyNearest(n: nat, r: nat)
    requires Within(100 * r - n, 50) && (n % 100 == 50 ==> r % 2 == 0)
    ensures r == Nearest(n, 100)
  {
    DivModIs(n, 100);
  }

  /** From 2^53 on the result is a rounded binary64 integer, relatively close. */
  lemma LargeError(n: nat)
    requires n >= TWO_53 * 100
    ensures 200 * (n - 100 * Rounded(n)) <= n
  {
    var up := Halvings(n, 100);
    var d := Shift(100, up);
    assert Doublings(n, 100) == 0;
    ShiftPositive(100, up);
    HalvingsIs(n, 100);
    var q := Nearest(n, d);
    NearestIs(n, d);
    ShiftIs(q, up);
    ShiftIs(100, up);
    assert d * q == 100 * Shift(q, up) by {
      assert (100 * Shift(1, up)) * q == 100 * (q * Shift(1, up));
    }
    NearestExact(1, Shift(q, up));
  }

  // The fee bump

  /** Beyond 2^50 it does show: at this fee the exact result `q` is one less than the computed one. */
  lemma RoundsDifferently(fee: nat, q: nat)
    requires fee == 1023545369856934 && q == 1125899906842627
    ensures Nearest(110 * fee, 100) == q && Rounded(110 * fee) == q + 1
  {
    var n := 110 * fee;
    assert n == 100 * q + 40;
    NearestDown(n, 100, q, 40);
    TwoDoublings(n);
    RoundedTwice(n, 2);
    NearestUp(4 * n, 100, 4 * q + 1, 60);
    NearestUp(4 * q + 2, 4, q, 2);
  }

  lemma TwoDoublings(n: nat)
    requires 2 * n < TWO_52 * 100 <= 4 * n
    ensures Doublings(n, 100) == 2 && Shift(n, 2) == 4 * n && Shift(1, 2) == 4
  {
    assert Doublings(2 * (2 * n), 100) == 0;
    assert Doublings(2 * n, 100) == 1;
    assert Shift(n, 1) == 2 * n && Shift(1, 1) == 2;
  }

  lemma NearestDown(n: nat, d: nat, q: nat, rest: nat)
    requires n == d * q + rest && 2 * rest < d
    ensures Nearest(n, d) == q
  {
    DivModOf(d, q, rest);
  }

  lemma NearestUp(n: nat, d: nat, q: nat, rest: nat)
    requires n == d * q + rest && rest < d && (2 * rest > d || (2 * rest == d && q % 2 == 1))
    ensures Nearest(n, d) == q + 1
  {
    DivModOf(d, q, rest);
  }

  ghost predicate CloseTo(fee: nat, r: nat) {
    if fee < 100 then Within(100 * r - 110 * fee, 50) && (fee == 5 ==> r % 2 == 0)
    else 100 * r >= 110 * fee - 100 || 200 * (110 * fee - 100 * r) <= 110 * fee
  }

  lemma RoundedFee(fee: nat, n: nat)
    requires n == 110 * fee
    ensures CloseTo(fee, Rounded(n))
  {
    if fee < 100 {
      SmallFee(fee, n);
    } else if n < TWO_53 * 100 {
      HundredthsBound(n);
    } else {
      LargeError(n);
    }
  }

  lemma SmallFee(fee: nat, n: nat)
    requires n == 110 * fee && fee < 100
    ensures Within(100 * Rounded(n) - 110 * fee, 50) && (fee == 5 ==> Rounded(n) % 2 == 0)
  {
    assert n % 10 == 0;
    HundredthsBound(n);
    if fee == 5 {
      HalvesGoEven(n);
    }
  }

  lemma CloseIsEnough(fee: nat, r: nat)
    requires CloseTo(fee, r)
    ensures 20 * r >= 21 * fee <==> fee == 0 || fee >= 5
    ensures fee < 5 <==> r == fee
  {
  }

  /** As computed, and for every fee however large: a replacement has to raise a fee by at least a
      twentieth exactly when the fee is at least five (or nothing). */
  lemma ComputedBump(fee: nat)
    ensures 20 * Rounded(110 * fee) >= 21 * fee <==> fee == 0 || fee >= 5
    ensures fee < 5 <==> Rounded(110 * fee) == fee
  {
    RoundedFee(fee, 110 * fee);
    CloseIsEnough(fee, Rounded(110 * fee));
  }
}
