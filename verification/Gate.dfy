/**
 The disappearance gate's compounding rate (pipeline.ts), over exact reals and whole days. The daily rate
 is the root the code takes with `**`: the one number whose survival, compounded daily, leaves the share
 that survived.
 */
module Gate {
  import opened Prelude

  const DISAPPEARANCE_GATE_FLOOR: nat := 100

  function Pow(x: real, n: nat): real { if n == 0 then 1.0 else x * Pow(x, n - 1) }

  function Days(gap: nat): nat { if gap == 0 then 1 else gap }

  function Share(present: nat, disappearing: nat): real
    requires present > 0
  {
    var share := disappearing as real / present as real;
    if share < 1.0 then share else 1.0
  }

  /** `x` is `dailyDisappearanceRate(present, disappearing, gap)`. */
  predicate IsDailyRate(x: real, present: nat, disappearing: nat, gap: nat) {
    if present == 0 || disappearing == 0 then x == 0.0
    else 0.0 <= x <= 1.0 && Pow(1.0 - x, Days(gap)) == 1.0 - Share(present, disappearing)
  }

  predicate Refuses(x: real, disappearing: nat, maxDailyRate: real) {
    disappearing >= DISAPPEARANCE_GATE_FLOOR && x > maxDailyRate
  }

  // ---------- powers ----------

  lemma {:induction false} PowRange(x: real, n: nat)
    requires 0.0 <= x <= 1.0
    ensures 0.0 <= Pow(x, n) <= 1.0
    ensures n >= 1 ==> Pow(x, n) <= x
  {
    if n > 0 {
      PowRange(x, n - 1);
      ScaleDown(x, Pow(x, n - 1));
    }
  }

  lemma ScaleDown(x: real, y: real)
    requires 0.0 <= x && 0.0 <= y <= 1.0
    ensures 0.0 <= x * y <= x
  {
    assert x * y + x * (1.0 - y) == x;
  }

  lemma ProductGrows(a: real, b: real, c: real, d: real)
    requires 0.0 <= a < b && 0.0 <= c <= d && d > 0.0
    ensures a * c < b * d
  {
    assert a * c <= a * d by { assert a * (d - c) >= 0.0; }
    assert a * d < b * d by { assert (b - a) * d > 0.0; }
  }

  lemma {:induction false} PowGrows(x: real, y: real, n: nat)
    requires 0.0 <= x < y && n >= 1
    ensures 0.0 <= Pow(x, n) < Pow(y, n)
  {
    if n == 1 {
      assert Pow(x, 1) == x * Pow(x, 0) == x && Pow(y, 1) == y * Pow(y, 0) == y;
    } else {
      PowGrows(x, y, n - 1);
      ProductGrows(x, y, Pow(x, n - 1), Pow(y, n - 1));
    }
  }

  lemma {:induction false} PowAdd(x: real, m: nat, n: nat)
    ensures Pow(x, m + n) == Pow(x, m) * Pow(x, n)
  {
    if m > 0 {
      PowAdd(x, m - 1, n);
      assert x * (Pow(x, m - 1) * Pow(x, n)) == (x * Pow(x, m - 1)) * Pow(x, n);
    }
  }

  /** Bernoulli's inequality, for a loss of `y` a day. */
  lemma {:induction false} Bernoulli(y: real, n: nat)
    requires 0.0 <= y <= 1.0
    ensures Pow(1.0 - y, n) >= 1.0 - n as real * y
  {
    if n > 0 {
      Bernoulli(y, n - 1);
      PowRange(1.0 - y, n - 1);
      var p := Pow(1.0 - y, n - 1);
      ScaleDown(y, p);
      assert (1.0 - y) * p == p - y * p;
      assert n as real == (n - 1) as real + 1.0;
      assert n as real * y == (n - 1) as real * y + y;
    }
  }

  // ---------- the rate ----------

  lemma Products(u: real, v: real)
    requires v > 0.0
    ensures (u >= 0.0 ==> u * v >= 0.0) && (u > 0.0 ==> u * v > 0.0) && (u < 0.0 ==> u * v < 0.0)
  {
  }

  /** Comparing with a quotient is comparing with the numerator. */
  lemma Quotient(y: real, a: real, p: real)
    requires p > 0.0
    ensures (y <= a / p <==> y * p <= a) && (y < a / p <==> y * p < a)
  {
    var q := a / p;
    assert q * p == a && (q - y) * p == q * p - y * p;
    Products(q - y, p);
  }

  lemma ShareRange(present: nat, disappearing: nat)
    requires present > 0
    ensures 0.0 <= Share(present, disappearing) <= 1.0
    ensures disappearing > 0 <==> Share(present, disappearing) > 0.0
    ensures disappearing <= present ==> Share(present, disappearing) * present as real == disappearing as real
  {
    Quotient(0.0, disappearing as real, present as real);
    Quotient(1.0, disappearing as real, present as real);
  }

  /** The rate exceeds `r` exactly when fewer survived than `r` a day, compounded, would leave. */
  lemma ExceedsExactly(x: real, present: nat, disappearing: nat, gap: nat, r: real)
    requires present > 0 && IsDailyRate(x, present, disappearing, gap) && 0.0 <= r <= 1.0
    ensures x > r <==> 1.0 - Share(present, disappearing) < Pow(1.0 - r, Days(gap))
  {
    ShareRange(present, disappearing);
    if disappearing == 0 {
      PowRange(1.0 - r, Days(gap));
    } else if x > r {
      PowGrows(1.0 - x, 1.0 - r, Days(gap));
    } else if x < r {
      PowGrows(1.0 - r, 1.0 - x, Days(gap));
    }
  }

  lemma RateIsOne(x: real, y: real, present: nat, disappearing: nat, gap: nat)
    requires IsDailyRate(x, present, disappearing, gap) && IsDailyRate(y, present, disappearing, gap)
    ensures x == y
  {
    if present > 0 && disappearing > 0 {
      if x < y { PowGrows(1.0 - y, 1.0 - x, Days(gap)); }
      if y < x { PowGrows(1.0 - x, 1.0 - y, Days(gap)); }
    }
  }

  /** Never below the plain share over days, which ignores the shrinking pool. */
  lemma NeverBelowPlainRate(x: real, present: nat, disappearing: nat, gap: nat)
    requires present > 0 && IsDailyRate(x, present, disappearing, gap)
    ensures x * Days(gap) as real >= Share(present, disappearing)
  {
    ShareRange(present, disappearing);
    if disappearing > 0 {
      Bernoulli(x, Days(gap));
    }
  }

  /** It rises with what was lost. */
  lemma RisesWithLosses(x: real, y: real, present: nat, fewer: nat, more: nat, gap: nat)
    requires present > 0 && fewer < more <= present
    requires IsDailyRate(x, present, fewer, gap) && IsDailyRate(y, present, more, gap)
    ensures x < y
  {
    ShareRange(present, fewer);
    ShareRange(present, more);
    Quotient(Share(present, fewer), more as real, present as real);
    Quotient(1.0, more as real, present as real);
    if fewer > 0 && y <= x {
      if y < x { PowGrows(1.0 - x, 1.0 - y, Days(gap)); }
    } else if fewer == 0 && y <= 0.0 {
      OneToThe(Days(gap));
    }
  }

  lemma {:induction false} OneToThe(n: nat)
    ensures Pow(1.0, n) == 1.0
  {
    if n > 0 { OneToThe(n - 1); }
  }

  lemma PowFalls(x: real, m: nat, n: nat)
    requires 0.0 <= x <= 1.0
    ensures Pow(x, m + n) <= Pow(x, m)
  {
    PowAdd(x, m, n);
    PowRange(x, m);
    PowRange(x, n);
    ScaleDown(Pow(x, m), Pow(x, n));
  }

  /** And falls, or stays, as the gap it is spread over grows. */
  lemma FallsWithDays(x: real, y: real, present: nat, disappearing: nat, gap: nat, longer: nat)
    requires present > 0 && gap <= longer
    requires IsDailyRate(x, present, disappearing, gap) && IsDailyRate(y, present, disappearing, longer)
    ensures y <= x
  {
    if disappearing > 0 && x < y {
      PowGrows(1.0 - y, 1.0 - x, Days(gap));
      PowFalls(1.0 - y, Days(gap), Days(longer) - Days(gap));
    }
  }
}
