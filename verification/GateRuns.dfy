/** Two runs of the gate in a row: when losses it lets through one by one it would let through as one. */
module GateRuns {
  import opened Prelude
  import opened Gate

  /** Within `r` a day: at least what `r` a day leaves of `present` survived. */
  predicate Within(present: nat, disappearing: nat, gap: nat, r: real) {
    Pow(1.0 - r, Days(gap)) * present as real <= present as real - disappearing as real
  }

  lemma WithinMeansRate(x: real, present: nat, disappearing: nat, gap: nat, r: real)
    requires 0 < present && disappearing <= present && IsDailyRate(x, present, disappearing, gap) && 0.0 <= r <= 1.0
    ensures Within(present, disappearing, gap, r) <==> x <= r
  {
    ExceedsExactly(x, present, disappearing, gap, r);
    ShareRange(present, disappearing);
    var p, k, s := present as real, Pow(1.0 - r, Days(gap)), Share(present, disappearing);
    assert (1.0 - s - k) * p == p - s * p - k * p;
    Products(1.0 - s - k, p);
  }

  /** In a population nothing joins, two consecutive losses within the rate are within it as one, over whole days. */
  lemma TwoLossesAsOne(present: nat, first: nat, second: nat, gap1: nat, gap2: nat, r: real)
    requires first + second <= present && gap1 >= 1 && gap2 >= 1 && 0.0 <= r <= 1.0
    requires Within(present, first, gap1, r) && Within(present - first, second, gap2, r)
    ensures Within(present, first + second, gap1 + gap2, r)
  {
    LeftAfter(present, first, second);
    ManyDays(gap1, gap2, r);
    Compounds(Pow(1.0 - r, gap1), Pow(1.0 - r, gap2), present as real, (present - first) as real, present as real - (first + second) as real);
  }

  lemma LeftAfter(present: nat, first: nat, second: nat)
    requires first + second <= present
    ensures (present - first) as real == present as real - first as real
    ensures (present - first) as real - second as real == present as real - (first + second) as real
  {
  }

  lemma ManyDays(gap1: nat, gap2: nat, r: real)
    requires gap1 >= 1 && gap2 >= 1 && 0.0 <= r <= 1.0
    ensures Pow(1.0 - r, Days(gap1 + gap2)) == Pow(1.0 - r, gap1) * Pow(1.0 - r, gap2) && 0.0 <= Pow(1.0 - r, gap2)
  {
    PowAdd(1.0 - r, gap1, gap2);
    PowRange(1.0 - r, gap2);
  }

  lemma Compounds(a: real, b: real, p: real, left: real, after: real)
    requires 0.0 <= b && a * p <= left && b * left <= after
    ensures (a * b) * p <= after
  {
    Monotone(b, a * p, left);
    assert (a * b) * p == b * (a * p);
  }

  lemma Monotone(b: real, u: real, v: real)
    requires 0.0 <= b && u <= v
    ensures b * u <= b * v
  {
  }

  /** Any two consecutive losses within a rate over these gaps are within it as one over both. */
  ghost predicate Composes(gap1: nat, gap2: nat) {
    forall present: nat, first: nat, second: nat, r: real :: PassAsOne(present, first, second, gap1, gap2, r)
  }

  predicate PassAsOne(present: nat, first: nat, second: nat, gap1: nat, gap2: nat, r: real) {
    first + second <= present && 0.0 <= r <= 1.0 && Within(present, first, gap1, r) && Within(present - first, second, gap2, r)
    ==> Within(present, first + second, gap1 + gap2, r)
  }

  function Doubled(n: nat): nat { if n == 0 then 1 else 2 * Doubled(n - 1) }

  lemma {:induction false} Halves(m: nat, n: nat)
    ensures Pow(0.5, m) * Doubled(m + n) as real == Doubled(n) as real
  {
    if m > 0 {
      Halves(m - 1, n);
      var p, d := Pow(0.5, m - 1), Doubled(m - 1 + n) as real;
      assert Doubled(m + n) as real == 2.0 * d;
      assert (0.5 * p) * (2.0 * d) == p * d;
    }
  }

  /** Halved every day, down to one: over gaps that add up to a day less than they count as, that is too much. */
  lemma HalvingParts(gap1: nat, gap2: nat)
    requires gap1 == 0 || gap2 == 0
    ensures !Composes(gap1, gap2)
  {
    var d1, d2 := Days(gap1), Days(gap2);
    var present, left := Doubled(d1 + d2), Doubled(d2);
    Halves(d1, d2);
    Halves(d2, 0);
    Halves(d1 + d2 - 1, 1);
    assert Days(gap1 + gap2) == d1 + d2 - 1;
    DoubledClimbs(d1, d2);
    assert Within(present, present - left, gap1, 0.5) && Within(left, left - 1, gap2, 0.5);
    assert !PassAsOne(present, present - left, left - 1, gap1, gap2, 0.5);
  }

  lemma {:induction false} DoubledClimbs(m: nat, n: nat)
    ensures 1 <= Doubled(n) <= Doubled(m + n)
    decreases m + n
  {
    if m > 0 { DoubledClimbs(m - 1, n); } else if n > 0 { DoubledClimbs(0, n - 1); }
  }

  /** Two losses pass as one exactly when both gaps are whole days: two runs in one day are each given a day of their own. */
  lemma ComposesExactly(gap1: nat, gap2: nat)
    ensures Composes(gap1, gap2) <==> gap1 >= 1 && gap2 >= 1
  {
    if gap1 >= 1 && gap2 >= 1 {
      forall present: nat, first: nat, second: nat, r: real ensures PassAsOne(present, first, second, gap1, gap2, r) {
        if first + second <= present && 0.0 <= r <= 1.0 && Within(present, first, gap1, r) && Within(present - first, second, gap2, r) {
          TwoLossesAsOne(present, first, second, gap1, gap2, r);
        }
      }
    } else {
      HalvingParts(gap1, gap2);
    }
  }

  /** At the default rate: 200 of 4000, then 190 of what is left, minutes apart. */
  lemma TwoRunsInOneDay()
    ensures Within(4000, 200, 0, 0.05) && Within(3800, 190, 0, 0.05) && !Within(4000, 390, 0, 0.05)
  {
    assert Pow(1.0 - 0.05, 1) == 0.95 * Pow(0.95, 0);
  }

  lemma {:induction false} PowStaysAbove(x: real, n: nat)
    requires x > 0.0
    ensures Pow(x, n) > 0.0
  {
    if n > 0 { PowStaysAbove(x, n - 1); }
  }

  /** Losing everyone is over every rate that any loss can be over. */
  lemma EveryoneIsOver(x: real, z: real, present: nat, gap1: nat, gap2: nat, r: real)
    requires present > 0 && 0.0 <= r <= 1.0
    requires IsDailyRate(x, present, present, gap1) && IsDailyRate(z, present, present, gap2) && z > r
    ensures x > r
  {
    ExceedsExactly(x, present, present, gap1, r);
    PowStaysAbove(1.0 - r, Days(gap1));
    assert Share(present, present) == 1.0;
  }

  /** At the gate itself: two losses it lets through are refused as one only if the floor excused one of them. */
  lemma TwoLossesAtTheGate(present: nat, first: nat, second: nat, gap1: nat, gap2: nat, r: real, x: real, y: real, z: real)
    requires first + second <= present && gap1 >= 1 && gap2 >= 1 && 0.0 <= r <= 1.0
    requires IsDailyRate(x, present, first, gap1) && IsDailyRate(y, present - first, second, gap2)
    requires IsDailyRate(z, present, first + second, gap1 + gap2)
    requires !Refuses(x, first, r) && !Refuses(y, second, r) && Refuses(z, first + second, r)
    ensures (first < DISAPPEARANCE_GATE_FLOOR && x > r) || (second < DISAPPEARANCE_GATE_FLOOR && y > r)
  {
    if first == present {
      EveryoneIsOver(x, z, present, gap1, gap1 + gap2, r);
    } else {
      WithinMeansRate(x, present, first, gap1, r);
      WithinMeansRate(y, present - first, second, gap2, r);
      WithinMeansRate(z, present, first + second, gap1 + gap2, r);
      if x <= r && y <= r { TwoLossesAsOne(present, first, second, gap1, gap2, r); }
    }
  }

  /** The floor does excuse such losses: most of a small source can go, 99 at a time. */
  lemma FloorExcuses()
    ensures !Within(300, 99, 1, 0.05) && !Within(300, 198, 2, 0.05)
    ensures forall x: real :: !Refuses(x, 99, 0.05)
  {
    assert Pow(1.0 - 0.05, 1) == 0.95 * Pow(0.95, 0);
    assert Pow(1.0 - 0.05, 2) == 0.95 * Pow(0.95, 1);
  }
}
