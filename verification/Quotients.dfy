/// Floor division by counting subtractions, and what the exact rational
/// arithmetic of the clock, the playout schedule and the blit needs of it.
module Quotients {
  import opened Basics

  /// How many times `n` goes into `x`.
  function Quot(x: nat, n: nat): nat
    requires n > 0
  {
    if x < n then 0 else Quot(x - n, n) + 1
  }

  lemma {:induction false} QuotIs(x: nat, n: nat)
    requires n > 0
    ensures Quot(x, n) == x / n
  {
    if x < n {
      ModIs(x, 0, x, n);
    } else {
      QuotIs(x - n, n);
      ModIs(x, (x - n) / n + 1, (x - n) % n, n);
    }
  }

  lemma {:induction false} QuotBounds(x: nat, n: nat)
    requires n > 0
    ensures Times(Quot(x, n), n) <= x < Times(Quot(x, n), n) + n
  {
    if x >= n { QuotBounds(x - n, n); }
  }

  /// The floor of a sum is the sum of the floors, or one more.
  lemma {:induction false} QuotOfSum(x: nat, y: nat, n: nat)
    requires n > 0
    ensures Quot(x, n) + Quot(y, n) <= Quot(x + y, n) <= Quot(x, n) + Quot(y, n) + 1
    decreases x + y
  {
    if x >= n {
      QuotOfSum(x - n, y, n);
    } else if y >= n {
      QuotOfSum(x, y - n, n);
    }
  }

  lemma QuotMonotone(x: nat, y: nat, n: nat)
    requires n > 0 && x <= y
    ensures Quot(x, n) <= Quot(y, n)
  {
    QuotOfSum(x, y - x, n);
  }

  /// Whole multiples come out of a quotient exactly.
  lemma {:induction false} QuotOfMultiple(k: nat, x: nat, n: nat)
    requires n > 0
    ensures Quot(Times(k, n) + x, n) == k + Quot(x, n)
  {
    if k > 0 { QuotOfMultiple(k - 1, x, n); }
  }

  lemma {:induction false} TimesAdds(a: nat, b: nat, k: nat)
    ensures Times(a + b, k) == Times(a, k) + Times(b, k)
    decreases b
  {
    if b > 0 { TimesAdds(a, b - 1, k); }
  }

  lemma {:induction false} TimesMonotone(a: nat, b: nat, k: nat)
    requires a <= b
    ensures Times(a, k) <= Times(b, k)
    decreases b
  {
    if a < b { TimesMonotone(a, b - 1, k); }
  }

  /// The floor of `t` steps of `unit / n` each.
  function Steps(t: nat, unit: nat, n: nat): nat
    requires n > 0
  {
    Quot(Times(t, unit), n)
  }

  lemma StepsIs(t: nat, unit: nat, n: nat)
    requires n > 0
    ensures Steps(t, unit, n) == t * unit / n
  {
    TimesIs(t, unit);
    QuotIs(Times(t, unit), n);
  }

  lemma StepsAdd(a: nat, b: nat, unit: nat, n: nat)
    requires n > 0
    ensures Steps(a, unit, n) + Steps(b, unit, n) <= Steps(a + b, unit, n) <= Steps(a, unit, n) + Steps(b, unit, n) + 1
  {
    TimesAdds(a, b, unit);
    QuotOfSum(Times(a, unit), Times(b, unit), n);
  }

  /// Many steps against many copies of one rounded step: what accumulating the
  /// rounded step would lose, less than one a step.
  lemma {:induction false} StepsDrift(t: nat, unit: nat, n: nat)
    requires n > 0
    ensures Times(t, Steps(1, unit, n)) <= Steps(t, unit, n)
    ensures t > 0 ==> Steps(t, unit, n) < Times(t, Steps(1, unit, n)) + t
  {
    if t == 1 {
      assert Times(1, Steps(1, unit, n)) == Steps(1, unit, n) by { TimesIs(1, Steps(1, unit, n)); }
    } else if t > 1 {
      StepsDrift(t - 1, unit, n);
      StepsAdd(t - 1, 1, unit, n);
    }
  }

  /// The whole part of a step and what is left over step apart.
  lemma StepsSplit(t: nat, unit: nat, n: nat)
    requires n > 0
    ensures Steps(t, unit, n) == Times(t, Steps(1, unit, n)) + Steps(t, unit % n, n)
  {
    var q, r := unit / n, unit % n;
    TimesIs(q, n);
    assert unit == q * n + r;
    TimesSplit(t, q, r, n);
    QuotOfMultiple(Times(t, q), Times(t, r), n);
    StepsOne(unit, n);
  }

  lemma StepsOne(unit: nat, n: nat)
    requires n > 0
    ensures Steps(1, unit, n) == unit / n
  {
    TimesIs(1, unit);
    QuotIs(unit, n);
  }

  lemma {:induction false} TimesSplit(t: nat, q: nat, r: nat, n: nat)
    ensures Times(t, Times(q, n) + r) == Times(Times(t, q), n) + Times(t, r)
  {
    if t > 0 {
      TimesSplit(t - 1, q, r, n);
      TimesAdds(Times(t - 1, q), q, n);
    }
  }

  /// Steps are even when the unit divides.
  lemma {:induction false} StepsEven(t: nat, q: nat, n: nat)
    requires n > 0
    ensures Steps(t, Times(q, n), n) == Times(t, q)
  {
    if t > 0 {
      StepsEven(t - 1, q, n);
      QuotOfMultiple(q, Times(t - 1, Times(q, n)), n);
    }
  }
}
