/// The engine's pacing clock (src/core/frame_clock.h and .cpp) and the share of
/// audio each of its ticks carries (src/engine/engine.cpp:262-277).
///
/// Nanoseconds and ticks are unbounded here; `ProductFits` says up to which
/// tick the 64-bit arithmetic of the source is this arithmetic. The three times
/// a call reads the wall clock are its parameters.
module FrameClock {
  import opened Basics
  import opened Quotients

  const NANOS: nat := 1_000_000_000
  const INT64_MAX: nat := 9_223_372_036_854_775_807

  datatype FrameRate = FrameRate(numerator: int, denominator: nat)

  /// Nanoseconds after the start at which `tick` is due.
  function Deadline(rate: FrameRate, tick: nat): nat {
    if rate.numerator <= 0 then 0 else tick * NANOS * rate.denominator / rate.numerator
  }

  /// How many ticks a call made at `now` abandons when `tick` is next.
  function Behind(rate: FrameRate, tick: nat, now: nat): nat {
    var period, deadline := Deadline(rate, 1), Deadline(rate, tick);
    if period > 0 && now > deadline + period then (now - deadline) / period else 0
  }

  class Clock {
    var rate: FrameRate
    var nextTick: nat
    var droppedTicks: nat
    var lastLateness: int
    /// The ticks emitted since the clock was last anchored.
    ghost var emitted: seq<nat>

    /// Ticks only ever increase, and every tick that was due was emitted or
    /// counted.
    ghost predicate Valid()
      reads this
    {
      && nextTick == |emitted| + droppedTicks
      && (forall i, j :: 0 <= i < j < |emitted| ==> emitted[i] < emitted[j])
      && (forall i :: 0 <= i < |emitted| ==> emitted[i] < nextTick)
      && (emitted != [] ==> emitted[|emitted| - 1] == nextTick - 1)
      && (emitted == [] ==> droppedTicks == 0)
    }

    constructor (rate: FrameRate)
      ensures Valid() && this.rate == rate && emitted == []
    {
      this.rate, nextTick, droppedTicks, lastLateness, emitted := rate, 0, 0, 0, [];
    }

    /// Anchors tick 0 at now.
    method Start()
      modifies this
      ensures Valid() && rate == old(rate) && emitted == [] && lastLateness == 0
    {
      nextTick, droppedTicks, lastLateness, emitted := 0, 0, 0, [];
    }

    method SetRate(newRate: FrameRate)
      modifies this
      ensures Valid() && rate == newRate && emitted == [] && lastLateness == 0
    {
      rate := newRate;
      Start();
    }

    /// `first`, `second` and `third` are the clock on entry, before the sleep
    /// and after it; `slept` is what is asked of the sleep.
    method WaitForNextTick(first: nat, second: nat, third: nat) returns (tick: nat, slept: nat)
      requires Valid()
      modifies this
      ensures Valid() && rate == old(rate)
      ensures tick == old(nextTick) + Behind(rate, old(nextTick), first)
      ensures emitted == old(emitted) + [tick] && droppedTicks == old(droppedTicks) + (tick - old(nextTick))
      ensures second + slept == Max(second, Deadline(rate, tick))
      ensures lastLateness == third - Deadline(rate, tick)
    {
      var period := Deadline(rate, 1);
      tick := nextTick;
      var deadline := Deadline(rate, tick);
      if period > 0 && first > deadline + period {
        var behind := (first - deadline) / period;
        droppedTicks := droppedTicks + behind;
        tick := tick + behind;
        deadline := Deadline(rate, tick);
      }
      slept := if deadline > second then deadline - second else 0;
      lastLateness := third - deadline;
      nextTick := tick + 1;
      emitted := emitted + [tick];
    }
  }

  /// `tick * 10^9 * denominator` as whole units.
  function Unit(rate: FrameRate): nat { NANOS * rate.denominator }

  lemma DeadlineIs(rate: FrameRate, tick: nat)
    requires rate.numerator > 0
    ensures Deadline(rate, tick) == Steps(tick, Unit(rate), rate.numerator)
  {
    StepsIs(tick, Unit(rate), rate.numerator);
    assert tick * NANOS * rate.denominator == tick * Unit(rate) by { Associates(tick, NANOS, rate.denominator); }
  }

  lemma Associates(a: nat, b: nat, c: nat)
    ensures a * b * c == a * (b * c)
  {
  }

  /// Deadlines accumulate nothing: whole runs of `numerator` ticks take whole
  /// runs of `denominator` seconds, to the nanosecond, for ever.
  lemma NoDrift(rate: FrameRate, k: nat, tick: nat)
    requires rate.numerator > 0
    ensures Deadline(rate, Times(k, rate.numerator) + tick) == Times(k, Unit(rate)) + Deadline(rate, tick)
  {
    var n, unit := rate.numerator, Unit(rate);
    DeadlineIs(rate, Times(k, n) + tick);
    DeadlineIs(rate, tick);
    TimesAdds(Times(k, n), tick, unit);
    TimesSwap(k, n, unit);
    QuotOfMultiple(Times(k, unit), Times(tick, unit), n);
  }

  lemma TimesSwap(k: nat, n: nat, unit: nat)
    ensures Times(Times(k, n), unit) == Times(Times(k, unit), n)
  {
    TimesIs(Times(k, n), unit);
    TimesIs(Times(k, unit), n);
    TimesIs(k, n);
    TimesIs(k, unit);
    assert k * n * unit == k * unit * n by { Associates(k, n, unit); Associates(k, unit, n); }
  }

  /// Adding a rounded period instead would be early, by less than a nanosecond
  /// a tick.
  lemma RoundedPeriodDrifts(rate: FrameRate, tick: nat)
    ensures Times(tick, Deadline(rate, 1)) <= Deadline(rate, tick)
    ensures tick > 0 ==> Deadline(rate, tick) < Times(tick, Deadline(rate, 1)) + tick
  {
    if rate.numerator > 0 {
      DeadlineIs(rate, 1);
      DeadlineIs(rate, tick);
      StepsDrift(tick, Unit(rate), rate.numerator);
    } else {
      TimesIs(tick, 0);
    }
  }

  lemma BehindBounds(rate: FrameRate, tick: nat, now: nat)
    requires Behind(rate, tick, now) > 0
    ensures Times(Behind(rate, tick, now), Deadline(rate, 1)) <= now - Deadline(rate, tick)
         < Times(Behind(rate, tick, now), Deadline(rate, 1)) + Deadline(rate, 1)
  {
    QuotIs(now - Deadline(rate, tick), Deadline(rate, 1));
    QuotBounds(now - Deadline(rate, tick), Deadline(rate, 1));
  }

  /// Where a call lands: the tick it emits is never a whole period old or
  /// more, except for one that was at most a period late and is emitted as it
  /// is; a call that jumps skips at least one.
  lemma JumpLands(rate: FrameRate, tick: nat, now: nat)
    ensures var period, behind := Deadline(rate, 1), Behind(rate, tick, now);
            && (now <= Deadline(rate, tick) + period || period == 0 ==> behind == 0)
            && (now > Deadline(rate, tick) + period && period > 0 ==>
                  behind >= 1 && now < Deadline(rate, tick + behind) + period)
  {
    var period, behind := Deadline(rate, 1), Behind(rate, tick, now);
    if period > 0 && now > Deadline(rate, tick) + period {
      var x := now - Deadline(rate, tick);
      QuotIs(x, period);
      QuotBounds(x, period);
      DeadlineIs(rate, tick);
      DeadlineIs(rate, behind);
      DeadlineIs(rate, tick + behind);
      StepsAdd(tick, behind, Unit(rate), rate.numerator);
      RoundedPeriodDrifts(rate, behind);
    }
  }

  /// While no more than a period's worth of ticks is skipped, and one more,
  /// every abandoned tick had already come due.
  lemma AbandonedHadPassed(rate: FrameRate, tick: nat, now: nat, k: nat)
    requires k < Behind(rate, tick, now) <= Deadline(rate, 1) + 1
    ensures Deadline(rate, tick + k) <= now
  {
    var period, behind := Deadline(rate, 1), Behind(rate, tick, now);
    BehindBounds(rate, tick, now);
    DeadlineIs(rate, tick);
    DeadlineIs(rate, k);
    DeadlineIs(rate, tick + k);
    StepsAdd(tick, k, Unit(rate), rate.numerator);
    RoundedPeriodDrifts(rate, k);
    TimesMonotone(k + 1, behind, period);
    if k == 0 { assert Times(0, Unit(rate)) == 0; }
  }

  // Exactly when: a deadline is so many rounded periods and the nanoseconds the
  // fractions of a period have gathered by then.

  /// What `tick` fractions of a period left over by rounding come to.
  function Fractions(rate: FrameRate, tick: nat): nat {
    if rate.numerator <= 0 then 0 else tick * (Unit(rate) % rate.numerator) / rate.numerator
  }

  lemma DeadlineSplits(rate: FrameRate, tick: nat)
    ensures Deadline(rate, tick) == Times(tick, Deadline(rate, 1)) + Fractions(rate, tick)
  {
    if rate.numerator > 0 {
      DeadlineIs(rate, tick);
      DeadlineIs(rate, 1);
      StepsSplit(tick, Unit(rate), rate.numerator);
      StepsIs(tick, Unit(rate) % rate.numerator, rate.numerator);
    } else {
      TimesIs(tick, 0);
    }
  }

  /// A call that jumps lands at or before now exactly when what the fractions
  /// of the skipped ticks gather fits in the part of a period it is late
  /// beyond them.
  lemma JumpLandsByNowIff(rate: FrameRate, tick: nat, now: nat)
    requires Behind(rate, tick, now) > 0
    ensures var behind := Behind(rate, tick, now);
            Deadline(rate, tick + behind) <= now <==>
              Fractions(rate, tick + behind) - Fractions(rate, tick) <= (now - Deadline(rate, tick)) % Deadline(rate, 1)
  {
    var period, behind := Deadline(rate, 1), Behind(rate, tick, now);
    DeadlineSplits(rate, tick);
    DeadlineSplits(rate, tick + behind);
    TimesAdds(tick, behind, period);
    LateBeyond(now - Deadline(rate, tick), behind - 1, period);
  }

  /// Always so at a rate whose period is a whole number of nanoseconds;
  lemma WholePeriodsLandByNow(rate: FrameRate, tick: nat, now: nat)
    requires rate.numerator > 0 && Unit(rate) % rate.numerator == 0 && Behind(rate, tick, now) > 0
    ensures Deadline(rate, tick + Behind(rate, tick, now)) <= now
  {
    JumpLandsByNowIff(rate, tick, now);
    assert (tick + Behind(rate, tick, now)) * 0 == 0 && tick * 0 == 0;
  }

  /// at any other, a skip of `behind` ticks does whatever the lateness exactly
  /// when it skips one tick or its fractions gather less than a nanosecond.
  lemma SkipLandsByNowIff(rate: FrameRate, tick: nat, behind: nat)
    requires Deadline(rate, 1) > 1 && behind > 0
    ensures (forall now :: Behind(rate, tick, now) == behind ==> Deadline(rate, tick + behind) <= now)
       <==> behind == 1 || Fractions(rate, tick + behind) == Fractions(rate, tick)
  {
    var period := Deadline(rate, 1);
    FractionsGrow(rate, tick, behind);
    if behind == 1 || Fractions(rate, tick + behind) == Fractions(rate, tick) {
      forall now | Behind(rate, tick, now) == behind ensures Deadline(rate, tick + behind) <= now {
        JumpLandsByNowIff(rate, tick, now);
        if behind == 1 { JumpByOneIsLate(rate, tick, now); }
      }
    } else {
      var now := Deadline(rate, tick) + behind * period;
      WholePeriodsLate(behind, period);
      assert Behind(rate, tick, now) == behind;
      JumpLandsByNowIff(rate, tick, now);
    }
  }

  lemma WholePeriodsLate(k: nat, period: nat)
    requires period > 0
    ensures k * period / period == k && k * period % period == 0
    ensures k >= 2 ==> k * period > period
  {
    ModIs(k * period, k, 0, period);
    if k >= 2 { assert k * period == period + (k - 1) * period; }
  }

  lemma JumpByOneIsLate(rate: FrameRate, tick: nat, now: nat)
    requires Behind(rate, tick, now) == 1
    ensures (now - Deadline(rate, tick)) % Deadline(rate, 1) > 0
  {
    var x, period := now - Deadline(rate, tick), Deadline(rate, 1);
    assert x == 1 * period + x % period;
  }

  lemma FractionsGrow(rate: FrameRate, tick: nat, k: nat)
    ensures Fractions(rate, tick) <= Fractions(rate, tick + k)
    ensures k == 1 ==> Fractions(rate, tick + k) <= Fractions(rate, tick) + 1
  {
    if rate.numerator > 0 {
      var r, n := Unit(rate) % rate.numerator, rate.numerator;
      StepsIs(tick, r, n);
      StepsIs(k, r, n);
      StepsIs(tick + k, r, n);
      StepsAdd(tick, k, r, n);
      if k == 1 { assert Times(1, r) == r by { TimesIs(1, r); } }
    }
  }

  /// Every abandoned tick had come due exactly when what their fractions gather
  /// fits in the lateness beyond all but one of them.
  lemma AbandonedHadPassedIff(rate: FrameRate, tick: nat, now: nat)
    requires Behind(rate, tick, now) > 0
    ensures var period, last := Deadline(rate, 1), Behind(rate, tick, now) - 1;
            (forall due :: tick <= due <= tick + last ==> Deadline(rate, due) <= now) <==>
              Fractions(rate, tick + last) - Fractions(rate, tick) <= period + (now - Deadline(rate, tick)) % period
  {
    var period, last := Deadline(rate, 1), Behind(rate, tick, now) - 1;
    DeadlineSplits(rate, tick);
    DeadlineSplits(rate, tick + last);
    TimesAdds(tick, last, period);
    LateBeyond(now - Deadline(rate, tick), last, period);
    forall due | tick <= due <= tick + last ensures Deadline(rate, due) <= Deadline(rate, tick + last) {
      DeadlineRises(rate, due, tick + last);
    }
  }

  lemma LateBeyond(late: nat, k: nat, period: nat)
    requires period > 0 && late / period == k + 1
    ensures late == Times(k, period) + period + late % period
  {
    TimesIs(k, period);
    assert late == (k + 1) * period + late % period;
    assert (k + 1) * period == k * period + period;
  }

  lemma DeadlineRises(rate: FrameRate, early: nat, tick: nat)
    requires early <= tick
    ensures Deadline(rate, early) <= Deadline(rate, tick)
  {
    DeadlineSplits(rate, early);
    DeadlineSplits(rate, tick);
    FractionsGrow(rate, early, tick - early);
    TimesMonotone(early, tick, Deadline(rate, 1));
  }

  /// At 25 frames a second a call 100 ms late for tick 0 jumps to tick 2, which
  /// was due 20 ms before.
  lemma JumpCanLandInThePast()
    ensures var rate := FrameRate(25, 1);
            Behind(rate, 0, 100_000_000) == 2 && Deadline(rate, 2) == 80_000_000
  {
  }

  /// A clock that has just started again can draw any number from 2 on for its
  /// first tick.
  lemma RestartRepeats(rate: FrameRate, number: nat)
    requires Deadline(rate, 1) > 0 && number >= 2
    ensures Behind(rate, 0, number * Deadline(rate, 1)) == number
  {
    DeadlineSplits(rate, 0);
    WholePeriodsLate(number, Deadline(rate, 1));
  }

  /// Past that, one need not have: at a rate of 600 million ticks a second the
  /// period rounds to a nanosecond, and a call 100 ns late abandons a tick due
  /// 65 ns in the future.
  lemma LongSkipsOvershoot()
    ensures var rate := FrameRate(600_000_000, 1);
            Behind(rate, 0, 100) == 100 && Deadline(rate, 99) > 100
  {
  }

  /// The product of the deadline stays within 64 bits exactly up to this tick.
  lemma ProductFits(tick: nat, denominator: nat)
    requires denominator > 0
    ensures tick * NANOS * denominator <= INT64_MAX <==> tick <= INT64_MAX / (NANOS * denominator)
  {
    var unit := NANOS * denominator;
    Associates(tick, NANOS, denominator);
    QuotIs(INT64_MAX, unit);
    QuotBounds(INT64_MAX, unit);
    var last := Quot(INT64_MAX, unit);
    TimesIs(tick, unit);
    if tick <= last {
      TimesMonotone(tick, last, unit);
    } else {
      TimesMonotone(last + 1, tick, unit);
    }
  }

  /// At the 1000/1001 rates that is under 43 hours at 59.94.
  lemma FractionalRatesFit(tick: nat)
    ensures tick * NANOS * 1001 <= INT64_MAX <==> tick <= 9_214_157
  {
    ProductFits(tick, 1001);
  }

  // ------------------------------------------------------- audio per tick

  /// The audio frames of one tick at `sampleRate`.
  function AudioFramesForTick(rate: FrameRate, sampleRate: int, tick: nat): int {
    if sampleRate <= 0 || rate.numerator <= 0 then 0
    else
      var start := tick * sampleRate * rate.denominator / rate.numerator;
      var end := (tick + 1) * sampleRate * rate.denominator / rate.numerator;
      end - start
  }

  function AudioFrames(rate: FrameRate, sampleRate: int, first: nat, count: nat): int {
    if count == 0 then 0
    else AudioFrames(rate, sampleRate, first, count - 1) + AudioFramesForTick(rate, sampleRate, first + count - 1)
  }

  lemma AudioPosition(rate: FrameRate, sampleRate: nat, tick: nat)
    requires rate.numerator > 0
    ensures tick * sampleRate * rate.denominator / rate.numerator == Steps(tick, sampleRate * rate.denominator, rate.numerator)
  {
    StepsIs(tick, sampleRate * rate.denominator, rate.numerator);
    Associates(tick, sampleRate, rate.denominator);
  }

  /// Any run of ticks carries exactly the difference of two floors: nothing is
  /// lost or repeated between ticks.
  lemma {:induction false} AudioTelescopes(rate: FrameRate, sampleRate: nat, first: nat, count: nat)
    requires rate.numerator > 0 && sampleRate > 0
    ensures AudioFrames(rate, sampleRate, first, count)
         == (first + count) * sampleRate * rate.denominator / rate.numerator
            - first * sampleRate * rate.denominator / rate.numerator
  {
    if count > 0 { AudioTelescopes(rate, sampleRate, first, count - 1); }
  }

  /// Each tick carries the floor of the exact share or, when the share is not
  /// whole, possibly its ceiling.
  lemma AudioShare(rate: FrameRate, sampleRate: nat, tick: nat)
    requires rate.numerator > 0 && sampleRate > 0
    ensures var unit, frames := sampleRate * rate.denominator, AudioFramesForTick(rate, sampleRate, tick);
            && (frames == unit / rate.numerator || frames == unit / rate.numerator + 1)
            && (unit % rate.numerator == 0 ==> frames == unit / rate.numerator)
  {
    var unit, n := sampleRate * rate.denominator, rate.numerator;
    AudioPosition(rate, sampleRate, tick);
    AudioPosition(rate, sampleRate, tick + 1);
    StepsAdd(tick, 1, unit, n);
    QuotIs(unit, n);
    assert Times(1, unit) == unit by { TimesIs(1, unit); }
    if unit % n == 0 { AudioShareEven(tick, unit, n); }
  }

  lemma AudioShareEven(tick: nat, unit: nat, n: nat)
    requires n > 0 && unit % n == 0
    ensures Steps(tick + 1, unit, n) == Steps(tick, unit, n) + unit / n
  {
    TimesIs(unit / n, n);
    StepsEven(tick, unit / n, n);
    StepsEven(tick + 1, unit / n, n);
  }
}
