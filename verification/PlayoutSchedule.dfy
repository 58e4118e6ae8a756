/// Where a scheduled-playback output puts each frame on the card's timeline
/// (src/core/playout_schedule.h and .cpp).
module PlayoutSchedule {
  import opened Basics
  import opened Quotients

  type Positive = n: nat | n > 0 witness 1

  /// Strictly after the playhead, or a whole frame after it once the card has
  /// reported a frame late or dropped.
  function Margin(duration: nat, late: bool): nat { if late then duration else 1 }

  /// The first whole frame at or after the playhead.
  function OnAir(playhead: nat, duration: nat): nat
    requires duration > 0
  {
    Quot(playhead + duration - 1, duration)
  }

  /// The next index once the schedule has been checked against the playhead.
  function Checked(next: nat, duration: nat, preroll: nat, playhead: nat, late: bool): nat
    requires duration > 0
  {
    if Times(next, duration) >= playhead + Margin(duration, late) then next
    else Max(next, OnAir(playhead, duration) + preroll)
  }

  class Schedule {
    const duration: Positive
    const timeScale: Positive
    const preroll: Positive
    var next: nat
    var reanchors: nat
    var skipped: nat

    constructor (frameDuration: int, scale: int, wantedPreroll: int)
      ensures duration == Max(1, frameDuration) && timeScale == Max(1, scale) && preroll == Max(1, wantedPreroll)
      ensures next == 0 && reanchors == 0 && skipped == 0
    {
      duration := if frameDuration > 1 then frameDuration else 1;
      timeScale := if scale > 1 then scale else 1;
      preroll := if wantedPreroll > 1 then wantedPreroll else 1;
      next, reanchors, skipped := 0, 0, 0;
    }

    method NextDisplayTime() returns (time: nat)
      ensures time == Times(next, duration)
    {
      TimesIs(next, duration);
      time := next * duration;
    }

    method Advance()
      modifies this
      ensures next == old(next) + 1 && reanchors == old(reanchors) && skipped == old(skipped)
    {
      next := next + 1;
    }

    /// Back to index 0; the counters are kept.
    method Reset()
      modifies this
      ensures next == 0 && reanchors == old(reanchors) && skipped == old(skipped)
    {
      next := 0;
    }

    method Reanchor(cardPlayhead: int, lateReported: bool) returns (slots: int)
      modifies this
      ensures next == Checked(old(next), duration, preroll, Max(0, cardPlayhead), lateReported)
      ensures slots == next - old(next) && skipped == old(skipped) + slots
      ensures reanchors == old(reanchors) + (if slots > 0 then 1 else 0)
    {
      var playhead := Max(0, cardPlayhead);
      var margin := if lateReported then duration else 1;
      var display := NextDisplayTime();
      if display >= playhead + margin {
        return 0;
      }
      var onAir := (playhead + duration - 1) / duration;
      QuotIs(playhead + duration - 1, duration);
      ActsForward(next, duration, preroll, playhead, lateReported);
      var target := Max(next, onAir + preroll);
      slots := target - next;
      if slots <= 0 {
        return 0;
      }
      next := target;
      reanchors := reanchors + 1;
      skipped := skipped + slots;
    }

    /// The first audio sample of frame `index`.
    method SamplePosition(index: nat, sampleRate: nat) returns (sample: nat)
      ensures sample == index * duration * sampleRate / timeScale
    {
      sample := SampleAt(index * duration, sampleRate);
    }

    /// The sample at a display time, splitting off whole multiples of the time
    /// scale.
    method SampleAt(time: nat, sampleRate: nat) returns (sample: nat)
      ensures sample == time * sampleRate / timeScale
    {
      var whole := time / timeScale;
      var part := time % timeScale;
      SplitMultiply(time, sampleRate, timeScale);
      sample := whole * sampleRate + (part * sampleRate) / timeScale;
    }
  }

  /// The split multiply is the exact floor, and the product of the remainder
  /// stays below the product of the two constants, however long the show.
  lemma SplitMultiply(time: nat, rate: nat, scale: nat)
    requires scale > 0
    ensures (time / scale) * rate + (time % scale) * rate / scale == time * rate / scale
    ensures rate > 0 ==> (time % scale) * rate < scale * rate
  {
    var q, r := time / scale, time % scale;
    TimesIs(q, rate);
    TimesIs(r, rate);
    TimesIs(time, rate);
    TimesIs(q, scale);
    assert time == Times(q, scale) + r;
    TimesAdds(Times(q, scale), r, rate);
    Swap(q, scale, rate);
    QuotOfMultiple(Times(q, rate), Times(r, rate), scale);
    QuotIs(Times(time, rate), scale);
    QuotIs(Times(r, rate), scale);
    TimesIs(scale, rate);
    TimesGrows(r, scale, rate);
  }

  lemma Swap(a: nat, b: nat, c: nat)
    ensures Times(Times(a, b), c) == Times(Times(a, c), b)
  {
    TimesIs(Times(a, b), c);
    TimesIs(Times(a, c), b);
    TimesIs(a, b);
    TimesIs(a, c);
    assert a * b * c == a * c * b by {
      assert a * b * c == a * (b * c);
      assert a * c * b == a * (c * b);
    }
  }

  /// A check that finds the schedule behind always skips at least one slot:
  /// the early return for nothing to skip is never taken.
  lemma ActsForward(next: nat, duration: nat, preroll: nat, playhead: nat, late: bool)
    requires duration > 0 && preroll > 0
    requires Times(next, duration) < playhead + Margin(duration, late)
    ensures next < OnAir(playhead, duration) + preroll
  {
    QuotBounds(playhead + duration - 1, duration);
    var onAir := OnAir(playhead, duration);
    if onAir < next {
      TimesGrows(onAir, next, duration);
    }
  }

  /// What a check establishes: the next frame is ahead of the playhead by the
  /// margin asked for, never earlier than it was, a second check at the same
  /// playhead moves nothing, and a check that moves lands `preroll` frames
  /// after the first whole frame at or after the playhead.
  lemma CheckEstablishes(next: nat, duration: nat, preroll: nat, playhead: nat, late: bool)
    requires duration > 0 && preroll > 0
    ensures var r := Checked(next, duration, preroll, playhead, late);
            && Times(r, duration) >= playhead + Margin(duration, late)
            && r >= next
            && (r > next <==> Times(next, duration) < playhead + Margin(duration, late))
            && Checked(r, duration, preroll, playhead, late) == r
            && (r > next ==> Checked(r, duration, preroll, playhead, true) == r
                             && r >= preroll
                             && playhead <= Times(r - preroll, duration) < playhead + duration)
  {
    if Times(next, duration) < playhead + Margin(duration, late) {
      ActsForward(next, duration, preroll, playhead, late);
      QuotBounds(playhead + duration - 1, duration);
      TimesAdds(OnAir(playhead, duration), preroll, duration);
      TimesMonotone(1, preroll, duration);
      assert Times(1, duration) == duration by { TimesIs(1, duration); }
    }
  }

  /// With the playhead on a frame, as the card reports it, the margin makes no
  /// difference: a check moves exactly when that frame has been reached.
  lemma CheckOnFrame(next: nat, duration: nat, preroll: nat, frame: nat, late: bool)
    requires duration > 0 && preroll > 0
    ensures Checked(next, duration, preroll, Times(frame, duration), late) == if next > frame then next else frame + preroll
  {
    QuotOfMultiple(frame, duration - 1, duration);
    if next > frame {
      TimesGrows(frame, next, duration);
    } else {
      TimesMonotone(next, frame, duration);
    }
  }
}
