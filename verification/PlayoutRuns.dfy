/// A run of scheduled playback from its beginning in which a frame that was
/// checked in time is shown late.
module PlayoutRuns {
  import opened Basics
  import opened PlayoutSchedule
  import opened RecycleRing
  import opened Playout

  /// Two frames, the first out of the ring.
  function Seen(duration: Positive, next: nat, phase: Phase, writer: Writer, second: bool, card: Card, log: Log): State {
    State(Ring([Slot(0, false), Slot(1, second)], false, 0, 0, 0), duration, 1, next, 0, false, 0, phase, writer, card, log)
  }

  function Scheduled(): Card { Card(0, [Entry(0, 0)], None, [], None) }

  function FirstLog(accepted: nat): Log { Log({0}, {0}, map[], {}, false, 0, accepted) }

  function OnAirFirst(): Card { Card(1, [], Some(Done(0, 0, Completed)), [], None) }

  function OnAirLog(): Log { Log({0}, {0}, map[0 := 0], {}, false, 0, 0) }

  lemma FirstIsScheduled(duration: Positive)
    ensures Run(Begin(2, duration, 1), [Acquire, Check(true)] + [HandOver(true), Start])
         == Some(Seen(duration, 1, Playing, Resting, true, Scheduled(), FirstLog(0)))
  {
    var empty, none := Card(0, [], None, [], None), Log({}, {}, map[], {}, false, 0, 0);
    var s0 := Begin(2, duration, 1);
    assert s0.ring.slots == [Slot(0, true), Slot(1, true)];
    var s1 := Seen(duration, 0, Prerolling, Writing(0), true, empty, none);
    var s2 := Seen(duration, 0, Prerolling, Ready(0, None), true, empty, none);
    var s3 := Seen(duration, 1, Prerolling, Resting, true, Scheduled(), FirstLog(1));
    assert s0.ring.slots[0 := Slot(0, false)] == s1.ring.slots;
    assert Next(s0, Acquire) == Some(s1);
    RunTwo(s0, Acquire, s1, Check(true), s2);
    RunAppend(s0, [Acquire, Check(true)], s2, [HandOver(true), Start]);
    var used: set<nat> := {};
    assert used + {0} == {0} && Queued([], Entry(0, 0)) == [Entry(0, 0)];
    assert Next(s2, HandOver(true)).value.log == s3.log;
    assert Next(s2, HandOver(true)) == Some(s3);
    RunTwo(s2, HandOver(true), s3, Start, s3.(phase := Playing, log := FirstLog(0)));
  }

  lemma SecondIsChecked(duration: Positive)
    ensures Run(Seen(duration, 1, Playing, Resting, true, Scheduled(), FirstLog(0)),
                [Boundary, Acquire] + [Check(true)])
         == Some(Seen(duration, 1, Playing, Ready(1, Some(1)), false, OnAirFirst(), OnAirLog()))
  {
    var s0 := Seen(duration, 1, Playing, Resting, true, Scheduled(), FirstLog(0));
    var s1 := Seen(duration, 1, Playing, Resting, true, OnAirFirst(), OnAirLog());
    var s2 := Seen(duration, 1, Playing, Writing(1), false, OnAirFirst(), OnAirLog());
    assert Due([Entry(0, 0)], 0) == 1 by { assert [Entry(0, 0)][1..] == []; }
    assert [Entry(0, 0)][..0] == [];
    assert AtBoundary(s0.card) == OnAirFirst() by { assert Ended([], Dropped) == []; }
    assert BoundaryLog([Entry(0, 0)], 0, s0.log) == OnAirLog() by { assert Slots([]) == {}; }
    assert Next(s0, Boundary) == Some(s1);
    assert s1.ring.slots[1 := Slot(1, false)] == s2.ring.slots;
    assert FirstFree(s1.ring.slots) == 1;
    assert Next(s1, Acquire) == Some(s2);
    RunTwo(s0, Boundary, s1, Acquire, s2);
    RunAppend(s0, [Boundary, Acquire], s2, [Check(true)]);
    CheckOnFrame(1, duration, 1, 0, false);
    assert [Check(true)][1..] == [];
  }

  /// The start of `SlowHandOverIsLate`, from the beginning: with a preroll of
  /// one, the second frame is shown a boundary late.
  lemma SecondFrameIsLate(duration: Positive)
    ensures var steps := (([Acquire, Check(true)] + [HandOver(true), Start]) + ([Boundary, Acquire] + [Check(true)]))
                         + ([Boundary, HandOver(true)] + [Boundary]);
            var end := Run(Begin(2, duration, 1), steps);
            end.Some? && 1 in end.value.log.shown && end.value.log.shown[1] == 2
            && end.value.card.onAir == Some(Done(1, 1, Late))
  {
    var s0 := Begin(2, duration, 1);
    var s4 := Seen(duration, 1, Playing, Resting, true, Scheduled(), FirstLog(0));
    var s7 := Seen(duration, 1, Playing, Ready(1, Some(1)), false, OnAirFirst(), OnAirLog());
    var xs, ys := [Acquire, Check(true)] + [HandOver(true), Start], [Boundary, Acquire] + [Check(true)];
    FirstIsScheduled(duration);
    SecondIsChecked(duration);
    RunAppend(s0, xs, s4, ys);
    BeginHolds(2, duration, 1);
    RunKeeps(s0, xs + ys);
    RunAppend(s0, xs + ys, s7, [Boundary, HandOver(true)] + [Boundary]);
    SlowHandOverIsLate(s7);
  }
}
